/**
  The JSON converter for appointment statuses: reading looks the string up
  among the status names ignoring letter case, writing emits the name.
*/
module AppointmentStatusConverter {
  import opened Wrappers
  import opened Text
  import opened Models

  /** The two `JsonException`s `Read` throws. */
  datatype JsonError = NullValue | UnknownStatus(value: string)

  /**
    `Enum.GetValues<AppointmentStatus>()`. The enum's declaration is not part
    of this model; the order of its use in the mapping profile is assumed.
    `FirstMatchAnyOrder` shows that `Read` does not depend on it.
  */
  function StatusValues(): (values: seq<AppointmentStatus>)
    ensures |values| == 4
    ensures forall i, j :: 0 <= i < j < |values| ==> values[i] != values[j]
  {
    [Cancelled, Attended, Active, Missed]
  }

  /** The position of a status in `StatusValues`, its assumed underlying enum value. */
  function Ordinal(status: AppointmentStatus): (k: nat)
    ensures k < |StatusValues()| && StatusValues()[k] == status
  {
    match status
    case Cancelled => 0
    case Attended => 1
    case Active => 2
    case Missed => 3
  }

  /** `ToString()` of a status: its declared name, a capitalised word. */
  function Name(status: AppointmentStatus): (name: string)
    ensures |name| >= 6 && IsUpper(name[0])
    ensures forall i :: 1 <= i < |name| ==> IsLower(name[i])
  {
    match status
    case Cancelled => "Cancelled"
    case Attended => "Attended"
    case Active => "Active"
    case Missed => "Missed"
  }

  /** The `foreach` over `candidates`: the first whose name equals `value` ignoring case. */
  function FirstMatch(candidates: seq<AppointmentStatus>, value: string): (r: Option<AppointmentStatus>)
    ensures r.Some? ==> r.value in candidates && EqualsIgnoreCase(Name(r.value), value)
    ensures r.None? ==> forall i :: 0 <= i < |candidates| ==> !EqualsIgnoreCase(Name(candidates[i]), value)
  {
    if candidates == [] then None
    else if EqualsIgnoreCase(Name(candidates[0]), value) then Some(candidates[0])
    else FirstMatch(candidates[1..], value)
  }

  /**
    `Read`: a JSON null fails; otherwise the status whose name equals the
    string up to letter case, and a failure when there is none.
  */
  function Read(value: Option<string>): (r: Result<AppointmentStatus, JsonError>)
    ensures value.None? ==> r == Failure(NullValue)
    ensures r.Success? ==> value.Some? && EqualsIgnoreCase(Name(r.value), value.value)
    ensures value.Some? && r.Failure? ==>
      r.error == UnknownStatus(value.value) && forall s :: !EqualsIgnoreCase(Name(s), value.value)
  {
    match value
    case None => Failure(NullValue)
    case Some(v) =>
      match FirstMatch(StatusValues(), v)
      case Some(s) => Success(s)
      case None =>
        assert forall s :: !EqualsIgnoreCase(Name(s), v) by {
          forall s ensures !EqualsIgnoreCase(Name(s), v) {
            assert StatusValues()[Ordinal(s)] == s;
          }
        }
        Failure(UnknownStatus(v))
  }

  /** The writer the converter appends JSON tokens to. */
  class JsonWriter {
    var tokens: seq<string>

    constructor ()
      ensures tokens == []
    {
      tokens := [];
    }
  }

  /** `Write`: emits exactly the status name as a string token. */
  method Write(writer: JsonWriter, status: AppointmentStatus)
    modifies writer
    ensures writer.tokens == old(writer.tokens) + [Name(status)]
  {
    writer.tokens := writer.tokens + [Name(status)];
  }

  /** No two status names are equal ignoring case, so a read can match only one status. */
  lemma NamesDistinctIgnoringCase(s: AppointmentStatus, t: AppointmentStatus)
    requires s != t
    ensures !EqualsIgnoreCase(Name(s), Name(t))
  {
    EqualsIgnoreCaseAt(Name(s), Name(t));
    if |Name(s)| == |Name(t)| {
      assert ToUpper(Name(s)[0]) != ToUpper(Name(t)[0]);
    }
  }

  /** Reading what was written gives the status back. */
  lemma ReadWriteRoundTrip(status: AppointmentStatus)
    ensures Read(Some(Name(status))) == Success(status)
  {
    EqualsIgnoreCaseReflexive(Name(status));
    var r := Read(Some(Name(status)));
    if r.Success? && r.value != status {
      NamesDistinctIgnoringCase(r.value, status);
    }
  }

  /**
    Writing what was read gives the canonical spelling of the input: the same
    string up to letter case, and the name of a status.
  */
  lemma WriteReadCanonical(value: string, status: AppointmentStatus)
    requires Read(Some(value)) == Success(status)
    ensures EqualsIgnoreCase(Name(status), value)
    ensures forall other :: EqualsIgnoreCase(Name(other), value) ==> other == status
  {
    forall other | EqualsIgnoreCase(Name(other), value)
      ensures other == status
    {
      if other != status {
        EqualsIgnoreCaseAt(Name(other), value);
        EqualsIgnoreCaseAt(Name(status), value);
        EqualsIgnoreCaseAt(Name(other), Name(status));
        NamesDistinctIgnoringCase(other, status);
      }
    }
  }

  /** Any spelling of a status name, in any letter case, reads as that status. */
  lemma ReadIgnoresCase(value: string, status: AppointmentStatus)
    requires EqualsIgnoreCase(Name(status), value)
    ensures Read(Some(value)) == Success(status)
  {
    var r := Read(Some(value));
    if r.Success? && r.value != status {
      WriteReadCanonical(value, r.value);
    }
  }

  /** A lower-case spelling of a status name reads as that status. */
  lemma ReadExampleLowerCase()
    ensures Read(Some("cancelled")) == Success(Cancelled)
  {
    EqualsIgnoreCaseAt("Cancelled", "cancelled");
    ReadIgnoresCase("cancelled", Cancelled);
  }

  /** An upper-case spelling of a status name reads as that status. */
  lemma ReadExampleUpperCase()
    ensures Read(Some("MISSED")) == Success(Missed)
  {
    EqualsIgnoreCaseAt("Missed", "MISSED");
    ReadIgnoresCase("MISSED", Missed);
  }

  /** A string naming no status, and a JSON null, are both refused. */
  lemma ReadExamplesRefused()
    ensures Read(Some("Pending")).Failure?
    ensures Read(None) == Failure(NullValue)
  {
  }

  /**
    Whatever order the candidates come in, a string matching a status's name
    ignoring case finds that status: no two names match the same string.
  */
  lemma {:induction false} FirstMatchAnyOrder(candidates: seq<AppointmentStatus>, value: string, status: AppointmentStatus)
    requires status in candidates && EqualsIgnoreCase(Name(status), value)
    ensures FirstMatch(candidates, value) == Some(status)
  {
    var first := candidates[0];
    if EqualsIgnoreCase(Name(first), value) {
      if first != status {
        EqualsIgnoreCaseAt(Name(first), value);
        EqualsIgnoreCaseAt(Name(status), value);
        EqualsIgnoreCaseAt(Name(first), Name(status));
        NamesDistinctIgnoringCase(first, status);
        assert false;
      }
    } else {
      assert status in candidates[1..];
      FirstMatchAnyOrder(candidates[1..], value, status);
    }
  }
}
