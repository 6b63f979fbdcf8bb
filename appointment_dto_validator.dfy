/**
  The request validator for appointments: the Patient rule chain, which stops
  at the first failure and then defers to the NHS Number validator, and the
  Postcode rule chain, whose pattern is the anchored UK-postcode expression
    ^([A-Z]{1,2}[0-9][A-Z0-9]?\s?[0-9][A-Z]{2}|(BF)?[0-9]{1,2}\s?[0-9][A-Z]{2})$
  written out below as predicates. A null property is `None`.
*/
module AppointmentDtoValidator {
  import opened Wrappers
  import opened Text
  import NhsNumberValidator

  datatype ValidationFailure =
    | PatientNull
    | PatientEmpty
    | PatientNhsNumber(failure: NhsNumberValidator.NhsNumberFailure)
    | PostcodeEmpty
    | PostcodeFormat   // "Invalid UK Postcode format."

  predicate IsUpperOrDigit(c: char) { IsUpper(c) || IsDigit(c) }

  /** `[0-9][A-Z]{2}`: the inward code, always the last three characters. */
  predicate IsInwardCode(s: string) {
    |s| == 3 && IsDigit(s[0]) && IsUpper(s[1]) && IsUpper(s[2])
  }

  /** `[A-Z]{1,2}[0-9][A-Z0-9]?`: the outward code of the first alternative. */
  predicate IsCivilianOutward(s: string) {
    || (|s| == 2 && IsUpper(s[0]) && IsDigit(s[1]))
    || (|s| == 3 && IsUpper(s[0]) && IsUpper(s[1]) && IsDigit(s[2]))
    || (|s| == 3 && IsUpper(s[0]) && IsDigit(s[1]) && IsUpperOrDigit(s[2]))
    || (|s| == 4 && IsUpper(s[0]) && IsUpper(s[1]) && IsDigit(s[2]) && IsUpperOrDigit(s[3]))
  }

  /** `[0-9]{1,2}` */
  predicate IsOneOrTwoDigits(s: string) {
    1 <= |s| <= 2 && AllDigits(s)
  }

  /** `(BF)?[0-9]{1,2}`: the outward code of the second alternative. */
  predicate IsForcesOutward(s: string) {
    IsOneOrTwoDigits(s) || (|s| >= 2 && s[0] == 'B' && s[1] == 'F' && IsOneOrTwoDigits(s[2..]))
  }

  /** Either outward alternative: one to four characters. */
  predicate IsOutwardCode(s: string): (b: bool)
    ensures b ==> 1 <= |s| <= 4
  {
    IsCivilianOutward(s) || IsForcesOutward(s)
  }

  /** The body between the anchors: an outward code, an optional `\s`, an inward code. */
  predicate IsPostcodeBody(s: string): (b: bool)
    ensures b ==> 4 <= |s| <= 8
  {
    && |s| >= 3
    && IsInwardCode(s[|s| - 3..])
    && var outward := s[..|s| - 3];
       || IsOutwardCode(outward)
       || (|outward| >= 1 && IsWhiteSpace(outward[|outward| - 1]) && IsOutwardCode(outward[..|outward| - 1]))
  }

  /** `Regex.IsMatch` with the pattern: `$` also matches just before a final '\n'. */
  predicate MatchesPostcode(s: string): (b: bool)
    ensures b ==> 4 <= |s| <= 9
  {
    IsPostcodeBody(s) || (|s| >= 1 && s[|s| - 1] == '\n' && IsPostcodeBody(s[..|s| - 1]))
  }

  /**
    The Patient rule chain with `CascadeMode.Stop`: NotNull, then NotEmpty,
    then the NHS Number validator, whose failures are reported as they are.
  */
  function PatientRule(patient: Option<string>): (failures: seq<ValidationFailure>)
    ensures patient.None? ==> failures == [PatientNull]
    ensures patient.Some? && IsBlank(patient.value) ==> failures == [PatientEmpty]
    ensures failures == [] <==> patient.Some? && NhsNumberValidator.IsValidNhsNumber(patient.value)
    ensures patient.Some? && !IsBlank(patient.value) ==>
      && PatientNull !in failures && PatientEmpty !in failures
      && |failures| == |NhsNumberValidator.Validate(patient.value)|
      && forall f :: PatientNhsNumber(f) in failures <==> f in NhsNumberValidator.Validate(patient.value)
  {
    match patient
    case None => [PatientNull]
    case Some(p) =>
      if IsBlank(p) then [PatientEmpty]
      else
        var inner := NhsNumberValidator.Validate(p);
        var wrapped := seq(|inner|, i requires 0 <= i < |inner| => PatientNhsNumber(inner[i]));
        WrappedMembership(inner, wrapped);
        wrapped
  }

  /** Wrapping each validator failure position by position reports exactly those failures. */
  lemma WrappedMembership(inner: seq<NhsNumberValidator.NhsNumberFailure>, wrapped: seq<ValidationFailure>)
    requires |wrapped| == |inner|
    requires forall i :: 0 <= i < |inner| ==> wrapped[i] == PatientNhsNumber(inner[i])
    ensures forall f :: PatientNhsNumber(f) in wrapped <==> f in inner
  {
    forall f | f in inner
      ensures PatientNhsNumber(f) in wrapped
    {
      var i :| 0 <= i < |inner| && inner[i] == f;
      assert wrapped[i] == PatientNhsNumber(f);
    }
  }

  /**
    The Postcode rule chain with the default cascade: NotEmpty and the pattern
    are both checked; the pattern passes a null value, as FluentValidation's
    regular-expression rule does.
  */
  function PostcodeRule(postcode: Option<string>): (failures: seq<ValidationFailure>)
    ensures failures == [] <==> postcode.Some? && !IsBlank(postcode.value) && MatchesPostcode(postcode.value)
    ensures PostcodeEmpty in failures <==> postcode.None? || IsBlank(postcode.value)
    ensures PostcodeFormat in failures <==> postcode.Some? && !MatchesPostcode(postcode.value)
  {
    (if postcode.None? || IsBlank(postcode.value) then [PostcodeEmpty] else [])
    + (if postcode.Some? && !MatchesPostcode(postcode.value) then [PostcodeFormat] else [])
  }

  /** The whole validator: a request is accepted when neither rule chain fails. */
  function Validate(patient: Option<string>, postcode: Option<string>): (failures: seq<ValidationFailure>)
    ensures failures == [] <==>
      && patient.Some? && NhsNumberValidator.IsValidNhsNumber(patient.value)
      && postcode.Some? && !IsBlank(postcode.value) && MatchesPostcode(postcode.value)
  {
    PatientRule(patient) + PostcodeRule(postcode)
  }

  /** An empty Patient stops the chain: the NHS Number validator's failures do not appear. */
  lemma EmptyPatientStopsChain()
    ensures PatientRule(Some("")) == [PatientEmpty]
    ensures forall f :: PatientNhsNumber(f) !in PatientRule(Some(""))
  {
  }

  /** A postcode body is four to eight characters and ends with a digit and two capital letters. */
  lemma PostcodeBodyShape(s: string)
    requires IsPostcodeBody(s)
    ensures 4 <= |s| <= 8
    ensures IsDigit(s[|s| - 3]) && IsUpper(s[|s| - 2]) && IsUpper(s[|s| - 1])
  {
    assert IsInwardCode(s[|s| - 3..]);
    var outward := s[..|s| - 3];
    if IsOutwardCode(outward) {
      assert 1 <= |outward| <= 4;
    } else {
      assert IsOutwardCode(outward[..|outward| - 1]);
      assert 1 <= |outward[..|outward| - 1]| <= 4;
    }
  }

  /** Every accepted postcode, less a trailing newline, has the shape of a postcode body. */
  lemma AcceptedPostcodeShape(s: string)
    requires MatchesPostcode(s)
    ensures var body := if IsPostcodeBody(s) then s else s[..|s| - 1];
      && 4 <= |body| <= 8
      && IsDigit(body[|body| - 3]) && IsUpper(body[|body| - 2]) && IsUpper(body[|body| - 1])
  {
    if IsPostcodeBody(s) {
      PostcodeBodyShape(s);
    } else {
      PostcodeBodyShape(s[..|s| - 1]);
    }
  }

  /** No character of an outward code is a lower-case letter. */
  lemma OutwardHasNoLowerCase(s: string, i: nat)
    requires IsOutwardCode(s) && i < |s|
    ensures !IsLower(s[i])
  {
    if !IsCivilianOutward(s) && !IsOneOrTwoDigits(s) && i >= 2 {
      assert s[i] == s[2..][i - 2];
    }
  }

  /** Lower-case letters are never accepted anywhere in a postcode. */
  lemma AcceptedPostcodeHasNoLowerCase(s: string, i: nat)
    requires MatchesPostcode(s) && i < |s|
    ensures !IsLower(s[i])
  {
    var body := if IsPostcodeBody(s) then s else s[..|s| - 1];
    if i < |body| {
      assert s[i] == body[i];
      var n := |body|;
      var outward := body[..n - 3];
      if i >= n - 3 {
        assert body[i] == body[n - 3..][i - (n - 3)];
      } else if IsOutwardCode(outward) {
        assert body[i] == outward[i];
        OutwardHasNoLowerCase(outward, i);
      } else if i < |outward| - 1 {
        assert body[i] == outward[..|outward| - 1][i];
        OutwardHasNoLowerCase(outward[..|outward| - 1], i);
      } else {
        assert body[i] == outward[i];
      }
    }
  }

  lemma PostcodeExamples()
    ensures MatchesPostcode("AA1 1AA")
    ensures MatchesPostcode("AA1 1AA\n")
    ensures MatchesPostcode("BF1 1AA")
    ensures !MatchesPostcode("aa1 1aa")
    ensures !MatchesPostcode("")
  {
    assert IsCivilianOutward("AA1 1AA"[..4][..3]);
    assert "AA1 1AA\n"[..7] == "AA1 1AA";
    assert IsForcesOutward("BF1 1AA"[..4][..3]) by {
      assert "BF1 1AA"[..4][..3][2..] == "1";
    }
    if MatchesPostcode("aa1 1aa") {
      AcceptedPostcodeHasNoLowerCase("aa1 1aa", 0);
    }
  }
}
