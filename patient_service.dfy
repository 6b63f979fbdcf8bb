/**
  The patient service: create, read, update and delete over the patient
  table. `PatientDto` and the `Patient` row carry the same four fields and map
  field for field, so both are the `Patient` value here.
*/
module PatientService {
  import opened Wrappers
  import opened Models
  import opened Data

  /** `GetPatientsAsync`: every stored patient, and nothing else. */
  function GetPatients(ctx: PandaContext): (r: set<Patient>)
    reads ctx
    requires ctx.Valid()
    ensures forall k :: k in ctx.patients ==> ctx.patients[k] in r
    ensures forall p :: p in r ==> p.nhsNumber in ctx.patients && ctx.patients[p.nhsNumber] == p
    ensures |r| == |ctx.patients|
  {
    var r := set k | k in ctx.patients :: ctx.patients[k];
    assert r == ctx.patients.Values;
    CardinalityOfValues(ctx.patients);
    r
  }

  /** A map whose every value is stored under its own NHS number has as many values as keys. */
  lemma {:induction false} CardinalityOfValues(m: map<string, Patient>)
    requires forall k :: k in m ==> m[k].nhsNumber == k
    ensures |m.Values| == |m.Keys|
    decreases |m.Keys|
  {
    if m.Keys != {} {
      var k :| k in m.Keys;
      var rest := m - {k};
      CardinalityOfValues(rest);
      forall v | v in m.Values
        ensures v in rest.Values + {m[k]}
      {
        var j :| j in m && m[j] == v;
        if j != k {
          assert j in rest;
        }
      }
      forall v | v in rest.Values
        ensures v in m.Values
      {
        var j :| j in rest && rest[j] == v;
        assert j in m;
      }
      assert m[k] in m.Values;
      assert m.Values == rest.Values + {m[k]};
      assert m[k] !in rest.Values by {
        forall v | v in rest.Values
          ensures v != m[k]
        {
          var j :| j in rest && rest[j] == v;
          assert v.nhsNumber == j != k;
        }
      }
      assert m.Keys == rest.Keys + {k};
    }
  }

  /** `GetPatientByIdAsync`: null exactly when no patient has the NHS number, otherwise that patient. */
  function GetPatientById(ctx: PandaContext, nhsNumber: string): (r: Option<Patient>)
    reads ctx
    requires ctx.Valid()
    ensures r.None? <==> nhsNumber !in ctx.patients
    ensures r.Some? ==> r.value.nhsNumber == nhsNumber && r.value in GetPatients(ctx)
  {
    if nhsNumber in ctx.patients then Some(ctx.patients[nhsNumber]) else None
  }

  /** `PatientExistsAsync`: true exactly when the lookup by id finds a patient. */
  function PatientExists(ctx: PandaContext, nhsNumber: string): (b: bool)
    reads ctx
    requires ctx.Valid()
    ensures b <==> GetPatientById(ctx, nhsNumber).Some?
    ensures b <==> exists p :: p in GetPatients(ctx) && p.nhsNumber == nhsNumber
  {
    var r := nhsNumber in ctx.patients;
    assert r ==> ctx.patients[nhsNumber] in GetPatients(ctx);
    r
  }

  /**
    `AddPatientAsync`: store the patient under its NHS number and hand back the
    request. Inserting a key that is already stored is a persistence fault and
    changes nothing.
  */
  method AddPatient(ctx: PandaContext, patient: Patient) returns (result: Result<Patient, ServiceError>)
    requires ctx.Valid()
    modifies ctx
    ensures ctx.Valid()
    ensures patient.nhsNumber in old(ctx.patients) ==> result == Failure(DuplicateKey) && unchanged(ctx)
    ensures patient.nhsNumber !in old(ctx.patients) ==>
      result == Success(patient) && ctx.patients == old(ctx.patients)[patient.nhsNumber := patient]
    ensures ctx.appointments == old(ctx.appointments) && ctx.nextId == old(ctx.nextId)
    ensures ctx.clinicians == old(ctx.clinicians) && ctx.organisations == old(ctx.organisations)
    ensures ctx.departments == old(ctx.departments)
  {
    if patient.nhsNumber in ctx.patients {
      return Failure(DuplicateKey);
    }
    PutPatientKeepsValid(ctx.patients, ctx.appointments, ctx.clinicians, ctx.organisations,
                         ctx.departments, ctx.nextId, patient);
    ctx.patients := ctx.patients[patient.nhsNumber := patient];
    result := Success(patient);
  }

  /**
    `UpdatePatientAsync`: an unknown NHS number fails with PatientNotFound; a
    known one has its record overwritten with the request's fields.
  */
  method UpdatePatient(ctx: PandaContext, patient: Patient) returns (result: Outcome<ServiceError>)
    requires ctx.Valid()
    modifies ctx
    ensures ctx.Valid()
    ensures patient.nhsNumber !in old(ctx.patients) ==> result == Fail(PatientNotFound) && unchanged(ctx)
    ensures patient.nhsNumber in old(ctx.patients) ==>
      result == Pass && ctx.patients == old(ctx.patients)[patient.nhsNumber := patient]
    ensures ctx.appointments == old(ctx.appointments) && ctx.nextId == old(ctx.nextId)
    ensures ctx.clinicians == old(ctx.clinicians) && ctx.organisations == old(ctx.organisations)
    ensures ctx.departments == old(ctx.departments)
  {
    if patient.nhsNumber !in ctx.patients {
      return Fail(PatientNotFound);
    }
    PutPatientKeepsValid(ctx.patients, ctx.appointments, ctx.clinicians, ctx.organisations,
                         ctx.departments, ctx.nextId, patient);
    ctx.patients := ctx.patients[patient.nhsNumber := patient];
    result := Pass;
  }

  /**
    `DeletePatientAsync`: false and no change for an unknown NHS number;
    otherwise true, the patient's key is gone, and the database's cascading
    foreign key removes that patient's appointments with it.
  */
  method DeletePatient(ctx: PandaContext, nhsNumber: string) returns (deleted: bool)
    requires ctx.Valid()
    modifies ctx
    ensures ctx.Valid()
    ensures deleted <==> nhsNumber in old(ctx.patients)
    ensures !deleted ==> unchanged(ctx)
    ensures deleted ==> ctx.patients == old(ctx.patients) - {nhsNumber}
    ensures deleted ==> ctx.appointments == CascadeDelete(old(ctx.appointments), nhsNumber)
    ensures ctx.nextId == old(ctx.nextId)
    ensures ctx.clinicians == old(ctx.clinicians) && ctx.organisations == old(ctx.organisations)
    ensures ctx.departments == old(ctx.departments)
  {
    if nhsNumber !in ctx.patients {
      return false;
    }
    RemovePatientKeepsValid(ctx.patients, ctx.appointments, ctx.clinicians, ctx.organisations,
                            ctx.departments, ctx.nextId, nhsNumber);
    ctx.patients, ctx.appointments := ctx.patients - {nhsNumber}, CascadeDelete(ctx.appointments, nhsNumber);
    deleted := true;
  }
}
