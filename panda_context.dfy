/**
  The database context: the five tables the services read and write. Tables
  looked up by primary key are maps; the reference tables, which the services
  scan with `FirstOrDefault`, are sequences in insertion order. `Guid.NewGuid()`
  is modelled by a counter that is above every generated id.
*/
module Data {
  import opened Wrappers
  import opened Models

  /** `FirstOrDefault`'s position: the first row satisfying `p`. */
  function FirstIndex<T>(rows: seq<T>, p: T -> bool): (r: Option<nat>)
    ensures r.Some? ==> r.value < |rows| && p(rows[r.value])
    ensures r.Some? ==> forall j :: 0 <= j < r.value ==> !p(rows[j])
    ensures r.None? ==> forall j :: 0 <= j < |rows| ==> !p(rows[j])
  {
    if rows == [] then None
    else if p(rows[0]) then Some(0)
    else match FirstIndex(rows[1..], p)
      case None => None
      case Some(i) => Some(i + 1)
  }

  predicate Contains<T>(rows: seq<T>, p: T -> bool) {
    FirstIndex(rows, p).Some?
  }

  /** The row `FirstOrDefault` returns when there is one. */
  function First<T>(rows: seq<T>, p: T -> bool): (row: T)
    requires Contains(rows, p)
    ensures row in rows && p(row)
  {
    rows[FirstIndex(rows, p).value]
  }

  /** Appending rows does not change which row is found first, once one is found. */
  lemma {:induction false} FirstIndexExtend<T>(rows: seq<T>, more: seq<T>, p: T -> bool)
    requires Contains(rows, p)
    ensures FirstIndex(rows + more, p) == FirstIndex(rows, p)
  {
    if !p(rows[0]) {
      assert (rows + more)[1..] == rows[1..] + more;
      FirstIndexExtend(rows[1..], more, p);
    }
  }

  /** A row appended to a table with no match is the one found first. */
  lemma {:induction false} FirstIndexAppend<T>(rows: seq<T>, row: T, p: T -> bool)
    requires !Contains(rows, p) && p(row)
    ensures FirstIndex(rows + [row], p) == Some(|rows|)
  {
    if rows != [] {
      assert (rows + [row])[1..] == rows[1..] + [row];
      FirstIndexAppend(rows[1..], row, p);
    }
  }

  function ClinicianNamed(name: string): Clinician -> bool { (c: Clinician) => c.name == name }
  function ClinicianWithId(id: Guid): Clinician -> bool { (c: Clinician) => c.id == id }
  function OrganisationWithPostcode(postcode: string): Organisation -> bool { (o: Organisation) => o.postcode == postcode }
  function OrganisationWithId(id: Guid): Organisation -> bool { (o: Organisation) => o.id == id }
  function DepartmentNamed(name: string): Department -> bool { (d: Department) => d.name == name }
  function DepartmentWithId(id: Guid): Department -> bool { (d: Department) => d.id == id }

  /** The foreign keys of `a` resolve: its patient, clinician, organisation and department rows exist. */
  ghost predicate ReferencesIn(a: Appointment, patients: map<string, Patient>, clinicians: seq<Clinician>,
                               organisations: seq<Organisation>, departments: seq<Department>)
  {
    && a.patient in patients
    && Contains(clinicians, ClinicianWithId(a.clinicianId))
    && Contains(organisations, OrganisationWithId(a.organisationId))
    && Contains(departments, DepartmentWithId(a.departmentId))
  }

  /** No two clinicians share an id, nor a name. */
  ghost predicate UniqueClinicians(clinicians: seq<Clinician>) {
    forall i, j :: 0 <= i < j < |clinicians| ==> clinicians[i].id != clinicians[j].id && clinicians[i].name != clinicians[j].name
  }

  /** No two organisations share an id, nor a postcode. */
  ghost predicate UniqueOrganisations(organisations: seq<Organisation>) {
    forall i, j :: 0 <= i < j < |organisations| ==>
      organisations[i].id != organisations[j].id && organisations[i].postcode != organisations[j].postcode
  }

  /** No two departments share an id, nor a name. */
  ghost predicate UniqueDepartments(departments: seq<Department>) {
    forall i, j :: 0 <= i < j < |departments| ==> departments[i].id != departments[j].id && departments[i].name != departments[j].name
  }

  /** A row whose id is above every id present and whose name is absent keeps the clinician table free of duplicates. */
  lemma AppendClinicianKeepsUnique(clinicians: seq<Clinician>, row: Clinician)
    requires UniqueClinicians(clinicians) && !Contains(clinicians, ClinicianNamed(row.name))
    requires forall i :: 0 <= i < |clinicians| ==> clinicians[i].id < row.id
    ensures UniqueClinicians(clinicians + [row])
  {
    var rows := clinicians + [row];
    forall i, j | 0 <= i < j < |rows|
      ensures rows[i].id != rows[j].id && rows[i].name != rows[j].name
    {
      if j == |clinicians| {
        assert !ClinicianNamed(row.name)(rows[i]);
      }
    }
  }

  /** A row whose id is above every id present and whose postcode is absent keeps the organisation table free of duplicates. */
  lemma AppendOrganisationKeepsUnique(organisations: seq<Organisation>, row: Organisation)
    requires UniqueOrganisations(organisations) && !Contains(organisations, OrganisationWithPostcode(row.postcode))
    requires forall i :: 0 <= i < |organisations| ==> organisations[i].id < row.id
    ensures UniqueOrganisations(organisations + [row])
  {
    var rows := organisations + [row];
    forall i, j | 0 <= i < j < |rows|
      ensures rows[i].id != rows[j].id && rows[i].postcode != rows[j].postcode
    {
      if j == |organisations| {
        assert !OrganisationWithPostcode(row.postcode)(rows[i]);
      }
    }
  }

  /** A row whose id is above every id present and whose name is absent keeps the department table free of duplicates. */
  lemma AppendDepartmentKeepsUnique(departments: seq<Department>, row: Department)
    requires UniqueDepartments(departments) && !Contains(departments, DepartmentNamed(row.name))
    requires forall i :: 0 <= i < |departments| ==> departments[i].id < row.id
    ensures UniqueDepartments(departments + [row])
  {
    var rows := departments + [row];
    forall i, j | 0 <= i < j < |rows|
      ensures rows[i].id != rows[j].id && rows[i].name != rows[j].name
    {
      if j == |departments| {
        assert !DepartmentNamed(row.name)(rows[i]);
      }
    }
  }

  /**
    Rows are stored under their own keys, the reference tables hold at most one
    row per id and per lookup key, generated ids are below the counter and
    foreign keys resolve.
  */
  ghost predicate ValidTables(patients: map<string, Patient>, appointments: map<Guid, Appointment>,
                              clinicians: seq<Clinician>, organisations: seq<Organisation>,
                              departments: seq<Department>, nextId: Guid)
  {
    && (forall k :: k in patients ==> patients[k].nhsNumber == k)
    && (forall k :: k in appointments ==> appointments[k].id == k)
    && (forall i :: 0 <= i < |clinicians| ==> clinicians[i].id < nextId)
    && (forall i :: 0 <= i < |organisations| ==> organisations[i].id < nextId)
    && (forall i :: 0 <= i < |departments| ==> departments[i].id < nextId)
    && UniqueClinicians(clinicians) && UniqueOrganisations(organisations) && UniqueDepartments(departments)
    && (forall k :: k in appointments ==> ReferencesIn(appointments[k], patients, clinicians, organisations, departments))
  }

  /** Appending a clinician with the next id and a name not yet present keeps the tables valid. */
  lemma AddClinicianKeepsValid(patients: map<string, Patient>, appointments: map<Guid, Appointment>,
                               clinicians: seq<Clinician>, organisations: seq<Organisation>,
                               departments: seq<Department>, nextId: Guid, row: Clinician)
    requires ValidTables(patients, appointments, clinicians, organisations, departments, nextId)
    requires row.id == nextId && !Contains(clinicians, ClinicianNamed(row.name))
    ensures ValidTables(patients, appointments, clinicians + [row], organisations, departments, nextId + 1)
  {
    forall k | k in appointments
      ensures Contains(clinicians + [row], ClinicianWithId(appointments[k].clinicianId))
    {
      FirstIndexExtend(clinicians, [row], ClinicianWithId(appointments[k].clinicianId));
    }
    AppendClinicianKeepsUnique(clinicians, row);
  }

  /** Appending an organisation with the next id and a postcode not yet present keeps the tables valid. */
  lemma AddOrganisationKeepsValid(patients: map<string, Patient>, appointments: map<Guid, Appointment>,
                                  clinicians: seq<Clinician>, organisations: seq<Organisation>,
                                  departments: seq<Department>, nextId: Guid, row: Organisation)
    requires ValidTables(patients, appointments, clinicians, organisations, departments, nextId)
    requires row.id == nextId && !Contains(organisations, OrganisationWithPostcode(row.postcode))
    ensures ValidTables(patients, appointments, clinicians, organisations + [row], departments, nextId + 1)
  {
    forall k | k in appointments
      ensures Contains(organisations + [row], OrganisationWithId(appointments[k].organisationId))
    {
      FirstIndexExtend(organisations, [row], OrganisationWithId(appointments[k].organisationId));
    }
    AppendOrganisationKeepsUnique(organisations, row);
  }

  /** Appending a department with the next id and a name not yet present keeps the tables valid. */
  lemma AddDepartmentKeepsValid(patients: map<string, Patient>, appointments: map<Guid, Appointment>,
                                clinicians: seq<Clinician>, organisations: seq<Organisation>,
                                departments: seq<Department>, nextId: Guid, row: Department)
    requires ValidTables(patients, appointments, clinicians, organisations, departments, nextId)
    requires row.id == nextId && !Contains(departments, DepartmentNamed(row.name))
    ensures ValidTables(patients, appointments, clinicians, organisations, departments + [row], nextId + 1)
  {
    forall k | k in appointments
      ensures Contains(departments + [row], DepartmentWithId(appointments[k].departmentId))
    {
      FirstIndexExtend(departments, [row], DepartmentWithId(appointments[k].departmentId));
    }
    AppendDepartmentKeepsUnique(departments, row);
  }

  /** When only one row satisfies `p`, `FirstOrDefault` returns that row. */
  lemma FirstIsOnlyMatch<T>(rows: seq<T>, p: T -> bool, i: nat)
    requires i < |rows| && p(rows[i])
    requires forall j :: 0 <= j < |rows| && p(rows[j]) ==> j == i
    ensures Contains(rows, p) && First(rows, p) == rows[i]
  {
  }

  /**
    In valid tables every lookup the services make, by id or by the lookup key,
    finds the one row carrying it.
  */
  lemma LookupsFindTheOnlyRow(patients: map<string, Patient>, appointments: map<Guid, Appointment>,
                              clinicians: seq<Clinician>, organisations: seq<Organisation>,
                              departments: seq<Department>, nextId: Guid)
    requires ValidTables(patients, appointments, clinicians, organisations, departments, nextId)
    ensures forall i :: 0 <= i < |clinicians| ==>
      && First(clinicians, ClinicianNamed(clinicians[i].name)) == clinicians[i]
      && First(clinicians, ClinicianWithId(clinicians[i].id)) == clinicians[i]
    ensures forall i :: 0 <= i < |organisations| ==>
      && First(organisations, OrganisationWithPostcode(organisations[i].postcode)) == organisations[i]
      && First(organisations, OrganisationWithId(organisations[i].id)) == organisations[i]
    ensures forall i :: 0 <= i < |departments| ==>
      && First(departments, DepartmentNamed(departments[i].name)) == departments[i]
      && First(departments, DepartmentWithId(departments[i].id)) == departments[i]
  {
    forall i | 0 <= i < |clinicians|
      ensures Contains(clinicians, ClinicianNamed(clinicians[i].name))
      ensures First(clinicians, ClinicianNamed(clinicians[i].name)) == clinicians[i]
      ensures Contains(clinicians, ClinicianWithId(clinicians[i].id))
      ensures First(clinicians, ClinicianWithId(clinicians[i].id)) == clinicians[i]
    {
      FirstIsOnlyMatch(clinicians, ClinicianNamed(clinicians[i].name), i);
      FirstIsOnlyMatch(clinicians, ClinicianWithId(clinicians[i].id), i);
    }
    forall i | 0 <= i < |organisations|
      ensures Contains(organisations, OrganisationWithPostcode(organisations[i].postcode))
      ensures First(organisations, OrganisationWithPostcode(organisations[i].postcode)) == organisations[i]
      ensures Contains(organisations, OrganisationWithId(organisations[i].id))
      ensures First(organisations, OrganisationWithId(organisations[i].id)) == organisations[i]
    {
      FirstIsOnlyMatch(organisations, OrganisationWithPostcode(organisations[i].postcode), i);
      FirstIsOnlyMatch(organisations, OrganisationWithId(organisations[i].id), i);
    }
    forall i | 0 <= i < |departments|
      ensures Contains(departments, DepartmentNamed(departments[i].name))
      ensures First(departments, DepartmentNamed(departments[i].name)) == departments[i]
      ensures Contains(departments, DepartmentWithId(departments[i].id))
      ensures First(departments, DepartmentWithId(departments[i].id)) == departments[i]
    {
      FirstIsOnlyMatch(departments, DepartmentNamed(departments[i].name), i);
      FirstIsOnlyMatch(departments, DepartmentWithId(departments[i].id), i);
    }
  }

  /** Storing an appointment whose foreign keys resolve, under its own id, keeps the tables valid. */
  lemma PutAppointmentKeepsValid(patients: map<string, Patient>, appointments: map<Guid, Appointment>,
                                 clinicians: seq<Clinician>, organisations: seq<Organisation>,
                                 departments: seq<Department>, nextId: Guid, a: Appointment)
    requires ValidTables(patients, appointments, clinicians, organisations, departments, nextId)
    requires ReferencesIn(a, patients, clinicians, organisations, departments)
    ensures ValidTables(patients, appointments[a.id := a], clinicians, organisations, departments, nextId)
  {
  }

  /** Storing a patient under its own NHS number keeps the tables valid; appointments of that key still resolve. */
  lemma PutPatientKeepsValid(patients: map<string, Patient>, appointments: map<Guid, Appointment>,
                             clinicians: seq<Clinician>, organisations: seq<Organisation>,
                             departments: seq<Department>, nextId: Guid, p: Patient)
    requires ValidTables(patients, appointments, clinicians, organisations, departments, nextId)
    ensures ValidTables(patients[p.nhsNumber := p], appointments, clinicians, organisations, departments, nextId)
  {
  }

  /**
    The appointments left once the patient `nhsNumber` is deleted: the foreign key
    from appointments to patients is declared with cascading delete.
  */
  function CascadeDelete(appointments: map<Guid, Appointment>, nhsNumber: string): (r: map<Guid, Appointment>)
    ensures forall k :: k in r <==> k in appointments && appointments[k].patient != nhsNumber
    ensures forall k :: k in r ==> r[k] == appointments[k]
  {
    map k | k in appointments && appointments[k].patient != nhsNumber :: appointments[k]
  }

  /** Removing a patient together with its appointments keeps the tables valid. */
  lemma RemovePatientKeepsValid(patients: map<string, Patient>, appointments: map<Guid, Appointment>,
                                clinicians: seq<Clinician>, organisations: seq<Organisation>,
                                departments: seq<Department>, nextId: Guid, nhsNumber: string)
    requires ValidTables(patients, appointments, clinicians, organisations, departments, nextId)
    ensures ValidTables(patients - {nhsNumber}, CascadeDelete(appointments, nhsNumber),
                        clinicians, organisations, departments, nextId)
  {
  }

  class PandaContext {
    var patients: map<string, Patient>
    var appointments: map<Guid, Appointment>
    var clinicians: seq<Clinician>
    var organisations: seq<Organisation>
    var departments: seq<Department>
    /** Every id generated so far is below this. */
    var nextId: Guid

    ghost predicate Valid()
      reads this
    {
      ValidTables(patients, appointments, clinicians, organisations, departments, nextId)
    }

    ghost predicate References(a: Appointment)
      reads this
    {
      ReferencesIn(a, patients, clinicians, organisations, departments)
    }

    constructor ()
      ensures Valid()
      ensures patients == map[] && appointments == map[]
      ensures clinicians == [] && organisations == [] && departments == []
    {
      patients := map[];
      appointments := map[];
      clinicians := [];
      organisations := [];
      departments := [];
      nextId := 0;
    }
  }
}
