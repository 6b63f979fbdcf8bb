/**
  The entities of the clinical-records store (the Models folder), as values, and the
  `MissedAppointments` getter that Clinician and Department both define.
*/
module Models {
  import opened Wrappers

  /** A `Guid`; fresh ones are drawn from a counter in the store. */
  type Guid = nat

  /** A `DateTimeOffset`, reduced to one instant on a single time line. */
  type Instant = int

  /** The status enum. Its declaration is not part of this model; this order of the four values is assumed. */
  datatype AppointmentStatus = Cancelled | Attended | Active | Missed

  /**
    The keys of the localised exceptions the services throw, plus the persistence
    fault of inserting a primary key that is already stored.
  */
  datatype ServiceError =
    | PatientNotFound
    | AppointmentNotFound
    | InvalidAppointmentStatus
    | CannotUpdateCancelledAppointment
    | DuplicateKey

  /** A patient row, keyed by NHS number. `PatientDto` has the same four fields and maps field for field. */
  datatype Patient = Patient(nhsNumber: string, name: string, dateOfBirth: Instant, postcode: string)

  datatype Clinician = Clinician(id: Guid, name: string)

  datatype Department = Department(id: Guid, name: string)

  /** `OrgCode` and `Name` are optional and never set by the services. */
  datatype Organisation = Organisation(id: Guid, orgCode: Option<string>, name: Option<string>, postcode: string)

  /** An appointment row: navigation properties are represented by their foreign keys. */
  datatype Appointment = Appointment(
    id: Guid,
    time: Instant,
    duration: string,
    clinicianId: Guid,
    departmentId: Guid,
    organisationId: Guid,
    patient: string,
    isCancelled: bool,
    isAttended: bool)

  /** The wire shape of an appointment: references by name and postcode, and a status instead of flags. */
  datatype AppointmentDto = AppointmentDto(
    id: Guid,
    time: Instant,
    patient: string,
    duration: string,
    clinician: string,
    department: string,
    postcode: string,
    status: AppointmentStatus)

  /** The filter of `MissedAppointments`: neither attended nor cancelled, and strictly in the past. */
  predicate IsMissedAt(a: Appointment, now: Instant) {
    !a.isAttended && !a.isCancelled && a.time < now
  }

  /** `sub` can be obtained from `s` by deleting elements, keeping the order of the rest. */
  predicate IsSubsequence<T(==)>(sub: seq<T>, s: seq<T>) {
    if sub == [] then true
    else if s == [] then false
    else if sub[0] == s[0] then IsSubsequence(sub[1..], s[1..])
    else IsSubsequence(sub, s[1..])
  }

  /** `Where(a => IsMissedAt(a, now)).ToList()` on a non-null collection. */
  function FilterMissed(appointments: seq<Appointment>, now: Instant): (r: seq<Appointment>)
    ensures IsSubsequence(r, appointments)
    ensures forall i :: 0 <= i < |r| ==> IsMissedAt(r[i], now)
    ensures forall a :: IsMissedAt(a, now) ==> multiset(r)[a] == multiset(appointments)[a]
  {
    if appointments == [] then []
    else
      var rest := FilterMissed(appointments[1..], now);
      assert appointments == [appointments[0]] + appointments[1..];
      if IsMissedAt(appointments[0], now) then [appointments[0]] + rest else rest
  }

  /**
    `Clinician.MissedAppointments` and `Department.MissedAppointments`: a null
    navigation collection gives null, otherwise the missed appointments in order.
  */
  function MissedAppointments(appointments: Option<seq<Appointment>>, now: Instant): (r: Option<seq<Appointment>>)
    ensures r.None? <==> appointments.None?
    ensures r.Some? ==> IsSubsequence(r.value, appointments.value)
    ensures r.Some? ==> forall i :: 0 <= i < |r.value| ==> IsMissedAt(r.value[i], now)
    ensures r.Some? ==> forall a :: IsMissedAt(a, now) ==> multiset(r.value)[a] == multiset(appointments.value)[a]
  {
    match appointments
    case None => None
    case Some(list) => Some(FilterMissed(list, now))
  }

  /** Every missed appointment of the collection is in the result. */
  lemma MissedAppointmentsComplete(appointments: seq<Appointment>, now: Instant, a: Appointment)
    requires a in appointments && IsMissedAt(a, now)
    ensures a in MissedAppointments(Some(appointments), now).value
  {
    assert multiset(appointments)[a] > 0;
  }
}
