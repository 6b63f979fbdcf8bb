/**
  The appointment service: the two queries, the add and update write paths
  with their error order, the three get-or-create resolutions of reference
  rows, and the time guard on a requested status. Exceptions become `Fail`
  outcomes; `DateTimeOffset.Now` is the parameter `now`.
*/
module AppointmentService {
  import opened Wrappers
  import opened Models
  import opened Data
  import opened MappingProfile

  /**
    `ValidateAppointmentStatus`: a Missed request must not lie in the future and
    an Active one must lie in the future; Cancelled and Attended pass at any time.
  */
  function ValidateAppointmentStatus(dto: AppointmentDto, now: Instant): (r: Outcome<ServiceError>)
    ensures r.Fail? ==> r.error == InvalidAppointmentStatus
    ensures r.Pass? <==> (dto.status == Missed ==> dto.time <= now) && (dto.status == Active ==> dto.time > now)
    ensures dto.status == Cancelled || dto.status == Attended ==> r.Pass?
  {
    if (dto.status == Missed && dto.time > now) || (dto.status == Active && dto.time <= now) then
      Fail(InvalidAppointmentStatus)
    else
      Pass
  }

  /**
    The guard accepts exactly the requests whose status survives the trip
    through the flags: once stored, the appointment reports the requested
    status at the same instant.
  */
  lemma ValidationMatchesRoundTrip(dto: AppointmentDto, target: Appointment, now: Instant)
    ensures ValidateAppointmentStatus(dto, now).Pass? <==> DetermineStatus(MapOnto(dto, target), now) == dto.status
  {
    StatusRoundTrip(dto, target, now);
  }

  /** The reference keys set after mapping: lines `appointment.ClinicianId = clinician.Id` and so on. */
  function Bind(a: Appointment, clinician: Clinician, organisation: Organisation, department: Department): (b: Appointment)
    ensures b.clinicianId == clinician.id && b.organisationId == organisation.id && b.departmentId == department.id
    ensures b.(clinicianId := a.clinicianId, organisationId := a.organisationId, departmentId := a.departmentId) == a
  {
    a.(clinicianId := clinician.id, organisationId := organisation.id, departmentId := department.id)
  }

  /**
    The effect of one get-or-create on its table: afterwards a row with the key
    exists; the table is unchanged if one existed before, and otherwise grew by
    exactly that row.
  */
  ghost predicate GetOrCreated<T>(before: seq<T>, after: seq<T>, p: T -> bool) {
    && Contains(after, p)
    && if Contains(before, p) then after == before else after == before + [First(after, p)]
  }

  /** Two get-or-creates in a row with the same key: the second finds the row the first resolved and adds nothing. */
  lemma GetOrCreateIdempotent<T>(s0: seq<T>, s1: seq<T>, s2: seq<T>, p: T -> bool)
    requires GetOrCreated(s0, s1, p) && GetOrCreated(s1, s2, p)
    ensures s2 == s1 && First(s2, p) == First(s1, p)
    ensures |s2| <= |s0| + 1
  {
  }

  /** `GetOrCreateClinicianAsync`: find the first clinician with the name, or add one with a fresh id. */
  method GetOrCreateClinician(ctx: PandaContext, name: string) returns (clinician: Clinician)
    requires ctx.Valid()
    modifies ctx
    ensures ctx.Valid()
    ensures GetOrCreated(old(ctx.clinicians), ctx.clinicians, ClinicianNamed(name))
    ensures clinician == First(ctx.clinicians, ClinicianNamed(name)) && clinician.name == name
    ensures !old(Contains(ctx.clinicians, ClinicianNamed(name))) ==>
      forall i :: 0 <= i < |old(ctx.clinicians)| ==> old(ctx.clinicians)[i].id != clinician.id
    ensures ctx.patients == old(ctx.patients) && ctx.appointments == old(ctx.appointments)
    ensures ctx.organisations == old(ctx.organisations) && ctx.departments == old(ctx.departments)
  {
    var found := FirstIndex(ctx.clinicians, ClinicianNamed(name));
    if found.Some? {
      clinician := ctx.clinicians[found.value];
    } else {
      clinician := Clinician(ctx.nextId, name);
      var before := ctx.clinicians;
      FirstIndexAppend(before, clinician, ClinicianNamed(name));
      AddClinicianKeepsValid(ctx.patients, ctx.appointments, ctx.clinicians, ctx.organisations, ctx.departments, ctx.nextId, clinician);
      ctx.clinicians, ctx.nextId := before + [clinician], ctx.nextId + 1;
    }
  }

  /** `GetOrCreateOrganisationAsync`: keyed by postcode. */
  method GetOrCreateOrganisation(ctx: PandaContext, postcode: string) returns (organisation: Organisation)
    requires ctx.Valid()
    modifies ctx
    ensures ctx.Valid()
    ensures GetOrCreated(old(ctx.organisations), ctx.organisations, OrganisationWithPostcode(postcode))
    ensures organisation == First(ctx.organisations, OrganisationWithPostcode(postcode))
    ensures organisation.postcode == postcode
    ensures !old(Contains(ctx.organisations, OrganisationWithPostcode(postcode))) ==>
      organisation.orgCode.None? && organisation.name.None? &&
      forall i :: 0 <= i < |old(ctx.organisations)| ==> old(ctx.organisations)[i].id != organisation.id
    ensures ctx.patients == old(ctx.patients) && ctx.appointments == old(ctx.appointments)
    ensures ctx.clinicians == old(ctx.clinicians) && ctx.departments == old(ctx.departments)
  {
    var found := FirstIndex(ctx.organisations, OrganisationWithPostcode(postcode));
    if found.Some? {
      organisation := ctx.organisations[found.value];
    } else {
      organisation := Organisation(ctx.nextId, None, None, postcode);
      var before := ctx.organisations;
      FirstIndexAppend(before, organisation, OrganisationWithPostcode(postcode));
      AddOrganisationKeepsValid(ctx.patients, ctx.appointments, ctx.clinicians, ctx.organisations, ctx.departments, ctx.nextId, organisation);
      ctx.organisations, ctx.nextId := before + [organisation], ctx.nextId + 1;
    }
  }

  /** `GetOrCreateDepartmentAsync`: keyed by name. */
  method GetOrCreateDepartment(ctx: PandaContext, name: string) returns (department: Department)
    requires ctx.Valid()
    modifies ctx
    ensures ctx.Valid()
    ensures GetOrCreated(old(ctx.departments), ctx.departments, DepartmentNamed(name))
    ensures department == First(ctx.departments, DepartmentNamed(name)) && department.name == name
    ensures !old(Contains(ctx.departments, DepartmentNamed(name))) ==>
      forall i :: 0 <= i < |old(ctx.departments)| ==> old(ctx.departments)[i].id != department.id
    ensures ctx.patients == old(ctx.patients) && ctx.appointments == old(ctx.appointments)
    ensures ctx.clinicians == old(ctx.clinicians) && ctx.organisations == old(ctx.organisations)
  {
    var found := FirstIndex(ctx.departments, DepartmentNamed(name));
    if found.Some? {
      department := ctx.departments[found.value];
    } else {
      department := Department(ctx.nextId, name);
      var before := ctx.departments;
      FirstIndexAppend(before, department, DepartmentNamed(name));
      AddDepartmentKeepsValid(ctx.patients, ctx.appointments, ctx.clinicians, ctx.organisations, ctx.departments, ctx.nextId, department);
      ctx.departments, ctx.nextId := before + [department], ctx.nextId + 1;
    }
  }

  /** The three reference rows a request names, resolved in the store. */
  ghost predicate ReferencesResolvedFrom(ctx: PandaContext, clinicians: seq<Clinician>,
                                         organisations: seq<Organisation>, departments: seq<Department>,
                                         dto: AppointmentDto)
    reads ctx
  {
    && GetOrCreated(clinicians, ctx.clinicians, ClinicianNamed(dto.clinician))
    && GetOrCreated(organisations, ctx.organisations, OrganisationWithPostcode(dto.postcode))
    && GetOrCreated(departments, ctx.departments, DepartmentNamed(dto.department))
  }

  /** `target` with the request's fields mapped onto it and bound to the rows the request names. */
  function Stored(ctx: PandaContext, dto: AppointmentDto, target: Appointment): (a: Appointment)
    reads ctx
    requires Contains(ctx.clinicians, ClinicianNamed(dto.clinician))
    requires Contains(ctx.organisations, OrganisationWithPostcode(dto.postcode))
    requires Contains(ctx.departments, DepartmentNamed(dto.department))
    ensures a.id == dto.id && a.time == dto.time && a.duration == dto.duration && a.patient == dto.patient
    ensures a.isCancelled <==> dto.status == Cancelled
    ensures a.isAttended <==> dto.status == Attended
    ensures a.clinicianId == First(ctx.clinicians, ClinicianNamed(dto.clinician)).id
    ensures a.organisationId == First(ctx.organisations, OrganisationWithPostcode(dto.postcode)).id
    ensures a.departmentId == First(ctx.departments, DepartmentNamed(dto.department)).id
    ensures ctx.References(a) <==> dto.patient in ctx.patients
  {
    var c := First(ctx.clinicians, ClinicianNamed(dto.clinician));
    var o := First(ctx.organisations, OrganisationWithPostcode(dto.postcode));
    var d := First(ctx.departments, DepartmentNamed(dto.department));
    var a := Bind(MapOnto(dto, target), c, o, d);
    assert Contains(ctx.clinicians, ClinicianWithId(a.clinicianId));
    assert Contains(ctx.organisations, OrganisationWithId(a.organisationId));
    assert Contains(ctx.departments, DepartmentWithId(a.departmentId));
    a
  }

  /**
    The three get-or-create calls both write paths make, in their order:
    clinician by name, organisation by postcode, department by name.
  */
  method ResolveReferences(ctx: PandaContext, dto: AppointmentDto)
    returns (clinician: Clinician, organisation: Organisation, department: Department)
    requires ctx.Valid()
    modifies ctx
    ensures ctx.Valid()
    ensures ReferencesResolvedFrom(ctx, old(ctx.clinicians), old(ctx.organisations), old(ctx.departments), dto)
    ensures clinician == First(ctx.clinicians, ClinicianNamed(dto.clinician))
    ensures organisation == First(ctx.organisations, OrganisationWithPostcode(dto.postcode))
    ensures department == First(ctx.departments, DepartmentNamed(dto.department))
    ensures ctx.patients == old(ctx.patients) && ctx.appointments == old(ctx.appointments)
  {
    clinician := GetOrCreateClinician(ctx, dto.clinician);
    organisation := GetOrCreateOrganisation(ctx, dto.postcode);
    department := GetOrCreateDepartment(ctx, dto.department);
  }

  /**
    The final write both paths share: `target` mapped from the request and
    bound to the resolved rows, stored under the request's id.
  */
  method Put(ctx: PandaContext, dto: AppointmentDto, target: Appointment,
             clinician: Clinician, organisation: Organisation, department: Department)
    requires ctx.Valid() && dto.patient in ctx.patients
    requires Contains(ctx.clinicians, ClinicianNamed(dto.clinician))
    requires Contains(ctx.organisations, OrganisationWithPostcode(dto.postcode))
    requires Contains(ctx.departments, DepartmentNamed(dto.department))
    requires clinician == First(ctx.clinicians, ClinicianNamed(dto.clinician))
    requires organisation == First(ctx.organisations, OrganisationWithPostcode(dto.postcode))
    requires department == First(ctx.departments, DepartmentNamed(dto.department))
    modifies ctx
    ensures ctx.Valid()
    ensures ctx.appointments == old(ctx.appointments)[dto.id := old(Stored(ctx, dto, target))]
    ensures ctx.patients == old(ctx.patients) && ctx.clinicians == old(ctx.clinicians)
    ensures ctx.organisations == old(ctx.organisations) && ctx.departments == old(ctx.departments)
    ensures ctx.nextId == old(ctx.nextId)
  {
    var appointment := Bind(MapOnto(dto, target), clinician, organisation, department);
    assert appointment == Stored(ctx, dto, target);
    PutAppointmentKeepsValid(ctx.patients, ctx.appointments, ctx.clinicians, ctx.organisations,
                             ctx.departments, ctx.nextId, appointment);
    ctx.appointments := ctx.appointments[dto.id := appointment];
  }

  /**
    `AddAppointmentAsync`. An unknown patient fails before anything is
    written. Otherwise the three reference rows are resolved first, so they stay
    in the store even when the status guard then rejects the request; a request
    passing the guard stores the mapped appointment under the request's id.
  */
  method AddAppointment(ctx: PandaContext, dto: AppointmentDto, now: Instant) returns (result: Outcome<ServiceError>)
    requires ctx.Valid()
    modifies ctx
    ensures ctx.Valid()
    ensures ctx.patients == old(ctx.patients)
    ensures dto.patient !in old(ctx.patients) ==> result == Fail(PatientNotFound) && unchanged(ctx)
    ensures dto.patient in old(ctx.patients) ==>
      ReferencesResolvedFrom(ctx, old(ctx.clinicians), old(ctx.organisations), old(ctx.departments), dto)
    ensures dto.patient in old(ctx.patients) && ValidateAppointmentStatus(dto, now).Fail? ==>
      result == Fail(InvalidAppointmentStatus) && ctx.appointments == old(ctx.appointments)
    ensures dto.patient in old(ctx.patients) && ValidateAppointmentStatus(dto, now).Pass? && dto.id in old(ctx.appointments) ==>
      result == Fail(DuplicateKey) && ctx.appointments == old(ctx.appointments)
    ensures dto.patient in old(ctx.patients) && ValidateAppointmentStatus(dto, now).Pass? && dto.id !in old(ctx.appointments) ==>
      result == Pass && ctx.appointments == old(ctx.appointments)[dto.id := Stored(ctx, dto, NewAppointment)]
  {
    if dto.patient !in ctx.patients {
      return Fail(PatientNotFound);
    }
    var clinician, organisation, department := ResolveReferences(ctx, dto);

    var status := ValidateAppointmentStatus(dto, now);
    if status.Fail? {
      return status;
    }

    if dto.id in ctx.appointments {
      return Fail(DuplicateKey);
    }
    Put(ctx, dto, NewAppointment, clinician, organisation, department);
    result := Pass;
  }

  /**
    `UpdateAppointmentAsync`. Errors are checked in the order AppointmentNotFound,
    PatientNotFound, InvalidAppointmentStatus, CannotUpdateCancelledAppointment;
    the last two come after the reference rows are resolved. A cancelled
    appointment accepts only updates that request Cancelled again.
  */
  method UpdateAppointment(ctx: PandaContext, dto: AppointmentDto, now: Instant) returns (result: Outcome<ServiceError>)
    requires ctx.Valid()
    modifies ctx
    ensures ctx.Valid()
    ensures ctx.patients == old(ctx.patients)
    ensures dto.id !in old(ctx.appointments) ==> result == Fail(AppointmentNotFound) && unchanged(ctx)
    ensures dto.id in old(ctx.appointments) && dto.patient !in old(ctx.patients) ==>
      result == Fail(PatientNotFound) && unchanged(ctx)
    ensures dto.id in old(ctx.appointments) && dto.patient in old(ctx.patients) ==>
      ReferencesResolvedFrom(ctx, old(ctx.clinicians), old(ctx.organisations), old(ctx.departments), dto)
    ensures dto.id in old(ctx.appointments) && dto.patient in old(ctx.patients) && ValidateAppointmentStatus(dto, now).Fail? ==>
      result == Fail(InvalidAppointmentStatus) && ctx.appointments == old(ctx.appointments)
    ensures dto.id in old(ctx.appointments) && dto.patient in old(ctx.patients) && ValidateAppointmentStatus(dto, now).Pass?
            && old(ctx.appointments)[dto.id].isCancelled && dto.status != Cancelled ==>
      result == Fail(CannotUpdateCancelledAppointment) && ctx.appointments == old(ctx.appointments)
    ensures dto.id in old(ctx.appointments) && dto.patient in old(ctx.patients) && ValidateAppointmentStatus(dto, now).Pass?
            && !(old(ctx.appointments)[dto.id].isCancelled && dto.status != Cancelled) ==>
      result == Pass && ctx.appointments == old(ctx.appointments)[dto.id := Stored(ctx, dto, old(ctx.appointments)[dto.id])]
    ensures result.Pass? && old(ctx.appointments)[dto.id].isCancelled ==> ctx.appointments[dto.id].isCancelled
  {
    if dto.id !in ctx.appointments {
      return Fail(AppointmentNotFound);
    }
    var appointment := ctx.appointments[dto.id];
    if dto.patient !in ctx.patients {
      return Fail(PatientNotFound);
    }
    var clinician, organisation, department := ResolveReferences(ctx, dto);

    var status := ValidateAppointmentStatus(dto, now);
    if status.Fail? {
      return status;
    }
    if appointment.isCancelled && dto.status != Cancelled {
      return Fail(CannotUpdateCancelledAppointment);
    }

    Put(ctx, dto, appointment, clinician, organisation, department);
    result := Pass;
  }

  /** Cancelled is absorbing: whatever update gets past the guards, the appointment still reports Cancelled. */
  lemma CancelledIsAbsorbing(stored: Appointment, dto: AppointmentDto, later: Instant)
    requires stored.isCancelled
    requires !(stored.isCancelled && dto.status != Cancelled)
    ensures DetermineStatus(MapOnto(dto, stored), later) == Cancelled
  {
  }

  /** The view of a stored appointment, with the names of the rows its foreign keys point to. */
  function AppointmentView(ctx: PandaContext, a: Appointment, now: Instant): (dto: AppointmentDto)
    reads ctx
    requires ctx.References(a)
    ensures dto.id == a.id && dto.time == a.time && dto.duration == a.duration && dto.patient == a.patient
    ensures dto.clinician == First(ctx.clinicians, ClinicianWithId(a.clinicianId)).name
    ensures dto.postcode == First(ctx.organisations, OrganisationWithId(a.organisationId)).postcode
    ensures dto.department == First(ctx.departments, DepartmentWithId(a.departmentId)).name
    ensures dto.status == DetermineStatus(a, now)
  {
    ToDto(a,
          First(ctx.clinicians, ClinicianWithId(a.clinicianId)),
          First(ctx.organisations, OrganisationWithId(a.organisationId)),
          First(ctx.departments, DepartmentWithId(a.departmentId)),
          now)
  }

  /** `GetAppointmentByIdAsync`: null exactly when no appointment has the id. */
  function GetAppointmentById(ctx: PandaContext, id: Guid, now: Instant): (r: Option<AppointmentDto>)
    reads ctx
    requires ctx.Valid()
    ensures r.None? <==> id !in ctx.appointments
    ensures r.Some? ==> r.value.id == id && r.value == AppointmentView(ctx, ctx.appointments[id], now)
  {
    if id in ctx.appointments then Some(AppointmentView(ctx, ctx.appointments[id], now)) else None
  }

  /** `GetAppointmentsByNhsNumberAsync`: the views of exactly the appointments of that patient. */
  function GetAppointmentsByNhsNumber(ctx: PandaContext, nhsNumber: string, now: Instant): (r: set<AppointmentDto>)
    reads ctx
    requires ctx.Valid()
    ensures forall dto :: dto in r ==>
      && dto.id in ctx.appointments
      && ctx.appointments[dto.id].patient == nhsNumber
      && dto == AppointmentView(ctx, ctx.appointments[dto.id], now)
    ensures forall k :: k in ctx.appointments ==>
      (AppointmentView(ctx, ctx.appointments[k], now) in r <==> ctx.appointments[k].patient == nhsNumber)
  {
    set k | k in ctx.appointments && ctx.appointments[k].patient == nhsNumber
      :: AppointmentView(ctx, ctx.appointments[k], now)
  }
}
