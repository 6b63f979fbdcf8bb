/**
  The AutoMapper profile between appointments and their DTOs: the status is
  derived from the two flags and the time on the way out, and turned back into
  the two flags on the way in.
*/
module MappingProfile {
  import opened Models

  /**
    `DetermineStatus`: the first matching rule wins, so the four statuses
    partition every (flags, time, now) triple, with Cancelled taking priority
    over Attended, and Attended over the time comparison.
  */
  function DetermineStatus(appointment: Appointment, now: Instant): (status: AppointmentStatus)
    ensures status == Cancelled <==> appointment.isCancelled
    ensures status == Attended <==> !appointment.isCancelled && appointment.isAttended
    ensures status == Active <==> !appointment.isCancelled && !appointment.isAttended && appointment.time > now
    ensures status == Missed <==> !appointment.isCancelled && !appointment.isAttended && appointment.time <= now
  {
    if appointment.isCancelled then Cancelled
    else if appointment.isAttended then Attended
    else if appointment.time > now then Active
    else Missed
  }

  /**
    Appointment to DTO: the reference names come from the included clinician,
    organisation and department rows, and the status is derived at `now`.
  */
  function ToDto(appointment: Appointment, clinician: Clinician, organisation: Organisation,
                 department: Department, now: Instant): (dto: AppointmentDto)
    ensures dto.id == appointment.id && dto.time == appointment.time
    ensures dto.patient == appointment.patient && dto.duration == appointment.duration
    ensures dto.clinician == clinician.name && dto.postcode == organisation.postcode
    ensures dto.department == department.name
    ensures dto.status == DetermineStatus(appointment, now)
    ensures dto.status == Cancelled <==> appointment.isCancelled
    ensures dto.status == Missed ==> appointment.time <= now
    ensures dto.status == Active ==> appointment.time > now
  {
    AppointmentDto(
      appointment.id, appointment.time, appointment.patient, appointment.duration,
      clinician.name, department.name, organisation.postcode,
      DetermineStatus(appointment, now))
  }

  /**
    The reverse map applied onto `target` (`_mapper.Map(dto, target)`): the
    flags come from the status, Id, Time, Duration and Patient are copied and
    the reference keys of `target` are left as they were.
  */
  function MapOnto(dto: AppointmentDto, target: Appointment): (a: Appointment)
    ensures a.isCancelled <==> dto.status == Cancelled
    ensures a.isAttended <==> dto.status == Attended
    ensures !(a.isCancelled && a.isAttended)
    ensures a.id == dto.id && a.time == dto.time
    ensures a.duration == dto.duration && a.patient == dto.patient
    ensures a.clinicianId == target.clinicianId && a.departmentId == target.departmentId
    ensures a.organisationId == target.organisationId
  {
    target.(
      id := dto.id,
      time := dto.time,
      duration := dto.duration,
      patient := dto.patient,
      isCancelled := dto.status == Cancelled,
      isAttended := dto.status == Attended)
  }

  /** A freshly constructed `Appointment` before the map fills it in. */
  const NewAppointment: Appointment := Appointment(0, 0, "", 0, 0, 0, "", false, false)

  /**
    Status to flags and back, at a fixed `now`: Cancelled and Attended always
    come back, Active only for a future time and Missed only for a time not in
    the future.
  */
  lemma StatusRoundTrip(dto: AppointmentDto, target: Appointment, now: Instant)
    ensures dto.status == Cancelled ==> DetermineStatus(MapOnto(dto, target), now) == Cancelled
    ensures dto.status == Attended ==> DetermineStatus(MapOnto(dto, target), now) == Attended
    ensures dto.status == Active ==> (DetermineStatus(MapOnto(dto, target), now) == Active <==> dto.time > now)
    ensures dto.status == Missed ==> (DetermineStatus(MapOnto(dto, target), now) == Missed <==> dto.time <= now)
  {
  }

  /** Flags to status and back: the flags of an appointment that is not both cancelled and attended survive. */
  lemma FlagsRoundTrip(a: Appointment, dto: AppointmentDto, now: Instant)
    requires !(a.isCancelled && a.isAttended)
    requires dto.status == DetermineStatus(a, now)
    ensures MapOnto(dto, a).isCancelled == a.isCancelled && MapOnto(dto, a).isAttended == a.isAttended
  {
  }

  /**
    The `MissedAppointments` filter and the derived status agree except at one
    instant: a filtered appointment always reports Missed, but an unflagged
    appointment whose time is exactly `now` reports Missed without passing the
    filter's strict `<`.
  */
  lemma MissedFilterAgreesWithStatus(a: Appointment, now: Instant)
    ensures IsMissedAt(a, now) ==> DetermineStatus(a, now) == Missed
    ensures !a.isCancelled && !a.isAttended ==>
      (DetermineStatus(a, now) == Missed && !IsMissedAt(a, now) <==> a.time == now)
  {
  }
}
