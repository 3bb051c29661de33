/** The records of the appointment store (src/models/appointment.py) and the
    status and cancelled-by enumerations shared with the request DTOs
    (src/dto/appointment_dto.py).

    Dates, times of day and instants are integers: a `Date` counts days from a
    fixed epoch, a `TimeOfDay` counts seconds after midnight, and an `Instant`
    counts seconds from the same epoch, so `AtTime` plays the part of
    `datetime.combine`. */
module Domain {
  import opened Results

  type Date = int
  type TimeOfDay = t: int | 0 <= t < SecondsPerDay
  type Instant = int

  const SecondsPerDay: int := 86400

  /** `datetime.combine(d, t)` as an instant. */
  function AtTime(d: Date, t: TimeOfDay): Instant
  {
    d * SecondsPerDay + t
  }

  // ---------------------------------------------------------------
  // Enumerations
  // ---------------------------------------------------------------

  /** `AppointmentStatus` of the ORM model and `AppointmentStatusEnum` of the
      DTOs: the same four values, under the same names. */
  datatype Status = Pending | Confirmed | Rejected | Cancelled

  const StatusNames: set<string> := {"PENDING", "CONFIRMED", "REJECTED", "CANCELLED"}

  function StatusName(s: Status): string
  {
    match s
    case Pending => "PENDING"
    case Confirmed => "CONFIRMED"
    case Rejected => "REJECTED"
    case Cancelled => "CANCELLED"
  }

  /** Constructing the enumeration from its value, as `AppointmentStatus(name)`
      does: exactly the four names are accepted, and each names its status. */
  function ParseStatus(name: string): (r: Option<Status>)
    ensures r.Some? <==> name in StatusNames
    ensures r.Some? ==> StatusName(r.value) == name
  {
    if name == "PENDING" then Some(Pending)
    else if name == "CONFIRMED" then Some(Confirmed)
    else if name == "REJECTED" then Some(Rejected)
    else if name == "CANCELLED" then Some(Cancelled)
    else None
  }

  /** Every status survives a trip through its name, so the four names are
      pairwise distinct and the enumeration has exactly four values. */
  lemma StatusNameRoundTrip(s: Status)
    ensures ParseStatus(StatusName(s)) == Some(s)
    ensures StatusName(s) in StatusNames
  {
  }

  /** `CancelledByEnum`, and the values the `cancelled_by` column holds. */
  datatype CancelledBy = ByPatient | ByDoctor

  const CancelledByNames: set<string> := {"PATIENT", "DOCTOR"}

  function CancelledByName(c: CancelledBy): string
  {
    match c
    case ByPatient => "PATIENT"
    case ByDoctor => "DOCTOR"
  }

  /** `CancelledByEnum(name)`: only "PATIENT" and "DOCTOR" are admitted. */
  function ParseCancelledBy(name: string): (r: Option<CancelledBy>)
    ensures r.Some? <==> name in CancelledByNames
    ensures r.Some? ==> CancelledByName(r.value) == name
  {
    if name == "PATIENT" then Some(ByPatient)
    else if name == "DOCTOR" then Some(ByDoctor)
    else None
  }

  lemma CancelledByNameRoundTrip(c: CancelledBy)
    ensures ParseCancelledBy(CancelledByName(c)) == Some(c)
  {
  }

  /** The statuses an appointment may still be updated or cancelled from. */
  predicate IsActive(s: Status)
  {
    s == Pending || s == Confirmed
  }

  // ---------------------------------------------------------------
  // Records
  // ---------------------------------------------------------------

  datatype Department = Department(id: int, name: string, isActive: bool, createdAt: Instant)

  datatype Doctor = Doctor(id: int, name: string, departmentId: int, isActive: bool, createdAt: Instant)

  datatype Slot = Slot(
    id: int,
    doctorId: int,
    date: Date,
    startTime: TimeOfDay,
    endTime: TimeOfDay,
    isBooked: bool,
    createdAt: Instant)

  datatype Patient = Patient(
    id: int,
    name: string,
    phone: Option<string>,
    email: Option<string>,
    createdAt: Instant)

  /** One appointment row. The nullable columns are `Option`s; the columns
      declared `nullable=False` are plain fields, so every appointment carries
      its patient, doctor, department and slot ids, its date, time and reason. */
  datatype Appointment = Appointment(
    id: int,
    patientId: int,
    doctorId: int,
    departmentId: int,
    slotId: int,
    date: Date,
    time: TimeOfDay,
    reason: string,
    isEmergency: bool,
    status: Status,
    confirmedBy: Option<int>,
    confirmedAt: Option<Instant>,
    rejectionReason: Option<string>,
    rejectedAt: Option<Instant>,
    cancelledBy: Option<CancelledBy>,
    cancelledAt: Option<Instant>,
    cancellationReason: Option<string>,
    createdAt: Instant)

  /** The instant the appointment is scheduled for. */
  function ScheduledAt(a: Appointment): Instant
  {
    AtTime(a.date, a.time)
  }

  predicate NonEmpty(s: Option<string>)
  {
    s.Some? && s.value != ""
  }

  /** No confirmation, rejection or cancellation has been recorded. */
  predicate NoLifecycleData(a: Appointment)
  {
    && a.confirmedBy == None && a.confirmedAt == None
    && a.rejectionReason == None && a.rejectedAt == None
    && a.cancelledBy == None && a.cancelledAt == None && a.cancellationReason == None
  }

  /** The lifecycle columns agree with the status: confirmation data is present
      once the appointment was confirmed (it survives a later cancellation),
      rejection data exactly when it is rejected, and cancellation data exactly
      when it is cancelled (the cancellation reason itself is optional). */
  predicate LifecycleConsistent(a: Appointment)
  {
    match a.status
    case Pending => NoLifecycleData(a)
    case Confirmed =>
      && a.confirmedBy.Some? && a.confirmedAt.Some?
      && a.rejectionReason == None && a.rejectedAt == None
      && a.cancelledBy == None && a.cancelledAt == None && a.cancellationReason == None
    case Rejected =>
      && a.confirmedBy == None && a.confirmedAt == None
      && NonEmpty(a.rejectionReason) && a.rejectedAt.Some?
      && a.cancelledBy == None && a.cancelledAt == None && a.cancellationReason == None
    case Cancelled =>
      && (a.confirmedBy.Some? <==> a.confirmedAt.Some?)
      && a.rejectionReason == None && a.rejectedAt == None
      && a.cancelledBy.Some? && a.cancelledAt.Some?
  }

  // ---------------------------------------------------------------
  // Column defaults
  // ---------------------------------------------------------------

  /** A department inserted without `is_active` is active. */
  function NewDepartment(id: int, name: string, createdAt: Instant): (d: Department)
    ensures d.isActive
    ensures d.id == id && d.name == name && d.createdAt == createdAt
  {
    Department(id, name, true, createdAt)
  }

  /** A doctor inserted without `is_active` is active. */
  function NewDoctor(id: int, name: string, departmentId: int, createdAt: Instant): (d: Doctor)
    ensures d.isActive
    ensures d.id == id && d.name == name && d.departmentId == departmentId
  {
    Doctor(id, name, departmentId, true, createdAt)
  }

  /** A slot inserted without `is_booked` is free. */
  function NewSlot(id: int, doctorId: int, date: Date, startTime: TimeOfDay, endTime: TimeOfDay,
                   createdAt: Instant): (s: Slot)
    ensures !s.isBooked
    ensures s.id == id && s.doctorId == doctorId && s.date == date
    ensures s.startTime == startTime && s.endTime == endTime
  {
    Slot(id, doctorId, date, startTime, endTime, false, createdAt)
  }

  /** An appointment inserted without a status is PENDING, with every
      lifecycle column null, and so is lifecycle-consistent. */
  function NewAppointment(id: int, patientId: int, doctorId: int, departmentId: int, slotId: int,
                          date: Date, time: TimeOfDay, reason: string, isEmergency: bool,
                          createdAt: Instant): (a: Appointment)
    ensures a.status == Pending
    ensures NoLifecycleData(a) && LifecycleConsistent(a)
    ensures a.id == id && a.patientId == patientId && a.doctorId == doctorId
    ensures a.departmentId == departmentId && a.slotId == slotId
    ensures a.date == date && a.time == time && a.reason == reason
    ensures a.isEmergency == isEmergency && a.createdAt == createdAt
  {
    Appointment(id, patientId, doctorId, departmentId, slotId, date, time, reason, isEmergency,
                Pending, None, None, None, None, None, None, None, createdAt)
  }
}
