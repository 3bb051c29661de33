/** The appointment store and the queries of
    src/repositories/appointment_repository.py.

    The store is the database: one map per table from primary key to row, and
    the next key the database will hand out. Queries are functions over the
    table's rows as a sequence; `Rows` lists the appointment table. */
module Repository {
  import opened Results
  import opened Domain
  import Sorting

  datatype Store = Store(
    departments: map<int, Department>,
    doctors: map<int, Doctor>,
    slots: map<int, Slot>,
    patients: map<int, Patient>,
    appointments: map<int, Appointment>,
    nextId: int)

  /** Python truthiness of an optional id filter: both `None` and `0` switch
      the filter off. */
  predicate Truthy(o: Option<int>)
  {
    o.Some? && o.value != 0
  }

  /** `DoctorRepository.get_by_id` found a doctor and it is active. */
  predicate ActiveDoctor(doctors: map<int, Doctor>, doctorId: int)
  {
    doctorId in doctors && doctors[doctorId].isActive
  }

  /** The row `is_slot_available` looks for: the slot exists, is not booked,
      and is dated today or later. */
  predicate IsSlotAvailable(slots: map<int, Slot>, slotId: int, today: Date)
  {
    slotId in slots && !slots[slotId].isBooked && slots[slotId].date >= today
  }

  // ---------------------------------------------------------------
  // Table enumeration
  // ---------------------------------------------------------------

  /** The rows of `m` whose keys lie in `[0, n)`. */
  function RowsBelow(m: map<int, Appointment>, n: int): (r: seq<Appointment>)
    ensures forall a :: a in r ==> exists k :: 0 <= k < n && k in m && m[k] == a
    ensures forall k :: 0 <= k < n && k in m ==> m[k] in r
    decreases n
  {
    if n <= 0 then []
    else RowsBelow(m, n - 1) + (if n - 1 in m then [m[n - 1]] else [])
  }

  /** The appointment table as the database scans it: exactly the stored rows. */
  function Rows(st: Store): seq<Appointment>
  {
    RowsBelow(st.appointments, st.nextId)
  }

  // ---------------------------------------------------------------
  // check_appointment_conflict
  // ---------------------------------------------------------------

  /** `a` occupies the doctor's time: same doctor, date and time, still
      PENDING or CONFIRMED, and not the excluded appointment (an exclusion id
      of 0 or none excludes nothing). */
  predicate Occupies(a: Appointment, doctorId: int, date: Date, time: TimeOfDay, exclude: Option<int>)
  {
    && a.doctorId == doctorId && a.date == date && a.time == time
    && IsActive(a.status)
    && (Truthy(exclude) ==> a.id != exclude.value)
  }

  /** `check_appointment_conflict`: some row occupies the doctor's time. */
  function HasConflict(rows: seq<Appointment>, doctorId: int, date: Date, time: TimeOfDay,
                       exclude: Option<int>): (r: bool)
    ensures r <==> exists i :: 0 <= i < |rows| && Occupies(rows[i], doctorId, date, time, exclude)
  {
    if rows == [] then false
    else if Occupies(rows[0], doctorId, date, time, exclude) then true
    else
      var r := HasConflict(rows[1..], doctorId, date, time, exclude);
      assert forall i :: 1 <= i < |rows| ==> rows[i] == rows[1..][i - 1];
      r
  }

  /** Over the whole table the conflict check looks at every stored appointment. */
  lemma ConflictInStore(st: Store, doctorId: int, date: Date, time: TimeOfDay, exclude: Option<int>)
    requires forall k :: k in st.appointments ==> 0 <= k < st.nextId
    ensures HasConflict(Rows(st), doctorId, date, time, exclude) <==>
            exists k :: k in st.appointments && Occupies(st.appointments[k], doctorId, date, time, exclude)
  {
    var rows := Rows(st);
    if HasConflict(rows, doctorId, date, time, exclude) {
      var i :| 0 <= i < |rows| && Occupies(rows[i], doctorId, date, time, exclude);
      assert rows[i] in rows;
      var k :| 0 <= k < st.nextId && k in st.appointments && st.appointments[k] == rows[i];
    }
    if exists k :: k in st.appointments && Occupies(st.appointments[k], doctorId, date, time, exclude) {
      var k :| k in st.appointments && Occupies(st.appointments[k], doctorId, date, time, exclude);
      assert st.appointments[k] in rows;
      var i :| 0 <= i < |rows| && rows[i] == st.appointments[k];
    }
  }

  // ---------------------------------------------------------------
  // get_available_slots
  // ---------------------------------------------------------------

  datatype SlotFilter = SlotFilter(
    doctorId: Option<int>,
    departmentId: Option<int>,
    fromDate: Option<Date>,
    toDate: Option<Date>)

  /** The `WHERE` clause of `get_available_slots`, with its inner joins: the
      slot's doctor and that doctor's department exist, the slot is free and
      not in the past, the doctor is active, and every supplied filter holds
      (date bounds inclusive). A filter that is not supplied is SQL `NULL` and
      admits every row. */
  predicate SlotListed(s: Slot, doctors: map<int, Doctor>, departments: map<int, Department>,
                       today: Date, f: SlotFilter)
  {
    && s.doctorId in doctors
    && doctors[s.doctorId].departmentId in departments
    && !s.isBooked
    && s.date >= today
    && doctors[s.doctorId].isActive
    && (f.doctorId.Some? ==> s.doctorId == f.doctorId.value)
    && (f.departmentId.Some? ==> doctors[s.doctorId].departmentId == f.departmentId.value)
    && (f.fromDate.Some? ==> s.date >= f.fromDate.value)
    && (f.toDate.Some? ==> s.date <= f.toDate.value)
  }

  /** `s` comes no later than `t` in `ORDER BY available_date, start_time`. */
  predicate SlotNotAfter(s: Slot, t: Slot)
  {
    s.date < t.date || (s.date == t.date && s.startTime <= t.startTime)
  }

  function SlotKey(s: Slot): int
  {
    AtTime(s.date, s.startTime)
  }

  lemma SlotKeyOrder(s: Slot, t: Slot)
    requires SlotKey(s) <= SlotKey(t)
    ensures SlotNotAfter(s, t)
  {
  }

  /** `get_available_slots`: exactly the listed slots, each as often as it is
      stored, in ascending (date, start time) order. */
  function AvailableSlots(rows: seq<Slot>, doctors: map<int, Doctor>, departments: map<int, Department>,
                          today: Date, f: SlotFilter): (r: seq<Slot>)
    ensures forall s :: multiset(r)[s] == if SlotListed(s, doctors, departments, today, f) then multiset(rows)[s] else 0
    ensures forall i, j :: 0 <= i < j < |r| ==> SlotNotAfter(r[i], r[j])
  {
    var listed := Sorting.Filter(rows, s => SlotListed(s, doctors, departments, today, f));
    var r := Sorting.SortBy(listed, SlotKey);
    forall i, j | 0 <= i < j < |r| ensures SlotNotAfter(r[i], r[j]) {
      SlotKeyOrder(r[i], r[j]);
    }
    r
  }

  // ---------------------------------------------------------------
  // get_pending_appointments_by_doctor
  // ---------------------------------------------------------------

  /** The `WHERE` clause and inner joins of the pending-list view: a PENDING
      appointment of the doctor whose patient, doctor and department rows exist. */
  predicate PendingListed(a: Appointment, patients: map<int, Patient>, doctors: map<int, Doctor>,
                          departments: map<int, Department>, doctorId: int)
  {
    && a.status == Pending
    && a.doctorId == doctorId
    && a.patientId in patients
    && a.doctorId in doctors
    && a.departmentId in departments
  }

  function CreatedAtKey(a: Appointment): int { a.createdAt }

  /** `get_pending_appointments_by_doctor`: the doctor's PENDING appointments,
      oldest first. */
  function PendingByDoctor(rows: seq<Appointment>, patients: map<int, Patient>, doctors: map<int, Doctor>,
                           departments: map<int, Department>, doctorId: int): (r: seq<Appointment>)
    ensures forall a :: multiset(r)[a] ==
                        if PendingListed(a, patients, doctors, departments, doctorId) then multiset(rows)[a] else 0
    ensures forall i, j :: 0 <= i < j < |r| ==> r[i].createdAt <= r[j].createdAt
  {
    var listed := Sorting.Filter(rows, a => PendingListed(a, patients, doctors, departments, doctorId));
    Sorting.SortBy(listed, CreatedAtKey)
  }

  // ---------------------------------------------------------------
  // get_patient_appointments and get_appointments_by_filters
  // ---------------------------------------------------------------

  /** `ORDER BY appointment_date DESC` as an ascending key. */
  function LatestFirstKey(a: Appointment): int { -a.date }

  /** The filters of `get_patient_appointments`: the patient always, the status
      and the inclusive date bounds when supplied. */
  predicate PatientListed(a: Appointment, patientId: int, status: Option<Status>,
                          fromDate: Option<Date>, toDate: Option<Date>)
  {
    && a.patientId == patientId
    && (status.Some? ==> a.status == status.value)
    && (fromDate.Some? ==> a.date >= fromDate.value)
    && (toDate.Some? ==> a.date <= toDate.value)
  }

  /** `get_patient_appointments`: the patient's matching appointments, latest
      date first. */
  function PatientAppointments(rows: seq<Appointment>, patientId: int, status: Option<Status>,
                               fromDate: Option<Date>, toDate: Option<Date>): (r: seq<Appointment>)
    ensures forall a :: multiset(r)[a] ==
                        if PatientListed(a, patientId, status, fromDate, toDate) then multiset(rows)[a] else 0
    ensures forall i, j :: 0 <= i < j < |r| ==> r[i].date >= r[j].date
  {
    var listed := Sorting.Filter(rows, a => PatientListed(a, patientId, status, fromDate, toDate));
    Sorting.SortBy(listed, LatestFirstKey)
  }

  datatype AppointmentFilter = AppointmentFilter(
    patientId: Option<int>,
    doctorId: Option<int>,
    departmentId: Option<int>,
    status: Option<Status>,
    date: Option<Date>,
    fromDate: Option<Date>,
    toDate: Option<Date>)

  /** The filters of `get_appointments_by_filters`. An id filter of 0 is
      falsy and so not applied; a supplied status or date always is. */
  predicate MatchesFilter(a: Appointment, f: AppointmentFilter)
  {
    && (Truthy(f.patientId) ==> a.patientId == f.patientId.value)
    && (Truthy(f.doctorId) ==> a.doctorId == f.doctorId.value)
    && (Truthy(f.departmentId) ==> a.departmentId == f.departmentId.value)
    && (f.status.Some? ==> a.status == f.status.value)
    && (f.date.Some? ==> a.date == f.date.value)
    && (f.fromDate.Some? ==> a.date >= f.fromDate.value)
    && (f.toDate.Some? ==> a.date <= f.toDate.value)
  }

  /** `get_appointments_by_filters`: the matching appointments, latest date first. */
  function AppointmentsByFilters(rows: seq<Appointment>, f: AppointmentFilter): (r: seq<Appointment>)
    ensures forall a :: multiset(r)[a] == if MatchesFilter(a, f) then multiset(rows)[a] else 0
    ensures forall i, j :: 0 <= i < j < |r| ==> r[i].date >= r[j].date
  {
    var listed := Sorting.Filter(rows, a => MatchesFilter(a, f));
    Sorting.SortBy(listed, LatestFirstKey)
  }

  /** For a patient id that is not 0, `get_patient_appointments` returns the
      same list as `get_appointments_by_filters` given that patient and the same
      status and date bounds. */
  lemma PatientAppointmentsAreFiltered(rows: seq<Appointment>, patientId: int, status: Option<Status>,
                                       fromDate: Option<Date>, toDate: Option<Date>)
    requires patientId != 0
    ensures PatientAppointments(rows, patientId, status, fromDate, toDate)
              == AppointmentsByFilters(rows, AppointmentFilter(Some(patientId), None, None, status, None, fromDate, toDate))
  {
    var f := AppointmentFilter(Some(patientId), None, None, status, None, fromDate, toDate);
    Sorting.FilterAgree(rows, a => PatientListed(a, patientId, status, fromDate, toDate), a => MatchesFilter(a, f));
  }
}
