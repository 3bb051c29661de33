/** Properties that relate the use cases of the appointment service to each
    other: the store invariant every use case preserves, the status machine
    every use case respects, and the agreement between the repository queries
    and the guards of the use cases. */
module ServiceProperties {
  import opened Results
  import opened Errors
  import opened Domain
  import opened Dto
  import opened Repository
  import opened Pagination
  import opened Lifecycle
  import opened Service
  import Text

  // ---------------------------------------------------------------
  // Store invariant
  // ---------------------------------------------------------------

  /** One appointment row is lifecycle-consistent, its foreign keys resolve,
      and its department is its doctor's department. */
  predicate RowValid(st: Store, a: Appointment)
  {
    && LifecycleConsistent(a)
    && a.patientId in st.patients
    && a.doctorId in st.doctors
    && a.slotId in st.slots
    && a.departmentId == st.doctors[a.doctorId].departmentId
  }

  /** The store invariant: rows sit under their own keys, appointment keys are
      positive and below the key counter, every doctor's department exists,
      and every appointment row is valid. */
  predicate Valid(st: Store)
  {
    && st.nextId >= 1
    && (forall k :: k in st.appointments ==> 1 <= k < st.nextId && st.appointments[k].id == k)
    && (forall k :: k in st.slots ==> st.slots[k].id == k)
    && (forall k :: k in st.doctors ==> st.doctors[k].id == k && st.doctors[k].departmentId in st.departments)
    && (forall k :: k in st.appointments ==> RowValid(st, st.appointments[k]))
  }

  /** A successful create inserts one new PENDING row under a key that was
      free, leaves every existing row as it was, and keeps the store valid. */
  lemma CreatePreservesValid(st: Store, req: CreateRequest, today: Date, now: Instant)
    requires Valid(st)
    ensures CreateAppointment(st, req, today, now).Ok? ==>
              var w := CreateAppointment(st, req, today, now).value;
              && st.nextId !in st.appointments
              && w.store.appointments.Keys == st.appointments.Keys + {w.appointment.id}
              && (forall k :: k in st.appointments ==> w.store.appointments[k] == st.appointments[k])
              && Valid(w.store)
  {
  }

  lemma ConfirmPreservesValid(st: Store, id: int, req: ConfirmRequest, confirmedBy: int, now: Instant)
    requires Valid(st)
    ensures ConfirmAppointment(st, id, req, confirmedBy, now).Ok? ==> Valid(ConfirmAppointment(st, id, req, confirmedBy, now).value)
  {
  }

  lemma UpdatePreservesValid(st: Store, id: int, req: UpdateRequest, patientId: int, today: Date)
    requires Valid(st)
    ensures UpdateAppointment(st, id, req, patientId, today).Ok? ==>
              Valid(UpdateAppointment(st, id, req, patientId, today).value.store)
  {
  }

  lemma CancelPreservesValid(st: Store, id: int, req: CancelRequest, userId: int, now: Instant)
    requires Valid(st)
    ensures CancelAppointment(st, id, req, userId, now).Ok? ==> Valid(CancelAppointment(st, id, req, userId, now).value)
  {
  }

  // ---------------------------------------------------------------
  // Runs of use cases
  // ---------------------------------------------------------------

  /** One request to the service. */
  datatype Command =
    | Book(create: CreateRequest, today: Date, now: Instant)
    | Decide(id: int, confirm: ConfirmRequest, doctorId: int, now: Instant)
    | Change(id: int, update: UpdateRequest, patientId: int, today: Date)
    | Withdraw(id: int, cancel: CancelRequest, userId: int, now: Instant)

  /** The store after one request: the written store on success, the same
      store when the request raised an error. */
  function Apply(st: Store, c: Command): Store
  {
    match c
    case Book(req, today, now) =>
      (match CreateAppointment(st, req, today, now) case Ok(w) => w.store case Err(_) => st)
    case Decide(id, req, doctorId, now) =>
      (match ConfirmAppointment(st, id, req, doctorId, now) case Ok(s) => s case Err(_) => st)
    case Change(id, req, patientId, today) =>
      (match UpdateAppointment(st, id, req, patientId, today) case Ok(w) => w.store case Err(_) => st)
    case Withdraw(id, req, userId, now) =>
      (match CancelAppointment(st, id, req, userId, now) case Ok(s) => s case Err(_) => st)
  }

  /** The store after a sequence of requests, one after another. */
  function Run(st: Store, cs: seq<Command>): Store
    decreases |cs|
  {
    if cs == [] then st else Run(Apply(st, cs[0]), cs[1..])
  }

  lemma ApplyPreservesValid(st: Store, c: Command)
    requires Valid(st)
    ensures Valid(Apply(st, c))
  {
    match c
    case Book(req, today, now) => CreatePreservesValid(st, req, today, now);
    case Decide(id, req, doctorId, now) => ConfirmPreservesValid(st, id, req, doctorId, now);
    case Change(id, req, patientId, today) => UpdatePreservesValid(st, id, req, patientId, today);
    case Withdraw(id, req, userId, now) => CancelPreservesValid(st, id, req, userId, now);
  }

  /** One request never deletes an appointment, moves each existing one at
      most one step along the status machine, leaves a REJECTED or CANCELLED
      appointment exactly as it was, adds only PENDING appointments, and never
      touches the department, doctor, slot or patient tables (slot booking is
      maintained outside the service). */
  lemma ApplyRespectsLifecycle(st: Store, c: Command)
    requires Valid(st)
    ensures forall k :: k in st.appointments ==> k in Apply(st, c).appointments
    ensures forall k :: k in st.appointments ==>
              CanMove(st.appointments[k].status, Apply(st, c).appointments[k].status)
    ensures forall k :: k in st.appointments && Final(st.appointments[k].status) ==>
              Apply(st, c).appointments[k] == st.appointments[k]
    ensures forall k :: k in Apply(st, c).appointments && k !in st.appointments ==>
              Apply(st, c).appointments[k].status == Pending
    ensures Apply(st, c).slots == st.slots && Apply(st, c).doctors == st.doctors
    ensures Apply(st, c).departments == st.departments && Apply(st, c).patients == st.patients
  {
  }

  /** Any run of requests keeps the store valid. */
  lemma {:induction false} RunPreservesValid(st: Store, cs: seq<Command>)
    requires Valid(st)
    ensures Valid(Run(st, cs))
    decreases |cs|
  {
    if cs != [] {
      ApplyPreservesValid(st, cs[0]);
      RunPreservesValid(Apply(st, cs[0]), cs[1..]);
    }
  }

  /** Over any run of requests no appointment disappears, every status change
      is one the status machine allows (PENDING to CONFIRMED, REJECTED or
      CANCELLED; CONFIRMED to CANCELLED), and a REJECTED or CANCELLED
      appointment never changes again. */
  lemma {:induction false} RunRespectsLifecycle(st: Store, cs: seq<Command>)
    requires Valid(st)
    ensures forall k :: k in st.appointments ==> k in Run(st, cs).appointments
    ensures forall k :: k in st.appointments ==>
              CanMove(st.appointments[k].status, Run(st, cs).appointments[k].status)
    ensures forall k :: k in st.appointments && Final(st.appointments[k].status) ==>
              Run(st, cs).appointments[k] == st.appointments[k]
    decreases |cs|
  {
    if cs != [] {
      var mid := Apply(st, cs[0]);
      ApplyRespectsLifecycle(st, cs[0]);
      ApplyPreservesValid(st, cs[0]);
      RunRespectsLifecycle(mid, cs[1..]);
      assert Run(st, cs) == Run(mid, cs[1..]);
      forall k | k in st.appointments
        ensures CanMove(st.appointments[k].status, Run(st, cs).appointments[k].status)
      {
        CanMoveTransitive(st.appointments[k].status, mid.appointments[k].status, Run(st, cs).appointments[k].status);
      }
    }
  }

  // ---------------------------------------------------------------
  // Confirm: case-insensitive action, reason rule in the service
  // ---------------------------------------------------------------

  /** The action is matched without regard to letter case: "Confirm",
      "CONFIRM" and "cOnFiRm" all confirm, and likewise for "reject". */
  lemma ActionIgnoresCase(req: ConfirmRequest)
    ensures ActionIs(req, "confirm") <==> Text.EqualsIgnoringCase(req.action, "confirm")
    ensures ActionIs(req, "reject") <==> Text.EqualsIgnoringCase(req.action, "reject")
  {
    Text.LowerEqualsIffIgnoringCase(req.action, "confirm");
    Text.LowerEqualsIffIgnoringCase(req.action, "reject");
  }

  /** The confirm DTO accepts a rejection without a reason, and the service
      refuses it: the rule lives in the service alone. */
  lemma RejectionNeedsReason(st: Store, id: int, action: string, reason: Option<string>, confirmedBy: int, now: Instant)
    requires ConfirmGuards(st, id, confirmedBy)
    requires Text.EqualsIgnoringCase(action, "reject")
    requires !NonEmpty(reason)
    ensures ConfirmAppointment(st, id, ConfirmRequest(action, reason), confirmedBy, now) == Err(RejectionReasonRequired)
  {
    ActionIgnoresCase(ConfirmRequest(action, reason));
  }

  // ---------------------------------------------------------------
  // Cancel: lead-time rule and validated roles
  // ---------------------------------------------------------------

  /** The thresholds are inclusive: a regular appointment exactly 2 hours away
      may be cancelled and one a second closer may not; an emergency
      appointment exactly 30 minutes away may be cancelled and one a second
      closer may not. */
  lemma LeadTimeBoundaries()
    ensures CancellationWindow(false, 7200) == Pass
    ensures CancellationWindow(false, 7199) == Fail(RegularCancellationTooLate)
    ensures CancellationWindow(true, 1800) == Pass
    ensures CancellationWindow(true, 1799) == Fail(EmergencyCancellationTooLate)
  {
  }

  /** Asking earlier never hurts, and the emergency rule is never stricter
      than the regular one. */
  lemma LeadTimeMonotone(isEmergency: bool, lead: int, lead': int)
    requires lead <= lead'
    ensures CancellationWindow(isEmergency, lead).Pass? ==> CancellationWindow(isEmergency, lead').Pass?
    ensures CancellationWindow(false, lead).Pass? ==> CancellationWindow(true, lead).Pass?
  {
  }

  /** A cancel request that passed DTO validation never meets the service's
      "invalid cancelled_by" branch. */
  lemma ValidatedRoleIsKnown(st: Store, id: int, role: string, reason: Option<string>, userId: int, now: Instant)
    requires ParseCancelRequest(role, reason).Ok?
    ensures CancelAppointment(st, id, ParseCancelRequest(role, reason).value, userId, now) != Err(InvalidCancelledBy)
  {
  }

  // ---------------------------------------------------------------
  // Request validation and error statuses against the use cases
  // ---------------------------------------------------------------

  /** After DTO validation a supplied id is never 0 and a supplied reason never
      empty, so the service's truthiness tests reduce to presence: update acts
      on exactly the fields the request supplies. */
  lemma ValidatedUpdateActsOnSuppliedFields(st: Store, id: int, u: UpdateRequest, patientId: int, today: Date)
    requires ParseUpdateRequest(u.doctorId, u.slotId, u.reason, u.isEmergency).Ok?
    requires id in st.appointments
    ensures var a := st.appointments[id];
            && (ChangesDoctor(a, u) <==> u.doctorId.Some? && u.doctorId.value != a.doctorId)
            && (ChangesSlot(a, u) <==> u.slotId.Some? && u.slotId.value != a.slotId)
    ensures var r := UpdateAppointment(st, id, u, patientId, today);
            r.Ok? ==> r.value.appointment.reason == (if u.reason.Some? then u.reason.value else st.appointments[id].reason)
  {
  }

  /** A booking made from a validated create request stores positive ids and a
      reason of 5 to 500 characters; when the request left the emergency flag
      out, the appointment is regular and the two-hour cancellation rule
      governs it. */
  lemma ValidatedBookingIsWellFormed(st: Store, patientId: int, doctorId: int, departmentId: int, slotId: int,
                                     reason: string, isEmergency: Option<bool>, today: Date, now: Instant)
    requires ParseCreateRequest(patientId, doctorId, departmentId, slotId, reason, isEmergency).Ok?
    ensures var r := CreateAppointment(st, ParseCreateRequest(patientId, doctorId, departmentId, slotId, reason, isEmergency).value, today, now);
            r.Ok? ==>
              && r.value.appointment.patientId > 0 && r.value.appointment.doctorId > 0
              && r.value.appointment.departmentId > 0 && r.value.appointment.slotId > 0
              && ValidReason(r.value.appointment.reason)
              && (isEmergency.None? ==> MinimumLead(r.value.appointment.isEmergency) == 7200)
  {
  }

  /** Create answers patient-not-found exactly when the patient check fails. */
  lemma PatientCheckDecidesNotFound(st: Store, req: CreateRequest, today: Date, now: Instant)
    ensures CreateAppointment(st, req, today, now) == Err(PatientNotFound) <==> ValidatePatientExists(st, req.patientId).Fail?
  {
  }

  /** In a valid store the patient of every appointment passes the patient check. */
  lemma StoredPatientsPassCheck(st: Store)
    requires Valid(st)
    ensures forall k :: k in st.appointments ==> ValidatePatientExists(st, st.appointments[k].patientId).Pass?
  {
  }

  /** Create answers 404 exactly when the patient is missing or the doctor is
      missing or inactive, and 400 for every other refusal. */
  lemma CreateErrorStatus(st: Store, req: CreateRequest, today: Date, now: Instant)
    ensures var r := CreateAppointment(st, req, today, now);
            r.Err? ==>
              HttpStatus(r.error) == (if req.patientId !in st.patients || !ActiveDoctor(st.doctors, req.doctorId) then 404 else 400)
  {
  }

  /** Cancel answers 404 exactly when the appointment is missing, and 403
      exactly when a known role names someone other than the appointment's own
      patient or doctor. */
  lemma CancelErrorStatus(st: Store, id: int, req: CancelRequest, userId: int, now: Instant)
    ensures var r := CancelAppointment(st, id, req, userId, now);
            r.Err? ==>
              && (HttpStatus(r.error) == 404 <==> id !in st.appointments)
              && (HttpStatus(r.error) == 403 <==>
                    && id in st.appointments && IsActive(st.appointments[id].status)
                    && req.cancelledBy in CancelledByNames
                    && !CancellerOwns(st.appointments[id], req.cancelledBy, userId))
  {
  }

  // ---------------------------------------------------------------
  // Update: reason-only changes and slot ownership
  // ---------------------------------------------------------------

  /** An update that only supplies a reason replaces the reason and nothing
      else: status, doctor, slot, date and time stay as they were. */
  lemma ReasonOnlyUpdate(st: Store, id: int, reason: string, patientId: int, today: Date)
    requires UpdateGuards(st, id, patientId, today)
    requires reason != ""
    ensures var r := UpdateAppointment(st, id, UpdateRequest(None, None, Some(reason), None), patientId, today);
            && r.Ok?
            && r.value.appointment == st.appointments[id].(reason := reason)
            && r.value.store == Put(st, id, st.appointments[id].(reason := reason))
  {
  }

  /** The appointment's slot belongs to its doctor. */
  predicate SlotOwned(st: Store, a: Appointment)
  {
    a.slotId in st.slots && st.slots[a.slotId].doctorId == a.doctorId
  }

  /** An update keeps the slot with the doctor unless it changes the doctor
      without also moving to another slot. */
  lemma UpdateKeepsSlotOwnership(st: Store, id: int, req: UpdateRequest, patientId: int, today: Date)
    requires id in st.appointments && SlotOwned(st, st.appointments[id])
    requires !ChangesDoctor(st.appointments[id], req) || ChangesSlot(st.appointments[id], req)
    ensures UpdateAppointment(st, id, req, patientId, today).Ok? ==>
              SlotOwned(st, UpdateAppointment(st, id, req, patientId, today).value.appointment)
  {
  }

  /** A small store: one department, two active doctors in it, one free slot
      of the first doctor, one patient, and that patient's PENDING
      appointment on that slot. */
  function SampleStore(): Store
  {
    var a := NewAppointment(1, 7, 1, 1, 10, 100, 32400, "check-up", false, 0);
    Store(
      map[1 := NewDepartment(1, "Cardiology", 0)],
      map[1 := NewDoctor(1, "A", 1, 0), 2 := NewDoctor(2, "B", 1, 0)],
      map[10 := NewSlot(10, 1, 100, 32400, 34200, 0)],
      map[7 := Patient(7, "P", None, None, 0)],
      map[1 := a],
      2)
  }

  /** The guard chain of `update_appointment` lets a doctor change through
      without a slot change, so the appointment ends up on a slot of its former
      doctor: the slot-ownership rule create enforces is not kept by update. */
  lemma DoctorOnlyUpdateLeavesForeignSlot()
    ensures Valid(SampleStore()) && SlotOwned(SampleStore(), SampleStore().appointments[1])
    ensures var r := UpdateAppointment(SampleStore(), 1, UpdateRequest(Some(2), None, None, None), 7, 100);
            && r.Ok?
            && r.value.appointment.doctorId == 2
            && !SlotOwned(r.value.store, r.value.appointment)
  {
    var st := SampleStore();
    var req := UpdateRequest(Some(2), None, None, None);
    assert ChangesDoctor(st.appointments[1], req);
    assert !ChangesSlot(st.appointments[1], req);
  }

  // ---------------------------------------------------------------
  // Queries against the use cases
  // ---------------------------------------------------------------

  /** In a valid store the table scan holds exactly the stored appointments. */
  lemma RowsAreStoredAppointments(st: Store)
    requires Valid(st)
    ensures forall a :: a in Rows(st) <==> a.id in st.appointments && st.appointments[a.id] == a
  {
  }

  /** `get_appointments` reports "not found" exactly when no stored
      appointment matches the filters. */
  lemma NotFoundIffNothingMatches(st: Store, f: AppointmentFilter, p: PageRequest)
    requires Valid(st)
    ensures GetAppointments(st, f, p) == Err(NoAppointmentsFound) <==>
              forall k :: k in st.appointments ==> !MatchesFilter(st.appointments[k], f)
  {
    RowsAreStoredAppointments(st);
    if forall k :: k in st.appointments ==> !MatchesFilter(st.appointments[k], f) {
      forall a | a in Rows(st) ensures !MatchesFilter(a, f) {
        assert a.id in st.appointments;
      }
    }
  }

  /** Item `i` of a result sits at position `i % page_size` of page
      `i / page_size + 1`, and that page is served: paging misses nothing. */
  lemma EveryItemOnItsPage<T>(items: seq<T>, pageSize: int, i: int)
    requires 1 <= pageSize <= 100 && 0 <= i < |items|
    ensures var p := PageRequest(i / pageSize + 1, pageSize);
            && Paginate(items, p).Ok?
            && i % pageSize < |Paginate(items, p).value.data|
            && Paginate(items, p).value.data[i % pageSize] == items[i]
  {
    var p := PageRequest(i / pageSize + 1, pageSize);
    var q, m := i / pageSize, i % pageSize;
    assert i == q * pageSize + m && 0 <= m < pageSize;
    assert q >= 0;
    assert CalcSkip(p).value == q * pageSize;
  }

  /** The pending list a doctor sees holds exactly the appointments that
      doctor may confirm or reject. */
  lemma PendingListIsConfirmable(st: Store, doctorId: int)
    requires Valid(st)
    ensures forall a :: a in PendingByDoctor(Rows(st), st.patients, st.doctors, st.departments, doctorId) ==>
              ConfirmGuards(st, a.id, doctorId)
    ensures forall k :: ConfirmGuards(st, k, doctorId) ==>
              st.appointments[k] in PendingByDoctor(Rows(st), st.patients, st.doctors, st.departments, doctorId)
  {
    var rows := Rows(st);
    var listed := PendingByDoctor(rows, st.patients, st.doctors, st.departments, doctorId);
    RowsAreStoredAppointments(st);
    forall a | a in listed ensures ConfirmGuards(st, a.id, doctorId) {
      assert a in multiset(listed);
    }
    forall k | ConfirmGuards(st, k, doctorId)
      ensures st.appointments[k] in listed
    {
      var a := st.appointments[k];
      assert a in rows;
      assert a in multiset(rows);
      assert PendingListed(a, st.patients, st.doctors, st.departments, doctorId);
      assert a in multiset(listed);
    }
  }

  /** `rows` is a scan of the slot table: every row is stored under its id. */
  predicate ScansSlots(rows: seq<Slot>, slots: map<int, Slot>)
  {
    forall i :: 0 <= i < |rows| ==> rows[i].id in slots && slots[rows[i].id] == rows[i]
  }

  lemma ListedSlotIsStoredAndListed(rows: seq<Slot>, doctors: map<int, Doctor>, departments: map<int, Department>,
                                    today: Date, f: SlotFilter, s: Slot)
    requires s in AvailableSlots(rows, doctors, departments, today, f)
    ensures s in rows && SlotListed(s, doctors, departments, today, f)
  {
    assert s in multiset(AvailableSlots(rows, doctors, departments, today, f));
  }

  /** Booking a listed slot with its own doctor and department succeeds for
      any registered patient: the slot list offers only bookable slots. */
  lemma ListedSlotIsBookable(st: Store, rows: seq<Slot>, today: Date, f: SlotFilter, s: Slot,
                             patientId: int, reason: string, isEmergency: bool, now: Instant)
    requires ScansSlots(rows, st.slots)
    requires s in AvailableSlots(rows, st.doctors, st.departments, today, f)
    requires patientId in st.patients
    ensures s.doctorId in st.doctors
    ensures var req := CreateRequest(patientId, s.doctorId, st.doctors[s.doctorId].departmentId, s.id, reason, isEmergency);
            CreateAppointment(st, req, today, now).Ok?
  {
    ListedSlotIsStoredAndListed(rows, st.doctors, st.departments, today, f, s);
    var i :| 0 <= i < |rows| && rows[i] == s;
    assert st.slots[s.id] == s;
    var req := CreateRequest(patientId, s.doctorId, st.doctors[s.doctorId].departmentId, s.id, reason, isEmergency);
    assert CanCreate(st, req, today);
  }

  /** Conversely, a free, current slot of an active doctor in an existing
      department is listed when no filter excludes it. */
  lemma BookableSlotIsListed(st: Store, rows: seq<Slot>, today: Date, k: int)
    requires k in st.slots && st.slots[k] in rows
    requires IsSlotAvailable(st.slots, k, today)
    requires ActiveDoctor(st.doctors, st.slots[k].doctorId)
    requires st.doctors[st.slots[k].doctorId].departmentId in st.departments
    ensures st.slots[k] in AvailableSlots(rows, st.doctors, st.departments, today, SlotFilter(None, None, None, None))
  {
    var s := st.slots[k];
    assert s in multiset(rows);
    assert s in multiset(AvailableSlots(rows, st.doctors, st.departments, today, SlotFilter(None, None, None, None)));
  }
}
