/** The four appointment use cases of src/services/appointment_service.py
    (create, confirm or reject, update, cancel), the cancellation lead-time
    rule, and the pagination of `get_appointments`.

    Each use case is a chain of guards. A guard that fails raises an error
    before anything is written, so the caller keeps its store; when every guard
    passes the result is the store after the single write. The clock enters as
    parameters: `today` for `date.today()` and `now` for `datetime.now()`. */
module Service {
  import opened Results
  import opened Errors
  import opened Domain
  import opened Dto
  import opened Repository
  import opened Pagination
  import Text

  /** Regular appointments cannot be cancelled less than 2 hours ahead. */
  const RegularLeadSeconds: int := 2 * 3600
  /** Emergency appointments cannot be cancelled less than 30 minutes ahead. */
  const EmergencyLeadSeconds: int := 3600 / 2

  /** The store after a create or update, and the appointment it wrote. */
  datatype Written = Written(store: Store, appointment: Appointment)

  /** `st` with the appointment under `id` replaced by `a`. */
  function Put(st: Store, id: int, a: Appointment): Store
  {
    st.(appointments := st.appointments[id := a])
  }

  /** `st'` is `st` with only the existing appointment under `id` rewritten:
      every other appointment, every other table and the key counter are unchanged. */
  predicate OnlyRowChanged(st: Store, st': Store, id: int)
  {
    id in st.appointments && id in st'.appointments && st' == Put(st, id, st'.appointments[id])
  }

  // ---------------------------------------------------------------
  // _validate_patient_exists
  // ---------------------------------------------------------------

  function ValidatePatientExists(st: Store, patientId: int): (r: Check<Error>)
    ensures r.Pass? <==> patientId in st.patients
    ensures r.Fail? ==> r.error == PatientNotFound
  {
    if patientId in st.patients then Pass else Fail(PatientNotFound)
  }

  // ---------------------------------------------------------------
  // create_appointment
  // ---------------------------------------------------------------

  /** Every guard of `create_appointment` passes. */
  predicate CanCreate(st: Store, req: CreateRequest, today: Date)
  {
    && req.patientId in st.patients
    && ActiveDoctor(st.doctors, req.doctorId)
    && st.doctors[req.doctorId].departmentId == req.departmentId
    && IsSlotAvailable(st.slots, req.slotId, today)
    && st.slots[req.slotId].doctorId == req.doctorId
  }

  /** Use case 1: book an appointment. Guards in source order: the patient
      exists (404), the doctor exists and is active (404), the department is the
      doctor's (400), the slot is available (400), the slot exists and belongs
      to the doctor (400). On success a new PENDING appointment is inserted
      under the next key, taking its ids, reason and emergency flag from the
      request and its date and time from the slot; nothing else is written. */
  function CreateAppointment(st: Store, req: CreateRequest, today: Date, now: Instant): (r: Result<Written, Error>)
    ensures req.patientId !in st.patients ==> r == Err(PatientNotFound)
    ensures req.patientId in st.patients && !ActiveDoctor(st.doctors, req.doctorId) ==>
              r == Err(DoctorNotFoundOrInactive)
    ensures && req.patientId in st.patients && ActiveDoctor(st.doctors, req.doctorId)
            && st.doctors[req.doctorId].departmentId != req.departmentId ==>
              r == Err(DepartmentMismatch)
    ensures && req.patientId in st.patients && ActiveDoctor(st.doctors, req.doctorId)
            && st.doctors[req.doctorId].departmentId == req.departmentId
            && !IsSlotAvailable(st.slots, req.slotId, today) ==>
              r == Err(SlotUnavailable)
    ensures && req.patientId in st.patients && ActiveDoctor(st.doctors, req.doctorId)
            && st.doctors[req.doctorId].departmentId == req.departmentId
            && IsSlotAvailable(st.slots, req.slotId, today)
            && st.slots[req.slotId].doctorId != req.doctorId ==>
              r == Err(InvalidSlotForDoctor)
    ensures r.Ok? <==> CanCreate(st, req, today)
    ensures r.Ok? ==>
              var a := r.value.appointment;
              && a.id == st.nextId
              && a.status == Pending && NoLifecycleData(a)
              && a.patientId == req.patientId && a.doctorId == req.doctorId
              && a.departmentId == req.departmentId && a.slotId == req.slotId
              && a.reason == req.reason && a.isEmergency == req.isEmergency
              && a.date == st.slots[req.slotId].date && a.time == st.slots[req.slotId].startTime
              && a.createdAt == now
    ensures r.Ok? ==>
              r.value.store == st.(appointments := st.appointments[st.nextId := r.value.appointment],
                                   nextId := st.nextId + 1)
  {
    if ValidatePatientExists(st, req.patientId).Fail? then Err(PatientNotFound)
    else if !ActiveDoctor(st.doctors, req.doctorId) then Err(DoctorNotFoundOrInactive)
    else if st.doctors[req.doctorId].departmentId != req.departmentId then Err(DepartmentMismatch)
    else if !IsSlotAvailable(st.slots, req.slotId, today) then Err(SlotUnavailable)
    else if req.slotId !in st.slots || st.slots[req.slotId].doctorId != req.doctorId then Err(InvalidSlotForDoctor)
    else
      var slot := st.slots[req.slotId];
      var a := NewAppointment(st.nextId, req.patientId, req.doctorId, req.departmentId, req.slotId,
                              slot.date, slot.startTime, req.reason, req.isEmergency, now);
      Ok(Written(st.(appointments := st.appointments[st.nextId := a], nextId := st.nextId + 1), a))
  }

  // ---------------------------------------------------------------
  // confirm_appointment
  // ---------------------------------------------------------------

  /** The appointment exists, is PENDING, and is the confirming doctor's own. */
  predicate ConfirmGuards(st: Store, id: int, confirmedBy: int)
  {
    id in st.appointments && st.appointments[id].status == Pending && st.appointments[id].doctorId == confirmedBy
  }

  predicate ActionIs(req: ConfirmRequest, word: string)
  {
    Text.Lower(req.action) == word
  }

  /** Use case 2: a doctor confirms or rejects a pending appointment. Guards:
      the appointment exists (404), is PENDING (400), and belongs to the doctor
      (403). Action "confirm", in any letter case, makes it CONFIRMED and
      records the doctor and the time; "reject" needs a non-empty reason (400)
      and makes it REJECTED, recording the reason and the time; any other
      action is refused (400). Only that appointment changes. */
  function ConfirmAppointment(st: Store, id: int, req: ConfirmRequest, confirmedBy: int, now: Instant): (r: Result<Store, Error>)
    ensures id !in st.appointments ==> r == Err(AppointmentNotFound)
    ensures id in st.appointments && st.appointments[id].status != Pending ==> r == Err(NotPending)
    ensures id in st.appointments && st.appointments[id].status == Pending && st.appointments[id].doctorId != confirmedBy ==>
              r == Err(ConfirmForbidden)
    ensures ConfirmGuards(st, id, confirmedBy) && ActionIs(req, "reject") && !NonEmpty(req.rejectionReason) ==>
              r == Err(RejectionReasonRequired)
    ensures ConfirmGuards(st, id, confirmedBy) && !ActionIs(req, "confirm") && !ActionIs(req, "reject") ==>
              r == Err(InvalidAction)
    ensures r.Ok? <==>
              && ConfirmGuards(st, id, confirmedBy)
              && (ActionIs(req, "confirm") || (ActionIs(req, "reject") && NonEmpty(req.rejectionReason)))
    ensures r.Ok? ==> OnlyRowChanged(st, r.value, id)
    ensures r.Ok? && ActionIs(req, "confirm") ==>
              r.value.appointments[id] ==
                st.appointments[id].(status := Confirmed, confirmedBy := Some(confirmedBy), confirmedAt := Some(now))
    ensures r.Ok? && ActionIs(req, "reject") ==>
              r.value.appointments[id] ==
                st.appointments[id].(status := Rejected, rejectionReason := req.rejectionReason, rejectedAt := Some(now))
  {
    if id !in st.appointments then Err(AppointmentNotFound)
    else
      var a := st.appointments[id];
      if a.status != Pending then Err(NotPending)
      else if a.doctorId != confirmedBy then Err(ConfirmForbidden)
      else if Text.Lower(req.action) == "confirm" then
        Ok(Put(st, id, a.(status := Confirmed, confirmedBy := Some(confirmedBy), confirmedAt := Some(now))))
      else if Text.Lower(req.action) == "reject" then
        if !NonEmpty(req.rejectionReason) then Err(RejectionReasonRequired)
        else Ok(Put(st, id, a.(status := Rejected, rejectionReason := req.rejectionReason, rejectedAt := Some(now))))
      else Err(InvalidAction)
  }

  // ---------------------------------------------------------------
  // update_appointment
  // ---------------------------------------------------------------

  /** The appointment exists, is the patient's own, is PENDING or CONFIRMED,
      and is not dated before today. */
  predicate UpdateGuards(st: Store, id: int, patientId: int, today: Date)
  {
    && id in st.appointments
    && st.appointments[id].patientId == patientId
    && IsActive(st.appointments[id].status)
    && st.appointments[id].date >= today
  }

  /** The request names a doctor (a truthy id) other than the current one. */
  predicate ChangesDoctor(a: Appointment, req: UpdateRequest)
  {
    Truthy(req.doctorId) && req.doctorId.value != a.doctorId
  }

  /** The request names a slot (a truthy id) other than the current one. */
  predicate ChangesSlot(a: Appointment, req: UpdateRequest)
  {
    Truthy(req.slotId) && req.slotId.value != a.slotId
  }

  /** The doctor the appointment has once the doctor change is applied. */
  function TargetDoctor(a: Appointment, req: UpdateRequest): int
  {
    if ChangesDoctor(a, req) then req.doctorId.value else a.doctorId
  }

  /** Every check after the update guards passes: a new doctor exists and is
      active, and a new slot is available and belongs to the target doctor. */
  predicate UpdateChecks(st: Store, a: Appointment, req: UpdateRequest, today: Date)
  {
    && (ChangesDoctor(a, req) ==> ActiveDoctor(st.doctors, req.doctorId.value))
    && (ChangesSlot(a, req) ==>
          IsSlotAvailable(st.slots, req.slotId.value, today)
          && st.slots[req.slotId.value].doctorId == TargetDoctor(a, req))
  }

  /** Step 5 of `update_appointment`, doctor part: adopt the new doctor and
      that doctor's department. */
  function ChangeDoctor(st: Store, a: Appointment, req: UpdateRequest): Result<Appointment, Error>
  {
    if ChangesDoctor(a, req) then
      var d := req.doctorId.value;
      if d !in st.doctors || !st.doctors[d].isActive then Err(NewDoctorNotFoundOrInactive)
      else Ok(a.(departmentId := st.doctors[d].departmentId, doctorId := d))
    else Ok(a)
  }

  /** Step 5, slot part: move to the new slot and take its date and start time. */
  function ChangeSlot(st: Store, a: Appointment, req: UpdateRequest, today: Date): Result<Appointment, Error>
  {
    if ChangesSlot(a, req) then
      var s := req.slotId.value;
      if !IsSlotAvailable(st.slots, s, today) then Err(NewSlotUnavailable)
      else if s !in st.slots then Err(NewSlotNotFound)
      else if st.slots[s].doctorId != a.doctorId then Err(NewSlotWrongDoctor)
      else Ok(a.(slotId := s, date := st.slots[s].date, time := st.slots[s].startTime))
    else Ok(a)
  }

  /** Step 5, remaining fields: a truthy reason and a present emergency flag replace the old values. */
  function ChangeDetails(a: Appointment, req: UpdateRequest): Appointment
  {
    var a1 := if NonEmpty(req.reason) then a.(reason := req.reason.value) else a;
    if req.isEmergency.Some? then a1.(isEmergency := req.isEmergency.value) else a1
  }

  /** Use case 3: a patient changes doctor, slot, reason or emergency flag.
      Guards: the appointment exists (404), is the patient's (403), is PENDING
      or CONFIRMED (400), and is not in the past (400). A new doctor must exist
      and be active (404), and the appointment adopts its department. A new
      slot must be available (400) and belong to the resulting doctor (400),
      and the appointment takes its date and start time. Reason and emergency
      flag change only when supplied. The status, the patient and the
      lifecycle data never change, and no other row is written. */
  function UpdateAppointment(st: Store, id: int, req: UpdateRequest, patientId: int, today: Date): (r: Result<Written, Error>)
    ensures id !in st.appointments ==> r == Err(AppointmentNotFound)
    ensures id in st.appointments && st.appointments[id].patientId != patientId ==> r == Err(UpdateForbidden)
    ensures && id in st.appointments && st.appointments[id].patientId == patientId
            && !IsActive(st.appointments[id].status) ==>
              r == Err(NotUpdatable)
    ensures && id in st.appointments && st.appointments[id].patientId == patientId
            && IsActive(st.appointments[id].status) && st.appointments[id].date < today ==>
              r == Err(PastAppointment)
    ensures UpdateGuards(st, id, patientId, today) ==>
              var a := st.appointments[id];
              ChangesDoctor(a, req) && !ActiveDoctor(st.doctors, req.doctorId.value) ==>
                r == Err(NewDoctorNotFoundOrInactive)
    ensures UpdateGuards(st, id, patientId, today) ==>
              var a := st.appointments[id];
              (ChangesDoctor(a, req) ==> ActiveDoctor(st.doctors, req.doctorId.value)) ==>
              ChangesSlot(a, req) && !IsSlotAvailable(st.slots, req.slotId.value, today) ==>
                r == Err(NewSlotUnavailable)
    ensures UpdateGuards(st, id, patientId, today) ==>
              var a := st.appointments[id];
              (ChangesDoctor(a, req) ==> ActiveDoctor(st.doctors, req.doctorId.value)) ==>
              ChangesSlot(a, req) && IsSlotAvailable(st.slots, req.slotId.value, today)
              && st.slots[req.slotId.value].doctorId != TargetDoctor(a, req) ==>
                r == Err(NewSlotWrongDoctor)
    ensures r.Ok? <==> UpdateGuards(st, id, patientId, today) && UpdateChecks(st, st.appointments[id], req, today)
    ensures r.Ok? ==> r.value.store == Put(st, id, r.value.appointment)
    ensures r.Ok? ==>
              var a, a' := st.appointments[id], r.value.appointment;
              && a' == a.(doctorId := a'.doctorId, departmentId := a'.departmentId, slotId := a'.slotId,
                          date := a'.date, time := a'.time, reason := a'.reason, isEmergency := a'.isEmergency)
              && a'.doctorId == TargetDoctor(a, req)
              && a'.departmentId == (if ChangesDoctor(a, req) then st.doctors[a'.doctorId].departmentId else a.departmentId)
              && (ChangesSlot(a, req) ==>
                    && a'.slotId == req.slotId.value
                    && a'.date == st.slots[a'.slotId].date && a'.time == st.slots[a'.slotId].startTime)
              && (!ChangesSlot(a, req) ==> a'.slotId == a.slotId && a'.date == a.date && a'.time == a.time)
              && a'.reason == (if NonEmpty(req.reason) then req.reason.value else a.reason)
              && a'.isEmergency == (if req.isEmergency.Some? then req.isEmergency.value else a.isEmergency)
    ensures r.Err? ==> r.error != NewSlotNotFound
  {
    if id !in st.appointments then Err(AppointmentNotFound)
    else
      var a := st.appointments[id];
      if a.patientId != patientId then Err(UpdateForbidden)
      else if !IsActive(a.status) then Err(NotUpdatable)
      else if a.date < today then Err(PastAppointment)
      else
        match ChangeDoctor(st, a, req)
        case Err(e) => Err(e)
        case Ok(a1) =>
          assert a1.slotId == a.slotId && a1.doctorId == TargetDoctor(a, req);
          match ChangeSlot(st, a1, req, today)
          case Err(e) => Err(e)
          case Ok(a2) =>
            var a3 := ChangeDetails(a2, req);
            Ok(Written(Put(st, id, a3), a3))
  }

  // ---------------------------------------------------------------
  // cancel_appointment
  // ---------------------------------------------------------------

  /** The least lead time a cancellation needs. */
  function MinimumLead(isEmergency: bool): int
  {
    if isEmergency then EmergencyLeadSeconds else RegularLeadSeconds
  }

  /** Seconds from `now` until the appointment; negative once it has begun. */
  function LeadSeconds(a: Appointment, now: Instant): int
  {
    ScheduledAt(a) - now
  }

  /** The cancellation lead-time rule. The source computes the lead in hours
      and refuses a regular appointment when it is under 2 and an emergency
      appointment when it is under 0.5; in whole seconds that is a lead below
      7200 or below 1800, and a lead exactly at the threshold is allowed. */
  function CancellationWindow(isEmergency: bool, lead: int): (r: Check<Error>)
    ensures r.Pass? <==> lead >= MinimumLead(isEmergency)
    ensures !isEmergency && lead < 7200 ==> r == Fail(RegularCancellationTooLate)
    ensures isEmergency && lead < 1800 ==> r == Fail(EmergencyCancellationTooLate)
  {
    if !isEmergency && lead < 2 * 3600 then Fail(RegularCancellationTooLate)
    else if isEmergency && 2 * lead < 3600 then Fail(EmergencyCancellationTooLate)
    else Pass
  }

  /** The canceller is the appointment's patient (role "PATIENT") or its
      doctor (role "DOCTOR"). */
  predicate CancellerOwns(a: Appointment, role: string, userId: int)
  {
    (role == "PATIENT" && a.patientId == userId) || (role == "DOCTOR" && a.doctorId == userId)
  }

  /** Use case 4: cancel an appointment. Guards: it exists (404); it is not
      already CANCELLED (400) and is PENDING or CONFIRMED (400); a "PATIENT"
      canceller must be its patient and a "DOCTOR" canceller its doctor (403),
      and any other role is refused (400); the lead-time rule allows it (400).
      On success it becomes CANCELLED and records who cancelled, when, and the
      optional reason; only that appointment changes. */
  function CancelAppointment(st: Store, id: int, req: CancelRequest, userId: int, now: Instant): (r: Result<Store, Error>)
    ensures id !in st.appointments ==> r == Err(AppointmentNotFound)
    ensures id in st.appointments && st.appointments[id].status == Cancelled ==> r == Err(AlreadyCancelled)
    ensures id in st.appointments && st.appointments[id].status == Rejected ==> r == Err(NotCancellable)
    ensures id in st.appointments && IsActive(st.appointments[id].status) ==>
              var a := st.appointments[id];
              && (req.cancelledBy == "PATIENT" && a.patientId != userId ==> r == Err(CancelForbidden))
              && (req.cancelledBy == "DOCTOR" && a.doctorId != userId ==> r == Err(CancelForbidden))
              && (req.cancelledBy !in CancelledByNames ==> r == Err(InvalidCancelledBy))
              && (CancellerOwns(a, req.cancelledBy, userId) && !a.isEmergency && LeadSeconds(a, now) < 7200 ==>
                    r == Err(RegularCancellationTooLate))
              && (CancellerOwns(a, req.cancelledBy, userId) && a.isEmergency && LeadSeconds(a, now) < 1800 ==>
                    r == Err(EmergencyCancellationTooLate))
    ensures r.Ok? <==>
              && id in st.appointments
              && IsActive(st.appointments[id].status)
              && CancellerOwns(st.appointments[id], req.cancelledBy, userId)
              && LeadSeconds(st.appointments[id], now) >= MinimumLead(st.appointments[id].isEmergency)
    ensures r.Ok? ==> OnlyRowChanged(st, r.value, id)
    ensures r.Ok? ==>
              var a, a' := st.appointments[id], r.value.appointments[id];
              && a' == a.(status := Cancelled, cancelledBy := a'.cancelledBy, cancelledAt := Some(now),
                          cancellationReason := req.cancellationReason)
              && a'.cancelledBy.Some? && CancelledByName(a'.cancelledBy.value) == req.cancelledBy
  {
    if id !in st.appointments then Err(AppointmentNotFound)
    else
      var a := st.appointments[id];
      if a.status == Cancelled then Err(AlreadyCancelled)
      else if !IsActive(a.status) then Err(NotCancellable)
      else if req.cancelledBy == "PATIENT" && a.patientId != userId then Err(CancelForbidden)
      else if req.cancelledBy == "DOCTOR" && a.doctorId != userId then Err(CancelForbidden)
      else if req.cancelledBy != "PATIENT" && req.cancelledBy != "DOCTOR" then Err(InvalidCancelledBy)
      else
        match CancellationWindow(a.isEmergency, LeadSeconds(a, now))
        case Fail(e) => Err(e)
        case Pass =>
          Ok(Put(st, id, a.(status := Cancelled, cancelledBy := ParseCancelledBy(req.cancelledBy),
                            cancelledAt := Some(now), cancellationReason := req.cancellationReason)))
  }

  // ---------------------------------------------------------------
  // get_appointments
  // ---------------------------------------------------------------

  function Min(a: int, b: int): int { if a <= b then a else b }

  /** The manual pagination of `get_appointments`: an empty result is 404; a
      page whose skip is not inside the result is 400; otherwise the page holds
      the items at positions skip .. skip + page_size - 1 that exist, and the
      metadata describes the whole result. */
  function Paginate<T>(items: seq<T>, p: PageRequest): (r: Result<Paginated<T>, Error>)
    ensures |items| == 0 ==> r == Err(NoAppointmentsFound)
    ensures |items| > 0 && CalcSkip(p).Err? ==> r == Err(CalcSkip(p).error)
    ensures |items| > 0 && CalcSkip(p).Ok? && CalcSkip(p).value >= |items| ==> r == Err(PageExceedsTotal)
    ensures r.Ok? <==> |items| > 0 && CalcSkip(p).Ok? && CalcSkip(p).value < |items|
    ensures r.Ok? ==>
              var skip := CalcSkip(p).value;
              && |r.value.data| == Min(p.pageSize, |items| - skip)
              && 1 <= |r.value.data| <= p.pageSize
              && (forall i :: 0 <= i < |r.value.data| ==> r.value.data[i] == items[skip + i])
              && r.value.meta == CreateMeta(p.page, p.pageSize, |items|)
  {
    var total := |items|;
    if total == 0 then Err(NoAppointmentsFound)
    else
      match CalcSkip(p)
      case Err(e) => Err(e)
      case Ok(skip) =>
        if skip >= total then Err(PageExceedsTotal)
        else
          var end := Min(skip + p.pageSize, total);
          Ok(Paginated(items[skip..end], CreateMeta(p.page, p.pageSize, total)))
  }

  /** `get_appointments`: the stored appointments that match the filters,
      latest date first, cut to the requested page. */
  function GetAppointments(st: Store, f: AppointmentFilter, p: PageRequest): (r: Result<Paginated<Appointment>, Error>)
    ensures (forall a :: a in Rows(st) ==> !MatchesFilter(a, f)) <==> r == Err(NoAppointmentsFound)
    ensures r.Ok? ==> forall i :: 0 <= i < |r.value.data| ==> r.value.data[i] in Rows(st) && MatchesFilter(r.value.data[i], f)
    ensures r.Ok? ==> forall i, j :: 0 <= i < j < |r.value.data| ==> r.value.data[i].date >= r.value.data[j].date
    ensures r.Ok? ==> 1 <= |r.value.data| <= p.pageSize && r.value.meta.page == p.page
  {
    var listed := AppointmentsByFilters(Rows(st), f);
    ListedIffSomeRowMatches(Rows(st), f);
    PageItemsAreListed(listed, p);
    Paginate(listed, p)
  }

  /** The filtered list is empty exactly when no row matches. */
  lemma ListedIffSomeRowMatches(rows: seq<Appointment>, f: AppointmentFilter)
    ensures (forall a :: a in rows ==> !MatchesFilter(a, f)) <==> |AppointmentsByFilters(rows, f)| == 0
    ensures forall a :: a in AppointmentsByFilters(rows, f) ==> a in rows && MatchesFilter(a, f)
  {
    var listed := AppointmentsByFilters(rows, f);
    forall a | a in listed ensures a in rows && MatchesFilter(a, f) {
      assert a in multiset(listed);
    }
    if !(forall a :: a in rows ==> !MatchesFilter(a, f)) {
      var a :| a in rows && MatchesFilter(a, f);
      assert a in multiset(rows);
      assert a in multiset(listed);
    }
  }

  /** Every item of a served page is an item of the list it was cut from. */
  lemma PageItemsAreListed<T>(items: seq<T>, p: PageRequest)
    ensures Paginate(items, p).Ok? ==> forall i :: 0 <= i < |Paginate(items, p).value.data| ==> Paginate(items, p).value.data[i] in items
  {
    var r := Paginate(items, p);
    if r.Ok? {
      var skip := CalcSkip(p).value;
      forall i | 0 <= i < |r.value.data| ensures r.value.data[i] in items {
        assert r.value.data[i] == items[skip + i];
      }
    }
  }
}
