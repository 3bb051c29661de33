/** Worked end-to-end scenarios over a one-doctor clinic: the booking,
    confirmation and cancellation flow the service is built around, and the
    lead-time rule refusing a late regular cancellation while still allowing
    an emergency one. */
module Scenarios {
  import opened Results
  import opened Errors
  import opened Domain
  import opened Dto
  import opened Repository
  import opened Service

  const Day: Date := 100
  const NineAm: TimeOfDay := 9 * 3600

  /** Cardiology with one active doctor (1), one free 30-minute slot (10) on
      `Day` at 09:00, one patient (7), and no appointments yet. */
  function Clinic(): Store
  {
    Store(
      map[1 := NewDepartment(1, "Cardiology", 0)],
      map[1 := NewDoctor(1, "A", 1, 0)],
      map[10 := NewSlot(10, 1, Day, NineAm, NineAm + 1800, 0)],
      map[7 := Patient(7, "P", None, None, 0)],
      map[],
      1)
  }

  function Booking(isEmergency: bool): CreateRequest
  {
    CreateRequest(7, 1, 1, 10, "check-up", isEmergency)
  }

  /** The clinic after patient 7 booked slot 10 the day before. */
  function AfterBooking(isEmergency: bool): Store
  {
    match CreateAppointment(Clinic(), Booking(isEmergency), Day - 1, AtTime(Day - 1, 0))
    case Ok(w) => w.store
    case Err(_) => Clinic()
  }

  /** Booked, then confirmed by doctor 1 the day before ("Confirm" in mixed case). */
  function AfterConfirm(isEmergency: bool): Store
  {
    match ConfirmAppointment(AfterBooking(isEmergency), 1, ConfirmRequest("Confirm", None), 1, AtTime(Day - 1, 60))
    case Ok(s) => s
    case Err(_) => AfterBooking(isEmergency)
  }

  /** Booking succeeds under key 1 as a PENDING appointment on the slot's day
      and time; confirming it succeeds and records doctor 1. */
  lemma BookThenConfirm(isEmergency: bool)
    ensures CreateAppointment(Clinic(), Booking(isEmergency), Day - 1, AtTime(Day - 1, 0)).Ok?
    ensures 1 in AfterBooking(isEmergency).appointments
    ensures var a := AfterBooking(isEmergency).appointments[1];
            a.status == Pending && a.date == Day && a.time == NineAm && a.isEmergency == isEmergency
    ensures ConfirmAppointment(AfterBooking(isEmergency), 1, ConfirmRequest("Confirm", None), 1, AtTime(Day - 1, 60)).Ok?
    ensures 1 in AfterConfirm(isEmergency).appointments
    ensures var a := AfterConfirm(isEmergency).appointments[1];
            a.status == Confirmed && a.confirmedBy == Some(1)
  {
    var st := Clinic();
    var req := Booking(isEmergency);
    assert Service.CanCreate(st, req, Day - 1);
    assert Text.Lower("Confirm") == "confirm";
  }

  /** Three hours ahead, the patient may cancel the confirmed appointment: it
      becomes CANCELLED by the patient and keeps the confirming doctor. */
  lemma PatientCancelsThreeHoursAhead()
    ensures 1 in AfterConfirm(false).appointments
    ensures var r := CancelAppointment(AfterConfirm(false), 1, CancelRequest("PATIENT", Some("travel")), 7,
                                       AtTime(Day, NineAm) - 3 * 3600);
            && r.Ok?
            && 1 in r.value.appointments
            && r.value.appointments[1].status == Cancelled
            && r.value.appointments[1].cancelledBy == Some(ByPatient)
            && r.value.appointments[1].confirmedBy == Some(1)
  {
    BookThenConfirm(false);
  }

  /** One hour ahead, a regular appointment can no longer be cancelled, but an
      emergency one still can. */
  lemma OneHourAheadOnlyEmergencyCancels()
    ensures CancelAppointment(AfterConfirm(false), 1, CancelRequest("PATIENT", None), 7, AtTime(Day, NineAm) - 3600)
              == Err(RegularCancellationTooLate)
    ensures CancelAppointment(AfterConfirm(true), 1, CancelRequest("PATIENT", None), 7, AtTime(Day, NineAm) - 3600).Ok?
  {
    BookThenConfirm(false);
    BookThenConfirm(true);
  }
}
