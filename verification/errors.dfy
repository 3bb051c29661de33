/** The errors the appointment core raises. Each guard of the source raises an
    `HTTPException` with its own message; the model keeps one constructor per
    guard so that contracts can say which guard fired, and `HttpStatus` gives
    the status code the source attaches to it. */
module Errors {

  datatype Error =
    // request body or query rejected by field validation (HTTP 422)
    | InvalidRequest
    // referenced entity absent (HTTP 404)
    | PatientNotFound
    | DoctorNotFoundOrInactive
    | AppointmentNotFound
    | NewDoctorNotFoundOrInactive
    | NewSlotNotFound
    | NoAppointmentsFound
    | DoctorNotFound
    | NoDoctorProfile
    | NoPatientProfile
    // caller does not own the resource (HTTP 403)
    | ConfirmForbidden
    | UpdateForbidden
    | CancelForbidden
    | DoctorAccessForbidden
    | PatientAccessForbidden
    // business rule or argument violated (HTTP 400)
    | DepartmentMismatch
    | SlotUnavailable
    | InvalidSlotForDoctor
    | NotPending
    | RejectionReasonRequired
    | InvalidAction
    | NotUpdatable
    | PastAppointment
    | NewSlotUnavailable
    | NewSlotWrongDoctor
    | AlreadyCancelled
    | NotCancellable
    | InvalidCancelledBy
    | RegularCancellationTooLate
    | EmergencyCancellationTooLate
    | PageExceedsTotal
    | PageTooSmall
    | PageSizeOutOfRange

  /** The HTTP status code the source raises with each error: 422 for a
      rejected request body only, otherwise one of 404, 403 and 400. */
  function HttpStatus(e: Error): (code: int)
    ensures code in {400, 403, 404, 422}
    ensures code == 422 <==> e == InvalidRequest
  {
    match e
    case InvalidRequest => 422
    case PatientNotFound | DoctorNotFoundOrInactive | AppointmentNotFound
      | NewDoctorNotFoundOrInactive | NewSlotNotFound | NoAppointmentsFound
      | DoctorNotFound | NoDoctorProfile | NoPatientProfile => 404
    case ConfirmForbidden | UpdateForbidden | CancelForbidden
      | DoctorAccessForbidden | PatientAccessForbidden => 403
    case _ => 400
  }
}
