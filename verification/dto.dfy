/** The request bodies of the four appointment use cases and the field
    constraints their DTOs declare (src/dto/appointment_dto.py). Each `Parse…`
    function plays the part of pydantic validation: it either builds the
    request or rejects the body with `InvalidRequest` (HTTP 422). */
module Dto {
  import opened Results
  import opened Errors
  import opened Domain

  const ReasonMinLength: int := 5
  const ReasonMaxLength: int := 500
  const CancellationReasonMaxLength: int := 500

  datatype CreateRequest = CreateRequest(
    patientId: int,
    doctorId: int,
    departmentId: int,
    slotId: int,
    reason: string,
    isEmergency: bool)

  /** Every field is optional: an absent field is left as it is. */
  datatype UpdateRequest = UpdateRequest(
    doctorId: Option<int>,
    slotId: Option<int>,
    reason: Option<string>,
    isEmergency: Option<bool>)

  /** `rejectionReason` is optional here; the rule that a rejection needs a
      reason is enforced by the service, not by the DTO. */
  datatype ConfirmRequest = ConfirmRequest(action: string, rejectionReason: Option<string>)

  /** `cancelledBy` is the value the service compares with "PATIENT" and
      "DOCTOR"; after DTO validation it is always one of the two. */
  datatype CancelRequest = CancelRequest(cancelledBy: string, cancellationReason: Option<string>)

  predicate ValidReason(reason: string)
  {
    ReasonMinLength <= |reason| <= ReasonMaxLength
  }

  /** `AppointmentCreateDTO`: four positive ids, a reason of 5 to 500
      characters, and an emergency flag that defaults to false. */
  function ParseCreateRequest(patientId: int, doctorId: int, departmentId: int, slotId: int,
                              reason: string, isEmergency: Option<bool>): (r: Result<CreateRequest, Error>)
    ensures r.Ok? <==> patientId > 0 && doctorId > 0 && departmentId > 0 && slotId > 0 && 5 <= |reason| <= 500
    ensures r.Err? ==> r.error == InvalidRequest
    ensures r.Ok? ==> r.value.patientId == patientId && r.value.doctorId == doctorId
    ensures r.Ok? ==> r.value.departmentId == departmentId && r.value.slotId == slotId
    ensures r.Ok? ==> r.value.reason == reason
    ensures r.Ok? ==> (r.value.isEmergency <==> isEmergency == Some(true))
  {
    if patientId > 0 && doctorId > 0 && departmentId > 0 && slotId > 0 && ValidReason(reason) then
      Ok(CreateRequest(patientId, doctorId, departmentId, slotId, reason,
                       if isEmergency.Some? then isEmergency.value else false))
    else
      Err(InvalidRequest)
  }

  predicate ValidUpdateRequest(u: UpdateRequest)
  {
    && (u.doctorId.Some? ==> u.doctorId.value > 0)
    && (u.slotId.Some? ==> u.slotId.value > 0)
    && (u.reason.Some? ==> ValidReason(u.reason.value))
  }

  /** `AppointmentUpdateDTO`: each field may be absent; a present id is
      positive and a present reason has 5 to 500 characters. */
  function ParseUpdateRequest(doctorId: Option<int>, slotId: Option<int>, reason: Option<string>,
                              isEmergency: Option<bool>): (r: Result<UpdateRequest, Error>)
    ensures r.Ok? <==>
      && (doctorId.Some? ==> doctorId.value > 0)
      && (slotId.Some? ==> slotId.value > 0)
      && (reason.Some? ==> 5 <= |reason.value| <= 500)
    ensures r.Err? ==> r.error == InvalidRequest
    ensures r.Ok? ==> r.value == UpdateRequest(doctorId, slotId, reason, isEmergency)
  {
    var u := UpdateRequest(doctorId, slotId, reason, isEmergency);
    if ValidUpdateRequest(u) then Ok(u) else Err(InvalidRequest)
  }

  /** `AppointmentCancelDTO`: `cancelled_by` must be a `CancelledByEnum`
      value, and an optional reason has at most 500 characters. */
  function ParseCancelRequest(cancelledBy: string, reason: Option<string>): (r: Result<CancelRequest, Error>)
    ensures r.Ok? <==> cancelledBy in {"PATIENT", "DOCTOR"} && (reason.Some? ==> |reason.value| <= 500)
    ensures r.Err? ==> r.error == InvalidRequest
    ensures r.Ok? ==> r.value == CancelRequest(cancelledBy, reason)
  {
    if ParseCancelledBy(cancelledBy).Some?
       && (reason.Some? ==> |reason.value| <= CancellationReasonMaxLength) then
      Ok(CancelRequest(cancelledBy, reason))
    else
      Err(InvalidRequest)
  }
}
