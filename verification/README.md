# Appointment management — a Dafny model of the appointment lifecycle

This project models the core of a hospital appointment service. A patient
books a doctor's free time slot (create). The doctor confirms or rejects the
booking (confirm). The patient may move it to another doctor or slot, or
change its reason or urgency (update). The patient or the doctor may cancel it
while enough lead time remains (cancel). Around these four use cases the
model also covers:

- the repository queries that list free slots, pending bookings and filtered
  appointments;
- the pagination arithmetic of the list endpoint;
- the request validators and enumerations;
- the role and ownership checks of the user-authorisation service.

The database becomes an immutable `Store`: maps from id to Department,
Doctor, Slot, Patient and Appointment records, plus the next auto-increment
key. Every use case is a pure function over the store. It either returns an
`Error` naming the guard that failed, with no write, or returns the new store.
Each error constructor maps to the HTTP status the service raises (`Errors.HttpStatus`).
"Now" and "today" are integer parameters:

- a `Date` is a day number;
- a `TimeOfDay` is a second of the day;
- an `Instant` is `day * 86400 + second`.

Modules, one per file:

| file | module | models |
|---|---|---|
| results.dfy | Results | `Option`, `Result`, `Check` |
| errors.dfy | Errors | one error per guard, with its HTTP status |
| text.dfy | Text | ASCII lower-casing for the case-insensitive action |
| domain.dfy | Domain | the ORM records, defaults, status and canceller enums |
| dto.dfy | Dto | request DTOs and their field constraints |
| pagination.dfy | Pagination | `calc_skip`, total pages, page metadata |
| sorting.dfy | Sorting | filter and stable insertion sort with multiset specifications |
| repository.dfy | Repository | the store and the repository queries |
| lifecycle.dfy | Lifecycle | the status machine |
| service.dfy | Service | the four use cases, the lead-time rule, `get_appointments` |
| service_properties.dfy | ServiceProperties | the store invariant, traces of use cases, cross-operation properties |
| user_auth.dfy | UserAuth | role resolution and ownership checks |
| scenarios.dfy | Scenarios | worked book–confirm–cancel runs |

## Model

| member | source | states |
|---|---|---|
| Domain.ParseStatus | src/dto/appointment_dto.py:6-10 | a status string parses exactly when it is one of PENDING, CONFIRMED, REJECTED, CANCELLED, and parses to the status of that name |
| Domain.StatusNameRoundTrip | src/models/appointment.py:8-12 | every one of the four model statuses has a DTO name that parses back to it, so the model and DTO enums coincide |
| Domain.ParseCancelledBy | src/dto/appointment_dto.py:12-14 | a canceller string parses exactly when it is PATIENT or DOCTOR |
| Domain.CancelledByNameRoundTrip | src/models/appointment.py:118 | the stored canceller is one of the two names, and each name parses back to its role |
| Domain.NewDepartment | src/models/appointment.py:15-22 | a new department is active by default |
| Domain.NewDoctor | src/models/appointment.py:32-40 | a new doctor is active by default |
| Domain.NewSlot | src/models/appointment.py:52-62 | a new slot is not booked by default |
| Domain.NewAppointment | src/models/appointment.py:89-124 | a new appointment carries its ids, date, time and reason, is PENDING, and has no confirmation, rejection or cancellation data |
| Dto.ParseCreateRequest | src/dto/appointment_dto.py:78-85 | a create request is accepted exactly when all four ids are positive and the reason has 5 to 500 characters; the emergency flag defaults to false |
| Dto.ParseUpdateRequest | src/dto/appointment_dto.py:87-92 | every update field is optional; a supplied id must be positive and a supplied reason must have 5 to 500 characters |
| Dto.ParseCancelRequest | src/dto/appointment_dto.py:99-102 | a cancel request needs a PATIENT or DOCTOR canceller; the reason is optional and at most 500 characters |
| Errors.HttpStatus | src/services/appointment_service.py:73-365 | a rejected request body, and only it, is 422; every guard's error maps to the 404, 403 or 400 the source raises with it |
| Text.Lower | src/services/appointment_service.py:171 | lower-casing keeps the length and lowers each character independently |
| Text.LowerEqualsIffIgnoringCase | src/services/appointment_service.py:171-177 | a string lower-cases to a lower-case word exactly when it spells that word letter by letter in either case |
| Pagination.ParsePageRequest | src/dto/pagination_dto.py:9-11 | page defaults to 1 and must be at least 1; page size defaults to 10 and must lie in 1..100 |
| Pagination.CalcSkip | src/dto/pagination_dto.py:13-25 | page below 1 and page size outside 1..100 are the two 400 errors, in that order; otherwise the skip is (page − 1) · page_size, never negative and a multiple of page_size |
| Pagination.ValidRequestHasSkip | src/dto/pagination_dto.py:9-25 | every page request the DTO parser accepts yields a skip from `calc_skip`, so its 400 errors are never raised for a parsed request |
| Pagination.TotalPages | src/dto/pagination_dto.py:47 | zero items give zero pages; otherwise the page count is the least n with total ≤ n · page_size |
| Pagination.CreateMeta | src/dto/pagination_dto.py:39-58 | the metadata echoes page, page size and total; has_next holds exactly when page < total_pages, has_prev exactly when page > 1 |
| Pagination.SkipInsideIffPageWithinPages | src/services/appointment_service.py:394-399 | the 400 "page exceeds total" guard (skip ≥ total) fires exactly when page > total_pages |
| Pagination.HasNextIffItemsRemain | src/dto/pagination_dto.py:56-57 | has_next holds exactly when items remain after the page; has_prev exactly when items precede it |
| Sorting.Filter | src/repositories/appointment_repository.py:217-230 | the kept rows are exactly the rows satisfying the predicate, each as often as it occurs |
| Sorting.SortBy | src/repositories/appointment_repository.py:232 | the result is sorted by the key and is a permutation of the input |
| Repository.RowsBelow | src/repositories/appointment_repository.py:210-215 | the table scan lists exactly the stored appointments with keys below the bound |
| Repository.IsSlotAvailable | src/repositories/appointment_repository.py:100-109 | a slot is available when a row with that id exists, is not booked and is dated today or later (a predicate; its partners are ServiceProperties.ListedSlotIsBookable and BookableSlotIsListed) |
| Repository.HasConflict | src/repositories/appointment_repository.py:234-254 | a conflict exists exactly when some PENDING or CONFIRMED appointment, other than the excluded one, has that doctor, date and time |
| Repository.ConflictInStore | src/repositories/appointment_repository.py:242-254 | over the whole table, a conflict exists exactly when some stored appointment occupies the doctor's date and time |
| Repository.AvailableSlots | src/repositories/appointment_repository.py:65-85 | exactly the free, current slots of active doctors that meet every supplied filter (date bounds inclusive), ordered by (date, start time) |
| Repository.PendingByDoctor | src/repositories/appointment_repository.py:168-191 | exactly the doctor's PENDING appointments, oldest first |
| Repository.PatientAppointments | src/repositories/appointment_repository.py:143-166 | exactly the patient's appointments that meet the supplied status and date bounds, latest date first |
| Repository.PatientAppointmentsAreFiltered | src/repositories/appointment_repository.py:151-166 | for a patient id other than 0, the patient query returns the same list as the general filter query given that patient and the same status and date bounds |
| Repository.AppointmentsByFilters | src/repositories/appointment_repository.py:199-232 | exactly the appointments meeting every supplied filter (an id of 0 or none means no filter; date bounds inclusive), latest date first |
| Lifecycle.CanMoveTransitive | src/services/appointment_service.py:157-186 | the allowed status moves compose, so a run of use cases never makes a move a single use case could not |
| Lifecycle.FinalIsFinal | src/services/appointment_service.py:309-319 | REJECTED and CANCELLED admit no move, and no move leads back to PENDING |
| Service.ValidatePatientExists | src/services/appointment_service.py:446-453 | the check passes exactly when the patient exists; otherwise the error is patient-not-found |
| Service.CreateAppointment | src/services/appointment_service.py:73-126 | the five guards fail in source order with their errors; success holds exactly when all pass, and adds one PENDING appointment under the next key whose ids, reason and flag come from the request and whose date and time come from the slot |
| Service.ConfirmAppointment | src/services/appointment_service.py:145-198 | not found, not PENDING, not the doctor's own, reject without reason, and unknown action are the errors; "confirm" in any case sets CONFIRMED with the doctor and time; "reject" with a reason sets REJECTED with the reason and time; only that row changes |
| Service.UpdateAppointment | src/services/appointment_service.py:204-291 | not found, not the patient's own, not PENDING or CONFIRMED, and in the past are the errors; a new doctor must be active and brings its department; a new slot must be available and the resulting doctor's, and brings its date and time; reason and flag change only when supplied; status, patient and lifecycle data never change |
| Service.CancellationWindow | src/services/appointment_service.py:341-354 | cancelling is allowed exactly when the lead is at least 7200 s for a regular and 1800 s for an emergency appointment |
| Service.CancelAppointment | src/services/appointment_service.py:297-365 | not found, already cancelled, not PENDING or CONFIRMED, wrong owner, unknown role, and too late are the errors; success sets CANCELLED with the canceller, time and reason, and changes only that row |
| Service.Paginate | src/services/appointment_service.py:386-411 | an empty result is 404; a bad page request or a skip past the end is 400; otherwise the page holds the items at positions skip .. skip + page_size − 1 that exist, with metadata for the whole result |
| Service.GetAppointments | src/services/appointment_service.py:371-411 | 404 exactly when no stored appointment matches the filters; every item returned is a stored, matching appointment; items are latest date first; at most page_size items |
| Service.ListedIffSomeRowMatches | src/services/appointment_service.py:387-392 | the filtered list is empty exactly when no row matches, and it holds only matching rows |
| Service.PageItemsAreListed | src/services/appointment_service.py:401 | every item of a served page comes from the full list |
| ServiceProperties.CreatePreservesValid | src/services/appointment_service.py:110-123 | a successful create keeps the store invariant, uses a fresh key and keeps every existing row |
| ServiceProperties.ConfirmPreservesValid | src/services/appointment_service.py:170-196 | a successful confirm or reject keeps the store invariant |
| ServiceProperties.UpdatePreservesValid | src/services/appointment_service.py:236-289 | a successful update keeps the store invariant, including the department of the doctor |
| ServiceProperties.CancelPreservesValid | src/services/appointment_service.py:356-363 | a successful cancel keeps the store invariant |
| ServiceProperties.ApplyPreservesValid | src/services/appointment_service.py:73-365 | any single use case, succeeding or failing, keeps the store invariant |
| ServiceProperties.ApplyRespectsLifecycle | src/services/appointment_service.py:157-319 | one use case keeps every appointment, moves its status only along allowed moves, never touches REJECTED or CANCELLED rows, creates only PENDING rows, and leaves slots, doctors, departments and patients untouched |
| ServiceProperties.RunPreservesValid | src/services/appointment_service.py:73-365 | any sequence of use cases keeps the store invariant |
| ServiceProperties.RunRespectsLifecycle | src/services/appointment_service.py:157-319 | over any sequence of use cases, appointments are never lost, statuses only move along allowed moves, and final statuses never change |
| ServiceProperties.ActionIgnoresCase | src/services/appointment_service.py:171-177 | the action matches "confirm" or "reject" exactly when it spells the word in any letter case |
| ServiceProperties.RejectionNeedsReason | src/services/appointment_service.py:177-182 | rejecting a confirmable appointment without a non-empty reason is always refused with the missing-reason error |
| ServiceProperties.LeadTimeBoundaries | src/services/appointment_service.py:345-354 | exactly 2 h (regular) and 30 min (emergency) are allowed; one second less is refused |
| ServiceProperties.LeadTimeMonotone | src/services/appointment_service.py:345-354 | more lead never turns an allowed cancellation into a refused one, and whatever a regular appointment allows an emergency one allows too |
| ServiceProperties.ValidatedRoleIsKnown | src/dto/appointment_dto.py:101 | a cancel request that passed the DTO never reaches the invalid-role branch of the service |
| ServiceProperties.ValidatedUpdateActsOnSuppliedFields | src/services/appointment_service.py:240-282 | after DTO validation the truthiness tests of update reduce to presence: the doctor and slot change exactly when a different id is supplied, and the reason is replaced exactly when one is supplied |
| ServiceProperties.ValidatedBookingIsWellFormed | src/dto/appointment_dto.py:78-85 | a booking from a validated request stores positive ids and a 5..500-character reason, and with the flag left out it is regular, so the two-hour rule governs it |
| ServiceProperties.PatientCheckDecidesNotFound | src/services/appointment_service.py:76-77 | create answers patient-not-found exactly when the patient check fails |
| ServiceProperties.StoredPatientsPassCheck | src/services/appointment_service.py:446-453 | in a valid store the patient of every appointment passes the patient check |
| ServiceProperties.CreateErrorStatus | src/services/appointment_service.py:77-107 | create answers 404 exactly when the patient, or an active doctor, is missing, and 400 for every other refusal |
| ServiceProperties.CancelErrorStatus | src/services/appointment_service.py:300-338 | cancel answers 404 exactly when the appointment is missing, and 403 exactly when a known role names someone other than its own patient or doctor |
| ServiceProperties.ReasonOnlyUpdate | src/services/appointment_service.py:281-282 | an update with only a reason replaces the reason and changes nothing else |
| ServiceProperties.UpdateKeepsSlotOwnership | src/services/appointment_service.py:255-278 | an update keeps the slot with the appointment's doctor unless it changes the doctor and not the slot |
| ServiceProperties.DoctorOnlyUpdateLeavesForeignSlot | src/services/appointment_service.py:240-255 | a doctor-only update succeeds and leaves the appointment on a slot of the former doctor |
| ServiceProperties.RowsAreStoredAppointments | src/repositories/appointment_repository.py:210-215 | the table scan holds exactly the stored appointments |
| ServiceProperties.NotFoundIffNothingMatches | src/services/appointment_service.py:387-392 | the list endpoint's 404 fires exactly when no stored appointment matches the filters |
| ServiceProperties.EveryItemOnItsPage | src/services/appointment_service.py:394-401 | each matching item appears on page i / page_size + 1 at position i mod page_size, so paging misses nothing |
| ServiceProperties.PendingListIsConfirmable | src/repositories/appointment_repository.py:186 | in a valid store, the doctor's pending list holds exactly the appointments that doctor may confirm or reject |
| ServiceProperties.ListedSlotIsBookable | src/repositories/appointment_repository.py:74-83 | booking a listed slot with its doctor and department, for an existing patient, succeeds |
| ServiceProperties.BookableSlotIsListed | src/repositories/appointment_repository.py:100-109 | a free, current slot of an active doctor is listed when no filter is given |
| UserAuth.GetUserRoleAndProfile | src/services/user_auth_service.py:14-32 | the doctor lookup wins, so a user with both profiles is DOCTOR; only a patient profile makes PATIENT; neither makes USER; only the profile matching the role is returned |
| UserAuth.ValidateDoctorAccess | src/services/user_auth_service.py:48-62 | 404 when the doctor is missing; 403 unless the doctor's user is the caller; otherwise that doctor |
| UserAuth.ValidatePatientAccess | src/services/user_auth_service.py:78-92 | 404 when the patient is missing; 403 unless the patient's user is the caller; otherwise that patient |
| UserAuth.GetDoctorByUserId | src/services/user_auth_service.py:101-107 | fails with 404 exactly when no doctor profile is linked; otherwise returns it |
| UserAuth.GetPatientByUserId | src/services/user_auth_service.py:116-122 | fails with 404 exactly when no patient profile is linked; otherwise returns it |
| UserAuth.RoleAgreesWithGetters | src/services/user_auth_service.py:21-32 | the resolved role is DOCTOR, PATIENT or USER exactly as the two profile getters succeed or fail, with the same profile |
| UserAuth.DoctorAccessIffOwnProfile | src/services/user_auth_service.py:48-62 | in a directory whose links agree, a user passes the doctor access check exactly for the doctor profile linked to that user, and gets that profile |
| UserAuth.PatientAccessIffOwnProfile | src/services/user_auth_service.py:78-92 | in a directory whose links agree, a user passes the patient access check exactly for the patient profile linked to that user, and gets that profile |
| Scenarios.BookThenConfirm | src/services/appointment_service.py:109-174 | booking a free slot stores a PENDING appointment at the slot's day and time, and its doctor can confirm it with "Confirm" |
| Scenarios.PatientCancelsThreeHoursAhead | src/services/appointment_service.py:322-360 | with three hours left, the patient cancels a confirmed appointment; it is CANCELLED by the patient and keeps its confirming doctor |
| Scenarios.OneHourAheadOnlyEmergencyCancels | src/services/appointment_service.py:345-354 | with one hour left, a regular appointment cannot be cancelled but an emergency one can |

## Left out

- Notification publishing (src/services/event_publisher.py) is message-broker I/O, and none of the modelled use cases calls it.
- Slot booking and release are done by a database trigger that is not part of the code. The model never changes `is_booked`; it is only an input to availability. No property about the slot being booked after a create is claimed.
- The race between the availability check and the insert of a create is a concurrency issue; the model is sequential.
- Clocks: `datetime.now()` and `date.today()` are parameters. The float hours of the lead-time rule become whole seconds, and `ceil` becomes integer ceiling division. Sub-second precision is dropped; the 2 h and 30 min thresholds are the same.
- `updated_at` and the server-side `created_at` default are not modelled. The creation time is the `now` parameter.
- Response DTO assembly (`_build_appointment_response`, `model_validate`), SQLAlchemy sessions and commits, controllers, routing and configuration are plumbing.
- The service wrappers `get_available_slots`, `get_pending_appointments_by_doctor`, `get_appointment_detail` and `get_patient_appointments` call the repository queries modelled here, or a lookup by id, and convert the results to DTOs. Their extra steps are not modelled: the doctor-exists guard, the status-string parse, and `from_date` defaulting to today.
- `get_departments` and `get_doctors_by_department` call `DepartmentRepository.get_all_active` and `DoctorRepository.get_by_department`. These two listing queries are not modelled: they filter the department and doctor tables on `is_active` and take no part in the appointment lifecycle.
- Service.GetAppointments: models the query the service evidently intends, without an `is_emergency` filter. As written, line 380 of src/services/appointment_service.py passes `is_emergency=` to `get_appointments_by_filters`. That function has no such parameter (src/repositories/appointment_repository.py:199-208), so every call raises TypeError before the 404, 400 and slicing logic that this member and Service.Paginate describe.
- Service.CreateAppointment: models the booking the service evidently intends. As written, the `Appointment` ORM class (src/models/appointment.py:89-124) maps no `is_emergency` column. SQLAlchemy's default constructor rejects a keyword it does not map, so `Appointment(..., is_emergency=...)` (src/services/appointment_service.py:110-120) raises TypeError once every guard has passed, and no booking is stored. The model does not reproduce that failure.
- Service.CancelAppointment: applies the lead-time rule as intended. As written, reading `appointment.is_emergency` (src/services/appointment_service.py:345) raises AttributeError for every appointment that passes the status and role guards, so neither the rule nor the write is ever reached.
- Service.UpdateAppointment: models the intended update and returns the new row with its emergency flag. As written, the assignment at src/services/appointment_service.py:286 sets a Python attribute with no mapped column, so the flag is never persisted. Worse, the repository commits the changed row first (src/repositories/appointment_repository.py:195), and only then does `_build_appointment_response` (called at src/services/appointment_service.py:291) read `appointment.is_emergency` (line 472). That attribute exists only when line 286 assigned it. So every update whose request leaves `is_emergency` out raises AttributeError, which is an HTTP 500, although the doctor, slot, time and reason changes are already stored. An update that does supply the flag returns it in the response but does not store it. The model does not reproduce either outcome.
- Domain.NewAppointment: carries an `isEmergency` field that the ORM class does not map; the model follows the service, which uses the flag throughout.
- Scenarios.BookThenConfirm, Scenarios.PatientCancelsThreeHoursAhead and Scenarios.OneHourAheadOnlyEmergencyCancels: run the intended behaviour. As written, the booking and cancellation steps fail as described for Service.CreateAppointment and Service.CancelAppointment.
- The order of rows that tie on the SQL `ORDER BY` key is unspecified in the database. The model keeps ties in table-scan order (a stable sort); no property depends on it.
- Text.Lower: lowers only ASCII letters, where Python's `str.lower` is full Unicode. Two non-ASCII characters lower to something holding an ASCII letter. The Kelvin sign lowers to 'k', which neither "confirm" nor "reject" contains. U+0130 (capital I with dot above) lowers to 'i' followed by the combining dot U+0307, which stays in the result, so the result cannot equal either word. The comparisons the service makes therefore come out the same.
- Department, doctor, patient and slot tables are never written by the modelled use cases, so no operation on them is modelled.

## Notes

- The appointment ORM model has no `is_emergency` column, yet the service passes it to the constructor, assigns it and reads it. As written, create and cancel therefore fail once their guards pass. Update never stores the flag. When the request leaves the flag out, update commits its other changes and then fails with AttributeError while building the response (see the Service lines under "Left out"). The model follows the evident intent and gives every appointment the flag.
- The pending-list query does not select `is_emergency`, which its response DTO requires. The model only states which rows the query returns.
- `user_id` on doctors and patients, and the `get_by_user_id` lookups the authorisation service calls, are not in the models or the repository. UserAuth takes them as given partial maps.
- Create never runs the doctor/date/time conflict check; the repository defines it (`Repository.HasConflict`) but no use case calls it. The model does the same.
- Update may change the doctor without changing the slot. The appointment then keeps a slot that belongs to its former doctor (`ServiceProperties.DoctorOnlyUpdateLeavesForeignSlot`). The guard chain allows this as written, and the model keeps it.
