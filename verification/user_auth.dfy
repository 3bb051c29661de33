/** Role resolution and ownership checks of src/services/user_auth_service.py.

    The source looks profiles up with `get_by_user_id` on the doctor and
    patient repositories and reads `user_id` off doctor and patient rows.
    Neither the lookup nor the column exists in the repository and models the
    service is built on, so the model takes both as given partial maps: a
    user id maps to the profile the lookup would return, and a doctor or
    patient id maps to the user id on that row (an absent entry is a missing
    `user_id`, which equals no user). */
module UserAuth {
  import opened Results
  import opened Errors
  import opened Domain

  datatype Directory = Directory(
    doctors: map<int, Doctor>,
    patients: map<int, Patient>,
    doctorByUser: map<int, Doctor>,
    patientByUser: map<int, Patient>,
    doctorUser: map<int, int>,
    patientUser: map<int, int>)

  /** The role strings "DOCTOR", "PATIENT" and "USER". */
  datatype Role = DoctorRole | PatientRole | UserRole

  /** The `(role, doctor_profile, patient_profile)` triple. */
  datatype Profile = Profile(role: Role, doctor: Option<Doctor>, patient: Option<Patient>)

  /** `get_user_role_and_profile`: the doctor lookup is tried first, so a user
      with both profiles is a DOCTOR; a user with only a patient profile is a
      PATIENT; a user with neither is a plain USER. Exactly the profile that
      matches the role is returned. */
  function GetUserRoleAndProfile(dir: Directory, userId: int): (r: Profile)
    ensures r.role == DoctorRole <==> userId in dir.doctorByUser
    ensures r.role == PatientRole <==> userId !in dir.doctorByUser && userId in dir.patientByUser
    ensures r.doctor.Some? <==> r.role == DoctorRole
    ensures r.patient.Some? <==> r.role == PatientRole
    ensures r.doctor.Some? ==> r.doctor.value == dir.doctorByUser[userId]
    ensures r.patient.Some? ==> r.patient.value == dir.patientByUser[userId]
  {
    if userId in dir.doctorByUser then Profile(DoctorRole, Some(dir.doctorByUser[userId]), None)
    else if userId in dir.patientByUser then Profile(PatientRole, None, Some(dir.patientByUser[userId]))
    else Profile(UserRole, None, None)
  }

  /** `validate_doctor_access`: 404 when the doctor does not exist, 403 when
      the doctor's row is not linked to this user, otherwise that doctor. */
  function ValidateDoctorAccess(dir: Directory, userId: int, doctorId: int): (r: Result<Doctor, Error>)
    ensures doctorId !in dir.doctors ==> r == Err(DoctorNotFound)
    ensures doctorId in dir.doctors && (doctorId !in dir.doctorUser || dir.doctorUser[doctorId] != userId) ==>
              r == Err(DoctorAccessForbidden)
    ensures r.Ok? <==> doctorId in dir.doctors && doctorId in dir.doctorUser && dir.doctorUser[doctorId] == userId
    ensures r.Ok? ==> r.value == dir.doctors[doctorId]
  {
    if doctorId !in dir.doctors then Err(DoctorNotFound)
    else if doctorId !in dir.doctorUser || dir.doctorUser[doctorId] != userId then Err(DoctorAccessForbidden)
    else Ok(dir.doctors[doctorId])
  }

  /** `validate_patient_access`: the same structure for patients. */
  function ValidatePatientAccess(dir: Directory, userId: int, patientId: int): (r: Result<Patient, Error>)
    ensures patientId !in dir.patients ==> r == Err(PatientNotFound)
    ensures patientId in dir.patients && (patientId !in dir.patientUser || dir.patientUser[patientId] != userId) ==>
              r == Err(PatientAccessForbidden)
    ensures r.Ok? <==> patientId in dir.patients && patientId in dir.patientUser && dir.patientUser[patientId] == userId
    ensures r.Ok? ==> r.value == dir.patients[patientId]
  {
    if patientId !in dir.patients then Err(PatientNotFound)
    else if patientId !in dir.patientUser || dir.patientUser[patientId] != userId then Err(PatientAccessForbidden)
    else Ok(dir.patients[patientId])
  }

  /** `get_doctor_by_user_id`: the linked doctor profile, or 404 when none. */
  function GetDoctorByUserId(dir: Directory, userId: int): (r: Result<Doctor, Error>)
    ensures r.Ok? <==> userId in dir.doctorByUser
    ensures r.Ok? ==> r.value == dir.doctorByUser[userId]
    ensures r.Err? ==> r.error == NoDoctorProfile
  {
    if userId in dir.doctorByUser then Ok(dir.doctorByUser[userId]) else Err(NoDoctorProfile)
  }

  /** `get_patient_by_user_id`: the linked patient profile, or 404 when none. */
  function GetPatientByUserId(dir: Directory, userId: int): (r: Result<Patient, Error>)
    ensures r.Ok? <==> userId in dir.patientByUser
    ensures r.Ok? ==> r.value == dir.patientByUser[userId]
    ensures r.Err? ==> r.error == NoPatientProfile
  {
    if userId in dir.patientByUser then Ok(dir.patientByUser[userId]) else Err(NoPatientProfile)
  }

  /** The role agrees with the two profile getters: DOCTOR exactly when the
      doctor getter succeeds, PATIENT exactly when only the patient getter
      succeeds, USER exactly when both fail; the profile returned with the
      role is the one the getter returns. */
  lemma RoleAgreesWithGetters(dir: Directory, userId: int)
    ensures var p := GetUserRoleAndProfile(dir, userId);
            && (p.role == DoctorRole <==> GetDoctorByUserId(dir, userId).Ok?)
            && (p.role == PatientRole <==> GetDoctorByUserId(dir, userId).Err? && GetPatientByUserId(dir, userId).Ok?)
            && (p.role == UserRole <==> GetDoctorByUserId(dir, userId).Err? && GetPatientByUserId(dir, userId).Err?)
            && (p.role == DoctorRole ==> p.doctor == Some(GetDoctorByUserId(dir, userId).value))
            && (p.role == PatientRole ==> p.patient == Some(GetPatientByUserId(dir, userId).value))
  {
  }

  /** The directory is one consistent set of links: rows sit under their own
      ids, and the row of doctor `d` names user `u` exactly when the lookup by
      `u` returns doctor `d`; likewise for patients. */
  predicate Linked(dir: Directory)
  {
    && (forall d :: d in dir.doctors ==> dir.doctors[d].id == d)
    && (forall p :: p in dir.patients ==> dir.patients[p].id == p)
    && (forall u :: u in dir.doctorByUser ==>
          && dir.doctorByUser[u].id in dir.doctors
          && dir.doctors[dir.doctorByUser[u].id] == dir.doctorByUser[u]
          && dir.doctorByUser[u].id in dir.doctorUser
          && dir.doctorUser[dir.doctorByUser[u].id] == u)
    && (forall d :: d in dir.doctors && d in dir.doctorUser ==>
          dir.doctorUser[d] in dir.doctorByUser && dir.doctorByUser[dir.doctorUser[d]] == dir.doctors[d])
    && (forall u :: u in dir.patientByUser ==>
          && dir.patientByUser[u].id in dir.patients
          && dir.patients[dir.patientByUser[u].id] == dir.patientByUser[u]
          && dir.patientByUser[u].id in dir.patientUser
          && dir.patientUser[dir.patientByUser[u].id] == u)
    && (forall p :: p in dir.patients && p in dir.patientUser ==>
          dir.patientUser[p] in dir.patientByUser && dir.patientByUser[dir.patientUser[p]] == dir.patients[p])
  }

  /** In a linked directory, a user may access doctor `d` exactly when `d` is
      the user's own doctor profile, and the access check returns that profile. */
  lemma DoctorAccessIffOwnProfile(dir: Directory, userId: int, doctorId: int)
    requires Linked(dir)
    ensures ValidateDoctorAccess(dir, userId, doctorId).Ok? <==>
              GetDoctorByUserId(dir, userId).Ok? && GetDoctorByUserId(dir, userId).value.id == doctorId
    ensures ValidateDoctorAccess(dir, userId, doctorId).Ok? ==>
              ValidateDoctorAccess(dir, userId, doctorId).value == GetDoctorByUserId(dir, userId).value
  {
  }

  /** In a linked directory, a user may access patient `p` exactly when `p` is
      the user's own patient profile, and the access check returns that profile. */
  lemma PatientAccessIffOwnProfile(dir: Directory, userId: int, patientId: int)
    requires Linked(dir)
    ensures ValidatePatientAccess(dir, userId, patientId).Ok? <==>
              GetPatientByUserId(dir, userId).Ok? && GetPatientByUserId(dir, userId).value.id == patientId
    ensures ValidatePatientAccess(dir, userId, patientId).Ok? ==>
              ValidatePatientAccess(dir, userId, patientId).value == GetPatientByUserId(dir, userId).value
  {
  }
}
