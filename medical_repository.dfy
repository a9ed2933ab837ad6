/** `medicalRepository`: the doctor, patient, appointment, consultation and
    prescription queries and writes. Reads are functions of the tables;
    each write is a function giving the new tables and the outcome, and a
    method that performs it on the shared `Database`. `up` says whether the
    database serves the statement; when it does not, nothing changes. */
module MedicalRepository {
  import opened Wrappers
  import opened Seqs
  import opened Ordering
  import opened Models
  import opened Tables
  import opened Store

  function AppointmentDate(a: Appointment): int { a.appointmentDate }
  function PrescriptionCreated(p: Prescription): int { p.createdAt }

  // ---- reads ---------------------------------------------------------------

  /** `GetAllDoctors` (no ORDER BY: the model keeps table order). */
  function GetAllDoctors(s: DbState): seq<Doctor>
  {
    s.doctors.rows
  }

  function GetDoctorByID(s: DbState, id: Id): (r: Result<Doctor, DbError>)
    ensures r.Ok? ==> r.value in s.doctors.rows && r.value.id == id
    ensures r.Err? <==> forall d :: d in s.doctors.rows ==> d.id != id
    ensures r.Err? ==> r.error == RecordNotFound
  {
    First(s.doctors.rows, (d: Doctor) => d.id == id, DoctorId)
  }

  /** The user behind patient profile `p` has role `patient`. */
  predicate PatientUser(s: DbState, p: Patient)
  {
    exists u :: u in s.users.rows && u.id == p.id && u.role == RolePatient
  }

  /** `GetAllPatients`: the join with `users` keeps the profiles whose user
      has role `patient`. */
  function GetAllPatients(s: DbState): (r: seq<Patient>)
    ensures forall p :: p in r <==> p in s.patients.rows && PatientUser(s, p)
    ensures IsSubsequence(r, s.patients.rows)
  {
    var r := Filter(s.patients.rows, (p: Patient) => PatientUser(s, p));
    FilterIsSubsequence(s.patients.rows, (p: Patient) => PatientUser(s, p));
    r
  }

  function GetPatientByID(s: DbState, id: Id): (r: Result<Patient, DbError>)
    ensures r.Ok? ==> r.value in s.patients.rows && r.value.id == id
    ensures r.Err? <==> forall p :: p in s.patients.rows ==> p.id != id
    ensures r.Err? ==> r.error == RecordNotFound
  {
    First(s.patients.rows, (p: Patient) => p.id == id, PatientId)
  }

  /** `GetAppointmentsByPatient`: the patient's live appointments, latest first. */
  function GetAppointmentsByPatient(s: DbState, patientId: Id): (r: seq<Appointment>)
    ensures forall a :: a in r <==> a in s.appointments.rows && !a.deleted && a.patientId == patientId
    ensures SortedDesc(r, AppointmentDate)
    ensures multiset(r) <= multiset(s.appointments.rows)
  {
    var f := Filter(s.appointments.rows, (a: Appointment) => !a.deleted && a.patientId == patientId);
    SortDescMembers(f, AppointmentDate);
    SortDesc(f, AppointmentDate)
  }

  /** `GetAppointmentsByDoctor`: the doctor's live appointments, latest first. */
  function GetAppointmentsByDoctor(s: DbState, doctorId: Id): (r: seq<Appointment>)
    ensures forall a :: a in r <==> a in s.appointments.rows && !a.deleted && a.doctorId == doctorId
    ensures SortedDesc(r, AppointmentDate)
    ensures multiset(r) <= multiset(s.appointments.rows)
  {
    var f := Filter(s.appointments.rows, (a: Appointment) => !a.deleted && a.doctorId == doctorId);
    SortDescMembers(f, AppointmentDate);
    SortDesc(f, AppointmentDate)
  }

  /** `GetAllAppointments`: every live appointment, latest first. */
  function GetAllAppointments(s: DbState): (r: seq<Appointment>)
    ensures forall a :: a in r <==> a in s.appointments.rows && !a.deleted
    ensures SortedDesc(r, AppointmentDate)
    ensures multiset(r) <= multiset(s.appointments.rows)
  {
    var f := Filter(s.appointments.rows, (a: Appointment) => !a.deleted);
    SortDescMembers(f, AppointmentDate);
    SortDesc(f, AppointmentDate)
  }

  /** `GetAppointmentByID`: `First` skips soft-deleted rows. */
  function GetAppointmentByID(s: DbState, id: Id): (r: Result<Appointment, DbError>)
    ensures r.Ok? ==> r.value in s.appointments.rows && r.value.id == id && !r.value.deleted
    ensures r.Err? <==> forall a :: a in s.appointments.rows ==> a.id != id || a.deleted
    ensures r.Err? ==> r.error == RecordNotFound
  {
    First(s.appointments.rows, (a: Appointment) => a.id == id && !a.deleted, AppointmentId)
  }

  /** `GetConsultationByAppointment`: the lowest-keyed consultation of the appointment. */
  function GetConsultationByAppointment(s: DbState, apptId: Id): (r: Result<Consultation, DbError>)
    ensures r.Ok? ==> r.value in s.consultations.rows && r.value.appointmentId == apptId
    ensures r.Ok? ==> forall c :: c in s.consultations.rows && c.appointmentId == apptId ==> r.value.id <= c.id
    ensures r.Err? <==> forall c :: c in s.consultations.rows ==> c.appointmentId != apptId
    ensures r.Err? ==> r.error == RecordNotFound
  {
    First(s.consultations.rows, (c: Consultation) => c.appointmentId == apptId, ConsultationId)
  }

  /** `GetPrescriptionsByConsultation` (table order). */
  function GetPrescriptionsByConsultation(s: DbState, consId: Id): (r: seq<Prescription>)
    ensures forall p :: p in r <==> p in s.prescriptions.rows && p.consultationId == consId
    ensures IsSubsequence(r, s.prescriptions.rows)
  {
    FilterIsSubsequence(s.prescriptions.rows, (p: Prescription) => p.consultationId == consId);
    Filter(s.prescriptions.rows, (p: Prescription) => p.consultationId == consId)
  }

  /** The inner joins of `GetPrescriptionsByPatient`: `p` belongs to a
      consultation of an appointment of the patient. The joined appointment
      is not filtered on `deleted_at`. */
  predicate OfPatient(s: DbState, patientId: Id, p: Prescription)
  {
    exists c, a :: c in s.consultations.rows && a in s.appointments.rows
      && c.id == p.consultationId && a.id == c.appointmentId && a.patientId == patientId
  }

  /** `GetPrescriptionsByPatient`: the patient's prescriptions, newest first. */
  function GetPrescriptionsByPatient(s: DbState, patientId: Id): (r: seq<Prescription>)
    ensures forall p :: p in r <==> p in s.prescriptions.rows && OfPatient(s, patientId, p)
    ensures SortedDesc(r, PrescriptionCreated)
    ensures multiset(r) <= multiset(s.prescriptions.rows)
  {
    var f := Filter(s.prescriptions.rows, (p: Prescription) => OfPatient(s, patientId, p));
    SortDescMembers(f, PrescriptionCreated);
    SortDesc(f, PrescriptionCreated)
  }

  // ---- writes as functions of the tables -----------------------------------

  function CreateDoctorEffect(s: DbState, d: Doctor, up: bool): (r: (DbState, Result<Doctor, DbError>))
    ensures !up ==> r == (s, Err(Unavailable))
    ensures up ==> r.0 == s.(doctors := Insert(s.doctors, d, DoctorId, DoctorWithId, Unindexed).0)
    ensures up ==> r.1 == Insert(s.doctors, d, DoctorId, DoctorWithId, Unindexed).1
    ensures Valid(s) ==> Valid(r.0)
  {
    if !up then (s, Err(Unavailable))
    else
      InsertKeepsKeys(s.doctors, d, DoctorId, DoctorWithId, Unindexed);
      var p := Insert(s.doctors, d, DoctorId, DoctorWithId, Unindexed);
      (s.(doctors := p.0), p.1)
  }

  /** `UpdateDoctor`: `Updates` on `department_id` and `specialization` of
      the rows with the doctor's key; a zero key has no WHERE clause. */
  function UpdateDoctorEffect(s: DbState, d: Doctor, up: bool): (r: (DbState, Result<(), DbError>))
    ensures !up ==> r == (s, Err(Unavailable))
    ensures up && d.id == 0 ==> r == (s, Err(MissingWhereClause))
    ensures up && d.id != 0 ==> r.1 == Ok(()) && r.0 == s.(doctors := r.0.doctors)
    ensures r.0.doctors.next == s.doctors.next && |r.0.doctors.rows| == |s.doctors.rows|
    ensures forall i :: 0 <= i < |s.doctors.rows| ==>
      var old_, new_ := s.doctors.rows[i], r.0.doctors.rows[i];
      new_.id == old_.id
      && (if up && d.id != 0 && old_.id == d.id
          then new_.departmentId == d.departmentId && new_.specialization == d.specialization
          else new_ == old_)
    ensures Valid(s) ==> Valid(r.0)
  {
    if !up then (s, Err(Unavailable))
    else if d.id == 0 then (s, Err(MissingWhereClause))
    else
      var rows := seq(|s.doctors.rows|, i requires 0 <= i < |s.doctors.rows| =>
        var x := s.doctors.rows[i];
        if x.id == d.id then x.(departmentId := d.departmentId, specialization := d.specialization) else x);
      assert forall i :: 0 <= i < |rows| ==> rows[i].id == s.doctors.rows[i].id;
      (s.(doctors := Table(rows, s.doctors.next)), Ok(()))
  }

  function UpdatePatientEffect(s: DbState, p: Patient, up: bool): (r: (DbState, Result<Patient, DbError>))
    ensures !up ==> r == (s, Err(Unavailable))
    ensures up ==> r.0 == s.(patients := Save(s.patients, p, PatientId, PatientWithId, Unindexed).0)
    ensures up ==> r.1 == Save(s.patients, p, PatientId, PatientWithId, Unindexed).1
    ensures Valid(s) ==> Valid(r.0)
  {
    if !up then (s, Err(Unavailable))
    else
      SaveKeepsKeys(s.patients, p, PatientId, PatientWithId, Unindexed);
      var q := Save(s.patients, p, PatientId, PatientWithId, Unindexed);
      (s.(patients := q.0), q.1)
  }

  function CreateAppointmentEffect(s: DbState, a: Appointment, up: bool): (r: (DbState, Result<Appointment, DbError>))
    ensures !up ==> r == (s, Err(Unavailable))
    ensures up ==> r.0 == s.(appointments := Insert(s.appointments, a, AppointmentId, AppointmentWithId, Unindexed).0)
    ensures up ==> r.1 == Insert(s.appointments, a, AppointmentId, AppointmentWithId, Unindexed).1
    ensures Valid(s) ==> Valid(r.0)
    ensures Ahead(s) && a.id == 0 ==> Ahead(r.0)
  {
    if !up then (s, Err(Unavailable))
    else
      InsertKeepsKeys(s.appointments, a, AppointmentId, AppointmentWithId, Unindexed);
      var p := Insert(s.appointments, a, AppointmentId, AppointmentWithId, Unindexed);
      (s.(appointments := p.0), p.1)
  }

  function UpdateAppointmentEffect(s: DbState, a: Appointment, up: bool): (r: (DbState, Result<Appointment, DbError>))
    ensures !up ==> r == (s, Err(Unavailable))
    ensures up ==> r.0 == s.(appointments := Save(s.appointments, a, AppointmentId, AppointmentWithId, Unindexed).0)
    ensures up ==> r.1 == Save(s.appointments, a, AppointmentId, AppointmentWithId, Unindexed).1
    ensures Valid(s) ==> Valid(r.0)
  {
    if !up then (s, Err(Unavailable))
    else
      SaveKeepsKeys(s.appointments, a, AppointmentId, AppointmentWithId, Unindexed);
      var p := Save(s.appointments, a, AppointmentId, AppointmentWithId, Unindexed);
      (s.(appointments := p.0), p.1)
  }

  /** `DeleteAppointment`: a soft delete of the live rows with that key; a
      key with no row is not an error. */
  function DeleteAppointmentEffect(s: DbState, id: Id, up: bool): (r: (DbState, Result<(), DbError>))
    ensures !up ==> r == (s, Err(Unavailable))
    ensures up ==> r.1 == Ok(()) && r.0 == s.(appointments := r.0.appointments)
    ensures r.0.appointments.next == s.appointments.next
    ensures |r.0.appointments.rows| == |s.appointments.rows|
    ensures forall i :: 0 <= i < |s.appointments.rows| ==>
      r.0.appointments.rows[i] ==
        if up && s.appointments.rows[i].id == id then s.appointments.rows[i].(deleted := true)
        else s.appointments.rows[i]
    ensures Valid(s) ==> Valid(r.0)
    ensures Ahead(s) ==> Ahead(r.0)
  {
    if !up then (s, Err(Unavailable))
    else
      var rows := seq(|s.appointments.rows|, i requires 0 <= i < |s.appointments.rows| =>
        var a := s.appointments.rows[i];
        if a.id == id then a.(deleted := true) else a);
      assert forall i :: 0 <= i < |rows| ==> rows[i].id == s.appointments.rows[i].id;
      (s.(appointments := Table(rows, s.appointments.next)), Ok(()))
  }

  function CreateConsultationEffect(s: DbState, c: Consultation, up: bool): (r: (DbState, Result<Consultation, DbError>))
    ensures !up ==> r == (s, Err(Unavailable))
    ensures up ==> r.0 == s.(consultations := Insert(s.consultations, c, ConsultationId, ConsultationWithId, Unindexed).0)
    ensures up ==> r.1 == Insert(s.consultations, c, ConsultationId, ConsultationWithId, Unindexed).1
    ensures Valid(s) ==> Valid(r.0)
    ensures Ahead(s) && c.id == 0 ==> Ahead(r.0)
  {
    if !up then (s, Err(Unavailable))
    else
      InsertKeepsKeys(s.consultations, c, ConsultationId, ConsultationWithId, Unindexed);
      var p := Insert(s.consultations, c, ConsultationId, ConsultationWithId, Unindexed);
      (s.(consultations := p.0), p.1)
  }

  function CreatePrescriptionEffect(s: DbState, p: Prescription, up: bool): (r: (DbState, Result<Prescription, DbError>))
    ensures !up ==> r == (s, Err(Unavailable))
    ensures up ==> r.0 == s.(prescriptions := Insert(s.prescriptions, p, PrescriptionId, PrescriptionWithId, Unindexed).0)
    ensures up ==> r.1 == Insert(s.prescriptions, p, PrescriptionId, PrescriptionWithId, Unindexed).1
    ensures Valid(s) ==> Valid(r.0)
    ensures Ahead(s) && p.id == 0 ==> Ahead(r.0)
  {
    if !up then (s, Err(Unavailable))
    else
      InsertKeepsKeys(s.prescriptions, p, PrescriptionId, PrescriptionWithId, Unindexed);
      var q := Insert(s.prescriptions, p, PrescriptionId, PrescriptionWithId, Unindexed);
      (s.(prescriptions := q.0), q.1)
  }

  function UpdatePrescriptionEffect(s: DbState, p: Prescription, up: bool): (r: (DbState, Result<Prescription, DbError>))
    ensures !up ==> r == (s, Err(Unavailable))
    ensures up ==> r.0 == s.(prescriptions := Save(s.prescriptions, p, PrescriptionId, PrescriptionWithId, Unindexed).0)
    ensures up ==> r.1 == Save(s.prescriptions, p, PrescriptionId, PrescriptionWithId, Unindexed).1
    ensures Valid(s) ==> Valid(r.0)
  {
    if !up then (s, Err(Unavailable))
    else
      SaveKeepsKeys(s.prescriptions, p, PrescriptionId, PrescriptionWithId, Unindexed);
      var q := Save(s.prescriptions, p, PrescriptionId, PrescriptionWithId, Unindexed);
      (s.(prescriptions := q.0), q.1)
  }

  // ---- properties of the queries -------------------------------------------

  /** After a soft delete of `id`, no appointment query returns a row with
      that key, and a lookup by that key fails. */
  lemma DeleteHidesAppointment(s: DbState, id: Id)
    ensures var t := DeleteAppointmentEffect(s, id, true).0;
      && (forall p, a :: a in GetAppointmentsByPatient(t, p) ==> a.id != id)
      && (forall d, a :: a in GetAppointmentsByDoctor(t, d) ==> a.id != id)
      && (forall a :: a in GetAllAppointments(t) ==> a.id != id)
      && GetAppointmentByID(t, id) == Err(RecordNotFound)
  {
    var t := DeleteAppointmentEffect(s, id, true).0;
    assert forall a :: a in t.appointments.rows && a.id == id ==> a.deleted;
  }

  /** The prescription join does not look at `deleted_at` of the joined
      appointment: soft-deleting an appointment leaves every patient's
      prescription list as it was. */
  lemma DeleteKeepsPrescriptions(s: DbState, id: Id, patientId: Id)
    ensures GetPrescriptionsByPatient(DeleteAppointmentEffect(s, id, true).0, patientId)
         == GetPrescriptionsByPatient(s, patientId)
  {
    var t := DeleteAppointmentEffect(s, id, true).0;
    assert SameLinks(s, t);
    forall p ensures OfPatient(t, patientId, p) == OfPatient(s, patientId, p) {
      SameLinksSameOwner(s, t, patientId, p);
    }
    FilterSameTest(s.prescriptions.rows, (p: Prescription) => OfPatient(t, patientId, p),
                   (p: Prescription) => OfPatient(s, patientId, p));
  }

  /** `t` joins prescriptions to patients exactly as `s` does: the same
      consultations, and appointment rows with the same ids and patients. */
  predicate SameLinks(s: DbState, t: DbState)
  {
    && t.consultations == s.consultations
    && |t.appointments.rows| == |s.appointments.rows|
    && forall i :: 0 <= i < |s.appointments.rows| ==>
         t.appointments.rows[i].id == s.appointments.rows[i].id
         && t.appointments.rows[i].patientId == s.appointments.rows[i].patientId
  }

  lemma SameLinksSameOwner(s: DbState, t: DbState, patientId: Id, p: Prescription)
    requires SameLinks(s, t)
    ensures OfPatient(t, patientId, p) == OfPatient(s, patientId, p)
  {
    if OfPatient(s, patientId, p) {
      var c, a :| c in s.consultations.rows && a in s.appointments.rows
        && c.id == p.consultationId && a.id == c.appointmentId && a.patientId == patientId;
      var i :| 0 <= i < |s.appointments.rows| && s.appointments.rows[i] == a;
      assert t.appointments.rows[i] in t.appointments.rows;
    }
    if OfPatient(t, patientId, p) {
      var c, a :| c in t.consultations.rows && a in t.appointments.rows
        && c.id == p.consultationId && a.id == c.appointmentId && a.patientId == patientId;
      var i :| 0 <= i < |t.appointments.rows| && t.appointments.rows[i] == a;
      assert s.appointments.rows[i] in s.appointments.rows;
    }
  }

  // ---- writes on the database ----------------------------------------------

  method CreateDoctor(db: Database, d: Doctor, up: bool) returns (r: Result<Doctor, DbError>)
    modifies db`doctors
    ensures (db.State(), r) == CreateDoctorEffect(old(db.State()), d, up)
  {
    var e := CreateDoctorEffect(db.State(), d, up);
    db.doctors, r := e.0.doctors, e.1;
  }

  method UpdateDoctor(db: Database, d: Doctor, up: bool) returns (r: Result<(), DbError>)
    modifies db`doctors
    ensures (db.State(), r) == UpdateDoctorEffect(old(db.State()), d, up)
  {
    var e := UpdateDoctorEffect(db.State(), d, up);
    db.doctors, r := e.0.doctors, e.1;
  }

  method UpdatePatient(db: Database, p: Patient, up: bool) returns (r: Result<Patient, DbError>)
    modifies db`patients
    ensures (db.State(), r) == UpdatePatientEffect(old(db.State()), p, up)
  {
    var e := UpdatePatientEffect(db.State(), p, up);
    db.patients, r := e.0.patients, e.1;
  }

  method CreateAppointment(db: Database, a: Appointment, up: bool) returns (r: Result<Appointment, DbError>)
    modifies db`appointments
    ensures (db.State(), r) == CreateAppointmentEffect(old(db.State()), a, up)
  {
    var e := CreateAppointmentEffect(db.State(), a, up);
    db.appointments, r := e.0.appointments, e.1;
  }

  method UpdateAppointment(db: Database, a: Appointment, up: bool) returns (r: Result<Appointment, DbError>)
    modifies db`appointments
    ensures (db.State(), r) == UpdateAppointmentEffect(old(db.State()), a, up)
  {
    var e := UpdateAppointmentEffect(db.State(), a, up);
    db.appointments, r := e.0.appointments, e.1;
  }

  method DeleteAppointment(db: Database, id: Id, up: bool) returns (r: Result<(), DbError>)
    modifies db`appointments
    ensures (db.State(), r) == DeleteAppointmentEffect(old(db.State()), id, up)
  {
    var e := DeleteAppointmentEffect(db.State(), id, up);
    db.appointments, r := e.0.appointments, e.1;
  }

  method CreateConsultation(db: Database, c: Consultation, up: bool) returns (r: Result<Consultation, DbError>)
    modifies db`consultations
    ensures (db.State(), r) == CreateConsultationEffect(old(db.State()), c, up)
  {
    var e := CreateConsultationEffect(db.State(), c, up);
    db.consultations, r := e.0.consultations, e.1;
  }

  method CreatePrescription(db: Database, p: Prescription, up: bool) returns (r: Result<Prescription, DbError>)
    modifies db`prescriptions
    ensures (db.State(), r) == CreatePrescriptionEffect(old(db.State()), p, up)
  {
    var e := CreatePrescriptionEffect(db.State(), p, up);
    db.prescriptions, r := e.0.prescriptions, e.1;
  }

  method UpdatePrescription(db: Database, p: Prescription, up: bool) returns (r: Result<Prescription, DbError>)
    modifies db`prescriptions
    ensures (db.State(), r) == UpdatePrescriptionEffect(old(db.State()), p, up)
  {
    var e := UpdatePrescriptionEffect(db.State(), p, up);
    db.prescriptions, r := e.0.prescriptions, e.1;
  }
}
