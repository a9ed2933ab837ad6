/** The database both repositories share: one table per record type. */
module Store {
  import opened Models
  import opened Tables

  function UserId(u: User): Id { u.id }
  function UserWithId(u: User, k: Id): User { u.(id := k) }
  /** The unique indexes on `users.email` and `users.google_id`. */
  function UserClash(a: User, b: User): bool { a.email == b.email || a.googleId == b.googleId }

  function DoctorId(d: Doctor): Id { d.id }
  function DoctorWithId(d: Doctor, k: Id): Doctor { d.(id := k) }

  function PatientId(p: Patient): Id { p.id }
  function PatientWithId(p: Patient, k: Id): Patient { p.(id := k) }

  function AppointmentId(a: Appointment): Id { a.id }
  function AppointmentWithId(a: Appointment, k: Id): Appointment { a.(id := k) }

  function ConsultationId(c: Consultation): Id { c.id }
  function ConsultationWithId(c: Consultation, k: Id): Consultation { c.(id := k) }

  function PrescriptionId(p: Prescription): Id { p.id }
  function PrescriptionWithId(p: Prescription, k: Id): Prescription { p.(id := k) }

  /** A table with no unique index besides its key. */
  function Unindexed<T>(a: T, b: T): bool { false }

  /** The contents of every table at one moment. */
  datatype DbState = DbState(
    users: Table<User>,
    doctors: Table<Doctor>,
    patients: Table<Patient>,
    appointments: Table<Appointment>,
    consultations: Table<Consultation>,
    prescriptions: Table<Prescription>)

  /** Keys are non-zero and distinct in every table, every id sequence
      starts at 1, and no two users share an email or a Google id. */
  predicate Valid(s: DbState)
  {
    && s.users.next != 0 && s.doctors.next != 0 && s.patients.next != 0
    && s.appointments.next != 0 && s.consultations.next != 0 && s.prescriptions.next != 0
    && WellKeyed(s.users.rows, UserId, UserClash)
    && WellKeyed(s.doctors.rows, DoctorId, Unindexed)
    && WellKeyed(s.patients.rows, PatientId, Unindexed)
    && WellKeyed(s.appointments.rows, AppointmentId, Unindexed)
    && WellKeyed(s.consultations.rows, ConsultationId, Unindexed)
    && WellKeyed(s.prescriptions.rows, PrescriptionId, Unindexed)
  }

  /** The id sequences of the tables the services insert into with zero
      keys are ahead of every stored key, so those inserts cannot collide. */
  predicate Ahead(s: DbState)
  {
    && SequenceAhead(s.users, UserId)
    && SequenceAhead(s.appointments, AppointmentId)
    && SequenceAhead(s.consultations, ConsultationId)
    && SequenceAhead(s.prescriptions, PrescriptionId)
  }


  /** A freshly migrated database. */
  function Empty(): (s: DbState)
    ensures Valid(s) && Ahead(s)
  {
    DbState(Table([], 1), Table([], 1), Table([], 1), Table([], 1), Table([], 1), Table([], 1))
  }

  class Database {
    var users: Table<User>
    var doctors: Table<Doctor>
    var patients: Table<Patient>
    var appointments: Table<Appointment>
    var consultations: Table<Consultation>
    var prescriptions: Table<Prescription>

    function State(): DbState
      reads this
    {
      DbState(users, doctors, patients, appointments, consultations, prescriptions)
    }

    constructor ()
      ensures State() == Empty()
    {
      users, doctors, patients := Table([], 1), Table([], 1), Table([], 1);
      appointments, consultations, prescriptions := Table([], 1), Table([], 1), Table([], 1);
    }
  }
}
