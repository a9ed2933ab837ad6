/** The persisted records of the backend and their value sets. Timestamps
    the code never reads (created/updated on most tables) are left out;
    `deleted` stands for a non-null `DeletedAt`. */
module Models {
  import opened Wrappers
  import opened GoTime

  /** Primary keys. Go declares them `uint`; path parameters are parsed as
      32-bit values before they reach a query. */
  type Id = nat

  const RoleAdmin: string := "admin"
  const RoleDoctor: string := "doctor"
  const RolePatient: string := "patient"

  const StatusScheduled: string := "Scheduled"
  const StatusCancelled: string := "Cancelled"
  const StatusCompleted: string := "Completed"

  const StatusIssued: string := "Issued"
  const StatusDispensed: string := "Dispensed"

  /** The roles the comment on `User.Role` names. The column is a plain
      string: nothing stops another value from being stored. */
  predicate IsRole(r: string)
  {
    r == RoleAdmin || r == RoleDoctor || r == RolePatient
  }

  /** The appointment statuses the comment on `Appointment.Status` names;
      every service write keeps the stored ones among them. */
  predicate IsAppointmentStatus(s: string)
  {
    s == StatusScheduled || s == StatusCancelled || s == StatusCompleted
  }

  /** The prescription statuses the comment on `Prescription.Status` names;
      the status update does not keep the stored ones among them. */
  predicate IsPrescriptionStatus(s: string)
  {
    s == StatusIssued || s == StatusDispensed
  }

  datatype User = User(id: Id, email: string, googleId: string, name: string,
                       picture: string, role: string)

  datatype Department = Department(id: Id, name: string, description: string)

  /** A doctor profile; its id is the owning user's id. */
  datatype Doctor = Doctor(id: Id, departmentId: Id, specialization: string)

  /** A patient profile; its id is the owning user's id. */
  datatype Patient = Patient(id: Id, dateOfBirth: Option<Instant>, gender: string)

  datatype Appointment = Appointment(id: Id, patientId: Id, doctorId: Id,
                                     appointmentDate: Instant, status: string, deleted: bool)

  datatype Consultation = Consultation(id: Id, appointmentId: Id, diagnosis: string, notes: string)

  datatype Prescription = Prescription(id: Id, consultationId: Id, medication: string,
                                       dosage: string, status: string, createdAt: Instant)

  /** The errors the repository layer can return. */
  datatype DbError =
    | RecordNotFound      // gorm.ErrRecordNotFound from First
    | DuplicateKey        // a unique index or primary key rejected an insert
    | MissingWhereClause  // an update whose model has a zero primary key
    | Unavailable         // the database did not answer the statement

  /** Go's zero `time.Time`, 0001-01-01T00:00:00Z, which GORM writes for a
      timestamp field left unset. */
  const ZeroTime: Instant := -62135596800 * NanosPerSecond
}
