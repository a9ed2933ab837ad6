/** `medicalService`: booking, cancelling, completing and deleting
    appointments, prescription status updates and the patient history.
    Each operation is a function of the tables (its specification) and a
    method on the shared `Database` proved to follow it. `served` is the
    number of database statements of the call that the database answers;
    statement k of the call fails with `Unavailable` when `k >= served`. */
module MedicalService {
  import opened Wrappers
  import opened Seqs
  import opened GoTime
  import opened Models
  import opened Tables
  import opened Store
  import opened MedicalRepository
  import opened Ordering

  // ---- BookAppointment -----------------------------------------------------

  /** The two layouts `BookAppointment` tries, RFC 3339 first. */
  function BookingInstant(date: string): Option<Instant>
  {
    match ParseRFC3339(date)
    case Some(t) => Some(t)
    case None => ParseLocalMinute(date)
  }

  /** No string fits both layouts, so trying them in the other order would
      not change the parsed instant. */
  lemma {:induction false} BookingLayoutsDisjoint(date: string)
    ensures ParseRFC3339(date).None? || ParseLocalMinute(date).None?
    ensures BookingInstant(date) == if ParseLocalMinute(date).Some? then ParseLocalMinute(date) else ParseRFC3339(date)
  {
    var p := DateHourMinute(date);
    if p.Some? && ParseLocalMinute(date).Some? {
      assert p.value.rest == [];
      assert Literal(p.value.rest, ':').None?;
    }
  }

  datatype BookingError = UnparsableDate | StoreError(error: DbError)

  function BookAppointmentEffect(s: DbState, patientId: Id, doctorId: Id, date: string, served: nat)
    : (r: (DbState, Result<Appointment, BookingError>))
    ensures BookingInstant(date).None? ==> r == (s, Err(UnparsableDate))
    ensures r.0 == s.(appointments := r.0.appointments)
    ensures r.1.Ok? ==>
      && BookingInstant(date).Some?
      && r.1.value == Appointment(s.appointments.next, patientId, doctorId,
                                  BookingInstant(date).value, StatusScheduled, false)
      && r.0.appointments.rows == s.appointments.rows + [r.1.value]
    ensures r.1.Err? ==> r.0.appointments.rows == s.appointments.rows
    ensures Valid(s) ==> Valid(r.0)
    ensures Ahead(s) ==> Ahead(r.0)
  {
    match BookingInstant(date)
    case None => (s, Err(UnparsableDate))
    case Some(t) =>
      var c := CreateAppointmentEffect(s, Appointment(0, patientId, doctorId, t, StatusScheduled, false), 0 < served);
      (c.0, match c.1 case Ok(a) => Ok(a) case Err(e) => Err(StoreError(e)))
  }

  /** Booking looks at no existing appointment: with the id sequence ahead
      of the stored keys and the database up, every parsable date is
      booked, whoever else holds that doctor at that instant. */
  lemma BookingAlwaysInserts(s: DbState, patientId: Id, doctorId: Id, date: string, served: nat)
    requires Ahead(s) && served >= 1 && BookingInstant(date).Some?
    ensures BookAppointmentEffect(s, patientId, doctorId, date, served).1.Ok?
  {
    forall i | 0 <= i < |s.appointments.rows| ensures s.appointments.rows[i].id != s.appointments.next {
      assert AppointmentId(s.appointments.rows[i]) < s.appointments.next;
    }
  }

  /** Two bookings for the same doctor and the same date both succeed and
      leave two appointments at the same instant. */
  lemma DoubleBookingAccepted(s: DbState, p1: Id, p2: Id, doctorId: Id, date: string)
    requires Ahead(s) && BookingInstant(date).Some?
    ensures var first := BookAppointmentEffect(s, p1, doctorId, date, 1);
      var second := BookAppointmentEffect(first.0, p2, doctorId, date, 1);
      && first.1.Ok? && second.1.Ok?
      && first.1.value.doctorId == second.1.value.doctorId == doctorId
      && first.1.value.appointmentDate == second.1.value.appointmentDate
      && first.1.value.id != second.1.value.id
  {
    BookingAlwaysInserts(s, p1, doctorId, date, 1);
    var first := BookAppointmentEffect(s, p1, doctorId, date, 1);
    BookingAlwaysInserts(first.0, p2, doctorId, date, 1);
  }

  method BookAppointment(db: Database, patientId: Id, doctorId: Id, date: string, served: nat)
    returns (r: Result<Appointment, BookingError>)
    modifies db`appointments
    ensures (db.State(), r) == BookAppointmentEffect(old(db.State()), patientId, doctorId, date, served)
  {
    var parsed := ParseRFC3339(date);
    if parsed.None? {
      parsed := ParseLocalMinute(date);
      if parsed.None? {
        return Err(UnparsableDate);
      }
    }
    var appt := Appointment(0, patientId, doctorId, parsed.value, StatusScheduled, false);
    var c := CreateAppointment(db, appt, 0 < served);
    r := match c case Ok(a) => Ok(a) case Err(e) => Err(StoreError(e));
  }

  // ---- CancelAppointment ---------------------------------------------------

  function CancelAppointmentEffect(s: DbState, id: Id, served: nat): (r: (DbState, Result<(), DbError>))
    ensures served == 0 ==> r == (s, Err(Unavailable))
    ensures served > 0 && GetAppointmentByID(s, id).Err? ==> r == (s, Err(RecordNotFound))
    ensures r.0 == s.(appointments := r.0.appointments)
    ensures Valid(s) ==> Valid(r.0)
  {
    var found := if 0 < served then GetAppointmentByID(s, id) else Err(Unavailable);
    if found.Err? then (s, Err(found.error))
    else
      var u := UpdateAppointmentEffect(s, found.value.(status := StatusCancelled), 1 < served);
      (u.0, if u.1.Ok? then Ok(()) else Err(u.1.error))
  }

  /** Cancelling a live appointment succeeds whatever its status was and
      changes that row's status only. */
  lemma CancelSetsStatus(s: DbState, id: Id, served: nat, i: nat)
    requires Valid(s) && served >= 2
    requires i < |s.appointments.rows| && s.appointments.rows[i].id == id && !s.appointments.rows[i].deleted
    ensures var r := CancelAppointmentEffect(s, id, served);
      && r.1 == Ok(())
      && |r.0.appointments.rows| == |s.appointments.rows|
      && forall j :: 0 <= j < |s.appointments.rows| ==>
           r.0.appointments.rows[j] == if j == i then s.appointments.rows[i].(status := StatusCancelled)
                                       else s.appointments.rows[j]
  {
    RewriteStatus(s, id, i, StatusCancelled);
  }

  /** The live appointment at row `i` is the one the lookup finds, and
      saving it back with a new status rewrites that row alone. */
  lemma RewriteStatus(s: DbState, id: Id, i: nat, status: string)
    requires Valid(s)
    requires i < |s.appointments.rows| && s.appointments.rows[i].id == id && !s.appointments.rows[i].deleted
    ensures GetAppointmentByID(s, id) == Ok(s.appointments.rows[i])
    ensures var u := UpdateAppointmentEffect(s, s.appointments.rows[i].(status := status), true);
      && u.1.Ok?
      && u.0 == s.(appointments := u.0.appointments)
      && |u.0.appointments.rows| == |s.appointments.rows|
      && forall j :: 0 <= j < |s.appointments.rows| ==>
           u.0.appointments.rows[j] == if j == i then s.appointments.rows[i].(status := status)
                                       else s.appointments.rows[j]
  {
    FirstByKey(s.appointments.rows, (a: Appointment) => a.id == id && !a.deleted, AppointmentId, id, i);
    var rows := s.appointments.rows;
    assert AppointmentId(rows[i]) != 0;
    assert HasId(rows, AppointmentId, id);
    assert forall j :: 0 <= j < |rows| && j != i ==> AppointmentId(rows[j]) != id;
  }

  method CancelAppointment(db: Database, id: Id, served: nat) returns (r: Result<(), DbError>)
    modifies db`appointments
    ensures (db.State(), r) == CancelAppointmentEffect(old(db.State()), id, served)
  {
    var found := if 0 < served then GetAppointmentByID(db.State(), id) else Err(Unavailable);
    if found.Err? {
      return Err(found.error);
    }
    var appt := found.value;
    appt := appt.(status := StatusCancelled);
    var u := UpdateAppointment(db, appt, 1 < served);
    r := if u.Ok? then Ok(()) else Err(u.error);
  }

  // ---- CompleteAppointment -------------------------------------------------

  /** One entry of the completion request's `medications`: the drug and the
      dose. The other fields a bound `Prescription` could carry are not
      modelled. */
  datatype Medication = Medication(medication: string, dosage: string)

  /** The prescriptions a completion issues when every insert succeeds:
      keys from `first` on, in request order, the one inserted by statement
      `k + i` stamped `clock(k + i)`. */
  function Issued(first: Id, consId: Id, meds: seq<Medication>, clock: nat -> Instant, k: nat)
    : (r: seq<Prescription>)
    ensures |r| == |meds|
    ensures forall i :: 0 <= i < |meds| ==>
      r[i] == Prescription(first + i, consId, meds[i].medication, meds[i].dosage, StatusIssued, clock(k + i))
  {
    seq(|meds|, i requires 0 <= i < |meds| =>
      Prescription(first + i, consId, meds[i].medication, meds[i].dosage, StatusIssued, clock(k + i)))
  }

  /** A clock that moves forward between statements stamps the medications
      of one completion in request order, each later than the one before. */
  lemma IssuedInOrder(first: Id, consId: Id, meds: seq<Medication>, clock: nat -> Instant, k: nat)
    requires forall a: nat, b: nat :: a < b ==> clock(a) < clock(b)
    ensures var r := Issued(first, consId, meds, clock, k);
      forall i, j :: 0 <= i < j < |r| ==> r[i].createdAt < r[j].createdAt
  {
    var r := Issued(first, consId, meds, clock, k);
    forall i, j | 0 <= i < j < |r| ensures r[i].createdAt < r[j].createdAt {
      assert r[i].createdAt == clock(k + i) && r[j].createdAt == clock(k + j);
    }
  }

  /** `GetPrescriptionsByPatient` lists newest first, so in any such listing
      that shows two medications of one completion, the one entered later in
      the request comes first. */
  lemma LaterMedicationListedFirst(first: Id, consId: Id, meds: seq<Medication>, clock: nat -> Instant, k: nat,
                                   listing: seq<Prescription>, i: nat, j: nat, x: nat, y: nat)
    requires forall a: nat, b: nat :: a < b ==> clock(a) < clock(b)
    requires SortedDesc(listing, PrescriptionCreated)
    requires i < j < |meds| && x < |listing| && y < |listing|
    requires listing[x] == Issued(first, consId, meds, clock, k)[i]
    requires listing[y] == Issued(first, consId, meds, clock, k)[j]
    ensures y < x
  {
    IssuedInOrder(first, consId, meds, clock, k);
    LargerKeyFirst(listing, PrescriptionCreated, x, y);
  }

  /** The medication loop of `CompleteAppointment`: statement `k` inserts
      `meds[0]`, stamped with the clock reading `clock(k)` at that
      statement; the first failure ends the loop with its error. */
  function IssueEffect(s: DbState, consId: Id, meds: seq<Medication>, clock: nat -> Instant, served: nat, k: nat)
    : (r: (DbState, Result<(), DbError>))
    decreases |meds|
    ensures r.0 == s.(prescriptions := r.0.prescriptions)
    ensures Valid(s) ==> Valid(r.0)
  {
    if meds == [] then (s, Ok(()))
    else
      var c := CreatePrescriptionEffect(s, Prescription(0, consId, meds[0].medication, meds[0].dosage, StatusIssued, clock(k)), k < served);
      if c.1.Err? then (c.0, Err(c.1.error))
      else IssueEffect(c.0, consId, meds[1..], clock, served, k + 1)
  }

  /** How many of `n` inserts starting at statement `k` the database serves. */
  function ServedOf(served: nat, k: nat, n: nat): (m: nat)
    ensures m <= n
  {
    if served <= k then 0 else if served - k >= n then n else served - k
  }

  /** With the prescription sequence ahead of the stored keys, the loop
      issues the first `ServedOf(...)` medications, in order, and fails
      exactly when the database stops serving before the last one. */
  lemma {:induction false} IssueOutcome(s: DbState, consId: Id, meds: seq<Medication>, clock: nat -> Instant, served: nat, k: nat)
    requires SequenceAhead(s.prescriptions, PrescriptionId)
    ensures var r := IssueEffect(s, consId, meds, clock, served, k);
      var m := ServedOf(served, k, |meds|);
      && r.0.prescriptions.rows == s.prescriptions.rows + Issued(s.prescriptions.next, consId, meds, clock, k)[..m]
      && r.0.prescriptions.next == s.prescriptions.next + m
      && SequenceAhead(r.0.prescriptions, PrescriptionId)
      && (r.1.Ok? <==> m == |meds|)
      && (r.1.Err? ==> r.1.error == Unavailable)
    decreases |meds|
  {
    if meds == [] {
      var all := Issued(s.prescriptions.next, consId, meds, clock, k);
      assert all[..0] == [];
    } else if served <= k {
      assert Issued(s.prescriptions.next, consId, meds, clock, k)[..0] == [];
    } else {
      var s' := IssueStep(s, consId, meds, clock, served, k);
      IssueOutcome(s', consId, meds[1..], clock, served, k + 1);
      IssueCombine(s, s', IssueEffect(s', consId, meds[1..], clock, served, k + 1), consId, meds, clock, served, k);
    }
  }

  /** The outcome `r` of the loop from the first served insert on, put
      together from the outcome of the rest. */
  lemma IssueCombine(s: DbState, s': DbState, r: (DbState, Result<(), DbError>),
                     consId: Id, meds: seq<Medication>, clock: nat -> Instant, served: nat, k: nat)
    requires meds != [] && k < served
    requires var stored := Prescription(s.prescriptions.next, consId, meds[0].medication, meds[0].dosage, StatusIssued, clock(k));
      s' == s.(prescriptions := Table(s.prescriptions.rows + [stored], s.prescriptions.next + 1))
    requires var m := ServedOf(served, k + 1, |meds| - 1);
      && r.0.prescriptions.rows == s'.prescriptions.rows + Issued(s'.prescriptions.next, consId, meds[1..], clock, k + 1)[..m]
      && r.0.prescriptions.next == s'.prescriptions.next + m
      && (r.1.Ok? <==> m == |meds| - 1)
    ensures var m := ServedOf(served, k, |meds|);
      && r.0.prescriptions.rows == s.prescriptions.rows + Issued(s.prescriptions.next, consId, meds, clock, k)[..m]
      && r.0.prescriptions.next == s.prescriptions.next + m
      && (r.1.Ok? <==> m == |meds|)
  {
    var m := ServedOf(served, k, |meds|);
    assert ServedOf(served, k + 1, |meds| - 1) == m - 1;
    IssuedCons(s.prescriptions.rows, s.prescriptions.next, consId, meds, clock, k, m);
  }

  /** A served first insert of the loop: it lands under the next key and
      the loop goes on from the state it leaves. */
  lemma IssueStep(s: DbState, consId: Id, meds: seq<Medication>, clock: nat -> Instant, served: nat, k: nat)
    returns (s': DbState)
    requires SequenceAhead(s.prescriptions, PrescriptionId) && meds != [] && k < served
    ensures var stored := Prescription(s.prescriptions.next, consId, meds[0].medication, meds[0].dosage, StatusIssued, clock(k));
      && s' == s.(prescriptions := Table(s.prescriptions.rows + [stored], s.prescriptions.next + 1))
      && SequenceAhead(s'.prescriptions, PrescriptionId)
      && IssueEffect(s, consId, meds, clock, served, k) == IssueEffect(s', consId, meds[1..], clock, served, k + 1)
  {
    IssueFirst(s, consId, meds[0], clock(k));
    var c := CreatePrescriptionEffect(s, Prescription(0, consId, meds[0].medication, meds[0].dosage, StatusIssued, clock(k)), true);
    s' := c.0;
  }

  /** The first issued row followed by the rest issued from the next key. */
  lemma IssuedCons(rows: seq<Prescription>, next: Id, consId: Id, meds: seq<Medication>,
                   clock: nat -> Instant, k: nat, m: nat)
    requires 1 <= m <= |meds|
    ensures rows + [Prescription(next, consId, meds[0].medication, meds[0].dosage, StatusIssued, clock(k))]
              + Issued(next + 1, consId, meds[1..], clock, k + 1)[..m - 1]
         == rows + Issued(next, consId, meds, clock, k)[..m]
  {
    var all, rest := Issued(next, consId, meds, clock, k), Issued(next + 1, consId, meds[1..], clock, k + 1);
    assert [all[0]] + rest[..m - 1] == all[..m];
  }

  /** One insert of the loop, when it is served, lands under the next key. */
  lemma IssueFirst(s: DbState, consId: Id, med: Medication, now: Instant)
    requires SequenceAhead(s.prescriptions, PrescriptionId)
    ensures var c := CreatePrescriptionEffect(s, Prescription(0, consId, med.medication, med.dosage, StatusIssued, now), true);
      var stored := Prescription(s.prescriptions.next, consId, med.medication, med.dosage, StatusIssued, now);
      && c.1 == Ok(stored)
      && c.0 == s.(prescriptions := Table(s.prescriptions.rows + [stored], s.prescriptions.next + 1))
      && SequenceAhead(c.0.prescriptions, PrescriptionId)
  {
    var t := s.prescriptions;
    var row := Prescription(0, consId, med.medication, med.dosage, StatusIssued, now);
    forall i | 0 <= i < |t.rows| ensures PrescriptionId(t.rows[i]) != t.next {
      assert PrescriptionId(t.rows[i]) < t.next;
    }
    InsertKeepsKeys(t, row, PrescriptionId, PrescriptionWithId, Unindexed);
  }

  function CompleteAppointmentEffect(s: DbState, id: Id, diagnosis: string, notes: string,
                                     meds: seq<Medication>, clock: nat -> Instant, served: nat)
    : (r: (DbState, Result<(), DbError>))
    ensures served == 0 ==> r == (s, Err(Unavailable))
    ensures served > 0 && GetAppointmentByID(s, id).Err? ==> r == (s, Err(RecordNotFound))
    ensures r.0.users == s.users && r.0.doctors == s.doctors && r.0.patients == s.patients
    ensures Valid(s) ==> Valid(r.0)
  {
    var found := if 0 < served then GetAppointmentByID(s, id) else Err(Unavailable);
    if found.Err? then (s, Err(found.error))
    else
      var u := UpdateAppointmentEffect(s, found.value.(status := StatusCompleted), 1 < served);
      if u.1.Err? then (u.0, Err(u.1.error))
      else
        var c := CreateConsultationEffect(u.0, Consultation(0, id, diagnosis, notes), 2 < served);
        if c.1.Err? then (c.0, Err(c.1.error))
        else IssueEffect(c.0, c.1.value.id, meds, clock, served, 3)
  }

  /** What a completion of the live appointment at row `i` leaves behind, for
      every number of statements the database serves: the status write lands
      first (from 2 statements on), then the consultation (from 3 on), then
      the prescriptions one by one. Only when all of them land is the result
      `Ok`; a failure part-way keeps the writes already made. */
  lemma CompleteOutcome(s: DbState, id: Id, diagnosis: string, notes: string,
                        meds: seq<Medication>, clock: nat -> Instant, served: nat, i: nat)
    requires Valid(s) && Ahead(s)
    requires i < |s.appointments.rows| && s.appointments.rows[i].id == id && !s.appointments.rows[i].deleted
    ensures var r := CompleteAppointmentEffect(s, id, diagnosis, notes, meds, clock, served);
      var m := ServedOf(served, 3, |meds|);
      && (r.1.Ok? <==> served >= 3 + |meds|)
      && (served >= 2 ==>
            |r.0.appointments.rows| == |s.appointments.rows|
            && forall j :: 0 <= j < |s.appointments.rows| ==>
                 r.0.appointments.rows[j] == if j == i then s.appointments.rows[i].(status := StatusCompleted)
                                             else s.appointments.rows[j])
      && (served < 2 ==> r.0 == s)
      && (served == 2 ==> r.0.consultations == s.consultations && r.0.prescriptions == s.prescriptions)
      && (served >= 3 ==>
            r.0.consultations.rows == s.consultations.rows + [Consultation(s.consultations.next, id, diagnosis, notes)]
            && r.0.prescriptions.rows == s.prescriptions.rows
                 + Issued(s.prescriptions.next, s.consultations.next, meds, clock, 3)[..m])
  {
    var rows := s.appointments.rows;
    if served >= 1 {
      RewriteStatus(s, id, i, StatusCompleted);
      if served >= 3 {
        var u := UpdateAppointmentEffect(s, rows[i].(status := StatusCompleted), true);
        ConsultationLands(u.0, id, diagnosis, notes);
        var c := CreateConsultationEffect(u.0, Consultation(0, id, diagnosis, notes), true);
        IssueOutcome(c.0, s.consultations.next, meds, clock, served, 3);
      }
    }
  }

  /** The consultation insert, when it is served, lands under the next key. */
  lemma ConsultationLands(s: DbState, id: Id, diagnosis: string, notes: string)
    requires SequenceAhead(s.consultations, ConsultationId)
    ensures var c := CreateConsultationEffect(s, Consultation(0, id, diagnosis, notes), true);
      var stored := Consultation(s.consultations.next, id, diagnosis, notes);
      && c.1 == Ok(stored)
      && c.0 == s.(consultations := Table(s.consultations.rows + [stored], s.consultations.next + 1))
  {
    var t := s.consultations;
    forall j | 0 <= j < |t.rows| ensures ConsultationId(t.rows[j]) != t.next {
      assert ConsultationId(t.rows[j]) < t.next;
    }
  }

  method CompleteAppointment(db: Database, id: Id, diagnosis: string, notes: string,
                             meds: seq<Medication>, clock: nat -> Instant, served: nat)
    returns (r: Result<(), DbError>)
    modifies db`appointments, db`consultations, db`prescriptions
    ensures (db.State(), r) == CompleteAppointmentEffect(old(db.State()), id, diagnosis, notes, meds, clock, served)
  {
    var found := if 0 < served then GetAppointmentByID(db.State(), id) else Err(Unavailable);
    if found.Err? {
      return Err(found.error);
    }
    var appt := found.value;
    appt := appt.(status := StatusCompleted);
    var u := UpdateAppointment(db, appt, 1 < served);
    if u.Err? {
      return Err(u.error);
    }
    var cons := CreateConsultation(db, Consultation(0, id, diagnosis, notes), 2 < served);
    if cons.Err? {
      return Err(cons.error);
    }
    ghost var start := db.State();
    var i := 0;
    while i < |meds|
      invariant 0 <= i <= |meds|
      invariant db.users == start.users && db.doctors == start.doctors && db.patients == start.patients
      invariant db.appointments == start.appointments && db.consultations == start.consultations
      invariant IssueEffect(db.State(), cons.value.id, meds[i..], clock, served, 3 + i)
             == IssueEffect(start, cons.value.id, meds, clock, served, 3)
    {
      var m := meds[i];
      assert meds[i..][0] == m && meds[i..][1..] == meds[i + 1..];
      var p := CreatePrescription(db, Prescription(0, cons.value.id, m.medication, m.dosage, StatusIssued, clock(3 + i)), 3 + i < served);
      if p.Err? {
        return Err(p.error);
      }
      i := i + 1;
    }
    r := Ok(());
  }

  // ---- DeleteAppointment ---------------------------------------------------

  method DeleteAppointment(db: Database, id: Id, served: nat) returns (r: Result<(), DbError>)
    modifies db`appointments
    ensures (db.State(), r) == DeleteAppointmentEffect(old(db.State()), id, 0 < served)
  {
    r := MedicalRepository.DeleteAppointment(db, id, 0 < served);
  }

  // ---- UpdatePrescriptionStatus --------------------------------------------

  /** `UpdatePrescriptionStatus` as written: it saves a record holding only
      the key and the status, and `Save` writes every column. */
  function UpdatePrescriptionStatusAsWritten(s: DbState, id: Id, status: string, served: nat)
    : (r: (DbState, Result<(), DbError>))
    ensures r.0 == s.(prescriptions := r.0.prescriptions)
    ensures Valid(s) ==> Valid(r.0)
  {
    var u := UpdatePrescriptionEffect(s, Prescription(id, 0, "", "", status, ZeroTime), 0 < served);
    (u.0, if u.1.Ok? then Ok(()) else Err(u.1.error))
  }

  /** The update as written blanks the stored medication, dosage and
      consultation of the prescription it only meant to re-status, and an
      unknown key inserts a blank prescription. */
  lemma UpdatePrescriptionStatusBlanksRow(s: DbState, id: Id, status: string, i: nat)
    requires Valid(s) && i < |s.prescriptions.rows| && s.prescriptions.rows[i].id == id
    ensures var t := UpdatePrescriptionStatusAsWritten(s, id, status, 1).0;
      && |t.prescriptions.rows| == |s.prescriptions.rows|
      && t.prescriptions.rows[i] == Prescription(id, 0, "", "", status, ZeroTime)
  {
    assert PrescriptionId(s.prescriptions.rows[i]) != 0;
    assert HasId(s.prescriptions.rows, PrescriptionId, id);
  }

  lemma UpdateUnknownPrescriptionInserts(s: DbState, id: Id, status: string)
    requires id != 0 && forall p :: p in s.prescriptions.rows ==> p.id != id
    ensures UpdatePrescriptionStatusAsWritten(s, id, status, 1).0.prescriptions.rows
         == s.prescriptions.rows + [Prescription(id, 0, "", "", status, ZeroTime)]
  {
    assert !HasId(s.prescriptions.rows, PrescriptionId, id) by {
      forall i | 0 <= i < |s.prescriptions.rows| ensures PrescriptionId(s.prescriptions.rows[i]) != id {
        assert s.prescriptions.rows[i] in s.prescriptions.rows;
      }
    }
  }

  /** A concrete loss: an issued amoxicillin prescription re-statused as
      dispensed no longer names its drug, dose or consultation. */
  lemma UpdatePrescriptionStatusExample()
    ensures var rx := Prescription(1, 7, "Amoxicillin", "500mg", StatusIssued, 0);
      var s := Empty().(prescriptions := Table([rx], 2));
      var t := UpdatePrescriptionStatusAsWritten(s, 1, StatusDispensed, 1).0;
      t.prescriptions.rows == [Prescription(1, 0, "", "", StatusDispensed, ZeroTime)]
  {
    var rx := Prescription(1, 7, "Amoxicillin", "500mg", StatusIssued, 0);
    assert PrescriptionId([rx][0]) == 1;
    assert HasId([rx], PrescriptionId, 1);
  }

  /** The status update the service evidently intends, as
      `Model(&Prescription{ID: id}).Update("status", status)`: only the
      status column of the row with that key changes; a zero key has no
      WHERE clause. */
  function UpdatePrescriptionStatusEffect(s: DbState, id: Id, status: string, served: nat)
    : (r: (DbState, Result<(), DbError>))
    ensures served == 0 ==> r == (s, Err(Unavailable))
    ensures served > 0 && id == 0 ==> r == (s, Err(MissingWhereClause))
    ensures served > 0 && id != 0 ==> r.1 == Ok(())
    ensures r.0 == s.(prescriptions := r.0.prescriptions)
    ensures r.0.prescriptions.next == s.prescriptions.next
    ensures |r.0.prescriptions.rows| == |s.prescriptions.rows|
    ensures forall i :: 0 <= i < |s.prescriptions.rows| ==>
      r.0.prescriptions.rows[i] ==
        if r.1.Ok? && s.prescriptions.rows[i].id == id then s.prescriptions.rows[i].(status := status)
        else s.prescriptions.rows[i]
    ensures Valid(s) ==> Valid(r.0)
    ensures Ahead(s) ==> Ahead(r.0)
  {
    if served == 0 then (s, Err(Unavailable))
    else if id == 0 then (s, Err(MissingWhereClause))
    else
      var rows := seq(|s.prescriptions.rows|, i requires 0 <= i < |s.prescriptions.rows| =>
        var p := s.prescriptions.rows[i];
        if p.id == id then p.(status := status) else p);
      assert forall i :: 0 <= i < |rows| ==> rows[i].id == s.prescriptions.rows[i].id;
      (s.(prescriptions := Table(rows, s.prescriptions.next)), Ok(()))
  }

  /** The corrected update keeps the patient's prescription list, row for
      row, apart from the status. */
  lemma UpdatePrescriptionStatusKeepsHistory(s: DbState, id: Id, status: string, patientId: Id)
    requires id != 0
    ensures var t := UpdatePrescriptionStatusEffect(s, id, status, 1).0;
      forall p :: p in GetPrescriptionsByPatient(s, patientId) ==>
        (if p.id == id then p.(status := status) else p) in GetPrescriptionsByPatient(t, patientId)
  {
    var t := UpdatePrescriptionStatusEffect(s, id, status, 1).0;
    forall p | p in GetPrescriptionsByPatient(s, patientId)
      ensures (if p.id == id then p.(status := status) else p) in GetPrescriptionsByPatient(t, patientId)
    {
      var i :| 0 <= i < |s.prescriptions.rows| && s.prescriptions.rows[i] == p;
      var q := t.prescriptions.rows[i];
      assert q == if p.id == id then p.(status := status) else p;
      assert q in t.prescriptions.rows;
      assert OfPatient(s, patientId, p);
      assert q.consultationId == p.consultationId;
      assert OfPatient(t, patientId, q);
    }
  }

  method UpdatePrescriptionStatus(db: Database, id: Id, status: string, served: nat)
    returns (r: Result<(), DbError>)
    modifies db`prescriptions
    ensures (db.State(), r) == UpdatePrescriptionStatusEffect(old(db.State()), id, status, served)
  {
    var e := UpdatePrescriptionStatusEffect(db.State(), id, status, served);
    db.prescriptions, r := e.0.prescriptions, e.1;
  }

  // ---- the status value sets ----------------------------------------------

  /** Every stored appointment carries one of the three statuses the
      comment on `Appointment.Status` names. */
  predicate AppointmentStatusesKnown(s: DbState)
  {
    forall a :: a in s.appointments.rows ==> IsAppointmentStatus(a.status)
  }

  /** A save of an appointment with a known status keeps every status known,
      whether it replaces a row, appends one or is refused. */
  lemma SaveKeepsStatusesKnown(s: DbState, a: Appointment, up: bool)
    requires AppointmentStatusesKnown(s) && IsAppointmentStatus(a.status)
    ensures AppointmentStatusesKnown(UpdateAppointmentEffect(s, a, up).0)
  {
    var rows := s.appointments.rows;
    var after := UpdateAppointmentEffect(s, a, up).0.appointments.rows;
    var p := Save(s.appointments, a, AppointmentId, AppointmentWithId, Unindexed);
    if up && p.1.Ok? {
      if a.id == 0 {
        assert after == rows + [AppointmentWithId(a, s.appointments.next)];
      } else if HasId(rows, AppointmentId, a.id) {
        assert after == Replace(rows, a, AppointmentId);
        forall x | x in after ensures IsAppointmentStatus(x.status) {
          var i :| 0 <= i < |after| && after[i] == x;
          assert rows[i] in rows;
        }
      } else {
        assert after == rows + [a];
      }
    }
  }

  /** Booking stores `Scheduled` and touches no other row. */
  lemma BookKeepsStatusesKnown(s: DbState, patientId: Id, doctorId: Id, date: string, served: nat)
    requires AppointmentStatusesKnown(s)
    ensures AppointmentStatusesKnown(BookAppointmentEffect(s, patientId, doctorId, date, served).0)
  {
    var r := BookAppointmentEffect(s, patientId, doctorId, date, served);
    if r.1.Ok? {
      assert forall a :: a in r.0.appointments.rows ==> a in s.appointments.rows || a == r.1.value;
    }
  }

  /** Cancelling saves the found row as `Cancelled`. */
  lemma CancelKeepsStatusesKnown(s: DbState, id: Id, served: nat)
    requires AppointmentStatusesKnown(s)
    ensures AppointmentStatusesKnown(CancelAppointmentEffect(s, id, served).0)
  {
    if 0 < served && GetAppointmentByID(s, id).Ok? {
      SaveKeepsStatusesKnown(s, GetAppointmentByID(s, id).value.(status := StatusCancelled), 1 < served);
    }
  }

  /** Completing saves the found row as `Completed`; the consultation and
      the prescriptions leave the appointments alone. */
  lemma CompleteKeepsStatusesKnown(s: DbState, id: Id, diagnosis: string, notes: string,
                                   meds: seq<Medication>, clock: nat -> Instant, served: nat)
    requires AppointmentStatusesKnown(s)
    ensures AppointmentStatusesKnown(CompleteAppointmentEffect(s, id, diagnosis, notes, meds, clock, served).0)
  {
    if 0 < served && GetAppointmentByID(s, id).Ok? {
      SaveKeepsStatusesKnown(s, GetAppointmentByID(s, id).value.(status := StatusCompleted), 1 < served);
    }
  }

  /** The soft delete only sets `deleted`. */
  lemma DeleteKeepsStatusesKnown(s: DbState, id: Id, up: bool)
    requires AppointmentStatusesKnown(s)
    ensures AppointmentStatusesKnown(DeleteAppointmentEffect(s, id, up).0)
  {
    var after := DeleteAppointmentEffect(s, id, up).0.appointments.rows;
    forall x | x in after ensures IsAppointmentStatus(x.status) {
      var i :| 0 <= i < |after| && after[i] == x;
      assert x.status == s.appointments.rows[i].status;
      assert s.appointments.rows[i] in s.appointments.rows;
    }
  }

  /** A completion issues its prescriptions as `Issued`, one of the two
      statuses the comment on `Prescription.Status` names. */
  lemma IssuedStatusKnown(first: Id, consId: Id, meds: seq<Medication>, clock: nat -> Instant, k: nat)
    ensures forall p :: p in Issued(first, consId, meds, clock, k) ==> IsPrescriptionStatus(p.status)
  {
    var r := Issued(first, consId, meds, clock, k);
    forall p | p in r ensures IsPrescriptionStatus(p.status) {
      var i :| 0 <= i < |r| && r[i] == p;
    }
  }

  /** The status update stores whatever string it is given: nothing keeps
      a prescription's status among the two named values. */
  lemma PrescriptionStatusUnchecked(s: DbState, id: Id, i: nat)
    requires id != 0 && i < |s.prescriptions.rows| && s.prescriptions.rows[i].id == id
    ensures var t := UpdatePrescriptionStatusEffect(s, id, "Lost", 1).0;
      t.prescriptions.rows[i].status == "Lost" && !IsPrescriptionStatus(t.prescriptions.rows[i].status)
  {
    assert "Lost" != StatusIssued && "Lost" != StatusDispensed;
  }

  // ---- GetPatientHistory ---------------------------------------------------

  datatype History = History(appointments: seq<Appointment>, prescriptions: seq<Prescription>)

  /** `GetPatientHistory`: both lists of the patient, newest first, or the
      first error. */
  function GetPatientHistory(s: DbState, patientId: Id, served: nat): (r: Result<History, DbError>)
    ensures served < 2 ==> r == Err(Unavailable)
    ensures r.Ok? ==> forall a :: a in r.value.appointments <==>
      a in s.appointments.rows && !a.deleted && a.patientId == patientId
    ensures r.Ok? ==> forall p :: p in r.value.prescriptions <==>
      p in s.prescriptions.rows && OfPatient(s, patientId, p)
    ensures r.Ok? ==> SortedDesc(r.value.appointments, AppointmentDate)
    ensures r.Ok? ==> SortedDesc(r.value.prescriptions, PrescriptionCreated)
    ensures r.Ok? ==> r.value == History(GetAppointmentsByPatient(s, patientId), GetPrescriptionsByPatient(s, patientId))
    ensures served >= 2 ==> r.Ok?
  {
    if served < 1 then Err(Unavailable)
    else
      var appts := GetAppointmentsByPatient(s, patientId);
      if served < 2 then Err(Unavailable)
      else Ok(History(appts, GetPrescriptionsByPatient(s, patientId)))
  }
}
