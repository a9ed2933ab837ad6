/** `MedicalHandler`: the appointment and prescription endpoints. Path ids
    go through `strconv.ParseUint(s, 10, 32)` with the error dropped; a
    service error answers 500 with an error body, whose text the model
    does not carry. A request body that does not bind is `None`. */
module MedicalHandler {
  import opened Wrappers
  import opened Strings
  import opened GoTime
  import opened Models
  import opened Store
  import opened MedicalRepository
  import opened MedicalService
  import opened Ordering

  const StatusOK: nat := 200
  const StatusCreated: nat := 201
  const StatusBadRequest: nat := 400
  const StatusInternalServerError: nat := 500

  /** A Go slice as `encoding/json` writes it: a nil slice is `null`, any
      other slice, empty or not, is an array. */
  datatype JsonList<T> = Null | Items(items: seq<T>)

  function Elements<T>(l: JsonList<T>): seq<T>
  {
    if l.Null? then [] else l.items
  }

  /** `append(a, b...)`: appending nothing to a nil slice leaves it nil. */
  function Append<T>(a: JsonList<T>, b: seq<T>): (r: JsonList<T>)
    ensures Elements(r) == Elements(a) + b
    ensures r.Null? <==> a.Null? && b == []
  {
    if a.Null? && b == [] then Null else Items(Elements(a) + b)
  }

  datatype Body<T> = Data(value: T) | Message(text: string) | Failure
  datatype Response<T> = Response(status: nat, body: Body<T>)

  /** The answer of a handler whose service call ends in `r`. */
  function Answer<T, U>(r: Result<T, U>, okStatus: nat, message: string): (resp: Response<T>)
    ensures resp.status == (if r.Ok? then okStatus else StatusInternalServerError)
    ensures r.Err? <==> resp.body == Failure
  {
    if r.Ok? then Response(okStatus, Message(message)) else Response(StatusInternalServerError, Failure)
  }

  /** The id a handler takes from its `:id` path parameter. */
  function PathId(param: string): (id: Id)
    ensures id <= MaxUint32
    ensures param == [] || !IsDigit(param[0]) ==> id == 0
  {
    ParseUint32OrDefault(param)
  }

  /** Every id a client can write in decimal is the id the handler uses. */
  lemma PathIdRoundTrip(id: Id)
    requires id <= MaxUint32
    ensures PathId(NatToString(id)) == id
  {
    ParseIdRoundTrip(id);
  }

  // ---- GetMyAppointments ---------------------------------------------------

  /** The role projection of `GetMyAppointments`. The doctor query is
      statement 0 of a doctor's call and the patient query the next one. */
  function MyAppointments(s: DbState, userId: Id, role: string, served: nat): (resp: Response<JsonList<Appointment>>)
  {
    if role == RoleAdmin then
      if 0 < served then Response(StatusOK, Data(Items(GetAllAppointments(s))))
      else Response(StatusInternalServerError, Failure)
    else
      var k := if role == RoleDoctor then 1 else 0;
      var doctorFailed := role == RoleDoctor && served == 0;
      var mine: JsonList<Appointment> := if role == RoleDoctor && 0 < served then Items(GetAppointmentsByDoctor(s, userId)) else Null;
      var all := if k < served then Append(mine, GetAppointmentsByPatient(s, userId)) else mine;
      if doctorFailed then Response(StatusInternalServerError, Failure)
      else Response(StatusOK, Data(all))
  }

  method GetMyAppointments(s: DbState, userId: Id, role: string, served: nat)
    returns (resp: Response<JsonList<Appointment>>)
    ensures resp == MyAppointments(s, userId, role, served)
  {
    var appts: JsonList<Appointment> := Null;
    var err: Option<DbError> := None;
    var statement := 0;
    if role == RoleAdmin {
      if 0 < served {
        appts := Items(GetAllAppointments(s));
      } else {
        err := Some(Unavailable);
      }
    } else {
      if role == RoleDoctor {
        if 0 < served {
          appts := Items(GetAppointmentsByDoctor(s, userId));
        } else {
          err := Some(Unavailable);
        }
        statement := 1;
      }
      if statement < served {
        appts := Append(appts, GetAppointmentsByPatient(s, userId));
      }
    }
    if err.Some? {
      return Response(StatusInternalServerError, Failure);
    }
    resp := Response(StatusOK, Data(appts));
  }

  /** An admin sees exactly every live appointment, latest first. */
  lemma AdminSeesAll(s: DbState, userId: Id, served: nat)
    requires served >= 1
    ensures MyAppointments(s, userId, RoleAdmin, served) == Response(StatusOK, Data(Items(GetAllAppointments(s))))
  {
  }

  /** A doctor sees their doctor list followed by their patient list; when
      the patient query fails only the doctor list; when the doctor query
      fails the answer is 500. */
  lemma DoctorSeesBoth(s: DbState, userId: Id, served: nat)
    ensures var resp := MyAppointments(s, userId, RoleDoctor, served);
      && (served >= 2 ==> resp == Response(StatusOK, Data(Items(GetAppointmentsByDoctor(s, userId) + GetAppointmentsByPatient(s, userId)))))
      && (served == 1 ==> resp == Response(StatusOK, Data(Items(GetAppointmentsByDoctor(s, userId)))))
      && (served == 0 ==> resp == Response(StatusInternalServerError, Failure))
  {
  }

  /** Any other role sees its patient list only, as `null` when it is
      empty; a failed patient query is swallowed into `null` with 200. */
  lemma OthersSeePatientList(s: DbState, userId: Id, role: string, served: nat)
    requires role != RoleAdmin && role != RoleDoctor
    ensures var resp := MyAppointments(s, userId, role, served);
      var mine := GetAppointmentsByPatient(s, userId);
      && resp.status == StatusOK
      && (served >= 1 ==> resp.body == Data(if mine == [] then Null else Items(mine)))
      && (served == 0 ==> resp.body == Data(Null))
  {
    assert [] + GetAppointmentsByPatient(s, userId) == GetAppointmentsByPatient(s, userId);
  }

  // ---- GetDoctorAvailability -----------------------------------------------

  datatype Slot = Slot(date: string, status: string)

  /** The availability entry of one appointment. */
  function SlotOf(a: Appointment): Slot
  {
    Slot(FormatRFC3339UTC(a.appointmentDate), a.status)
  }

  /** The availability feed: one entry per appointment of the doctor, in
      the query's order, whatever its status; `null` when there are none. */
  function Availability(appts: seq<Appointment>): (r: JsonList<Slot>)
    ensures r.Null? <==> appts == []
    ensures |Elements(r)| == |appts|
    ensures forall i :: 0 <= i < |appts| ==> Elements(r)[i] == SlotOf(appts[i])
  {
    if appts == [] then Null else Items(seq(|appts|, i requires 0 <= i < |appts| => SlotOf(appts[i])))
  }

  /** The append loop that builds the feed. */
  method BuildAvailability(appts: seq<Appointment>) returns (availability: JsonList<Slot>)
    ensures availability == Availability(appts)
  {
    availability := Null;
    for i := 0 to |appts|
      invariant availability == Availability(appts[..i])
    {
      AvailabilityStep(appts, i);
      availability := Append(availability, [SlotOf(appts[i])]);
    }
    assert appts[..|appts|] == appts;
  }

  lemma AvailabilityStep(appts: seq<Appointment>, i: nat)
    requires i < |appts|
    ensures Append(Availability(appts[..i]), [SlotOf(appts[i])]) == Availability(appts[..i + 1])
  {
    assert appts[..i + 1] == appts[..i] + [appts[i]];
    AvailabilityPush(appts[..i], appts[i]);
  }

  lemma AvailabilityPush(pre: seq<Appointment>, a: Appointment)
    ensures Append(Availability(pre), [SlotOf(a)]) == Availability(pre + [a])
  {
    var before, after := Elements(Availability(pre)), Elements(Availability(pre + [a]));
    assert |after| == |before| + 1;
    forall k | 0 <= k < |after|
      ensures after[k] == (before + [SlotOf(a)])[k]
    {
      if k < |pre| {
        assert (pre + [a])[k] == pre[k];
      }
    }
    assert after == before + [SlotOf(a)];
  }

  method GetDoctorAvailability(s: DbState, param: string, served: nat) returns (resp: Response<JsonList<Slot>>)
    ensures served == 0 ==> resp == Response(StatusInternalServerError, Failure)
    ensures served > 0 ==> resp == Response(StatusOK, Data(Availability(GetAppointmentsByDoctor(s, PathId(param)))))
  {
    var docId := PathId(param);
    if served == 0 {
      return Response(StatusInternalServerError, Failure);
    }
    var availability := BuildAvailability(GetAppointmentsByDoctor(s, docId));
    resp := Response(StatusOK, Data(availability));
  }

  /** Each appointment has its entry in the feed and each entry comes from
      an appointment. */
  lemma AvailabilityOfEach(appts: seq<Appointment>)
    ensures forall a :: a in appts ==> SlotOf(a) in Elements(Availability(appts))
    ensures forall e :: e in Elements(Availability(appts)) ==> exists a :: a in appts && e == SlotOf(a)
  {
    var feed := Elements(Availability(appts));
    forall a | a in appts ensures SlotOf(a) in feed {
      var i :| 0 <= i < |appts| && appts[i] == a;
      assert feed[i] == SlotOf(a);
    }
    forall e | e in feed ensures exists a :: a in appts && e == SlotOf(a) {
      var i :| 0 <= i < |feed| && feed[i] == e;
      assert appts[i] in appts;
    }
  }

  /** The feed applies no status filter: every live appointment of the
      doctor, cancelled and completed ones included, has its entry, and
      every entry is such an appointment's. */
  lemma AvailabilityCoversAll(s: DbState, doctorId: Id)
    ensures var feed := Elements(Availability(GetAppointmentsByDoctor(s, doctorId)));
      && (forall a :: a in s.appointments.rows && !a.deleted && a.doctorId == doctorId ==> SlotOf(a) in feed)
      && (forall e :: e in feed ==> exists a :: a in s.appointments.rows && !a.deleted && a.doctorId == doctorId && e == SlotOf(a))
  {
    AvailabilityOfEach(GetAppointmentsByDoctor(s, doctorId));
  }

  /** A feed date, read back as RFC 3339, is the appointment's instant to
      the second. */
  lemma SlotDateParses(a: Appointment)
    requires 0 <= YearOf(a.appointmentDate) <= 9999
    ensures ParseRFC3339(SlotOf(a).date) == Some(WholeSeconds(a.appointmentDate))
  {
    FormatParseRoundTrip(a.appointmentDate);
  }

  // ---- endpoints that change the store -------------------------------------

  datatype BookingRequest = BookingRequest(doctorId: Id, date: string)

  /** `CreateAppointment`: the patient is the authenticated user, never a
      field of the body. */
  method CreateAppointment(db: Database, userId: Id, body: Option<BookingRequest>, served: nat)
    returns (resp: Response<Appointment>)
    modifies db`appointments
    ensures body.None? ==> resp == Response(StatusBadRequest, Failure) && db.State() == old(db.State())
    ensures body.Some? ==>
      var e := BookAppointmentEffect(old(db.State()), userId, body.value.doctorId, body.value.date, served);
      && db.State() == e.0
      && resp == (if e.1.Ok? then Response(StatusCreated, Data(e.1.value)) else Response(StatusInternalServerError, Failure))
  {
    if body.None? {
      return Response(StatusBadRequest, Failure);
    }
    var r := BookAppointment(db, userId, body.value.doctorId, body.value.date, served);
    if r.Err? {
      return Response(StatusInternalServerError, Failure);
    }
    resp := Response(StatusCreated, Data(r.value));
  }

  /** A successful booking through the endpoint stores an appointment of
      the authenticated user. */
  lemma BookedForCaller(s: DbState, userId: Id, req: BookingRequest, served: nat)
    ensures var e := BookAppointmentEffect(s, userId, req.doctorId, req.date, served);
      e.1.Ok? ==> e.1.value.patientId == userId && e.1.value in e.0.appointments.rows
  {
  }

  datatype CompletionRequest = CompletionRequest(diagnosis: string, notes: string, medications: seq<Medication>)

  method CompleteAppointment(db: Database, param: string, body: Option<CompletionRequest>, clock: nat -> Instant, served: nat)
    returns (resp: Response<()>)
    modifies db`appointments, db`consultations, db`prescriptions
    ensures body.None? ==> resp == Response(StatusBadRequest, Failure) && db.State() == old(db.State())
    ensures body.Some? ==>
      var e := CompleteAppointmentEffect(old(db.State()), PathId(param), body.value.diagnosis,
                                         body.value.notes, body.value.medications, clock, served);
      db.State() == e.0 && resp == Answer(e.1, StatusOK, "Appointment completed successfully")
  {
    var id := PathId(param);
    if body.None? {
      return Response(StatusBadRequest, Failure);
    }
    var r := MedicalService.CompleteAppointment(db, id, body.value.diagnosis, body.value.notes,
                                                body.value.medications, clock, served);
    resp := Answer(r, StatusOK, "Appointment completed successfully");
  }

  method CancelAppointment(db: Database, param: string, served: nat) returns (resp: Response<()>)
    modifies db`appointments
    ensures var e := CancelAppointmentEffect(old(db.State()), PathId(param), served);
      db.State() == e.0 && resp == Answer(e.1, StatusOK, "Appointment cancelled")
  {
    var r := MedicalService.CancelAppointment(db, PathId(param), served);
    resp := Answer(r, StatusOK, "Appointment cancelled");
  }

  method DeleteAppointment(db: Database, param: string, served: nat) returns (resp: Response<()>)
    modifies db`appointments
    ensures var e := DeleteAppointmentEffect(old(db.State()), PathId(param), 0 < served);
      db.State() == e.0 && resp == Answer(e.1, StatusOK, "Appointment deleted")
  {
    var r := MedicalService.DeleteAppointment(db, PathId(param), served);
    resp := Answer(r, StatusOK, "Appointment deleted");
  }

  /** A path id that is not a number cancels appointment 0, which no valid
      store holds: the request fails with 500 and nothing changes. */
  lemma NonNumericCancelFails(s: DbState, param: string, served: nat)
    requires Valid(s) && served >= 1 && (param == [] || !IsDigit(param[0]))
    ensures CancelAppointmentEffect(s, PathId(param), served) == (s, Err(RecordNotFound))
    ensures Answer(CancelAppointmentEffect(s, PathId(param), served).1, StatusOK, "Appointment cancelled").status
         == StatusInternalServerError
  {
    assert PathId(param) == 0;
    assert GetAppointmentByID(s, 0).Err? by {
      forall a | a in s.appointments.rows ensures a.id != 0 {
        var i :| 0 <= i < |s.appointments.rows| && s.appointments.rows[i] == a;
        assert AppointmentId(s.appointments.rows[i]) != 0;
      }
    }
  }

  datatype StatusRequest = StatusRequest(status: string)

  method UpdatePrescription(db: Database, param: string, body: Option<StatusRequest>, served: nat)
    returns (resp: Response<()>)
    modifies db`prescriptions
    ensures body.None? ==> resp == Response(StatusBadRequest, Failure) && db.State() == old(db.State())
    ensures body.Some? ==>
      var e := UpdatePrescriptionStatusEffect(old(db.State()), PathId(param), body.value.status, served);
      db.State() == e.0 && resp == Answer(e.1, StatusOK, "Prescription updated")
  {
    var id := PathId(param);
    if body.None? {
      return Response(StatusBadRequest, Failure);
    }
    var r := UpdatePrescriptionStatus(db, id, body.value.status, served);
    resp := Answer(r, StatusOK, "Prescription updated");
  }

  // ---- read-only endpoints -------------------------------------------------

  /** `GetMyPrescriptions`: the caller's prescriptions, newest first. */
  function MyPrescriptions(s: DbState, userId: Id, served: nat): (resp: Response<seq<Prescription>>)
    ensures served == 0 <==> resp == Response(StatusInternalServerError, Failure)
    ensures served > 0 ==> resp.status == StatusOK && resp.body.Data?
    ensures served > 0 && resp.body.Data? ==>
      forall p :: p in resp.body.value <==> p in s.prescriptions.rows && OfPatient(s, userId, p)
    ensures served > 0 && resp.body.Data? ==>
      SortedDesc(resp.body.value, PrescriptionCreated) && resp.body.value == GetPrescriptionsByPatient(s, userId)
  {
    if served == 0 then Response(StatusInternalServerError, Failure)
    else Response(StatusOK, Data(GetPrescriptionsByPatient(s, userId)))
  }

  function PatientHistory(s: DbState, param: string, served: nat): (resp: Response<History>)
    ensures served < 2 <==> resp == Response(StatusInternalServerError, Failure)
    ensures served >= 2 ==> resp.status == StatusOK && resp.body.Data?
    ensures served >= 2 && resp.body.Data? ==> resp.body.value == GetPatientHistory(s, PathId(param), served).value
  {
    match GetPatientHistory(s, PathId(param), served)
    case Ok(h) => Response(StatusOK, Data(h))
    case Err(_) => Response(StatusInternalServerError, Failure)
  }
}
