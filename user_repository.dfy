/** `userRepository`: lookups and writes on the `users` and `patients`
    tables, over the same shared `Database` as the medical repository. */
module UserRepository {
  import opened Wrappers
  import opened Models
  import opened Tables
  import opened Store

  // ---- reads ---------------------------------------------------------------

  /** `FindByEmail`: the user with that email, or `ErrRecordNotFound`. */
  function FindByEmail(s: DbState, email: string): (r: Result<User, DbError>)
    ensures r.Ok? ==> r.value in s.users.rows && r.value.email == email
    ensures r.Err? <==> forall u :: u in s.users.rows ==> u.email != email
    ensures r.Err? ==> r.error == RecordNotFound
  {
    First(s.users.rows, (u: User) => u.email == email, UserId)
  }

  /** `FindByID`: the user with that key, or `ErrRecordNotFound`. */
  function FindByID(s: DbState, id: Id): (r: Result<User, DbError>)
    ensures r.Ok? ==> r.value in s.users.rows && r.value.id == id
    ensures r.Err? <==> forall u :: u in s.users.rows ==> u.id != id
    ensures r.Err? ==> r.error == RecordNotFound
  {
    First(s.users.rows, (u: User) => u.id == id, UserId)
  }

  /** `GetAllUsers` (no ORDER BY: the model keeps table order). */
  function GetAllUsers(s: DbState): (r: seq<User>)
    ensures |r| == |s.users.rows|
    ensures forall u :: u in r <==> u in s.users.rows
  {
    s.users.rows
  }

  /** In a valid store the email index makes `FindByEmail` exact: it finds
      the one stored user with that email. */
  lemma FindByEmailExact(s: DbState, i: nat)
    requires Valid(s) && i < |s.users.rows|
    ensures FindByEmail(s, s.users.rows[i].email) == Ok(s.users.rows[i])
  {
    var rows := s.users.rows;
    var r := FindByEmail(s, rows[i].email);
    var j :| 0 <= j < |rows| && rows[j] == r.value;
    if i != j {
      assert UserClash(rows[i], rows[j]);
    }
  }

  /** `FindByID` finds the one stored user with that key. */
  lemma FindByIDExact(s: DbState, i: nat)
    requires Valid(s) && i < |s.users.rows|
    ensures FindByID(s, s.users.rows[i].id) == Ok(s.users.rows[i])
  {
    var k := s.users.rows[i].id;
    FirstByKey(s.users.rows, (u: User) => u.id == k, UserId, k, i);
  }

  // ---- writes as functions of the tables -----------------------------------

  /** `CreateUser`: an insert checked against the key and both unique indexes. */
  function CreateUserEffect(s: DbState, u: User, up: bool): (r: (DbState, Result<User, DbError>))
    ensures !up ==> r == (s, Err(Unavailable))
    ensures up ==> r.0 == s.(users := Insert(s.users, u, UserId, UserWithId, UserClash).0)
    ensures up ==> r.1 == Insert(s.users, u, UserId, UserWithId, UserClash).1
    ensures Valid(s) ==> Valid(r.0)
    ensures Ahead(s) && u.id == 0 ==> Ahead(r.0)
  {
    if !up then (s, Err(Unavailable))
    else
      InsertKeepsKeys(s.users, u, UserId, UserWithId, UserClash);
      var p := Insert(s.users, u, UserId, UserWithId, UserClash);
      (s.(users := p.0), p.1)
  }

  /** `UpdateUser`: `Save` of the whole record. */
  function UpdateUserEffect(s: DbState, u: User, up: bool): (r: (DbState, Result<User, DbError>))
    ensures !up ==> r == (s, Err(Unavailable))
    ensures up ==> r.0 == s.(users := Save(s.users, u, UserId, UserWithId, UserClash).0)
    ensures up ==> r.1 == Save(s.users, u, UserId, UserWithId, UserClash).1
    ensures Valid(s) ==> Valid(r.0)
  {
    if !up then (s, Err(Unavailable))
    else
      SaveKeepsKeys(s.users, u, UserId, UserWithId, UserClash);
      var p := Save(s.users, u, UserId, UserWithId, UserClash);
      (s.(users := p.0), p.1)
  }

  function CreatePatientEffect(s: DbState, p: Patient, up: bool): (r: (DbState, Result<Patient, DbError>))
    ensures !up ==> r == (s, Err(Unavailable))
    ensures up ==> r.0 == s.(patients := Insert(s.patients, p, PatientId, PatientWithId, Unindexed).0)
    ensures up ==> r.1 == Insert(s.patients, p, PatientId, PatientWithId, Unindexed).1
    ensures Valid(s) ==> Valid(r.0)
  {
    if !up then (s, Err(Unavailable))
    else
      InsertKeepsKeys(s.patients, p, PatientId, PatientWithId, Unindexed);
      var q := Insert(s.patients, p, PatientId, PatientWithId, Unindexed);
      (s.(patients := q.0), q.1)
  }

  // ---- properties of the writes --------------------------------------------

  /** `CreateUser` of a new record is rejected exactly when some stored user
      already has its email or its Google id; otherwise the user is stored
      under the next sequence value. */
  lemma CreateUserOutcome(s: DbState, u: User)
    requires Valid(s) && Ahead(s) && u.id == 0
    ensures var r := CreateUserEffect(s, u, true);
      && (r.1.Err? <==> exists v :: v in s.users.rows && (v.email == u.email || v.googleId == u.googleId))
      && (r.1.Ok? ==> r.1.value == u.(id := s.users.next) && r.0.users.rows == s.users.rows + [r.1.value])
      && (r.1.Err? ==> r.0.users.rows == s.users.rows && r.1.error == DuplicateKey)
  {
    var k := s.users.next;
    assert !HasId(s.users.rows, UserId, k);
    var stored := UserWithId(u, k);
    if exists v :: v in s.users.rows && (v.email == u.email || v.googleId == u.googleId) {
      var v :| v in s.users.rows && (v.email == u.email || v.googleId == u.googleId);
      var i :| 0 <= i < |s.users.rows| && s.users.rows[i] == v;
      assert UserId(s.users.rows[i]) != k && UserClash(s.users.rows[i], stored);
    }
  }

  /** `UpdateUser` of a stored user's key replaces that row and no other,
      provided the new email and Google id are not another user's. */
  lemma UpdateUserReplaces(s: DbState, u: User, i: nat)
    requires Valid(s) && i < |s.users.rows| && s.users.rows[i].id == u.id
    requires forall v :: v in s.users.rows && v.id != u.id ==> v.email != u.email && v.googleId != u.googleId
    ensures var r := UpdateUserEffect(s, u, true);
      && r.1 == Ok(u)
      && |r.0.users.rows| == |s.users.rows|
      && r.0.users.rows[i] == u
      && (forall j :: 0 <= j < |s.users.rows| && j != i ==> r.0.users.rows[j] == s.users.rows[j])
  {
    assert HasId(s.users.rows, UserId, u.id);
    forall j | 0 <= j < |s.users.rows| && j != i
      ensures s.users.rows[j].id != u.id
    {
    }
  }

  // ---- writes on the database ----------------------------------------------

  method CreateUser(db: Database, u: User, up: bool) returns (r: Result<User, DbError>)
    modifies db`users
    ensures (db.State(), r) == CreateUserEffect(old(db.State()), u, up)
  {
    var e := CreateUserEffect(db.State(), u, up);
    db.users, r := e.0.users, e.1;
  }

  method UpdateUser(db: Database, u: User, up: bool) returns (r: Result<User, DbError>)
    modifies db`users
    ensures (db.State(), r) == UpdateUserEffect(old(db.State()), u, up)
  {
    var e := UpdateUserEffect(db.State(), u, up);
    db.users, r := e.0.users, e.1;
  }

  method CreatePatient(db: Database, p: Patient, up: bool) returns (r: Result<Patient, DbError>)
    modifies db`patients
    ensures (db.State(), r) == CreatePatientEffect(old(db.State()), p, up)
  {
    var e := CreatePatientEffect(db.State(), p, up);
    db.patients, r := e.0.patients, e.1;
  }
}
