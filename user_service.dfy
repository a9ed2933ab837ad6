/** `userService`: role changes with profile provisioning, and the user
    record behind a Google sign-in. As in the medical service, `served`
    is the number of database statements of the call that the database
    answers. */
module UserService {
  import opened Wrappers
  import opened Models
  import opened Tables
  import opened Store
  import opened MedicalRepository
  import opened UserRepository
  import opened Auth

  /** The specialization of a doctor profile made by a role change. */
  const PendingSpecialization: string := "Pending..."

  /** Every doctor and patient profile is keyed by the id of a stored user. */
  predicate ProfilesOwned(s: DbState)
  {
    && (forall d :: d in s.doctors.rows ==> exists u :: u in s.users.rows && u.id == d.id)
    && (forall p :: p in s.patients.rows ==> exists u :: u in s.users.rows && u.id == p.id)
  }

  function Unit<T>(r: Result<T, DbError>): (u: Result<(), DbError>)
    ensures u.Ok? <==> r.Ok?
    ensures r.Err? ==> u.error == r.error
  {
    if r.Ok? then Ok(()) else Err(r.error)
  }

  // ---- UpdateUserRole ------------------------------------------------------

  /** Statement 0 finds the user, 1 saves the new role, 2 looks for the
      profile the role needs and 3 creates it. Any failed profile lookup,
      not only a missing row, leads to the create. */
  function UpdateUserRoleEffect(s: DbState, id: Id, role: string, served: nat): (r: (DbState, Result<(), DbError>))
    ensures served == 0 ==> r == (s, Err(Unavailable))
    ensures served > 0 && FindByID(s, id).Err? ==> r == (s, Err(RecordNotFound))
    ensures r.0.appointments == s.appointments && r.0.consultations == s.consultations
         && r.0.prescriptions == s.prescriptions
    ensures role != RoleDoctor ==> r.0.doctors == s.doctors
    ensures role != RolePatient ==> r.0.patients == s.patients
    ensures Valid(s) ==> Valid(r.0)
  {
    var found := if 0 < served then FindByID(s, id) else Err(Unavailable);
    if found.Err? then (s, Err(found.error))
    else
      var u := UpdateUserEffect(s, found.value.(role := role), 1 < served);
      if u.1.Err? then (u.0, Err(u.1.error))
      else if role == RoleDoctor then
        var look := if 2 < served then GetDoctorByID(u.0, id) else Err(Unavailable);
        if look.Ok? then (u.0, Ok(()))
        else
          var c := CreateDoctorEffect(u.0, Doctor(id, 0, PendingSpecialization), 3 < served);
          (c.0, Unit(c.1))
      else if role == RolePatient then
        var look := if 2 < served then GetPatientByID(u.0, id) else Err(Unavailable);
        if look.Ok? then (u.0, Ok(()))
        else
          var c := CreatePatientEffect(u.0, Patient(id, None, ""), 3 < served);
          (c.0, Unit(c.1))
      else (u.0, Ok(()))
  }

  /** Saving a stored user under its own key with its email and Google id
      unchanged replaces that row and nothing else. */
  lemma SaveStoredUser(s: DbState, i: nat, u: User)
    requires Valid(s) && i < |s.users.rows|
    requires u.id == s.users.rows[i].id && u.email == s.users.rows[i].email
          && u.googleId == s.users.rows[i].googleId
    ensures var r := UpdateUserEffect(s, u, true);
      && r.1 == Ok(u)
      && |r.0.users.rows| == |s.users.rows|
      && r.0.users.rows[i] == u
      && (forall j :: 0 <= j < |s.users.rows| && j != i ==> r.0.users.rows[j] == s.users.rows[j])
      && r.0.users.next == s.users.next
  {
    forall v | v in s.users.rows && v.id != u.id
      ensures v.email != u.email && v.googleId != u.googleId
    {
      var j :| 0 <= j < |s.users.rows| && s.users.rows[j] == v;
      assert j != i;
      assert !UserClash(s.users.rows[j], s.users.rows[i]);
    }
    UpdateUserReplaces(s, u, i);
  }

  /** A role change of the stored user at row `i`, once the new role is
      saved (two statements served): that row's role is the new one and
      every other user row is as it was. */
  lemma UpdateUserRoleSetsRole(s: DbState, id: Id, role: string, served: nat, i: nat)
    requires Valid(s) && i < |s.users.rows| && s.users.rows[i].id == id && served >= 2
    ensures var r := UpdateUserRoleEffect(s, id, role, served);
      && |r.0.users.rows| == |s.users.rows|
      && r.0.users.rows[i] == s.users.rows[i].(role := role)
      && (forall j :: 0 <= j < |s.users.rows| && j != i ==> r.0.users.rows[j] == s.users.rows[j])
      && (role != RoleDoctor && role != RolePatient ==> r.1 == Ok(()))
  {
    FindByIDExact(s, i);
    SaveStoredUser(s, i, s.users.rows[i].(role := role));
  }

  /** Becoming a doctor: an existing doctor profile is left alone; a missing
      one is created as `Doctor{ID: id, Specialization: "Pending..."}` when
      the database serves all four statements. */
  lemma DoctorRoleProfile(s: DbState, id: Id, served: nat, i: nat)
    requires Valid(s) && i < |s.users.rows| && s.users.rows[i].id == id && served >= 3
    ensures var r := UpdateUserRoleEffect(s, id, RoleDoctor, served);
      && ((exists d :: d in s.doctors.rows && d.id == id) ==> r == (r.0, Ok(())) && r.0.doctors == s.doctors)
      && ((forall d :: d in s.doctors.rows ==> d.id != id) ==>
            (served >= 4 <==> r.1.Ok?)
            && (served >= 4 ==> r.0.doctors.rows == s.doctors.rows + [Doctor(id, 0, PendingSpecialization)])
            && (served == 3 ==> r.0.doctors == s.doctors))
  {
    FindByIDExact(s, i);
    SaveStoredUser(s, i, s.users.rows[i].(role := RoleDoctor));
    if forall d :: d in s.doctors.rows ==> d.id != id {
      assert !HasId(s.doctors.rows, DoctorId, id);
    }
  }

  /** Becoming a patient: likewise with `Patient{ID: id}`. */
  lemma PatientRoleProfile(s: DbState, id: Id, served: nat, i: nat)
    requires Valid(s) && i < |s.users.rows| && s.users.rows[i].id == id && served >= 3
    ensures var r := UpdateUserRoleEffect(s, id, RolePatient, served);
      && ((exists p :: p in s.patients.rows && p.id == id) ==> r == (r.0, Ok(())) && r.0.patients == s.patients)
      && ((forall p :: p in s.patients.rows ==> p.id != id) ==>
            (served >= 4 <==> r.1.Ok?)
            && (served >= 4 ==> r.0.patients.rows == s.patients.rows + [Patient(id, None, "")])
            && (served == 3 ==> r.0.patients == s.patients))
  {
    FindByIDExact(s, i);
    SaveStoredUser(s, i, s.users.rows[i].(role := RolePatient));
    if forall p :: p in s.patients.rows ==> p.id != id {
      assert !HasId(s.patients.rows, PatientId, id);
    }
  }

  /** Ownership survives a step that keeps every user key and adds only
      profiles keyed `k`, a key some user of the new state has. */
  lemma OwnershipCarried(s: DbState, t: DbState, k: Id)
    requires ProfilesOwned(s)
    requires forall u :: u in s.users.rows ==> exists v :: v in t.users.rows && v.id == u.id
    requires exists v :: v in t.users.rows && v.id == k
    requires forall d :: d in t.doctors.rows ==> d in s.doctors.rows || d.id == k
    requires forall p :: p in t.patients.rows ==> p in s.patients.rows || p.id == k
    ensures ProfilesOwned(t)
  {
    forall d | d in t.doctors.rows ensures exists v :: v in t.users.rows && v.id == d.id {
      if d.id != k {
        var u :| u in s.users.rows && u.id == d.id;
      }
    }
    forall p | p in t.patients.rows ensures exists v :: v in t.users.rows && v.id == p.id {
      if p.id != k {
        var u :| u in s.users.rows && u.id == p.id;
      }
    }
  }

  /** The only profiles a role change adds are keyed by the user's id. */
  lemma UpdateUserRoleAddsOnly(s: DbState, id: Id, role: string, served: nat)
    ensures var r := UpdateUserRoleEffect(s, id, role, served);
      && (forall d :: d in r.0.doctors.rows ==> d in s.doctors.rows || d.id == id)
      && (forall p :: p in r.0.patients.rows ==> p in s.patients.rows || p.id == id)
  {
  }

  /** A role change only ever creates a profile for the user it found, so
      every profile keeps an owning user. */
  lemma UpdateUserRoleKeepsOwnership(s: DbState, id: Id, role: string, served: nat)
    requires Valid(s) && ProfilesOwned(s)
    ensures ProfilesOwned(UpdateUserRoleEffect(s, id, role, served).0)
  {
    var r := UpdateUserRoleEffect(s, id, role, served);
    if served >= 2 && FindByID(s, id).Ok? {
      var rows := s.users.rows;
      var i :| 0 <= i < |rows| && rows[i] == FindByID(s, id).value;
      SaveStoredUser(s, i, rows[i].(role := role));
      assert r.0.users == UpdateUserEffect(s, rows[i].(role := role), true).0.users;
      assert r.0.users.rows[i].id == id && r.0.users.rows[i] in r.0.users.rows;
      forall x | x in rows ensures exists v :: v in r.0.users.rows && v.id == x.id {
        var j :| 0 <= j < |rows| && rows[j] == x;
        assert r.0.users.rows[j].id == x.id;
      }
      UpdateUserRoleAddsOnly(s, id, role, served);
      OwnershipCarried(s, r.0, id);
    }
  }

  method UpdateUserRole(db: Database, id: Id, role: string, served: nat) returns (r: Result<(), DbError>)
    modifies db`users, db`doctors, db`patients
    ensures (db.State(), r) == UpdateUserRoleEffect(old(db.State()), id, role, served)
  {
    var found := if 0 < served then FindByID(db.State(), id) else Err(Unavailable);
    if found.Err? {
      return Err(found.error);
    }
    var user := found.value;
    user := user.(role := role);
    var u := UpdateUser(db, user, 1 < served);
    if u.Err? {
      return Err(u.error);
    }
    if role == RoleDoctor {
      var look := if 2 < served then GetDoctorByID(db.State(), id) else Err(Unavailable);
      if look.Err? {
        var c := CreateDoctor(db, Doctor(id, 0, PendingSpecialization), 3 < served);
        return Unit(c);
      }
    } else if role == RolePatient {
      var look := if 2 < served then GetPatientByID(db.State(), id) else Err(Unavailable);
      if look.Err? {
        var c := CreatePatient(db, Patient(id, None, ""), 3 < served);
        return Unit(c);
      }
    }
    r := Ok(());
  }

  // ---- GetOrCreateUserByClaims ---------------------------------------------

  /** The stored user after a repeat sign-in: a non-empty claimed picture or
      name replaces the stored one; nothing else changes. */
  function RefreshProfile(u: User, c: GoogleClaims): (r: User)
    ensures r == u.(picture := r.picture, name := r.name)
    ensures r.picture == if c.picture != "" then c.picture else u.picture
    ensures r.name == if c.name != "" then c.name else u.name
  {
    var withPicture := if u.picture != c.picture && c.picture != "" then u.(picture := c.picture) else u;
    if withPicture.name != c.name && c.name != "" then withPicture.(name := c.name) else withPicture
  }

  /** The record a first sign-in creates: an admin carrying the claims. */
  function FirstLoginUser(c: GoogleClaims): (u: User)
    ensures u.id == 0 && u.role == RoleAdmin
    ensures u.email == c.email && u.googleId == c.googleId && u.name == c.name && u.picture == c.picture
  {
    User(0, c.email, c.googleId, c.name, c.picture, RoleAdmin)
  }

  /** Statement 0 looks the email up; a repeat sign-in saves (statement 1)
      only when the profile changed; a first sign-in creates `newUser`
      (statement 1) and a patient record with its key (statement 2). */
  function SignInEffect(s: DbState, c: GoogleClaims, newUser: User, served: nat): (r: (DbState, Result<User, DbError>))
    requires newUser.id == 0
    ensures served == 0 ==> r == (s, Err(Unavailable))
    ensures r.0.doctors == s.doctors && r.0.appointments == s.appointments
         && r.0.consultations == s.consultations && r.0.prescriptions == s.prescriptions
    ensures Valid(s) ==> Valid(r.0)
  {
    var found := if 0 < served then FindByEmail(s, c.email) else Err(Unavailable);
    if found.Ok? then
      var user := RefreshProfile(found.value, c);
      if user == found.value then (s, Ok(user))
      else
        var u := UpdateUserEffect(s, user, 1 < served);
        (u.0, if u.1.Ok? then Ok(user) else Err(u.1.error))
    else if found.error == RecordNotFound then
      var n := CreateUserEffect(s, newUser, 1 < served);
      if n.1.Err? then (n.0, Err(n.1.error))
      else
        var p := CreatePatientEffect(n.0, Patient(n.1.value.id, None, ""), 2 < served);
        (p.0, if p.1.Ok? then Ok(n.1.value) else Err(p.1.error))
    else (s, Err(found.error))
  }

  /** `GetOrCreateUserByClaims`, with the new user's Google id stored. */
  function GetOrCreateUserByClaimsEffect(s: DbState, c: GoogleClaims, served: nat): (r: (DbState, Result<User, DbError>))
    ensures served == 0 ==> r == (s, Err(Unavailable))
    ensures Valid(s) ==> Valid(r.0)
  {
    SignInEffect(s, c, FirstLoginUser(c), served)
  }

  /** A repeat sign-in returns the refreshed profile, writes nothing when
      the claims bring no change, and otherwise replaces just that user's
      row. */
  lemma RepeatSignIn(s: DbState, c: GoogleClaims, served: nat, i: nat)
    requires Valid(s) && i < |s.users.rows| && s.users.rows[i].email == c.email && served >= 2
    ensures var r := GetOrCreateUserByClaimsEffect(s, c, served);
      var refreshed := RefreshProfile(s.users.rows[i], c);
      && r.1 == Ok(refreshed)
      && (refreshed == s.users.rows[i] ==> r.0 == s)
      && |r.0.users.rows| == |s.users.rows|
      && r.0.users.rows[i] == refreshed
      && (forall j :: 0 <= j < |s.users.rows| && j != i ==> r.0.users.rows[j] == s.users.rows[j])
      && r.0.patients == s.patients
  {
    FindByEmailExact(s, i);
    SaveStoredUser(s, i, RefreshProfile(s.users.rows[i], c));
  }

  /** A first sign-in with an email and Google id nobody has yet creates
      exactly one admin user under the next key and a patient record with
      the same key. */
  lemma FirstSignIn(s: DbState, c: GoogleClaims, served: nat)
    requires Valid(s) && Ahead(s) && ProfilesOwned(s) && served >= 3
    requires forall v :: v in s.users.rows ==> v.email != c.email && v.googleId != c.googleId
    ensures var r := GetOrCreateUserByClaimsEffect(s, c, served);
      var k := s.users.next;
      && r.1 == Ok(FirstLoginUser(c).(id := k))
      && r.0.users.rows == s.users.rows + [FirstLoginUser(c).(id := k)]
      && r.0.patients.rows == s.patients.rows + [Patient(k, None, "")]
      && r.0.users.next == k + 1
      && ProfilesOwned(r.0) && Ahead(r.0)
  {
    var k := s.users.next;
    CreateUserOutcome(s, FirstLoginUser(c));
    var n := CreateUserEffect(s, FirstLoginUser(c), true);
    forall p | p in s.patients.rows ensures p.id != k {
      var u :| u in s.users.rows && u.id == p.id;
      var j :| 0 <= j < |s.users.rows| && s.users.rows[j] == u;
      assert UserId(s.users.rows[j]) < k;
    }
    assert !HasId(s.patients.rows, PatientId, k);
    var r := GetOrCreateUserByClaimsEffect(s, c, served);
    var added := FirstLoginUser(c).(id := k);
    assert added in r.0.users.rows;
    forall d | d in r.0.doctors.rows ensures exists u :: u in r.0.users.rows && u.id == d.id {
      var u :| u in s.users.rows && u.id == d.id;
      assert u in r.0.users.rows;
    }
    forall p | p in r.0.patients.rows ensures exists u :: u in r.0.users.rows && u.id == p.id {
      if p != Patient(k, None, "") {
        var u :| u in s.users.rows && u.id == p.id;
        assert u in r.0.users.rows;
      }
    }
  }

  method GetOrCreateUserByClaims(db: Database, c: GoogleClaims, served: nat) returns (r: Result<User, DbError>)
    modifies db`users, db`patients
    ensures (db.State(), r) == GetOrCreateUserByClaimsEffect(old(db.State()), c, served)
  {
    var found := if 0 < served then FindByEmail(db.State(), c.email) else Err(Unavailable);
    if found.Ok? {
      var user := found.value;
      var updated := false;
      if user.picture != c.picture && c.picture != "" {
        user := user.(picture := c.picture);
        updated := true;
      }
      if user.name != c.name && c.name != "" {
        user := user.(name := c.name);
        updated := true;
      }
      assert updated <==> user != found.value;
      if updated {
        var u := UpdateUser(db, user, 1 < served);
        if u.Err? {
          return Err(u.error);
        }
      }
      return Ok(user);
    }
    if found.error == RecordNotFound {
      var newUser := FirstLoginUser(c);
      var n := CreateUser(db, newUser, 1 < served);
      if n.Err? {
        return Err(n.error);
      }
      newUser := n.value;
      var p := CreatePatient(db, Patient(newUser.id, None, ""), 2 < served);
      if p.Err? {
        return Err(p.error);
      }
      return Ok(newUser);
    }
    r := Err(found.error);
  }

  // ---- the sign-in as written ----------------------------------------------

  /** The record the source's first sign-in actually builds: the Google id
      is left empty. */
  function FirstLoginUserAsWritten(c: GoogleClaims): (u: User)
    ensures u == FirstLoginUser(c).(googleId := "")
  {
    User(0, c.email, "", c.name, c.picture, RoleAdmin)
  }

  function GetOrCreateUserByClaimsAsWritten(s: DbState, c: GoogleClaims, served: nat): (r: (DbState, Result<User, DbError>))
    ensures served == 0 ==> r == (s, Err(Unavailable))
    ensures Valid(s) ==> Valid(r.0)
  {
    SignInEffect(s, c, FirstLoginUserAsWritten(c), served)
  }

  /** As written, once any user is stored with an empty Google id (every
      user a sign-in created is), the unique index on `google_id` rejects
      every further first sign-in. */
  lemma SecondSignUpRejected(s: DbState, c: GoogleClaims, served: nat)
    requires Valid(s) && Ahead(s) && served >= 2
    requires (exists v :: v in s.users.rows && v.googleId == "")
    requires forall v :: v in s.users.rows ==> v.email != c.email
    ensures GetOrCreateUserByClaimsAsWritten(s, c, served).1 == Err(DuplicateKey)
  {
    CreateUserOutcome(s, FirstLoginUserAsWritten(c));
  }

  /** From an empty database, two people with different emails sign in one
      after the other: as written the second is refused. */
  lemma TwoSignUpsAsWritten(a: GoogleClaims, b: GoogleClaims)
    requires a.email != b.email
    ensures GetOrCreateUserByClaimsAsWritten(GetOrCreateUserByClaimsAsWritten(Empty(), a, 3).0, b, 3).1 == Err(DuplicateKey)
  {
    var s0 := Empty();
    CreateUserOutcome(s0, FirstLoginUserAsWritten(a));
    var s1 := GetOrCreateUserByClaimsAsWritten(s0, a, 3).0;
    assert s1.users.rows == [FirstLoginUserAsWritten(a).(id := 1)];
    assert s1.users.rows[0].googleId == "";
    SecondSignUpRejected(s1, b, 3);
  }

  /** The same two sign-ins with the Google id stored: when neither person
      is known yet and their emails and Google ids differ, both get an
      account, under consecutive keys. */
  lemma TwoSignUps(s: DbState, a: GoogleClaims, b: GoogleClaims, served: nat)
    requires Valid(s) && Ahead(s) && ProfilesOwned(s) && served >= 3
    requires forall v :: v in s.users.rows ==> v.email != a.email && v.googleId != a.googleId
    requires forall v :: v in s.users.rows ==> v.email != b.email && v.googleId != b.googleId
    requires a.email != b.email && a.googleId != b.googleId
    ensures var s1 := GetOrCreateUserByClaimsEffect(s, a, served).0;
      var r := GetOrCreateUserByClaimsEffect(s1, b, served);
      var k := s.users.next;
      && r.1 == Ok(FirstLoginUser(b).(id := k + 1))
      && r.0.users.rows == s.users.rows + [FirstLoginUser(a).(id := k), FirstLoginUser(b).(id := k + 1)]
  {
    FirstSignIn(s, a, served);
    var s1 := GetOrCreateUserByClaimsEffect(s, a, served).0;
    StillUnknown(s.users.rows, FirstLoginUser(a).(id := s.users.next), b);
    FirstSignIn(s1, b, served);
    assert s1.users.rows + [FirstLoginUser(b).(id := s.users.next + 1)]
        == s.users.rows + [FirstLoginUser(a).(id := s.users.next), FirstLoginUser(b).(id := s.users.next + 1)];
  }

  lemma StillUnknown(rows: seq<User>, added: User, c: GoogleClaims)
    requires forall v :: v in rows ==> v.email != c.email && v.googleId != c.googleId
    requires added.email != c.email && added.googleId != c.googleId
    ensures forall v :: v in rows + [added] ==> v.email != c.email && v.googleId != c.googleId
  {
  }
}
