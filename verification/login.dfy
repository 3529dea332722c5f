/** Accounts: `signup` and `login` over the `users` and `user_phone` tables.
    Password hashing is the parameter `hash`; checking a password against a
    stored hash is `hash(password) == stored`. */
module LoginController {
  import opened Common
  import opened Database

  /** What a successful `login` returns about the user: never the hash. */
  datatype UserView = UserView(id: nat, email: string, telephone: string)

  datatype Signup = Signup(tables: Tables, result: Result<nat>)

  /** `signup`: 400 for a known email; otherwise the user insert and, when a
      test phone id is configured, the `user_phone` insert, committed
      together. A failing statement (a taken telephone or phone id, or any
      other database error) rolls both back and answers 500. */
  function SignupSpec(t: Tables, hash: string -> string, email: string, password: string, tel: string,
                      telTestId: Option<string>, dbFails: bool): Signup
  {
    if HasEmail(t.users, email) then Signup(t, Err(HttpException(400, Message("Email already exists."))))
    else if dbFails || HasTelephone(t.users, tel) || (Given(telTestId) && HasPhoneId(t.phones, telTestId.value)) then
      Signup(t, Err(HttpException(500, ExceptionText("Signup failed: "))))
    else
      var id := NextId(RowIds(t.users, UserRowId));
      var users := t.users + [UserRow(id, email, tel, hash(password))];
      var phones := if Given(telTestId) then t.phones + [PhoneRow(NextId(RowIds(t.phones, PhoneRowId)), telTestId.value, id)]
                    else t.phones;
      Signup(Tables(users, t.agents, phones), Ok(id))
  }

  /** A failed signup writes nothing; a known email is always the 400; a
      signup succeeds exactly when the email, the telephone and the test
      phone id are all free and the store does not fail. */
  lemma SignupFailureWritesNothing(t: Tables, hash: string -> string, email: string, password: string, tel: string,
                                   telTestId: Option<string>, dbFails: bool)
    ensures var s := SignupSpec(t, hash, email, password, tel, telTestId, dbFails);
            && (s.result.Err? ==> s.tables == t)
            && (s.result.Err? && s.result.error.status == 400 <==> HasEmail(t.users, email))
            && (s.result.Err? && s.result.error.status == 500 <==>
                  !HasEmail(t.users, email) &&
                  (dbFails || HasTelephone(t.users, tel) || (Given(telTestId) && HasPhoneId(t.phones, telTestId.value))))
            && (s.result.Ok? <==>
                  !HasEmail(t.users, email) && !dbFails && !HasTelephone(t.users, tel) &&
                  !(Given(telTestId) && HasPhoneId(t.phones, telTestId.value)))
  {
  }

  /** A successful signup adds exactly one user, holding the email, the
      telephone and the hash of the password, under a fresh id; it adds one
      `user_phone` row for that id when a test phone id is configured and
      none otherwise; it keeps the store's unique constraints. */
  lemma SignupSuccess(t: Tables, hash: string -> string, email: string, password: string, tel: string,
                      telTestId: Option<string>, dbFails: bool)
    requires WellFormed(t)
    ensures var s := SignupSpec(t, hash, email, password, tel, telTestId, dbFails);
            s.result.Ok? ==>
              && |s.tables.users| == |t.users| + 1
              && s.tables.users[..|t.users|] == t.users
              && s.tables.users[|t.users|] == UserRow(s.result.value, email, tel, hash(password))
              && (forall i :: 0 <= i < |t.users| ==> t.users[i].id != s.result.value)
              && s.tables.agents == t.agents
              && (Given(telTestId) ==>
                    |s.tables.phones| == |t.phones| + 1 && s.tables.phones[..|t.phones|] == t.phones &&
                    s.tables.phones[|t.phones|].phoneId == telTestId.value &&
                    s.tables.phones[|t.phones|].userId == s.result.value)
              && (!Given(telTestId) ==> s.tables.phones == t.phones)
              && WellFormed(s.tables)
  {
    var s := SignupSpec(t, hash, email, password, tel, telTestId, dbFails);
    if s.result.Ok? {
      var u := s.tables.users;
      assert u[..|t.users|] == t.users;
      forall i, j | 0 <= i < j < |u|
        ensures u[i].email != u[j].email && u[i].telephone != u[j].telephone && u[i].id != u[j].id
      {
        if j == |t.users| {
          assert u[i] == t.users[i];
        }
      }
      if Given(telTestId) {
        var p := s.tables.phones;
        assert p[..|t.phones|] == t.phones;
        forall i, j | 0 <= i < j < |p| ensures p[i].phoneId != p[j].phoneId {
          if j == |t.phones| {
            assert p[i] == t.phones[i];
          }
        }
      }
    }
  }

  /** `signup` over the session `db`. */
  method SignupOn(db: Db, hash: string -> string, email: string, password: string, tel: string,
                  telTestId: Option<string>, dbFails: bool) returns (result: Result<nat>)
    requires db.Valid()
    modifies db
    ensures db.Valid()
    ensures Signup(db.State(), result) == SignupSpec(old(db.State()), hash, email, password, tel, telTestId, dbFails)
  {
    if HasEmail(db.users, email) {
      return Err(HttpException(400, Message("Email already exists.")));
    }
    var hashedPassword := hash(password);
    if dbFails || HasTelephone(db.users, tel) || (Given(telTestId) && HasPhoneId(db.phones, telTestId.value)) {
      return Err(HttpException(500, ExceptionText("Signup failed: ")));
    }
    var userId := db.InsertUser(email, tel, hashedPassword);
    if Given(telTestId) {
      db.InsertUserPhone(telTestId.value, userId);
    }
    result := Ok(userId);
  }

  /** `SELECT ... FROM users WHERE email = :email LIMIT 1`. */
  function FindByEmail(users: seq<UserRow>, email: string): (r: Option<UserRow>)
    ensures r.None? <==> !HasEmail(users, email)
    ensures r.Some? ==> r.value in users && r.value.email == email
  {
    if users == [] then None
    else if users[0].email == email then Some(users[0])
    else FindByEmail(users[1..], email)
  }

  /** `login`: 401 for an unknown email or a wrong password, otherwise the
      row's id, email and telephone. */
  function Login(t: Tables, hash: string -> string, email: string, password: string): Result<UserView> {
    match FindByEmail(t.users, email)
    case None => Err(HttpException(401, Message("User not found")))
    case Some(row) =>
      if hash(password) != row.hashedPassword then Err(HttpException(401, Message("Invalid password")))
      else Ok(UserView(row.id, row.email, row.telephone))
  }

  /** `login` succeeds exactly for a stored email whose row holds the hash
      of the password, and then reports that row; with unique emails the
      row is the only one with that email. */
  lemma LoginOutcome(t: Tables, hash: string -> string, email: string, password: string)
    requires WellFormed(t)
    ensures Login(t, hash, email, password) == Err(HttpException(401, Message("User not found"))) <==>
              !HasEmail(t.users, email)
    ensures Login(t, hash, email, password).Ok? <==>
              exists i :: 0 <= i < |t.users| && t.users[i].email == email && t.users[i].hashedPassword == hash(password)
    ensures forall i :: 0 <= i < |t.users| && t.users[i].email == email ==>
              Login(t, hash, email, password) ==
                (if t.users[i].hashedPassword == hash(password)
                 then Ok(UserView(t.users[i].id, email, t.users[i].telephone))
                 else Err(HttpException(401, Message("Invalid password"))))
  {
    var r := FindByEmail(t.users, email);
    if r.Some? {
      var k :| 0 <= k < |t.users| && t.users[k] == r.value;
      forall i | 0 <= i < |t.users| && t.users[i].email == email
        ensures t.users[i] == r.value
      {
        assert t.users[i].email == t.users[k].email;
      }
    }
  }

  /** After a successful signup, logging in with the same email and password
      returns the new user's id, email and telephone. */
  lemma SignupThenLogin(t: Tables, hash: string -> string, email: string, password: string, tel: string,
                        telTestId: Option<string>, dbFails: bool)
    requires WellFormed(t)
    requires SignupSpec(t, hash, email, password, tel, telTestId, dbFails).result.Ok?
    ensures var s := SignupSpec(t, hash, email, password, tel, telTestId, dbFails);
            Login(s.tables, hash, email, password) == Ok(UserView(s.result.value, email, tel))
  {
    var s := SignupSpec(t, hash, email, password, tel, telTestId, dbFails);
    SignupSuccess(t, hash, email, password, tel, telTestId, dbFails);
    LoginOutcome(s.tables, hash, email, password);
    assert s.tables.users[|t.users|].email == email;
  }

  /** After a successful signup, a password whose hash differs is refused. */
  lemma SignupThenWrongPassword(t: Tables, hash: string -> string, email: string, password: string, tel: string,
                                telTestId: Option<string>, dbFails: bool, other: string)
    requires WellFormed(t)
    requires SignupSpec(t, hash, email, password, tel, telTestId, dbFails).result.Ok?
    requires hash(other) != hash(password)
    ensures Login(SignupSpec(t, hash, email, password, tel, telTestId, dbFails).tables, hash, email, other) ==
            Err(HttpException(401, Message("Invalid password")))
  {
    var s := SignupSpec(t, hash, email, password, tel, telTestId, dbFails);
    SignupSuccess(t, hash, email, password, tel, telTestId, dbFails);
    LoginOutcome(s.tables, hash, email, other);
    assert s.tables.users[|t.users|].email == email;
  }

  /** `user_phone.phone_id` is unique, so once one signup has linked the
      test phone id, every later signup with that id fails with 500 and
      writes nothing. */
  lemma SecondSignupSameTestPhone(t: Tables, hash: string -> string, email: string, password: string, tel: string,
                                  telTestId: Option<string>, email2: string, password2: string, tel2: string,
                                  dbFails2: bool)
    requires Given(telTestId)
    requires SignupSpec(t, hash, email, password, tel, telTestId, false).result.Ok?
    ensures var s := SignupSpec(t, hash, email, password, tel, telTestId, false);
            var s2 := SignupSpec(s.tables, hash, email2, password2, tel2, telTestId, dbFails2);
            && s2.result.Err? && s2.result.error.status in {400, 500}
            && s2.tables == s.tables
            && (!HasEmail(s.tables.users, email2) ==> s2.result.error.status == 500)
  {
    var s := SignupSpec(t, hash, email, password, tel, telTestId, false);
    assert s.tables.phones[|t.phones|].phoneId == telTestId.value;
    assert HasPhoneId(s.tables.phones, telTestId.value);
  }
}
