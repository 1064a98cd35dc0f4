/** app/api/auth/register/route.js: sign-up.  An email already in use is
    refused; otherwise exactly one user is created and a token is issued for
    it.  Hashing, signing and id generation are parameters. */
module RegisterRoute {
  import opened Wrappers
  import opened Common
  import opened JsValue
  import opened SchemaCast
  import opened UserModel
  import Db

  datatype AuthResponse = AuthResponse(token: string, user: SessionUser)

  const UserExists := HttpError(400, "User already exists")
  const RegistrationFailed := HttpError(500, "Registration failed")

  /** A String path's cast value when it is a non-empty string, which is
      what `required` accepts. */
  function RequiredString(v: JsVal, showNum: real -> string): (s: Option<string>)
    ensures s.Some? <==> CastString(v, showNum).Some? && CastString(v, showNum).value.Some?
                         && CastString(v, showNum).value.value != ""
    ensures s.Some? ==> s.value == CastString(v, showNum).value.value
  {
    match CastString(v, showNum)
    case Some(Some(t)) => if t != "" then Some(t) else None
    case _ => None
  }

  /** The user `User.create({ name, email, passwordHash })` would store for
      the body, before the unique index is consulted: bcrypt's `hash` throws
      unless the password is a string, name and email go through the String
      cast, and the schema refuses an empty or missing one. */
  function Candidate(body: JsVal, hash: string -> string, showNum: real -> string, newId: Id, now: Instant)
    : (u: Option<User>)
    ensures u.Some? ==> Valid(u.value) && u.value.id == newId && u.value.createdAt == now
    ensures u.Some? ==> u.value.role == RoleUser && u.value.greenPoints == 0 && u.value.badges == []
    ensures u.Some? <==> && Get(body, "password").JStr?
                         && RequiredString(Get(body, "name"), showNum).Some?
                         && RequiredString(Get(body, "email"), showNum).Some?
                         && hash(Get(body, "password").s) != ""
    ensures u.Some? ==> && u.value.name == RequiredString(Get(body, "name"), showNum).value
                        && u.value.email == RequiredString(Get(body, "email"), showNum).value
                        && u.value.passwordHash == hash(Get(body, "password").s)
  {
    var password := Get(body, "password");
    var name := RequiredString(Get(body, "name"), showNum);
    var email := RequiredString(Get(body, "email"), showNum);
    if !password.JStr? || name.None? || email.None? then None
    else
      var u := NewUser(newId, name.value, email.value, hash(password.s), now);
      if Valid(u) then Some(u) else None
  }

  /** `POST /api/auth/register`.  `newId` is the id the database assigns;
      the email query is `UserModel.FindOne`.  Every throw, including the
      unique index refusing a taken email, is the 500. */
  method Register(store: Db.Store, body: Option<JsVal>, hash: string -> string, sign: Id -> string,
                  showNum: real -> string, runFilter: JsVal -> Option<Option<Id>>, newId: Id, now: Instant)
    returns (r: Result<AuthResponse, HttpError>)
    requires store.Valid() && newId !in store.users
    modifies store
    ensures store.Valid()
    ensures store.events == old(store.events) && store.registrations == old(store.registrations)
    ensures store.activities == old(store.activities)
    ensures r.Failure? ==> store.users == old(store.users)
    ensures r.Failure? ==> r.error == UserExists || r.error == RegistrationFailed
    ensures !Destructures(body) ==> r == Failure(RegistrationFailed)
    ensures Destructures(body) ==>
              var found := FindOne(old(store.users), Get(body.value, "email"), showNum, runFilter);
              (found.None? ==> r == Failure(RegistrationFailed)) &&
              (found.Some? && found.value.Some? ==> r == Failure(UserExists))
    ensures (Destructures(body) && Get(body.value, "email").JStr? &&
             EmailTaken(old(store.users), Get(body.value, "email").s)) ==> r == Failure(UserExists)
    ensures r.Success? <==>
      && Destructures(body)
      && FindOne(old(store.users), Get(body.value, "email"), showNum, runFilter) == Some(None)
      && Candidate(body.value, hash, showNum, newId, now).Some?
      && !EmailTaken(old(store.users), Candidate(body.value, hash, showNum, newId, now).value.email)
    ensures r.Success? ==>
      var u := Candidate(body.value, hash, showNum, newId, now).value;
      && store.users == old(store.users)[newId := u]
      && r.value == AuthResponse(sign(newId), SessionView(u))
  {
    if !Destructures(body) {
      return Failure(RegistrationFailed);
    }
    var found := FindOne(store.users, Get(body.value, "email"), showNum, runFilter);
    if found.None? {
      return Failure(RegistrationFailed);
    }
    if found.value.Some? {
      return Failure(UserExists);
    }
    var candidate := Candidate(body.value, hash, showNum, newId, now);
    if candidate.None? || EmailTaken(store.users, candidate.value.email) {
      return Failure(RegistrationFailed);
    }
    var u := candidate.value;
    AddKeepsUnique(store.users, newId, u);
    store.users := store.users[newId := u];
    r := Success(AuthResponse(sign(newId), SessionView(u)));
  }

  /** With string fields the email query and the stored email agree, so the
      unique index is never what refuses the user: a free, non-empty email
      with a name and a hashable password is created. */
  lemma {:induction false} StringFieldsCreate(users: map<Id, User>, name: string, email: string, password: string,
                                              hash: string -> string, showNum: real -> string,
                                              runFilter: JsVal -> Option<Option<Id>>, newId: Id, now: Instant)
    requires UniqueEmails(users) && KeyedById(users)
    requires name != "" && email != "" && hash(password) != "" && !EmailTaken(users, email)
    ensures var body := JObj(map["name" := JStr(name), "email" := JStr(email), "password" := JStr(password)]);
            && FindOne(users, Get(body, "email"), showNum, runFilter) == Some(None)
            && Candidate(body, hash, showNum, newId, now) == Some(NewUser(newId, name, email, hash(password), now))
  {
    var body := JObj(map["name" := JStr(name), "email" := JStr(email), "password" := JStr(password)]);
    assert Get(body, "name") == JStr(name) && Get(body, "email") == JStr(email);
    assert Get(body, "password") == JStr(password);
  }

  /** An operator email without a string `_id` never creates a user: the
      String cast refuses it, whatever the query found. */
  lemma OperatorEmailCreatesNobody(body: JsVal, hash: string -> string, showNum: real -> string,
                                   newId: Id, now: Instant)
    requires Get(body, "email").JObj? && IsOperatorFilter(Get(body, "email")) && !HasStringId(Get(body, "email"))
    ensures Candidate(body, hash, showNum, newId, now).None?
  {
  }
}
