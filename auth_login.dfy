/** app/api/auth/login/route.js: sign-in.  An unknown email and a wrong
    password fail with the same 401; the store is only read. */
module LoginRoute {
  import opened Wrappers
  import opened Common
  import opened JsValue
  import opened UserModel

  datatype AuthResponse = AuthResponse(token: string, user: SessionUser)

  const InvalidCredentials := HttpError(401, "Invalid credentials")
  const LoginFailed := HttpError(500, "Login failed")

  /** `POST /api/auth/login`: a token for the user the email query finds,
      when the stored hash matches the password.  bcrypt's `compare` throws
      on a password that is not a string; every throw is the 500. */
  function Login(users: map<Id, User>, body: Option<JsVal>, compare: (string, string) -> bool, sign: Id -> string,
                 showNum: real -> string, runFilter: JsVal -> Option<Option<Id>>)
    : (r: Result<AuthResponse, HttpError>)
    requires UniqueEmails(users) && KeyedById(users)
    ensures !Destructures(body) ==> r == Failure(LoginFailed)
    ensures Destructures(body) && FindOne(users, Get(body.value, "email"), showNum, runFilter).None? ==>
              r == Failure(LoginFailed)
    ensures Destructures(body) && FindOne(users, Get(body.value, "email"), showNum, runFilter) == Some(None) ==>
              r == Failure(InvalidCredentials)
    ensures r.Failure? ==> r.error == InvalidCredentials || r.error == LoginFailed
    ensures r.Success? <==>
      && Destructures(body)
      && FindOne(users, Get(body.value, "email"), showNum, runFilter).Some?
      && FindOne(users, Get(body.value, "email"), showNum, runFilter).value.Some?
      && Get(body.value, "password").JStr?
      && compare(Get(body.value, "password").s,
                 FindOne(users, Get(body.value, "email"), showNum, runFilter).value.value.passwordHash)
    ensures r.Success? ==>
      var u := FindOne(users, Get(body.value, "email"), showNum, runFilter).value.value;
      u.id in users && users[u.id] == u && r.value == AuthResponse(sign(u.id), SessionView(u))
  {
    if !Destructures(body) then Failure(LoginFailed)
    else
      var password := Get(body.value, "password");
      match FindOne(users, Get(body.value, "email"), showNum, runFilter)
      case None => Failure(LoginFailed)
      case Some(None) => Failure(InvalidCredentials)
      case Some(Some(u)) =>
        if !password.JStr? then Failure(LoginFailed)
        else if !compare(password.s, u.passwordHash) then Failure(InvalidCredentials)
        else Success(AuthResponse(sign(u.id), SessionView(u)))
  }

  /** The JSON body `{ email, password }` with two strings. */
  function Credentials(email: string, password: string): JsVal {
    JObj(map["email" := JStr(email), "password" := JStr(password)])
  }

  /** With a string email and a string password, sign-in succeeds exactly
      when a stored user has the email and the password matches its hash, and
      the token is that user's. */
  lemma {:induction false} StringCredentials(users: map<Id, User>, email: string, password: string,
                                             compare: (string, string) -> bool, sign: Id -> string,
                                             showNum: real -> string, runFilter: JsVal -> Option<Option<Id>>)
    requires UniqueEmails(users) && KeyedById(users)
    ensures var r := Login(users, Some(Credentials(email, password)), compare, sign, showNum, runFilter);
            && (r.Success? <==> exists id :: id in users && users[id].email == email
                                             && compare(password, users[id].passwordHash))
            && (r.Success? ==> exists id :: id in users && users[id].email == email
                                            && r.value == AuthResponse(sign(id), SessionView(users[id])))
            && (r.Failure? ==> r == Failure(InvalidCredentials))
  {
    var body := Credentials(email, password);
    assert Get(body, "email") == JStr(email) && Get(body, "password") == JStr(password);
    var found := FindOne(users, JStr(email), showNum, runFilter);
    if found.value.Some? {
      var u := found.value.value;
      forall id | id in users && users[id].email == email
        ensures users[id] == u
      {
        assert FindByEmail(users, email) == Some(u);
      }
    }
  }

  /** A body that is JSON null, or not JSON at all, is the 500. */
  lemma NullBodyFails(users: map<Id, User>, body: Option<JsVal>, compare: (string, string) -> bool,
                      sign: Id -> string, showNum: real -> string, runFilter: JsVal -> Option<Option<Id>>)
    requires UniqueEmails(users) && KeyedById(users)
    requires body == None || body == Some(JNull)
    ensures Login(users, body, compare, sign, showNum, runFilter) == Failure(LoginFailed)
  {
  }

  /** An operator email such as `{"$ne": ""}` is not compared with anyone's
      email: it signs in as whichever user the database returns for the
      filter, given that user's password. */
  lemma OperatorEmailSignsInFirstMatch(users: map<Id, User>, id: Id, password: string,
                                       compare: (string, string) -> bool, sign: Id -> string,
                                       showNum: real -> string, runFilter: JsVal -> Option<Option<Id>>)
    requires UniqueEmails(users) && KeyedById(users)
    requires id in users && compare(password, users[id].passwordHash)
    requires runFilter(JObj(map["$ne" := JStr("")])) == Some(Some(id))
    ensures Login(users, Some(JObj(map["email" := JObj(map["$ne" := JStr("")]), "password" := JStr(password)])),
                  compare, sign, showNum, runFilter)
         == Success(AuthResponse(sign(id), SessionView(users[id])))
  {
    var filter := JObj(map["$ne" := JStr("")]);
    assert "$ne" in filter.fields && "$ne"[0] == '$';
    assert IsOperatorFilter(filter);
  }

  /** An unknown email and a wrong password for a known one produce the same
      response. */
  lemma {:induction false} UniformFailure(users: map<Id, User>, email: string, other: string, password: string,
                                          compare: (string, string) -> bool, sign: Id -> string,
                                          showNum: real -> string, runFilter: JsVal -> Option<Option<Id>>)
    requires UniqueEmails(users) && KeyedById(users)
    requires !EmailTaken(users, other)
    requires EmailTaken(users, email)
    requires forall id :: id in users && users[id].email == email ==> !compare(password, users[id].passwordHash)
    ensures Login(users, Some(Credentials(email, password)), compare, sign, showNum, runFilter)
         == Login(users, Some(Credentials(other, password)), compare, sign, showNum, runFilter)
  {
    StringCredentials(users, email, password, compare, sign, showNum, runFilter);
    StringCredentials(users, other, password, compare, sign, showNum, runFilter);
  }
}
