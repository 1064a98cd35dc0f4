/** app/login/page.jsx: the sign-in form's submit handler.  It posts the
    credentials, keeps the token and user in local storage, works out the
    role and sends the browser to the admin area or the dashboard. */
module LoginPage {
  import opened Wrappers
  import opened Common
  import opened JsString
  import opened JsValue
  import opened UserModel
  import opened LoginRoute

  /** What `fetch` and `res.json()` give: a network failure, or the
      response's `ok` flag and its body (None when it is not JSON). */
  datatype LoginReply = NetworkError | Reply(ok: bool, body: Option<JsVal>)

  datatype Toast = ErrorToast(message: string) | SuccessToast(message: string)

  const TokenKey := "token"
  const UserKey := "user"
  const AdminPath := "/admin"
  const DashboardPath := "/dashboard"
  const SomethingWrong := "Something went wrong"
  const LoginFailedText := "Login failed"

  /** Reading a property of null or undefined throws, which the handler's
      `catch` turns into "Something went wrong". */
  predicate Unusable(reply: LoginReply) {
    reply.NetworkError? || reply.body.None? || IsNullish(reply.body.value)
  }

  /** `data.error || "Login failed"`. */
  function ErrorText(data: JsVal, showNum: real -> string): (t: string)
    ensures Get(data, "error").JStr? && Get(data, "error").s != "" ==> t == Get(data, "error").s
    ensures !Truthy(Get(data, "error")) ==> t == LoginFailedText
  {
    var e := Get(data, "error");
    if Truthy(e) then Stringify(e, showNum) else LoginFailedText
  }

  /** Local storage after a successful reply: the token and the user (as
      JSON) each written only when the reply carries one. */
  function StoredAfter(storage: map<string, string>, data: JsVal, showNum: real -> string,
                       stringifyJson: JsVal -> string): (s: map<string, string>)
    ensures Truthy(Get(data, "token")) ==> TokenKey in s && s[TokenKey] == Stringify(Get(data, "token"), showNum)
    ensures !Truthy(Get(data, "token")) ==> (TokenKey in s <==> TokenKey in storage) &&
                                            (TokenKey in s ==> s[TokenKey] == storage[TokenKey])
    ensures Truthy(Get(data, "user")) ==> UserKey in s && s[UserKey] == stringifyJson(Get(data, "user"))
    ensures !Truthy(Get(data, "user")) ==> (UserKey in s <==> UserKey in storage) &&
                                           (UserKey in s ==> s[UserKey] == storage[UserKey])
    ensures forall k :: k != TokenKey && k != UserKey ==> (k in s <==> k in storage) && (k in s ==> s[k] == storage[k])
  {
    var withToken := if Truthy(Get(data, "token")) then storage[TokenKey := Stringify(Get(data, "token"), showNum)] else storage;
    if Truthy(Get(data, "user")) then withToken[UserKey := stringifyJson(Get(data, "user"))] else withToken
  }

  /** `JSON.parse(localStorage.getItem("user") || "{}").role`, undefined
      when the text is not JSON. */
  function StoredRole(storage: map<string, string>, parseJson: string -> Option<JsVal>): JsVal {
    var text := if UserKey in storage && storage[UserKey] != "" then storage[UserKey] else "{}";
    match parseJson(text)
    case None => JUndefined
    case Some(v) => Get(v, "role")
  }

  /** `data.user?.role ?? data.role ?? <stored user's role>`. */
  function RawRole(data: JsVal, storage: map<string, string>, parseJson: string -> Option<JsVal>): (r: JsVal)
    ensures !IsNullish(Get(Get(data, "user"), "role")) ==> r == Get(Get(data, "user"), "role")
    ensures IsNullish(Get(Get(data, "user"), "role")) && !IsNullish(Get(data, "role")) ==> r == Get(data, "role")
    ensures IsNullish(Get(Get(data, "user"), "role")) && IsNullish(Get(data, "role")) ==> r == StoredRole(storage, parseJson)
  {
    Coalesce(Get(Get(data, "user"), "role"), Coalesce(Get(data, "role"), StoredRole(storage, parseJson)))
  }

  /** Lower-cased when a string, undefined otherwise. */
  function ResolvedRole(raw: JsVal): (role: Option<string>)
    ensures raw.JStr? <==> role.Some?
    ensures raw.JStr? ==> role.value == Lower(raw.s)
  {
    if raw.JStr? then Some(Lower(raw.s)) else None
  }

  function Destination(role: Option<string>): (path: string)
    ensures path == AdminPath <==> role == Some("admin")
    ensures path == DashboardPath <==> role != Some("admin")
  {
    if role == Some("admin") then AdminPath else DashboardPath
  }

  /** A role in any letter case counts: "ADMIN" and "Admin" go to the admin
      area, and a role that is not a string goes to the dashboard. */
  lemma RoleCaseIgnored(data: JsVal)
    ensures Destination(ResolvedRole(JStr("ADMIN"))) == AdminPath
    ensures Destination(ResolvedRole(JStr("Admin"))) == AdminPath
    ensures Destination(ResolvedRole(JNum(1.0))) == DashboardPath
  {
    assert Lower("ADMIN") == "admin";
    assert Lower("Admin") == "admin";
  }

  class LoginForm {
    var storage: map<string, string>
    var location: Option<string>
    var loading: bool
    var toast: Option<Toast>

    /** `handleSubmit` once the reply is in; `loading` is false again
        whatever happens. */
    method HandleSubmit(reply: LoginReply, showNum: real -> string, stringifyJson: JsVal -> string,
                        parseJson: string -> Option<JsVal>)
      modifies this
      ensures !loading
      ensures Unusable(reply) ==>
                toast == Some(ErrorToast(SomethingWrong)) && storage == old(storage) && location == old(location)
      ensures !Unusable(reply) && !reply.ok ==>
                toast == Some(ErrorToast(ErrorText(reply.body.value, showNum))) &&
                storage == old(storage) && location == old(location)
      ensures !Unusable(reply) && reply.ok ==>
                var data := reply.body.value;
                var stored := StoredAfter(old(storage), data, showNum, stringifyJson);
                var role := ResolvedRole(RawRole(data, stored, parseJson));
                && storage == stored
                && location == Some(Destination(role))
                && toast == Some(SuccessToast("Logged in as " + (if role.Some? then role.value else "user")))
    {
      loading := true;
      if Unusable(reply) {
        toast := Some(ErrorToast(SomethingWrong));
        loading := false;
        return;
      }
      var data := reply.body.value;
      if !reply.ok {
        toast := Some(ErrorToast(ErrorText(data, showNum)));
        loading := false;
        return;
      }
      if Truthy(Get(data, "token")) {
        storage := storage[TokenKey := Stringify(Get(data, "token"), showNum)];
      }
      if Truthy(Get(data, "user")) {
        storage := storage[UserKey := stringifyJson(Get(data, "user"))];
      }
      var raw := RawRole(data, storage, parseJson);
      var role := ResolvedRole(raw);
      toast := Some(SuccessToast("Logged in as " + (if role.Some? then role.value else "user")));
      loading := false;
      if role == Some("admin") {
        location := Some(AdminPath);
        return;
      }
      location := Some(DashboardPath);
    }
  }

  // ------------------------------------------- against the login handler

  /** The JSON body `POST /api/auth/login` answers with on success. */
  function SuccessBody(resp: AuthResponse): JsVal {
    JObj(map[
      "token" := JStr(resp.token),
      "user" := JObj(map[
        "id" := JStr(resp.user.id),
        "name" := JStr(resp.user.name),
        "email" := JStr(resp.user.email),
        "role" := JStr(RoleName(resp.user.role))])])
  }

  /** The body of a failed login: `{error}`. */
  function ErrorBody(e: HttpError): JsVal {
    JObj(map["error" := JStr(e.message)])
  }

  /** A successful login sends an admin to the admin area and everyone else
      to the dashboard, whatever local storage held before; a non-empty token
      is stored. */
  lemma ServerSuccessRedirect(resp: AuthResponse, storage: map<string, string>, showNum: real -> string,
                              stringifyJson: JsVal -> string, parseJson: string -> Option<JsVal>)
    ensures var data := SuccessBody(resp);
      var stored := StoredAfter(storage, data, showNum, stringifyJson);
      Destination(ResolvedRole(RawRole(data, stored, parseJson))) == (if resp.user.role == RoleAdmin then AdminPath else DashboardPath)
    ensures resp.token != "" ==> StoredAfter(storage, SuccessBody(resp), showNum, stringifyJson)[TokenKey] == resp.token
  {
    var data := SuccessBody(resp);
    var user := Get(data, "user");
    assert Get(user, "role") == JStr(RoleName(resp.user.role));
    assert Lower("admin") == "admin";
    assert Lower("user") == "user";
  }

  /** A failed login shows the handler's message, "Invalid credentials" for
      a wrong email or password. */
  lemma ServerFailureToast(showNum: real -> string)
    ensures ErrorText(ErrorBody(InvalidCredentials), showNum) == "Invalid credentials"
  {
  }

  /** A reply with a token but neither `user.role` nor `role` falls back on
      the user kept from an earlier sign-in, who may have been an admin. */
  lemma StaleStoredRole(storage: map<string, string>, showNum: real -> string,
                        stringifyJson: JsVal -> string, parseJson: string -> Option<JsVal>)
    requires UserKey in storage && storage[UserKey] != ""
    requires parseJson(storage[UserKey]) == Some(JObj(map["role" := JStr("admin")]))
    ensures var data := JObj(map["token" := JStr("t")]);
      Destination(ResolvedRole(RawRole(data, StoredAfter(storage, data, showNum, stringifyJson), parseJson))) == AdminPath
  {
    var data := JObj(map["token" := JStr("t")]);
    var stored := StoredAfter(storage, data, showNum, stringifyJson);
    assert stored[UserKey] == storage[UserKey];
    assert Lower("admin") == "admin";
  }
}
