/** lib/auth.js: bearer-token extraction from the request headers, token
    verification, and the "401, 401, 403" gate every protected handler opens
    with.  JWT signing and verification and bcrypt are foreign libraries:
    they are function parameters here. */
module AuthLib {
  import opened Wrappers
  import opened Common
  import opened JsString
  import UserModel

  /** Request headers, keyed by lower-case name (Fetch's `Headers` stores
      them that way). */
  type Headers = map<string, string>

  /** `headers.get(name)`: the lookup is case-insensitive. */
  function HeaderGet(headers: Headers, name: string): (r: Option<string>)
    ensures r.Some? <==> Lower(name) in headers
  {
    if Lower(name) in headers then Some(headers[Lower(name)]) else None
  }

  predicate TruthyString(v: Option<string>) {
    v.Some? && v.value != ""
  }

  const BearerPrefix: string := "Bearer "

  /** `getTokenFromRequest`: the authorization header (looked up under both
      spellings), and when it starts with "Bearer ", the second piece of the
      header split at spaces.  That piece is the text after the prefix up to
      the next space. */
  function GetTokenFromRequest(headers: Headers): (t: Option<string>)
    ensures t.Some? <==> "authorization" in headers && StartsWith(headers["authorization"], BearerPrefix)
    ensures t.Some? ==>
      var rest := headers["authorization"][|BearerPrefix|..];
      && ' ' !in t.value
      && StartsWith(rest, t.value)
      && (t.value == rest || rest[|t.value|] == ' ')
  {
    var first := HeaderGet(headers, "authorization");
    var header := if TruthyString(first) then first else HeaderGet(headers, "Authorization");
    assert Lower("authorization") == "authorization";
    assert Lower("Authorization") == "authorization";
    if TruthyString(header) && StartsWith(header.value, BearerPrefix) then
      var h := header.value;
      var rest := h[|BearerPrefix|..];
      assert h == "Bearer" + [' '] + rest;
      SplitCons("Bearer", ' ', rest);
      FirstPiece(rest, ' ');
      Some(Split(h, ' ')[1])
    else None
  }

  /** The first piece of a split is the longest separator-free prefix. */
  lemma FirstPiece(s: string, sep: char)
    ensures var p := Split(s, sep)[0];
      sep !in p && StartsWith(s, p) && (p == s || s[|p|] == sep)
  {
    var parts := Split(s, sep);
    if |parts| > 1 {
      assert s == parts[0] + [sep] + Join(parts[1..], [sep]);
    }
  }

  /** A bearer header whose token holds no space gives that token back. */
  lemma TokenOfBearer(t: string)
    requires ' ' !in t
    ensures GetTokenFromRequest(map["authorization" := BearerPrefix + t]) == Some(t)
  {
    var h := BearerPrefix + t;
    assert h[..|BearerPrefix|] == BearerPrefix;
    assert h[|BearerPrefix|..] == t;
    var r := GetTokenFromRequest(map["authorization" := h]).value;
    assert r == t[..|r|];
    assert r == t;
  }

  /** "Bearer abc" gives "abc". */
  lemma TokenWhole()
    ensures GetTokenFromRequest(map["authorization" := "Bearer abc"]) == Some("abc")
  {
    TokenOfBearer("abc");
    assert BearerPrefix + "abc" == "Bearer abc";
  }

  /** "Bearer a b" gives "a": only the text up to the next space. */
  lemma TokenUpToSpace()
    ensures GetTokenFromRequest(map["authorization" := "Bearer a b"]) == Some("a")
  {
    TokenStopsAtSpace("a", "b");
    assert BearerPrefix + "a" + " " + "b" == "Bearer a b";
  }

  /** What follows the token after a space plays no part. */
  lemma TokenStopsAtSpace(t: string, rest: string)
    requires ' ' !in t
    ensures GetTokenFromRequest(map["authorization" := BearerPrefix + t + " " + rest]) == Some(t)
  {
    var h := BearerPrefix + t + " " + rest;
    var tail := t + " " + rest;
    assert h[..|BearerPrefix|] == BearerPrefix;
    assert h[|BearerPrefix|..] == tail;
    var r := GetTokenFromRequest(map["authorization" := h]).value;
    assert r == tail[..|r|];
    assert forall k :: 0 <= k < |t| ==> tail[k] == t[k];
    assert tail[|t|] == ' ';
    assert |r| == |t|;
    assert r == t;
  }

  /** "Bearer " gives the empty token, not null; another scheme and a missing
      header give null. */
  lemma TokenEdgeCases()
    ensures GetTokenFromRequest(map["authorization" := "Bearer "]) == Some("")
    ensures GetTokenFromRequest(map["authorization" := "Basic abc"]) == None
    ensures GetTokenFromRequest(map[]) == None
  {
    assert "Bearer "[7..] == "";
    assert !StartsWith("Basic abc", BearerPrefix) by {
      assert "Basic abc"[..7][1] == 'a' && BearerPrefix[1] == 'e';
    }
  }

  /** `verifyToken`: the decoded user id, or None (null) whenever the JWT
      library throws; it never fails itself. */
  function VerifyToken(jwtVerify: string -> Result<Id, string>, token: string): (r: Option<Id>)
    ensures r.None? <==> jwtVerify(token).Failure?
    ensures r.Some? ==> r.value == jwtVerify(token).value
  {
    match jwtVerify(token)
    case Success(id) => Some(id)
    case Failure(_) => None
  }

  const Unauthorized := HttpError(401, "Unauthorized")
  const InvalidToken := HttpError(401, "Invalid token")
  const AdminRequired := HttpError(403, "Admin access required")

  /** The two token checks of every protected handler: a missing or empty
      token is 401 "Unauthorized", a token that does not verify is 401
      "Invalid token"; otherwise the caller's user id. */
  function Authenticate(headers: Headers, jwtVerify: string -> Result<Id, string>): (r: Result<Id, HttpError>)
    ensures !TruthyString(GetTokenFromRequest(headers)) ==> r == Failure(Unauthorized)
    ensures (TruthyString(GetTokenFromRequest(headers)) && jwtVerify(GetTokenFromRequest(headers).value).Failure?)
              ==> r == Failure(InvalidToken)
    ensures r.Success? <==> TruthyString(GetTokenFromRequest(headers)) && jwtVerify(GetTokenFromRequest(headers).value).Success?
    ensures r.Success? ==> r.value == jwtVerify(GetTokenFromRequest(headers).value).value
  {
    var token := GetTokenFromRequest(headers);
    if !TruthyString(token) then Failure(Unauthorized)
    else
      match VerifyToken(jwtVerify, token.value)
      case None => Failure(InvalidToken)
      case Some(id) => Success(id)
  }

  /** The administrator gate: after the token checks, a caller without a
      user record or without the admin role is 403 "Admin access required". */
  function RequireAdmin(headers: Headers, jwtVerify: string -> Result<Id, string>, users: map<Id, UserModel.User>): (r: Result<UserModel.User, HttpError>)
    ensures Authenticate(headers, jwtVerify).Failure? ==> r == Failure(Authenticate(headers, jwtVerify).error)
    ensures r.Success? <==>
      var a := Authenticate(headers, jwtVerify);
      a.Success? && a.value in users && users[a.value].role == UserModel.RoleAdmin
    ensures r.Failure? && Authenticate(headers, jwtVerify).Success? ==> r.error == AdminRequired
    ensures r.Success? ==> r.value == users[Authenticate(headers, jwtVerify).value]
  {
    match Authenticate(headers, jwtVerify)
    case Failure(e) => Failure(e)
    case Success(id) =>
      if id !in users || users[id].role != UserModel.RoleAdmin then Failure(AdminRequired)
      else Success(users[id])
  }
}
