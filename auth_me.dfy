/** app/api/auth/me/route.js: the signed-in user's profile without the
    password hash.  Both token checks come before the store is read. */
module MeRoute {
  import opened Wrappers
  import opened Common
  import opened UserModel
  import AuthLib

  const UserNotFound := HttpError(404, "User not found")

  /** `GET /api/auth/me`. */
  function Me(headers: AuthLib.Headers, jwtVerify: string -> Result<Id, string>, users: map<Id, User>)
    : (r: Result<PublicUser, HttpError>)
    ensures AuthLib.Authenticate(headers, jwtVerify).Failure? ==>
              r == Failure(AuthLib.Authenticate(headers, jwtVerify).error)
    ensures r.Success? <==> AuthLib.Authenticate(headers, jwtVerify).Success? && AuthLib.Authenticate(headers, jwtVerify).value in users
    ensures r.Success? ==> r.value == WithoutHash(users[AuthLib.Authenticate(headers, jwtVerify).value])
    ensures r.Failure? && AuthLib.Authenticate(headers, jwtVerify).Success? ==> r.error == UserNotFound
  {
    match AuthLib.Authenticate(headers, jwtVerify)
    case Failure(e) => Failure(e)
    case Success(id) =>
      if id in users then Success(WithoutHash(users[id])) else Failure(UserNotFound)
  }

  /** A request that fails a token check gets the same answer whatever the
      store holds. */
  lemma TokenChecksFirst(headers: AuthLib.Headers, jwtVerify: string -> Result<Id, string>,
                         users1: map<Id, User>, users2: map<Id, User>)
    requires AuthLib.Authenticate(headers, jwtVerify).Failure?
    ensures Me(headers, jwtVerify, users1) == Me(headers, jwtVerify, users2)
  {
  }
}
