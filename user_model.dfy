/** The User schema: required identity fields, a role enum with default
    `user`, a points counter with default 0 and no bounds, a badge list, and a
    unique email. */
module UserModel {
  import opened Wrappers
  import opened Common
  import opened JsValue
  import opened SchemaCast

  datatype Role = RoleUser | RoleAdmin

  function RoleName(r: Role): string {
    match r
    case RoleUser => "user"
    case RoleAdmin => "admin"
  }

  /** The enum check of the schema: only the two role names are accepted. */
  function ParseRole(s: string): (r: Option<Role>)
    ensures r.Some? <==> s == "user" || s == "admin"
    ensures r.Some? ==> RoleName(r.value) == s
  {
    if s == "user" then Some(RoleUser)
    else if s == "admin" then Some(RoleAdmin)
    else None
  }

  lemma RoleNameRoundTrip(r: Role)
    ensures ParseRole(RoleName(r)) == Some(r)
  {
  }

  datatype User = User(
    id: Id,
    name: string,
    email: string,
    passwordHash: string,
    role: Role,
    greenPoints: int,
    badges: seq<string>,
    createdAt: Instant)

  /** What the schema's `required` validators accept: a string path is
      missing when it is empty.  `greenPoints` has no bound. */
  predicate Valid(u: User) {
    u.name != "" && u.email != "" && u.passwordHash != ""
  }

  /** A user as `User.create({ name, email, passwordHash })` stores it: the
      defaults fill role (`user`), greenPoints (0), badges (empty) and the
      creation time. */
  function NewUser(id: Id, name: string, email: string, passwordHash: string, now: Instant): (u: User)
    ensures u.id == id && u.name == name && u.email == email && u.passwordHash == passwordHash
    ensures u.role == RoleUser && u.greenPoints == 0 && u.badges == [] && u.createdAt == now
    ensures Valid(u) <==> name != "" && email != "" && passwordHash != ""
  {
    User(id, name, email, passwordHash, RoleUser, 0, [], now)
  }

  /** Every user is stored under its own id. */
  predicate KeyedById(users: map<Id, User>) {
    forall id :: id in users ==> users[id].id == id
  }

  /** The unique index on email. */
  ghost predicate UniqueEmails(users: map<Id, User>) {
    forall a, b :: a in users && b in users && a != b ==> users[a].email != users[b].email
  }

  predicate EmailTaken(users: map<Id, User>, email: string) {
    exists id :: id in users && users[id].email == email
  }

  /** Adding a user whose email nobody has keeps emails unique. */
  lemma AddKeepsUnique(users: map<Id, User>, id: Id, u: User)
    requires UniqueEmails(users)
    requires id !in users && !EmailTaken(users, u.email)
    ensures UniqueEmails(users[id := u])
  {
    var m := users[id := u];
    forall a, b | a in m && b in m && a != b
      ensures m[a].email != m[b].email
    {
      if a == id { assert !(users[b].email == u.email); }
      else if b == id { assert !(users[a].email == u.email); }
    }
  }

  /** Changing one user's points keeps emails unique. */
  lemma PointsUpdateKeepsUnique(users: map<Id, User>, id: Id, points: int)
    requires UniqueEmails(users) && id in users
    ensures UniqueEmails(users[id := users[id].(greenPoints := points)])
  {
  }

  /** `User.findOne({ email })` for a string: with unique emails, the one
      stored user that has it, if any. */
  function FindByEmail(users: map<Id, User>, email: string): (r: Option<User>)
    requires UniqueEmails(users) && KeyedById(users)
    ensures r.Some? <==> EmailTaken(users, email)
    ensures r.Some? ==> r.value.id in users && users[r.value.id] == r.value && r.value.email == email
    ensures r.Some? ==> forall id :: id in users && users[id].email == email ==> users[id] == r.value
  {
    if EmailTaken(users, email) then
      var id :| id in users && users[id].email == email;
      Some(users[id])
    else None
  }

  /** An email value the query passes on as operators instead of casting it:
      an array (Mongoose turns it into `$in`) or an object with a key that
      starts with `$` (`$ne`, `$regex`, ...). */
  predicate IsOperatorFilter(v: JsVal) {
    v.JArr? || (v.JObj? && exists k :: k in v.fields && |k| > 0 && k[0] == '$')
  }

  /** `User.findOne({ email })` for the email a JSON body gives.  None is a
      throw.  Null and undefined match nobody, since every stored user has a
      string email.  An operator filter is evaluated by the database:
      `runFilter` answers None when its operands fail to cast, otherwise the
      id of the first match, if any.  Any other value goes through the String
      cast, which throws on failure, and is matched by equality. */
  function FindOne(users: map<Id, User>, email: JsVal, showNum: real -> string,
                   runFilter: JsVal -> Option<Option<Id>>): (r: Option<Option<User>>)
    requires UniqueEmails(users) && KeyedById(users)
    ensures IsNullish(email) ==> r == Some(None)
    ensures IsOperatorFilter(email) ==>
              (r.None? <==> runFilter(email).None?) &&
              (r.Some? ==> (r.value.Some? <==> runFilter(email).value.Some? && runFilter(email).value.value in users)) &&
              (r.Some? && r.value.Some? ==> r.value.value == users[runFilter(email).value.value])
    ensures !IsNullish(email) && !IsOperatorFilter(email) ==>
              (r.None? <==> CastString(email, showNum).None?) &&
              (r.Some? ==> CastString(email, showNum).value.Some? &&
                           var e := CastString(email, showNum).value.value;
                           (r.value.Some? <==> EmailTaken(users, e)) && (r.value.Some? ==> r.value.value.email == e))
    ensures email.JStr? ==> r.Some? && (r.value.Some? <==> EmailTaken(users, email.s))
    ensures r.Some? && r.value.Some? ==> r.value.value.id in users && users[r.value.value.id] == r.value.value
  {
    if IsNullish(email) then Some(None)
    else if IsOperatorFilter(email) then
      match runFilter(email)
      case None => None
      case Some(None) => Some(None)
      case Some(Some(id)) => if id in users then Some(Some(users[id])) else Some(None)
    else
      match CastString(email, showNum)
      case None => None
      case Some(None) => Some(None)
      case Some(Some(e)) => Some(FindByEmail(users, e))
  }

  /** A number or boolean email is looked up as the string it casts to. */
  lemma ScalarEmailIsItsString(users: map<Id, User>, email: JsVal, showNum: real -> string,
                               runFilter: JsVal -> Option<Option<Id>>)
    requires UniqueEmails(users) && KeyedById(users)
    requires email.JNum? || email.JBool?
    ensures FindOne(users, email, showNum, runFilter) == Some(FindByEmail(users, Stringify(email, showNum)))
  {
  }

  /** A user as `.select('-passwordHash')` returns it: every path but the hash. */
  datatype PublicUser = PublicUser(
    id: Id, name: string, email: string, role: Role,
    greenPoints: int, badges: seq<string>, createdAt: Instant)

  function WithoutHash(u: User): (p: PublicUser)
    ensures p.id == u.id && p.name == u.name && p.email == u.email && p.role == u.role
    ensures p.greenPoints == u.greenPoints && p.badges == u.badges && p.createdAt == u.createdAt
  {
    PublicUser(u.id, u.name, u.email, u.role, u.greenPoints, u.badges, u.createdAt)
  }

  /** The `user` object of the register and login responses. */
  datatype SessionUser = SessionUser(id: Id, name: string, email: string, role: Role)

  function SessionView(u: User): (s: SessionUser)
    ensures s.id == u.id && s.name == u.name && s.email == u.email && s.role == u.role
  {
    SessionUser(u.id, u.name, u.email, u.role)
  }

  /** Neither view depends on the password hash. */
  lemma ViewsIgnoreHash(u: User, h: string)
    ensures WithoutHash(u.(passwordHash := h)) == WithoutHash(u)
    ensures SessionView(u.(passwordHash := h)) == SessionView(u)
  {
  }
}
