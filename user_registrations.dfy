/** app/api/user/registrations/route.js: a signed-in user's own event
    registrations (GET) and cancelling one of them (DELETE), which claws back
    the points it awarded and deletes it. */
module UserRegistrationsRoute {
  import opened Wrappers
  import opened Common
  import opened JsString
  import opened UserModel
  import opened EventModel
  import opened RegistrationModel
  import AuthLib
  import Query
  import Db

  const RegistrationIdRequired := HttpError(400, "Registration ID required")
  const RegistrationNotFound := HttpError(404, "Registration not found")
  const CancelFailed := HttpError(500, "Failed to cancel registration")
  const NotOwner := HttpError(403, "Not authorized to cancel this registration")
  const PastEvent := HttpError(400, "Cannot cancel registration for past events")
  const CancelledMessage := "Registration cancelled successfully"

  /** The guards of DELETE that follow the token checks, in their order: a
      missing `registrationId`; an id that is not an ObjectId, on which
      `findById` throws and the catch answers 500; an unknown registration;
      a registration of somebody else; and an event that has already
      started (skipped when the event no longer exists; cancelling at the
      very start time is still allowed).  On success, the id of the
      registration to cancel and the registration. */
  function CancelCheckFor(caller: Id, registrationId: Option<string>, events: map<Id, Event>,
                          registrations: map<Id, Registration>, now: Instant)
    : (r: Result<(Id, Registration), HttpError>)
    ensures !AuthLib.TruthyString(registrationId) ==> r == Failure(RegistrationIdRequired)
    ensures AuthLib.TruthyString(registrationId) && CastObjectId(registrationId.value).None? ==>
              r == Failure(CancelFailed)
    ensures AuthLib.TruthyString(registrationId) && CastObjectId(registrationId.value).Some? ==>
              var id := CastObjectId(registrationId.value).value;
              if id !in registrations then r == Failure(RegistrationNotFound)
              else if registrations[id].user != caller then r == Failure(NotOwner)
              else
                var reg := registrations[id];
                if reg.event in events && now > events[reg.event].date then r == Failure(PastEvent)
                else r == Success((id, reg))
  {
    if !AuthLib.TruthyString(registrationId) then Failure(RegistrationIdRequired)
    else match CastObjectId(registrationId.value)
      case None => Failure(CancelFailed)
      case Some(id) =>
        if id !in registrations then Failure(RegistrationNotFound)
        else
          var reg := registrations[id];
          if reg.user != caller then Failure(NotOwner)
          else if reg.event in events && now > events[reg.event].date then Failure(PastEvent)
          else Success((id, reg))
  }

  /** Only a well-formed id that names no registration gets the 404; any
      other text is the 500 of the cast. */
  lemma MalformedIdIsServerError(caller: Id, text: string, events: map<Id, Event>,
                                 registrations: map<Id, Registration>, now: Instant)
    requires text != ""
    ensures CancelCheckFor(caller, Some(text), events, registrations, now) == Failure(RegistrationNotFound) <==>
              IsObjectIdText(text) && Lower(text) !in registrations
    ensures !IsObjectIdText(text) ==> CancelCheckFor(caller, Some(text), events, registrations, now).error.status == 500
  {
  }

  /** The whole guard chain of DELETE: the token checks first, then the
      checks above.  On success, the caller and the registration to cancel. */
  function CancelCheck(headers: AuthLib.Headers, jwtVerify: string -> Result<Id, string>,
                       registrationId: Option<string>, events: map<Id, Event>,
                       registrations: map<Id, Registration>, now: Instant)
    : (r: Result<(Id, (Id, Registration)), HttpError>)
    ensures var a := AuthLib.Authenticate(headers, jwtVerify);
      && (a.Failure? ==> r == Failure(a.error))
      && (a.Success? ==>
            var c := CancelCheckFor(a.value, registrationId, events, registrations, now);
            r == if c.Success? then Success((a.value, c.value)) else Failure(c.error))
  {
    match AuthLib.Authenticate(headers, jwtVerify)
    case Failure(e) => Failure(e)
    case Success(caller) =>
      match CancelCheckFor(caller, registrationId, events, registrations, now)
      case Failure(e) => Failure(e)
      case Success(reg) => Success((caller, reg))
  }

  /** Whatever else the request says, an event that no longer exists never
      blocks a cancellation. */
  lemma MissingEventNeverBlocks(caller: Id, id: Id, events: map<Id, Event>,
                                registrations: map<Id, Registration>, now: Instant)
    requires CastObjectId(id) == Some(id)
    requires id in registrations && registrations[id].user == caller
    requires registrations[id].event !in events
    ensures CancelCheckFor(caller, Some(id), events, registrations, now) == Success((id, registrations[id]))
  {
  }

  /** The users collection after the clawback: `$inc` of minus the awarded
      points on the caller, when they are positive; no floor is applied, and
      a caller without a user record changes nothing. */
  function ClawBack(users: map<Id, User>, caller: Id, reg: Registration): (r: map<Id, User>)
    ensures r.Keys == users.Keys
    ensures forall id :: id in users && id != caller ==> r[id] == users[id]
    ensures caller in users ==>
      && r[caller] == users[caller].(greenPoints := r[caller].greenPoints)
      && r[caller].greenPoints == users[caller].greenPoints - (if reg.pointsAwarded > 0 then reg.pointsAwarded else 0)
  {
    if reg.pointsAwarded > 0 && caller in users then
      users[caller := users[caller].(greenPoints := users[caller].greenPoints - reg.pointsAwarded)]
    else users
  }

  /** The clawback keeps the users keyed by id and their emails unique. */
  lemma ClawBackKeepsValid(users: map<Id, User>, caller: Id, reg: Registration)
    requires KeyedById(users) && UniqueEmails(users)
    ensures KeyedById(ClawBack(users, caller, reg)) && UniqueEmails(ClawBack(users, caller, reg))
  {
    if reg.pointsAwarded > 0 && caller in users {
      PointsUpdateKeepsUnique(users, caller, users[caller].greenPoints - reg.pointsAwarded);
    }
  }

  /** Nothing stops the clawback from taking a balance below zero. */
  lemma ClawBackHasNoFloor()
    ensures var u := NewUser("u", "n", "e", "h", 0).(greenPoints := 5);
            var reg := NewRegistration("r", "e1", "u", 0).(pointsAwarded := 10);
            ClawBack(map["u" := u], "u", reg)["u"].greenPoints == -5
  {
  }

  /** `DELETE /api/user/registrations?registrationId=…`. */
  method Cancel(store: Db.Store, headers: AuthLib.Headers, jwtVerify: string -> Result<Id, string>,
                registrationId: Option<string>, now: Instant) returns (r: Result<string, HttpError>)
    requires store.Valid()
    modifies store
    ensures store.Valid()
    ensures store.events == old(store.events) && store.activities == old(store.activities)
    ensures var c := CancelCheck(headers, jwtVerify, registrationId, old(store.events), old(store.registrations), now);
      && (c.Failure? ==> r == Failure(c.error)
                         && store.users == old(store.users) && store.registrations == old(store.registrations))
      && (c.Success? ==> r == Success(CancelledMessage)
                         && store.registrations == old(store.registrations) - {c.value.1.0}
                         && store.users == ClawBack(old(store.users), c.value.0, c.value.1.1))
  {
    var auth := AuthLib.Authenticate(headers, jwtVerify);
    if auth.Failure? {
      return Failure(auth.error);
    }
    r := CancelAs(store, auth.value, registrationId, now);
  }

  /** DELETE once the caller is known: the remaining guards, then the
      clawback and the deletion. */
  method CancelAs(store: Db.Store, caller: Id, registrationId: Option<string>, now: Instant)
    returns (r: Result<string, HttpError>)
    requires store.Valid()
    modifies store
    ensures store.Valid()
    ensures store.events == old(store.events) && store.activities == old(store.activities)
    ensures var c := CancelCheckFor(caller, registrationId, old(store.events), old(store.registrations), now);
      && (c.Failure? ==> r == Failure(c.error)
                         && store.users == old(store.users) && store.registrations == old(store.registrations))
      && (c.Success? ==> r == Success(CancelledMessage)
                         && store.registrations == old(store.registrations) - {c.value.0}
                         && store.users == ClawBack(old(store.users), caller, c.value.1))
  {
    if !AuthLib.TruthyString(registrationId) {
      return Failure(RegistrationIdRequired);
    }
    var cast := CastObjectId(registrationId.value);
    if cast.None? {
      return Failure(CancelFailed);
    }
    var id := cast.value;
    if id !in store.registrations {
      return Failure(RegistrationNotFound);
    }
    var reg := store.registrations[id];
    if reg.user != caller {
      return Failure(NotOwner);
    }
    if reg.event in store.events && now > store.events[reg.event].date {
      return Failure(PastEvent);
    }
    assert CancelCheckFor(caller, registrationId, store.events, store.registrations, now) == Success((id, reg));
    ClawBackKeepsValid(store.users, caller, reg);
    store.users := ClawBack(store.users, caller, reg);
    RemoveKeepsUnique(store.registrations, id);
    store.registrations := store.registrations - {id};
    r := Success(CancelledMessage);
  }

  /** What GET answers: with an `eventId`, the caller's registration for
      that event or null; without, all of the caller's registrations. */
  datatype RegistrationsResponse =
    | Single(registration: Option<Registration>)
    | Listing(registrations: seq<Registration>)

  predicate OwnedBy(caller: Id, r: Registration) {
    r.user == caller
  }

  /** `Registration.findOne(filter)`: the first match in collection order. */
  function FindFirst(regs: seq<Registration>, caller: Id, event: Id): (r: Option<Registration>)
    ensures r.Some? ==> r.value in regs && r.value.user == caller && r.value.event == event
    ensures r.None? <==> forall x :: x in regs ==> !(x.user == caller && x.event == event)
  {
    if |regs| == 0 then None
    else if regs[0].user == caller && regs[0].event == event then Some(regs[0])
    else FindFirst(regs[1..], caller, event)
  }

  const FetchRegistrationsFailed := HttpError(500, "Failed to fetch registrations")

  /** GET once the caller is known, over the registrations collection in
      natural order.  An `eventId` that is not an ObjectId makes `findOne`
      throw, which the catch answers with a 500. */
  function RegistrationsOf(caller: Id, eventId: Option<string>, regs: seq<Registration>)
    : (r: Result<RegistrationsResponse, HttpError>)
    ensures r.Failure? <==> AuthLib.TruthyString(eventId) && CastObjectId(eventId.value).None?
    ensures r.Failure? ==> r.error == FetchRegistrationsFailed
    ensures r.Success? ==> (r.value.Single? <==> AuthLib.TruthyString(eventId))
    ensures r.Success? && r.value.Single? && r.value.registration.Some? ==>
      var x := r.value.registration.value;
      x in regs && x.user == caller && Some(x.event) == CastObjectId(eventId.value)
    ensures r.Success? && r.value.Single? && r.value.registration.None? ==>
      forall x :: x in regs ==> !(x.user == caller && Some(x.event) == CastObjectId(eventId.value))
    ensures r.Success? && r.value.Listing? ==>
      && (forall i :: 0 <= i < |r.value.registrations| ==> r.value.registrations[i].user == caller)
      && Query.SortedDesc(r.value.registrations, (x: Registration) => x.registeredAt)
      && multiset(r.value.registrations) == multiset(Query.Filter(regs, (x: Registration) => OwnedBy(caller, x)))
  {
    if AuthLib.TruthyString(eventId) then
      match CastObjectId(eventId.value)
      case None => Failure(FetchRegistrationsFailed)
      case Some(event) => Success(Single(FindFirst(regs, caller, event)))
    else
      var mine := Query.Filter(regs, (x: Registration) => OwnedBy(caller, x));
      Query.FilterMembers(regs, (x: Registration) => OwnedBy(caller, x));
      var sorted := Query.SortDesc(mine, (x: Registration) => x.registeredAt);
      assert forall i :: 0 <= i < |sorted| ==> sorted[i] in multiset(mine);
      Success(Listing(sorted))
  }

  /** `GET /api/user/registrations[?eventId=…]`: the token checks, then the
      selection above. */
  function MyRegistrations(headers: AuthLib.Headers, jwtVerify: string -> Result<Id, string>,
                           eventId: Option<string>, regs: seq<Registration>)
    : (r: Result<RegistrationsResponse, HttpError>)
    ensures var a := AuthLib.Authenticate(headers, jwtVerify);
      && (a.Failure? ==> r == Failure(a.error))
      && (a.Success? ==> r == RegistrationsOf(a.value, eventId, regs))
  {
    match AuthLib.Authenticate(headers, jwtVerify)
    case Failure(e) => Failure(e)
    case Success(caller) => RegistrationsOf(caller, eventId, regs)
  }

  /** Every registration of the caller is in the listing, and nobody else's. */
  lemma {:induction false} ListingIsExactlyMine(caller: Id, regs: seq<Registration>, x: Registration)
    ensures x in RegistrationsOf(caller, None, regs).value.registrations <==> x in regs && x.user == caller
  {
    var mine := Query.Filter(regs, (y: Registration) => OwnedBy(caller, y));
    Query.FilterMembers(regs, (y: Registration) => OwnedBy(caller, y));
    var listing := RegistrationsOf(caller, None, regs).value.registrations;
    assert multiset(listing) == multiset(mine);
    assert x in listing <==> x in multiset(listing);
    assert x in mine <==> x in multiset(mine);
  }
}
