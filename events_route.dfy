/** app/api/events/route.js: the public event listing (GET), event
    creation by an administrator (POST), and the misrouted collection PUT. */
module EventsRoute {
  import opened Wrappers
  import opened Common
  import opened JsString
  import opened JsValue
  import opened SchemaCast
  import opened UserModel
  import opened EventModel
  import opened RegistrationModel
  import AuthLib
  import Query
  import Db

  // ---------------------------------------------------------------- GET

  /** The query string of GET; an absent parameter is None. */
  datatype EventsQuery = EventsQuery(
    status: Option<string>, category: Option<string>, upcoming: Option<string>,
    page: Option<string>, limit: Option<string>)

  /** `searchParams.get(name)` is null for an absent parameter, and
      `parseInt` turns its argument into a string first. */
  function ParamText(v: Option<string>): string {
    if v.None? then "null" else v.value
  }

  /** `parseInt(param) || fallback`: NaN and 0 are both falsy, so the result
      is never 0. */
  function IntParamOr(v: Option<string>, fallback: int): (n: int)
    requires fallback != 0
    ensures n != 0
    ensures n == fallback || Some(n) == ParseInt(ParamText(v))
  {
    match ParseInt(ParamText(v))
    case None => fallback
    case Some(k) => if k == 0 then fallback else k
  }

  /** An absent parameter takes the fallback. */
  lemma AbsentParamFallsBack(fallback: int)
    requires fallback != 0
    ensures IntParamOr(None, fallback) == fallback
  {
    ParseIntNoDigits("null");
  }

  /** So does "0". */
  lemma ZeroParamFallsBack(fallback: int)
    requires fallback != 0
    ensures IntParamOr(Some("0"), fallback) == fallback
  {
    assert TrimStart("0") == "0";
    assert DigitPrefix("0", 10) == 1;
    assert "0"[..1] == "0";
  }

  /** A positive decimal numeral, possibly followed by non-digits, is read. */
  lemma DecimalParamRead(n: nat, rest: string, fallback: int)
    requires n > 0 && fallback != 0
    requires |rest| == 0 || !IsDecDigit(rest[0])
    ensures IntParamOr(Some(DecimalString(n) + rest), fallback) == n
  {
    ParseIntNumeral(n, rest);
  }

  /** JavaScript's floor(a / b) for a non-zero integer divisor. */
  function FloorDiv(a: int, b: int): (q: int)
    requires b != 0
    ensures b > 0 ==> b * q <= a < b * q + b
    ensures b < 0 ==> b * q >= a > b * q + b
  {
    if b > 0 then a / b else (-a) / (-b)
  }

  /** `Math.ceil(a / b)` for a non-zero integer divisor. */
  function CeilDiv(a: int, b: int): (q: int)
    requires b != 0
    ensures b > 0 ==> b * (q - 1) < a <= b * q
    ensures b < 0 ==> b * (q - 1) > a >= b * q
  {
    -FloorDiv(-a, b)
  }

  datatype Pagination = Pagination(page: int, limit: int, total: nat, pages: int)

  /** `isAdmin` of GET: every failure on the way (no token, a token that
      does not verify, no such user, another role) means "not an admin"
      rather than an error; so it holds exactly when the administrator gate
      of the other handlers would let the request through. */
  function IsAdmin(headers: AuthLib.Headers, jwtVerify: string -> Result<Id, string>, users: map<Id, User>): (b: bool)
    ensures b <==> AuthLib.RequireAdmin(headers, jwtVerify, users).Success?
  {
    var token := AuthLib.GetTokenFromRequest(headers);
    if AuthLib.TruthyString(token) then
      match AuthLib.VerifyToken(jwtVerify, token.value)
      case None => false
      case Some(id) => id in users && users[id].role == RoleAdmin
    else false
  }

  /** The MongoDB filter GET builds: absent fields do not restrict. */
  datatype EventFilter = EventFilter(status: Option<string>, category: Option<string>, dateFrom: Option<Instant>)

  predicate Matches(f: EventFilter, e: Event) {
    && (f.status.Some? ==> EventStatusName(e.status) == f.status.value)
    && (f.category.Some? ==> CategoryName(e.category) == f.category.value)
    && (f.dateFrom.Some? ==> e.date >= f.dateFrom.value)
  }

  /** The filter, built by successive assignments to its fields: a
      non-administrator only ever sees published events; an administrator's
      `status` restricts unless it is absent or "all"; `category` restricts
      unless absent or "all"; `upcoming=true` adds "not before now" and
      overrides the status with published, administrators included. */
  method BuildFilter(isAdmin: bool, status: Option<string>, category: Option<string>,
                     upcoming: Option<string>, now: Instant) returns (f: EventFilter)
    ensures !isAdmin ==> f.status == Some("published")
    ensures upcoming == Some("true") ==> f.status == Some("published") && f.dateFrom == Some(now)
    ensures upcoming != Some("true") ==> f.dateFrom == None
    ensures isAdmin && upcoming != Some("true") ==>
      f.status == (if AuthLib.TruthyString(status) && status.value != "all" then status else None)
    ensures f.category == (if AuthLib.TruthyString(category) && category.value != "all" then category else None)
  {
    f := EventFilter(None, None, None);
    if !isAdmin {
      f := f.(status := Some("published"));
    } else if AuthLib.TruthyString(status) && status.value != "all" {
      f := f.(status := status);
    }
    if AuthLib.TruthyString(category) && category.value != "all" {
      f := f.(category := category);
    }
    if upcoming == Some("true") {
      f := f.(dateFrom := Some(now));
      f := f.(status := Some("published"));
    }
  }

  const FetchFailed := HttpError(500, "Failed to fetch events")

  function Abs(n: int): nat {
    if n < 0 then -n else n
  }

  function DateKey(e: Event): int {
    e.date
  }

  function Selector(f: EventFilter): Event -> bool {
    e => Matches(f, e)
  }

  /** `sorted` holds the events of `s`, in date order. */
  predicate DateOrderOf(sorted: seq<Event>, s: seq<Event>) {
    Query.SortedAsc(sorted, DateKey) && multiset(sorted) == multiset(s)
  }

  /** `Event.find(filter).sort({ date: 1 }).skip(skip).limit(limit)` over
      the collection: MongoDB refuses a negative skip, and reads a negative
      limit as its absolute value.  The page is the window at `skip` of the
      matching events put in date order. */
  function FindEvents(f: EventFilter, events: seq<Event>, skip: int, limit: int): (r: Result<seq<Event>, HttpError>)
    requires limit != 0
    ensures r.Failure? <==> skip < 0
    ensures r.Success? ==> forall i :: 0 <= i < |r.value| ==> Matches(f, r.value[i]) && r.value[i] in events
    ensures r.Success? ==> Query.SortedAsc(r.value, DateKey)
    ensures r.Success? ==> multiset(r.value) <= multiset(Query.Filter(events, Selector(f)))
    ensures r.Success? ==>
      var total := Query.Count(events, Selector(f));
      |r.value| == if total <= skip then 0 else if total - skip < Abs(limit) then total - skip else Abs(limit)
    ensures r.Success? ==>
      exists sorted :: DateOrderOf(sorted, Query.Filter(events, Selector(f))) && r.value == Query.Window(sorted, skip, Abs(limit))
  {
    if skip < 0 then Failure(FetchFailed)
    else
      var matching := Query.Filter(events, Selector(f));
      Query.FilterMembers(events, Selector(f));
      var sorted := Query.SortAsc(matching, DateKey);
      var window := Query.Window(sorted, skip, Abs(limit));
      Query.WindowSortedAsc(sorted, DateKey, skip, Abs(limit));
      Query.WindowMultiset(sorted, skip, Abs(limit));
      Query.CountIsFilterLength(events, Selector(f));
      forall i | 0 <= i < |window|
        ensures Matches(f, window[i]) && window[i] in events
      {
        var x := window[i];
        assert x == sorted[skip + i];
        assert x in multiset(sorted);
        assert x in multiset(matching);
        assert Selector(f)(x);
      }
      assert DateOrderOf(sorted, matching);
      Success(window)
  }

  /** An event of the listing with the count GET attaches to it. */
  datatype ListedEvent = ListedEvent(event: Event, approvedRegistrationCount: nat)

  datatype EventsPage = EventsPage(events: seq<ListedEvent>, pagination: Pagination)

  /** The events of a listing, without their counts. */
  function EventsOf(listed: seq<ListedEvent>): (r: seq<Event>)
    ensures |r| == |listed|
    ensures forall i :: 0 <= i < |r| ==> r[i] == listed[i].event
  {
    if |listed| == 0 then [] else [listed[0].event] + EventsOf(listed[1..])
  }

  /** The `registrations` path of an event document as the handler reads it:
      the schema declares no such path (only the count virtuals), so the
      document yields undefined. */
  function RegistrationsPath(e: Event): Option<seq<Registration>> {
    None
  }

  /** `approvedRegistrationCount` as the handler computes it: approved
      entries of `event.registrations`, or 0 when that is undefined. */
  function ApprovedCountAsWritten(e: Event): nat {
    match RegistrationsPath(e)
    case None => 0
    case Some(rs) => Query.Count(rs, (r: Registration) => r.status == Approved)
  }

  /** As written, the count is 0 for every event... */
  lemma AsWrittenAlwaysZero(e: Event)
    ensures ApprovedCountAsWritten(e) == 0
  {
  }

  /** ...even for an event with an approved registration, which the schema's
      own `approvedRegistrationCount` virtual counts. */
  lemma AsWrittenMissesApproved(e: Event, reg: Registration)
    requires reg.event == e.id && reg.status == Approved
    ensures ApprovedCountAsWritten(e) == 0
    ensures ApprovedCountCorrected(e, [reg]) == 1
  {
  }

  /** The count the field evidently stands for: the event's approved
      registrations in the registrations collection (the schema's virtual). */
  function ApprovedCountCorrected(e: Event, regs: seq<Registration>): (n: nat)
    ensures n == ApprovedRegistrationCount(regs, e.id)
    ensures n <= RegistrationCount(regs, e.id)
  {
    ApprovedAtMostRegistered(regs, e.id);
    ApprovedRegistrationCount(regs, e.id)
  }

  /** `events.map(...)` attaching the count as the handler computes it, so
      0 for every event. */
  function WithCounts(events: seq<Event>): (r: seq<ListedEvent>)
    ensures |r| == |events|
    ensures forall i :: 0 <= i < |r| ==>
      r[i].event == events[i] && r[i].approvedRegistrationCount == ApprovedCountAsWritten(events[i])
    ensures forall i :: 0 <= i < |r| ==> r[i].approvedRegistrationCount == 0
    ensures EventsOf(r) == events
  {
    if |events| == 0 then []
    else
      var r := [ListedEvent(events[0], ApprovedCountAsWritten(events[0]))] + WithCounts(events[1..]);
      assert r[1..] == WithCounts(events[1..]);
      assert EventsOf(r) == [events[0]] + events[1..];
      r
  }

  /** The listing the corrected count would give: each event with the number
      of its approved registrations. */
  function WithCountsCorrected(events: seq<Event>, regs: seq<Registration>): (r: seq<ListedEvent>)
    ensures |r| == |events|
    ensures forall i :: 0 <= i < |r| ==>
      r[i].event == events[i] && r[i].approvedRegistrationCount == ApprovedRegistrationCount(regs, events[i].id)
  {
    seq(|events|, i requires 0 <= i < |events| => ListedEvent(events[i], ApprovedCountCorrected(events[i], regs)))
  }

  /** The two listings differ exactly where an event has an approved
      registration. */
  lemma CorrectedListingDiffers(events: seq<Event>, regs: seq<Registration>, i: nat)
    requires i < |events|
    ensures WithCounts(events)[i] == WithCountsCorrected(events, regs)[i] <==>
              ApprovedRegistrationCount(regs, events[i].id) == 0
  {
  }

  /** What GET promises about each listed event. */
  predicate Visible(q: EventsQuery, admin: bool, now: Instant, e: Event) {
    && (!admin || q.upcoming == Some("true") ==> e.status == Published)
    && (q.upcoming == Some("true") ==> e.date >= now)
    && (AuthLib.TruthyString(q.category) && q.category.value != "all" ==> CategoryName(e.category) == q.category.value)
    && ((admin && q.upcoming != Some("true") && AuthLib.TruthyString(q.status) && q.status.value != "all")
          ==> EventStatusName(e.status) == q.status.value)
  }

  function VisibleSelector(q: EventsQuery, admin: bool, now: Instant): Event -> bool {
    e => Visible(q, admin, now, e)
  }

  /** `GET /api/events`: the events collection in natural order.  A
      failure is the 500 of a negative skip. */
  method ListEvents(q: EventsQuery, headers: AuthLib.Headers, jwtVerify: string -> Result<Id, string>,
                    users: map<Id, User>, events: seq<Event>, now: Instant)
    returns (r: Result<EventsPage, HttpError>)
    ensures ListingMeets(q, IsAdmin(headers, jwtVerify, users), events, now, r)
  {
    var admin := IsAdmin(headers, jwtVerify, users);
    r := ListEventsFor(q, admin, events, now);
  }

  /** What GET promises: the pagination arithmetic, the 500 of a negative
      skip, and a page as `PageMeets` describes it. */
  ghost predicate ListingMeets(q: EventsQuery, admin: bool, events: seq<Event>, now: Instant,
                         r: Result<EventsPage, HttpError>)
  {
    var page := IntParamOr(q.page, 1);
    var limit := IntParamOr(q.limit, 10);
    && (r.Failure? <==> (page - 1) * limit < 0)
    && (r.Failure? ==> r.error == FetchFailed)
    && (r.Success? ==> PageMeets(q, admin, events, now, r.value))
  }

  /** The total is the number of events visible to the caller, and the page
      is the window of them at the skip, in date order: as many as the
      window allows, each once at most, and each with the count 0. */
  ghost predicate PageMeets(q: EventsQuery, admin: bool, events: seq<Event>, now: Instant, p: EventsPage) {
    var visible := Query.Filter(events, VisibleSelector(q, admin, now));
    PageSize(q, visible, p) && PageWindow(q, visible, p) && PageEvents(q, admin, now, p.events)
  }

  /** The page is the window at the skip of the visible events put in date
      order. */
  ghost predicate PageWindow(q: EventsQuery, visible: seq<Event>, p: EventsPage) {
    var skip := (IntParamOr(q.page, 1) - 1) * IntParamOr(q.limit, 10);
    skip >= 0 &&
    exists sorted :: DateOrderOf(sorted, visible) && EventsOf(p.events) == Query.Window(sorted, skip, Abs(IntParamOr(q.limit, 10)))
  }

  predicate PageSize(q: EventsQuery, visible: seq<Event>, p: EventsPage) {
    var page := IntParamOr(q.page, 1);
    var limit := IntParamOr(q.limit, 10);
    var skip := (page - 1) * limit;
    && p.pagination.page == page && p.pagination.limit == limit
    && p.pagination.total == |visible|
    && p.pagination.pages == CeilDiv(|visible|, limit)
    && |p.events| == (if |visible| <= skip then 0 else if |visible| - skip < Abs(limit) then |visible| - skip else Abs(limit))
    && multiset(EventsOf(p.events)) <= multiset(visible)
  }

  predicate PageEvents(q: EventsQuery, admin: bool, now: Instant, listed: seq<ListedEvent>) {
    && (forall i :: 0 <= i < |listed| ==>
          Visible(q, admin, now, listed[i].event) && listed[i].approvedRegistrationCount == 0)
    && (forall i, j :: 0 <= i < j < |listed| ==> listed[i].event.date <= listed[j].event.date)
  }

  /** The query and the response once the filter is built. */
  function Respond(q: EventsQuery, f: EventFilter, events: seq<Event>)
    : (r: Result<EventsPage, HttpError>)
    ensures var page := IntParamOr(q.page, 1); var limit := IntParamOr(q.limit, 10); var skip := (page - 1) * limit;
      && (r.Failure? <==> skip < 0)
      && (r.Failure? ==> r.error == FetchFailed)
      && (r.Success? ==>
            && r.value.pagination.page == page && r.value.pagination.limit == limit
            && r.value.pagination.total == Query.Count(events, Selector(f))
            && r.value.pagination.pages == CeilDiv(r.value.pagination.total, limit)
            && FindEvents(f, events, skip, limit) == Success(EventsOf(r.value.events))
            && forall i :: 0 <= i < |r.value.events| ==> r.value.events[i].approvedRegistrationCount == 0)
  {
    var page := IntParamOr(q.page, 1);
    var limit := IntParamOr(q.limit, 10);
    match FindEvents(f, events, (page - 1) * limit, limit)
    case Failure(e) => Failure(e)
    case Success(found) =>
      var total := Query.Count(events, Selector(f));
      Success(EventsPage(WithCounts(found), Pagination(page, limit, total, CeilDiv(total, limit))))
  }

  /** GET once `isAdmin` is settled. */
  method ListEventsFor(q: EventsQuery, admin: bool, events: seq<Event>, now: Instant)
    returns (r: Result<EventsPage, HttpError>)
    ensures ListingMeets(q, admin, events, now, r)
  {
    var f := BuildFilter(admin, q.status, q.category, q.upcoming, now);
    assert forall e :: Matches(f, e) <==> Visible(q, admin, now, e);
    RespondMeets(q, admin, f, events, now);
    r := Respond(q, f, events);
  }

  /** A filter that admits exactly the visible events gives a listing that
      meets the route's promise. */
  lemma RespondMeets(q: EventsQuery, admin: bool, f: EventFilter, events: seq<Event>, now: Instant)
    requires forall e :: Matches(f, e) <==> Visible(q, admin, now, e)
    ensures ListingMeets(q, admin, events, now, Respond(q, f, events))
  {
    var r := Respond(q, f, events);
    if r.Success? {
      var page := IntParamOr(q.page, 1);
      var limit := IntParamOr(q.limit, 10);
      var found := FindEvents(f, events, (page - 1) * limit, limit).value;
      FoundPageMeets(q, admin, f, events, now, found);
    }
  }

  /** The page built from what `find` returns meets `PageMeets`. */
  lemma FoundPageMeets(q: EventsQuery, admin: bool, f: EventFilter, events: seq<Event>, now: Instant,
                       found: seq<Event>)
    requires forall e :: Matches(f, e) <==> Visible(q, admin, now, e)
    requires FindEvents(f, events, (IntParamOr(q.page, 1) - 1) * IntParamOr(q.limit, 10), IntParamOr(q.limit, 10)) == Success(found)
    ensures var limit := IntParamOr(q.limit, 10); var total := Query.Count(events, Selector(f));
      PageMeets(q, admin, events, now, EventsPage(WithCounts(found), Pagination(IntParamOr(q.page, 1), limit, total, CeilDiv(total, limit))))
  {
    Query.FilterSame(events, Selector(f), VisibleSelector(q, admin, now));
    Query.CountIsFilterLength(events, Selector(f));
    FoundEvents(q, admin, f, now, found);
  }

  /** Each event `find` returns is visible, and they come in date order. */
  lemma FoundEvents(q: EventsQuery, admin: bool, f: EventFilter, now: Instant, found: seq<Event>)
    requires forall e :: Matches(f, e) ==> Visible(q, admin, now, e)
    requires forall i :: 0 <= i < |found| ==> Matches(f, found[i])
    requires Query.SortedAsc(found, DateKey)
    ensures PageEvents(q, admin, now, WithCounts(found))
  {
    var listed := WithCounts(found);
    forall i | 0 <= i < |listed|
      ensures Visible(q, admin, now, listed[i].event)
    {
      assert Matches(f, found[i]);
    }
    forall i, j | 0 <= i < j < |listed|
      ensures listed[i].event.date <= listed[j].event.date
    {
      assert DateKey(found[i]) <= DateKey(found[j]);
    }
  }

  // ---------------------------------------------------------------- POST

  const MissingFields := HttpError(400, "Missing required fields: title, description, date, maxParticipants")
  const InvalidDate := HttpError(400, "Invalid date format")
  const BadMaxParticipants := HttpError(400, "maxParticipants must be a positive integer")
  const CreateFailed := HttpError(500, "Failed to create event")

  /** The catch of POST: `error.message || 'Failed to create event'`.
      The message of what threw (a body that is not JSON or cannot be
      destructured, a failed cast or validator) is not modelled here; it
      comes in as `message`. */
  function CaughtError(message: string): (e: HttpError)
    ensures e.status == 500
    ensures message != "" ==> e.message == message
    ensures message == "" ==> e == CreateFailed
  {
    HttpError(500, if message != "" then message else CreateFailed.message)
  }

  predicate IsInteger(n: real) {
    n == n.Floor as real
  }

  /** What the validation chain extracts from the body. */
  datatype CheckedBody = CheckedBody(date: Instant, maxParticipants: int)

  /** The validation chain of POST, in order: any of title, description,
      date and maxParticipants falsy (so a maxParticipants of 0 fails here),
      then a date that does not parse, then a maxParticipants that is not a
      positive integer.  `parseDate` is `new Date(value)`. */
  function CheckBody(body: JsVal, parseDate: JsVal -> Option<Instant>): (r: Result<CheckedBody, HttpError>)
    ensures (!Truthy(Get(body, "title")) || !Truthy(Get(body, "description")) || !Truthy(Get(body, "date"))
            || !Truthy(Get(body, "maxParticipants"))) ==> r == Failure(MissingFields)
    ensures r.Success? <==>
      && Truthy(Get(body, "title")) && Truthy(Get(body, "description")) && Truthy(Get(body, "date"))
      && Truthy(Get(body, "maxParticipants"))
      && parseDate(Get(body, "date")).Some?
      && Get(body, "maxParticipants").JNum? && IsInteger(Get(body, "maxParticipants").n) && Get(body, "maxParticipants").n > 0.0
    ensures r.Failure? ==> r.error in {MissingFields, InvalidDate, BadMaxParticipants}
    ensures r.Failure? && r.error == BadMaxParticipants ==> parseDate(Get(body, "date")).Some?
    ensures r.Success? ==>
      && r.value.date == parseDate(Get(body, "date")).value
      && r.value.maxParticipants >= 1
      && r.value.maxParticipants as real == Get(body, "maxParticipants").n
  {
    var title := Get(body, "title");
    var description := Get(body, "description");
    var date := Get(body, "date");
    var maxParticipants := Get(body, "maxParticipants");
    if !Truthy(title) || !Truthy(description) || !Truthy(date) || !Truthy(maxParticipants) then
      Failure(MissingFields)
    else if parseDate(date).None? then Failure(InvalidDate)
    else if !(maxParticipants.JNum? && IsInteger(maxParticipants.n)) || maxParticipants.n <= 0.0 then
      Failure(BadMaxParticipants)
    else Success(CheckedBody(parseDate(date).value, maxParticipants.n.Floor))
  }

  /** A maxParticipants of 0 is reported as a missing field. */
  lemma ZeroParticipantsIsMissing(body: JsVal, parseDate: JsVal -> Option<Instant>)
    requires Get(body, "maxParticipants") == JNum(0.0)
    ensures CheckBody(body, parseDate) == Failure(MissingFields)
  {
  }

  /** `Math.max(0, pointsReward)` with the destructuring default 0 for an
      undefined pointsReward.  None is NaN, which the Number cast of the
      schema then refuses. */
  function PointsReward(body: JsVal, otherToNumber: JsVal -> Option<real>): (r: Option<real>)
    ensures r.Some? ==> r.value >= 0.0
    ensures Get(body, "pointsReward").JUndefined? ==> r == Some(0.0)
    ensures Get(body, "pointsReward").JNum? ==>
      r == Some(if Get(body, "pointsReward").n > 0.0 then Get(body, "pointsReward").n else 0.0)
  {
    var given := Get(body, "pointsReward");
    var v := if given.JUndefined? then JNum(0.0) else given;
    match ToNumber(v, otherToNumber)
    case None => None
    case Some(n) => Some(if n > 0.0 then n else 0.0)
  }

  /** An enum path: the String cast, then the enum validator, which passes
      an unset path (the default applies; None here) and otherwise needs one
      of the names. */
  function CastEnum<T>(v: JsVal, parse: string -> Option<T>, showNum: real -> string): (r: Option<Option<T>>)
    ensures CastString(v, showNum).None? ==> r.None?
    ensures CastString(v, showNum) == Some(None) ==> r == Some(None)
    ensures CastString(v, showNum).Some? && CastString(v, showNum).value.Some? ==>
              var name := CastString(v, showNum).value.value;
              (r.Some? <==> parse(name).Some?) && (r.Some? ==> r.value == parse(name))
  {
    match CastString(v, showNum)
    case None => None
    case Some(None) => Some(None)
    case Some(Some(name)) => if parse(name).None? then None else Some(parse(name))
  }

  /** `{ ...body, organizer, pointsReward, createdAt, updatedAt }` cast to the
      schema: the spread's own organizer, pointsReward and timestamps are
      overwritten.  The date is the body's own value through the Date cast,
      not the handler's `eventDate`.  `castDetails` casts the paths no handler
      inspects.  None is a cast error. */
  function EventData(body: JsVal, organizer: Id, checked: CheckedBody, points: real,
                     parseDate: JsVal -> Option<Instant>, otherToNumber: JsVal -> Option<real>,
                     showNum: real -> string,
                     castDetails: JsVal -> Option<EventDetails>, now: Instant): (r: Option<EventFields>)
    ensures r.Some? ==> r.value.organizer == organizer && r.value.pointsReward == Some(points)
    ensures r.Some? ==> CastDate(Get(body, "date"), parseDate, otherToNumber) == Some(Some(r.value.date))
    ensures Get(body, "date").JBool? ==> r.None?
    ensures r.Some? ==> r.value.maxParticipants == checked.maxParticipants
    ensures r.Some? ==> r.value.createdAt == now && r.value.updatedAt == now
    ensures r.Some? ==> CastString(Get(body, "title"), showNum) == Some(Some(r.value.title))
    ensures r.Some? ==> CastString(Get(body, "description"), showNum) == Some(Some(r.value.description))
    ensures r.Some? ==> CastNumber(Get(body, "carbonSavedEstimateKg"), otherToNumber) == Some(r.value.carbonSavedEstimateKg)
    ensures r.Some? ==> CastBoolean(Get(body, "autoApproveRegistrations")) == Some(r.value.autoApproveRegistrations)
  {
    var title := CastString(Get(body, "title"), showNum);
    var description := CastString(Get(body, "description"), showNum);
    var category := CastEnum(Get(body, "category"), ParseCategory, showNum);
    var status := CastEnum(Get(body, "status"), ParseEventStatus, showNum);
    var auto := CastBoolean(Get(body, "autoApproveRegistrations"));
    var carbon := CastNumber(Get(body, "carbonSavedEstimateKg"), otherToNumber);
    var date := CastDate(Get(body, "date"), parseDate, otherToNumber);
    var details := castDetails(body);
    if title.None? || title.value.None? || description.None? || description.value.None? || date.None?
       || date.value.None? || category.None? || status.None? || details.None? || auto.None? || carbon.None? then None
    else
      Some(EventFields(title.value.value, description.value.value, date.value.value, organizer, checked.maxParticipants,
        Some(points), carbon.value, category.value, status.value, auto.value,
        details.value, now, now))
  }

  /** The event POST creates, or the response that stops it: the
      administrator gate; a body that is not JSON, or is null, which throws
      at the destructuring; the validation chain; then the casts and
      validators of the schema.  Every throw is answered by the catch with a
      500 carrying the thrown error's message (`errorMessage`). */
  function CreateDecision(headers: AuthLib.Headers, jwtVerify: string -> Result<Id, string>, users: map<Id, User>,
                          body: Option<JsVal>, parseDate: JsVal -> Option<Instant>,
                          otherToNumber: JsVal -> Option<real>, showNum: real -> string,
                          castDetails: JsVal -> Option<EventDetails>, errorMessage: string, newId: Id, now: Instant)
    : (r: Result<Event, HttpError>)
    ensures AuthLib.RequireAdmin(headers, jwtVerify, users).Failure? ==>
              r == Failure(AuthLib.RequireAdmin(headers, jwtVerify, users).error)
    ensures AuthLib.RequireAdmin(headers, jwtVerify, users).Success? && !Destructures(body) ==>
              r == Failure(CaughtError(errorMessage))
    ensures AuthLib.RequireAdmin(headers, jwtVerify, users).Success? && Destructures(body)
            && CheckBody(body.value, parseDate).Failure? ==>
              r == Failure(CheckBody(body.value, parseDate).error)
    ensures r.Success? ==>
      && AuthLib.RequireAdmin(headers, jwtVerify, users).Success?
      && Destructures(body)
      && CheckBody(body.value, parseDate).Success?
      && r.value.id == newId
      && r.value.organizer == AuthLib.RequireAdmin(headers, jwtVerify, users).value.id
      && Some(r.value.pointsReward) == PointsReward(body.value, otherToNumber)
      && CastDate(Get(body.value, "date"), parseDate, otherToNumber) == Some(Some(r.value.date))
      && (!MillisecondString(Get(body.value, "date"), otherToNumber) ==>
            r.value.date == CheckBody(body.value, parseDate).value.date)
      && r.value.maxParticipants == CheckBody(body.value, parseDate).value.maxParticipants
      && r.value.createdAt == now && r.value.updatedAt == now
      && EventModel.Valid(r.value)
    ensures r.Failure? && AuthLib.RequireAdmin(headers, jwtVerify, users).Success? && Destructures(body)
            && CheckBody(body.value, parseDate).Success? ==>
              r == Failure(CaughtError(errorMessage))
  {
    match AuthLib.RequireAdmin(headers, jwtVerify, users)
    case Failure(e) => Failure(e)
    case Success(admin) =>
      if !Destructures(body) then Failure(CaughtError(errorMessage))
      else
        match CheckBody(body.value, parseDate)
        case Failure(e) => Failure(e)
        case Success(checked) =>
          match PointsReward(body.value, otherToNumber)
          case None => Failure(CaughtError(errorMessage))
          case Some(points) =>
            match EventData(body.value, admin.id, checked, points, parseDate, otherToNumber, showNum, castDetails, now)
            case None => Failure(CaughtError(errorMessage))
            case Some(fields) =>
              match Save(newId, fields)
              case None => Failure(CaughtError(errorMessage))
              case Some(e) => Success(e)
  }

  /** An administrator's request whose body is JSON null, or not JSON, is a
      500 and not the 400 for missing fields. */
  lemma NullBodyIsServerError(headers: AuthLib.Headers, jwtVerify: string -> Result<Id, string>, users: map<Id, User>,
                              body: Option<JsVal>, parseDate: JsVal -> Option<Instant>,
                              otherToNumber: JsVal -> Option<real>, showNum: real -> string,
                              castDetails: JsVal -> Option<EventDetails>, errorMessage: string, newId: Id, now: Instant)
    requires AuthLib.RequireAdmin(headers, jwtVerify, users).Success?
    requires body == None || body == Some(JNull)
    ensures CreateDecision(headers, jwtVerify, users, body, parseDate, otherToNumber, showNum, castDetails,
                           errorMessage, newId, now).Failure?
    ensures CreateDecision(headers, jwtVerify, users, body, parseDate, otherToNumber, showNum, castDetails,
                           errorMessage, newId, now).error.status == 500
  {
  }

  /** `date: true` passes the handler's own check, since `new Date(true)` is
      a valid date, but the schema's Date cast refuses a boolean: the answer
      is a 500. */
  lemma BooleanDateIsServerError(headers: AuthLib.Headers, jwtVerify: string -> Result<Id, string>,
                                 users: map<Id, User>, body: JsVal, parseDate: JsVal -> Option<Instant>,
                                 otherToNumber: JsVal -> Option<real>, showNum: real -> string,
                                 castDetails: JsVal -> Option<EventDetails>, errorMessage: string, newId: Id,
                                 now: Instant)
    requires AuthLib.RequireAdmin(headers, jwtVerify, users).Success?
    requires Get(body, "date") == JBool(true) && CheckBody(body, parseDate).Success?
    ensures CreateDecision(headers, jwtVerify, users, Some(body), parseDate, otherToNumber, showNum, castDetails,
                           errorMessage, newId, now) == Failure(CaughtError(errorMessage))
  {
  }

  const CreatedStatus := 201
  const CreatedMessage := "Event created successfully"

  datatype EventCreated = EventCreated(status: int, message: string, event: Event)

  /** `POST /api/events`: the decision above, and on success one new event
      in the store under the id the database assigns, answered with 201. */
  method CreateEvent(store: Db.Store, headers: AuthLib.Headers, jwtVerify: string -> Result<Id, string>,
                     body: Option<JsVal>, parseDate: JsVal -> Option<Instant>, otherToNumber: JsVal -> Option<real>,
                     showNum: real -> string,
                     castDetails: JsVal -> Option<EventDetails>, errorMessage: string, newId: Id, now: Instant)
    returns (r: Result<EventCreated, HttpError>)
    requires store.Valid() && newId !in store.events
    modifies store
    ensures store.Valid()
    ensures store.users == old(store.users) && store.registrations == old(store.registrations)
    ensures store.activities == old(store.activities)
    ensures var d := CreateDecision(headers, jwtVerify, old(store.users), body, parseDate, otherToNumber, showNum,
                                    castDetails, errorMessage, newId, now);
      && (d.Failure? ==> r == Failure(d.error) && store.events == old(store.events))
      && (d.Success? ==> r == Success(EventCreated(CreatedStatus, CreatedMessage, d.value))
                         && store.events == old(store.events)[newId := d.value])
  {
    var d := CreateDecision(headers, jwtVerify, store.users, body, parseDate, otherToNumber, showNum,
                            castDetails, errorMessage, newId, now);
    if d.Failure? {
      return Failure(d.error);
    }
    store.events := store.events[newId := d.value];
    r := Success(EventCreated(CreatedStatus, CreatedMessage, d.value));
  }

  // ---------------------------------------------------------------- PUT

  /** `PUT /api/events`: updates go to the per-event route, so the
      collection answers 404 whatever the request. */
  function PutCollection(): (e: HttpError)
    ensures e.status == 404
  {
    HttpError(404, "PUT requests should go to /api/events/[eventId]")
  }
}
