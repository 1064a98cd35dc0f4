/** The Registration schema: a link from one event to one user, a status
    enum with default `pending`, a t-shirt size enum, points awarded (default
    0) and the unique (event, user) index. */
module RegistrationModel {
  import opened Wrappers
  import opened Common

  datatype RegStatus = Pending | Approved | Declined | Waitlisted | CheckedIn | NoShow

  function StatusName(s: RegStatus): string {
    match s
    case Pending => "pending"
    case Approved => "approved"
    case Declined => "declined"
    case Waitlisted => "waitlisted"
    case CheckedIn => "checked-in"
    case NoShow => "no-show"
  }

  /** The schema's enum check on `status`. */
  function ParseStatus(s: string): (r: Option<RegStatus>)
    ensures r.Some? <==> s in {"pending", "approved", "declined", "waitlisted", "checked-in", "no-show"}
    ensures r.Some? ==> StatusName(r.value) == s
  {
    if s == "pending" then Some(Pending)
    else if s == "approved" then Some(Approved)
    else if s == "declined" then Some(Declined)
    else if s == "waitlisted" then Some(Waitlisted)
    else if s == "checked-in" then Some(CheckedIn)
    else if s == "no-show" then Some(NoShow)
    else None
  }

  lemma StatusNameRoundTrip(s: RegStatus)
    ensures ParseStatus(StatusName(s)) == Some(s)
  {
  }

  datatype TShirtSize = XS | S | M | L | XL | XXL

  function TShirtName(t: TShirtSize): string {
    match t
    case XS => "XS"
    case S => "S"
    case M => "M"
    case L => "L"
    case XL => "XL"
    case XXL => "XXL"
  }

  /** The schema's enum check on `tshirtSize`. */
  function ParseTShirt(s: string): (r: Option<TShirtSize>)
    ensures r.Some? <==> s in {"XS", "S", "M", "L", "XL", "XXL"}
    ensures r.Some? ==> TShirtName(r.value) == s
  {
    if s == "XS" then Some(XS)
    else if s == "S" then Some(S)
    else if s == "M" then Some(M)
    else if s == "L" then Some(L)
    else if s == "XL" then Some(XL)
    else if s == "XXL" then Some(XXL)
    else None
  }

  datatype EmergencyContact = EmergencyContact(name: Option<string>, phone: Option<string>, relationship: Option<string>)

  /** `event` and `user` are required ObjectIds, so they are plain fields;
      every path without `required` or a default is an Option. */
  datatype Registration = Registration(
    id: Id,
    event: Id,
    user: Id,
    status: RegStatus,
    registeredAt: Instant,
    approvedAt: Option<Instant>,
    checkedInAt: Option<Instant>,
    notes: Option<string>,
    skills: seq<string>,
    emergencyContact: EmergencyContact,
    dietaryRestrictions: Option<string>,
    tshirtSize: Option<TShirtSize>,
    volunteerRole: Option<string>,
    pointsAwarded: int,
    pointsAwardedAt: Option<Instant>,
    adminComment: Option<string>,
    createdAt: Instant,
    updatedAt: Instant)

  /** A registration created with only its event and user: status `pending`,
      no points, and registeredAt/createdAt/updatedAt all the creation time. */
  function NewRegistration(id: Id, event: Id, user: Id, now: Instant): (r: Registration)
    ensures r.id == id && r.event == event && r.user == user
    ensures r.status == Pending && r.pointsAwarded == 0
    ensures r.registeredAt == now && r.createdAt == now && r.updatedAt == now
    ensures r.approvedAt.None? && r.checkedInAt.None? && r.pointsAwardedAt.None? && r.tshirtSize.None?
  {
    Registration(id, event, user, Pending, now, None, None, None, [],
      EmergencyContact(None, None, None), None, None, None, 0, None, None, now, now)
  }

  /** The unique compound index { event: 1, user: 1 }. */
  ghost predicate UniquePairs(regs: map<Id, Registration>) {
    forall a, b :: a in regs && b in regs && a != b ==>
      regs[a].event != regs[b].event || regs[a].user != regs[b].user
  }

  /** Removing a registration keeps the pairs unique. */
  lemma RemoveKeepsUnique(regs: map<Id, Registration>, id: Id)
    requires UniquePairs(regs)
    ensures UniquePairs(regs - {id})
  {
  }
}
