/** The Event schema: required title (trimmed), description, date,
    organizer and maxParticipants (at least 1); pointsReward (default 0, at
    least 0); category and status enums with defaults; and the two count
    virtuals over the registrations collection. */
module EventModel {
  import opened Wrappers
  import opened Common
  import JsString
  import Query
  import opened RegistrationModel

  datatype Category = TreePlanting | Cleanup | Workshop | CollectionDrive | Competition | Awareness | OtherCategory

  function CategoryName(c: Category): string {
    match c
    case TreePlanting => "tree-planting"
    case Cleanup => "cleanup"
    case Workshop => "workshop"
    case CollectionDrive => "collection-drive"
    case Competition => "competition"
    case Awareness => "awareness"
    case OtherCategory => "other"
  }

  /** The schema's enum check on `category`. */
  function ParseCategory(s: string): (r: Option<Category>)
    ensures r.Some? <==> s in {"tree-planting", "cleanup", "workshop", "collection-drive", "competition", "awareness", "other"}
    ensures r.Some? ==> CategoryName(r.value) == s
  {
    if s == "tree-planting" then Some(TreePlanting)
    else if s == "cleanup" then Some(Cleanup)
    else if s == "workshop" then Some(Workshop)
    else if s == "collection-drive" then Some(CollectionDrive)
    else if s == "competition" then Some(Competition)
    else if s == "awareness" then Some(Awareness)
    else if s == "other" then Some(OtherCategory)
    else None
  }

  lemma CategoryNameRoundTrip(c: Category)
    ensures ParseCategory(CategoryName(c)) == Some(c)
  {
  }

  datatype EventStatus = Draft | Published | Cancelled | Completed

  function EventStatusName(s: EventStatus): string {
    match s
    case Draft => "draft"
    case Published => "published"
    case Cancelled => "cancelled"
    case Completed => "completed"
  }

  /** The schema's enum check on `status`. */
  function ParseEventStatus(s: string): (r: Option<EventStatus>)
    ensures r.Some? <==> s in {"draft", "published", "cancelled", "completed"}
    ensures r.Some? ==> EventStatusName(r.value) == s
  {
    if s == "draft" then Some(Draft)
    else if s == "published" then Some(Published)
    else if s == "cancelled" then Some(Cancelled)
    else if s == "completed" then Some(Completed)
    else None
  }

  lemma EventStatusNameRoundTrip(s: EventStatus)
    ensures ParseEventStatus(EventStatusName(s)) == Some(s)
  {
  }

  datatype Location = Location(address: Option<string>, placeName: Option<string>, lat: Option<real>, lng: Option<real>)
  datatype ContactInfo = ContactInfo(email: Option<string>, phone: Option<string>)

  /** The paths of an event that no route of the model inspects. */
  datatype EventDetails = EventDetails(
    endDate: Option<Instant>,
    location: Location,
    registrationDeadline: Option<Instant>,
    requiresSkills: seq<string>,
    images: seq<string>,
    tags: seq<string>,
    requirements: Option<string>,
    whatToBring: Option<string>,
    contactInfo: ContactInfo)

  datatype Event = Event(
    id: Id,
    title: string,
    description: string,
    date: Instant,
    organizer: Id,
    maxParticipants: int,
    pointsReward: real,
    carbonSavedEstimateKg: real,
    category: Category,
    status: EventStatus,
    autoApproveRegistrations: bool,
    details: EventDetails,
    createdAt: Instant,
    updatedAt: Instant)

  /** What the schema's validators accept.  The title is stored trimmed, so
      a stored title is never blank. */
  predicate Valid(e: Event) {
    e.title != "" && JsString.Trimmed(e.title) && e.description != ""
    && e.maxParticipants >= 1 && e.pointsReward >= 0.0
  }

  /** An event's fields before the schema applies its defaults and its
      `trim` setter: an absent path is None. */
  datatype EventFields = EventFields(
    title: string,
    description: string,
    date: Instant,
    organizer: Id,
    maxParticipants: int,
    pointsReward: Option<real>,
    carbonSavedEstimateKg: Option<real>,
    category: Option<Category>,
    status: Option<EventStatus>,
    autoApproveRegistrations: Option<bool>,
    details: EventDetails,
    createdAt: Instant,
    updatedAt: Instant)

  /** The document `new Event(fields)` builds: the title trimmed, and
      pointsReward 0, carbonSavedEstimateKg 0, category `other`, status
      `draft` and autoApproveRegistrations true where absent. */
  function Materialize(id: Id, f: EventFields): (e: Event)
    ensures e.id == id && e.date == f.date && e.organizer == f.organizer
    ensures e.title == JsString.Trim(f.title) && e.description == f.description
    ensures e.maxParticipants == f.maxParticipants
    ensures e.pointsReward == (if f.pointsReward.Some? then f.pointsReward.value else 0.0)
    ensures e.carbonSavedEstimateKg == (if f.carbonSavedEstimateKg.Some? then f.carbonSavedEstimateKg.value else 0.0)
    ensures e.category == (if f.category.Some? then f.category.value else OtherCategory)
    ensures e.status == (if f.status.Some? then f.status.value else Draft)
    ensures e.autoApproveRegistrations == (f.autoApproveRegistrations != Some(false))
  {
    Event(id, JsString.Trim(f.title), f.description, f.date, f.organizer, f.maxParticipants,
      f.pointsReward.GetOr(0.0), f.carbonSavedEstimateKg.GetOr(0.0),
      f.category.GetOr(OtherCategory), f.status.GetOr(Draft),
      f.autoApproveRegistrations.GetOr(true), f.details, f.createdAt, f.updatedAt)
  }

  /** `event.save()`: the document when the validators accept it, otherwise
      a validation error (None). */
  function Save(id: Id, f: EventFields): (r: Option<Event>)
    ensures r.Some? <==> Valid(Materialize(id, f))
    ensures r.Some? ==> r.value == Materialize(id, f)
    ensures r.Some? ==> f.maxParticipants >= 1 && !JsString.AllSpace(f.title)
  {
    var e := Materialize(id, f);
    if Valid(e) then Some(e) else None
  }

  /** A title of nothing but whitespace trims to "" and fails `required`. */
  lemma BlankTitleRejected(id: Id, f: EventFields)
    requires JsString.AllSpace(f.title)
    ensures Save(id, f).None?
  {
  }

  /** The virtual `registrationCount`: registrations whose event is `id`. */
  function RegistrationCount(regs: seq<Registration>, id: Id): (n: nat)
    ensures n <= |regs|
  {
    Query.Count(regs, (r: Registration) => r.event == id)
  }

  /** The virtual `approvedRegistrationCount`: those that are also approved. */
  function ApprovedRegistrationCount(regs: seq<Registration>, id: Id): (n: nat)
    ensures n <= |regs|
  {
    Query.Count(regs, (r: Registration) => r.event == id && r.status == Approved)
  }

  lemma ApprovedAtMostRegistered(regs: seq<Registration>, id: Id)
    ensures ApprovedRegistrationCount(regs, id) <= RegistrationCount(regs, id)
  {
    Query.CountMonotone(regs, (r: Registration) => r.event == id && r.status == Approved,
                        (r: Registration) => r.event == id);
  }
}
