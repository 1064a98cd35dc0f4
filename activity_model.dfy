/** The Activity schema: a required owner and free-form type, a status enum
    with default `pending`, and optional approval data. */
module ActivityModel {
  import opened Wrappers
  import opened Common

  datatype ActivityStatus = Pending | Approved | Rejected

  function StatusName(s: ActivityStatus): string {
    match s
    case Pending => "pending"
    case Approved => "approved"
    case Rejected => "rejected"
  }

  /** The schema's enum check on `status`. */
  function ParseStatus(s: string): (r: Option<ActivityStatus>)
    ensures r.Some? <==> s in {"pending", "approved", "rejected"}
    ensures r.Some? ==> StatusName(r.value) == s
  {
    if s == "pending" then Some(Pending)
    else if s == "approved" then Some(Approved)
    else if s == "rejected" then Some(Rejected)
    else None
  }

  datatype ActivityLocation = ActivityLocation(lat: Option<real>, lng: Option<real>, placeName: Option<string>)

  function EmptyLocation(): ActivityLocation {
    ActivityLocation(None, None, None)
  }

  datatype Activity = Activity(
    id: Id,
    user: Id,
    activityType: string,
    description: Option<string>,
    location: ActivityLocation,
    images: seq<string>,
    points: int,
    carbonSavedEstimateKg: real,
    status: ActivityStatus,
    adminComment: Option<string>,
    createdAt: Instant,
    approvedAt: Option<Instant>)

  /** `type` is required and any non-empty string is accepted. */
  predicate Valid(a: Activity) {
    a.activityType != ""
  }

  /** An activity as `Activity.create` stores it: the defaults give status
      `pending`, the creation time, and no approval data. */
  function NewActivity(id: Id, user: Id, activityType: string, description: Option<string>,
                       location: ActivityLocation, images: seq<string>, points: int,
                       carbon: real, now: Instant): (a: Activity)
    ensures a.id == id && a.user == user && a.activityType == activityType
    ensures a.images == images && a.points == points && a.location == location
    ensures a.status == Pending && a.createdAt == now && a.approvedAt.None? && a.adminComment.None?
    ensures Valid(a) <==> activityType != ""
  {
    Activity(id, user, activityType, description, location, images, points, carbon, Pending, None, now, None)
  }
}
