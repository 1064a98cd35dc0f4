/** app/api/activities/pending/route.js: the administrators' review queue,
    every pending activity, newest first. */
module ActivitiesPendingRoute {
  import opened Wrappers
  import opened Common
  import opened Query
  import opened ActivityModel
  import AuthLib
  import UserModel
  import ActivitiesRoute

  predicate IsPending(a: Activity) {
    a.status == Pending
  }

  /** `Activity.find({ status: 'pending' }).sort('-createdAt')`. */
  function PendingOf(activities: seq<Activity>): (r: seq<Activity>)
    ensures forall i :: 0 <= i < |r| ==> r[i].status == Pending
    ensures SortedDesc(r, ActivitiesRoute.CreatedAt)
    ensures multiset(r) == multiset(Filter(activities, IsPending))
  {
    var pending := Filter(activities, IsPending);
    FilterMembers(activities, IsPending);
    var r := SortDesc(pending, ActivitiesRoute.CreatedAt);
    forall i | 0 <= i < |r|
      ensures r[i].status == Pending
    {
      assert r[i] in multiset(pending);
    }
    r
  }

  /** The queue holds exactly the pending activities. */
  lemma {:induction false} QueueIsExactlyPending(activities: seq<Activity>, a: Activity)
    ensures a in PendingOf(activities) <==> a in activities && a.status == Pending
  {
    var queue := PendingOf(activities);
    var pending := Filter(activities, IsPending);
    FilterMembers(activities, IsPending);
    assert a in queue <==> a in multiset(queue);
    assert a in pending <==> a in multiset(pending);
  }

  /** `GET /api/activities/pending`: 401 for a missing or invalid token, 403
      unless the caller is a known administrator, then the queue. */
  function PendingActivities(headers: AuthLib.Headers, jwtVerify: string -> Result<Id, string>,
                             users: map<Id, UserModel.User>, activities: seq<Activity>)
    : (r: Result<seq<Activity>, HttpError>)
    ensures var gate := AuthLib.RequireAdmin(headers, jwtVerify, users);
      && (gate.Failure? ==> r == Failure(gate.error))
      && (gate.Success? ==> r == Success(PendingOf(activities)))
  {
    match AuthLib.RequireAdmin(headers, jwtVerify, users)
    case Failure(e) => Failure(e)
    case Success(_) => Success(PendingOf(activities))
  }

  /** A caller without a user record is refused with 403 after the token
      checks, like a non-administrator. */
  lemma UnknownCallerIsForbidden(headers: AuthLib.Headers, jwtVerify: string -> Result<Id, string>,
                                 users: map<Id, UserModel.User>, activities: seq<Activity>)
    requires AuthLib.Authenticate(headers, jwtVerify).Success?
    requires AuthLib.Authenticate(headers, jwtVerify).value !in users
    ensures PendingActivities(headers, jwtVerify, users, activities) == Failure(AuthLib.AdminRequired)
  {
  }
}
