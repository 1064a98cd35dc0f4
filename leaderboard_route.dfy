/** app/api/leaderboard/route.js: the ten users with the most green points,
    among those with any, projected to their public leaderboard fields. */
module LeaderboardRoute {
  import opened Wrappers
  import opened Common
  import opened Query
  import opened UserModel

  /** `.select('name greenPoints badges')`, plus the id MongoDB always
      returns. */
  datatype LeaderEntry = LeaderEntry(id: Id, name: string, greenPoints: int, badges: seq<string>)

  const LeaderboardFailed := HttpError(500, "Failed to get leaderboard")
  const LeaderLimit := 10

  function Entry(u: User): LeaderEntry {
    LeaderEntry(u.id, u.name, u.greenPoints, u.badges)
  }

  predicate HasPoints(u: User) {
    u.greenPoints > 0
  }

  function GreenPoints(u: User): int {
    u.greenPoints
  }

  /** The projection of each selected user, in order. */
  function Project(users: seq<User>): (r: seq<LeaderEntry>)
    ensures |r| == |users|
    ensures forall i :: 0 <= i < |r| ==> r[i] == Entry(users[i])
  {
    if |users| == 0 then [] else [Entry(users[0])] + Project(users[1..])
  }

  /** `User.find({ greenPoints: { $gt: 0 } }).sort('-greenPoints').limit(10)`. */
  function Leaders(users: seq<User>): (r: seq<User>)
    ensures |r| == if Count(users, HasPoints) < LeaderLimit then Count(users, HasPoints) else LeaderLimit
    ensures multiset(r) <= multiset(Filter(users, HasPoints))
    ensures Count(users, HasPoints) <= LeaderLimit ==> multiset(r) == multiset(Filter(users, HasPoints))
    ensures forall i :: 0 <= i < |r| ==> r[i].greenPoints > 0 && r[i] in users
    ensures SortedDesc(r, GreenPoints)
    ensures forall u :: u in users && u.greenPoints > 0 && u !in r ==>
              |r| == LeaderLimit && u.greenPoints <= r[LeaderLimit - 1].greenPoints
  {
    CountIsFilterLength(users, HasPoints);
    var r := TopDesc(users, HasPoints, GreenPoints, LeaderLimit);
    assert forall i :: 0 <= i < |r| ==> HasPoints(r[i]) && r[i] in users;
    forall u | u in users && u.greenPoints > 0 && u !in r
      ensures |r| == LeaderLimit && u.greenPoints <= r[LeaderLimit - 1].greenPoints
    {
      assert HasPoints(u);
    }
    r
  }

  /** The handler; `users` is None when the database cannot be read. */
  function Leaderboard(users: Option<seq<User>>): (r: Result<seq<LeaderEntry>, HttpError>)
    ensures users.None? <==> r == Failure(LeaderboardFailed)
    ensures users.Some? ==> r.Success? && r.value == Project(Leaders(users.value))
  {
    match users
    case None => Failure(LeaderboardFailed)
    case Some(us) => Success(Project(Leaders(us)))
  }

  /** Every entry on the board is a user of the store with positive points. */
  lemma BoardEntriesArePositive(users: seq<User>)
    ensures var board := Leaderboard(Some(users)).value;
      forall i :: 0 <= i < |board| ==> board[i].greenPoints > 0 && exists u :: u in users && board[i] == Entry(u)
  {
    var top := Leaders(users);
    var board := Project(top);
    forall i | 0 <= i < |board|
      ensures board[i].greenPoints > 0 && exists u :: u in users && board[i] == Entry(u)
    {
      assert board[i] == Entry(top[i]) && top[i] in users;
    }
  }

  /** The board is in non-increasing order of points. */
  lemma BoardIsOrdered(users: seq<User>)
    ensures var board := Leaderboard(Some(users)).value;
      forall i, j :: 0 <= i < j < |board| ==> board[i].greenPoints >= board[j].greenPoints
  {
    var top := Leaders(users);
    var board := Project(top);
    forall i, j | 0 <= i < j < |board|
      ensures board[i].greenPoints >= board[j].greenPoints
    {
      assert board[i] == Entry(top[i]) && board[j] == Entry(top[j]);
      assert GreenPoints(top[i]) >= GreenPoints(top[j]);
    }
  }

  /** Ten entries, or every user with positive points when there are fewer,
      and nobody left off with positive points has more than the last one
      shown. */
  lemma BoardKeepsTopTen(users: seq<User>)
    ensures var board := Leaderboard(Some(users)).value;
      && |board| == (if Count(users, HasPoints) < LeaderLimit then Count(users, HasPoints) else LeaderLimit)
      && forall u :: u in users && u.greenPoints > 0 && Entry(u) !in board ==>
           |board| == LeaderLimit && u.greenPoints <= board[LeaderLimit - 1].greenPoints
  {
    var top := Leaders(users);
    var board := Project(top);
    forall u | u in users && u.greenPoints > 0 && Entry(u) !in board
      ensures |board| == LeaderLimit && u.greenPoints <= board[LeaderLimit - 1].greenPoints
    {
      assert u !in top by {
        forall k | 0 <= k < |top|
          ensures top[k] != u
        {
          assert board[k] == Entry(top[k]);
        }
      }
      assert board[LeaderLimit - 1] == Entry(top[LeaderLimit - 1]);
    }
  }
}
