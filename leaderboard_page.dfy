/** app/leaderboard/page.jsx: the public leaderboard.  Each render builds a
    fresh `stages` array, computes the level filter and the four headline
    figures from it, then renders the level buttons with
    `stages.reverse()` (which reverses the array in place) and after that
    the rows, whose stage is looked up in the reversed array. */
module LeaderboardPage {
  import opened Wrappers
  import opened Query
  import opened Stages

  /** A leader as the page receives it from `/api/leaderboard`. */
  datatype ClientLeader = ClientLeader(id: string, name: Option<string>, greenPoints: Option<int>, badges: Option<seq<string>>)

  // ------------------------------------------------------------ helpers

  /** `['🥇', '🥈', '🥉'][index]`, with 🏅 for every later rank. */
  function RankIcon(index: nat): (icon: string)
    ensures index == 0 ==> icon == "\U{1F947}"
    ensures index == 1 ==> icon == "\U{1F948}"
    ensures index == 2 ==> icon == "\U{1F949}"
    ensures index >= 3 ==> icon == "\U{1F3C5}"
  {
    if index == 0 then "\U{1F947}"
    else if index == 1 then "\U{1F948}"
    else if index == 2 then "\U{1F949}"
    else "\U{1F3C5}"
  }

  /** `charCodeAt(0)`: the first UTF-16 code unit, which for a character
      outside the Basic Multilingual Plane is its high surrogate. */
  function FirstCodeUnit(name: string): (u: nat)
    requires |name| > 0
    ensures u < 0x10000
    ensures (name[0] as int) < 0x10000 ==> u == name[0] as int
  {
    var c := name[0] as int;
    if c < 0x10000 then c else 0xD800 + (c - 0x10000) / 0x400
  }

  const AvatarCount := 10

  /** `name ? name.charCodeAt(0) % avatars.length : 0`. */
  function AvatarIndex(name: Option<string>): (i: nat)
    ensures i < AvatarCount
    ensures name.None? || name == Some("") ==> i == 0
    ensures name.Some? && name.value != "" ==> i == FirstCodeUnit(name.value) % AvatarCount
  {
    if name.Some? && name.value != "" then FirstCodeUnit(name.value) % AvatarCount else 0
  }

  /** `getStageInfo(leader.greenPoints)`: with no points no range holds, so
      the lookup falls back to the first element. */
  function LeaderStage(stages: seq<Stage>, points: Option<int>): Stage
    requires |stages| > 0
  {
    match points
    case None => stages[0]
    case Some(p) => StageOf(stages, p)
  }

  function PointsOrZero(points: Option<int>): int {
    match points
    case None => 0
    case Some(p) => p
  }

  function BadgeCount(badges: Option<seq<string>>): nat {
    match badges
    case None => 0
    case Some(b) => |b|
  }

  // ------------------------------------------------------ filter, figures

  /** The leaders shown for a level filter. */
  function FilteredLeaders(stages: seq<Stage>, leaders: seq<ClientLeader>, filterLevel: string): (r: seq<ClientLeader>)
    requires |stages| > 0
    ensures filterLevel == "all" ==> r == leaders
    ensures Subsequence(r, leaders)
    ensures filterLevel != "all" ==>
              forall l :: l in r <==> l in leaders && LeaderStage(stages, l.greenPoints).name == filterLevel
  {
    if filterLevel == "all" then
      SubsequenceRefl(leaders);
      leaders
    else
      var level := (l: ClientLeader) => LeaderStage(stages, l.greenPoints).name == filterLevel;
      FilterSubsequence(leaders, level);
      FilterMembers(leaders, level);
      Filter(leaders, level)
  }

  function SumPoints(leaders: seq<ClientLeader>): int {
    if |leaders| == 0 then 0 else PointsOrZero(leaders[0].greenPoints) + SumPoints(leaders[1..])
  }

  function SumBadges(leaders: seq<ClientLeader>): nat {
    if |leaders| == 0 then 0 else BadgeCount(leaders[0].badges) + SumBadges(leaders[1..])
  }

  predicate IsGuardian(stages: seq<Stage>, l: ClientLeader)
    requires |stages| > 0
  {
    LeaderStage(stages, l.greenPoints).name == "Guardian"
  }

  datatype TopStats = TopStats(warriors: nat, combinedPoints: int, totalBadges: nat, guardians: nat)

  /** The four headline figures, over all leaders whatever the filter. */
  function Stats(stages: seq<Stage>, leaders: seq<ClientLeader>): (s: TopStats)
    requires |stages| > 0
    ensures s.warriors == |leaders|
    ensures s.guardians <= s.warriors
    ensures s.guardians == |Filter(leaders, (l: ClientLeader) => IsGuardian(stages, l))|
    ensures s.combinedPoints == SumPoints(leaders) && s.totalBadges == SumBadges(leaders)
  {
    var guardians := Filter(leaders, (l: ClientLeader) => IsGuardian(stages, l));
    TopStats(|leaders|, SumPoints(leaders), SumBadges(leaders), |guardians|)
  }

  /** The sums split over any cut of the list, so each leader adds their
      own points (0 when missing) and badge count exactly once. */
  lemma {:induction false} SumsSplit(a: seq<ClientLeader>, b: seq<ClientLeader>)
    ensures SumPoints(a + b) == SumPoints(a) + SumPoints(b)
    ensures SumBadges(a + b) == SumBadges(a) + SumBadges(b)
  {
    if |a| > 0 {
      assert (a + b)[1..] == a[1..] + b;
      SumsSplit(a[1..], b);
    } else {
      assert a + b == b;
    }
  }

  /** A single leader contributes their points, or 0 when they have none,
      and the length of their badge list. */
  lemma SumOfOne(l: ClientLeader)
    ensures SumPoints([l]) == PointsOrZero(l.greenPoints)
    ensures SumBadges([l]) == BadgeCount(l.badges)
  {
  }

  /** With every leader's points positive the combined figure is at least
      the number of leaders. */
  lemma {:induction false} CombinedAtLeastCount(leaders: seq<ClientLeader>)
    requires forall i :: 0 <= i < |leaders| ==> leaders[i].greenPoints.Some? && leaders[i].greenPoints.value > 0
    ensures SumPoints(leaders) >= |leaders|
  {
    if |leaders| > 0 {
      CombinedAtLeastCount(leaders[1..]);
    }
  }

  // ----------------------------------------------------------------- rows

  datatype Row = Row(rank: nat, icon: Option<string>, avatar: nat, stage: Stage, points: int,
                     badgeCount: nat, shownBadges: seq<string>, moreBadges: nat)

  /** The row of the leader at `index`: the crown icon only for the first
      three, the stage for `greenPoints || 0`, at most three badges and a
      "+n" for the rest. */
  function MakeRow(stages: seq<Stage>, l: ClientLeader, index: nat): (row: Row)
    requires |stages| > 0
    ensures row.stage == StageOf(stages, PointsOrZero(l.greenPoints))
    ensures row.icon.Some? <==> index < 3
    ensures row.avatar < AvatarCount
    ensures row.badgeCount == |row.shownBadges| + row.moreBadges
    ensures |row.shownBadges| <= 3
    ensures row.moreBadges > 0 ==> |row.shownBadges| == 3
    ensures l.badges.Some? ==> |row.shownBadges| <= |l.badges.value| && row.shownBadges + l.badges.value[|row.shownBadges|..] == l.badges.value
  {
    var badges := if l.badges.Some? then l.badges.value else [];
    var shown := if |badges| <= 3 then badges else badges[..3];
    Row(index, if index < 3 then Some(RankIcon(index)) else None, AvatarIndex(l.name),
        StageOf(stages, PointsOrZero(l.greenPoints)), PointsOrZero(l.greenPoints),
        BadgeCount(l.badges), shown, if |badges| > 3 then |badges| - 3 else 0)
  }

  function Rows(stages: seq<Stage>, leaders: seq<ClientLeader>): (rows: seq<Row>)
    requires |stages| > 0
    ensures |rows| == |leaders|
    ensures forall i :: 0 <= i < |rows| ==> rows[i] == MakeRow(stages, leaders[i], i)
  {
    seq(|leaders|, i requires 0 <= i < |leaders| => MakeRow(stages, leaders[i], i))
  }

  function Names(stages: seq<Stage>): (names: seq<string>)
    ensures |names| == |stages|
    ensures forall i :: 0 <= i < |names| ==> names[i] == stages[i].name
  {
    seq(|stages|, i requires 0 <= i < |stages| => stages[i].name)
  }

  /** What one render shows: the level buttons, the rows, the figures.
      All three appear only once loaded, without error, with leaders; the
      figures are None while hidden. */
  datatype View = View(buttons: seq<string>, rows: seq<Row>, stats: Option<TopStats>)

  predicate ListShown(leaders: seq<ClientLeader>, loading: bool, failed: bool) {
    !loading && !failed && |leaders| > 0
  }

  // ------------------------------------------------------- in-place reverse

  /** `Array.prototype.reverse`: swaps the ends towards the middle. */
  method ReverseInPlace<T>(a: array<T>)
    modifies a
    ensures a[..] == Reversed(old(a[..]))
  {
    var n := a.Length;
    var i := 0;
    while i < n / 2
      invariant 0 <= i <= n / 2
      invariant forall k :: 0 <= k < i ==> a[k] == old(a[n - 1 - k]) && a[n - 1 - k] == old(a[k])
      invariant forall k :: i <= k < n - i ==> a[k] == old(a[k])
    {
      a[i], a[n - 1 - i] := a[n - 1 - i], a[i];
      i := i + 1;
    }
  }

  // ------------------------------------------------------- as written

  /** The render as written: the rows look their stage up in the table the
      buttons have just reversed. */
  function ViewAsWritten(leaders: seq<ClientLeader>, filterLevel: string, loading: bool, failed: bool): View {
    var filtered := FilteredLeaders(Table, leaders, filterLevel);
    var stats := Stats(Table, leaders);
    if ListShown(leaders, loading, failed) then
      View(Names(Reversed(Table)), Rows(Reversed(Table), filtered), Some(stats))
    else
      View([], [], None)
  }

  /** One render, with the `stages` array and its in-place reversal. */
  method RenderAsWritten(leaders: seq<ClientLeader>, filterLevel: string, loading: bool, failed: bool)
    returns (v: View)
    ensures v == ViewAsWritten(leaders, filterLevel, loading, failed)
  {
    var stages := new Stage[|Table|](i requires 0 <= i < |Table| => Table[i]);
    assert stages[..] == Table;
    var filtered := FilteredLeaders(stages[..], leaders, filterLevel);
    var stats := Stats(stages[..], leaders);
    if !ListShown(leaders, loading, failed) {
      return View([], [], None);
    }
    ReverseInPlace(stages);
    var buttons := Names(stages[..]);
    var rows := Rows(stages[..], filtered);
    v := View(buttons, rows, Some(stats));
  }

  /** A leader with 1500 points: the Seed filter keeps them and the
      Guardian figure leaves them out, but their row says Guardian. */
  lemma AboveRangeRowDisagrees()
    ensures var l := ClientLeader("u1", Some("Ana"), Some(1500), Some([]));
      var v := ViewAsWritten([l], "Seed", false, false);
      && FilteredLeaders(Table, [l], "Seed") == [l]
      && v.stats == Some(Stats(Table, [l])) && v.stats.value.guardians == 0
      && |v.rows| == 1 && v.rows[0].stage.name == "Guardian"
  {
    var l := ClientLeader("u1", Some("Ana"), Some(1500), Some([]));
    ReversedLookupOutOfRange(1500);
    assert LeaderStage(Table, l.greenPoints).name == "Seed";
    assert FilteredLeaders(Table, [l], "Seed") == [l];
    assert !IsGuardian(Table, l);
    assert Filter([l], (x: ClientLeader) => IsGuardian(Table, x)) == [];
  }

  // ------------------------------------------------------- corrected

  /** The render as evidently intended: the buttons show a reversed copy
      (`[...stages].reverse()`) and the rows use the table as declared. */
  function DisplayedView(leaders: seq<ClientLeader>, filterLevel: string, loading: bool, failed: bool): (v: View)
    ensures ListShown(leaders, loading, failed) ==> v.buttons == Names(Reversed(Table))
    ensures !ListShown(leaders, loading, failed) ==> v.buttons == [] && v.rows == [] && v.stats.None?
    ensures ListShown(leaders, loading, failed) ==> v.stats == Some(Stats(Table, leaders))
  {
    var filtered := FilteredLeaders(Table, leaders, filterLevel);
    var stats := Stats(Table, leaders);
    if ListShown(leaders, loading, failed) then
      View(Names(Reversed(Table)), Rows(Table, filtered), Some(stats))
    else
      View([], [], None)
  }

  /** With a level filter every row shown carries that level, so rows,
   *  filter and figures agree. */
  lemma {:induction false} RowsMatchFilter(leaders: seq<ClientLeader>, filterLevel: string, loading: bool, failed: bool)
    requires filterLevel != "all"
    requires forall i :: 0 <= i < |leaders| ==> leaders[i].greenPoints.Some?
    ensures var v := DisplayedView(leaders, filterLevel, loading, failed);
      forall i :: 0 <= i < |v.rows| ==> v.rows[i].stage.name == filterLevel
  {
    var filtered := FilteredLeaders(Table, leaders, filterLevel);
    var v := DisplayedView(leaders, filterLevel, loading, failed);
    forall i | 0 <= i < |v.rows|
      ensures v.rows[i].stage.name == filterLevel
    {
      assert filtered[i] in filtered;
      assert filtered[i] in leaders;
      var j :| 0 <= j < |leaders| && leaders[j] == filtered[i];
    }
  }

  /** For points within 0..1000 the two renders show the same rows. */
  lemma {:induction false} SameRowsInRange(leaders: seq<ClientLeader>, filterLevel: string, loading: bool, failed: bool)
    requires forall i :: 0 <= i < |leaders| ==> 0 <= PointsOrZero(leaders[i].greenPoints) <= 1000
    ensures DisplayedView(leaders, filterLevel, loading, failed) == ViewAsWritten(leaders, filterLevel, loading, failed)
  {
    var filtered := FilteredLeaders(Table, leaders, filterLevel);
    if ListShown(leaders, loading, failed) {
      forall i | 0 <= i < |filtered|
        ensures MakeRow(Table, filtered[i], i) == MakeRow(Reversed(Table), filtered[i], i)
      {
        assert filtered[i] in leaders;
        var j :| 0 <= j < |leaders| && leaders[j] == filtered[i];
        ReversedLookupInRange(PointsOrZero(filtered[i].greenPoints));
      }
      assert Rows(Table, filtered) == Rows(Reversed(Table), filtered);
    }
  }
}
