/** The eco-level table that the dashboard and the leaderboard page each
    declare (the same five names and point ranges), and the lookup both
    pages do on it: the first stage whose range holds the points, or the
    array's first element when none does. */
module Stages {
  import opened Wrappers

  datatype Stage = Stage(name: string, emoji: string, min: int, max: int)

  /** The table in its declared order. */
  const Table: seq<Stage> := [
    Stage("Seed", "\U{1F331}", 0, 50),
    Stage("Sprout", "\U{1F33F}", 51, 150),
    Stage("Sapling", "\U{1F333}", 151, 300),
    Stage("Tree", "\U{1F332}", 301, 500),
    Stage("Guardian", "\U{1F3D4}\U{FE0F}", 501, 1000)]

  predicate Holds(s: Stage, points: int) {
    s.min <= points <= s.max
  }

  /** `stages.find(stage => points >= stage.min && points <= stage.max)`. */
  function Find(stages: seq<Stage>, points: int): (r: Option<Stage>)
    ensures r.None? <==> forall i :: 0 <= i < |stages| ==> !Holds(stages[i], points)
    ensures r.Some? ==> exists i :: 0 <= i < |stages| && stages[i] == r.value && Holds(r.value, points) &&
                          forall j :: 0 <= j < i ==> !Holds(stages[j], points)
  {
    if |stages| == 0 then None
    else if Holds(stages[0], points) then
      Some(stages[0])
    else
      var r := Find(stages[1..], points);
      assert forall i :: 0 < i < |stages| ==> stages[i] == stages[1..][i - 1];
      if r.Some? then
        var i :| 0 <= i < |stages[1..]| && stages[1..][i] == r.value && Holds(r.value, points) &&
                 forall j :: 0 <= j < i ==> !Holds(stages[1..][j], points);
        assert stages[i + 1] == r.value;
        r
      else
        r
  }

  /** `stages.find(...) || stages[0]`. */
  function StageOf(stages: seq<Stage>, points: int): (s: Stage)
    requires |stages| > 0
    ensures Find(stages, points).Some? ==> s == Find(stages, points).value
    ensures Find(stages, points).None? ==> s == stages[0]
  {
    match Find(stages, points)
    case Some(s) => s
    case None => stages[0]
  }

  /** The ranges are in increasing order and do not overlap, and together
      they cover 0 to 1000 without a gap. */
  lemma TableIsPartition()
    ensures forall i, j :: 0 <= i < j < |Table| ==> Table[i].max < Table[j].min
    ensures forall i :: 0 <= i < |Table| - 1 ==> Table[i + 1].min == Table[i].max + 1
    ensures Table[0].min == 0 && Table[|Table| - 1].max == 1000
  {
  }

  /** Points in at most one stage. */
  lemma AtMostOneStage(points: int, i: int, j: int)
    requires 0 <= i < |Table| && 0 <= j < |Table|
    requires Holds(Table[i], points) && Holds(Table[j], points)
    ensures i == j
  {
    TableIsPartition();
  }

  /** Any order of a table with disjoint ranges finds the same stage for
      points that some stage holds. */
  lemma {:induction false} FindUnique(stages: seq<Stage>, points: int, s: Stage)
    requires s in stages && Holds(s, points)
    requires forall t :: t in stages && Holds(t, points) ==> t == s
    ensures Find(stages, points) == Some(s)
  {
    if stages[0] != s {
      assert s in stages[1..];
      FindUnique(stages[1..], points, s);
    }
  }

  /** The lookup on the declared table, range by range; out-of-range points
      (negative, or above 1000) fall back to Seed. */
  lemma TableLookup(points: int)
    ensures 0 <= points <= 50 ==> StageOf(Table, points) == Table[0]
    ensures 51 <= points <= 150 ==> StageOf(Table, points) == Table[1]
    ensures 151 <= points <= 300 ==> StageOf(Table, points) == Table[2]
    ensures 301 <= points <= 500 ==> StageOf(Table, points) == Table[3]
    ensures 501 <= points <= 1000 ==> StageOf(Table, points) == Table[4]
    ensures points < 0 || points > 1000 ==> StageOf(Table, points) == Table[0]
  {
    assert Table[1..][1..][1..][1..][1..] == [];
  }

  /** `Array.prototype.reverse`, as a value. */
  function Reversed<T>(s: seq<T>): (r: seq<T>)
    ensures |r| == |s|
    ensures forall i :: 0 <= i < |s| ==> r[i] == s[|s| - 1 - i]
  {
    if |s| == 0 then [] else Reversed(s[1..]) + [s[0]]
  }

  /** Reversing twice gives the table back. */
  lemma ReversedTwice<T>(s: seq<T>)
    ensures Reversed(Reversed(s)) == s
  {
  }

  lemma ReversedMembers<T>(s: seq<T>, x: T)
    ensures x in Reversed(s) <==> x in s
  {
    if x in s {
      var i :| 0 <= i < |s| && s[i] == x;
      assert Reversed(s)[|s| - 1 - i] == x;
    }
  }

  /** Within 0..1000 the lookup does not depend on the table's order: the
      reversed table finds the same stage. */
  lemma ReversedLookupInRange(points: int)
    requires 0 <= points <= 1000
    ensures StageOf(Reversed(Table), points) == StageOf(Table, points)
  {
    TableLookup(points);
    var s := StageOf(Table, points);
    forall t | t in Reversed(Table) && Holds(t, points)
      ensures t == s
    {
      ReversedMembers(Table, t);
      var i :| 0 <= i < |Table| && Table[i] == t;
      TableIsPartition();
    }
    ReversedMembers(Table, s);
    FindUnique(Reversed(Table), points, s);
  }

  /** Out of range, the reversed table falls back to its first element,
      which is Guardian. */
  lemma ReversedLookupOutOfRange(points: int)
    requires points < 0 || points > 1000
    ensures StageOf(Reversed(Table), points) == Table[4]
    ensures StageOf(Table, points) == Table[0]
  {
    TableLookup(points);
    forall t | t in Reversed(Table)
      ensures !Holds(t, points)
    {
      ReversedMembers(Table, t);
    }
  }
}
