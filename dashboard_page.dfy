/** app/dashboard/page.jsx: the member dashboard's level, next-level label,
    headline figures and achievements, computed from the signed-in user and
    their activities. */
module DashboardPage {
  import opened Wrappers
  import opened Stages

  /** The user record as `/api/auth/me` returns it; both fields may be
      absent. */
  datatype ClientUser = ClientUser(name: Option<string>, greenPoints: Option<int>, badges: Option<seq<string>>)

  /** An activity as `/api/activities/user/me` returns it. */
  datatype ClientActivity = ClientActivity(activityType: Option<string>, status: string)

  /** `user?.greenPoints || 0`. */
  function PointsOf(user: Option<ClientUser>): (p: int)
    ensures user.Some? && user.value.greenPoints.Some? ==> p == user.value.greenPoints.value
    ensures user.None? || user.value.greenPoints.None? ==> p == 0
  {
    if user.Some? && user.value.greenPoints.Some? then user.value.greenPoints.value else 0
  }

  /** `getCurrentStage()`: the first stage whose range holds the points,
      Seed when none does. */
  function CurrentStage(user: Option<ClientUser>): (s: Stage)
    ensures s in Table
    ensures Holds(s, PointsOf(user)) || s == Table[0]
    ensures (0 <= PointsOf(user) <= 1000) ==> Holds(s, PointsOf(user))
    ensures (PointsOf(user) < 0 || PointsOf(user) > 1000) ==> s == Table[0]
  {
    TableLookup(PointsOf(user));
    StageOf(Table, PointsOf(user))
  }

  /** A user with no points yet is a Seed; one above the top of the table
      is shown as Seed too, not Guardian. */
  lemma NoPointsIsSeed(user: Option<ClientUser>)
    requires user.None? || user.value.greenPoints.None? || user.value.greenPoints.value > 1000
    ensures CurrentStage(user).name == "Seed"
  {
  }

  /** `stages.findIndex(s => s.name === name)`, -1 when no stage has that
      name. */
  function FindIndexByName(stages: seq<Stage>, name: string): (i: int)
    ensures -1 <= i < |stages|
    ensures i == -1 <==> forall k :: 0 <= k < |stages| ==> stages[k].name != name
    ensures i >= 0 ==> stages[i].name == name && forall k :: 0 <= k < i ==> stages[k].name != name
  {
    if |stages| == 0 then -1
    else if stages[0].name == name then 0
    else
      var j := FindIndexByName(stages[1..], name);
      assert forall k :: 0 < k < |stages| ==> stages[k] == stages[1..][k - 1];
      if j == -1 then -1 else j + 1
  }

  const MaxLevel := "Max Level"

  /** `stages[findIndex(current) + 1]?.name || 'Max Level'`. */
  function NextStageLabel(user: Option<ClientUser>): string {
    var i := FindIndexByName(Table, CurrentStage(user).name);
    if 0 <= i + 1 < |Table| && Table[i + 1].name != "" then Table[i + 1].name else MaxLevel
  }

  /** Each stage's name is found at its own position. */
  lemma IndexOfStage(k: nat)
    requires k < |Table|
    ensures FindIndexByName(Table, Table[k].name) == k
  {
    var i := FindIndexByName(Table, Table[k].name);
    assert Table[k].name == Table[k].name;
  }

  /** The label after stage k. */
  lemma LabelAfter(user: Option<ClientUser>, k: nat)
    requires k < |Table| && CurrentStage(user) == Table[k]
    ensures NextStageLabel(user) == if k + 1 < |Table| then Table[k + 1].name else MaxLevel
  {
    IndexOfStage(k);
  }

  /** The label names the stage after the current one, and says
      "Max Level" exactly at Guardian, so exactly for 501..1000 points;
      above 1000 the user is a Seed and the label says Sprout. */
  lemma NextStageLabelCases(user: Option<ClientUser>)
    ensures NextStageLabel(user) == MaxLevel <==> 501 <= PointsOf(user) <= 1000
    ensures 0 <= PointsOf(user) <= 500 ==>
              exists i :: 0 <= i < |Table| - 1 && Table[i] == CurrentStage(user) && NextStageLabel(user) == Table[i + 1].name
    ensures PointsOf(user) < 0 || PointsOf(user) > 1000 ==> NextStageLabel(user) == "Sprout"
  {
    var p := PointsOf(user);
    TableLookup(p);
    var k: nat :=
      if 51 <= p <= 150 then 1
      else if 151 <= p <= 300 then 2
      else if 301 <= p <= 500 then 3
      else if 501 <= p <= 1000 then 4
      else 0;
    assert CurrentStage(user) == Table[k];
    LabelAfter(user, k);
  }

  // --------------------------------------------------------- figures

  datatype DashboardStats = DashboardStats(greenPoints: int, activities: nat, level: string, badges: nat)

  /** The four figures: points `|| 0`, `activities?.length || 0`, the level
      name and `user?.badges?.length || 0`. */
  function Stats(user: Option<ClientUser>, activities: Option<seq<ClientActivity>>): (s: DashboardStats)
    ensures s.greenPoints == PointsOf(user)
    ensures s.level == CurrentStage(user).name
    ensures activities.Some? ==> s.activities == |activities.value|
    ensures activities.None? ==> s.activities == 0
    ensures user.Some? && user.value.badges.Some? ==> s.badges == |user.value.badges.value|
    ensures user.None? || user.value.badges.None? ==> s.badges == 0
  {
    DashboardStats(
      PointsOf(user),
      if activities.Some? then |activities.value| else 0,
      CurrentStage(user).name,
      if user.Some? && user.value.badges.Some? then |user.value.badges.value| else 0)
  }

  // ---------------------------------------------------- achievements

  /** `activities.some(a => a.type === t)`, scanning from the front. */
  function SomeOfType(activities: seq<ClientActivity>, t: string): (b: bool)
    ensures b <==> exists i :: 0 <= i < |activities| && activities[i].activityType == Some(t)
  {
    if |activities| == 0 then false
    else if activities[0].activityType == Some(t) then
      assert activities[0].activityType == Some(t);
      true
    else
      assert forall i :: 0 < i < |activities| ==> activities[i] == activities[1..][i - 1];
      SomeOfType(activities[1..], t)
  }

  datatype Achievement = Achievement(name: string, unlocked: bool)

  /** The activity type each achievement after "First Steps" asks for. */
  const TypeAchievements: seq<(string, string)> := [
    ("Tree Hugger", "tree-planting"),
    ("Recycling Hero", "recycling"),
    ("Clean Sweep", "cleanup"),
    ("Energy Saver", "energy-saving"),
    ("Water Guardian", "water-conservation")]

  /** With no activity list (`activities?.…` is undefined) nothing unlocks. */
  function Unlocked(activities: Option<seq<ClientActivity>>, t: string): bool {
    activities.Some? && SomeOfType(activities.value, t)
  }

  /** The six achievements in display order. */
  function Achievements(activities: Option<seq<ClientActivity>>): (r: seq<Achievement>)
    ensures |r| == 1 + |TypeAchievements|
    ensures r[0].name == "First Steps"
    ensures r[0].unlocked <==> activities.Some? && |activities.value| > 0
    ensures forall k :: 0 <= k < |TypeAchievements| ==>
              r[k + 1].name == TypeAchievements[k].0 &&
              (r[k + 1].unlocked <==>
                 activities.Some? &&
                 exists i :: 0 <= i < |activities.value| && activities.value[i].activityType == Some(TypeAchievements[k].1))
  {
    [Achievement("First Steps", activities.Some? && |activities.value| > 0)] +
    seq(|TypeAchievements|, k requires 0 <= k < |TypeAchievements| =>
      Achievement(TypeAchievements[k].0, Unlocked(activities, TypeAchievements[k].1)))
  }

  /** Achievements depend only on the types: an activity still pending or
      already rejected unlocks its achievement as an approved one does. */
  lemma {:induction false} AchievementsIgnoreStatus(activities: seq<ClientActivity>, statuses: seq<string>)
    requires |statuses| == |activities|
    ensures Achievements(Some(activities)) ==
            Achievements(Some(seq(|activities|, i requires 0 <= i < |activities| => activities[i].(status := statuses[i]))))
  {
    var relabelled := seq(|activities|, i requires 0 <= i < |activities| => activities[i].(status := statuses[i]));
    forall k | 0 <= k < |TypeAchievements|
      ensures Unlocked(Some(activities), TypeAchievements[k].1) == Unlocked(Some(relabelled), TypeAchievements[k].1)
    {
      var t := TypeAchievements[k].1;
      if SomeOfType(activities, t) {
        var i :| 0 <= i < |activities| && activities[i].activityType == Some(t);
        assert relabelled[i].activityType == Some(t);
      }
      if SomeOfType(relabelled, t) {
        var i :| 0 <= i < |relabelled| && relabelled[i].activityType == Some(t);
        assert activities[i].activityType == Some(t);
      }
    }
  }

  /** Any type achievement unlocked implies "First Steps" is unlocked. */
  lemma TypeAchievementNeedsFirstSteps(activities: Option<seq<ClientActivity>>, k: nat)
    requires k < |TypeAchievements|
    requires Achievements(activities)[k + 1].unlocked
    ensures Achievements(activities)[0].unlocked
  {
  }
}
