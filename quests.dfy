/**
 * Quest templates, quest instances, and the progress step a logged workout
 * applies to an active quest.
 */
module Quests {

  type UserId = nat
  type QuestId = nat

  datatype QuestStatus = Active | Completed

  /** The `quest_type` of every generated quest. */
  const DailyType: string := "daily"

  /** Lifetime of a daily quest, in seconds of the abstract clock. */
  const OneDay: int := 86400

  datatype QuestTemplate = QuestTemplate(
    title: string,
    description: string,
    exerciseType: string,
    targetValue: int,
    xpReward: int,
    goldReward: int)

  /** The fixed catalog daily quests are drawn from. */
  const Templates: seq<QuestTemplate> := [
    QuestTemplate("🔥 Push Your Limits", "Complete 20 push-ups to build your strength",
                  "push_ups", 20, 50, 25),
    QuestTemplate("💧 Hydration Hunter", "Drink 8 glasses of water to maintain your vitality",
                  "water_intake", 8, 30, 15),
    QuestTemplate("🏃‍♂️ Speed Demon", "Run 2 miles to increase your agility",
                  "running", 2, 75, 40),
    QuestTemplate("💪 Core Crusher", "Do 30 sit-ups to strengthen your core",
                  "sit_ups", 30, 45, 20),
    QuestTemplate("🏋️ Iron Will", "Complete a 30-minute workout session",
                  "gym_session", 30, 100, 50)
  ]

  /** Every template asks for a positive amount and pays a positive reward. */
  ghost predicate TemplateWellFormed(t: QuestTemplate)
  {
    t.targetValue > 0 && t.xpReward > 0 && t.goldReward > 0
  }

  datatype Quest = Quest(
    owner: UserId,
    questType: string,
    title: string,
    description: string,
    exerciseType: string,
    targetValue: int,
    currentProgress: int,
    xpReward: int,
    goldReward: int,
    status: QuestStatus,
    createdAt: int,
    expiresAt: int)

  /**
   * What the progress rules keep true of every stored quest: an active quest
   * is short of its target, a completed one sits exactly on it, and the
   * reward is positive.
   */
  ghost predicate QuestWellFormed(q: Quest)
  {
    && (q.status == Active ==> q.currentProgress < q.targetValue)
    && (q.status == Completed ==> q.currentProgress == q.targetValue)
    && q.xpReward > 0
  }

  /** The quest document built from a template for `owner` at time `now`. */
  function Instantiate(t: QuestTemplate, owner: UserId, now: int): Quest
  {
    Quest(owner, DailyType, t.title, t.description, t.exerciseType, t.targetValue,
          0, t.xpReward, t.goldReward, Active, now, now + OneDay)
  }

  /** The five templates are well formed and ask for five different exercises. */
  lemma TemplatesWellFormed()
    ensures |Templates| == 5
    ensures forall i :: 0 <= i < |Templates| ==> TemplateWellFormed(Templates[i])
    ensures forall i, j :: 0 <= i < j < |Templates| ==> Templates[i].exerciseType != Templates[j].exerciseType
  {
  }

  /** A quest instantiated from a template is a fresh active daily quest, owned by the user, with a positive reward. */
  lemma InstantiateFresh(k: int, owner: UserId, now: int)
    requires 0 <= k < |Templates|
    ensures var q := Instantiate(Templates[k], owner, now);
      && q.owner == owner && q.questType == DailyType
      && q.currentProgress == 0 && q.status == Active && q.xpReward > 0
      && q.exerciseType == Templates[k].exerciseType
      && q.expiresAt == now + OneDay
      && QuestWellFormed(q)
  {
    TemplatesWellFormed();
  }

  function Min(a: int, b: int): int
  {
    if a <= b then a else b
  }

  /**
   * One workout of `value` against an active quest: progress becomes
   * min(progress + value, target), and the quest is completed once that
   * reaches the target. The sign of `value` is not checked.
   */
  function ApplyWorkout(q: Quest, value: int): (r: Quest)
    requires q.status == Active
    ensures r.currentProgress <= q.targetValue
    ensures r.status == Completed <==> r.currentProgress == q.targetValue
    ensures r.status == Completed <==> q.currentProgress + value >= q.targetValue
    ensures r.currentProgress == q.currentProgress + value || r.currentProgress == q.targetValue
    ensures r.(currentProgress := q.currentProgress, status := q.status) == q
  {
    var newProgress := Min(q.currentProgress + value, q.targetValue);
    var completed := newProgress >= q.targetValue;
    q.(currentProgress := newProgress, status := if completed then Completed else q.status)
  }

  /** A workout step on an active, well-formed quest leaves it well formed. */
  lemma ApplyWorkoutPreservesWellFormed(q: Quest, value: int)
    requires q.status == Active && QuestWellFormed(q)
    ensures QuestWellFormed(ApplyWorkout(q, value))
  {
  }

  function Sum(values: seq<int>): int
  {
    if values == [] then 0 else values[0] + Sum(values[1..])
  }

  /**
   * A series of workouts logged against one quest: each is applied while the
   * quest is active; once it is completed the quest is no longer found and
   * later workouts leave it as it is.
   */
  function Replay(q: Quest, values: seq<int>): Quest
    decreases |values|
  {
    if values == [] then q
    else Replay(if q.status == Active then ApplyWorkout(q, values[0]) else q, values[1..])
  }

  /** How many steps of the series flip the quest from active to completed, i.e. how many rewards it triggers. */
  function CompletionEdges(q: Quest, values: seq<int>): nat
    decreases |values|
  {
    if values == [] then 0
    else
      var next := if q.status == Active then ApplyWorkout(q, values[0]) else q;
      (if q.status == Active && next.status == Completed then 1 else 0) + CompletionEdges(next, values[1..])
  }

  ghost predicate AllNonNegative(values: seq<int>)
  {
    forall i :: 0 <= i < |values| ==> values[i] >= 0
  }

  lemma {:induction false} SumNonNegative(values: seq<int>)
    requires AllNonNegative(values)
    ensures Sum(values) >= 0
  {
    if values != [] {
      SumNonNegative(values[1..]);
    }
  }

  lemma {:induction false} ReplayCompleted(q: Quest, values: seq<int>)
    requires q.status == Completed
    ensures Replay(q, values) == q && CompletionEdges(q, values) == 0
    decreases |values|
  {
    if values != [] {
      ReplayCompleted(q, values[1..]);
    }
  }

  /**
   * For non-negative workouts on an active quest with progress p: after the
   * series, progress is min(p + sum, target); the quest is completed iff
   * p + sum reaches the target; and exactly that many rewards (one or none)
   * were triggered.
   */
  lemma {:induction false} ReplayProgress(q: Quest, values: seq<int>)
    requires q.status == Active && QuestWellFormed(q)
    requires AllNonNegative(values)
    ensures Replay(q, values).currentProgress == Min(q.currentProgress + Sum(values), q.targetValue)
    ensures Replay(q, values).status == Completed <==> q.currentProgress + Sum(values) >= q.targetValue
    ensures CompletionEdges(q, values) == if q.currentProgress + Sum(values) >= q.targetValue then 1 else 0
    decreases |values|
  {
    if values != [] {
      var next := ApplyWorkout(q, values[0]);
      assert AllNonNegative(values[1..]) by {
        forall i | 0 <= i < |values[1..]| ensures values[1..][i] >= 0 {
          assert values[1..][i] == values[i + 1];
        }
      }
      SumNonNegative(values[1..]);
      if next.status == Completed {
        ReplayCompleted(next, values[1..]);
      } else {
        ReplayProgress(next, values[1..]);
      }
    }
  }
}
