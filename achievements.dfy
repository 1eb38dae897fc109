/**
 * The achievement evaluator: the catalog, the value each requirement type
 * reads from the user record or the workout log, and what one evaluation
 * pass does to the user's achievement progress.
 */
module Achievements {
  import opened Results
  import opened Quests
  import opened Progression

  type AchievementId = nat

  datatype Achievement = Achievement(
    id: AchievementId,
    name: string,
    description: string,
    category: string,
    requirementType: string,
    requirementValue: int,
    xpReward: int,
    goldReward: int,
    icon: string,
    rarity: string)

  /** The catalog installed at start-up when the achievement collection is empty. */
  function DefaultAchievements(): seq<Achievement>
  {
    [ Achievement(0, "First Steps", "Complete your first workout", "workout",
                  "total_workouts", 1, 50, 25, "footsteps", "common"),
      Achievement(1, "Push-up Champion", "Complete 100 push-ups in total", "exercise",
                  "push_ups_total", 100, 100, 50, "fitness", "rare"),
      Achievement(2, "Marathon Runner", "Run a total of 26 miles", "exercise",
                  "running_total", 26, 200, 100, "walk", "epic"),
      Achievement(3, "Quest Rookie", "Complete 10 quests", "quest",
                  "total_quests_completed", 10, 75, 40, "trophy", "common"),
      Achievement(4, "Streak Master", "Maintain a 7-day quest completion streak", "streak",
                  "current_streak", 7, 150, 75, "flame", "rare"),
      Achievement(5, "Dedicated Hunter", "Complete 50 quests", "quest",
                  "total_quests_completed", 50, 250, 125, "medal", "epic"),
      Achievement(6, "Novice Hunter", "Reach level 5", "level",
                  "level", 5, 100, 50, "shield", "common"),
      Achievement(7, "Elite Hunter", "Reach level 20", "level",
                  "level", 20, 300, 150, "star", "epic"),
      Achievement(8, "Shadow Monarch", "Reach level 50 and unlock Shadow tier", "level",
                  "level", 50, 1000, 500, "flash", "legendary") ]
  }

  ghost predicate DistinctIds(catalog: seq<Achievement>)
  {
    forall i, j :: 0 <= i < j < |catalog| ==> catalog[i].id != catalog[j].id
  }

  /** The default catalog has nine achievements with distinct ids and positive requirements. */
  lemma DefaultAchievementsWellFormed()
    ensures |DefaultAchievements()| == 9
    ensures DistinctIds(DefaultAchievements())
    ensures forall i :: 0 <= i < |DefaultAchievements()| ==> DefaultAchievements()[i].requirementValue > 0
  {
  }

  /** One entry of the workout log; entries are only ever appended. */
  datatype WorkoutLogEntry = WorkoutLogEntry(
    user: UserId,
    quest: QuestId,
    exerciseType: string,
    value: int,
    notes: Option<string>,
    loggedAt: int)

  /** Sum of `value` over the entries of `user` for `exercise`. */
  function ExerciseTotal(logs: seq<WorkoutLogEntry>, user: UserId, exercise: string): int
  {
    if logs == [] then 0
    else
      (if logs[0].user == user && logs[0].exerciseType == exercise then logs[0].value else 0)
      + ExerciseTotal(logs[1..], user, exercise)
  }

  /** Appending an entry adds its value to the matching total and leaves every other total unchanged. */
  lemma {:induction false} ExerciseTotalAppend(logs: seq<WorkoutLogEntry>, e: WorkoutLogEntry, user: UserId, exercise: string)
    ensures ExerciseTotal(logs + [e], user, exercise)
         == ExerciseTotal(logs, user, exercise) + (if e.user == user && e.exerciseType == exercise then e.value else 0)
  {
    if logs != [] {
      assert (logs + [e])[1..] == logs[1..] + [e];
      ExerciseTotalAppend(logs[1..], e, user, exercise);
    }
  }

  const TotalSuffix: string := "_total"

  predicate HasTotalSuffix(s: string)
  {
    |s| >= |TotalSuffix| && s[|s| - |TotalSuffix|..] == TotalSuffix
  }

  /** The exercise a "<exercise>_total" requirement counts: the type with "_total" removed. */
  function ExerciseFor(requirementType: string): (exercise: string)
    ensures HasTotalSuffix(requirementType) ==> requirementType == exercise + TotalSuffix
    ensures !HasTotalSuffix(requirementType) ==> exercise == requirementType
  {
    if HasTotalSuffix(requirementType) then requirementType[..|requirementType| - |TotalSuffix|]
    else requirementType
  }

  /**
   * The value a requirement type reads: one of the user counters or the
   * level, the logged total of push-ups or running, and 0 for any other type.
   */
  function CurrentValue(requirementType: string, u: User, logs: seq<WorkoutLogEntry>, user: UserId): int
  {
    if requirementType == "total_workouts" then u.totalWorkouts
    else if requirementType == "total_quests_completed" then u.totalQuestsCompleted
    else if requirementType == "current_streak" then u.currentStreak
    else if requirementType == "level" then u.level
    else if requirementType == "push_ups_total" || requirementType == "running_total" then
      ExerciseTotal(logs, user, ExerciseFor(requirementType))
    else 0
  }

  /** The two exercise requirements count the push-ups and running logged by the user. */
  lemma ExerciseRequirementsCountLoggedWorkouts(u: User, logs: seq<WorkoutLogEntry>, user: UserId)
    ensures CurrentValue("push_ups_total", u, logs, user) == ExerciseTotal(logs, user, "push_ups")
    ensures CurrentValue("running_total", u, logs, user) == ExerciseTotal(logs, user, "running")
  {
    assert "push_ups_total"[..8] == "push_ups";
    assert "running_total"[..7] == "running";
  }

  /** A user's progress on one achievement. */
  datatype UserAchievement = UserAchievement(currentProgress: int, completed: bool, unlockedAt: Option<int>)

  type ProgressKey = (UserId, AchievementId)

  function Lookup(progress: map<ProgressKey, UserAchievement>, key: ProgressKey): Option<UserAchievement>
  {
    if key in progress then Some(progress[key]) else None
  }

  predicate PreviouslyCompleted(progress: map<ProgressKey, UserAchievement>, user: UserId, id: AchievementId)
  {
    (user, id) in progress && progress[(user, id)].completed
  }

  /**
   * The progress record written for an achievement that was not yet
   * completed: the value read, completed iff it meets the requirement, and
   * unlocked now when it does (otherwise the earlier unlock time, if any).
   */
  function Evaluate(existing: Option<UserAchievement>, value: int, requirement: int, now: int): (ua: UserAchievement)
    ensures ua.currentProgress == value
    ensures ua.completed <==> value >= requirement
    ensures ua.completed ==> ua.unlockedAt == Some(now)
    ensures !ua.completed ==> ua.unlockedAt == if existing.Some? then existing.value.unlockedAt else None
  {
    var met := value >= requirement;
    UserAchievement(value, met,
      if met then Some(now) else match existing { case Some(e) => e.unlockedAt case None => None })
  }

  /**
   * One evaluation pass over `catalog` for `user`, reading completion from
   * the `snapshot` taken before the pass: achievements already completed are
   * skipped, every other one gets its record (re)written by Evaluate.
   */
  function EvaluateAll(snapshot: map<ProgressKey, UserAchievement>, catalog: seq<Achievement>,
                       user: UserId, u: User, logs: seq<WorkoutLogEntry>, now: int): (after: map<ProgressKey, UserAchievement>)
    ensures snapshot.Keys <= after.Keys
    ensures forall key :: key in after && key !in snapshot ==> key.0 == user
    decreases |catalog|
  {
    if catalog == [] then snapshot
    else
      var prior := EvaluateAll(snapshot, catalog[..|catalog| - 1], user, u, logs, now);
      var a := catalog[|catalog| - 1];
      if PreviouslyCompleted(snapshot, user, a.id) then prior
      else prior[(user, a.id) := Evaluate(Lookup(snapshot, (user, a.id)),
                                         CurrentValue(a.requirementType, u, logs, user),
                                         a.requirementValue, now)]
  }

  /** Every progress record carries an unlock time exactly when it is completed. */
  ghost predicate UnlockedIffCompleted(progress: map<ProgressKey, UserAchievement>)
  {
    forall key :: key in progress ==> (progress[key].unlockedAt.Some? <==> progress[key].completed)
  }

  /**
   * A pass keeps unlock times in step with completion: a record gets an
   * unlock time when it becomes completed, and a record that stays
   * uncompleted keeps the empty unlock time it had (or gets none when new).
   */
  lemma {:induction false} EvaluateAllKeepsUnlockInvariant(snapshot: map<ProgressKey, UserAchievement>, catalog: seq<Achievement>,
                                                          user: UserId, u: User, logs: seq<WorkoutLogEntry>, now: int)
    requires UnlockedIffCompleted(snapshot)
    ensures UnlockedIffCompleted(EvaluateAll(snapshot, catalog, user, u, logs, now))
    decreases |catalog|
  {
    if catalog != [] {
      EvaluateAllKeepsUnlockInvariant(snapshot, catalog[..|catalog| - 1], user, u, logs, now);
      var a := catalog[|catalog| - 1];
      var key := (user, a.id);
      if key in snapshot {
        assert snapshot[key].unlockedAt.Some? <==> snapshot[key].completed;
      }
    }
  }

  /** The achievements of the pass, in catalog order, that were not completed before and now meet their requirement. */
  function NewlyUnlocked(snapshot: map<ProgressKey, UserAchievement>, catalog: seq<Achievement>,
                         user: UserId, u: User, logs: seq<WorkoutLogEntry>): (unlocked: seq<Achievement>)
    ensures |unlocked| <= |catalog|
    ensures forall i :: 0 <= i < |unlocked| ==> unlocked[i] in catalog
    decreases |catalog|
  {
    if catalog == [] then []
    else
      var a := catalog[|catalog| - 1];
      NewlyUnlocked(snapshot, catalog[..|catalog| - 1], user, u, logs)
      + (if !PreviouslyCompleted(snapshot, user, a.id)
            && CurrentValue(a.requirementType, u, logs, user) >= a.requirementValue
         then [a] else [])
  }

  /**
   * An achievement is reported as newly unlocked exactly when it is in the
   * catalog, was not completed before the pass, and its value meets the
   * requirement.
   */
  lemma {:induction false} NewlyUnlockedExactly(snapshot: map<ProgressKey, UserAchievement>, catalog: seq<Achievement>,
                                               user: UserId, u: User, logs: seq<WorkoutLogEntry>, a: Achievement)
    ensures a in NewlyUnlocked(snapshot, catalog, user, u, logs)
        <==> (&& a in catalog
              && !PreviouslyCompleted(snapshot, user, a.id)
              && CurrentValue(a.requirementType, u, logs, user) >= a.requirementValue)
    decreases |catalog|
  {
    if catalog != [] {
      var init := catalog[..|catalog| - 1];
      NewlyUnlockedExactly(snapshot, init, user, u, logs, a);
      assert catalog == init + [catalog[|catalog| - 1]];
    }
  }

  /** A completed achievement is never rewritten, so never reverted, by a pass. */
  lemma {:induction false} EvaluateAllKeepsCompleted(snapshot: map<ProgressKey, UserAchievement>, catalog: seq<Achievement>,
                                                    user: UserId, u: User, logs: seq<WorkoutLogEntry>, now: int, key: ProgressKey)
    requires key in snapshot && snapshot[key].completed
    ensures var after := EvaluateAll(snapshot, catalog, user, u, logs, now);
      key in after && after[key] == snapshot[key]
    decreases |catalog|
  {
    if catalog != [] {
      EvaluateAllKeepsCompleted(snapshot, catalog[..|catalog| - 1], user, u, logs, now, key);
    }
  }

  /** Records of other users, and of achievements outside the catalog, are left as they were. */
  lemma {:induction false} EvaluateAllOutside(snapshot: map<ProgressKey, UserAchievement>, catalog: seq<Achievement>,
                                             user: UserId, u: User, logs: seq<WorkoutLogEntry>, now: int, key: ProgressKey)
    requires key.0 != user || forall i :: 0 <= i < |catalog| ==> catalog[i].id != key.1
    ensures var after := EvaluateAll(snapshot, catalog, user, u, logs, now);
      (key in after <==> key in snapshot) && (key in snapshot ==> after[key] == snapshot[key])
    decreases |catalog|
  {
    if catalog != [] {
      EvaluateAllOutside(snapshot, catalog[..|catalog| - 1], user, u, logs, now, key);
    }
  }

  /**
   * For a catalog with distinct ids, the record of each catalog achievement
   * after the pass is the earlier one if it was completed, and otherwise the
   * evaluated one: progress equal to the dispatched value, completed iff that
   * value meets the requirement.
   */
  lemma {:induction false} EvaluateAllAt(snapshot: map<ProgressKey, UserAchievement>, catalog: seq<Achievement>,
                                        user: UserId, u: User, logs: seq<WorkoutLogEntry>, now: int, i: int)
    requires DistinctIds(catalog) && 0 <= i < |catalog|
    ensures var after := EvaluateAll(snapshot, catalog, user, u, logs, now);
      var a := catalog[i];
      var key := (user, a.id);
      && key in after
      && after[key] == if PreviouslyCompleted(snapshot, user, a.id) then snapshot[key]
                       else Evaluate(Lookup(snapshot, key), CurrentValue(a.requirementType, u, logs, user),
                                     a.requirementValue, now)
    decreases |catalog|
  {
    var n := |catalog| - 1;
    var init := catalog[..n];
    if i < n {
      assert DistinctIds(init);
      assert init[i] == catalog[i];
      EvaluateAllAt(snapshot, init, user, u, logs, now, i);
    } else if PreviouslyCompleted(snapshot, user, catalog[i].id) {
      EvaluateAllOutside(snapshot, init, user, u, logs, now, (user, catalog[i].id));
    }
  }
}
