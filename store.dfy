/**
 * The backend's document store and the request handlers of the progression
 * engine that change it: registration, daily quest generation, workout
 * logging with its quest reward, the achievement check, and the settings
 * update. Collections are maps keyed by id; each request runs atomically.
 */
module Store {
  import opened Results
  import opened Curve
  import opened Tiers
  import opened Quests
  import opened Progression
  import opened Achievements
  import opened UserSettings

  /** The stored settings document of one user. */
  datatype SettingsDoc = SettingsDoc(values: Settings, createdAt: int, updatedAt: int)

  /** What the workout handler reports back. */
  datatype WorkoutOutcome = WorkoutOutcome(questCompleted: bool, newProgress: int, target: int)

  /** Three distinct template indices, as a random sample of three from the five templates yields. */
  ghost predicate ValidPicks(picks: seq<int>)
  {
    && |picks| == 3
    && (forall i :: 0 <= i < |picks| ==> 0 <= picks[i] < |Templates|)
    && (forall i, j :: 0 <= i < j < |picks| ==> picks[i] != picks[j])
  }

  /** The quests the daily generation replaces: `user`'s active daily quests. */
  predicate IsActiveDailyOf(q: Quest, user: UserId)
  {
    q.owner == user && q.questType == DailyType && q.status == Active
  }

  /** The quest collection after deleting `user`'s active daily quests. */
  function WithoutActiveDaily(qs: map<QuestId, Quest>, user: UserId): (kept: map<QuestId, Quest>)
    ensures kept.Keys <= qs.Keys
    ensures forall id :: id in kept ==> kept[id] == qs[id] && !IsActiveDailyOf(kept[id], user)
  {
    map id | id in qs && !IsActiveDailyOf(qs[id], user) :: qs[id]
  }

  /** The quest documents of a generation: one per pick, built from that template. */
  function DailyDocs(user: UserId, picks: seq<int>, now: int): (docs: seq<Quest>)
    requires ValidPicks(picks)
    ensures |docs| == |picks|
    ensures forall k :: 0 <= k < |docs| ==> docs[k] == Instantiate(Templates[picks[k]], user, now)
    ensures forall k :: 0 <= k < |docs| ==>
      && IsActiveDailyOf(docs[k], user) && docs[k].currentProgress == 0 && docs[k].xpReward > 0
      && QuestWellFormed(docs[k])
    ensures forall i, j :: 0 <= i < j < |docs| ==> docs[i].exerciseType != docs[j].exerciseType
  {
    TemplatesWellFormed();
    seq(|picks|, k requires 0 <= k < |picks| => Instantiate(Templates[picks[k]], user, now))
  }

  /** Documents stored under consecutive new ids starting at `base`, in order. */
  function Inserted(base: QuestId, docs: seq<Quest>): (m: map<QuestId, Quest>)
    ensures forall id :: id in m <==> base <= id < base + |docs|
    ensures forall k :: 0 <= k < |docs| ==> m[base + k] == docs[k]
    decreases |docs|
  {
    if docs == [] then map[]
    else Inserted(base, docs[..|docs| - 1])[base + |docs| - 1 := docs[|docs| - 1]]
  }

  /** The quests inserted by a generation. */
  function NewDailyQuests(base: QuestId, user: UserId, picks: seq<int>, now: int): map<QuestId, Quest>
    requires ValidPicks(picks)
  {
    Inserted(base, DailyDocs(user, picks, now))
  }

  /** The lookup of the workout handler: an active quest with that id owned by the user. */
  predicate QuestFound(qs: map<QuestId, Quest>, id: QuestId, user: UserId)
  {
    id in qs && qs[id].owner == user && qs[id].status == Active
  }

  predicate EmailInUse(us: map<UserId, User>, email: string)
  {
    exists id :: id in us && us[id].email == email
  }

  predicate UsernameInUse(us: map<UserId, User>, username: string)
  {
    exists id :: id in us && us[id].username == username
  }

  /** The quest collection after a generation for `user` that hands out new ids from `base`. */
  function AfterGeneration(qs: map<QuestId, Quest>, base: QuestId, user: UserId, picks: seq<int>, now: int): map<QuestId, Quest>
    requires ValidPicks(picks)
  {
    WithoutActiveDaily(qs, user) + NewDailyQuests(base, user, picks, now)
  }

  /**
   * After a generation over a store whose ids lie below `base`: the user's
   * active daily quests are exactly the three at the new ids; the quest at
   * `base + k` is built from the k-th picked template (so the three ask for
   * distinct exercises); every other quest is as it was, and the user's
   * earlier active daily quests are gone.
   */
  lemma DailyGenerationReplaces(qs: map<QuestId, Quest>, base: QuestId, user: UserId, picks: seq<int>, now: int)
    requires ValidPicks(picks)
    requires forall id :: id in qs ==> id < base
    ensures forall id :: id in AfterGeneration(qs, base, user, picks, now)
                         && IsActiveDailyOf(AfterGeneration(qs, base, user, picks, now)[id], user)
                     <==> base <= id < base + 3
    ensures forall k :: 0 <= k < |picks| ==>
      && base + k in AfterGeneration(qs, base, user, picks, now)
      && AfterGeneration(qs, base, user, picks, now)[base + k] == Instantiate(Templates[picks[k]], user, now)
    ensures forall i, j :: 0 <= i < j < |picks| ==> Templates[picks[i]].exerciseType != Templates[picks[j]].exerciseType
    ensures forall id :: id in qs && !IsActiveDailyOf(qs[id], user) ==>
      id in AfterGeneration(qs, base, user, picks, now) && AfterGeneration(qs, base, user, picks, now)[id] == qs[id]
    ensures forall id :: id in qs && IsActiveDailyOf(qs[id], user) ==> id !in AfterGeneration(qs, base, user, picks, now)
  {
    TemplatesWellFormed();
    var after := AfterGeneration(qs, base, user, picks, now);
    var created := NewDailyQuests(base, user, picks, now);
    forall id
      ensures id in after && IsActiveDailyOf(after[id], user) <==> base <= id < base + 3
    {
      if base <= id < base + 3 {
        var k := id - base;
        assert created[base + k] == Instantiate(Templates[picks[k]], user, now);
        InstantiateFresh(picks[k], user, now);
      }
    }
  }

  /** A generation keeps every stored quest well formed and every quest id below the advanced counter. */
  lemma GeneratedQuestsWellFormed(qs: map<QuestId, Quest>, base: QuestId, user: UserId, picks: seq<int>, now: int)
    requires ValidPicks(picks)
    requires forall id :: id in qs ==> id < base && QuestWellFormed(qs[id])
    ensures forall id :: id in AfterGeneration(qs, base, user, picks, now) ==>
      id < base + 3 && QuestWellFormed(AfterGeneration(qs, base, user, picks, now)[id])
  {
    var created := NewDailyQuests(base, user, picks, now);
    forall id | id in created
      ensures id < base + 3 && QuestWellFormed(created[id])
    {
      var k := id - base;
      assert created[base + k] == Instantiate(Templates[picks[k]], user, now);
      InstantiateFresh(picks[k], user, now);
    }
  }

  class GameStore {
    var users: map<UserId, User>
    var nextUserId: nat
    var quests: map<QuestId, Quest>
    var nextQuestId: nat
    var workoutLogs: seq<WorkoutLogEntry>
    var achievements: seq<Achievement>
    var userAchievements: map<ProgressKey, UserAchievement>
    var settings: map<UserId, SettingsDoc>

    /**
     * The store invariant: ids lie below the next id to hand out, every user
     * record is consistent with its experience total, every quest is well
     * formed, every user has a settings document, achievement ids are
     * distinct, and an achievement record carries an unlock time exactly
     * when it is completed.
     */
    ghost predicate Valid()
      reads this
    {
      && (forall id :: id in users ==> id < nextUserId)
      && (forall id :: id in quests ==> id < nextQuestId)
      && (forall id :: id in users ==> Consistent(users[id]))
      && (forall id :: id in quests ==> QuestWellFormed(quests[id]))
      && (forall id :: id in users ==> id in settings)
      && DistinctIds(achievements)
      && UnlockedIffCompleted(userAchievements)
    }

    constructor ()
      ensures Valid()
      ensures users == map[] && quests == map[] && workoutLogs == []
      ensures achievements == [] && userAchievements == map[] && settings == map[]
      ensures nextUserId == 0 && nextQuestId == 0
    {
      users, nextUserId := map[], 0;
      quests, nextQuestId := map[], 0;
      workoutLogs := [];
      achievements := [];
      userAchievements := map[];
      settings := map[];
    }

    /** Start-up: install the default catalog if there is no achievement yet. */
    method InitializeAchievements()
      requires Valid()
      modifies this
      ensures Valid()
      ensures achievements == if old(achievements) == [] then DefaultAchievements() else old(achievements)
      ensures users == old(users) && quests == old(quests) && workoutLogs == old(workoutLogs)
      ensures userAchievements == old(userAchievements) && settings == old(settings)
      ensures nextUserId == old(nextUserId) && nextQuestId == old(nextQuestId)
    {
      if |achievements| == 0 {
        DefaultAchievementsWellFormed();
        achievements := DefaultAchievements();
      }
    }

    /**
     * Replace `user`'s active daily quests by three new ones built from the
     * templates at `picks`, each at progress 0, active, expiring a day later.
     */
    method GenerateDailyQuests(user: UserId, picks: seq<int>, now: int)
      requires Valid() && ValidPicks(picks)
      modifies this
      ensures Valid()
      ensures quests == AfterGeneration(old(quests), old(nextQuestId), user, picks, now)
      ensures nextQuestId == old(nextQuestId) + 3
      ensures users == old(users) && nextUserId == old(nextUserId) && workoutLogs == old(workoutLogs)
      ensures achievements == old(achievements) && userAchievements == old(userAchievements)
      ensures settings == old(settings)
    {
      quests := WithoutActiveDaily(quests, user);
      var questDocs: seq<Quest> := [];
      for k := 0 to |picks|
        invariant questDocs == DailyDocs(user, picks, now)[..k]
      {
        questDocs := questDocs + [Instantiate(Templates[picks[k]], user, now)];
      }
      assert questDocs == DailyDocs(user, picks, now);
      var base := nextQuestId;
      quests := quests + Inserted(base, questDocs);
      nextQuestId := base + |questDocs|;
      assert quests == AfterGeneration(old(quests), base, user, picks, now);
      GeneratedQuestsWellFormed(old(quests), base, user, picks, now);
    }

    /**
     * Registration: refuse a used e-mail, then a used user name; otherwise
     * store the new user document, its default settings, and its first three
     * daily quests.
     */
    method Register(username: string, email: string, picks: seq<int>, now: int) returns (r: Result<UserId>)
      requires Valid() && ValidPicks(picks)
      modifies this
      ensures Valid()
      ensures r.Ok? <==> !EmailInUse(old(users), email) && !UsernameInUse(old(users), username)
      ensures EmailInUse(old(users), email) ==> r == Err(EmailTaken)
      ensures !EmailInUse(old(users), email) && UsernameInUse(old(users), username) ==> r == Err(UsernameTaken)
      ensures r.Err? ==>
        && users == old(users) && nextUserId == old(nextUserId) && quests == old(quests)
        && nextQuestId == old(nextQuestId) && settings == old(settings)
      ensures r.Ok? ==>
        && !EmailInUse(old(users), email) && !UsernameInUse(old(users), username)
        && r.value == old(nextUserId) && r.value !in old(users)
        && users == old(users)[r.value := NewUser(username, email, now)]
        && nextUserId == old(nextUserId) + 1
        && settings == old(settings)[r.value := SettingsDoc(DefaultSettings(), now, now)]
        && quests == AfterGeneration(old(quests), old(nextQuestId), r.value, picks, now)
        && nextQuestId == old(nextQuestId) + 3
      ensures workoutLogs == old(workoutLogs) && achievements == old(achievements)
      ensures userAchievements == old(userAchievements)
    {
      if exists id | id in users :: users[id].email == email {
        return Err(EmailTaken);
      }
      if exists id | id in users :: users[id].username == username {
        return Err(UsernameTaken);
      }
      var id := nextUserId;
      NewUserConsistent(username, email, now);
      users := users[id := NewUser(username, email, now)];
      nextUserId := id + 1;
      settings := settings[id := SettingsDoc(DefaultSettings(), now, now)];
      GenerateDailyQuests(id, picks, now);
      r := Ok(id);
    }

    /** The daily-generation endpoint: the authenticated user must exist. */
    method GenerateNewDailyQuests(user: UserId, picks: seq<int>, now: int) returns (r: Result<()>)
      requires Valid() && ValidPicks(picks)
      modifies this
      ensures Valid()
      ensures r.Err? <==> user !in old(users)
      ensures r.Err? ==> r.error == Unauthorized && quests == old(quests) && nextQuestId == old(nextQuestId)
      ensures r.Ok? ==>
        && quests == AfterGeneration(old(quests), old(nextQuestId), user, picks, now)
        && nextQuestId == old(nextQuestId) + 3
      ensures users == old(users) && nextUserId == old(nextUserId) && workoutLogs == old(workoutLogs)
      ensures achievements == old(achievements) && userAchievements == old(userAchievements)
      ensures settings == old(settings)
    {
      if user !in users {
        return Err(Unauthorized);
      }
      GenerateDailyQuests(user, picks, now);
      r := Ok(());
    }

    /**
     * The achievement check run after a reward: every catalog achievement the
     * user has not completed is re-evaluated against the stored user record
     * and the workout log, its progress record is updated or created, and
     * those that now meet their requirement are reported.
     */
    method CheckUserAchievements(user: UserId, now: int) returns (newlyUnlocked: seq<Achievement>)
      requires Valid() && user in users
      modifies this
      ensures Valid()
      ensures users == old(users) && nextUserId == old(nextUserId) && quests == old(quests)
      ensures nextQuestId == old(nextQuestId) && workoutLogs == old(workoutLogs)
      ensures achievements == old(achievements) && settings == old(settings)
      ensures userAchievements == EvaluateAll(old(userAchievements), achievements, user, users[user], workoutLogs, now)
      ensures newlyUnlocked == NewlyUnlocked(old(userAchievements), achievements, user, users[user], workoutLogs)
    {
      var snapshot := userAchievements;
      var userData := users[user];
      newlyUnlocked := [];
      var i := 0;
      while i < |achievements|
        invariant 0 <= i <= |achievements|
        invariant userAchievements == EvaluateAll(snapshot, achievements[..i], user, userData, workoutLogs, now)
        invariant newlyUnlocked == NewlyUnlocked(snapshot, achievements[..i], user, userData, workoutLogs)
        invariant users == old(users) && nextUserId == old(nextUserId) && quests == old(quests)
        invariant nextQuestId == old(nextQuestId) && workoutLogs == old(workoutLogs)
        invariant achievements == old(achievements) && settings == old(settings)
      {
        var a := achievements[i];
        assert achievements[..i + 1][..i] == achievements[..i];
        if !PreviouslyCompleted(snapshot, user, a.id) {
          var currentValue := CurrentValue(a.requirementType, userData, workoutLogs, user);
          var met := currentValue >= a.requirementValue;
          var key := (user, a.id);
          if key in snapshot {
            var existing := snapshot[key];
            userAchievements := userAchievements[key :=
              UserAchievement(currentValue, met, if met then Some(now) else existing.unlockedAt)];
          } else {
            userAchievements := userAchievements[key :=
              UserAchievement(currentValue, met, if met then Some(now) else None)];
          }
          if met {
            newlyUnlocked := newlyUnlocked + [a];
          }
        }
        i := i + 1;
      }
      assert achievements[..|achievements|] == achievements;
      EvaluateAllKeepsUnlockInvariant(snapshot, achievements, user, userData, workoutLogs, now);
    }

    /**
     * Reward for a completed quest: add the experience to the cumulative
     * total, recompute level, experience-to-next and tier, count the quest,
     * grow each stat by 2 if the level rose, then run the achievement check.
     * The gold reward is received but not stored anywhere.
     */
    method RewardUser(user: UserId, xpReward: int, goldReward: int, now: int) returns (newlyUnlocked: seq<Achievement>)
      requires Valid() && user in users && xpReward >= 0
      modifies this
      ensures Valid()
      ensures users == old(users)[user := Rewarded(old(users)[user], xpReward)]
      ensures userAchievements == EvaluateAll(old(userAchievements), achievements, user, users[user], workoutLogs, now)
      ensures newlyUnlocked == NewlyUnlocked(old(userAchievements), achievements, user, users[user], workoutLogs)
      ensures nextUserId == old(nextUserId) && quests == old(quests) && nextQuestId == old(nextQuestId)
      ensures workoutLogs == old(workoutLogs) && achievements == old(achievements) && settings == old(settings)
    {
      var u := users[user];
      var newTotalXp := u.totalXp + xpReward;
      var newLevel, xpToNext := CalculateLevelFromXp(newTotalXp);
      var levelUp := newLevel > u.level;
      var updated := u.(totalXp := newTotalXp,
                        level := newLevel,
                        xpToNextLevel := xpToNext,
                        totalQuestsCompleted := u.totalQuestsCompleted + 1,
                        avatarTier := AvatarTierOf(newLevel));
      if levelUp {
        updated := updated.(strength := u.strength + StatGainOnLevelUp,
                            agility := u.agility + StatGainOnLevelUp,
                            stamina := u.stamina + StatGainOnLevelUp,
                            vitality := u.vitality + StatGainOnLevelUp);
      }
      assert updated == Rewarded(u, xpReward);
      RewardedSpec(u, xpReward);
      users := users[user := updated];
      newlyUnlocked := CheckUserAchievements(user, now);
    }

    /**
     * Log a workout against a quest: find the user's active quest with that
     * id (otherwise not found, nothing changes), move its progress to
     * min(progress + value, target), complete it on reaching the target and
     * only then reward the user, and finally append the workout to the log.
     */
    method LogWorkout(user: UserId, questId: QuestId, exerciseType: string, value: int,
                      notes: Option<string>, now: int) returns (r: Result<WorkoutOutcome>)
      requires Valid()
      modifies this
      ensures Valid()
      ensures r.Ok? <==> user in old(users) && QuestFound(old(quests), questId, user)
      ensures user !in old(users) ==> r == Err(Unauthorized)
      ensures user in old(users) && !QuestFound(old(quests), questId, user) ==> r == Err(NotFound)
      ensures r.Err? ==>
        && users == old(users) && quests == old(quests) && workoutLogs == old(workoutLogs)
        && userAchievements == old(userAchievements)
      ensures r.Ok? ==>
        && user in old(users) && QuestFound(old(quests), questId, user)
        && var q := old(quests)[questId];
           var stepped := ApplyWorkout(q, value);
           var completed := stepped.status == Completed;
           && r.value == WorkoutOutcome(completed, stepped.currentProgress, q.targetValue)
           && quests == old(quests)[questId := stepped]
           && workoutLogs == old(workoutLogs) + [WorkoutLogEntry(user, questId, exerciseType, value, notes, now)]
           && users == (if completed then old(users)[user := Rewarded(old(users)[user], q.xpReward)] else old(users))
           && userAchievements == (if completed
                                   then EvaluateAll(old(userAchievements), achievements, user, users[user], old(workoutLogs), now)
                                   else old(userAchievements))
      ensures nextUserId == old(nextUserId) && nextQuestId == old(nextQuestId)
      ensures achievements == old(achievements) && settings == old(settings)
    {
      if user !in users {
        return Err(Unauthorized);
      }
      if !(questId in quests && quests[questId].owner == user && quests[questId].status == Active) {
        return Err(NotFound);
      }
      var quest := quests[questId];
      var newProgress := Min(quest.currentProgress + value, quest.targetValue);
      var questCompleted := newProgress >= quest.targetValue;
      var updated := quest.(currentProgress := newProgress);
      if questCompleted {
        updated := updated.(status := Completed);
      }
      assert updated == ApplyWorkout(quest, value);
      ApplyWorkoutPreservesWellFormed(quest, value);
      quests := quests[questId := updated];
      if questCompleted {
        var _ := RewardUser(user, quest.xpReward, quest.goldReward, now);
      }
      workoutLogs := workoutLogs + [WorkoutLogEntry(user, questId, exerciseType, value, notes, now)];
      r := Ok(WorkoutOutcome(questCompleted, newProgress, quest.targetValue));
    }

    /**
     * Settings update: collect the supplied fields whose value is not null;
     * if there are any, write them (with the update time) over the user's
     * settings document, otherwise write nothing.
     */
    method UpdateUserSettings(user: UserId, update: SettingsUpdate, now: int) returns (r: Result<()>)
      requires Valid()
      modifies this
      ensures Valid()
      ensures r.Err? <==> user !in old(users)
      ensures r.Err? ==> r.error == Unauthorized && settings == old(settings)
      ensures r.Ok? && NothingSupplied(update) ==> settings == old(settings)
      ensures r.Ok? && !NothingSupplied(update) ==>
        settings == old(settings)[user := SettingsDoc(MergeSettings(old(settings)[user].values, update),
                                                      old(settings)[user].createdAt, now)]
      ensures users == old(users) && nextUserId == old(nextUserId) && quests == old(quests)
      ensures nextQuestId == old(nextQuestId) && workoutLogs == old(workoutLogs)
      ensures achievements == old(achievements) && userAchievements == old(userAchievements)
    {
      if user !in users {
        return Err(Unauthorized);
      }
      var items := Items(update);
      var updateData: map<SettingField, SettingValue> := map[];
      for i := 0 to |items|
        invariant updateData == SuppliedData(items[..i])
      {
        assert items[..i + 1][..i] == items[..i];
        var (field, value) := items[i];
        if value.Some? {
          updateData := updateData[field := value.value];
        }
      }
      assert items[..|items|] == items;
      SuppliedDataOfRequest(update);
      if updateData != map[] {
        var doc := settings[user];
        settings := settings[user := SettingsDoc(ApplyData(doc.values, updateData), doc.createdAt, now)];
        assert !NothingSupplied(update) by {
          var f :| f in updateData;
        }
      } else {
        assert NothingSupplied(update) by {
          forall f ensures Requested(update, f).None? {
            assert f !in updateData;
          }
        }
      }
      r := Ok(());
    }
  }
}
