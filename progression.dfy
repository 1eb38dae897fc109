/**
 * The user's progression record and the reward applied when a quest is
 * completed: experience, level, tier and the four character stats.
 */
module Progression {
  import opened Curve
  import opened Tiers

  /** Base value of each character stat for a new account. */
  const BaseStat: int := 10

  /** What each stat gains on a reward that raises the level. */
  const StatGainOnLevelUp: int := 2

  /**
   * The user document: identity fields, the cumulative `totalXp` with the
   * level and experience-to-next derived from it, the four stats and the
   * counters. The document holds no gold balance.
   */
  datatype User = User(
    username: string,
    email: string,
    createdAt: int,
    level: int,
    totalXp: int,
    xpToNextLevel: int,
    strength: int,
    agility: int,
    stamina: int,
    vitality: int,
    totalQuestsCompleted: int,
    totalWorkouts: int,
    currentStreak: int,
    avatarTier: AvatarTier)

  /** The user document written at registration. */
  function NewUser(username: string, email: string, now: int): (u: User)
    ensures Consistent(u)
  {
    LevelOfZero();
    User(username, email, now, 1, 0, 100, BaseStat, BaseStat, BaseStat, BaseStat, 0, 0, 0, Bronze)
  }

  /** Level, experience-to-next and tier agree with the cumulative experience, which is not negative. */
  ghost predicate Consistent(u: User)
  {
    && u.totalXp >= 0
    && (u.level, u.xpToNextLevel) == LevelOf(u.totalXp)
    && u.avatarTier == AvatarTierOf(u.level)
  }

  /**
   * A new account is at level 1 with 100 experience to go, Bronze, every stat
   * at 10 and every counter at 0, and its derived fields are consistent.
   */
  lemma NewUserConsistent(username: string, email: string, now: int)
    ensures var u := NewUser(username, email, now);
      && Consistent(u)
      && u.level == 1 && u.totalXp == 0 && u.xpToNextLevel == 100 && u.avatarTier == Bronze
      && u.strength == u.agility == u.stamina == u.vitality == 10
      && u.totalQuestsCompleted == 0 && u.totalWorkouts == 0 && u.currentStreak == 0
  {
    LevelOfZero();
  }

  /**
   * The user document after a quest reward of `xpReward`: the cumulative
   * experience grows, level and experience-to-next are recomputed from it,
   * one more quest is counted, the tier follows the new level, and each stat
   * grows by 2 once if the level rose at all.
   */
  function Rewarded(u: User, xpReward: int): User
  {
    var newTotalXp := u.totalXp + xpReward;
    var (newLevel, xpToNext) := LevelOf(newTotalXp);
    var levelUp := newLevel > u.level;
    var gain := if levelUp then StatGainOnLevelUp else 0;
    u.(totalXp := newTotalXp,
       level := newLevel,
       xpToNextLevel := xpToNext,
       totalQuestsCompleted := u.totalQuestsCompleted + 1,
       avatarTier := AvatarTierOf(newLevel),
       strength := u.strength + gain,
       agility := u.agility + gain,
       stamina := u.stamina + gain,
       vitality := u.vitality + gain)
  }

  /**
   * A reward on a consistent record keeps it consistent, never lowers the
   * level or the tier, adds exactly `xpReward` experience and one completed
   * quest, and moves each stat by exactly 2 when the level rose and by 0
   * otherwise; identity, workouts and streak are untouched.
   */
  lemma RewardedSpec(u: User, xpReward: int)
    requires Consistent(u) && xpReward >= 0
    ensures var v := Rewarded(u, xpReward);
      && Consistent(v)
      && v.level >= u.level
      && Rank(v.avatarTier) >= Rank(u.avatarTier)
      && v.totalXp == u.totalXp + xpReward
      && v.totalQuestsCompleted == u.totalQuestsCompleted + 1
      && v.strength - u.strength == v.agility - u.agility == v.stamina - u.stamina
         == v.vitality - u.vitality == (if v.level > u.level then 2 else 0)
      && v.username == u.username && v.email == u.email && v.createdAt == u.createdAt
      && v.totalWorkouts == u.totalWorkouts && v.currentStreak == u.currentStreak
  {
    LevelOfMonotone(u.totalXp, u.totalXp + xpReward);
    AvatarTierMonotone(u.level, Rewarded(u, xpReward).level);
  }

  /**
   * A reward that crosses the level boundary leaves a consistent record with
   * the new experience-to-next within the new level's cost.
   */
  lemma RewardedLevelBounds(u: User, xpReward: int)
    requires Consistent(u) && xpReward >= 0
    ensures var v := Rewarded(u, xpReward);
      && 0 < v.xpToNextLevel <= XpForLevel(v.level)
      && v.totalXp == XpBelow(v.level) + XpForLevel(v.level) - v.xpToNextLevel
  {
    LevelOfBounds(u.totalXp + xpReward);
  }

  /**
   * A single reward that jumps a new account from level 1 to level 3
   * (300 experience against costs of 100 and 150) still adds 2 to each stat
   * only once.
   */
  lemma MultiLevelRewardGainsStatsOnce(username: string, email: string, now: int)
    ensures var v := Rewarded(NewUser(username, email, now), 300);
      && v.level == 3 && v.xpToNextLevel == 175 && v.totalXp == 300
      && v.strength == 12 && v.agility == 12 && v.stamina == 12 && v.vitality == 12
  {
    assert LevelOf(300) == (3, 175);
  }

  /**
   * Level 1 with 90 experience, rewarded 50: the total is kept cumulative
   * (140), the level becomes 2 and 110 experience is missing to level 3.
   */
  lemma RewardScenarioNinetyPlusFifty(u: User)
    requires Consistent(u) && u.totalXp == 90
    ensures var v := Rewarded(u, 50);
      && u.level == 1
      && v.level == 2 && v.totalXp == 140 && v.xpToNextLevel == 110
      && v.strength == u.strength + 2
  {
    assert LevelOf(90) == (1, 10);
    assert LevelOf(140) == (2, 110);
  }
}
