# Progression and reward engine of the fitness RPG backend

The backend turns logged workouts into RPG progress. Each user gets three
daily quests drawn from five templates. Logging a workout against an active
quest moves its progress toward the target. Completing a quest rewards the
user with experience, which recomputes the level, the experience still
missing to the next level and the avatar tier, and raises the four character
stats on a level-up. Every reward then re-evaluates the achievement catalog
against the user record and the workout log. Users also keep a settings
document with defaults that a partial update merges into.

This project models that engine in Dafny:

- `Curve` (curve.dfy): the level cost curve, the cumulative experience below a level, the level walk as a function (`LevelOf`) and as the source's loop (`CalculateLevelFromXp`).
- `Tiers` (tiers.dfy): the avatar tier of a level, with an independent breakpoint-counting definition.
- `Quests` (quests.dfy): the five templates, quest documents, the workout progress step and a series of workouts against one quest.
- `Progression` (progression.dfy): the user document, registration defaults and the reward.
- `Achievements` (achievements.dfy): the default catalog, the workout log, the requirement-type dispatch, and one evaluation pass with its newly-unlocked list.
- `UserSettings` (settings.dfy): settings defaults, the update request and the merge.
- `Store` (store.dfy): the class `GameStore`. Its fields are the document collections, as maps keyed by id plus the workout log sequence. Its methods are the handlers that change them: registration, daily generation, workout logging, reward, the achievement check, and the settings update. `Valid()` is the store invariant that every handler keeps. Each handler's `ensures` ties the new state to the specification functions above, and the lemmas beside those functions state the promised properties.

On these points the model follows the code exactly:

- `total_xp` is cumulative. It is never reset on a level-up, and the level is always re-derived from the running total.
- `xp_to_next_level` is the experience still missing, not the cost of the level.
- No gold balance is stored. `reward_user` receives the gold reward and drops it.
- The three daily templates are distinct. They come from a sample without replacement.
- `total_workouts` and `current_streak` are never updated by any handler. They keep their registration values of 0.

## Model

| member | source | states |
|---|---|---|
| Curve.XpForLevel | backend/server.py:159-161 | the cost of a level, 100 * 3^(l-1) / 2^(l-1) truncated, is at least 100 |
| Curve.FirstLevelCostsHundred | backend/server.py:159-161 | level 1 costs exactly 100 |
| Curve.SmallLevelCosts | backend/server.py:159-161 | levels 2, 3 and 4 cost 150, 225 and 337 |
| Curve.XpForLevelStep | backend/server.py:159-161 | each level costs strictly more than the previous one |
| Curve.XpForLevelIncreasing | backend/server.py:159-161 | the cost is strictly increasing between any two levels |
| Curve.XpBelowIncreasing | backend/server.py:163-174 | the cumulative experience needed to reach a level grows by at least the cost of each level passed |
| Curve.LevelWalk | backend/server.py:165-171 | the walk never ends below the level it starts from |
| Curve.LevelOf | backend/server.py:163-174 | the derived level is at least 1 |
| Curve.LevelWalkReaches | backend/server.py:165-174 | walking from any level with the remaining experience lands on the level whose cumulative band contains the total |
| Curve.LevelOfIsLevel | backend/server.py:163-174 | the derived (level, to-next) lies in the band XpBelow(level) <= total < XpBelow(level+1), and to-next is the distance to the band's top |
| Curve.LevelOfBounds | backend/server.py:163-174 | for total >= 0: level >= 1, 0 < to-next <= cost(level), and total == sum of costs below level + cost(level) - to-next |
| Curve.IsLevelOfUnique | backend/server.py:163-174 | a total lies in exactly one level band |
| Curve.LevelOfMonotone | backend/server.py:163-174 | more experience never gives a lower level |
| Curve.LevelOfZero | backend/server.py:224-226 | a total of 0 gives level 1 with 100 to go, the registration defaults |
| Curve.CalculateLevelFromXp | backend/server.py:163-174 | the loop subtracting each level's cost returns the level band of the total and agrees with LevelOf |
| Tiers.AvatarTierOf | backend/server.py:176-187 | Bronze below 10, Silver for 10-19, Gold for 20-29, Diamond for 30-49, Shadow from 50 |
| Tiers.CountReached | backend/server.py:176-187 | the number of breakpoints reached is at most the number of breakpoints |
| Tiers.CountReachedMonotone | backend/server.py:176-187 | a higher level reaches at least as many breakpoints |
| Tiers.AvatarTierMatchesBreakpoints | backend/server.py:176-187 | the tier's rank equals the number of the breakpoints 10, 20, 30, 50 reached |
| Tiers.AvatarTierMonotone | backend/server.py:176-187 | a higher level never has a lower tier |
| Tiers.LevelOneIsBronze | backend_test.py:223 | level 1 is Bronze |
| Tiers.TierNameInjective | backend/server.py:176-187 | distinct tiers have distinct stored names |
| Quests.TemplatesWellFormed | backend/server.py:296-337 | the template table `Quests.Templates`: there are five templates, each with positive target and rewards, for five distinct exercises |
| Quests.Instantiate | backend/server.py:345-359 | the quest document built from a template; its properties are stated by Quests.InstantiateFresh |
| Quests.InstantiateFresh | backend/server.py:344-360 | a quest built from a template is an active daily quest of the user at progress 0 with positive reward, expiring a day later |
| Quests.ApplyWorkout | backend/server.py:415-424 | the new progress never exceeds the target; the quest completes iff progress + value reaches the target; nothing else in the quest changes |
| Quests.ApplyWorkoutPreservesWellFormed | backend/server.py:415-424 | the step keeps active quests short of the target and puts completed ones exactly on it |
| Quests.SumNonNegative | backend/server.py:415 | a series of non-negative workout values has a non-negative total |
| Quests.ReplayCompleted | backend/server.py:405-413 | a completed quest is no longer found, so further workouts change nothing and trigger no reward |
| Quests.ReplayProgress | backend/server.py:405-430 | after non-negative workouts, progress is min(start + sum, target), and the quest completes and triggers its single reward iff start + sum reaches the target |
| Progression.NewUser | backend/server.py:217-239 | the registration document is consistent: level and to-next derived from 0 experience, tier from the level |
| Progression.Rewarded | backend/server.py:450-476 | the rewarded user document; its properties are stated by Progression.RewardedSpec |
| Progression.NewUserConsistent | backend/server.py:217-239 | a new account is level 1, 0 experience, 100 to go, Bronze, stats 10, counters 0, and consistent |
| Progression.RewardedSpec | backend/server.py:450-481 | a reward keeps the record consistent, adds exactly the reward and one quest, never lowers level or tier, moves each stat by exactly 2 if the level rose and 0 otherwise, and leaves identity, workouts and streak alone |
| Progression.RewardedLevelBounds | backend/server.py:455-467 | after a reward, to-next lies in (0, cost(level)] and the total equals the cumulative cost formula |
| Progression.MultiLevelRewardGainsStatsOnce | backend/server.py:459-476 | a 300-experience reward to a new account reaches level 3 with 175 to go, but each stat rises by 2 only once |
| Progression.RewardScenarioNinetyPlusFifty | backend/server.py:455-467 | 90 + 50 experience gives a cumulative 140, level 2, 110 to go, and +2 strength |
| Achievements.DefaultAchievements | backend/server.py:492-605 | the nine default achievements; their properties are stated by Achievements.DefaultAchievementsWellFormed |
| Achievements.CurrentValue | backend/server.py:636-653 | the value a requirement type reads; the exercise types are stated by Achievements.ExerciseRequirementsCountLoggedWorkouts |
| Achievements.EvaluateAll | backend/server.py:624-677 | a pass never deletes a record and creates records only for the user it evaluates |
| Achievements.NewlyUnlocked | backend/server.py:624-683 | the newly-unlocked list is drawn from the catalog and is no longer than it |
| Achievements.DefaultAchievementsWellFormed | backend/server.py:490-611 | the default catalog has nine achievements with distinct ids and positive requirements |
| Achievements.ExerciseTotalAppend | backend/server.py:647-653 | appending a log entry adds its value to the matching exercise total only |
| Achievements.ExerciseFor | backend/server.py:649 | a "<exercise>_total" requirement counts exactly <exercise>; other types are left as they are |
| Achievements.ExerciseRequirementsCountLoggedWorkouts | backend/server.py:646-653 | push_ups_total and running_total read the summed push_ups and running values the user logged |
| Achievements.Evaluate | backend/server.py:656-677 | the written record has progress equal to the read value, is completed iff that meets the requirement, is unlocked now when completed, and otherwise keeps the earlier unlock time (none for a new record) |
| Achievements.EvaluateAllKeepsUnlockInvariant | backend/server.py:656-677 | a pass keeps "has an unlock time iff completed" for every record, so the unlock time is set exactly when a record becomes completed |
| Achievements.NewlyUnlockedExactly | backend/server.py:624-683 | an achievement is reported iff it is in the catalog, was not completed before the pass, and now meets its requirement |
| Achievements.EvaluateAllKeepsCompleted | backend/server.py:624-630 | an achievement already completed is skipped and never reverted |
| Achievements.EvaluateAllOutside | backend/server.py:614-683 | records of other users and of achievements outside the catalog are untouched |
| Achievements.EvaluateAllAt | backend/server.py:626-677 | every catalog achievement not completed before gets progress = read value and completed iff it meets the requirement |
| UserSettings.Get | backend/server.py:125-133 | every field reads back a value of its declared kind |
| UserSettings.SettingsExtensional | backend/server.py:125-133 | a settings document is determined by its eight fields |
| UserSettings.DefaultSettings | backend/server.py:687-699 | the default settings document; its values are stated by UserSettings.DefaultSettingsValues |
| UserSettings.MergeSettings | backend/server.py:771-784 | the settings after an update; its effect is stated by UserSettings.MergeSettingsFields |
| UserSettings.DefaultSettingsValues | backend/server.py:685-700 | defaults are theme dark, units metric, language en, every flag on |
| UserSettings.SuppliedDataAt | backend/server.py:774-776 | the update data holds a field iff its item carries a value, and then that value |
| UserSettings.SuppliedDataOfRequest | backend/server.py:771-776 | the update data holds exactly the fields the request supplies, with their values |
| UserSettings.ApplyDataAt | backend/server.py:778-784 | after writing the update data, a field reads the written value if supplied, else its old one |
| UserSettings.MergeSettingsFields | backend/server.py:768-786 | only fields supplied with a value change, each to that value; the others keep their values |
| UserSettings.EmptyUpdateChangesNothing | backend/server.py:778 | an update supplying nothing leaves the settings unchanged |
| UserSettings.MergeSettingsIdempotent | backend/server.py:768-786 | applying the same update twice equals applying it once |
| UserSettings.LightImperialNoReminders | backend_test.py:590-592 | over the defaults, light theme, imperial units and reminders off change exactly those fields |
| Store.WithoutActiveDaily | backend/server.py:289-293 | the deletion keeps only quests that were there, unchanged, and none of them is an active daily quest of the user |
| Store.DailyDocs | backend/server.py:343-360 | one document per pick, each an active daily quest of the user at progress 0 with a positive reward and well formed, and the three ask for pairwise distinct exercises |
| Store.Inserted | backend/server.py:362 | the inserted documents sit under consecutive new ids, in order, and nowhere else |
| Store.DailyGenerationReplaces | backend/server.py:285-362 | afterwards the user's active daily quests are exactly the three new ones, from distinct templates and exercises; earlier active daily quests are gone; all other quests are unchanged |
| Store.GeneratedQuestsWellFormed | backend/server.py:343-362 | generation keeps every stored quest well formed |
| Store.GameStore.constructor | backend/server.py:21-24 | an empty store is valid |
| Store.GameStore.InitializeAchievements | backend/server.py:607-611 | the default catalog is installed only when no achievement exists |
| Store.GameStore.GenerateDailyQuests | backend/server.py:285-362 | deletes the user's active daily quests and inserts the three instantiated templates under new ids |
| Store.GameStore.Register | backend/server.py:204-252 | a used e-mail, then a used user name, is refused with nothing stored; the request succeeds iff both are free, and then the default user, default settings and three daily quests are stored |
| Store.GameStore.GenerateNewDailyQuests | backend/server.py:393-397 | an existing user's daily quests are regenerated; an unknown user is refused |
| Store.GameStore.CheckUserAchievements | backend/server.py:614-683 | the loop writes exactly the evaluation pass over the catalog and returns exactly its newly-unlocked list |
| Store.GameStore.RewardUser | backend/server.py:450-487 | the user record becomes the rewarded record and the achievement pass runs on it; gold is not stored |
| Store.GameStore.LogWorkout | backend/server.py:400-448 | unknown user, or a quest that is not the user's and active, is refused with nothing changed; the request succeeds iff the user exists and the quest is theirs and active, and then the quest takes the progress step, the reward runs iff it completed, and then the workout is appended to the log |
| Store.GameStore.UpdateUserSettings | backend/server.py:768-786 | the loop collects exactly the supplied fields; if any, the settings become the merge and the update time is set; otherwise nothing is written |

## Left out

- HTTP routing, dependency injection, CORS, logging and the asynchronous database driver are I/O plumbing. The store is maps keyed by natural-number ids, each request is atomic, and the read-then-write race in the workout handler is not modelled.
- Tokens and password hashing are foreign library calls: JWT encoding and decoding, bcrypt, and the login handler. Authentication becomes "the user id is in the store", and a missing user gives `Unauthorized`.
- Profile pictures (upload, read, delete, base64) are file handling outside the engine.
- The read-only handlers (profile, quest list, catalog and progress listings, settings read) change nothing and are not modelled. The settings read's lazy creation of defaults never fires here, because every registered user has a settings document.
- The settings upsert that inserts a document containing only the supplied fields is unreachable under `Valid()`, for the same reason.
- `random.sample` in daily generation: the three chosen template indices are an input, required to be distinct and in range.
- Clock values and ids are parameters. `datetime.utcnow()` becomes `now`, the expiry is `now + OneDay`, and an ObjectId is a natural number. The workout handler takes the quest id as a client string; a malformed one makes `ObjectId(quest_id)` raise and the request end in an unhandled server error. That error path is dropped, because the model's ids are natural numbers.
- Curve.XpForLevel: the floating-point `int(100 * 1.5 ** (level - 1))` is modelled as the exact integer `floor(100 * 3^(l-1) / 2^(l-1))`. The two agree at small levels (`Curve.SmallLevelCosts`). Agreement at large levels, where the float rounds, is not claimed.
- Achievements.ExerciseFor: strips a trailing "_total", where the source removes every occurrence of it. The two agree on the only types that reach it, push_ups_total and running_total.
- Store.GameStore.RewardUser: requires a non-negative reward. The source calls it only with a quest's reward, which the store invariant keeps positive.
- Quests.ApplyWorkout: requires an active quest. The handler applies the step only to a quest found active.
- Quests.ReplayProgress: assumes non-negative workout values. The source does not check the sign, and `ApplyWorkout` models negative values as they behave: progress can go down.
- Dropped document fields: `item_reward` (always null), `password_hash` and the achievement `created_at`. Nothing in the engine reads them.
- The achievement rewards (experience and gold) are never credited, exactly as in the source. The newly-unlocked list is returned and then dropped by the workout handler.
