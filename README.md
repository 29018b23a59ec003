# IQwars scoring and reward core, in Dafny

This project models the scoring and reward core of the IQwars trivia game.
It covers the backend and a few client pieces:

- **Reward formulas** (`GameLogic`): experience points per game mode and
  difficulty, coins, the square-root level curve, the experience needed for the
  next level, and the achievement checks.
- **Session game engine** (`GameService`, over the Sequelize-style store of
  `OrmModels`). Starting a game picks the questions and numbers them. Each
  answer is scored once. Completion sums the score, moves the streak, level and
  experience, and unlocks achievements. History is paged.
- **SQL reward pipeline** (`SqlStore`, `SqlRewards`, `GamesRoute`,
  `GameController`, `UserModel`). It has two variants: the `/complete` route,
  which runs one transaction, and the controller, which calls the `User`
  object's update methods one statement at a time. Both use the linear level
  `floor(xp / 1000) + 1`, an accuracy bonus, a speed bonus, and a streak that
  grows on every completion.
- **Questions** (`QuestionModel`, `QuestionsRoute`). Answers are checked and
  scored 10/15/20 points. The filtered random-question query is built as a list
  of structural conditions with numbered placeholders. Client views never carry
  the answer.
- **Request validators** (`Validation`) for registration, login and game
  completion, over a small JSON value type.
- **Derived statistics and rankings** (`UserService`, `LeaderboardService`):
  profile updates, overall accuracy, the achievement catalogue, daily
  challenges, both leaderboards, and a user's rank.
- **The client's sample questions** (`SampleQuestions`): the fifteen-question
  table and its three filters.
- **The client's authentication reducer** (`AuthReducer`).

Values are modelled as follows:

- Floating-point multipliers are scaled to tenths.
- `Math.round` of a percentage is integer round-half-up.
- Times are integers in milliseconds.
- `ORDER BY RANDOM()` and `Array.sort(() => 0.5 - Math.random())` become a
  `shuffled` parameter that is a permutation of the table.
- JavaScript truthiness of an optional number means present and non-zero.
- PostgreSQL `INTEGER` columns and parameters hold int4 values (−2^31 to
  2^31 − 1). A value outside that range is refused, and a sum leaving it raises
  an error. Inside the `/complete` transaction either rolls every write back;
  in the controller's separate updates it keeps the writes made before it.

## Model

| member | source | states |
|---|---|---|
| GameLogic.CalculateXp | backend/utils/gameLogic.js:1-22 | 10·xp ≤ correct·mode·difficulty (in tenths) < 10·xp + 10, i.e. the floor of 10·correct·modeMult·diffMult; 0 for no correct answers; between 10 and 50 per correct answer |
| GameLogic.XpMonotone | backend/utils/gameLogic.js:16-21 | more correct answers never give less experience, whatever the two scores (the score is ignored) |
| GameLogic.CalculateCoins | backend/utils/gameLogic.js:24-26 | coins − 5·correct is floor(score / 100) |
| GameLogic.IntSqrt | backend/utils/gameLogic.js:30 | r² ≤ n < (r+1)² |
| GameLogic.CalculateLevel | backend/utils/gameLogic.js:28-31 | level ≥ 1 and 1000·(level−1)² ≤ xp < 1000·level² |
| GameLogic.LevelUnique | backend/utils/gameLogic.js:28-31 | any L ≥ 1 with 1000·(L−1)² ≤ xp < 1000·L² is the computed level |
| GameLogic.LevelMonotone | backend/utils/gameLogic.js:28-31 | the level never decreases as experience grows |
| GameLogic.GetXpForNextLevel | backend/utils/gameLogic.js:33-35 | the threshold is a multiple of 1000 |
| GameLogic.NextLevelThreshold | backend/utils/gameLogic.js:28-35 | at getXPForNextLevel(L) the level is L+1, one point below it the level is L |
| GameLogic.ThresholdDecidesLevel | backend/utils/gameLogic.js:28-35 | for L ≥ 1 the level exceeds L exactly when xp ≥ getXPForNextLevel(L) |
| GameLogic.CheckAchievements | backend/utils/gameLogic.js:37-61 | first_win iff totalGames = 1; speed_demon iff mode 'sixty-second' and ≥ 50 correct; perfectionist iff total > 0 and correct = total; streak_master iff streak ≥ 10 |
| GameLogic.AchievementsOrdered | backend/utils/gameLogic.js:37-61 | the unlocked keys appear in catalogue order, each at most once |
| GameLogic.Names | backend/utils/gameLogic.js:42-57 | each key becomes its string name, in order |
| GameLogic.AchievementsDistinct | backend/utils/gameLogic.js:37-61 | the returned names are pairwise distinct |
| GameService.InCategory | backend/services/gameService.js:18-26 | exactly the active questions of the category, in ascending id order when the table is |
| GameService.Active | backend/services/gameService.js:27-35 | exactly the active questions |
| GameService.SelectQuestions | backend/services/gameService.js:14-35 | (intended version; see Findings) at most 50 questions in 'sixty-second' mode and 10 otherwise, all active; with a truthy category, the first QuestionCount of that category's active questions, min(count, matches) of them, in ascending id order when the table is; otherwise the first QuestionCount active questions of the shuffled table |
| GameService.SelectQuestionsAsWritten | backend/services/gameService.js:27-35 | without a truthy category the lookup fails (an unbound name), with one it succeeds |
| GameService.RandomSelectionWitness | backend/services/gameService.js:32 | with an active question and no category, the intended selection is non-empty while the written one fails |
| GameService.Slots | backend/services/gameService.js:42-46 | one unanswered slot per selected question, with questionOrder i+1 and the question's id |
| GameService.SelectedKnown | backend/services/gameService.js:41-48 | every slot created refers to a question in the table |
| GameService.StartGame | backend/services/gameService.js:5-57 | (intended random selection; see Findings) a mode outside the ENUM, a missing user or an unknown category is refused by the database with 500 and no game is stored; otherwise the game row is created, no questions gives 500 with no slots, and otherwise slots 1..n and totalQuestions = n |
| GameService.FindSlot | backend/services/gameService.js:111-120 | the first slot holding the question, or none when no slot does |
| GameService.FindSlotFirst | backend/services/gameService.js:111-120 | a first slot holding the question is the one found |
| GameService.AnswerPoints | backend/services/gameService.js:145-158 | 0 iff wrong; when right, 100/150/200 by difficulty (100 otherwise), plus 50 iff timeToAnswer is truthy and < 10 |
| GameService.SubmitAnswer | backend/services/gameService.js:98-166 | 404 for a game that is missing, foreign or not in progress; 404 for a question not in the game; 400 for an answered one; an answer outside 0..3 fails validation; a time outside the INTEGER range is refused with 500; in every failure nothing changes (categories included); on success only that slot gets the answer, correctness, time and date |
| GameService.SubmitTwice | backend/services/gameService.js:128-132 | after a successful answer, a second submission of the same question gets 400 and the first answer stays |
| GameService.AnsweredSlots | backend/services/gameService.js:194 | exactly the slots with an answer |
| GameService.CountCorrect | backend/services/gameService.js:195 | never more than the number of slots |
| GameService.ScoreBounds | backend/services/gameService.js:197-214 | 100·correct ≤ score ≤ 250·correct |
| GameService.AnsweredScoreIsTotal | backend/services/gameService.js:193-214 | scoring only the answered slots gives the same score and count as scoring all slots |
| GameService.NextStreak | backend/services/gameService.js:237-250 | 1 with no previous play; otherwise, by whole days since the last play: one more after exactly 1, back to 1 after more than 1, unchanged under 1 |
| GameService.DailyPlaysExtendStreak | backend/services/gameService.js:241-247 | n plays each one day after the previous one add n to the streak |
| GameService.ConsecutiveDaysStreak | backend/services/gameService.js:237-250 | a new player who plays on n consecutive days has streak n |
| GameService.UserAfterCompletion | backend/services/gameService.js:232-261 | the level matches the new experience; best ≥ current and ≥ old best; experience, coins, games and answers added; last play is today; nothing else changes |
| GameService.LeveledUpAtThreshold | backend/services/gameService.js:286 | with a consistent stored level, a level-up happens exactly when the new experience reaches getXPForNextLevel(level) |
| GameService.LeveledUpAsWritten | backend/services/gameService.js:252-286 | as written, `leveledUp` is false after every completion |
| GameService.LeveledUpAsWrittenWitness | backend/services/gameService.js:286 | at 950 experience plus 100 the level rises to 2, yet leveledUp as written is false |
| GameService.UnlockAll | backend/services/gameService.js:270-276 | old rows stay; every key is held afterwards; new rows are the user's, for listed keys not held before |
| GameService.TallyOf | backend/services/gameService.js:192-214 | correct ≤ total = number of slots, and 100·correct ≤ score ≤ 250·correct |
| GameService.SumScore | backend/services/gameService.js:197-214 | the loop's total is the score of the answered slots |
| GameService.UnlockAchievements | backend/services/gameService.js:271-276 | the achievement rows become UnlockAll of the old rows; nothing else changes |
| GameService.CompleteGame | backend/services/gameService.js:168-290 | (reports the intended leveledUp; see Findings) 404 for a game that is missing or foreign; otherwise the game's user exists (its foreign key), the game is completed with its tally and rewards, the call succeeds, and the user row, the achievements and the reply are as UserAfterCompletion, UnlockAll and CheckAchievements give |
| GameService.CompleteTwice | backend/services/gameService.js:168-171 | completing the same game twice awards its experience, coins and one game twice |
| GameService.PageCount | backend/services/gameService.js:325 | the integer ceiling of count / limit covers all games with less than one page to spare |
| GameService.Paginate | backend/services/gameService.js:323-329 | totalPages is the ceiling; hasNext iff page·limit < count; hasPrev iff page > 1 |
| GameService.GetGameHistory | backend/services/gameService.js:292-331 | the entries are the rows from (page−1)·limit on, at most limit of them, formatted in order, with the pagination block |
| SqlRewards.RewardFor | backend/routes/games.js:73-91 | base 10·correct experience and floor(score/100) coins, plus a bonus of 0, 25, 50, 30, 55 or 80 experience |
| SqlRewards.ComputeRewards | backend/routes/games.js:73-91 | the step-wise bonuses equal RewardFor: +50/+25 when perfect, else +25/+10 at ≥ 80%, plus +30/+15 for ≥ 20 correct in '60-second' mode |
| SqlRewards.RewardMonotone | backend/routes/games.js:79-91 | with the rest fixed, more correct answers never lower experience or coins |
| SqlRewards.SqlLevelAtLeastCurveLevel | backend/routes/games.js:108 | the linear level is never below the square-root level for the same experience |
| SqlRewards.LevelCurvesDiffer | backend/routes/games.js:108 | at 4000 experience the two curves give 5 and 3 |
| SqlRewards.StatsUpdated | backend/routes/games.js:94-103 | one more game; answers, experience and coins added; level unchanged; last played now; nothing else changes |
| SqlRewards.LevelUpdated | backend/routes/games.js:107-115 | the level is at least the linear level and the old level; it changes iff the linear level exceeds it |
| SqlRewards.StreakIncremented | backend/routes/games.js:118-121 | the current streak grows by one; best becomes max(best, current + 1) |
| SqlRewards.StatsFitKeepsColumns | backend/scripts/init-database.js:15-20 | when the stats update fits int4, every column it writes and the linear level written next fit too, so the level update never fails on its own |
| SqlRewards.UserAfterSqlCompletion | backend/routes/games.js:93-121 | coins and experience grow by exactly the reward (no level bonus); level ≥ linear level; streak + 1 ≤ best; identity unchanged |
| SqlRewards.LevelBonusNotStored | backend/routes/games.js:94-146 | the reply matches the stored row on level, experience and games, but on a level-up reports 10·newLevel more coins than were stored; leveledUp iff the stored level rose |
| SqlStore.Database.InsertSession | backend/routes/games.js:17-21 | a category, score, count or time outside int4 is refused before the sequence advances; otherwise the sequence advances and the row is stored iff its user and category exist |
| SqlStore.Database.InsertAnswers | backend/routes/games.js:66-71 | succeeds iff every answer names an existing question and its values fit int4; then the answer rows are appended in order |
| SqlStore.Database.UpdateUserRow | backend/routes/games.js:94-103 | one existing users row is rewritten with its id, username and email kept, so the UNIQUE and foreign-key invariants still hold; nothing else changes |
| GamesRoute.Start | backend/routes/games.js:8-35 | 400 for a mode outside {60-second, classic, story}; otherwise an active session with category `category_id \|\| null`, or 500 when the insert fails (a category outside int4 without drawing an id) |
| GamesRoute.RecordSession | backend/routes/games.js:55-71 | the session and its answers are inserted iff their values fit int4 and the user and every question exist, otherwise both are rolled back; the sequence advances iff the session insert was bound |
| GamesRoute.ValidatedScoreRefused | backend/middleware/validation.js:33-37 | a body the validator accepts, with a score of 2^31, is refused by the database for every user and question table |
| GamesRoute.Complete | backend/routes/games.js:38-157 | any failure (a foreign key, a value outside int4, or a stats or streak sum leaving int4) rolls back every write and answers 500; otherwise session, answers and user row are written as UserAfterSqlCompletion and the reply is ReplyFor the row the stats update returned |
| GamesRoute.History | backend/routes/games.js:160-193 | the page of completed sessions at the offset, with rounded accuracy; hasMore iff the page holds limit rows; a negative limit or offset answers 500 |
| GamesRoute.HasMoreOverApproximates | backend/routes/games.js:187 | a full last page still reports hasMore |
| GameController.StartGame | backend/controllers/gameController.js:6-27 | 400 for an unknown mode; otherwise an active session with the category exactly as given, or 500 (a category outside int4 without drawing an id) |
| GameController.CompleteGame | backend/controllers/gameController.js:30-120 | a session that cannot be recorded answers 500 with nothing stored; once recorded it stays, and a stats update leaving int4 answers 500 with the user untouched, a streak overflow 500 with the stats and level already written; when every step fits, the same stored rows and reply as the route's completion |
| GameController.ApplyRewards | backend/controllers/gameController.js:54-113 | updateStats, a conditional updateLevel and updateStreak leave the row as UserAfterSqlCompletion and the reply is ReplyFor the updated stats; a throwing update ends with 500 and keeps the updates before it |
| GameController.GetGameHistory | backend/controllers/gameController.js:123-155 | hasMore iff the number of formatted games equals the limit |
| GameController.HistoryAgreesWithRoute | backend/controllers/gameController.js:123-155 | the controller's history equals the route's for every input |
| UserModel.User.FromRow | backend/models/User.js:5-19 | the new object's fields are the row's columns |
| UserModel.User.FindById | backend/models/User.js:22-34 | null iff no row has the id; otherwise a fresh object mirroring the row |
| UserModel.User.FindByEmail | backend/models/User.js:37-49 | looks the lowercased address up; null iff no row has it |
| UserModel.User.ExistsByEmailOrUsername | backend/models/User.js:52-64 | true iff some row has the lowercased email or the username, compared without case |
| UserModel.MixedCaseUsernameMissed | backend/models/User.js:52-57 | as written, a stored "Alice" is not found when "Alice" is checked again, while a stored "alice" is found by "Alice" |
| UserModel.User.Create | backend/models/User.js:67-86 | the sequence advances; a duplicate username or email fails and stores nothing; otherwise the row with the lowercased email and the defaults is stored; the UNIQUE username and email constraints keep holding |
| UserModel.CreatedUserIsTaken | backend/models/User.js:52-86 | after a successful create, the existence check finds the username with any email |
| UserModel.User.UpdateStats | backend/models/User.js:116-142 | row and object get StatsUpdated; level untouched; with no row, or when a parameter or sum leaves int4, nothing changes |
| UserModel.User.UpdateLevel | backend/models/User.js:145-153 | succeeds iff the level fits int4; then only the level changes, in the row and in the object, and otherwise nothing |
| UserModel.User.UpdateStreak | backend/models/User.js:156-168 | succeeds iff the row's streak + 1 fits int4; then the row and the object: streak + 1, best = max(best, new streak) ≥ streak, and otherwise nothing changes |
| UserModel.User.ToPublic | backend/models/User.js:215-230 | for an object mirroring a row, the row's profile fields without the hash |
| QuestionModel.ValidateAnswer | backend/models/Question.js:95-106 | correct iff the parsed answer equals the stored one; 10/15/20 points by difficulty (10 otherwise) when correct, else 0 |
| QuestionModel.ToClient | backend/models/Question.js:109-120 | options a, b, c, d in order |
| QuestionModel.ToClientHidesAnswer | backend/models/Question.js:109-120 | the client view does not depend on the correct answer or the explanation |
| QuestionModel.FindById | backend/models/Question.js:78-92 | the row with the id, or null iff there is none |
| QuestionModel.ExcludePlaceholders | backend/models/Question.js:56 | placeholder j of the exclude list is params.length + 1 + j |
| QuestionModel.ExcludeListRefused | backend/models/Question.js:55-59 | as written, two or more excluded ids leave the parameter after the first id unreferenced, so the statement is refused, whatever the other filters and the count |
| QuestionModel.SingleExcludeTyped | backend/models/Question.js:55-59 | as written, a single excluded id is referenced where it is pushed |
| QuestionModel.GetRandomQuestionsAsWritten | backend/models/Question.js:22-75 | as written, the call fails for a negative count and for two or more excluded ids; otherwise at most min(count, 50) rows |
| QuestionModel.ExcludeHolds | backend/models/Question.js:55-59 | the corrected exclude condition holds iff the id is not excluded |
| QuestionModel.BuildQuery | backend/models/Question.js:39-66 | the WHERE clause selects exactly the rows of the known difficulty, category and not excluded; every placeholder is bound and every parameter is referenced; no conditions iff no filter; the LIMIT min(count, 50) is the last parameter |
| QuestionModel.WantedRows | backend/models/Question.js:43-59 | exactly the wanted rows, in table order |
| QuestionModel.MatchingIsWanted | backend/models/Question.js:61-68 | a query that selects exactly the wanted rows returns the wanted rows |
| QuestionModel.Run | backend/models/Question.js:65-68 | the query runs iff every parameter is referenced and its LIMIT parameter is a non-negative integer; then at most LIMIT rows, each a table row its WHERE clause lets through |
| QuestionModel.GetRandomQuestions | backend/models/Question.js:22-75 | fails iff count < 0; otherwise at most min(count, 50) wanted rows, a prefix of the wanted rows in shuffled order |
| QuestionsRoute.ClientList | backend/routes/questions.js:54-64 | one client view per row, in order |
| QuestionsRoute.ClientListHidesAnswers | backend/routes/questions.js:54-64 | the reply does not depend on any correct answer or explanation |
| QuestionsRoute.Random | backend/routes/questions.js:7-76 | 500 iff count < 0; otherwise the client views of the query's rows, their count and the filters |
| QuestionsRoute.RandomAsWritten | backend/routes/questions.js:38-43 | as written, a negative count or two or more excluded ids give 500 "Failed to fetch questions"; otherwise at most min(count, 50) questions and the filters |
| QuestionsRoute.Validate | backend/routes/questions.js:114-149 | 400 iff the question id is falsy or the answer is undefined; 404 iff no question has the id; otherwise the result of validating against that question |
| Validation.CheckField | backend/middleware/validation.js:10-13 | passes iff the key is present and its rule holds |
| Validation.AndThen | backend/middleware/validation.js:10-13 | the first failing check decides the 400 |
| Validation.OnlyKeys | backend/middleware/validation.js:4-8 | passes iff the body has no key outside the schema |
| Validation.ValidateRegistration | backend/middleware/validation.js:3-15 | next iff only the three keys, an alphanumeric 3..30 username, an email and a password of length ≥ 6 |
| Validation.ValidateLogin | backend/middleware/validation.js:17-28 | next iff only email and password, with an email and a non-empty password |
| Validation.ValidateGameComplete | backend/middleware/validation.js:30-51 | next iff only the six keys, each present and within its type and bounds |
| Validation.AnswerOf | backend/middleware/validation.js:37-43 | a validated item has answer index 0..3 and time ≥ 0 |
| Validation.RequestOf | backend/middleware/validation.js:30-51 | a validated body gives an accepted mode, non-negative score, correct answers and time, total_questions ≥ 1, and answer indexes in 0..3 |
| Validation.MoreCorrectThanTotalAccepted | backend/middleware/validation.js:33-35 | five correct answers out of one question pass validation |
| UserService.ProfileHidesPassword | backend/services/userService.js:15 | the profile does not depend on the password |
| UserService.Patched | backend/services/userService.js:13 | given fields replace the old ones, absent ones stay, the id is kept |
| UserService.PatchIdempotent | backend/services/userService.js:13 | applying the same patch twice equals applying it once |
| UserService.UpdateProfile | backend/services/userService.js:4-17 | 404 and no change for a missing user; otherwise the user is patched and the profile without password returned; games, slots, questions, categories and the store's invariants are kept |
| UserService.GamesSince | backend/services/userService.js:35-48 | exactly the user's completed games since the date |
| UserService.OverallAccuracy | backend/services/userService.js:57-58 | 0 with no games; round(100·correct / (10·games)); 0..100 when correct ≤ 10·games |
| UserService.AccuracyAssumesTenPerGame | backend/services/userService.js:57-58 | a 50-question game with all answers right gives accuracy 500 |
| UserService.AccuracyAboveHundred | backend/services/userService.js:57-58 | whenever the answers right average eleven or more per game, the reported accuracy is at least 110; fifty per game gives exactly 500 |
| UserService.GetUserStats | backend/services/userService.js:19-60 | (intended version; see Findings) 404 iff the user is missing; otherwise the weekly count, score and answers and the overall accuracy |
| UserService.GetUserStatsAsWritten | backend/services/userService.js:43-47 | as written the call always fails: 404 for a missing user, 500 otherwise |
| UserService.StatsFailForEveryUser | backend/services/userService.js:44 | for an existing user the written version fails while the intended one succeeds |
| UserService.EngineAchievementsCatalogued | backend/services/userService.js:68-111 | every key the game engine unlocks is in the catalogue |
| UserService.FirstUnlock | backend/services/userService.js:118 | the first of the user's rows with the key, none iff there is none |
| UserService.GetUserAchievements | backend/services/userService.js:62-120 | the six catalogue entries in order; unlocked iff the user holds the key; unlockedAt is the time of the user's first row with that key in the query's order, present iff unlocked |
| UserService.GamesOn | backend/services/userService.js:128-137 | exactly the user's games completed that day |
| UserService.CountPerfect | backend/services/userService.js:140-142 | at most the number of games; 0 iff no game has total > 0 and correct = total |
| UserService.Categories | backend/services/userService.js:144-146 | exactly the truthy category ids of the games |
| UserService.CategoriesAtMostGames | backend/services/userService.js:144-146 | there are never more distinct categories than games |
| UserService.GetDailyChallenges | backend/services/userService.js:122-183 | three challenges in order: progress min(correct, 20) completed iff ≥ 20; perfect games completed iff ≥ 1; categories completed iff ≥ 3 |
| LeaderboardService.AllTimeLeaderboard | backend/services/leaderboardService.js:49-76 | min(limit, n) entries with rank i+1, in the query's order, scores non-increasing |
| LeaderboardService.AllTimeRank | backend/services/leaderboardService.js:163-178 | null iff the user is missing; otherwise rank = 1 + users with strictly more experience, between 1 and the user count |
| LeaderboardService.RankMonotone | backend/services/leaderboardService.js:169-177 | more experience never gives a worse rank, and equal experience gives the same rank |
| LeaderboardService.RankAtMostPosition | backend/services/leaderboardService.js:169-178 | a user's rank is at most their position + 1 in the experience-sorted list |
| LeaderboardService.PlayerHasGames | backend/services/leaderboardService.js:18-30 | a user kept by the inner join has at least one completed game that week |
| LeaderboardService.OrderSize | backend/services/leaderboardService.js:8-35 | the grouped rows list each user with a completed game that week exactly once |
| LeaderboardService.WeeklyLeaderboard | backend/services/leaderboardService.js:4-46 | (intended version; see Findings) min(limit, players of the week) entries, rank i+1 in query order, each a distinct player with score = sum and gamesPlayed = count (≥ 1) of their games completed that week, and their profile fields; scores non-increasing |
| LeaderboardService.WeeklyLeaderboardTop | backend/services/leaderboardService.js:33-34 | a player of the week left off the list outscores nobody on it, and the list then has exactly `limit` entries |
| LeaderboardService.WeeklyLeaderboardAsWritten | backend/services/leaderboardService.js:15 | as written the call always fails with 500 |
| LeaderboardService.WeeklyLeaderboardNeverServed | backend/services/leaderboardService.js:4-35 | the intended list has min(limit, players) entries while the written call fails |
| LeaderboardService.WeeklyRank | backend/services/leaderboardService.js:117-161 | (intended version; see Findings) null iff the user is missing; rank = 1 + players with a strictly higher weekly score; rank ≤ players for a player of the week |
| LeaderboardService.GetUserRank | backend/services/leaderboardService.js:78-185 | (intended version; see Findings) null iff the user is missing; the weekly rank (WeeklyRank) for 'weekly' and the all-time rank for any other period |
| LeaderboardService.GetUserRankAsWritten | backend/services/leaderboardService.js:94 | as written, 'weekly' always fails and other periods give the all-time rank |
| LeaderboardService.WeeklyRankAtMostPosition | backend/services/leaderboardService.js:117-142 | when every player is a user, the weekly rank of the player at position i of the weekly list is at most i + 1 |
| LeaderboardService.WeeklyRankNeverServed | backend/services/leaderboardService.js:86-111 | for an existing user the written weekly rank fails while the intended one exists |
| SampleQuestions.SamplesWellFormed | data/questions.ts:3-169 | fifteen questions with ids 1..15, each with four options and an answer index in 0..3 |
| SampleQuestions.SamplesDistinct | data/questions.ts:3-169 | the fifteen questions are pairwise distinct |
| SampleQuestions.ByCategory | data/questions.ts:172 | exactly the questions whose category matches ignoring case |
| SampleQuestions.ByCategoryAppend | data/questions.ts:171-173 | filtering distributes over concatenation |
| SampleQuestions.ByDifficulty | data/questions.ts:176 | exactly the questions of that difficulty |
| SampleQuestions.ByDifficultyAppend | data/questions.ts:175-177 | filtering distributes over concatenation |
| SampleQuestions.GetQuestionsByCategory | data/questions.ts:171-173 | the sample questions of the category, ignoring case |
| SampleQuestions.GetQuestionsByDifficulty | data/questions.ts:175-177 | the sample questions of the difficulty |
| SampleQuestions.Slice | data/questions.ts:181 | `slice(0, count)`: a prefix of length min(count, n), or n + count for a negative count |
| SampleQuestions.RandomPrefix | data/questions.ts:179-182 | a prefix of the shuffled copy, of length min(count, n), without repeats, drawn from the pool |
| SampleQuestions.GetRandomQuestions | data/questions.ts:179-182 | for count ≥ 0 exactly min(count, 15) distinct sample questions, always a prefix of the shuffled copy |
| Common.PageRows | backend/routes/games.js:171 | LIMIT/OFFSET: the rows from the offset on, at most limit of them |
| Common.RoundPercent | backend/routes/games.js:132 | Math.round of 100·c/t, half up: 2t·r − t ≤ 200c < 2t·r + t |
| Common.PercentRange | backend/routes/games.js:132 | between 0 and 100 for 0 ≤ c ≤ t; 100 when c = t; 0 when c = 0 |
| Common.Accuracy | backend/routes/games.js:180 | 0 with no questions; 100 when all are right; within 0..100 |
| Common.Lower | backend/models/User.js:41 | lowercases character by character, keeping the length |
| Common.LowerIdempotent | backend/models/User.js:79 | lowercasing twice is lowercasing once |
| OrmModels.QuestionById | backend/services/gameService.js:111-120 | the question with the id, or none when no row has it |
| OrmModels.Store.CreateGame | backend/models/Game.js:10-29 | a mode outside the ENUM is refused with 500 before a sequence value is drawn; a missing user or unknown category violates a foreign key (500) after the id is drawn; in both cases no game is stored; otherwise a new in-progress game under the next id; users, questions, categories, slots and achievements never change |
| OrmModels.Store.UpdateGame | backend/services/gameService.js:221-229 | the game under the id is replaced, keeping its id, user and category, so the foreign keys still hold; nothing else changes |
| OrmModels.Store.UpdateUser | backend/services/gameService.js:252-261 | the user under the id is replaced; nothing else changes |
| OrmModels.Store.SetSlots | backend/services/gameService.js:48 | the game's slots are replaced; nothing else changes |
| AuthReducer.Merge | app/contexts/AuthContext.js:61 | payload keys win; other keys are the old user's (none when there was no user) |
| AuthReducer.Reduce | app/contexts/AuthContext.js:26-66 | one clause per action: SET_LOADING, LOGIN_SUCCESS, LOGOUT (initial state, not loading), SET_ERROR, CLEAR_ERROR, UPDATE_USER (merged user), anything else unchanged |
| AuthReducer.ReducePreservesConsistency | app/contexts/AuthContext.js:26-66 | an authenticated state always has a user and a token, and every action keeps that |
| AuthReducer.ReachableConsistent | app/contexts/AuthContext.js:7-66 | every state reached from a consistent one is consistent |
| AuthReducer.LogoutEndsSession | app/contexts/AuthContext.js:42-46 | after LOGOUT nobody is authenticated and there is no token or user; LOGOUT twice is LOGOUT once |
| AuthReducer.UpdateUserKeepsSession | app/contexts/AuthContext.js:58-62 | UPDATE_USER keeps the token, the authentication flag and the loading flag |

## Left out

- Database and ORM input/output, HTTP plumbing, connection handling, bcrypt and JWT are not modelled. Each query becomes a function of the store or of the query's result rows.
- Floating point is not modelled: multipliers, accuracy comparisons and rounding are exact integer arithmetic.
- `ORDER BY RANDOM()` and `Math.random` are not modelled; the shuffle is a parameter that is a permutation of the table.
- Clocks, time zones and calendar days are not modelled: times are integer milliseconds and the start of the day is an input.
- Concurrency between requests is not modelled.
- Case mapping is ASCII only (`Lower`); full Unicode case mapping is left out.
- `Joi.string().email()` is reduced to one '@' with text before it and a dot after it; the TLD list, Joi's type conversion and the texts of Joi's error messages are left out.
- `parseInt` returning NaN and the comma-splitting of `exclude_ids` are not modelled: parsed values are inputs.
- A difficulty string that names an Object prototype key (so that `pointsMap[...]` finds an inherited value) is not modelled.
- The SQL text itself is not rendered: conditions and placeholders are kept structural.
- The `/categories` route, `getGameQuestions`, `verifyPassword`, `updateLastLogin`, `getProfile`, `updateUsername` and `GameSession.getUserStats` are not part of this model.
- The async provider functions of the authentication context (login, register, logout, storage) are not part of this model, and a null user in the LOGIN_SUCCESS payload is not modelled.
- The prose of the sample questions (question text, hints, explanations) is not carried; only the fields the filters read are.
- GameController.CompleteGame: the user updates after the committed session fail only by leaving int4 in the model; other faults mid-way (a lost connection) are not modelled.
- The SERIAL sequences are taken never to run out (at 2^31 − 1), and the user id taken from the token is taken to fit int4.
- GameService.CompleteGame: the Sequelize engine's running totals (experience, coins, games, answers, streaks) are not bounded to int4; they grow by a bounded amount per game. Only the client-supplied `timeToAnswer` is checked against the INTEGER range (GameService.SubmitAnswer).
- UserModel.User.Create: the returned object mirrors the whole stored row, although `RETURNING` lists only eight of the columns, so the others are undefined on the real object.
- UserModel.User.ExistsByEmailOrUsername: compares usernames without case, the evidently intended behaviour (see Findings), not the written comparison.
- UserService.UpdateProfile: a patch naming `id`, and Sequelize's own field validations, are not modelled.
- UserService.GetUserAchievements: the user's rows are an input already in the query's `unlockedAt DESC` order.
- LeaderboardService.WeeklyRank: `totalUsers` is taken as the number of distinct players of the week.
- QuestionModel.GetRandomQuestions: models the intended numbering, one placeholder per excluded id. As written (QuestionModel.GetRandomQuestionsAsWritten) two or more excluded ids make the statement fail.
- QuestionsRoute.Random: models the intended numbering. As written (QuestionsRoute.RandomAsWritten) two or more excluded ids answer 500.
- GameService.StartGame: models the intended random selection. As written a start without a truthy category throws after the game row is created (GameService.SelectQuestionsAsWritten).
- OrmModels.Store.CreateGame: a mode outside the ENUM is taken to be refused while the value is bound, before the id sequence advances; a foreign-key violation is taken to use up one id.
- GameService.CompleteGame: reports the intended `leveledUp` (the level before the update). As written it is always false (GameService.LeveledUpAsWritten).
- LeaderboardService.WeeklyLeaderboard: the order of players with equal weekly scores is an input, as the query leaves it open.
- The ORM models' registry (backend/models/index.js) loads the raw-SQL `User` and `Question` classes and calls `hasMany` on them, which they do not have, so as written loading it throws before any ORM service runs. The ORM services are modelled over the intended Sequelize models of `OrmModels`.
- GameService.GetGameHistory: requires page ≥ 1 and limit ≥ 1; a limit of 0 (which gives an infinite page count in the source) is excluded.

## Findings

| source | as written | input that shows it | evidently intended | confidence | as-written member | corrected member |
|---|---|---|---|---|---|---|
| backend/services/gameService.js:286 | `leveledUp: newLevel > user.level` reads `user.level` after `user.update` has already set it to `newLevel` | a user at 950 experience earning 100: the level becomes 2, `leveledUp` is false | compare with the level before the update | high (not executed) | GameService.LeveledUpAsWrittenWitness | GameService.LeveledUpAtThreshold |
| backend/services/gameService.js:32 | `sequelize.random()` uses a name the file never imports | `startGame(u, 'classic', null)`: ReferenceError after the game row is created | shuffle the active questions | high (not executed) | GameService.RandomSelectionWitness | GameService.SelectQuestions |
| backend/models/Question.js:56 | every exclude placeholder is `$${params.length + 1}`, evaluated before the ids are pushed (the same at backend/routes/questions.js:41) | `excludeIds = [1, 2]` with no other filter: `id NOT IN ($1, $1)` leaves `$2` unreferenced; PostgreSQL cannot determine its type and refuses the statement, so the route answers 500 | one placeholder per id | medium (not executed) | QuestionModel.ExcludeListRefused | QuestionModel.BuildQuery |
| backend/models/User.js:56 | the given username is lowercased but the stored one is not | "Alice" registered, then "Alice" again: not found by the check | compare usernames without case | medium (not executed) | UserModel.MixedCaseUsernameMissed | UserModel.CreatedUserIsTaken |
| backend/services/userService.js:44 | `sequelize.fn` uses a name the file never imports | `getUserStats(id)` for any existing user: ReferenceError, 500 | count, score and answers of the week | high (not executed) | UserService.StatsFailForEveryUser | UserService.GetUserStats |
| backend/services/leaderboardService.js:15 | `sequelize.fn` uses a name the file never imports | `getWeeklyLeaderboard()`: ReferenceError, 500 | the ranked weekly list | high (not executed) | LeaderboardService.WeeklyLeaderboardNeverServed | LeaderboardService.WeeklyLeaderboard |
| backend/services/leaderboardService.js:94 | `sequelize.fn` uses a name the file never imports | `getUserRank(id, 'weekly')` for an existing user: ReferenceError, 500 | 1 + players with a higher weekly score | high (not executed) | LeaderboardService.WeeklyRankNeverServed | LeaderboardService.GetUserRank |
