/** The reward rule of the SQL pipeline, shared by the `/complete` route and
    the game controller: ten experience points per correct answer, one coin
    per hundred points, accuracy and speed bonuses, the linear level curve
    `floor(xp / 1000) + 1`, and an unconditional streak increment. */
module SqlRewards {
  import opened Common
  import opened GameLogic
  import opened SqlStore

  /** The game modes the SQL pipeline accepts. */
  predicate SqlMode(gameMode: string)
  {
    gameMode == "60-second" || gameMode == "classic" || gameMode == "story"
  }

  /** A completed game as the client reports it (already validated). */
  datatype CompleteRequest = CompleteRequest(
    gameMode: string,
    score: int,
    correctAnswers: int,
    totalQuestions: int,
    timeTaken: int,
    questionsAnswered: seq<AnswerInput>)

  datatype Reward = Reward(xp: int, coins: int)

  /** `accuracy === 100`, with accuracy = (correct / total) · 100 and 0 for no questions. */
  predicate Perfect(correctAnswers: int, totalQuestions: int)
  {
    totalQuestions > 0 && 100 * correctAnswers == 100 * totalQuestions
  }

  /** `accuracy >= 80`. */
  predicate HighAccuracy(correctAnswers: int, totalQuestions: int)
  {
    totalQuestions > 0 && 100 * correctAnswers >= 80 * totalQuestions
  }

  /** The speed bonus condition: 60-second mode with at least 20 correct answers. */
  predicate SpeedRun(gameMode: string, correctAnswers: int)
  {
    gameMode == "60-second" && correctAnswers >= 20
  }

  /** The accuracy bonus: +50 experience and +25 coins for a perfect game,
      otherwise +25 and +10 for at least 80%, otherwise nothing. */
  function AccuracyBonus(correctAnswers: int, totalQuestions: int): Reward
  {
    if Perfect(correctAnswers, totalQuestions) then Reward(50, 25)
    else if HighAccuracy(correctAnswers, totalQuestions) then Reward(25, 10)
    else Reward(0, 0)
  }

  function SpeedBonus(gameMode: string, correctAnswers: int): Reward
  {
    if SpeedRun(gameMode, correctAnswers) then Reward(30, 15) else Reward(0, 0)
  }

  /** The rewards of one completed game, as a sum of its parts. */
  function RewardFor(gameMode: string, score: int, correctAnswers: int, totalQuestions: int): (r: Reward)
    ensures 10 * correctAnswers <= r.xp <= 10 * correctAnswers + 80
    ensures score / 100 <= r.coins <= score / 100 + 40
    ensures r.xp - 10 * correctAnswers in {0, 25, 50, 30, 55, 80}
  {
    var a := AccuracyBonus(correctAnswers, totalQuestions);
    var s := SpeedBonus(gameMode, correctAnswers);
    Reward(10 * correctAnswers + a.xp + s.xp, score / 100 + a.coins + s.coins)
  }

  /** The step-wise computation of `/complete` and of the controller:
      start from the base rewards and add each bonus that applies. */
  method ComputeRewards(gameMode: string, score: int, correctAnswers: int, totalQuestions: int)
    returns (xpGained: int, coinsGained: int)
    ensures Reward(xpGained, coinsGained) == RewardFor(gameMode, score, correctAnswers, totalQuestions)
  {
    xpGained := correctAnswers * 10;
    coinsGained := score / 100;
    if totalQuestions > 0 && 100 * correctAnswers == 100 * totalQuestions {
      xpGained := xpGained + 50;
      coinsGained := coinsGained + 25;
    } else if totalQuestions > 0 && 100 * correctAnswers >= 80 * totalQuestions {
      xpGained := xpGained + 25;
      coinsGained := coinsGained + 10;
    }
    if gameMode == "60-second" && correctAnswers >= 20 {
      xpGained := xpGained + 30;
      coinsGained := coinsGained + 15;
    }
  }

  /** With the game's length, mode and score fixed, one more correct answer
      never lowers either reward: the accuracy bonus only grows with the
      number of correct answers, and so does the speed bonus. */
  lemma RewardMonotone(gameMode: string, score: int, c1: int, c2: int, totalQuestions: int)
    requires 0 <= c1 <= c2 <= totalQuestions
    ensures RewardFor(gameMode, score, c1, totalQuestions).xp <= RewardFor(gameMode, score, c2, totalQuestions).xp
    ensures RewardFor(gameMode, score, c1, totalQuestions).coins <= RewardFor(gameMode, score, c2, totalQuestions).coins
  {
    if Perfect(c1, totalQuestions) {
      assert c1 == totalQuestions == c2;
    }
    if HighAccuracy(c1, totalQuestions) {
      assert HighAccuracy(c2, totalQuestions);
    }
  }

  /** The level of the SQL pipeline: `floor(xp / 1000) + 1`. */
  function SqlLevel(xp: int): int
  {
    xp / 1000 + 1
  }

  /** The linear SQL level is never below the square-root level of the game
      engine for the same experience, so a player's level depends on which
      pipeline recorded the game. */
  lemma SqlLevelAtLeastCurveLevel(xp: nat)
    ensures SqlLevel(xp) >= CalculateLevel(xp)
  {
    var l := CalculateLevel(xp);
    var k := l - 1;
    assert 1000 * (k * k) <= xp;
    if k >= 1 {
      assert k <= k * k;
    }
    assert 1000 * k <= xp;
  }

  /** At 4000 experience the two curves give levels 5 and 3. */
  lemma LevelCurvesDiffer()
    ensures SqlLevel(4000) == 5 && CalculateLevel(4000) == 3
  {
    LevelUnique(4000, 3);
  }

  /** The row `RETURNING` gives after the stats `UPDATE`: one more game, the
      correct answers, experience and coins added, level untouched. */
  function StatsUpdated(u: UserRow, correctAnswers: int, reward: Reward, now: int): (s: UserRow)
    ensures s.totalGames == u.totalGames + 1 && s.correctAnswers == u.correctAnswers + correctAnswers
    ensures s.xp == u.xp + reward.xp && s.coins == u.coins + reward.coins
    ensures s.level == u.level && s.lastPlayed == Some(now)
    ensures s.(totalGames := u.totalGames, correctAnswers := u.correctAnswers, xp := u.xp,
               coins := u.coins, lastPlayed := u.lastPlayed) == u
  {
    u.(totalGames := u.totalGames + 1, correctAnswers := u.correctAnswers + correctAnswers,
       xp := u.xp + reward.xp, coins := u.coins + reward.coins, lastPlayed := Some(now))
  }

  /** Whether the stats update crossed into a higher linear level than the stored one. */
  predicate LevelsUp(s: UserRow)
  {
    SqlLevel(s.xp) > s.level
  }

  /** The stored level after the conditional level `UPDATE`. */
  function LevelUpdated(s: UserRow): (l: UserRow)
    ensures l.level >= SqlLevel(l.xp) && l.level >= s.level
    ensures l.level == s.level <==> !LevelsUp(s)
    ensures l.(level := s.level) == s
  {
    if LevelsUp(s) then s.(level := SqlLevel(s.xp)) else s
  }

  /** The streak `UPDATE`: the current streak grows by one whatever the dates,
      and the best streak becomes GREATEST(best, current + 1). */
  function StreakIncremented(u: UserRow): (v: UserRow)
    ensures v.currentStreak == u.currentStreak + 1
    ensures v.bestStreak >= v.currentStreak && v.bestStreak >= u.bestStreak
    ensures v.bestStreak == u.bestStreak || v.bestStreak == v.currentStreak
    ensures v.(currentStreak := u.currentStreak, bestStreak := u.bestStreak) == u
  {
    u.(currentStreak := u.currentStreak + 1, bestStreak := Max(u.bestStreak, u.currentStreak + 1))
  }

  /** The stats `UPDATE` goes through: its parameters (the correct answers
      and the experience and coins gained) bind as int4, and the four sums it
      writes stay within int4; otherwise PostgreSQL raises "integer out of
      range". */
  predicate StatsFit(u: UserRow, correctAnswers: int, reward: Reward)
  {
    && Int4(correctAnswers) && Int4(reward.xp) && Int4(reward.coins)
    && Int4(u.totalGames + 1) && Int4(u.correctAnswers + correctAnswers)
    && Int4(u.xp + reward.xp) && Int4(u.coins + reward.coins)
  }

  /** The streak `UPDATE` goes through: `current_streak + 1` stays within int4. */
  predicate StreakFits(u: UserRow)
  {
    Int4(u.currentStreak + 1)
  }

  /** When the stats `UPDATE` goes through, every column it writes holds an
      int4 value, and so does the level the conditional level `UPDATE`
      writes: that statement never fails on its own. */
  lemma StatsFitKeepsColumns(u: UserRow, correctAnswers: int, reward: Reward, now: int)
    requires StatsFit(u, correctAnswers, reward)
    ensures var s := StatsUpdated(u, correctAnswers, reward, now);
      && Int4(s.totalGames) && Int4(s.correctAnswers) && Int4(s.xp) && Int4(s.coins)
      && Int4(SqlLevel(s.xp))
  {
  }

  /** The users row after a completed game: the three updates in order. The
      level-up bonus coins are not part of it. */
  function UserAfterSqlCompletion(u: UserRow, req: CompleteRequest, now: int): (v: UserRow)
    ensures var reward := RewardFor(req.gameMode, req.score, req.correctAnswers, req.totalQuestions);
      && v.coins == u.coins + reward.coins
      && v.xp == u.xp + reward.xp
      && v.level >= SqlLevel(v.xp) && v.level >= u.level
      && v.bestStreak >= v.currentStreak == u.currentStreak + 1
      && v.id == u.id && v.username == u.username && v.email == u.email && v.passwordHash == u.passwordHash
  {
    var reward := RewardFor(req.gameMode, req.score, req.correctAnswers, req.totalQuestions);
    StreakIncremented(LevelUpdated(StatsUpdated(u, req.correctAnswers, reward, now)))
  }

  datatype Results = Results(score: int, correctAnswers: int, totalQuestions: int, accuracy: int, timeSpent: int)
  datatype RewardsReply = RewardsReply(xpGained: int, coinsGained: int, leveledUp: bool, newLevel: int)
  datatype UserStats = UserStats(totalGames: int, totalCorrectAnswers: int, level: int, xp: int, coins: int)
  datatype CompleteReply = CompleteReply(gameSessionId: int, results: Results, rewards: RewardsReply, userStats: UserStats)

  /** The response of a successful completion, from the row the stats
      update returned: when the level rises, the level-up bonus of ten coins
      per new level is added to both reported coin figures. */
  function ReplyFor(sessionId: int, req: CompleteRequest, reward: Reward, s: UserRow): CompleteReply
  {
    var up := LevelsUp(s);
    var bonus := if up then SqlLevel(s.xp) * 10 else 0;
    var level := if up then SqlLevel(s.xp) else s.level;
    CompleteReply(
      sessionId,
      Results(req.score, req.correctAnswers, req.totalQuestions, Accuracy(req.correctAnswers, req.totalQuestions), req.timeTaken),
      RewardsReply(reward.xp, reward.coins + bonus, up, level),
      UserStats(s.totalGames, s.correctAnswers, level, s.xp, s.coins + bonus))
  }

  /** The reply agrees with the stored row on games, answers, experience and
      level, but on a level-up reports ten coins per new level more than were
      stored: the bonus is never written. */
  lemma LevelBonusNotStored(sessionId: int, u: UserRow, req: CompleteRequest, now: int)
    ensures var reward := RewardFor(req.gameMode, req.score, req.correctAnswers, req.totalQuestions);
      var stored := UserAfterSqlCompletion(u, req, now);
      var reply := ReplyFor(sessionId, req, reward, StatsUpdated(u, req.correctAnswers, reward, now));
      && reply.userStats.level == stored.level && reply.userStats.xp == stored.xp
      && reply.userStats.totalGames == stored.totalGames
      && (reply.rewards.leveledUp ==> reply.userStats.coins == stored.coins + 10 * reply.rewards.newLevel)
      && (!reply.rewards.leveledUp ==> reply.userStats.coins == stored.coins)
      && (reply.rewards.leveledUp <==> stored.level > u.level)
  {
  }
}
