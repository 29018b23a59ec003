/** The controller variant of the SQL pipeline. It starts sessions through
    `GameSession.create`, records completions through `GameSession.complete`
    (a transaction of its own) and then updates the user through the `User`
    object's methods, each a separate statement outside that transaction. */
module GameController {
  import opened Common
  import opened SqlStore
  import opened SqlRewards
  import opened UserModel
  import GamesRoute

  /** startGame: an unknown mode is refused with 400; otherwise an active
      session is inserted with `category_id` exactly as given (0 is kept,
      unlike the route's `category_id || null`). A failing insert answers
      500; a category id outside int4 fails before the session id is drawn. */
  method StartGame(db: Database, userId: int, gameMode: string, categoryId: Option<int>, now: int)
    returns (r: Result<GamesRoute.StartReply>)
    requires db.Valid()
    modifies db
    ensures db.Valid()
    ensures db.users == old(db.users) && db.answers == old(db.answers) && db.nextUserId == old(db.nextUserId)
    ensures db.questionIds == old(db.questionIds) && db.categoryIds == old(db.categoryIds)
    ensures !SqlMode(gameMode) ==>
      r == Err(Error(400, "Invalid game mode")) && db.sessions == old(db.sessions) && db.nextSessionId == old(db.nextSessionId)
    ensures SqlMode(gameMode) ==>
      var id := old(db.nextSessionId);
      if !Int4Opt(categoryId) then
        r == Err(Error(500, "Failed to start game")) && db.sessions == old(db.sessions) && db.nextSessionId == id
      else
      && db.nextSessionId == id + 1
      && if userId in old(db.users) && (categoryId.None? || categoryId.value in old(db.categoryIds)) then
           && r == Ok(GamesRoute.StartReply(id, now, gameMode))
           && db.sessions == old(db.sessions)[id := SessionRow(id, userId, gameMode, categoryId, 0, 0, 0, None, Active, now)]
         else
           r == Err(Error(500, "Failed to start game")) && db.sessions == old(db.sessions)
  {
    if !SqlMode(gameMode) {
      return Err(Error(400, "Invalid game mode"));
    }
    var ok, id := db.InsertSession(userId, gameMode, categoryId, 0, 0, 0, None, Active, now);
    if !ok {
      return Err(Error(500, "Failed to start game"));
    }
    r := Ok(GamesRoute.StartReply(id, now, gameMode));
  }

  /** completeGame. `GameSession.complete` inserts the session and its
      answers and rolls back on failure; then the rewards are computed, the
      user is loaded and updateStats, updateLevel (on a level-up) and
      updateStreak run one after the other, each a statement of its own.
      When every step goes through, the stored row and the reply are the
      route's. A step that leaves int4 throws and answers 500, but the
      session stays recorded and the earlier user updates stay applied. */
  method CompleteGame(db: Database, userId: int, req: CompleteRequest, now: int) returns (r: Result<CompleteReply>)
    requires db.Valid()
    modifies db
    ensures db.Valid()
    ensures db.nextSessionId == old(db.nextSessionId) + (if GamesRoute.CompletionBinds(req) then 1 else 0)
    ensures db.nextUserId == old(db.nextUserId)
    ensures db.questionIds == old(db.questionIds) && db.categoryIds == old(db.categoryIds)
    ensures !GamesRoute.SessionAccepted(old(db.users), old(db.questionIds), userId, req) ==>
      && r == Err(Error(500, "Failed to complete game"))
      && db.users == old(db.users) && db.sessions == old(db.sessions) && db.answers == old(db.answers)
    ensures GamesRoute.SessionAccepted(old(db.users), old(db.questionIds), userId, req) ==>
      var id := old(db.nextSessionId);
      var reward := RewardFor(req.gameMode, req.score, req.correctAnswers, req.totalQuestions);
      var u := old(db.users)[userId];
      && db.sessions == old(db.sessions)[id := GamesRoute.CompletedSession(id, userId, req, now)]
      && db.answers == old(db.answers) + AnswerRows(id, req.questionsAnswered)
      && (!StatsFit(u, req.correctAnswers, reward) ==>
            r == Err(Error(500, "Failed to complete game")) && db.users == old(db.users))
      && (StatsFit(u, req.correctAnswers, reward) && !StreakFits(u) ==>
            && r == Err(Error(500, "Failed to complete game"))
            && db.users == old(db.users)[userId := LevelUpdated(StatsUpdated(u, req.correctAnswers, reward, now))])
    ensures GamesRoute.CompletionAccepted(old(db.users), old(db.questionIds), userId, req) ==>
      var id := old(db.nextSessionId);
      var reward := RewardFor(req.gameMode, req.score, req.correctAnswers, req.totalQuestions);
      var u := old(db.users)[userId];
      && r == Ok(ReplyFor(id, req, reward, StatsUpdated(u, req.correctAnswers, reward, now)))
      && db.users == old(db.users)[userId := UserAfterSqlCompletion(u, req, now)]
  {
    // GameSession.complete
    var ok, sessionId := GamesRoute.RecordSession(db, userId, req, now);
    if !ok {
      return Err(Error(500, "Failed to complete game"));
    }
    r := ApplyRewards(db, userId, req, now, sessionId);
  }

  /** The part of completeGame after `GameSession.complete`: the rewards are
      computed and the user's three updates run in order; the reply is built
      from the row updateStats returned. A throwing update ends the call with
      500, keeping the updates before it. */
  method ApplyRewards(db: Database, userId: int, req: CompleteRequest, now: int, sessionId: int)
    returns (r: Result<CompleteReply>)
    requires db.Valid() && userId in db.users
    modifies db
    ensures db.Valid()
    ensures db.sessions == old(db.sessions) && db.answers == old(db.answers)
    ensures db.nextSessionId == old(db.nextSessionId) && db.nextUserId == old(db.nextUserId)
    ensures db.questionIds == old(db.questionIds) && db.categoryIds == old(db.categoryIds)
    ensures var reward := RewardFor(req.gameMode, req.score, req.correctAnswers, req.totalQuestions);
      var u := old(db.users)[userId];
      && (!StatsFit(u, req.correctAnswers, reward) ==>
            r == Err(Error(500, "Failed to complete game")) && db.users == old(db.users))
      && (StatsFit(u, req.correctAnswers, reward) && !StreakFits(u) ==>
            && r == Err(Error(500, "Failed to complete game"))
            && db.users == old(db.users)[userId := LevelUpdated(StatsUpdated(u, req.correctAnswers, reward, now))])
      && (StatsFit(u, req.correctAnswers, reward) && StreakFits(u) ==>
            && r == Ok(ReplyFor(sessionId, req, reward, StatsUpdated(u, req.correctAnswers, reward, now)))
            && db.users == old(db.users)[userId := UserAfterSqlCompletion(u, req, now)])
  {
    var xpGained, coinsGained := ComputeRewards(req.gameMode, req.score, req.correctAnswers, req.totalQuestions);
    ghost var reward := Reward(xpGained, coinsGained);
    ghost var u := db.users[userId];

    var user := User.FindById(db, userId);
    var updatedStats := user.UpdateStats(req.correctAnswers, xpGained, coinsGained, now);
    if updatedStats.None? {
      return Err(Error(500, "Failed to complete game"));
    }
    var stats := updatedStats.value;
    assert stats == StatsUpdated(u, req.correctAnswers, reward, now);
    StatsFitKeepsColumns(u, req.correctAnswers, reward, now);

    var newLevel := stats.xp / 1000 + 1;
    var leveledUp := false;
    if newLevel > stats.level {
      var levelOk := user.UpdateLevel(newLevel);
      // the new level fits int4 because the experience does
      assert levelOk;
      leveledUp := true;
      coinsGained := coinsGained + newLevel * 10;
    }
    assert db.users == old(db.users)[userId := LevelUpdated(stats)];

    var streakOk := user.UpdateStreak();
    if !streakOk {
      return Err(Error(500, "Failed to complete game"));
    }

    var level := if leveledUp then newLevel else stats.level;
    r := Ok(CompleteReply(
      sessionId,
      Results(req.score, req.correctAnswers, req.totalQuestions, Accuracy(req.correctAnswers, req.totalQuestions), req.timeTaken),
      RewardsReply(xpGained, coinsGained, leveledUp, level),
      UserStats(stats.totalGames, stats.correctAnswers, level, stats.xp, stats.coins + (if leveledUp then newLevel * 10 else 0))));
  }

  /** A history row after `GameSession.getHistory`: the session's columns
      plus the category's name and colour and the rounded accuracy. */
  datatype SessionHistory = SessionHistory(session: SessionRow, categoryName: Option<string>, categoryColor: Option<string>, accuracy: int)

  /** GameSession.getHistory: the page of completed sessions with accuracy
      attached; a negative limit or offset makes the query fail. */
  function GetHistory(completed: seq<GamesRoute.SessionHistoryRow>, limit: int, offset: int): Result<seq<SessionHistory>>
  {
    if limit < 0 || offset < 0 then Err(Error(500, "Failed to fetch game history"))
    else
      var rows := PageRows(completed, offset, limit);
      Ok(seq(|rows|, i requires 0 <= i < |rows| =>
        SessionHistory(rows[i].session, rows[i].categoryName, rows[i].categoryColor,
                       Accuracy(rows[i].session.correctAnswers, rows[i].session.totalQuestions))))
  }

  function Format(g: SessionHistory): GamesRoute.HistoryEntry
  {
    var s := g.session;
    GamesRoute.HistoryEntry(s.id, s.gameMode, s.score, s.correctAnswers, s.totalQuestions, g.accuracy,
                            s.timeTaken, g.categoryName, g.categoryColor, s.createdAt)
  }

  /** getGameHistory: the formatted page and `hasMore`, true iff the page is full. */
  function GetGameHistory(completed: seq<GamesRoute.SessionHistoryRow>, limit: int, offset: int): (r: Result<GamesRoute.HistoryReply>)
    ensures r.Ok? ==> (r.value.hasMore <==> |r.value.games| == limit)
  {
    match GetHistory(completed, limit, offset)
    case Err(e) => Err(e)
    case Ok(games) =>
      var formatted := seq(|games|, i requires 0 <= i < |games| => Format(games[i]));
      Ok(GamesRoute.HistoryReply(formatted, |formatted| == limit))
  }

  /** The controller's history, built in two steps, answers exactly what the route answers. */
  lemma HistoryAgreesWithRoute(completed: seq<GamesRoute.SessionHistoryRow>, limit: int, offset: int)
    ensures GetGameHistory(completed, limit, offset) == GamesRoute.History(completed, limit, offset)
  {
    if limit >= 0 && offset >= 0 {
      var mine := GetGameHistory(completed, limit, offset).value.games;
      var theirs := GamesRoute.History(completed, limit, offset).value.games;
      assert |mine| == |theirs|;
      forall i | 0 <= i < |mine| ensures mine[i] == theirs[i] {
      }
      assert mine == theirs;
    }
  }
}
