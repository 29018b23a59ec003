/** The Express routes of the SQL pipeline: `/start` opens a session,
    `/complete` records a finished game and its rewards in one transaction,
    `/history` pages through completed sessions. */
module GamesRoute {
  import opened Common
  import opened SqlStore
  import opened SqlRewards
  import Validation

  datatype StartReply = StartReply(gameSessionId: int, startedAt: int, gameMode: string)

  /** POST /start: an unknown mode is refused with 400 before anything is
      written; otherwise an active session is inserted, its category being
      `category_id || null`. A failing insert answers 500; a category id
      outside int4 fails before the session id is drawn. */
  method Start(db: Database, userId: int, gameMode: string, categoryId: Option<int>, now: int)
    returns (r: Result<StartReply>)
    requires db.Valid()
    modifies db
    ensures db.Valid()
    ensures db.users == old(db.users) && db.answers == old(db.answers) && db.nextUserId == old(db.nextUserId)
    ensures db.questionIds == old(db.questionIds) && db.categoryIds == old(db.categoryIds)
    ensures !SqlMode(gameMode) ==>
      r == Err(Error(400, "Invalid game mode")) && db.sessions == old(db.sessions) && db.nextSessionId == old(db.nextSessionId)
    ensures SqlMode(gameMode) ==>
      var id := old(db.nextSessionId);
      var category := if Truthy(categoryId) then categoryId else None;
      if !Int4Opt(category) then
        r == Err(Error(500, "Failed to start game")) && db.sessions == old(db.sessions) && db.nextSessionId == id
      else
      && db.nextSessionId == id + 1
      && if userId in old(db.users) && (category.None? || category.value in old(db.categoryIds)) then
           && r == Ok(StartReply(id, now, gameMode))
           && db.sessions == old(db.sessions)[id := SessionRow(id, userId, gameMode, category, 0, 0, 0, None, Active, now)]
         else
           r == Err(Error(500, "Failed to start game")) && db.sessions == old(db.sessions)
  {
    if !SqlMode(gameMode) {
      return Err(Error(400, "Invalid game mode"));
    }
    var category := if Truthy(categoryId) then categoryId else None;
    var ok, id := db.InsertSession(userId, gameMode, category, 0, 0, 0, None, Active, now);
    if !ok {
      return Err(Error(500, "Failed to start game"));
    }
    r := Ok(StartReply(id, now, gameMode));
  }

  /** The completed session's INTEGER parameters bind (its category is null). */
  predicate CompletionBinds(req: CompleteRequest)
  {
    SessionBinds(None, req.score, req.correctAnswers, req.totalQuestions, Some(req.timeTaken))
  }

  /** The session and its answers can be recorded: the values bind as int4,
      the user exists and every reported answer can be stored. */
  predicate SessionAccepted(users: map<int, UserRow>, questionIds: set<int>, userId: int, req: CompleteRequest)
  {
    CompletionBinds(req) && userId in users && AnswersStorable(req.questionsAnswered, questionIds)
  }

  /** The whole completion goes through: the session is recorded, and
      neither the stats nor the streak update leaves int4. */
  predicate CompletionAccepted(users: map<int, UserRow>, questionIds: set<int>, userId: int, req: CompleteRequest)
  {
    && SessionAccepted(users, questionIds, userId, req)
    && StatsFit(users[userId], req.correctAnswers, RewardFor(req.gameMode, req.score, req.correctAnswers, req.totalQuestions))
    && StreakFits(users[userId])
  }

  /** The `game_sessions` row of a completed game. */
  function CompletedSession(id: int, userId: int, req: CompleteRequest, now: int): SessionRow
  {
    SessionRow(id, userId, req.gameMode, None, req.score, req.correctAnswers, req.totalQuestions, Some(req.timeTaken), Finished, now)
  }

  /** The inserts of a completion: the finished session, then its answers
      one by one; any failure rolls both back (the session sequence stays
      advanced). */
  method RecordSession(db: Database, userId: int, req: CompleteRequest, now: int) returns (ok: bool, sessionId: int)
    requires db.Valid()
    modifies db
    ensures db.Valid()
    ensures sessionId == old(db.nextSessionId)
    ensures db.nextSessionId == if CompletionBinds(req) then sessionId + 1 else sessionId
    ensures db.users == old(db.users) && db.nextUserId == old(db.nextUserId)
    ensures db.questionIds == old(db.questionIds) && db.categoryIds == old(db.categoryIds)
    ensures ok <==> SessionAccepted(old(db.users), old(db.questionIds), userId, req)
    ensures ok ==>
      && db.sessions == old(db.sessions)[sessionId := CompletedSession(sessionId, userId, req, now)]
      && db.answers == old(db.answers) + AnswerRows(sessionId, req.questionsAnswered)
    ensures !ok ==> db.sessions == old(db.sessions) && db.answers == old(db.answers)
  {
    var sessions0, answers0 := db.sessions, db.answers;
    ok, sessionId := db.InsertSession(userId, req.gameMode, None, req.score, req.correctAnswers,
                                      req.totalQuestions, Some(req.timeTaken), Finished, now);
    if ok {
      ok := db.InsertAnswers(sessionId, req.questionsAnswered);
    }
    if !ok {
      db.sessions, db.answers := sessions0, answers0;
    }
  }

  /** POST /complete. Inside one transaction: insert the completed session
      and its answers, add the rewards to the user row, raise the level when
      the linear curve passed it, increment the streak. Any failure (a
      foreign key, or a value or sum outside int4) rolls every write back
      (the session sequence stays advanced once the insert was bound) and
      answers 500. The level-up bonus is added to the reported coins only. */
  method Complete(db: Database, userId: int, req: CompleteRequest, now: int) returns (r: Result<CompleteReply>)
    requires db.Valid()
    modifies db
    ensures db.Valid()
    ensures db.nextSessionId == old(db.nextSessionId) + (if CompletionBinds(req) then 1 else 0)
    ensures db.nextUserId == old(db.nextUserId)
    ensures db.questionIds == old(db.questionIds) && db.categoryIds == old(db.categoryIds)
    ensures !CompletionAccepted(old(db.users), old(db.questionIds), userId, req) ==>
      && r == Err(Error(500, "Failed to complete game"))
      && db.users == old(db.users) && db.sessions == old(db.sessions) && db.answers == old(db.answers)
    ensures CompletionAccepted(old(db.users), old(db.questionIds), userId, req) ==>
      var id := old(db.nextSessionId);
      var reward := RewardFor(req.gameMode, req.score, req.correctAnswers, req.totalQuestions);
      var u := old(db.users)[userId];
      && r == Ok(ReplyFor(id, req, reward, StatsUpdated(u, req.correctAnswers, reward, now)))
      && db.users == old(db.users)[userId := UserAfterSqlCompletion(u, req, now)]
      && db.sessions == old(db.sessions)[id := CompletedSession(id, userId, req, now)]
      && db.answers == old(db.answers) + AnswerRows(id, req.questionsAnswered)
  {
    // BEGIN
    var sessions0, answers0 := db.sessions, db.answers;
    var ok, sessionId := RecordSession(db, userId, req, now);
    if !ok {
      // ROLLBACK
      return Err(Error(500, "Failed to complete game"));
    }

    var xpGained, coinsGained := ComputeRewards(req.gameMode, req.score, req.correctAnswers, req.totalQuestions);

    // the three UPDATEs of the transaction, on the users table as of BEGIN
    var users := db.users;
    if !StatsFit(users[userId], req.correctAnswers, Reward(xpGained, coinsGained)) {
      // "integer out of range": ROLLBACK
      db.sessions, db.answers := sessions0, answers0;
      return Err(Error(500, "Failed to complete game"));
    }
    var updatedUser := StatsUpdated(users[userId], req.correctAnswers, Reward(xpGained, coinsGained), now);
    users := users[userId := updatedUser];

    var newLevel := updatedUser.xp / 1000 + 1;
    var leveledUp := false;
    if newLevel > updatedUser.level {
      // the new level fits int4 because the experience does
      users := users[userId := users[userId].(level := newLevel)];
      leveledUp := true;
      coinsGained := coinsGained + newLevel * 10;
    }

    if !StreakFits(users[userId]) {
      // "integer out of range": ROLLBACK
      db.sessions, db.answers := sessions0, answers0;
      return Err(Error(500, "Failed to complete game"));
    }
    users := users[userId := StreakIncremented(users[userId])];
    db.UpdateUserRow(userId, users[userId]);
    // COMMIT

    var level := if leveledUp then newLevel else updatedUser.level;
    r := Ok(CompleteReply(
      sessionId,
      Results(req.score, req.correctAnswers, req.totalQuestions, Accuracy(req.correctAnswers, req.totalQuestions), req.timeTaken),
      RewardsReply(xpGained, coinsGained, leveledUp, level),
      UserStats(updatedUser.totalGames, updatedUser.correctAnswers, level, updatedUser.xp,
                updatedUser.coins + (if leveledUp then newLevel * 10 else 0))));
  }

  /** The validator admits any non-negative safe integer as a score, but the
      column is INTEGER: a validated completion scoring 2^31 points is
      refused by the database (and answered with 500) whoever sends it. */
  lemma ValidatedScoreRefused(users: map<int, UserRow>, questionIds: set<int>, userId: int)
    ensures var body := map["game_mode" := Validation.JStr("classic"), "score" := Validation.JInt(0x8000_0000),
                            "correct_answers" := Validation.JInt(0), "total_questions" := Validation.JInt(1),
                            "time_taken" := Validation.JInt(0), "questions_answered" := Validation.JArr([])];
      && Validation.ValidateGameComplete(body).Next?
      && !SessionAccepted(users, questionIds, userId, Validation.RequestOf(body))
      && !CompletionAccepted(users, questionIds, userId, Validation.RequestOf(body))
  {
    var body := map["game_mode" := Validation.JStr("classic"), "score" := Validation.JInt(0x8000_0000),
                    "correct_answers" := Validation.JInt(0), "total_questions" := Validation.JInt(1),
                    "time_taken" := Validation.JInt(0), "questions_answered" := Validation.JArr([])];
    assert body.Keys == Validation.GameCompleteKeys;
  }

  /** A completed session with its category's name and colour (null without
      a category), as the history query returns them, newest first. */
  datatype SessionHistoryRow = SessionHistoryRow(session: SessionRow, categoryName: Option<string>, categoryColor: Option<string>)

  datatype HistoryEntry = HistoryEntry(
    id: int, gameMode: string, score: int, correctAnswers: int, totalQuestions: int, accuracy: int,
    timeSpent: Option<int>, category: Option<string>, categoryColor: Option<string>, playedAt: int)

  datatype HistoryReply = HistoryReply(games: seq<HistoryEntry>, hasMore: bool)

  function EntryOf(row: SessionHistoryRow): HistoryEntry
  {
    var s := row.session;
    HistoryEntry(s.id, s.gameMode, s.score, s.correctAnswers, s.totalQuestions,
                 Accuracy(s.correctAnswers, s.totalQuestions), s.timeTaken, row.categoryName, row.categoryColor, s.createdAt)
  }

  /** GET /history: `LIMIT limit OFFSET offset` over the completed sessions;
      `hasMore` is whether the page came back full. A negative limit or
      offset makes the query fail. */
  function History(completed: seq<SessionHistoryRow>, limit: int, offset: int): (r: Result<HistoryReply>)
    ensures limit < 0 || offset < 0 <==> r == Err(Error(500, "Failed to fetch game history"))
    ensures r.Ok? ==>
      && |r.value.games| == (if offset >= |completed| then 0 else Min(limit, |completed| - offset))
      && (forall i :: 0 <= i < |r.value.games| ==> r.value.games[i] == EntryOf(completed[offset + i]))
      && (r.value.hasMore <==> limit == 0 || offset + limit <= |completed|)
  {
    if limit < 0 || offset < 0 then Err(Error(500, "Failed to fetch game history"))
    else
      var rows := PageRows(completed, offset, limit);
      var games := seq(|rows|, i requires 0 <= i < |rows| => EntryOf(rows[i]));
      Ok(HistoryReply(games, |games| == limit))
  }

  /** `hasMore` never misses a following page, but it is also true when the
      page ends exactly at the last game (and always for a limit of 0). */
  lemma HasMoreOverApproximates(completed: seq<SessionHistoryRow>, limit: nat, offset: nat)
    ensures History(completed, limit, offset).Ok?
    ensures History(completed, limit, offset + limit).Ok?
    ensures |History(completed, limit, offset + limit).value.games| > 0 ==> History(completed, limit, offset).value.hasMore
    ensures offset + limit == |completed| ==>
      History(completed, limit, offset).value.hasMore && |History(completed, limit, offset + limit).value.games| == 0
  {
  }
}
