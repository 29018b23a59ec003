/** The PostgreSQL tables behind the SQL reward pipeline (`users`,
    `game_sessions`, `game_answers`, plus the ids of `questions` and
    `categories` that foreign keys point at), held by one `Database` object
    whose fields the pipeline's statements update. */
module SqlStore {
  import opened Common

  /** A `users` row. */
  datatype UserRow = UserRow(
    id: int,
    username: string,
    email: string,
    passwordHash: string,
    level: int,
    xp: int,
    coins: int,
    currentStreak: int,
    bestStreak: int,
    totalGames: int,
    correctAnswers: int,
    createdAt: int,
    lastLogin: Option<int>,
    lastPlayed: Option<int>)

  /** `status` of a game session: 'active' or 'completed'. */
  datatype SessionStatus = Active | Finished

  /** A `game_sessions` row. */
  datatype SessionRow = SessionRow(
    id: int,
    userId: int,
    gameMode: string,
    categoryId: Option<int>,
    score: int,
    correctAnswers: int,
    totalQuestions: int,
    timeTaken: Option<int>,
    status: SessionStatus,
    createdAt: int)

  /** A `game_answers` row. */
  datatype AnswerRow = AnswerRow(gameSessionId: int, questionId: int, selectedAnswer: int, timeSpent: int)

  /** One answered question as the client reports it. */
  datatype AnswerInput = AnswerInput(questionId: int, selectedAnswer: int, timeSpent: int)

  /** The `game_answers` rows recorded for a session's reported answers, in order. */
  function AnswerRows(sessionId: int, answered: seq<AnswerInput>): (rows: seq<AnswerRow>)
    ensures |rows| == |answered|
  {
    seq(|answered|, i requires 0 <= i < |answered| =>
      AnswerRow(sessionId, answered[i].questionId, answered[i].selectedAnswer, answered[i].timeSpent))
  }

  /** One reported answer can be inserted into `game_answers`: its values
      bind as int4 and its question exists (the foreign key). */
  predicate AnswerStorable(a: AnswerInput, questionIds: set<int>)
  {
    Int4(a.questionId) && Int4(a.selectedAnswer) && Int4(a.timeSpent) && a.questionId in questionIds
  }

  /** Every reported answer can be inserted. */
  predicate AnswersStorable(answered: seq<AnswerInput>, questionIds: set<int>)
  {
    forall k :: 0 <= k < |answered| ==> AnswerStorable(answered[k], questionIds)
  }

  /** The INTEGER parameters of `INSERT INTO game_sessions` bind: the
      category (when given), score, correct answers, question count and time
      all lie within int4. */
  predicate SessionBinds(categoryId: Option<int>, score: int, correctAnswers: int, totalQuestions: int, timeTaken: Option<int>)
  {
    Int4Opt(categoryId) && Int4(score) && Int4(correctAnswers) && Int4(totalQuestions) && Int4Opt(timeTaken)
  }

  /** The UNIQUE constraints of `users`: no two rows share a username or an email. */
  predicate UniqueLogins(users: map<int, UserRow>)
  {
    forall a, b :: a in users && b in users && a != b ==>
      users[a].username != users[b].username && users[a].email != users[b].email
  }

  /** A new row whose username and email no row has keeps the constraints. */
  lemma InsertKeepsUnique(users: map<int, UserRow>, row: UserRow)
    requires UniqueLogins(users) && row.id !in users
    requires forall k :: k in users ==> users[k].username != row.username && users[k].email != row.email
    ensures UniqueLogins(users[row.id := row])
  {
  }

  /** Rewriting a row without touching its username or email keeps the constraints. */
  lemma UpdateKeepsUnique(users: map<int, UserRow>, id: int, row: UserRow)
    requires UniqueLogins(users) && id in users
    requires row.username == users[id].username && row.email == users[id].email
    ensures UniqueLogins(users[id := row])
  {
  }

  class Database {
    var users: map<int, UserRow>
    var sessions: map<int, SessionRow>
    var answers: seq<AnswerRow>
    /** Ids present in `questions` and `categories`; the pipeline never writes those tables. */
    var questionIds: set<int>
    var categoryIds: set<int>
    /** Next values of the SERIAL sequences. A rolled-back insert still consumes one. */
    var nextUserId: int
    var nextSessionId: int

    /** Keys are ids and lie below their sequence; usernames and emails are
        UNIQUE; the foreign keys hold. */
    ghost predicate Valid()
      reads this
    {
      && (forall id :: id in users ==> users[id].id == id && id < nextUserId)
      && UniqueLogins(users)
      && (forall id :: id in sessions ==> sessions[id].id == id && id < nextSessionId && sessions[id].userId in users)
      && (forall k :: 0 <= k < |answers| ==> answers[k].gameSessionId in sessions && answers[k].questionId in questionIds)
    }

    constructor (questionIds: set<int>, categoryIds: set<int>)
      ensures Valid()
      ensures users == map[] && sessions == map[] && answers == []
      ensures this.questionIds == questionIds && this.categoryIds == categoryIds
    {
      users := map[];
      sessions := map[];
      answers := [];
      this.questionIds := questionIds;
      this.categoryIds := categoryIds;
      nextUserId := 1;
      nextSessionId := 1;
    }

    /** `INSERT INTO game_sessions`. A parameter outside int4 is refused
        while the statement is bound, before the id is drawn; otherwise the
        next id is taken from the sequence whether or not the insert
        succeeds, and the row is stored only when its user (and category, if
        any) exist. */
    method InsertSession(userId: int, gameMode: string, categoryId: Option<int>, score: int, correctAnswers: int,
                         totalQuestions: int, timeTaken: Option<int>, status: SessionStatus, now: int)
      returns (ok: bool, id: int)
      requires Valid()
      modifies this
      ensures Valid()
      ensures id == old(nextSessionId)
      ensures nextSessionId == if SessionBinds(categoryId, score, correctAnswers, totalQuestions, timeTaken) then id + 1 else id
      ensures ok <==>
        && SessionBinds(categoryId, score, correctAnswers, totalQuestions, timeTaken)
        && userId in users && (categoryId.None? || categoryId.value in categoryIds)
      ensures ok ==> sessions == old(sessions)[id := SessionRow(id, userId, gameMode, categoryId, score, correctAnswers, totalQuestions, timeTaken, status, now)]
      ensures !ok ==> sessions == old(sessions)
      ensures users == old(users) && answers == old(answers) && nextUserId == old(nextUserId)
      ensures questionIds == old(questionIds) && categoryIds == old(categoryIds)
    {
      id := nextSessionId;
      ok := false;
      if !SessionBinds(categoryId, score, correctAnswers, totalQuestions, timeTaken) {
        return;
      }
      nextSessionId := nextSessionId + 1;
      ok := userId in users && (categoryId.None? || categoryId.value in categoryIds);
      if ok {
        sessions := sessions[id := SessionRow(id, userId, gameMode, categoryId, score, correctAnswers, totalQuestions, timeTaken, status, now)];
      }
    }

    /** An `UPDATE users ... WHERE id = $n` that rewrites one existing row,
        leaving its id, username and email as they are. */
    method UpdateUserRow(id: int, row: UserRow)
      requires Valid() && id in users && row.id == id
      requires row.username == users[id].username && row.email == users[id].email
      modifies this
      ensures Valid()
      ensures users == old(users)[id := row]
      ensures sessions == old(sessions) && answers == old(answers)
      ensures nextUserId == old(nextUserId) && nextSessionId == old(nextSessionId)
      ensures questionIds == old(questionIds) && categoryIds == old(categoryIds)
    {
      UpdateKeepsUnique(users, id, row);
      users := users[id := row];
    }

    /** One `INSERT INTO game_answers` per reported answer, in order. A
        value outside int4 or an unknown question id (the foreign key) makes
        an insert fail and stops the loop (the caller rolls back what was
        inserted). */
    method InsertAnswers(sessionId: int, answered: seq<AnswerInput>) returns (ok: bool)
      requires Valid() && sessionId in sessions
      modifies this
      ensures Valid()
      ensures ok <==> AnswersStorable(answered, questionIds)
      ensures ok ==> answers == old(answers) + AnswerRows(sessionId, answered)
      ensures users == old(users) && sessions == old(sessions)
      ensures nextUserId == old(nextUserId) && nextSessionId == old(nextSessionId)
      ensures questionIds == old(questionIds) && categoryIds == old(categoryIds)
    {
      ok := true;
      var i := 0;
      while i < |answered| && ok
        invariant 0 <= i <= |answered|
        invariant Valid()
        invariant ok ==> AnswersStorable(answered[..i], questionIds) && answers == old(answers) + AnswerRows(sessionId, answered[..i])
        invariant !ok ==> !AnswersStorable(answered, questionIds)
        invariant users == old(users) && sessions == old(sessions)
        invariant nextUserId == old(nextUserId) && nextSessionId == old(nextSessionId)
        invariant questionIds == old(questionIds) && categoryIds == old(categoryIds)
      {
        var a := answered[i];
        if AnswerStorable(a, questionIds) {
          answers := answers + [AnswerRow(sessionId, a.questionId, a.selectedAnswer, a.timeSpent)];
          assert AnswerRows(sessionId, answered[..i + 1]) == AnswerRows(sessionId, answered[..i]) + [AnswerRow(sessionId, a.questionId, a.selectedAnswer, a.timeSpent)];
          assert forall k :: 0 <= k < i + 1 ==> answered[..i + 1][k] == answered[k];
        } else {
          ok := false;
        }
        i := i + 1;
      }
      if ok {
        assert answered[..i] == answered;
      }
    }
  }
}
