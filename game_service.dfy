/** The session-based game engine: starting a game with a fixed set of
    question slots, answering each slot once, completing the game (score,
    experience, coins, level, streak, achievements) and paging through the
    completed games. The store is the ORM `Store`; every database call of the
    service is a read or an update of one of its fields. */
module GameService {
  import opened Common
  import opened GameLogic
  import opened OrmModels

  /** Milliseconds in a day: the divisor of the streak rule's day difference. */
  const DayMillis: int := 86400000

  // ------------------------------------------------------------------
  // startGame
  // ------------------------------------------------------------------

  /** Number of questions requested for a new game. */
  function QuestionCount(gameMode: string): nat
  {
    if gameMode == "sixty-second" then 50 else 10
  }

  /** The active questions of one category, in table order. */
  function InCategory(questions: seq<Question>, categoryId: int): (r: seq<Question>)
    ensures forall q :: q in r <==> q in questions && q.categoryId == categoryId && q.isActive
    ensures IdsAscending(questions) ==> IdsAscending(r)
  {
    if questions == [] then []
    else
      var rest := InCategory(questions[1..], categoryId);
      var head := if questions[0].categoryId == categoryId && questions[0].isActive then [questions[0]] else [];
      assert IdsAscending(questions) ==> IdsAscending(head + rest) by {
        if IdsAscending(questions) {
          HeadBelowRest(questions);
          AscendingCons(head, rest);
        }
      }
      head + rest
  }

  lemma HeadBelowRest(questions: seq<Question>)
    requires |questions| > 0 && IdsAscending(questions)
    ensures IdsAscending(questions[1..])
    ensures forall q :: q in questions[1..] ==> questions[0].id < q.id
  {
    forall q | q in questions[1..]
      ensures questions[0].id < q.id
    {
      var k :| 0 <= k < |questions[1..]| && questions[1..][k] == q;
      assert questions[k + 1] == q;
    }
  }

  lemma AscendingCons(head: seq<Question>, rest: seq<Question>)
    requires |head| <= 1 && IdsAscending(rest)
    requires forall h, q :: h in head && q in rest ==> h.id < q.id
    ensures IdsAscending(head + rest)
  {
    if |head| == 1 {
      forall i, j | 0 <= i < j < |head + rest|
        ensures (head + rest)[i].id < (head + rest)[j].id
      {
        if i == 0 {
          assert (head + rest)[j] in rest;
        } else {
          assert (head + rest)[i] == rest[i - 1] && (head + rest)[j] == rest[j - 1];
        }
      }
    } else {
      assert head + rest == rest;
    }
  }

  /** The active questions, in the order given. */
  function Active(questions: seq<Question>): (r: seq<Question>)
    ensures forall q :: q in r <==> q in questions && q.isActive
  {
    if questions == [] then []
    else (if questions[0].isActive then [questions[0]] else []) + Active(questions[1..])
  }

  /** The questions a new game receives. With a truthy category: that
      category's active questions by ascending id; otherwise the active
      questions in the random order `shuffled`. At most QuestionCount. */
  function SelectQuestions(questions: seq<Question>, gameMode: string, categoryId: Option<int>, shuffled: seq<Question>): (selected: seq<Question>)
    ensures |selected| <= QuestionCount(gameMode)
    ensures forall q :: q in selected ==> q.isActive
    ensures Truthy(categoryId) ==> selected == Take(InCategory(questions, categoryId.value), QuestionCount(gameMode))
    ensures !Truthy(categoryId) ==> selected == Take(Active(shuffled), QuestionCount(gameMode))
    ensures Truthy(categoryId) ==>
      && (forall q :: q in selected ==> q in questions && q.categoryId == categoryId.value)
      && |selected| == Min(QuestionCount(gameMode), |InCategory(questions, categoryId.value)|)
      && (IdsAscending(questions) ==> IdsAscending(selected))
    ensures !Truthy(categoryId) ==>
      && (forall q :: q in selected ==> q in shuffled)
      && |selected| == Min(QuestionCount(gameMode), |Active(shuffled)|)
  {
    var pool := if Truthy(categoryId) then InCategory(questions, categoryId.value) else Active(shuffled);
    var selected := Take(pool, QuestionCount(gameMode));
    assert forall q :: q in selected ==> q in pool;
    selected
  }

  /** The question lookup of startGame as written: without a truthy category
      it evaluates `sequelize.random()`, but gameService.js never binds
      `sequelize`, so the lookup throws a ReferenceError. */
  function SelectQuestionsAsWritten(questions: seq<Question>, gameMode: string, categoryId: Option<int>, shuffled: seq<Question>): (r: Result<seq<Question>>)
    ensures Truthy(categoryId) ==> r.Ok?
    ensures !Truthy(categoryId) ==> r.Err?
  {
    if Truthy(categoryId) then Ok(SelectQuestions(questions, gameMode, categoryId, shuffled))
    else Err(Error(500, "sequelize is not defined"))
  }

  /** Without a category and with one active question in the table, the
      lookup as written fails while the intended random selection is
      non-empty. */
  lemma RandomSelectionWitness(questions: seq<Question>, gameMode: string, shuffled: seq<Question>, q: Question)
    requires q in shuffled && q.isActive
    ensures SelectQuestionsAsWritten(questions, gameMode, None, shuffled).Err?
    ensures |SelectQuestions(questions, gameMode, None, shuffled)| >= 1
  {
    assert q in Active(shuffled);
  }

  /** One unanswered slot per selected question, numbered 1..n in selection order. */
  function Slots(selected: seq<Question>): (slots: seq<GameQuestion>)
    ensures |slots| == |selected|
    ensures forall i :: 0 <= i < |slots| ==>
      && slots[i].questionId == selected[i].id && slots[i].questionOrder == i + 1
      && slots[i].userAnswer.None? && slots[i].isCorrect.None?
  {
    seq(|selected|, i requires 0 <= i < |selected| => GameQuestion(selected[i].id, i + 1, None, None, None, None))
  }

  datatype StartResult = StartResult(id: int, gameMode: string, categoryId: Option<int>, totalQuestions: int, status: GameStatus)

  lemma QuestionByIdOfMember(questions: seq<Question>, q: Question)
    requires q in questions
    ensures QuestionById(questions, q.id).Some?
  {
    var k :| 0 <= k < |questions| && questions[k] == q;
  }

  /** Every selected question is in the table, so its slot refers to it. */
  lemma SelectedKnown(questions: seq<Question>, gameMode: string, categoryId: Option<int>, shuffled: seq<Question>)
    requires multiset(shuffled) == multiset(questions)
    ensures KnownSlots(questions, Slots(SelectQuestions(questions, gameMode, categoryId, shuffled)))
  {
    var selected := SelectQuestions(questions, gameMode, categoryId, shuffled);
    forall k | 0 <= k < |selected|
      ensures QuestionById(questions, selected[k].id).Some?
    {
      var q := selected[k];
      assert q in selected;
      if !Truthy(categoryId) {
        assert q in multiset(shuffled);
      }
      QuestionByIdOfMember(questions, q);
    }
  }

  /** startGame: the game row is created first, and a refused insert (a
      mode outside the ENUM, a missing user or category) throws before any
      question is looked up; then the questions are looked up, and an empty
      selection fails (the game row stays behind). */
  method StartGame(store: Store, userId: int, gameMode: string, categoryId: Option<int>, shuffled: seq<Question>)
    returns (r: Result<StartResult>)
    requires store.Valid()
    requires multiset(shuffled) == multiset(store.questions)
    modifies store
    ensures store.Valid()
    ensures store.users == old(store.users) && store.questions == old(store.questions)
    ensures store.achievements == old(store.achievements) && store.categoryIds == old(store.categoryIds)
    ensures gameMode !in GameModes ==>
      && r == Err(Error(500, "invalid input value for enum"))
      && store.games == old(store.games) && store.gameQuestions == old(store.gameQuestions)
      && store.nextGameId == old(store.nextGameId)
    ensures gameMode in GameModes && !old(store.KnownReferences(userId, categoryId)) ==>
      && r == Err(Error(500, "violates foreign key constraint"))
      && store.games == old(store.games) && store.gameQuestions == old(store.gameQuestions)
      && store.nextGameId == old(store.nextGameId) + 1
    ensures gameMode in GameModes && old(store.KnownReferences(userId, categoryId)) ==>
      var id := old(store.nextGameId);
      && store.games == old(store.games)[id := NewGame(id, userId, gameMode, categoryId)]
      && store.nextGameId == id + 1
    ensures gameMode in GameModes && old(store.KnownReferences(userId, categoryId)) ==>
      var id := old(store.nextGameId);
      var selected := SelectQuestions(old(store.questions), gameMode, categoryId, shuffled);
      if |selected| == 0 then
        && r == Err(Error(500, "No questions available for this game mode"))
        && store.gameQuestions == old(store.gameQuestions)
      else
        && r == Ok(StartResult(id, gameMode, categoryId, |selected|, InProgress))
        && store.gameQuestions == old(store.gameQuestions)[id := Slots(selected)]
  {
    // The selection only reads the questions table, which creating the
    // game row does not touch, so it is computed up front.
    var questions := store.questions;
    var selected := SelectQuestions(questions, gameMode, categoryId, shuffled);
    var slots := Slots(selected);
    assert KnownSlots(questions, slots) by {
      SelectedKnown(questions, gameMode, categoryId, shuffled);
    }

    var created := store.CreateGame(userId, gameMode, categoryId);
    if created.Err? {
      return Err(created.error);
    }
    var id := created.value;
    if |selected| == 0 {
      return Err(Error(500, "No questions available for this game mode"));
    }
    store.SetSlots(id, slots);
    r := Ok(StartResult(id, gameMode, categoryId, |selected|, InProgress));
  }

  // ------------------------------------------------------------------
  // submitAnswer
  // ------------------------------------------------------------------

  /** The slots of a game (none for an unknown game). */
  function SlotsOf(gameQuestions: map<int, seq<GameQuestion>>, gameId: int): seq<GameQuestion>
  {
    if gameId in gameQuestions then gameQuestions[gameId] else []
  }

  /** The first slot of the game that holds the question, if any. */
  function FindSlot(rows: seq<GameQuestion>, questionId: int): (k: Option<nat>)
    ensures k.Some? ==> k.value < |rows| && rows[k.value].questionId == questionId
    ensures k.Some? ==> forall j :: 0 <= j < k.value ==> rows[j].questionId != questionId
    ensures k.None? ==> forall j :: 0 <= j < |rows| ==> rows[j].questionId != questionId
  {
    FindSlotFrom(rows, questionId, 0)
  }

  function FindSlotFrom(rows: seq<GameQuestion>, questionId: int, from: nat): (k: Option<nat>)
    requires from <= |rows|
    requires forall j :: 0 <= j < from ==> rows[j].questionId != questionId
    ensures k.Some? ==> from <= k.value < |rows| && rows[k.value].questionId == questionId
    ensures k.Some? ==> forall j :: 0 <= j < k.value ==> rows[j].questionId != questionId
    ensures k.None? ==> forall j :: 0 <= j < |rows| ==> rows[j].questionId != questionId
    decreases |rows| - from
  {
    if from == |rows| then None
    else if rows[from].questionId == questionId then Some(from)
    else FindSlotFrom(rows, questionId, from + 1)
  }

  /** A slot holding the question with no earlier one holding it is the one found. */
  lemma FindSlotFirst(rows: seq<GameQuestion>, questionId: int, k: nat)
    requires k < |rows| && rows[k].questionId == questionId
    requires forall j :: 0 <= j < k ==> rows[j].questionId != questionId
    ensures FindSlot(rows, questionId) == Some(k)
  {
  }

  /** The game exists, belongs to the caller and is still in progress. */
  predicate GameAccessible(games: map<int, Game>, gameId: int, userId: int)
  {
    gameId in games && games[gameId].userId == userId && games[gameId].status == InProgress
  }

  /** `timeToAnswer && timeToAnswer < 10`: null and 0 are falsy. */
  predicate FastAnswer(timeToAnswer: Option<int>)
  {
    timeToAnswer.Some? && timeToAnswer.value != 0 && timeToAnswer.value < 10
  }

  /** `{easy: 100, medium: 150, hard: 200}[difficulty] || 100`. */
  function BasePoints(difficulty: string): nat
  {
    if difficulty == "easy" then 100
    else if difficulty == "medium" then 150
    else if difficulty == "hard" then 200
    else 100
  }

  /** Points of one answer: nothing when wrong; when right, the difficulty's
      base points plus a 50-point bonus exactly for a fast answer. */
  function AnswerPoints(isCorrect: bool, difficulty: string, timeToAnswer: Option<int>): (points: nat)
    ensures points == 0 <==> !isCorrect
    ensures isCorrect ==> 100 <= points <= 250 && points % 50 == 0
    ensures isCorrect ==> (points == BasePoints(difficulty) + 50 <==> FastAnswer(timeToAnswer))
  {
    if !isCorrect then 0
    else BasePoints(difficulty) + (if FastAnswer(timeToAnswer) then 50 else 0)
  }

  /** The slot after it is answered. */
  function Answer(slot: GameQuestion, answer: int, isCorrect: bool, timeToAnswer: Option<int>, now: int): GameQuestion
  {
    slot.(userAnswer := Some(answer), isCorrect := Some(isCorrect), timeToAnswer := timeToAnswer, answeredAt := Some(now))
  }

  datatype AnswerResult = AnswerResult(isCorrect: bool, correctAnswer: int, points: nat, timeToAnswer: Option<int>)

  /** The slot of the question in the game has a stored answer. */
  predicate IsAnswered(gameQuestions: map<int, seq<GameQuestion>>, gameId: int, questionId: int)
  {
    var rows := SlotsOf(gameQuestions, gameId);
    var k := FindSlot(rows, questionId);
    k.Some? && rows[k.value].userAnswer.Some?
  }

  /** submitAnswer. Fails with 404 for a game that is missing, someone
      else's or no longer in progress, with 404 for a question outside the
      game, with 400 for an answered question, and with 400 when the stored
      answer would break the column's 0..3 validation; PostgreSQL then
      refuses a time outside the INTEGER range (500). Every failure leaves
      the store as it was; a success changes that one slot only. */
  method SubmitAnswer(store: Store, gameId: int, questionId: int, userId: int, answer: int, timeToAnswer: Option<int>, now: int)
    returns (r: Result<AnswerResult>)
    requires store.Valid()
    modifies store
    ensures store.Valid()
    ensures store.games == old(store.games) && store.users == old(store.users)
    ensures store.questions == old(store.questions) && store.achievements == old(store.achievements)
    ensures store.nextGameId == old(store.nextGameId) && store.categoryIds == old(store.categoryIds)
    ensures r.Err? ==> store.gameQuestions == old(store.gameQuestions)
    ensures !GameAccessible(old(store.games), gameId, userId) ==>
      r == Err(Error(404, "Game not found or already completed"))
    ensures GameAccessible(old(store.games), gameId, userId) && FindSlot(SlotsOf(old(store.gameQuestions), gameId), questionId).None? ==>
      r == Err(Error(404, "Question not found in this game"))
    ensures GameAccessible(old(store.games), gameId, userId) && old(IsAnswered(store.gameQuestions, gameId, questionId)) ==>
      r == Err(Error(400, "Question already answered"))
    ensures r.Ok? <==>
      && GameAccessible(old(store.games), gameId, userId)
      && FindSlot(SlotsOf(old(store.gameQuestions), gameId), questionId).Some?
      && !old(IsAnswered(store.gameQuestions, gameId, questionId))
      && 0 <= answer <= 3
      && Int4Opt(timeToAnswer)
    ensures
      && GameAccessible(old(store.games), gameId, userId)
      && FindSlot(SlotsOf(old(store.gameQuestions), gameId), questionId).Some?
      && !old(IsAnswered(store.gameQuestions, gameId, questionId))
      && 0 <= answer <= 3 && !Int4Opt(timeToAnswer) ==>
      r == Err(Error(500, "value out of range for type integer"))
    ensures r.Ok? ==>
      var rows := SlotsOf(old(store.gameQuestions), gameId);
      && FindSlot(rows, questionId).Some?
      && QuestionById(store.questions, questionId).Some?
      && var k := FindSlot(rows, questionId).value;
         var q := QuestionById(store.questions, questionId).value;
         var isCorrect := answer == q.correctAnswer;
         && r.value == AnswerResult(isCorrect, q.correctAnswer, AnswerPoints(isCorrect, q.difficulty, timeToAnswer), timeToAnswer)
         && store.gameQuestions == old(store.gameQuestions)[gameId := rows[k := Answer(rows[k], answer, isCorrect, timeToAnswer, now)]]
    ensures r.Ok? ==>
      var rows := SlotsOf(store.gameQuestions, gameId);
      && FindSlot(rows, questionId) == FindSlot(SlotsOf(old(store.gameQuestions), gameId), questionId)
      && rows[FindSlot(rows, questionId).value].userAnswer == Some(answer)
  {
    if !GameAccessible(store.games, gameId, userId) {
      return Err(Error(404, "Game not found or already completed"));
    }
    var rows := SlotsOf(store.gameQuestions, gameId);
    var found := FindSlot(rows, questionId);
    if found.None? {
      return Err(Error(404, "Question not found in this game"));
    }
    var k := found.value;
    if rows[k].userAnswer.Some? {
      return Err(Error(400, "Question already answered"));
    }
    var q := QuestionById(store.questions, questionId).value;
    var isCorrect := answer == q.correctAnswer;
    if !(0 <= answer <= 3) {
      return Err(Error(400, "Validation error"));
    }
    if !Int4Opt(timeToAnswer) {
      return Err(Error(500, "value out of range for type integer"));
    }
    var newRows := rows[k := Answer(rows[k], answer, isCorrect, timeToAnswer, now)];
    assert KnownSlots(store.questions, newRows);
    store.SetSlots(gameId, newRows);
    FindSlotFirst(newRows, questionId, k);

    var points := 0;
    if isCorrect {
      points := BasePoints(q.difficulty);
      if FastAnswer(timeToAnswer) {
        points := points + 50;
      }
    }
    r := Ok(AnswerResult(isCorrect, q.correctAnswer, points, timeToAnswer));
  }

  /** Answer-once: after a successful submission the same question is
      refused with 400 and the stored answer stays the first one. */
  method SubmitTwice(store: Store, gameId: int, questionId: int, userId: int, first: int, second: int, now: int)
    returns (r1: Result<AnswerResult>, r2: Result<AnswerResult>)
    requires store.Valid()
    modifies store
    ensures r1.Ok? ==> r2 == Err(Error(400, "Question already answered"))
    ensures r1.Ok? ==> IsAnswered(store.gameQuestions, gameId, questionId)
    ensures r1.Ok? ==>
      var rows := SlotsOf(store.gameQuestions, gameId);
      rows[FindSlot(rows, questionId).value].userAnswer == Some(first)
  {
    r1 := SubmitAnswer(store, gameId, questionId, userId, first, None, now);
    r2 := SubmitAnswer(store, gameId, questionId, userId, second, None, now);
  }

  // ------------------------------------------------------------------
  // completeGame
  // ------------------------------------------------------------------

  /** The answered slots (`userAnswer !== null`), in order. */
  function AnsweredSlots(rows: seq<GameQuestion>): (r: seq<GameQuestion>)
    ensures |r| <= |rows|
    ensures forall x :: x in r <==> x in rows && x.userAnswer.Some?
  {
    if rows == [] then []
    else (if rows[0].userAnswer.Some? then [rows[0]] else []) + AnsweredSlots(rows[1..])
  }

  /** Slots whose `isCorrect` is truthy. */
  function CountCorrect(rows: seq<GameQuestion>): (n: nat)
    ensures n <= |rows|
  {
    if rows == [] then 0
    else CountCorrect(rows[..|rows| - 1]) + (if rows[|rows| - 1].isCorrect == Some(true) then 1 else 0)
  }

  /** The difficulty of a question ("" when the row is missing, which
      the store's foreign keys rule out). */
  function DifficultyOf(questions: seq<Question>, questionId: int): string
  {
    match QuestionById(questions, questionId)
    case Some(q) => q.difficulty
    case None => ""
  }

  /** The points a stored slot contributes to the final score. */
  function SlotPoints(slot: GameQuestion, questions: seq<Question>): nat
  {
    if slot.isCorrect == Some(true) then AnswerPoints(true, DifficultyOf(questions, slot.questionId), slot.timeToAnswer)
    else 0
  }

  /** The final score: the per-answer points summed over the slots. */
  function ScoreOf(rows: seq<GameQuestion>, questions: seq<Question>): nat
  {
    if rows == [] then 0
    else ScoreOf(rows[..|rows| - 1], questions) + SlotPoints(rows[|rows| - 1], questions)
  }

  /** Every correct slot scores between 100 and 250 points and every other
      slot nothing. */
  lemma {:induction false} ScoreBounds(rows: seq<GameQuestion>, questions: seq<Question>)
    ensures 100 * CountCorrect(rows) <= ScoreOf(rows, questions) <= 250 * CountCorrect(rows)
  {
    if rows != [] {
      ScoreBounds(rows[..|rows| - 1], questions);
    }
  }

  /** Unanswered slots never count: scoring only the answered slots gives
      the same total as scoring them all. */
  lemma {:induction false} AnsweredScoreIsTotal(rows: seq<GameQuestion>, questions: seq<Question>)
    requires forall k :: 0 <= k < |rows| ==> rows[k].userAnswer.None? ==> rows[k].isCorrect.None?
    ensures ScoreOf(AnsweredSlots(rows), questions) == ScoreOf(rows, questions)
    ensures CountCorrect(AnsweredSlots(rows)) == CountCorrect(rows)
  {
    if rows != [] {
      var head := if rows[0].userAnswer.Some? then [rows[0]] else [];
      AnsweredScoreIsTotal(rows[1..], questions);
      SumsOfConcat(head, AnsweredSlots(rows[1..]), questions);
      SumsOfConcat([rows[0]], rows[1..], questions);
      assert [rows[0]] + rows[1..] == rows;
    }
  }

  lemma {:induction false} SumsOfConcat(a: seq<GameQuestion>, b: seq<GameQuestion>, questions: seq<Question>)
    ensures ScoreOf(a + b, questions) == ScoreOf(a, questions) + ScoreOf(b, questions)
    ensures CountCorrect(a + b) == CountCorrect(a) + CountCorrect(b)
  {
    if b != [] {
      var b' := b[..|b| - 1];
      assert (a + b)[..|a + b| - 1] == a + b';
      SumsOfConcat(a, b', questions);
    } else {
      assert a + b == a;
    }
  }

  /** Day difference of the streak rule: floor((today - lastPlay) / one day). */
  function DaysBetween(lastPlay: int, today: int): int
  {
    (today - lastPlay) / DayMillis
  }

  /** The streak after a completion: 1 for a first play, one more the day
      after the last play, back to 1 after a longer gap, unchanged on the
      same day (or when the clock went back). */
  function NextStreak(currentStreak: int, lastPlayDate: Option<int>, today: int): (streak: int)
    ensures streak == 1 || streak == currentStreak || streak == currentStreak + 1
    ensures lastPlayDate.None? ==> streak == 1
    ensures lastPlayDate.Some? && DaysBetween(lastPlayDate.value, today) == 1 ==> streak == currentStreak + 1
    ensures lastPlayDate.Some? && DaysBetween(lastPlayDate.value, today) > 1 ==> streak == 1
    ensures lastPlayDate.Some? && DaysBetween(lastPlayDate.value, today) < 1 ==> streak == currentStreak
  {
    match lastPlayDate
    case None => 1
    case Some(last) =>
      var daysDiff := DaysBetween(last, today);
      if daysDiff == 1 then currentStreak + 1
      else if daysDiff > 1 then 1
      else currentStreak
  }

  /** The streak reached by a series of completions at the given times. */
  function StreakAfter(streak: int, lastPlayDate: Option<int>, plays: seq<int>): int
    decreases |plays|
  {
    if plays == [] then streak
    else StreakAfter(NextStreak(streak, lastPlayDate, plays[0]), Some(plays[0]), plays[1..])
  }

  /** Playing exactly one day after the previous play, n times in a row,
      adds n to the streak. */
  lemma {:induction false} DailyPlaysExtendStreak(streak: int, last: int, n: nat)
    ensures StreakAfter(streak, Some(last), seq(n, i => last + (i + 1) * DayMillis)) == streak + n
    decreases n
  {
    var plays := seq(n, i => last + (i + 1) * DayMillis);
    if n > 0 {
      var next := last + DayMillis;
      assert plays[0] == next;
      assert DaysBetween(last, next) == 1;
      var rest := seq(n - 1, i => next + (i + 1) * DayMillis);
      assert plays[1..] == rest by {
        forall i | 0 <= i < n - 1
          ensures plays[1..][i] == rest[i]
        {
          assert plays[1..][i] == last + (i + 2) * DayMillis;
        }
      }
      DailyPlaysExtendStreak(streak + 1, next, n - 1);
    }
  }

  /** A player who never played and then plays on n consecutive days has a
      streak of n. */
  lemma ConsecutiveDaysStreak(first: int, n: nat)
    requires n >= 1
    ensures StreakAfter(0, None, seq(n, i => first + i * DayMillis)) == n
  {
    var plays := seq(n, i => first + i * DayMillis);
    assert plays[1..] == seq(n - 1, i => first + (i + 1) * DayMillis);
    DailyPlaysExtendStreak(1, first, n - 1);
  }

  /** The user row written by completeGame. */
  function UserAfterCompletion(user: User, xpEarned: nat, coinsEarned: int, correctAnswers: int, today: int): (u: User)
    ensures u.level == CalculateLevel(u.xp)
    ensures u.bestStreak >= u.currentStreak && u.bestStreak >= user.bestStreak
    ensures u.xp == user.xp + xpEarned && u.coins == user.coins + coinsEarned
    ensures u.totalGames == user.totalGames + 1
    ensures u.totalCorrectAnswers == user.totalCorrectAnswers + correctAnswers
    ensures u.currentStreak == NextStreak(user.currentStreak, user.lastPlayDate, today)
    ensures u.lastPlayDate == Some(today)
    ensures u.(level := user.level, xp := user.xp, coins := user.coins, currentStreak := user.currentStreak,
               bestStreak := user.bestStreak, totalGames := user.totalGames,
               totalCorrectAnswers := user.totalCorrectAnswers, lastPlayDate := user.lastPlayDate) == user
  {
    var newTotalXp := user.xp + xpEarned;
    var newStreak := NextStreak(user.currentStreak, user.lastPlayDate, today);
    user.(level := CalculateLevel(newTotalXp),
          xp := newTotalXp,
          coins := user.coins + coinsEarned,
          currentStreak := newStreak,
          bestStreak := Max(user.bestStreak, newStreak),
          totalGames := user.totalGames + 1,
          totalCorrectAnswers := user.totalCorrectAnswers + correctAnswers,
          lastPlayDate := Some(today))
  }

  /** Whether a completion raises the level: the new level, computed from the
      new experience total, against the level stored before the update. */
  function LeveledUp(user: User, xpEarned: nat): bool
  {
    CalculateLevel(user.xp + xpEarned) > user.level
  }

  /** For a user whose stored level matches their experience, a completion
      levels up exactly when the new total reaches getXPForNextLevel of the
      old level. */
  lemma LeveledUpAtThreshold(user: User, xpEarned: nat)
    requires user.level == CalculateLevel(user.xp)
    ensures LeveledUp(user, xpEarned) <==> user.xp + xpEarned >= GetXpForNextLevel(user.level)
  {
    ThresholdDecidesLevel(user.level, user.xp + xpEarned);
  }

  /** completeGame's `leveledUp` as written: `newLevel > user.level` is read
      after `user.update` has already stored `level: newLevel`. */
  function LeveledUpAsWritten(user: User, xpEarned: nat, coinsEarned: int, correctAnswers: int, today: int): (leveledUp: bool)
    ensures !leveledUp
  {
    var updated := UserAfterCompletion(user, xpEarned, coinsEarned, correctAnswers, today);
    CalculateLevel(updated.xp) > updated.level
  }

  /** As written, `leveledUp` is never true, even for a user who goes from
      950 to 1050 experience and so from level 1 to level 2. */
  lemma LeveledUpAsWrittenWitness(user: User, today: int)
    requires user.xp == 950 && user.level == 1
    ensures !LeveledUpAsWritten(user, 100, 0, 0, today)
    ensures LeveledUp(user, 100)
    ensures CalculateLevel(user.xp + 100) == 2
  {
    LevelUnique(1050, 2);
  }

  /** findOrCreate of one achievement row. */
  predicate HasAchievement(rows: seq<UserAchievement>, userId: int, key: string)
  {
    exists i :: 0 <= i < |rows| && rows[i].userId == userId && rows[i].achievementKey == key
  }

  function Unlock(rows: seq<UserAchievement>, userId: int, key: string, now: int): seq<UserAchievement>
  {
    if HasAchievement(rows, userId, key) then rows else rows + [UserAchievement(userId, key, now)]
  }

  /** The achievement rows after unlocking each key in turn: old rows stay,
      every key ends up unlocked, and nothing is unlocked twice. */
  function UnlockAll(rows: seq<UserAchievement>, userId: int, keys: seq<string>, now: int): (r: seq<UserAchievement>)
    ensures rows <= r
    ensures forall k :: k in keys ==> HasAchievement(r, userId, k)
    ensures forall i :: |rows| <= i < |r| ==> r[i].userId == userId && r[i].achievementKey in keys && !HasAchievement(rows, userId, r[i].achievementKey)
  {
    if keys == [] then rows
    else
      var prev := UnlockAll(rows, userId, keys[..|keys| - 1], now);
      var key := keys[|keys| - 1];
      var r := Unlock(prev, userId, key, now);
      assert forall k :: k in keys ==> k in keys[..|keys| - 1] || k == key;
      assert HasAchievement(r, userId, key) by {
        if !HasAchievement(prev, userId, key) {
          assert r[|prev|] == UserAchievement(userId, key, now);
        }
      }
      assert forall k :: HasAchievement(prev, userId, k) ==> HasAchievement(r, userId, k) by {
        forall k | HasAchievement(prev, userId, k) ensures HasAchievement(r, userId, k) {
          var i :| 0 <= i < |prev| && prev[i].userId == userId && prev[i].achievementKey == k;
          assert r[i] == prev[i];
        }
      }
      r
  }

  /** What completeGame derives from the slots: the counts and the score. */
  datatype Tally = Tally(totalQuestions: nat, correctAnswers: nat, score: nat)

  function TallyOf(rows: seq<GameQuestion>, questions: seq<Question>): (t: Tally)
    ensures t.correctAnswers <= t.totalQuestions == |rows|
    ensures 100 * t.correctAnswers <= t.score <= 250 * t.correctAnswers
  {
    var answered := AnsweredSlots(rows);
    ScoreBounds(answered, questions);
    Tally(|rows|, CountCorrect(answered), ScoreOf(answered, questions))
  }

  function CompletedGame(game: Game, t: Tally, xpEarned: int, coinsEarned: int, today: int): Game
  {
    game.(status := Completed, score := t.score, correctAnswers := t.correctAnswers,
          totalQuestions := t.totalQuestions, xpEarned := xpEarned, coinsEarned := coinsEarned,
          completedAt := Some(today))
  }

  datatype Completion = Completion(
    score: nat,
    correctAnswers: nat,
    totalQuestions: nat,
    accuracy: int,
    xpEarned: nat,
    coinsEarned: int,
    newLevel: nat,
    leveledUp: bool,
    newAchievements: seq<string>,
    currentStreak: int)

  /** The score loop of completeGame: base points of each correct answered
      slot plus the fast-answer bonus. */
  method SumScore(answered: seq<GameQuestion>, questions: seq<Question>) returns (totalScore: nat)
    ensures totalScore == ScoreOf(answered, questions)
  {
    totalScore := 0;
    var i := 0;
    while i < |answered|
      invariant 0 <= i <= |answered|
      invariant totalScore == ScoreOf(answered[..i], questions)
    {
      var gq := answered[i];
      if gq.isCorrect == Some(true) {
        var points := BasePoints(DifficultyOf(questions, gq.questionId));
        if FastAnswer(gq.timeToAnswer) {
          points := points + 50;
        }
        totalScore := totalScore + points;
      }
      assert answered[..i + 1][..i] == answered[..i];
      i := i + 1;
    }
    assert answered[..i] == answered;
  }

  /** The findOrCreate loop of completeGame over the unlocked keys. */
  method UnlockAchievements(store: Store, userId: int, keys: seq<string>, now: int)
    modifies store
    ensures store.achievements == UnlockAll(old(store.achievements), userId, keys, now)
    ensures store.users == old(store.users) && store.games == old(store.games)
    ensures store.questions == old(store.questions) && store.gameQuestions == old(store.gameQuestions)
    ensures store.nextGameId == old(store.nextGameId) && store.categoryIds == old(store.categoryIds)
  {
    var j := 0;
    while j < |keys|
      invariant 0 <= j <= |keys|
      invariant store.achievements == UnlockAll(old(store.achievements), userId, keys[..j], now)
      invariant store.users == old(store.users) && store.games == old(store.games)
      invariant store.questions == old(store.questions) && store.gameQuestions == old(store.gameQuestions)
      invariant store.nextGameId == old(store.nextGameId) && store.categoryIds == old(store.categoryIds)
    {
      store.achievements := Unlock(store.achievements, userId, keys[j], now);
      assert keys[..j + 1][..j] == keys[..j];
      j := j + 1;
    }
    assert keys[..j] == keys;
  }

  /** completeGame. The caller must own the game; its status is not checked,
      so an already completed game is completed and rewarded again. The
      game's user exists (the foreign key), so the user lookup never comes
      back empty and the call succeeds. */
  method CompleteGame(store: Store, gameId: int, userId: int, today: int) returns (r: Result<Completion>)
    requires store.Valid()
    modifies store
    ensures store.Valid()
    ensures store.questions == old(store.questions) && store.gameQuestions == old(store.gameQuestions)
    ensures store.nextGameId == old(store.nextGameId) && store.categoryIds == old(store.categoryIds)
    ensures !(gameId in old(store.games) && old(store.games)[gameId].userId == userId) ==>
      && r == Err(Error(404, "Game not found"))
      && store.games == old(store.games) && store.users == old(store.users)
      && store.achievements == old(store.achievements)
    ensures gameId in old(store.games) && old(store.games)[gameId].userId == userId ==>
      var game := old(store.games)[gameId];
      var t := TallyOf(SlotsOf(old(store.gameQuestions), gameId), old(store.questions));
      var xp := CalculateXp(game.gameMode, t.score, t.correctAnswers, "medium");
      var coins := CalculateCoins(t.score, t.correctAnswers);
      && store.games == old(store.games)[gameId := CompletedGame(game, t, xp, coins, today)]
      && userId in old(store.users) && r.Ok?
      && (var user := old(store.users)[userId];
            var updated := UserAfterCompletion(user, xp, coins, t.correctAnswers, today);
            var unlocked := Names(CheckAchievements(AchievementUser(updated.totalGames, updated.currentStreak),
                                                    GameData(game.gameMode, t.correctAnswers, t.totalQuestions)));
            && store.users == old(store.users)[userId := updated]
            && store.achievements == UnlockAll(old(store.achievements), userId, unlocked, today)
            && r == Ok(Completion(t.score, t.correctAnswers, t.totalQuestions,
                                  Accuracy(t.correctAnswers, t.totalQuestions), xp, coins,
                                  updated.level, LeveledUp(user, xp), unlocked, updated.currentStreak)))
  {
    if !(gameId in store.games && store.games[gameId].userId == userId) {
      return Err(Error(404, "Game not found"));
    }
    var game := store.games[gameId];
    var questions := store.questions;
    var rows := SlotsOf(store.gameQuestions, gameId);

    var totalQuestions := |rows|;
    var answered := AnsweredSlots(rows);
    var correctAnswers := CountCorrect(answered);

    var totalScore := SumScore(answered, questions);
    var t := Tally(totalQuestions, correctAnswers, totalScore);
    assert t == TallyOf(rows, questions);

    var xpEarned := CalculateXp(game.gameMode, totalScore, correctAnswers, "medium");
    var coinsEarned := CalculateCoins(totalScore, correctAnswers);
    store.UpdateGame(gameId, CompletedGame(game, t, xpEarned, coinsEarned, today));

    var user := store.users[userId];
    var updated := UserAfterCompletion(user, xpEarned, coinsEarned, correctAnswers, today);
    store.UpdateUser(userId, updated);

    var newAchievements := Names(CheckAchievements(AchievementUser(updated.totalGames, updated.currentStreak),
                                                   GameData(game.gameMode, correctAnswers, totalQuestions)));
    UnlockAchievements(store, userId, newAchievements, today);

    r := Ok(Completion(totalScore, correctAnswers, totalQuestions,
                       Accuracy(correctAnswers, totalQuestions), xpEarned, coinsEarned,
                       updated.level, LeveledUp(user, xpEarned), newAchievements, updated.currentStreak));
  }

  /** Completion is not idempotent: completing the same game twice awards
      its experience and coins twice. */
  method CompleteTwice(store: Store, gameId: int, userId: int, today: int) returns (r1: Result<Completion>, r2: Result<Completion>)
    requires store.Valid()
    requires gameId in store.games && store.games[gameId].userId == userId && userId in store.users
    modifies store
    ensures r1.Ok? && r2.Ok? && r1.value.xpEarned == r2.value.xpEarned
    ensures userId in store.users
    ensures store.users[userId].xp == old(store.users[userId].xp) + 2 * r1.value.xpEarned
    ensures store.users[userId].coins == old(store.users[userId].coins) + 2 * r1.value.coinsEarned
    ensures store.users[userId].totalGames == old(store.users[userId].totalGames) + 2
  {
    r1 := CompleteGame(store, gameId, userId, today);
    r2 := CompleteGame(store, gameId, userId, today);
  }

  // ------------------------------------------------------------------
  // getGameHistory
  // ------------------------------------------------------------------

  /** A completed game of the user with its category's name, as the query
      returns them (newest completion first). */
  datatype HistoryRow = HistoryRow(game: Game, categoryName: Option<string>)

  datatype HistoryEntry = HistoryEntry(
    id: int, gameMode: string, category: string, score: int, correctAnswers: int,
    totalQuestions: int, accuracy: int, xpEarned: int, coinsEarned: int, completedAt: Option<int>)

  datatype Pagination = Pagination(currentPage: int, totalPages: int, totalGames: int, hasNext: bool, hasPrev: bool)

  datatype History = History(games: seq<HistoryEntry>, pagination: Pagination)

  function EntryOf(row: HistoryRow): HistoryEntry
  {
    var g := row.game;
    HistoryEntry(g.id, g.gameMode,
                 if row.categoryName.Some? && row.categoryName.value != "" then row.categoryName.value else "Mixed",
                 g.score, g.correctAnswers, g.totalQuestions, Accuracy(g.correctAnswers, g.totalQuestions),
                 g.xpEarned, g.coinsEarned, g.completedAt)
  }

  /** The formatted entries of some rows, in order. */
  function Entries(rows: seq<HistoryRow>): (entries: seq<HistoryEntry>)
    ensures |entries| == |rows|
    ensures forall i :: 0 <= i < |rows| ==> entries[i] == EntryOf(rows[i])
  {
    seq(|rows|, i requires 0 <= i < |rows| => EntryOf(rows[i]))
  }

  /** `Math.ceil(count / limit)` as integer division: the page count covers
      every game with the last page non-empty, and a page follows page
      `page` exactly when the games do not fit on the pages up to it. */
  lemma PageCount(count: nat, limit: int, page: int)
    requires limit >= 1 && page >= 1
    ensures var pages := (count + limit - 1) / limit;
      && (page < pages <==> page * limit < count)
      && (count == 0 ==> pages == 0)
      && (count > 0 ==> (pages - 1) * limit < count <= pages * limit)
  {
    var pages := (count + limit - 1) / limit;
    var rem := (count + limit - 1) % limit;
    assert count + limit - 1 == pages * limit + rem && 0 <= rem < limit;
    var m := pages * limit;
    assert (pages - 1) * limit == m - limit;
    if page < pages {
      MulLe(limit, page + 1, pages);
      assert limit * (page + 1) == page * limit + limit;
    } else {
      MulLe(limit, pages, page);
    }
    if count == 0 {
      if pages >= 1 {
        MulLe(limit, 1, pages);
      } else if pages <= -1 {
        MulLe(limit, pages, -1);
      }
    }
  }

  /** The pagination block for `count` games, page `page` of size `limit`. */
  function Paginate(count: nat, page: int, limit: int): (p: Pagination)
    requires page >= 1 && limit >= 1
    ensures p.totalGames == count && p.currentPage == page
    ensures (p.totalPages - 1) * limit < count <= p.totalPages * limit || (count == 0 && p.totalPages == 0)
    ensures p.hasNext <==> page * limit < count
    ensures p.hasPrev <==> page > 1
  {
    var totalPages := (count + limit - 1) / limit;
    PageCount(count, limit, page);
    Pagination(page, totalPages, count, page < totalPages, page > 1)
  }

  /** The number of games on the pages before page `page`. */
  function Offset(page: int, limit: int): (offset: nat)
    requires page >= 1 && limit >= 1
    ensures offset == (page - 1) * limit
  {
    MulLe(limit, 0, page - 1);
    (page - 1) * limit
  }

  /** getGameHistory over the user's completed games: page `page` of size
      `limit`, the page count rounded up, and whether pages follow or precede. */
  function GetGameHistory(completed: seq<HistoryRow>, page: int, limit: int): (h: History)
    requires page >= 1 && limit >= 1
    ensures var offset := Offset(page, limit);
      && |h.games| == (if offset >= |completed| then 0 else Min(limit, |completed| - offset))
      && forall i :: 0 <= i < |h.games| ==> h.games[i] == EntryOf(completed[offset + i])
    ensures h.pagination == Paginate(|completed|, page, limit)
  {
    History(Entries(PageRows(completed, Offset(page, limit), limit)), Paginate(|completed|, page, limit))
  }
}
