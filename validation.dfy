/** The request-body validators that run before the auth and game routes.
    Each checks the body against a schema, in the schema's key order, and
    either answers 400 with the first problem found or passes the request
    on to the next handler. */
module Validation {
  import opened Common
  import opened SqlStore
  import opened SqlRewards

  /** A parsed JSON value. A number that is not an integer is `JFraction`;
      its value is irrelevant to every rule here. */
  datatype Json =
    | JNull
    | JBool(b: bool)
    | JInt(i: int)
    | JFraction
    | JStr(s: string)
    | JArr(items: seq<Json>)
    | JObj(fields: map<string, Json>)

  /** The first problem of a rejected body. */
  datatype Failure = Missing(key: string) | Invalid(key: string) | NotAllowed

  /** A middleware outcome: call `next`, or answer 400 without calling it. */
  datatype Outcome = Next | BadRequest(failure: Failure)

  /** Largest integer Joi accepts without an "unsafe number" error: 2^53 - 1. */
  const MaxSafeInteger: int := 0x1F_FFFF_FFFF_FFFF

  predicate AlphaNumChar(c: char)
  {
    ('a' <= c <= 'z') || ('A' <= c <= 'Z') || ('0' <= c <= '9')
  }

  /** `Joi.string().alphanum().min(3).max(30)`. */
  predicate ValidUsername(v: Json)
  {
    v.JStr? && 3 <= |v.s| <= 30 && forall k :: 0 <= k < |v.s| ==> AlphaNumChar(v.s[k])
  }

  /** An address `local@domain.tld`: one '@' with text before it, and a dot
      inside the part after it. */
  predicate IsEmail(s: string)
  {
    exists at :: 0 < at < |s| && s[at] == '@' && '@' !in s[..at] && '@' !in s[at + 1..] &&
      exists dot :: at + 1 < dot < |s| - 1 && s[dot] == '.'
  }

  /** `Joi.string().email()`. */
  predicate ValidEmail(v: Json)
  {
    v.JStr? && IsEmail(v.s)
  }

  /** `Joi.string().min(6)` for registration; a Joi string is never empty. */
  predicate ValidNewPassword(v: Json)
  {
    v.JStr? && |v.s| >= 6
  }

  /** `Joi.string()` for login: any non-empty string. */
  predicate ValidPassword(v: Json)
  {
    v.JStr? && |v.s| >= 1
  }

  /** `Joi.number().integer()` with a lower bound. */
  predicate IntAtLeast(v: Json, lo: int)
  {
    v.JInt? && -MaxSafeInteger <= v.i <= MaxSafeInteger && v.i >= lo
  }

  predicate ValidGameMode(v: Json)
  {
    v.JStr? && SqlMode(v.s)
  }

  predicate NonNegativeInt(v: Json)
  {
    IntAtLeast(v, 0)
  }

  predicate PositiveInt(v: Json)
  {
    IntAtLeast(v, 1)
  }

  predicate AnyInt(v: Json)
  {
    IntAtLeast(v, -MaxSafeInteger)
  }

  predicate AnswerIndex(v: Json)
  {
    IntAtLeast(v, 0) && v.i <= 3
  }

  /** A key is missing, or present and breaking its rule; None when it passes. */
  function CheckField(body: map<string, Json>, key: string, rule: Json -> bool): (f: Option<Failure>)
    ensures f.None? <==> key in body && rule(body[key])
  {
    if key !in body then Some(Missing(key))
    else if !rule(body[key]) then Some(Invalid(key))
    else None
  }

  /** A field check followed by the rest of the schema: the first failure wins. */
  function AndThen(check: Option<Failure>, rest: Outcome): (o: Outcome)
    ensures o.Next? <==> check.None? && rest.Next?
    ensures check.Some? ==> o == BadRequest(check.value)
  {
    if check.Some? then BadRequest(check.value) else rest
  }

  /** After the named keys: any other key is rejected. */
  function OnlyKeys(body: map<string, Json>, allowed: set<string>): (o: Outcome)
    ensures o.Next? <==> body.Keys <= allowed
  {
    if body.Keys <= allowed then Next else BadRequest(NotAllowed)
  }

  /** One `questions_answered` item. */
  predicate ValidAnswerItem(v: Json)
  {
    && v.JObj?
    && v.fields.Keys <= {"question_id", "selected_answer", "time_spent"}
    && "question_id" in v.fields && AnyInt(v.fields["question_id"])
    && "selected_answer" in v.fields && AnswerIndex(v.fields["selected_answer"])
    && "time_spent" in v.fields && NonNegativeInt(v.fields["time_spent"])
  }

  /** `Joi.array().items(...)`. */
  predicate ValidAnswers(v: Json)
  {
    v.JArr? && forall k :: 0 <= k < |v.items| ==> ValidAnswerItem(v.items[k])
  }

  /** validateRegistration. */
  function ValidateRegistration(body: map<string, Json>): (o: Outcome)
    ensures o.Next? <==>
      && body.Keys <= {"username", "email", "password"}
      && "username" in body && ValidUsername(body["username"])
      && "email" in body && ValidEmail(body["email"])
      && "password" in body && ValidNewPassword(body["password"])
    ensures "username" !in body ==> o == BadRequest(Missing("username"))
  {
    AndThen(CheckField(body, "username", ValidUsername),
    AndThen(CheckField(body, "email", ValidEmail),
    AndThen(CheckField(body, "password", ValidNewPassword),
    OnlyKeys(body, {"username", "email", "password"}))))
  }

  /** validateLogin. */
  function ValidateLogin(body: map<string, Json>): (o: Outcome)
    ensures o.Next? <==>
      && body.Keys <= {"email", "password"}
      && "email" in body && ValidEmail(body["email"])
      && "password" in body && ValidPassword(body["password"])
    ensures "email" !in body ==> o == BadRequest(Missing("email"))
  {
    AndThen(CheckField(body, "email", ValidEmail),
    AndThen(CheckField(body, "password", ValidPassword),
    OnlyKeys(body, {"email", "password"})))
  }

  const GameCompleteKeys: set<string> :=
    {"game_mode", "score", "correct_answers", "total_questions", "time_taken", "questions_answered"}

  /** validateGameComplete. */
  function ValidateGameComplete(body: map<string, Json>): (o: Outcome)
    ensures o.Next? <==>
      && body.Keys <= GameCompleteKeys
      && "game_mode" in body && ValidGameMode(body["game_mode"])
      && "score" in body && NonNegativeInt(body["score"])
      && "correct_answers" in body && NonNegativeInt(body["correct_answers"])
      && "total_questions" in body && PositiveInt(body["total_questions"])
      && "time_taken" in body && NonNegativeInt(body["time_taken"])
      && "questions_answered" in body && ValidAnswers(body["questions_answered"])
  {
    AndThen(CheckField(body, "game_mode", ValidGameMode),
    AndThen(CheckField(body, "score", NonNegativeInt),
    AndThen(CheckField(body, "correct_answers", NonNegativeInt),
    AndThen(CheckField(body, "total_questions", PositiveInt),
    AndThen(CheckField(body, "time_taken", NonNegativeInt),
    AndThen(CheckField(body, "questions_answered", ValidAnswers),
    OnlyKeys(body, GameCompleteKeys)))))))
  }

  /** The reported answer of a validated item. */
  function AnswerOf(v: Json): (a: AnswerInput)
    requires ValidAnswerItem(v)
    ensures 0 <= a.selectedAnswer <= 3 && a.timeSpent >= 0
  {
    AnswerInput(v.fields["question_id"].i, v.fields["selected_answer"].i, v.fields["time_spent"].i)
  }

  /** The completion request a validated body describes: an accepted mode,
      non-negative score, answers and time, at least one question, and
      every answer index in 0..3. */
  function RequestOf(body: map<string, Json>): (req: CompleteRequest)
    requires ValidateGameComplete(body).Next?
    ensures SqlMode(req.gameMode)
    ensures req.score >= 0 && req.correctAnswers >= 0 && req.totalQuestions >= 1 && req.timeTaken >= 0
    ensures forall k :: 0 <= k < |req.questionsAnswered| ==> 0 <= req.questionsAnswered[k].selectedAnswer <= 3
  {
    var items := body["questions_answered"].items;
    CompleteRequest(body["game_mode"].s, body["score"].i, body["correct_answers"].i, body["total_questions"].i,
                    body["time_taken"].i, seq(|items|, k requires 0 <= k < |items| => AnswerOf(items[k])))
  }

  /** No rule relates the fields: five correct answers out of one question
      pass validation. */
  lemma MoreCorrectThanTotalAccepted()
    ensures var body := map["game_mode" := JStr("classic"), "score" := JInt(0), "correct_answers" := JInt(5),
                            "total_questions" := JInt(1), "time_taken" := JInt(0), "questions_answered" := JArr([])];
      ValidateGameComplete(body).Next? && RequestOf(body).correctAnswers > RequestOf(body).totalQuestions
  {
    var body := map["game_mode" := JStr("classic"), "score" := JInt(0), "correct_answers" := JInt(5),
                    "total_questions" := JInt(1), "time_taken" := JInt(0), "questions_answered" := JArr([])];
    assert body.Keys == GameCompleteKeys;
  }
}
