/** The question routes: `/random`, which builds the same filtered query as
    the `Question` model and shapes each row for the client, and
    `/validate`, which checks one answer. */
module QuestionsRoute {
  import opened Common
  import opened QuestionModel

  /** The `filters` echoed back in the reply. */
  datatype Filters = Filters(difficulty: Option<string>, categoryId: Option<int>)

  datatype RandomReply = RandomReply(questions: seq<ClientQuestion>, count: nat, filters: Filters)

  /** The client view of each row, in order. */
  function ClientList(rows: seq<QuestionRow>): (cs: seq<ClientQuestion>)
    ensures |cs| == |rows|
    ensures forall i :: 0 <= i < |rows| ==> cs[i] == ToClient(rows[i])
  {
    seq(|rows|, i requires 0 <= i < |rows| => ToClient(rows[i]))
  }

  /** The client list does not depend on any row's correct answer or
      explanation: the same rows with these replaced give the same list. */
  lemma {:induction false} ClientListHidesAnswers(rows: seq<QuestionRow>, others: seq<QuestionRow>)
    requires |rows| == |others|
    requires forall i :: 0 <= i < |rows| ==>
      others[i] == rows[i].(correctAnswer := others[i].correctAnswer, explanation := others[i].explanation)
    ensures ClientList(rows) == ClientList(others)
  {
    forall i | 0 <= i < |rows|
      ensures ClientList(rows)[i] == ClientList(others)[i]
    {
      ToClientHidesAnswer(rows[i], others[i].correctAnswer, others[i].explanation);
    }
  }

  /** GET /random. `categoryId` is the parsed `category_id` when one was
      sent (any non-empty query value is truthy, so even "0" filters);
      `excludeIds` is the parsed `exclude_ids` list, empty when absent.
      A negative count makes the statement fail: 500. */
  method Random(count: int, difficulty: Option<string>, categoryId: Option<int>, excludeIds: seq<int>,
                shuffled: seq<QuestionRow>)
    returns (r: Result<RandomReply>)
    ensures r.Err? <==> count < 0
    ensures r.Err? ==> r.error == Error(500, "Failed to fetch questions")
    ensures r.Ok? ==>
      var rows := Take(WantedRows(difficulty, categoryId, excludeIds, shuffled), Min(count, 50));
      && r.value.questions == ClientList(rows)
      && r.value.count == |rows| <= 50
      && r.value.filters == Filters(difficulty, categoryId)
  {
    var q := BuildQuery(count, difficulty, categoryId, excludeIds);
    MatchingIsWanted(q, difficulty, categoryId, excludeIds, shuffled);
    assert Bound(q.params, q.limitIndex) == Some(IntParam(Min(count, 50)));
    var rows := Run(q, shuffled);
    if rows.None? {
      return Err(Error(500, "Failed to fetch questions"));
    }
    var questions := ClientList(rows.value);
    r := Ok(RandomReply(questions, |questions|, Filters(difficulty, categoryId)));
  }

  /** GET /random as written: its query numbers every excluded id with the
      same placeholder, so two or more excluded ids, like a negative count,
      end in the 500 reply. */
  function RandomAsWritten(count: int, difficulty: Option<string>, categoryId: Option<int>, excludeIds: seq<int>,
                           shuffled: seq<QuestionRow>): (r: Result<RandomReply>)
    ensures count < 0 || |excludeIds| >= 2 ==> r == Err(Error(500, "Failed to fetch questions"))
    ensures r.Ok? ==> r.value.count <= Min(count, 50) && r.value.filters == Filters(difficulty, categoryId)
  {
    var q := QueryAsWritten(count, difficulty, categoryId, excludeIds);
    assert Bound(q.params, q.limitIndex) == Some(IntParam(Min(count, 50)));
    var rows := Run(q, shuffled);
    assert |excludeIds| >= 2 ==> rows.None? by {
      if |excludeIds| >= 2 {
        ExcludeListRefused(count, difficulty, categoryId, excludeIds, shuffled);
      }
    }
    match rows
    case None => Err(Error(500, "Failed to fetch questions"))
    case Some(rows) => Ok(RandomReply(ClientList(rows), |rows|, Filters(difficulty, categoryId)))
  }

  /** The `selected_answer` field: absent, or present with its `parseInt`
      value (None when it does not parse). */
  datatype Submitted = Undefined | Sent(parsed: Option<int>)

  /** POST /validate: 400 without a truthy question id or without an answer,
      404 for an unknown question, otherwise the answer check of the
      question model. */
  function Validate(questions: seq<QuestionRow>, questionId: Option<int>, selected: Submitted): (r: Result<AnswerCheck>)
    ensures r.Err? && r.error.status == 400 <==> !Truthy(questionId) || selected.Undefined?
    ensures r.Err? && r.error.status == 404 <==>
      Truthy(questionId) && selected.Sent? && forall k :: 0 <= k < |questions| ==> questions[k].id != questionId.value
    ensures r.Ok? ==> exists k :: (0 <= k < |questions| && questions[k].id == questionId.value &&
      r.value == ValidateAnswer(questions[k], selected.parsed))
  {
    if !Truthy(questionId) || selected.Undefined? then
      Err(Error(400, "Question ID and selected answer are required"))
    else
      match FindById(questions, questionId.value)
      case None => Err(Error(404, "Question not found"))
      case Some(q) => Ok(ValidateAnswer(q, selected.parsed))
  }
}
