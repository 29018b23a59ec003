/** The `Question` model: checking a submitted answer, the client view of a
    question, and the filters of the random-question query with their
    numbered parameters. */
module QuestionModel {
  import opened Common

  /** A question row joined with its category's name, colour and icon. */
  datatype QuestionRow = QuestionRow(
    id: int,
    categoryId: int,
    question: string,
    optionA: string,
    optionB: string,
    optionC: string,
    optionD: string,
    correctAnswer: int,
    difficulty: string,
    hint: Option<string>,
    explanation: Option<string>,
    category: string,
    categoryColor: string,
    categoryIcon: string)

  /** Points of a correct answer: `{easy: 10, medium: 15, hard: 20}[difficulty] || 10`. */
  function QuizPoints(difficulty: string): nat
  {
    if difficulty == "easy" then 10
    else if difficulty == "medium" then 15
    else if difficulty == "hard" then 20
    else 10
  }

  datatype AnswerCheck = AnswerCheck(isCorrect: bool, correctAnswer: int, explanation: Option<string>, pointsEarned: nat)

  /** validateAnswer. `selected` is `parseInt` of the submitted value, None
      for a value that does not parse (NaN equals nothing). */
  function ValidateAnswer(q: QuestionRow, selected: Option<int>): (r: AnswerCheck)
    ensures r.isCorrect <==> selected == Some(q.correctAnswer)
    ensures r.isCorrect ==> r.pointsEarned == QuizPoints(q.difficulty) && r.pointsEarned in {10, 15, 20}
    ensures r.pointsEarned == 0 <==> !r.isCorrect
    ensures r.correctAnswer == q.correctAnswer && r.explanation == q.explanation
  {
    var isCorrect := selected == Some(q.correctAnswer);
    AnswerCheck(isCorrect, q.correctAnswer, q.explanation, if isCorrect then QuizPoints(q.difficulty) else 0)
  }

  /** What a client receives for a question. It has no field for the correct
      answer or the explanation. */
  datatype ClientQuestion = ClientQuestion(
    id: int,
    question: string,
    options: seq<string>,
    category: string,
    categoryColor: string,
    categoryIcon: string,
    difficulty: string,
    hint: Option<string>)

  /** toClient: the four options in the order a, b, c, d. */
  function ToClient(q: QuestionRow): (c: ClientQuestion)
    ensures |c.options| == 4 && c.id == q.id
    ensures c.options[0] == q.optionA && c.options[1] == q.optionB && c.options[2] == q.optionC && c.options[3] == q.optionD
  {
    ClientQuestion(q.id, q.question, [q.optionA, q.optionB, q.optionC, q.optionD], q.category,
                   q.categoryColor, q.categoryIcon, q.difficulty, q.hint)
  }

  /** The client view does not depend on the correct answer or the
      explanation: two questions that differ only there look the same. */
  lemma ToClientHidesAnswer(q: QuestionRow, correctAnswer: int, explanation: Option<string>)
    ensures ToClient(q.(correctAnswer := correctAnswer, explanation := explanation)) == ToClient(q)
  {
  }

  /** findById: the question with that id, or null when there is none. */
  function FindById(rows: seq<QuestionRow>, id: int): (r: Option<QuestionRow>)
    ensures r.Some? ==> r.value in rows && r.value.id == id
    ensures r.None? <==> forall k :: 0 <= k < |rows| ==> rows[k].id != id
  {
    if rows == [] then None
    else if rows[0].id == id then Some(rows[0])
    else FindById(rows[1..], id)
  }

  // ------------------------------------------------------------------
  // The random-question query
  // ------------------------------------------------------------------

  /** A query parameter. */
  datatype Param = TextParam(text: string) | IntParam(value: int)

  /** A WHERE condition, with the 1-based numbers of its placeholders. */
  datatype Condition =
    | DifficultyIs(index: nat)
    | CategoryIs(index: nat)
    | IdNotIn(indexes: seq<nat>)

  /** The conditions (joined by AND; no WHERE when there are none), the
      placeholder number of the LIMIT, and the parameter list. */
  datatype Query = Query(conditions: seq<Condition>, limitIndex: nat, params: seq<Param>)

  /** The parameter a placeholder stands for (None when it is out of range). */
  function Bound(params: seq<Param>, index: nat): Option<Param>
  {
    if 1 <= index <= |params| then Some(params[index - 1]) else None
  }

  /** Whether a question row satisfies one condition. */
  predicate Holds(c: Condition, params: seq<Param>, row: QuestionRow)
  {
    match c
    case DifficultyIs(k) => Bound(params, k) == Some(TextParam(row.difficulty))
    case CategoryIs(k) => Bound(params, k) == Some(IntParam(row.categoryId))
    case IdNotIn(ks) => forall j :: 0 <= j < |ks| ==> Bound(params, ks[j]) != Some(IntParam(row.id))
  }

  /** Whether a row satisfies every condition (the conditions are joined by AND). */
  predicate AllHold(conditions: seq<Condition>, params: seq<Param>, row: QuestionRow)
  {
    forall i :: 0 <= i < |conditions| ==> Holds(conditions[i], params, row)
  }

  /** Whether the query's WHERE clause lets a row through. */
  predicate Selects(q: Query, row: QuestionRow)
  {
    AllHold(q.conditions, q.params, row)
  }

  /** Every placeholder of the condition names one of the first n parameters. */
  predicate InRange(c: Condition, n: nat)
  {
    match c
    case DifficultyIs(k) => 1 <= k <= n
    case CategoryIs(k) => 1 <= k <= n
    case IdNotIn(ks) => forall j :: 0 <= j < |ks| ==> 1 <= ks[j] <= n
  }

  predicate AllInRange(conditions: seq<Condition>, n: nat)
  {
    forall i :: 0 <= i < |conditions| ==> InRange(conditions[i], n)
  }

  /** Whether the condition holds placeholder `$k`. */
  predicate Mentions(c: Condition, k: nat)
  {
    match c
    case DifficultyIs(j) => j == k
    case CategoryIs(j) => j == k
    case IdNotIn(ks) => k in ks
  }

  /** Some condition holds placeholder `$k`. */
  predicate MentionedBy(conditions: seq<Condition>, k: nat)
  {
    exists i :: 0 <= i < |conditions| && Mentions(conditions[i], k)
  }

  /** Every one of the first n parameters has a placeholder in the conditions. */
  predicate Covers(conditions: seq<Condition>, n: nat)
  {
    forall k: nat :: 1 <= k <= n ==> MentionedBy(conditions, k)
  }

  /** Placeholder `$k` appears in the statement: in a condition or as the LIMIT. */
  predicate Referenced(q: Query, k: nat)
  {
    k == q.limitIndex || MentionedBy(q.conditions, k)
  }

  /** Every parameter sent is referenced by the statement. PostgreSQL infers
      a parameter's type from where it is used and refuses a statement with
      an untyped parameter ("could not determine data type of parameter"). */
  predicate Typed(q: Query)
  {
    forall k: nat :: 1 <= k <= |q.params| ==> Referenced(q, k)
  }

  /** A condition that holds every placeholder after the first n extends the
      coverage to m. */
  lemma CoverPush(conditions: seq<Condition>, n: nat, c: Condition, m: nat)
    requires Covers(conditions, n) && n <= m
    requires forall k: nat :: n < k <= m ==> Mentions(c, k)
    ensures Covers(conditions + [c], m)
  {
    var all := conditions + [c];
    forall k: nat | 1 <= k <= m
      ensures MentionedBy(all, k)
    {
      if k <= n {
        assert MentionedBy(conditions, k);
        var i :| 0 <= i < |conditions| && Mentions(conditions[i], k);
        assert all[i] == conditions[i];
      } else {
        assert all[|conditions|] == c;
      }
    }
  }

  /** Pushing parameters does not change the meaning of conditions whose
      placeholders are all bound already. */
  lemma {:induction false} ExtendParams(conditions: seq<Condition>, params: seq<Param>, extra: seq<Param>, row: QuestionRow)
    requires AllInRange(conditions, |params|)
    ensures AllInRange(conditions, |params + extra|)
    ensures AllHold(conditions, params + extra, row) <==> AllHold(conditions, params, row)
  {
    forall i | 0 <= i < |conditions|
      ensures InRange(conditions[i], |params + extra|)
      ensures Holds(conditions[i], params + extra, row) <==> Holds(conditions[i], params, row)
    {
      match conditions[i]
      case DifficultyIs(k) =>
        assert Bound(params + extra, k) == Bound(params, k);
      case CategoryIs(k) =>
        assert Bound(params + extra, k) == Bound(params, k);
      case IdNotIn(ks) =>
        assert forall j :: 0 <= j < |ks| ==> Bound(params + extra, ks[j]) == Bound(params, ks[j]);
    }
  }

  /** ExtendParams for every row at once. */
  lemma ExtendParamsAll(conditions: seq<Condition>, params: seq<Param>, extra: seq<Param>)
    requires AllInRange(conditions, |params|)
    ensures forall row :: AllHold(conditions, params + extra, row) <==> AllHold(conditions, params, row)
  {
    forall row
      ensures AllHold(conditions, params + extra, row) <==> AllHold(conditions, params, row)
    {
      ExtendParams(conditions, params, extra, row);
    }
  }

  /** A condition appended with AND. */
  lemma AppendCondition(conditions: seq<Condition>, c: Condition, params: seq<Param>, row: QuestionRow)
    ensures AllHold(conditions + [c], params, row) <==> AllHold(conditions, params, row) && Holds(c, params, row)
  {
    assert forall i :: 0 <= i < |conditions| ==> (conditions + [c])[i] == conditions[i];
    assert (conditions + [c])[|conditions|] == c;
  }

  /** One filter pushed: the condition is appended, its parameters pushed. */
  lemma PushFilter(conditions: seq<Condition>, params: seq<Param>, c: Condition, extra: seq<Param>, row: QuestionRow)
    requires AllInRange(conditions, |params|) && InRange(c, |params + extra|)
    ensures AllInRange(conditions + [c], |params + extra|)
    ensures AllHold(conditions + [c], params + extra, row) <==> AllHold(conditions, params, row) && Holds(c, params + extra, row)
  {
    ExtendParams(conditions, params, extra, row);
    AppendCondition(conditions, c, params + extra, row);
  }

  /** Only easy, medium and hard are used as a difficulty filter. */
  predicate KnownDifficulty(difficulty: Option<string>)
  {
    difficulty.Some? && difficulty.value in {"easy", "medium", "hard"}
  }

  /** The row has the requested difficulty, when a known one is requested. */
  predicate OfDifficulty(difficulty: Option<string>, row: QuestionRow)
  {
    KnownDifficulty(difficulty) ==> row.difficulty == difficulty.value
  }

  /** The row is in the requested category, when one is requested. */
  predicate OfCategory(category: Option<int>, row: QuestionRow)
  {
    category.Some? ==> row.categoryId == category.value
  }

  /** The rows the caller asks for: of the requested difficulty and
      category, and not among the excluded ids. */
  predicate Wanted(difficulty: Option<string>, category: Option<int>, excludeIds: seq<int>, row: QuestionRow)
  {
    OfDifficulty(difficulty, row) && OfCategory(category, row) && row.id !in excludeIds
  }

  /** The exclude-list placeholders as written: every one of them is
      `$${params.length + 1}`, evaluated before any id is pushed. */
  function ExcludePlaceholdersAsWritten(paramCount: nat, n: nat): seq<nat>
  {
    seq(n, _ => paramCount + 1)
  }

  /** One placeholder per excluded id, numbered after the parameters so far. */
  function ExcludePlaceholders(paramCount: nat, n: nat): (ks: seq<nat>)
    ensures |ks| == n && forall j :: 0 <= j < n ==> ks[j] == paramCount + 1 + j
  {
    seq(n, j => paramCount + 1 + j)
  }

  function IntParams(ids: seq<int>): (ps: seq<Param>)
    ensures |ps| == |ids| && forall j :: 0 <= j < |ids| ==> ps[j] == IntParam(ids[j])
  {
    seq(|ids|, j requires 0 <= j < |ids| => IntParam(ids[j]))
  }

  /** The query getRandomQuestions builds as written. */
  function QueryAsWritten(count: int, difficulty: Option<string>, category: Option<int>, excludeIds: seq<int>): Query
  {
    var (c1, p1) := if KnownDifficulty(difficulty) then ([DifficultyIs(1)], [TextParam(difficulty.value)]) else ([], []);
    var (c2, p2) := if category.Some? then (c1 + [CategoryIs(|p1| + 1)], p1 + [IntParam(category.value)]) else (c1, p1);
    var (c3, p3) := if |excludeIds| > 0 then (c2 + [IdNotIn(ExcludePlaceholdersAsWritten(|p2|, |excludeIds|))], p2 + IntParams(excludeIds)) else (c2, p2);
    Query(c3, |p3| + 1, p3 + [IntParam(Min(count, 50))])
  }

  /** As written, an exclude list of two or more ids pushes a parameter per
      id but names only the first of them, so the parameter right after it
      has no placeholder: the statement is refused, whatever the other
      filters and the count. */
  lemma ExcludeListRefused(count: int, difficulty: Option<string>, category: Option<int>, excludeIds: seq<int>,
                           shuffled: seq<QuestionRow>)
    requires |excludeIds| >= 2
    ensures !Typed(QueryAsWritten(count, difficulty, category, excludeIds))
    ensures Run(QueryAsWritten(count, difficulty, category, excludeIds), shuffled).None?
  {
    var q := QueryAsWritten(count, difficulty, category, excludeIds);
    var m := (if KnownDifficulty(difficulty) then 1 else 0) + (if category.Some? then 1 else 0);
    var ks := ExcludePlaceholdersAsWritten(m, |excludeIds|);
    assert |q.params| == m + |excludeIds| + 1 == q.limitIndex;
    assert q.conditions[|q.conditions| - 1] == IdNotIn(ks);
    forall i | 0 <= i < |q.conditions|
      ensures !Mentions(q.conditions[i], m + 2)
    {
      if i == |q.conditions| - 1 {
        assert forall j :: 0 <= j < |ks| ==> ks[j] == m + 1;
      }
    }
    assert !Referenced(q, m + 2);
  }

  /** getRandomQuestions as written, with the query above. It fails for a
      negative count, and for every list of two or more excluded ids. */
  function GetRandomQuestionsAsWritten(count: int, difficulty: Option<string>, categoryId: Option<int>, excludeIds: seq<int>,
                                       shuffled: seq<QuestionRow>): (r: Option<seq<QuestionRow>>)
    ensures count < 0 || |excludeIds| >= 2 ==> r.None?
    ensures r.Some? ==> |r.value| <= Min(count, 50)
  {
    var category := if Truthy(categoryId) then categoryId else None;
    var q := QueryAsWritten(count, difficulty, category, excludeIds);
    assert Bound(q.params, q.limitIndex) == Some(IntParam(Min(count, 50)));
    assert |excludeIds| >= 2 ==> Run(q, shuffled).None? by {
      if |excludeIds| >= 2 {
        ExcludeListRefused(count, difficulty, category, excludeIds, shuffled);
      }
    }
    Run(q, shuffled)
  }

  /** As written, one excluded id is bound where it is named: the refusal
      needs a second one. */
  lemma SingleExcludeTyped(count: int, excludeId: int)
    ensures Typed(QueryAsWritten(count, None, None, [excludeId]))
  {
    var q := QueryAsWritten(count, None, None, [excludeId]);
    assert ExcludePlaceholdersAsWritten(0, 1) == [1];
    assert q.conditions == [IdNotIn([1])];
    assert Mentions(q.conditions[0], 1);
  }

  /** The corrected exclude condition, bound to the ids pushed after the
      parameters so far, keeps out exactly the excluded ids. */
  lemma ExcludeHolds(params: seq<Param>, ids: seq<int>)
    ensures InRange(IdNotIn(ExcludePlaceholders(|params|, |ids|)), |params + IntParams(ids)|)
    ensures forall row :: Holds(IdNotIn(ExcludePlaceholders(|params|, |ids|)), params + IntParams(ids), row) <==> row.id !in ids
  {
    var ks := ExcludePlaceholders(|params|, |ids|);
    var all := params + IntParams(ids);
    forall j | 0 <= j < |ids|
      ensures Bound(all, ks[j]) == Some(IntParam(ids[j]))
    {
      assert all[ks[j] - 1] == IntParams(ids)[j];
    }
  }

  /** One filter pushed, for every row at once: `wanted` is what the
      conditions so far select, `adds` what the new condition selects. */
  lemma PushFilterAll(conditions: seq<Condition>, params: seq<Param>, c: Condition, extra: seq<Param>)
    requires AllInRange(conditions, |params|) && InRange(c, |params + extra|)
    ensures AllInRange(conditions + [c], |params + extra|)
    ensures forall row :: AllHold(conditions + [c], params + extra, row) <==> AllHold(conditions, params, row) && Holds(c, params + extra, row)
  {
    forall row
      ensures AllHold(conditions + [c], params + extra, row) <==> AllHold(conditions, params, row) && Holds(c, params + extra, row)
    {
      PushFilter(conditions, params, c, extra, row);
    }
    PushFilter(conditions, params, c, extra, QuestionRow(0, 0, "", "", "", "", "", 0, "", None, None, "", "", ""));
  }

  /** The conditions, over the parameters pushed so far, select exactly the
      wanted rows and every placeholder is bound. */
  ghost predicate Means(conditions: seq<Condition>, params: seq<Param>,
                        difficulty: Option<string>, category: Option<int>, excludeIds: seq<int>)
  {
    && AllInRange(conditions, |params|)
    && Covers(conditions, |params|)
    && forall row :: AllHold(conditions, params, row) <==> Wanted(difficulty, category, excludeIds, row)
  }

  /** No difficulty filter: the empty WHERE clause. */
  lemma NoDifficultyStep(difficulty: Option<string>)
    requires !KnownDifficulty(difficulty)
    ensures Means([], [], difficulty, None, [])
  {
  }

  /** The difficulty filter, pushed first as `$1`. */
  lemma DifficultyStep(conditions: seq<Condition>, params: seq<Param>, difficulty: Option<string>)
    requires conditions == [] && params == [] && KnownDifficulty(difficulty)
    ensures Means(conditions + [DifficultyIs(|params| + 1)], params + [TextParam(difficulty.value)], difficulty, None, [])
  {
    PushFilterAll(conditions, params, DifficultyIs(|params| + 1), [TextParam(difficulty.value)]);
    CoverPush(conditions, 0, DifficultyIs(1), 1);
  }

  /** The category filter, pushed next. */
  lemma CategoryStep(conditions: seq<Condition>, params: seq<Param>, difficulty: Option<string>, category: int)
    requires Means(conditions, params, difficulty, None, [])
    ensures Means(conditions + [CategoryIs(|params| + 1)], params + [IntParam(category)], difficulty, Some(category), [])
  {
    PushFilterAll(conditions, params, CategoryIs(|params| + 1), [IntParam(category)]);
    CoverPush(conditions, |params|, CategoryIs(|params| + 1), |params| + 1);
  }

  /** The exclude-list filter, one placeholder per id. */
  lemma ExcludeStep(conditions: seq<Condition>, params: seq<Param>, difficulty: Option<string>, category: Option<int>, excludeIds: seq<int>)
    requires Means(conditions, params, difficulty, category, [])
    ensures Means(conditions + [IdNotIn(ExcludePlaceholders(|params|, |excludeIds|))], params + IntParams(excludeIds),
                  difficulty, category, excludeIds)
  {
    var ks := ExcludePlaceholders(|params|, |excludeIds|);
    ExcludeHolds(params, excludeIds);
    PushFilterAll(conditions, params, IdNotIn(ks), IntParams(excludeIds));
    forall k: nat | |params| < k <= |params| + |excludeIds|
      ensures Mentions(IdNotIn(ks), k)
    {
      assert ks[k - |params| - 1] == k;
    }
    CoverPush(conditions, |params|, IdNotIn(ks), |params| + |excludeIds|);
  }

  /** The LIMIT parameter, pushed last, changes nothing in the WHERE clause. */
  lemma LimitStep(conditions: seq<Condition>, params: seq<Param>, difficulty: Option<string>, category: Option<int>, excludeIds: seq<int>, limit: Param)
    requires Means(conditions, params, difficulty, category, excludeIds)
    ensures forall row :: AllHold(conditions, params + [limit], row) <==> Wanted(difficulty, category, excludeIds, row)
    ensures Typed(Query(conditions, |params| + 1, params + [limit]))
  {
    ExtendParamsAll(conditions, params, [limit]);
    var q := Query(conditions, |params| + 1, params + [limit]);
    forall k: nat | 1 <= k <= |q.params|
      ensures Referenced(q, k)
    {
      if k <= |params| {
        assert MentionedBy(conditions, k);
      }
    }
  }

  /** The filter and parameter pushes of getRandomQuestions, with one
      placeholder per excluded id. `category` is the category filter when
      one applies (the callers decide which values do). The query selects
      exactly the wanted rows, every placeholder is bound, every parameter
      is referenced, and the LIMIT `min(count, 50)` is the last parameter. */
  method BuildQuery(count: int, difficulty: Option<string>, category: Option<int>, excludeIds: seq<int>) returns (q: Query)
    ensures forall row :: Selects(q, row) <==> Wanted(difficulty, category, excludeIds, row)
    ensures q.limitIndex == |q.params| >= 1 && q.params[|q.params| - 1] == IntParam(Min(count, 50))
    ensures AllInRange(q.conditions, q.limitIndex - 1)
    ensures Typed(q)
    ensures q.conditions == [] <==> !KnownDifficulty(difficulty) && category.None? && excludeIds == []
  {
    var params: seq<Param> := [];
    var conditions: seq<Condition> := [];
    if KnownDifficulty(difficulty) {
      DifficultyStep(conditions, params, difficulty);
      conditions := conditions + [DifficultyIs(|params| + 1)];
      params := params + [TextParam(difficulty.value)];
    } else {
      NoDifficultyStep(difficulty);
    }
    if category.Some? {
      CategoryStep(conditions, params, difficulty, category.value);
      conditions := conditions + [CategoryIs(|params| + 1)];
      params := params + [IntParam(category.value)];
    } else {
      assert category == None;
    }
    if |excludeIds| > 0 {
      ExcludeStep(conditions, params, difficulty, category, excludeIds);
      conditions := conditions + [IdNotIn(ExcludePlaceholders(|params|, |excludeIds|))];
      params := params + IntParams(excludeIds);
    } else {
      assert excludeIds == [];
    }
    LimitStep(conditions, params, difficulty, category, excludeIds, IntParam(Min(count, 50)));
    params := params + [IntParam(Min(count, 50))];
    q := Query(conditions, |params|, params);
  }

  /** The rows a query's WHERE clause lets through, in table order. */
  function Matching(q: Query, rows: seq<QuestionRow>): seq<QuestionRow>
  {
    if rows == [] then []
    else (if Selects(q, rows[0]) then [rows[0]] else []) + Matching(q, rows[1..])
  }

  /** Matching keeps only rows of the table that the WHERE clause lets through. */
  lemma {:induction false} MatchingSelects(q: Query, rows: seq<QuestionRow>)
    ensures forall x :: x in Matching(q, rows) ==> x in rows && Selects(q, x)
  {
    if rows != [] {
      MatchingSelects(q, rows[1..]);
    }
  }

  /** The wanted rows, in table order. */
  function WantedRows(difficulty: Option<string>, category: Option<int>, excludeIds: seq<int>, rows: seq<QuestionRow>): (r: seq<QuestionRow>)
    ensures forall x :: x in r <==> x in rows && Wanted(difficulty, category, excludeIds, x)
    ensures |r| <= |rows|
  {
    if rows == [] then []
    else (if Wanted(difficulty, category, excludeIds, rows[0]) then [rows[0]] else []) + WantedRows(difficulty, category, excludeIds, rows[1..])
  }

  /** A query that selects exactly the wanted rows returns the wanted rows. */
  lemma {:induction false} MatchingIsWanted(q: Query, difficulty: Option<string>, category: Option<int>, excludeIds: seq<int>, rows: seq<QuestionRow>)
    requires forall row :: Selects(q, row) <==> Wanted(difficulty, category, excludeIds, row)
    ensures Matching(q, rows) == WantedRows(difficulty, category, excludeIds, rows)
  {
    if rows != [] {
      MatchingIsWanted(q, difficulty, category, excludeIds, rows[1..]);
    }
  }

  /** Running the query: `ORDER BY RANDOM()` is the table in the order
      `shuffled` gives, then the WHERE filter and the LIMIT. PostgreSQL
      refuses (None) a statement with an unreferenced parameter and a
      negative LIMIT. */
  function Run(q: Query, shuffled: seq<QuestionRow>): (r: Option<seq<QuestionRow>>)
    ensures r.Some? <==> Typed(q) && exists n: int :: Bound(q.params, q.limitIndex) == Some(IntParam(n)) && n >= 0
    ensures r.Some? ==> |r.value| <= Bound(q.params, q.limitIndex).value.value
    ensures r.Some? ==> forall x :: x in r.value ==> x in shuffled && Selects(q, x)
  {
    if !Typed(q) then None
    else
      match Bound(q.params, q.limitIndex)
      case Some(IntParam(n)) =>
        if n >= 0 then
          MatchingSelects(q, shuffled);
          Some(Take(Matching(q, shuffled), n))
        else None
      case _ => None
  }

  /** getRandomQuestions: at most min(count, 50) of the wanted questions, in
      the random order; `categoryId` filters only when it is truthy. A
      negative count makes the statement fail. */
  method GetRandomQuestions(count: int, difficulty: Option<string>, categoryId: Option<int>, excludeIds: seq<int>,
                            shuffled: seq<QuestionRow>)
    returns (r: Option<seq<QuestionRow>>)
    ensures r.Some? <==> count >= 0
    ensures r.Some? ==>
      var category := if Truthy(categoryId) then categoryId else None;
      && r.value == Take(WantedRows(difficulty, category, excludeIds, shuffled), Min(count, 50))
      && |r.value| <= 50
      && forall x :: x in r.value ==> Wanted(difficulty, category, excludeIds, x)
  {
    var category := if Truthy(categoryId) then categoryId else None;
    var q := BuildQuery(count, difficulty, category, excludeIds);
    MatchingIsWanted(q, difficulty, category, excludeIds, shuffled);
    assert Bound(q.params, q.limitIndex) == Some(IntParam(Min(count, 50)));
    r := Run(q, shuffled);
    if r.Some? {
      assert r.value == Take(WantedRows(difficulty, category, excludeIds, shuffled), Min(count, 50));
      forall x | x in r.value
        ensures Wanted(difficulty, category, excludeIds, x)
      {
        assert x in WantedRows(difficulty, category, excludeIds, shuffled);
      }
    }
  }
}
