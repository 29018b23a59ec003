/** The app's bundled sample questions and the helpers that select from
    them: by category (ignoring case), by difficulty, and a random handful. */
module SampleQuestions {
  import opened Common

  datatype Difficulty = Easy | Medium | Hard

  /** A sample question: its id, answer options, the index of the correct
      option, category and (optional) difficulty. The question, hint and
      explanation texts are not carried. */
  datatype SampleQuestion = SampleQuestion(
    id: int,
    options: seq<string>,
    correctAnswer: int,
    category: string,
    difficulty: Option<Difficulty>)

  const Samples: seq<SampleQuestion> := [
    SampleQuestion(1, ["China", "Japan", "South Korea", "Vietnam"],
      1, "Geography", Some(Easy)),
    SampleQuestion(2, ["Yellow", "White", "Red", "Blue"],
      1, "Geography", Some(Easy)),
    SampleQuestion(3, ["Steven Spielberg", "Christopher Nolan", "Martin Scorsese", "Quentin Tarantino"],
      1, "Movies", Some(Medium)),
    SampleQuestion(4, ["1917", "Joker", "Parasite", "Once Upon a Time in Hollywood"],
      2, "Movies", Some(Medium)),
    SampleQuestion(5, ["Automated Intelligence", "Artificial Intelligence", "Advanced Integration", "Adaptive Interface"],
      1, "Technology", Some(Easy)),
    SampleQuestion(6, ["Microsoft", "Sun Microsystems", "IBM", "Google"],
      1, "Technology", Some(Hard)),
    SampleQuestion(7, ["Saturn", "Jupiter", "Neptune", "Earth"],
      1, "Science", Some(Easy)),
    SampleQuestion(8, ["Osmium", "Oxygen", "Olivine", "Ozone"],
      1, "Science", Some(Easy)),
    SampleQuestion(9, ["1944", "1945", "1946", "1947"],
      1, "History", Some(Medium)),
    SampleQuestion(10, ["Buzz Aldrin", "Neil Armstrong", "John Glenn", "Yuri Gagarin"],
      1, "History", Some(Medium)),
    SampleQuestion(11, ["4", "5", "6", "7"],
      1, "Sports", Some(Easy)),
    SampleQuestion(12, ["Germany", "Argentina", "Brazil", "Italy"],
      2, "Sports", Some(Medium)),
    SampleQuestion(13, ["Pablo Picasso", "Vincent van Gogh", "Claude Monet", "Leonardo da Vinci"],
      1, "Art", Some(Medium)),
    SampleQuestion(14, ["Charlotte Bront\U{c3}\U{ab}", "Jane Austen", "Emily Dickinson", "Virginia Woolf"],
      1, "Literature", Some(Medium)),
    SampleQuestion(15, ["5", "6", "7", "8"],
      1, "Music", Some(Easy))
  ]

  /** A playable question: four options and a correct index among them. */
  predicate WellFormed(q: SampleQuestion)
  {
    |q.options| == 4 && 0 <= q.correctAnswer < 4
  }

  /** The fifteen samples are well formed and numbered 1..15 in order, so
      their ids are distinct. */
  lemma SamplesWellFormed()
    ensures |Samples| == 15
    ensures forall i :: 0 <= i < |Samples| ==> WellFormed(Samples[i]) && Samples[i].id == i + 1
    ensures forall i, j :: 0 <= i < j < |Samples| ==> Samples[i].id != Samples[j].id
  {
  }

  /** The samples whose category equals the given one, ignoring case, in order. */
  function ByCategory(questions: seq<SampleQuestion>, category: string): (r: seq<SampleQuestion>)
    ensures forall q :: q in r <==> q in questions && Lower(q.category) == Lower(category)
    ensures |r| <= |questions|
  {
    if questions == [] then []
    else (if Lower(questions[0].category) == Lower(category) then [questions[0]] else []) + ByCategory(questions[1..], category)
  }

  /** Filtering by category keeps the relative order: it distributes over
      concatenation. */
  lemma {:induction false} ByCategoryAppend(a: seq<SampleQuestion>, b: seq<SampleQuestion>, category: string)
    ensures ByCategory(a + b, category) == ByCategory(a, category) + ByCategory(b, category)
  {
    if a != [] {
      assert (a + b)[1..] == a[1..] + b;
      ByCategoryAppend(a[1..], b, category);
    } else {
      assert a + b == b;
    }
  }

  /** The samples of the given difficulty, in order. */
  function ByDifficulty(questions: seq<SampleQuestion>, difficulty: Difficulty): (r: seq<SampleQuestion>)
    ensures forall q :: q in r <==> q in questions && q.difficulty == Some(difficulty)
    ensures |r| <= |questions|
  {
    if questions == [] then []
    else (if questions[0].difficulty == Some(difficulty) then [questions[0]] else []) + ByDifficulty(questions[1..], difficulty)
  }

  /** Filtering by difficulty keeps the relative order. */
  lemma {:induction false} ByDifficultyAppend(a: seq<SampleQuestion>, b: seq<SampleQuestion>, difficulty: Difficulty)
    ensures ByDifficulty(a + b, difficulty) == ByDifficulty(a, difficulty) + ByDifficulty(b, difficulty)
  {
    if a != [] {
      assert (a + b)[1..] == a[1..] + b;
      ByDifficultyAppend(a[1..], b, difficulty);
    } else {
      assert a + b == b;
    }
  }

  /** getQuestionsByCategory. */
  function GetQuestionsByCategory(category: string): (r: seq<SampleQuestion>)
    ensures forall q :: q in r <==> q in Samples && Lower(q.category) == Lower(category)
  {
    ByCategory(Samples, category)
  }

  /** getQuestionsByDifficulty. */
  function GetQuestionsByDifficulty(difficulty: Difficulty): (r: seq<SampleQuestion>)
    ensures forall q :: q in r <==> q in Samples && q.difficulty == Some(difficulty)
  {
    ByDifficulty(Samples, difficulty)
  }

  /** `slice(0, count)`: a negative count counts back from the end. */
  function Slice<T>(s: seq<T>, count: int): (r: seq<T>)
    ensures count >= 0 ==> |r| == Min(count, |s|)
    ensures count < 0 ==> |r| == Max(0, |s| + count)
    ensures r == s[..|r|]
  {
    if count >= 0 then Take(s, count) else s[..Max(0, |s| + count)]
  }

  /** A sequence with no repeated element. */
  predicate Distinct<T(==)>(s: seq<T>)
  {
    forall i, j :: 0 <= i < j < |s| ==> s[i] != s[j]
  }

  /** A repeated element occurs at least twice in the multiset. */
  lemma RepeatCounted<T>(s: seq<T>, i: nat, j: nat)
    requires i < j < |s| && s[i] == s[j]
    ensures multiset(s)[s[i]] >= 2
  {
    assert s == s[..i] + [s[i]] + s[i + 1..j] + [s[j]] + s[j + 1..];
    assert multiset(s) == multiset(s[..i]) + multiset{s[i]} + multiset(s[i + 1..j]) + multiset{s[j]} + multiset(s[j + 1..]);
  }

  /** No element occurs twice in a sequence without repeats. */
  lemma {:induction false} DistinctCountsOnce<T>(s: seq<T>, x: T)
    requires Distinct(s)
    ensures multiset(s)[x] <= 1
  {
    if s != [] {
      assert Distinct(s[1..]);
      DistinctCountsOnce(s[1..], x);
      assert s == [s[0]] + s[1..];
      if x == s[0] {
        assert x !in s[1..];
      }
    }
  }

  /** A reordering of a sequence without repeats has none either. */
  lemma PermutationDistinct<T>(s: seq<T>, t: seq<T>)
    requires Distinct(s) && multiset(t) == multiset(s)
    ensures Distinct(t)
  {
    forall i, j | 0 <= i < j < |t|
      ensures t[i] != t[j]
    {
      if t[i] == t[j] {
        RepeatCounted(t, i, j);
        DistinctCountsOnce(s, t[i]);
      }
    }
  }

  /** The samples are distinct (their ids are). */
  lemma SamplesDistinct()
    ensures |Samples| == 15 && Distinct(Samples)
  {
    SamplesWellFormed();
  }

  /** The first `count` elements of a reordering of a pool without repeats:
      distinct members of the pool, min(count, |pool|) of them for a
      non-negative count. */
  function RandomPrefix<T>(pool: seq<T>, count: int, shuffled: seq<T>): (r: seq<T>)
    requires multiset(shuffled) == multiset(pool) && Distinct(pool)
    ensures |r| <= |shuffled| && r == shuffled[..|r|]
    ensures count >= 0 ==> |r| == Min(count, |pool|)
    ensures Distinct(r)
    ensures forall q :: q in r ==> q in pool
  {
    PermutationDistinct(pool, shuffled);
    assert |shuffled| == |multiset(shuffled)| == |pool|;
    var r := Slice(shuffled, count);
    assert forall q :: q in r ==> q in multiset(pool);
    r
  }

  /** getRandomQuestions: the first `count` samples of a shuffled copy.
      `shuffled` is the copy after the random sort, some reordering of the
      samples. The result has min(count, 15) distinct samples for a
      non-negative count, and is a prefix of the shuffled copy. */
  function GetRandomQuestions(count: int, shuffled: seq<SampleQuestion>): (r: seq<SampleQuestion>)
    requires multiset(shuffled) == multiset(Samples)
    ensures |r| <= |shuffled| && r == shuffled[..|r|]
    ensures count >= 0 ==> |r| == Min(count, 15)
    ensures Distinct(r)
    ensures forall q :: q in r ==> q in Samples
  {
    SamplesDistinct();
    RandomPrefix(Samples, count, shuffled)
  }
}
