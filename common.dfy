/** Small shared vocabulary: optional values, error results, truthiness,
    LIMIT/OFFSET slicing, rounding and ASCII case mapping as the JavaScript
    code uses them. */
module Common {

  datatype Option<T> = None | Some(value: T)

  /** An error as the HTTP layer reports it: a status code and a message. */
  datatype Error = Error(status: int, message: string)

  datatype Result<T> = Ok(value: T) | Err(error: Error)

  function Min(a: int, b: int): int { if a <= b then a else b }

  function Max(a: int, b: int): int { if a >= b then a else b }

  /** JavaScript truthiness of an optional id: null and 0 are falsy. */
  predicate Truthy(id: Option<int>)
  {
    id.Some? && id.value != 0
  }

  /** A value a PostgreSQL INTEGER (int4) column or parameter accepts,
      -2^31 up to 2^31 - 1; any other is refused as out of range. */
  predicate Int4(v: int)
  {
    -0x8000_0000 <= v < 0x8000_0000
  }

  /** An optional value binds as int4 (null always does). */
  predicate Int4Opt(v: Option<int>)
  {
    v.None? || Int4(v.value)
  }

  /** The first `n` elements, or all of them when there are fewer (a LIMIT). */
  function Take<T>(s: seq<T>, n: nat): (r: seq<T>)
    ensures |r| == Min(n, |s|)
    ensures r == s[..|r|]
  {
    if n <= |s| then s[..n] else s
  }

  /** The rows of one page: `limit` rows from `offset` on. */
  function PageRows<T>(rows: seq<T>, offset: nat, limit: nat): (page: seq<T>)
    ensures |page| == (if offset >= |rows| then 0 else Min(limit, |rows| - offset))
    ensures forall i :: 0 <= i < |page| ==> page[i] == rows[offset + i]
  {
    if offset >= |rows| then [] else Take(rows[offset..], limit)
  }

  /** `Math.round((c / t) * 100)` for a positive `t`: the integer nearest to
      100·c/t, with an exact half rounded up (as `Math.round` does). */
  function RoundPercent(c: int, t: int): (r: int)
    requires t > 0
    ensures 2 * t * r - t <= 200 * c < 2 * t * r + t
  {
    (200 * c + t) / (2 * t)
  }

  /** A share of `c` out of `t` questions (0 <= c <= t) rounds to a
      percentage in 0..100, to 100 when every question was right and to 0
      when none was. (A rounded 100 need not be a perfect game: 199 out of
      200 is 99.5, which rounds up.) */
  lemma PercentRange(c: int, t: int)
    requires 0 <= c <= t && t > 0
    ensures 0 <= RoundPercent(c, t) <= 100
    ensures c == t ==> RoundPercent(c, t) == 100
    ensures c == 0 ==> RoundPercent(c, t) == 0
  {
    var r := RoundPercent(c, t);
    var k := t * r;
    assert 2 * k - t <= 200 * c < 2 * k + t;
    if r < 0 {
      MulLe(t, r, -1);
      assert false;
    }
    if r > 100 {
      MulLe(t, 101, r);
      assert false;
    }
    if c == t && r < 100 {
      MulLe(t, r, 99);
      assert false;
    }
    if c == 0 && r > 0 {
      MulLe(t, 1, r);
      assert false;
    }
  }

  /** `total > 0 ? Math.round((correct / total) * 100) : 0`: the reported
      accuracy of a game, a rounded percentage, 0 without questions. */
  function Accuracy(correctAnswers: int, totalQuestions: int): (a: int)
    ensures 0 <= correctAnswers <= totalQuestions ==> 0 <= a <= 100
    ensures totalQuestions > 0 && correctAnswers == totalQuestions ==> a == 100
    ensures totalQuestions <= 0 ==> a == 0
  {
    if totalQuestions > 0 then
      if 0 <= correctAnswers <= totalQuestions then
        PercentRange(correctAnswers, totalQuestions);
        RoundPercent(correctAnswers, totalQuestions)
      else RoundPercent(correctAnswers, totalQuestions)
    else 0
  }

  lemma MulLe(t: int, a: int, b: int)
    requires t > 0 && a <= b
    ensures t * a <= t * b
  {
    assert t * b - t * a == t * (b - a);
  }

  function LowerChar(c: char): char {
    if 'A' <= c <= 'Z' then (c as int - 'A' as int + 'a' as int) as char else c
  }

  /** `String.prototype.toLowerCase` restricted to ASCII letters. */
  function Lower(s: string): (r: string)
    ensures |r| == |s|
    ensures forall i :: 0 <= i < |s| ==> r[i] == LowerChar(s[i])
  {
    if s == [] then [] else [LowerChar(s[0])] + Lower(s[1..])
  }

  /** Lowercasing twice changes nothing more than lowercasing once. */
  lemma {:induction false} LowerIdempotent(s: string)
    ensures Lower(Lower(s)) == Lower(s)
  {
    var once := Lower(s);
    assert forall i :: 0 <= i < |s| ==> LowerChar(once[i]) == once[i];
  }
}
