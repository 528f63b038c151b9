/** What several modules need: optional values, sequences without repeats, and order facts about
    products and quotients. */
module Common {
  datatype Option<+T> = None | Some(value: T)

  ghost predicate Distinct<T>(s: seq<T>) {
    forall i, j :: 0 <= i < j < |s| ==> s[i] != s[j]
  }

  /** The first `n` elements, or all when there are fewer. */
  function Take<T>(s: seq<T>, n: nat): (r: seq<T>)
    ensures |r| == if n <= |s| then n else |s|
  {
    if n <= |s| then s[..n] else s
  }

  lemma {:induction false} Scale(k: real, x: real, y: real)
    requires k >= 0.0 && x <= y
    ensures k * x <= k * y && x * k <= y * k
  {
  }

  lemma {:induction false} StrictScale(k: real, x: real, y: real)
    requires k > 0.0 && x < y
    ensures k * x < k * y && x * k < y * k
  {
  }

  lemma {:induction false} Cancel(x: real, y: real, k: real)
    requires k > 0.0 && x * k <= y * k
    ensures x <= y
  {
    if x > y {
      StrictScale(k, y, x);
    }
  }

  lemma {:induction false} ProductPositive(x: real, y: real)
    requires x > 0.0 && y > 0.0
    ensures x * y > 0.0
  {
  }

  lemma {:induction false} AtLeast(k: int, n: nat)
    requires k >= 1
    ensures k * n >= n
  {
  }

  /** A quotient, multiplied back by the divisor. */
  lemma {:induction false} QuotientTimes(n: real, d: real)
    requires d != 0.0
    ensures n / d * d == n
  {
  }
}
