/** Euclidean division, for a divisor that is not a literal. */
module Arithmetic {

  type Positive = n: int | n > 0 witness 1

  function Max(a: int, b: int): int {
    if a < b then b else a
  }

  lemma {:induction false} RemainderUnique(a: int, k: int, q: int, r: int)
    requires 0 <= r < k && a == q * k + r
    ensures a % k == r && a / k == q
  {
    var d := a / k - q;
    assert d * k == r - a % k;
    MultipleIsFar(d, k);
  }

  lemma {:induction false} MultipleIsFar(d: int, k: int)
    requires k > 0
    ensures d >= 1 ==> d * k >= k
    ensures d <= -1 ==> d * k <= -k
  {
  }

  // The greatest multiple of k up to a.
  lemma {:induction false} LastMultiple(a: int, k: int)
    requires 0 <= a && 0 < k
    ensures 0 <= a - a % k <= a && (a - a % k) % k == 0
  {
    var q := a / k;
    assert a - a % k == q * k;
    MultipleIsFar(q, k);
    RemainderUnique(q * k, k, q, 0);
  }
}
