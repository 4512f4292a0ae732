/** Ascending enumerations of an infinite set of integers, one least successor at a time. */
module Enumeration {

  // m is the least member of s after b.
  ghost predicate IsNext(s: iset<int>, b: int, m: int) {
    b < m && m in s && forall k :: b < k < m ==> k !in s
  }

  // What the i-th item was the successor of.
  function Previous(base: int, ms: seq<int>, i: nat): int
    requires i < |ms|
  {
    if i == 0 then base else ms[i - 1]
  }

  function End(base: int, ms: seq<int>): int {
    if ms == [] then base else ms[|ms| - 1]
  }

  ghost predicate Enumerates(s: iset<int>, base: int, ms: seq<int>) {
    forall i {:trigger Previous(base, ms, i)} :: 0 <= i < |ms| ==> IsNext(s, Previous(base, ms, i), ms[i])
  }

  lemma {:induction false} FrontEnumerates(s: iset<int>, base: int, ms: seq<int>)
    requires Enumerates(s, base, ms) && ms != []
    ensures Enumerates(s, base, ms[..|ms| - 1])
    ensures IsNext(s, End(base, ms[..|ms| - 1]), End(base, ms))
  {
    var n := |ms| - 1;
    var front := ms[..n];
    forall i {:trigger Previous(base, front, i)} | 0 <= i < n
      ensures IsNext(s, Previous(base, front, i), front[i])
    {
      assert Previous(base, front, i) == Previous(base, ms, i);
    }
    assert Previous(base, ms, n) == End(base, front);
  }

  lemma {:induction false} Ascends(s: iset<int>, base: int, ms: seq<int>, i: nat, j: nat)
    requires Enumerates(s, base, ms) && i < j < |ms|
    ensures ms[i] < ms[j]
    decreases j
  {
    assert IsNext(s, Previous(base, ms, j), ms[j]);
    if i < j - 1 {
      Ascends(s, base, ms, i, j - 1);
    }
  }

  /** An enumeration holds every member of s after its base up to its end. */
  lemma {:induction false} IsComplete(s: iset<int>, base: int, ms: seq<int>)
    requires Enumerates(s, base, ms)
    ensures base <= End(base, ms)
    ensures forall m :: m in ms <==> m in s && base < m <= End(base, ms)
    decreases |ms|
  {
    if ms != [] {
      var front := ms[..|ms| - 1];
      FrontEnumerates(s, base, ms);
      IsComplete(s, base, front);
      assert ms == front + [End(base, ms)];
    }
  }
}
