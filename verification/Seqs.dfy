/** Sequences without repetition, shared by the models of the kernel's lists and rings. */
module Seqs {

  predicate Distinct<T(==)>(s: seq<T>) {
    forall i, j | 0 <= i < j < |s| :: s[i] != s[j]
  }

  /** The sequence without its k-th element. */
  function Without<T>(s: seq<T>, k: nat): (r: seq<T>)
    requires k < |s|
  {
    s[..k] + s[k + 1..]
  }

  /** n distinct numbers below n include every number below n. */
  lemma {:induction false} Pigeonhole(s: seq<nat>, n: nat, b: nat)
    requires Distinct(s) && |s| == n && (forall i | 0 <= i < n :: s[i] < n) && b < n
    ensures b in s
    decreases n
  {
    if n - 1 in s {
      var k :| 0 <= k < n && s[k] == n - 1;
      if b != n - 1 {
        var r := Without(s, k);
        assert forall i | 0 <= i < n - 1 :: r[i] == if i < k then s[i] else s[i + 1];
        Pigeonhole(r, n - 1, b);
      }
    } else {
      Pigeonhole(s[..n - 1], n - 1, s[n - 1]);
      assert false;
    }
  }

  /** Distinct numbers below n are at most n. */
  lemma {:induction false} AtMost(s: seq<nat>, n: nat)
    requires Distinct(s) && forall i | 0 <= i < |s| :: s[i] < n
    ensures |s| <= n
  {
    if |s| > n {
      Pigeonhole(s[..n], n, s[n]);
      assert false;
    }
  }

  /** Taking the head off, and putting an element in front. */
  lemma HeadTail(s: seq<nat>)
    requires s != [] && Distinct(s)
    ensures Distinct(s[1..]) && forall x :: x in s[1..] <==> x in s && x != s[0]
  {
    forall x | x in s && x != s[0]
      ensures x in s[1..]
    {
      var i :| 0 <= i < |s| && s[i] == x;
      assert s[1..][i - 1] == x;
    }
  }

  lemma InFront(x: nat, s: seq<nat>)
    requires Distinct(s) && x !in s
    ensures Distinct([x] + s) && forall y :: y in [x] + s <==> y == x || y in s
  {
  }
}
