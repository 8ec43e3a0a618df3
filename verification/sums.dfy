/** The sum of a weight over the elements of a sequence. */
module Sums {

  function Sum<T>(w: (nat, T) -> int, t: seq<T>): int {
    if |t| == 0 then 0 else Sum(w, t[..|t| - 1]) + w(|t| - 1, t[|t| - 1])
  }

  /** When one element changes and the others keep their weight, the sum changes by that one. */
  lemma {:induction false} SumMove<T>(w: (nat, T) -> int, t: seq<T>, u: seq<T>, n: nat)
    requires n < |t| == |u|
    requires forall m | 0 <= m < |t| && m != n :: w(m, u[m]) == w(m, t[m])
    ensures Sum(w, u) == Sum(w, t) - w(n, t[n]) + w(n, u[n])
  {
    var k := |t| - 1;
    if n == k {
      SumSame(w, t[..k], u[..k]);
    } else {
      SumMove(w, t[..k], u[..k], n);
    }
  }

  lemma {:induction false} SumSame<T>(w: (nat, T) -> int, t: seq<T>, u: seq<T>)
    requires |t| == |u|
    requires forall m | 0 <= m < |t| :: w(m, u[m]) == w(m, t[m])
    ensures Sum(w, u) == Sum(w, t)
  {
    if |t| > 0 {
      SumSame(w, t[..|t| - 1], u[..|t| - 1]);
    }
  }

  lemma {:induction false} SumAtLeast<T>(w: (nat, T) -> int, t: seq<T>, n: nat)
    requires n < |t|
    requires forall m | 0 <= m < |t| :: w(m, t[m]) >= 0
    ensures Sum(w, t) >= w(n, t[n]) >= 0
  {
    var k := |t| - 1;
    if k > 0 {
      SumAtLeast(w, t[..k], if n < k then n else 0);
    }
  }

  lemma {:induction false} SumSome<T>(w: (nat, T) -> int, t: seq<T>)
    requires Sum(w, t) != 0
    ensures exists n | 0 <= n < |t| :: w(n, t[n]) != 0
  {
    var k := |t| - 1;
    if w(k, t[k]) == 0 {
      SumSome(w, t[..k]);
      var n :| 0 <= n < k && w(n, t[..k][n]) != 0;
      assert w(n, t[n]) != 0;
    }
  }

  lemma SumAppend<T>(w: (nat, T) -> int, t: seq<T>, x: T)
    ensures Sum(w, t + [x]) == Sum(w, t) + w(|t|, x)
  {
    assert (t + [x])[..|t|] == t;
  }

  function One(b: bool): nat {
    if b then 1 else 0
  }
}
