/** The tree of indirect blocks of a file: written out in full, and walked down. */
module IndirectTree {

  /** What the disk holds at each index of each block, and how many addresses fit a block. */
  datatype Index = Index(ptr: (nat, nat) -> nat, width: nat)

  function Pow(n: nat, k: nat): (r: nat)
    ensures n > 0 ==> r > 0
  {
    if k == 0 then 1 else n * Pow(n, k - 1)
  }

  // The block map written out

  function Repeat<T>(x: T, n: nat): (r: seq<T>)
    ensures |r| == n && forall i | 0 <= i < n :: r[i] == x
  {
    seq(n, _ => x)
  }

  /** The addresses of all blocks under an address with `levels` indirect levels below it; a
      missing block at any level stands for a hole as large as what it would map. */
  function Expand(x: Index, b: nat, levels: nat): seq<nat>
    requires x.width > 0
    decreases levels, x.width + 1
  {
    if levels == 0 then [b]
    else if b == 0 then Repeat(0, Pow(x.width, levels))
    else Children(x, b, levels, x.width)
  }

  /** The expansions of the first `k` addresses in the indirect block at `b`. */
  function Children(x: Index, b: nat, levels: nat, k: nat): seq<nat>
    requires x.width > 0 && levels > 0 && k <= x.width
    decreases levels, k
  {
    if k == 0 then [] else Children(x, b, levels, k - 1) + Expand(x, x.ptr(b, k - 1), levels - 1)
  }

  // Finding one block of a tree

  /** The walk down an indirect tree to block `n`, stopping at a hole. */
  function Walk(x: Index, b: nat, levels: nat, n: nat): nat
    requires x.width > 0 && n < Pow(x.width, levels)
    decreases levels
  {
    if levels == 0 then b
    else if b == 0 then 0
    else
      var m := Pow(x.width, levels - 1);
      Split(n, x.width, m);
      Walk(x, x.ptr(b, n / m), levels - 1, n % m)
  }

  lemma Split(n: nat, k: nat, m: nat)
    requires m > 0 && n < k * m
    ensures n / m < k && n % m < m && n == (n / m) * m + n % m
  {
    var q := n / m;
    assert q >= k ==> q * m >= k * m;
  }

  lemma WalkStep(x: Index, b: nat, levels: nat, n: nat, m: nat)
    requires x.width > 0 && levels > 0 && b != 0 && n < Pow(x.width, levels) && m == Pow(x.width, levels - 1)
    ensures m > 0 && n / m < x.width && 0 <= n % m < m
    ensures Walk(x, b, levels, n) == Walk(x, x.ptr(b, n / m), levels - 1, n % m)
  {
    Split(n, x.width, m);
  }

  /** Where child `i` starts in an expansion, its brothers being of size `m`. */
  function Offset(m: nat, i: nat): nat {
    if i == 0 then 0 else Offset(m, i - 1) + m
  }

  lemma {:induction false} OffsetIsProduct(m: nat, i: nat)
    ensures Offset(m, i) == i * m
  {
    if i > 0 {
      OffsetIsProduct(m, i - 1);
    }
  }

  lemma {:induction false} ExpandLength(x: Index, b: nat, levels: nat)
    requires x.width > 0
    ensures |Expand(x, b, levels)| == Pow(x.width, levels)
    decreases levels, x.width + 1
  {
    if levels > 0 && b != 0 {
      ChildrenLength(x, b, levels, x.width);
      OffsetIsProduct(Pow(x.width, levels - 1), x.width);
    }
  }

  lemma {:induction false} ChildrenLength(x: Index, b: nat, levels: nat, k: nat)
    requires x.width > 0 && levels > 0 && k <= x.width
    ensures |Children(x, b, levels, k)| == Offset(Pow(x.width, levels - 1), k)
    decreases levels, k
  {
    if k > 0 {
      ChildrenLength(x, b, levels, k - 1);
      ExpandLength(x, x.ptr(b, k - 1), levels - 1);
    }
  }

  /** The walk finds the entry of the written-out map. */
  lemma {:induction false} WalkExpand(x: Index, b: nat, levels: nat, n: nat)
    requires x.width > 0 && n < Pow(x.width, levels)
    ensures n < |Expand(x, b, levels)| && Expand(x, b, levels)[n] == Walk(x, b, levels, n)
    decreases levels, x.width + 1
  {
    ExpandLength(x, b, levels);
    if levels > 0 && b != 0 {
      var m := Pow(x.width, levels - 1);
      WalkStep(x, b, levels, n, m);
      OffsetIsProduct(m, n / m);
      Split(n, x.width, m);
      ChildrenAt(x, b, levels, x.width, n / m, n % m);
    }
  }

  lemma {:induction false} ChildrenAt(x: Index, b: nat, levels: nat, k: nat, i: nat, j: nat)
    requires x.width > 0 && levels > 0 && i < k <= x.width && j < Pow(x.width, levels - 1)
    ensures var p := Offset(Pow(x.width, levels - 1), i) + j;
            p < |Children(x, b, levels, k)| && Children(x, b, levels, k)[p] == Walk(x, x.ptr(b, i), levels - 1, j)
    decreases levels, k
  {
    var p := Offset(Pow(x.width, levels - 1), i) + j;
    if i == k - 1 {
      WalkExpand(x, x.ptr(b, i), levels - 1, j);
      ChildrenLength(x, b, levels, i);
      LastPiece(Children(x, b, levels, i), Expand(x, x.ptr(b, i), levels - 1), j, p);
    } else {
      ChildrenAt(x, b, levels, k - 1, i, j);
      FirstPiece(Children(x, b, levels, k - 1), Expand(x, x.ptr(b, k - 1), levels - 1), p);
    }
  }

  lemma LastPiece(first: seq<nat>, last: seq<nat>, j: nat, p: nat)
    requires j < |last| && p == |first| + j
    ensures p < |first + last| && (first + last)[p] == last[j]
  {
  }

  lemma FirstPiece(first: seq<nat>, last: seq<nat>, p: nat)
    requires p < |first|
    ensures p < |first + last| && (first + last)[p] == first[p]
  {
  }
}
