/** What the two allocators share: sizes that double from bucket to bucket, and free lists whose
    links are words of memory. Queues without repetition are used by the scheduler too. */
module FreeLists {

  predicate NoDup(l: seq<nat>) {
    forall i, j | 0 <= i < j < |l| :: l[i] != l[j]
  }

  const WORD: nat := 4

  /** Memory has a cell for every byte. A word fills four cells, all with its value, and is whole
      as long as none of them is overwritten. */
  predicate WholeWord(mem: map<nat, nat>, a: nat) {
    a in mem && forall x | a <= x < a + WORD :: x in mem && mem[x] == mem[a]
  }

  function StoreWord(mem: map<nat, nat>, a: nat, w: nat): (r: map<nat, nat>)
    ensures forall x: nat :: x in r <==> x in mem || a <= x < a + WORD
    ensures forall x: nat | x in r :: r[x] == if a <= x < a + WORD then w else mem[x]
    ensures WholeWord(r, a)
  {
    mem[a := w][a + 1 := w][a + 2 := w][a + 3 := w]
  }

  predicate SameWord(mem: map<nat, nat>, now: map<nat, nat>, a: nat) {
    forall x | a <= x < a + WORD && x in mem :: x in now && now[x] == mem[x]
  }

  lemma StoreElsewhere(mem: map<nat, nat>, a: nat, w: nat, b: nat)
    requires a + WORD <= b || b + WORD <= a
    ensures SameWord(mem, StoreWord(mem, a, w), b)
  {
  }

  /** The links from `h` on lead through the blocks `l`, each link in its block's first word. */
  predicate Chain(mem: map<nat, nat>, h: nat, l: seq<nat>)
    decreases |l|
  {
    if |l| == 0 then h == 0
    else h == l[0] && h != 0 && WholeWord(mem, h) && Chain(mem, mem[h], l[1..])
  }

  /** A list survives every change of memory outside the first words of its blocks. */
  lemma {:induction false} ChainFrame(mem: map<nat, nat>, now: map<nat, nat>, h: nat, l: seq<nat>)
    requires Chain(mem, h, l) && forall a | a in l :: SameWord(mem, now, a)
    ensures Chain(now, h, l)
    decreases |l|
  {
    if |l| > 0 {
      assert l[0] in l && SameWord(mem, now, l[0]);
      assert forall a | a in l[1..] :: a in l;
      ChainFrame(mem, now, mem[h], l[1..]);
    }
  }

  /** The size of the blocks in bucket `i`. */
  function Doubled(base: nat, i: nat): (r: nat)
    ensures r >= base
  {
    if i == 0 then base else 2 * Doubled(base, i - 1)
  }

  lemma {:induction false} DoubledGrows(base: nat, i: nat, j: nat)
    requires i <= j
    ensures Doubled(base, i) <= Doubled(base, j)
    decreases j - i
  {
    if i < j {
      DoubledGrows(base, i, j - 1);
    }
  }

  lemma DoubledBelow(base: nat, i: nat, j: nat)
    requires Doubled(base, i) < Doubled(base, j)
    ensures i < j
  {
    if i >= j {
      DoubledGrows(base, j, i);
    }
  }

  /** The first bucket, from `i` on, whose blocks hold `n` bytes. */
  function FirstFit(base: nat, n: nat, i: nat): (r: nat)
    requires base > 0
    ensures r >= i && Doubled(base, r) >= n
    ensures forall j | i <= j < r :: Doubled(base, j) < n
    decreases if Doubled(base, i) < n then n - Doubled(base, i) else 0
  {
    if Doubled(base, i) < n then FirstFit(base, n, i + 1) else i
  }

  lemma {:induction false} FirstFitIs(base: nat, n: nat, i: nat, r: nat)
    requires base > 0 && i <= r && Doubled(base, r) >= n && forall j | i <= j < r :: Doubled(base, j) < n
    ensures FirstFit(base, n, i) == r
    decreases r - i
  {
    if i < r {
      FirstFitIs(base, n, i + 1, r);
    }
  }

  /** The doubling loop of kalloc, kfree and malloc: the first bucket large enough. */
  method FindBucket(base: nat, n: nat) returns (size: nat, i: nat)
    requires base > 0
    ensures i == FirstFit(base, n, 0) && size == Doubled(base, i)
  {
    size, i := base, 0;
    while size < n
      invariant size == Doubled(base, i) && forall j | 0 <= j < i :: Doubled(base, j) < n
      decreases n - size
    {
      size, i := 2 * size, i + 1;
    }
    FirstFitIs(base, n, 0, i);
  }
}
