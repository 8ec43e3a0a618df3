/** The C threads allocator: buckets of power-of-two blocks, each with a header that is the
    link of a free list while the block is free, and names the bucket while it is in use. */
module ThreadMalloc {

  import opened FreeLists

  const MIN_SIZE: nat := 8
  const NBUCKETS: nat := 29
  const HEADER: nat := 4      // sizeof(union header)

  /** Memory is byte by byte; a header is a word at the block's first address. */
  datatype State = State(
    heads: seq<nat>,          // first free block of each bucket, or 0
    mem: map<nat, nat>,
    // bookkeeping that the allocator does not read
    blocks: map<nat, nat>,    // the bucket of every block, by the block's address
    free: seq<seq<nat>>,      // the free blocks of each bucket
    taken: set<nat>)          // blocks off their list, with no bucket in the header yet

  /** The size of the blocks of bucket `i`, header and all. */
  function BlockSize(i: nat): nat {
    Doubled(MIN_SIZE, i)
  }

  /** The first bucket whose blocks have `n` bytes. */
  function Bucket(n: nat): nat {
    FirstFit(MIN_SIZE, n, 0)
  }

  // What every operation keeps

  predicate Apart(blocks: map<nat, nat>) {
    && 0 !in blocks
    && (forall a | a in blocks :: blocks[a] < NBUCKETS)
    && (forall a, b | a in blocks && b in blocks && a < b :: a + BlockSize(blocks[a]) <= b)
  }

  predicate Clear(blocks: map<nat, nat>, lo: nat, hi: nat) {
    forall a | a in blocks :: a + BlockSize(blocks[a]) <= lo || hi <= a
  }

  predicate ListOk(k: State, i: nat)
    requires i < |k.heads| && i < |k.free|
  {
    && Chain(k.mem, k.heads[i], k.free[i])
    && NoDup(k.free[i])
    && forall a | a in k.free[i] :: a in k.blocks && k.blocks[a] == i
  }

  /** Not on a free list. */
  predicate Live(k: State, a: nat) {
    a in k.blocks && k.blocks[a] < |k.free| && a !in k.free[k.blocks[a]]
  }

  /** In use: the header names the bucket. */
  predicate Owned(k: State, a: nat) {
    Live(k, a) && a !in k.taken
  }

  predicate Inv(k: State) {
    && Apart(k.blocks)
    && |k.heads| == NBUCKETS && |k.free| == NBUCKETS
    && (forall i | 0 <= i < NBUCKETS :: ListOk(k, i))
    && (forall a | a in k.taken :: Live(k, a))
    && Headers(k)
  }

  predicate HeaderIs(mem: map<nat, nat>, a: nat, i: nat) {
    WholeWord(mem, a) && mem[a] == i
  }

  predicate Headers(k: State) {
    forall a | a in k.blocks && Owned(k, a) :: HeaderIs(k.mem, a, k.blocks[a])
  }

  /** Block `a` and what is in it are left alone. */
  predicate Respects(k: State, u: State, a: nat) {
    && Live(k, a) && Live(u, a) && u.blocks[a] == k.blocks[a] && (a in u.taken <==> a in k.taken)
    && forall x | a <= x < a + BlockSize(k.blocks[a]) ::
         (x in u.mem <==> x in k.mem) && (x in k.mem ==> u.mem[x] == k.mem[x])
  }

  // The steps

  /** Takes the first free block off its list. */
  function Pop(k: State, i: nat): State
    requires Inv(k) && i < NBUCKETS && |k.free[i]| > 0
  {
    assert ListOk(k, i);
    k.(heads := k.heads[i := k.mem[k.heads[i]]],
       free := k.free[i := k.free[i][1..]],
       taken := k.taken + {k.heads[i]})
  }

  /** Names a block's bucket in its header. */
  function Name(k: State, h: nat): State
    requires h in k.blocks
  {
    k.(mem := StoreWord(k.mem, h, k.blocks[h]), taken := k.taken - {h})
  }

  /** Links a block, new or used, in front of a list. */
  function Push(k: State, i: nat, a: nat): State
    requires |k.heads| == NBUCKETS && |k.free| == NBUCKETS && i < NBUCKETS
  {
    k.(mem := StoreWord(k.mem, a, k.heads[i]),
       heads := k.heads[i := a],
       blocks := k.blocks[a := i],
       free := k.free[i := [a] + k.free[i]])
  }

  /** Two blocks have no byte of their first words in common. */
  lemma WordsApart(blocks: map<nat, nat>, a: nat, b: nat)
    requires Apart(blocks) && a in blocks && b in blocks && a != b
    ensures a + WORD <= b || b + WORD <= a
  {
  }

  lemma PopKeeps(k: State, i: nat)
    requires Inv(k) && i < NBUCKETS && |k.free[i]| > 0
    ensures Inv(Pop(k, i)) && k.heads[i] in Pop(k, i).taken && !Live(k, k.heads[i])
  {
    var u, l, h := Pop(k, i), k.free[i], k.heads[i];
    assert ListOk(k, i) && l[0] in l;
    forall j | 0 <= j < NBUCKETS ensures ListOk(u, j) {
      assert ListOk(k, j);
      assert forall a | a in l[1..] :: a in l;
    }
    forall a | a in u.blocks && Owned(u, a) ensures HeaderIs(u.mem, a, u.blocks[a]) {
      assert Owned(k, a);
    }
  }

  lemma PopRespects(k: State, i: nat)
    requires Inv(k) && i < NBUCKETS && |k.free[i]| > 0
    ensures RespectsBut(k, Pop(k, i), 0)
  {
    var l, h := k.free[i], k.heads[i];
    assert ListOk(k, i) && l[0] in l;
    forall b | b in k.blocks && Live(k, b) ensures Respects(k, Pop(k, i), b) {
      assert b != h;
    }
  }

  /** Naming a bucket spoils no list and no other header. */
  lemma NameKeeps(k: State, h: nat)
    requires Inv(k) && h in k.taken
    ensures Inv(Name(k, h)) && Owned(Name(k, h), h) && RespectsBut(k, Name(k, h), h)
  {
    var u := Name(k, h);
    forall j | 0 <= j < NBUCKETS ensures ListOk(u, j) {
      NameList(k, h, j);
    }
    NameHeaders(k, h);
    assert forall a | a in k.blocks :: Live(u, a) <==> Live(k, a);
  }

  lemma NameHeaders(k: State, h: nat)
    requires Inv(k) && h in k.taken
    ensures Headers(Name(k, h))
  {
    var u := Name(k, h);
    forall a | a in u.blocks && Owned(u, a) ensures HeaderIs(u.mem, a, u.blocks[a]) {
      if a != h {
        assert Owned(k, a);
        WordsApart(k.blocks, h, a);
        StoreElsewhere(k.mem, h, k.blocks[h], a);
      }
    }
  }

  lemma NameList(k: State, h: nat, j: nat)
    requires Inv(k) && h in k.taken && j < NBUCKETS
    ensures ListOk(Name(k, h), j)
  {
    assert ListOk(k, j);
    forall a | a in k.free[j] ensures SameWord(k.mem, Name(k, h).mem, a) {
      WordsApart(k.blocks, h, a);
      StoreElsewhere(k.mem, h, k.blocks[h], a);
    }
    ChainFrame(k.mem, Name(k, h).mem, k.heads[j], k.free[j]);
  }

  /** A block can be put on a list if it is in use there, or new and clear of all others. */
  predicate CanPush(k: State, i: nat, a: nat) {
    if a in k.blocks then Owned(k, a) && k.blocks[a] == i
    else a > 0 && Clear(k.blocks, a, a + BlockSize(i))
  }

  lemma PushKeeps(k: State, i: nat, a: nat)
    requires Inv(k) && i < NBUCKETS && CanPush(k, i, a)
    ensures Inv(Push(k, i, a)) && !Live(Push(k, i, a), a)
  {
    var u := Push(k, i, a);
    forall j | 0 <= j < NBUCKETS ensures ListOk(u, j) {
      PushList(k, i, a, j);
    }
    PushBlocks(k, i, a);
    PushHeaders(k, i, a);
  }

  lemma PushBlocks(k: State, i: nat, a: nat)
    requires Inv(k) && i < NBUCKETS && CanPush(k, i, a)
    ensures var u := Push(k, i, a); Apart(u.blocks) && !Live(u, a) && forall b | b in u.taken :: Live(u, b)
  {
    assert a in Push(k, i, a).free[i];
    assert forall b | b in k.taken :: Live(k, b) && b != a;
  }

  lemma PushList(k: State, i: nat, a: nat, j: nat)
    requires Inv(k) && i < NBUCKETS && CanPush(k, i, a) && j < NBUCKETS
    ensures ListOk(Push(k, i, a), j)
  {
    var u := Push(k, i, a);
    assert ListOk(k, j);
    assert a !in k.free[j];
    forall f | f in k.free[j] ensures SameWord(k.mem, u.mem, f) {
      PushApart(k, i, a, f);
      StoreElsewhere(k.mem, a, k.heads[i], f);
    }
    ChainFrame(k.mem, u.mem, k.heads[j], k.free[j]);
    assert u.free[i][1..] == k.free[i];
  }

  lemma PushApart(k: State, i: nat, a: nat, b: nat)
    requires Inv(k) && CanPush(k, i, a) && b in k.blocks && b != a
    ensures a + WORD <= b || b + WORD <= a
  {
    if a in k.blocks {
      WordsApart(k.blocks, a, b);
    }
  }

  lemma PushHeaders(k: State, i: nat, a: nat)
    requires Inv(k) && i < NBUCKETS && CanPush(k, i, a)
    ensures Headers(Push(k, i, a))
  {
    var u := Push(k, i, a);
    forall b | b in u.blocks && Owned(u, b) ensures HeaderIs(u.mem, b, u.blocks[b]) {
      assert b != a;
      assert Owned(k, b);
      PushApart(k, i, a, b);
      StoreElsewhere(k.mem, a, k.heads[i], b);
    }
  }

  lemma PushRespects(k: State, i: nat, a: nat)
    requires Inv(k) && i < NBUCKETS && CanPush(k, i, a)
    ensures forall b | Live(k, b) && b != a :: Respects(k, Push(k, i, a), b)
  {
  }

  /** The owner of a block writes to it, behind the header. */
  function Write(k: State, x: nat, value: nat): State {
    k.(mem := k.mem[x := value])
  }

  lemma WriteKeeps(k: State, a: nat, x: nat, value: nat)
    requires Inv(k) && Live(k, a) && a + HEADER <= x < a + BlockSize(k.blocks[a])
    ensures Inv(Write(k, x, value)) && Live(Write(k, x, value), a)
    ensures RespectsBut(k, Write(k, x, value), a)
  {
    var u := Write(k, x, value);
    forall j | 0 <= j < NBUCKETS ensures ListOk(u, j) {
      assert ListOk(k, j);
      forall f | f in k.free[j] ensures SameWord(k.mem, u.mem, f) {
        WriteElsewhere(k, a, x, value, f);
      }
      ChainFrame(k.mem, u.mem, k.heads[j], k.free[j]);
    }
    assert forall b :: Live(k, b) ==> Live(u, b);
    forall b | b in u.blocks && Owned(u, b) ensures HeaderIs(u.mem, b, u.blocks[b]) {
      WriteElsewhere(k, a, x, value, b);
      assert Owned(k, b) && HeaderIs(k.mem, b, k.blocks[b]);
    }
  }

  /** A write behind a header spoils neither a header nor a link. */
  lemma WriteElsewhere(k: State, a: nat, x: nat, value: nat, b: nat)
    requires Apart(k.blocks) && a in k.blocks && b in k.blocks && a + HEADER <= x < a + BlockSize(k.blocks[a])
    ensures SameWord(k.mem, Write(k, x, value).mem, b)
  {
  }

  // The allocator

  predicate RespectsBut(k: State, u: State, but: nat) {
    forall b | b in k.blocks && Live(k, b) && b != but :: Respects(k, u, b)
  }

  lemma RespectsOn(k: State, t: State, u: State, but: nat)
    requires RespectsBut(k, t, but) && RespectsBut(t, u, but)
    ensures RespectsBut(k, u, but)
  {
    forall b | b in k.blocks && Live(k, b) && b != but ensures Respects(k, u, b) {
      assert Respects(k, t, b) && Respects(t, u, b);
    }
  }

  /** The blocks `mine` are left alone. */
  predicate RespectsAll(k: State, u: State, mine: set<nat>) {
    forall a | a in mine :: Respects(k, u, a)
  }

  lemma AllOfMore(k: State, u: State, mine: set<nat>, h: nat)
    requires RespectsAll(k, u, mine + {h})
    ensures RespectsAll(k, u, mine) && Respects(k, u, h)
  {
    assert h in mine + {h};
    assert forall a | a in mine :: a in mine + {h};
  }

  lemma AllOn(k: State, t: State, u: State, mine: set<nat>)
    requires RespectsAll(k, t, mine) && RespectsAll(t, u, mine)
    ensures RespectsAll(k, u, mine)
  {
    forall a | a in mine ensures Respects(k, u, a) {
      assert Respects(k, t, a) && Respects(t, u, a);
    }
  }

  /** A step that leaves all blocks alone but one leaves others alone in particular. */
  lemma AllBut(k: State, t: State, u: State, mine: set<nat>, but: nat)
    requires RespectsAll(k, t, mine) && RespectsBut(t, u, but) && but !in mine
    ensures RespectsAll(k, u, mine)
  {
    forall a | a in mine ensures Respects(k, u, a) {
      assert Respects(k, t, a) && Respects(t, u, a);
    }
  }

  /** While block `from` is copied to block `to`, both stay in use and only `to` changes. */
  predicate CopyOk(k: State, u: State, to: nat, from: nat, n: nat) {
    && RespectsBut(k, u, to) && u.blocks == k.blocks && u.taken == k.taken
    && Live(u, to) && n <= Usable(u, to) && Live(k, from) && n <= Usable(k, from)
  }

  lemma CopyMore(k: State, t: State, u: State, a: nat, b: nat, n: nat, x: nat)
    requires a != b && x < n && u == Write(t, a + HEADER + x, Cell(t.mem, b + HEADER + x))
    requires Respects(k, t, b) && n <= Usable(k, b) && Copied(t.mem, k.mem, a + HEADER, b + HEADER, x)
    ensures Copied(u.mem, k.mem, a + HEADER, b + HEADER, x + 1)
  {
    var to, from := a + HEADER, b + HEADER;
    SameCell(k, t, b, from + x);
    forall y | 0 <= y < x + 1 ensures SameAt(u.mem, k.mem, to, from, y) {
      assert y < x ==> SameAt(t.mem, k.mem, to, from, y);
    }
  }

  /** Copies byte `x`, after those before it. */
  lemma CopyStep(k: State, t: State, u: State, a: nat, b: nat, n: nat, x: nat)
    requires a != b && x < n && Inv(t) && u == Write(t, a + HEADER + x, Cell(t.mem, b + HEADER + x))
    requires CopyOk(k, t, a, b, n) && Copied(t.mem, k.mem, a + HEADER, b + HEADER, x)
    ensures Inv(u) && CopyOk(k, u, a, b, n) && Copied(u.mem, k.mem, a + HEADER, b + HEADER, x + 1)
  {
    WriteKeeps(t, a, a + HEADER + x, Cell(t.mem, b + HEADER + x));
    assert Respects(k, t, b);
    CopyMore(k, t, u, a, b, n, x);
    RespectsOn(k, t, u, a);
  }

  /** A copy of a block that was left alone before is a copy of the block as it first was. */
  lemma CopyOf(k: State, t: State, u: State, to: nat, from: nat, n: nat)
    requires to > HEADER && from > HEADER
    requires Respects(k, t, from - HEADER) && n <= Usable(t, from - HEADER)
    requires Copied(u.mem, t.mem, to, from, n)
    ensures Copied(u.mem, k.mem, to, from, n)
  {
    forall x | 0 <= x < n ensures SameAt(u.mem, k.mem, to, from, x) {
      SameCell(k, t, from - HEADER, from + x);
      assert SameAt(u.mem, t.mem, to, from, x);
    }
  }

  /** It stays one as long as the block it is in is left alone. */
  lemma CopyStays(k: State, t: State, u: State, to: nat, from: nat, n: nat)
    requires to > HEADER && Copied(t.mem, k.mem, to, from, n)
    requires Respects(t, u, to - HEADER) && n <= Usable(t, to - HEADER)
    ensures Copied(u.mem, k.mem, to, from, n)
  {
    forall x | 0 <= x < n ensures SameAt(u.mem, k.mem, to, from, x) {
      SameCell(t, u, to - HEADER, to + x);
      assert SameAt(t.mem, k.mem, to, from, x);
    }
  }

  lemma CopyKept(k: State, t: State, u: State, to: nat, from: nat, n: nat, mine: set<nat>)
    requires to > HEADER && Copied(t.mem, k.mem, to, from, n) && RespectsAll(k, t, mine)
    requires RespectsAll(t, u, mine + {to - HEADER}) && Owned(t, to - HEADER) && n <= Usable(t, to - HEADER)
    ensures Copied(u.mem, k.mem, to, from, n) && RespectsAll(k, u, mine) && Respects(t, u, to - HEADER)
  {
    AllOfMore(t, u, mine, to - HEADER);
    AllOn(k, t, u, mine);
    CopyStays(k, t, u, to, from, n);
  }

  lemma AllLive(k: State, u: State, mine: set<nat>)
    requires RespectsAll(k, u, mine)
    ensures forall a | a in mine :: Live(u, a)
  {
    assert forall a | a in mine :: Respects(k, u, a);
  }

  lemma AllSelf(k: State, mine: set<nat>)
    requires forall a | a in mine :: Live(k, a)
    ensures RespectsAll(k, k, mine)
  {
  }

  lemma RespectsSelf(k: State, but: nat)
    ensures RespectsBut(k, k, but)
  {
  }

  lemma LargestFits(n: nat)
    requires n <= BlockSize(NBUCKETS - 1)
    ensures Bucket(n) < NBUCKETS
  {
    var last: nat := NBUCKETS - 1;
    assert Bucket(n) > last ==> BlockSize(last) < n;
  }

  lemma HeadOf(k: State, i: nat)
    requires Inv(k) && i < NBUCKETS
    ensures if k.free[i] == [] then k.heads[i] == 0
            else k.heads[i] == k.free[i][0] != 0 && k.heads[i] in k.blocks && k.blocks[k.heads[i]] == i
  {
    assert ListOk(k, i);
    assert k.free[i] != [] ==> k.free[i][0] in k.free[i];
  }

  lemma HeaderOf(k: State, h: nat)
    requires Inv(k) && Owned(k, h)
    ensures h in k.mem && k.mem[h] == k.blocks[h] < NBUCKETS
  {
  }

  lemma FirstWasNotLive(k: State, u: State, h: nat)
    requires RespectsBut(k, u, 0) && Inv(k) && !Live(u, h)
    ensures !Live(k, h)
  {
    assert h in k.blocks && Live(k, h) && h != 0 ==> Respects(k, u, h);
  }

  lemma PagesFit(page: nat, size: nat)
    requires 0 < size <= page
    ensures page / size >= 1 && page / size * size <= page
  {
  }

  lemma OneLess(n: nat, size: nat)
    requires n > 0
    ensures n * size == (n - 1) * size + size && (n - 1) * size >= 0
  {
  }

  /** `n` blocks have been put in front of a list. */
  predicate Added(now: seq<nat>, was: seq<nat>, n: nat) {
    |now| == |was| + n && now[n..] == was
  }

  lemma AddedMore(h: nat, now: seq<nat>, was: seq<nat>, n: nat)
    requires Added(now, was, n)
    ensures Added([h] + now, was, n + 1)
  {
    assert ([h] + now)[n + 1..] == now[n..];
  }

  function Cell(mem: map<nat, nat>, x: nat): nat {
    if x in mem then mem[x] else 0
  }

  predicate SameAt(mem: map<nat, nat>, was: map<nat, nat>, to: nat, from: nat, x: nat) {
    Cell(mem, to + x) == Cell(was, from + x)
  }

  /** The `n` cells from `to` on are those that were at `from`. */
  predicate Copied(mem: map<nat, nat>, was: map<nat, nat>, to: nat, from: nat, n: nat) {
    forall x | 0 <= x < n :: SameAt(mem, was, to, from, x)
  }

  /** The bytes a block has for its user. */
  function Usable(k: State, a: nat): (r: nat)
    requires a in k.blocks
    ensures r + HEADER == BlockSize(k.blocks[a])
  {
    BlockSize(k.blocks[a]) - HEADER
  }

  function Min(a: nat, b: nat): nat {
    if a < b then a else b
  }

  /** A block that is left alone keeps its contents. */
  lemma SameCell(k: State, u: State, a: nat, x: nat)
    requires Respects(k, u, a) && a <= x < a + BlockSize(k.blocks[a])
    ensures Cell(u.mem, x) == Cell(k.mem, x)
  {
  }

  class Malloc {
    var k: State
    const pageSize: nat

    ghost predicate Valid()
      reads this
    {
      Inv(k)
    }

    constructor (pageSize: nat)
      ensures Valid() && k.blocks == map[]
    {
      this.pageSize := pageSize;
      k := State(seq(NBUCKETS, _ => 0), map[], map[], seq(NBUCKETS, _ => []), {});
    }

    /** more_memory: a page cut into blocks of one bucket, or memory for one large block. */
    method MoreMemory(size: nat, i: nat)
      requires Valid() && i < NBUCKETS && size == BlockSize(i)
      modifies this
      ensures Valid() && RespectsBut(old(k), k, 0)
      ensures forall j | 0 <= j < NBUCKETS && j != i :: k.free[j] == old(k).free[j]
      ensures k == old(k) || Added(k.free[i], old(k).free[i], if size <= pageSize then pageSize / size else 1)
    {
      var amount: nat, n: nat := size, 1;
      if size <= pageSize {
        amount, n := pageSize, pageSize / size;
        PagesFit(pageSize, size);
      }
      var h: int := *;
      if h <= 0 || !Clear(k.blocks, h, h + amount) { return; }
      CutBlocks(h, n, size, i, h + amount);
    }

    /** Cuts `n` blocks off a region that nobody uses. */
    method CutBlocks(start: nat, n: nat, size: nat, i: nat, ghost end: nat)
      requires Valid() && i < NBUCKETS && size == BlockSize(i)
      requires start > 0 && start + n * size <= end && Clear(k.blocks, start, end)
      modifies this
      ensures Valid() && RespectsBut(old(k), k, 0)
      ensures forall j | 0 <= j < NBUCKETS && j != i :: k.free[j] == old(k).free[j]
      ensures Added(k.free[i], old(k).free[i], n)
    {
      var h, left := start, n;
      while left != 0
        invariant Valid() && RespectsBut(old(k), k, 0)
        invariant forall j | 0 <= j < NBUCKETS && j != i :: k.free[j] == old(k).free[j]
        invariant 0 <= left <= n && Added(k.free[i], old(k).free[i], n - left)
        invariant h > 0 && h + left * size <= end && Clear(k.blocks, h, end)
        decreases left
      {
        OneLess(left, size);
        AddedMore(h, k.free[i], old(k).free[i], n - left);
        h := CutBlock(h, size, i, end, old(k));
        left := left - 1;
      }
    }

    /** Puts one new block of a region on its list. */
    method CutBlock(h: nat, size: nat, i: nat, ghost end: nat, ghost k0: State) returns (rest: nat)
      requires Valid() && i < NBUCKETS && size == BlockSize(i) && h > 0 && h + size <= end
      requires Clear(k.blocks, h, end) && RespectsBut(k0, k, 0)
      modifies this
      ensures Valid() && RespectsBut(k0, k, 0) && rest == h + size && Clear(k.blocks, rest, end)
      ensures |k.free| == NBUCKETS && k.free == old(k).free[i := [h] + old(k).free[i]]
    {
      assert h !in k.blocks;
      PushKeeps(k, i, h);
      PushRespects(k, i, h);
      ghost var k1 := k;
      k := Push(k, i, h);
      RespectsOn(k0, k1, k, 0);
      rest := h + size;
    }

    /** What other threads may do while this one holds no lock: anything that keeps the
        invariant and leaves the blocks of this thread alone. */
    method Others(mine: set<nat>)
      requires Valid() && forall a | a in mine :: Live(k, a)
      modifies this
      ensures Valid() && RespectsAll(old(k), k, mine)
    {
      var u :| Inv(u) && RespectsAll(k, u, mine);
      k := u;
    }

    /** What malloc does with the list locked: takes the first free block of bucket `i`, or one of
        new memory. */
    method TakeBlock(i: nat, n: nat) returns (h: nat)
      requires Valid() && i < NBUCKETS && n == BlockSize(i)
      modifies this
      ensures Valid() && RespectsBut(old(k), k, 0)
      ensures h == 0 ==> k == old(k) && k.free[i] == []
      ensures h != 0 ==> h in k.taken && !Live(old(k), h) && k.blocks[h] == i
      ensures old(k).free[i] != [] ==> h == old(k).free[i][0] && k == Pop(old(k), i)
    {
      HeadOf(k, i);
      if k.heads[i] == 0 {
        MoreMemory(n, i);
        HeadOf(k, i);
        if k.heads[i] == 0 { return 0; }
      }
      ghost var k1 := k;
      h := PopBlock(i);
      RespectsOn(old(k), k1, k, 0);
      FirstWasNotLive(old(k), k1, h);
    }

    /** Takes the first free block of a list that has one. */
    method PopBlock(i: nat) returns (h: nat)
      requires Valid() && i < NBUCKETS && |k.free[i]| > 0
      modifies this
      ensures Valid() && k == Pop(old(k), i) && RespectsBut(old(k), k, 0)
      ensures h == old(k).free[i][0] != 0 && h in k.taken && !Live(old(k), h) && k.blocks[h] == i
    {
      HeadOf(k, i);
      PopKeeps(k, i);
      PopRespects(k, i);
      h := k.heads[i];
      k := Pop(k, i);
    }

    /** Writes the header of a block just taken, when others have run since. */
    method WriteHeader(h: nat, mine: set<nat>, ghost k0: State)
      requires Valid() && RespectsAll(k0, k, mine) && h in k.taken && h !in mine
      modifies this
      ensures Valid() && RespectsAll(k0, k, mine) && Owned(k, h) && k.blocks[h] == old(k).blocks[h]
    {
      ghost var k1 := k;
      Others(mine + {h});
      AllOfMore(k1, k, mine, h);
      AllOn(k0, k1, k, mine);
      NameKeeps(k, h);
      ghost var k2 := k;
      k := Name(k, h);
      AllBut(k0, k2, k, mine, h);
    }

    /** malloc: a block with room for the request behind its header, or 0 if there is none free
        of the right size and no new memory. Other threads run before the header is written. `t`
        is the state when the list is unlocked. */
    method Alloc(size: nat, mine: set<nat>) returns (base: nat, ghost t: State)
      requires Valid() && size + HEADER <= BlockSize(NBUCKETS - 1) && forall a | a in mine :: Live(k, a)
      modifies this
      ensures Valid() && RespectsAll(old(k), k, mine)
      ensures size == 0 ==> base == 0
      ensures base == 0 ==> k == old(k)
      ensures base != 0 ==>
                && base > HEADER && Owned(k, base - HEADER) && !Live(old(k), base - HEADER)
                && k.blocks[base - HEADER] == Bucket(size + HEADER) && size + HEADER <= BlockSize(Bucket(size + HEADER))
                && RespectsBut(old(k), t, 0) && base - HEADER in t.taken
      ensures var i := Bucket(size + HEADER);
              && i < NBUCKETS
              && (size > 0 && old(k).free[i] != [] ==> base == old(k).free[i][0] + HEADER && t == Pop(old(k), i))
    {
      LargestFits(size + HEADER);
      t := k;
      AllSelf(k, mine);
      if size == 0 { return 0, t; }
      var n, i := FindBucket(MIN_SIZE, size + HEADER);
      var h := TakeBlock(i, n);
      if h == 0 { return 0, t; }
      t := k;
      AllBut(old(k), old(k), k, mine, 0);
      WriteHeader(h, mine, old(k));
      base := h + HEADER;
    }

    /** free: the block goes on the list of the bucket its header names, the one it came from.
        Other threads run before the list is locked; `t` is the state then. */
    method Free(base: nat, mine: set<nat>) returns (ghost t: State)
      requires Valid() && (base != 0 ==> base > HEADER && Owned(k, base - HEADER) && base - HEADER !in mine)
      requires forall a | a in mine :: Live(k, a)
      modifies this
      ensures Valid() && RespectsAll(old(k), k, mine)
      ensures base == 0 ==> k == old(k)
      ensures base != 0 ==>
                && var h := base - HEADER; var i := old(k).blocks[h];
                && !Live(k, h) && i < NBUCKETS && |t.heads| == |t.free| == NBUCKETS
                && RespectsAll(old(k), t, mine + {h}) && k == Push(t, i, h)
    {
      t := k;
      AllSelf(k, mine);
      if base != 0 {
        t := FreeBlock(base - HEADER, mine);
      }
    }

    /** Finds the list of a block and puts it there. The header is not out of range. */
    method FreeBlock(h: nat, mine: set<nat>) returns (ghost t: State)
      requires Valid() && Owned(k, h) && h !in mine && forall a | a in mine :: Live(k, a)
      modifies this
      ensures Valid() && RespectsAll(old(k), k, mine) && !Live(k, h)
      ensures var i := old(k).blocks[h];
              && i < NBUCKETS && |t.heads| == |t.free| == NBUCKETS
              && RespectsAll(old(k), t, mine + {h}) && k == Push(t, i, h)
    {
      HeaderOf(k, h);
      var i := k.mem[h];
      if i < NBUCKETS {
        Others(mine + {h});
        t := k;
        AllOfMore(old(k), k, mine, h);
        PushBlock(i, h);
        AllBut(old(k), t, k, mine, h);
      }
    }

    /** Puts a block back on its list. */
    method PushBlock(i: nat, h: nat)
      requires Valid() && i < NBUCKETS && Owned(k, h) && k.blocks[h] == i
      modifies this
      ensures Valid() && |old(k).heads| == |old(k).free| == NBUCKETS && k == Push(old(k), i, h)
      ensures !Live(k, h) && RespectsBut(old(k), k, h)
    {
      PushKeeps(k, i, h);
      PushRespects(k, i, h);
      k := Push(k, i, h);
    }

    /** memcpy from one block in use to another. */
    method MemCopy(to: nat, from: nat, n: nat)
      requires Valid() && to > HEADER && from > HEADER && to != from
      requires Live(k, to - HEADER) && Live(k, from - HEADER)
      requires n <= Usable(k, to - HEADER) && n <= Usable(k, from - HEADER)
      modifies this
      ensures Valid() && CopyOk(old(k), k, to - HEADER, from - HEADER, n)
      ensures Copied(k.mem, old(k).mem, to, from, n)
    {
      ghost var a: nat, b: nat := to - HEADER, from - HEADER;
      RespectsSelf(k, a);
      for x := 0 to n
        invariant Valid() && CopyOk(old(k), k, a, b, n)
        invariant Copied(k.mem, old(k).mem, to, from, x)
      {
        ghost var t := k;
        k := Write(k, to + x, Cell(k.mem, from + x));
        CopyStep(old(k), t, k, a, b, n, x);
      }
    }

    /** Copies a block's bytes to a larger or smaller one, and frees it. */
    method Move(base: nat, now: nat, size: nat, mine: set<nat>, ghost k0: State)
      requires Valid() && base > HEADER && now > HEADER && base != now
      requires Owned(k, base - HEADER) && base - HEADER !in mine && now - HEADER !in mine
      requires Owned(k, now - HEADER) && size <= Usable(k, now - HEADER)
      requires RespectsAll(k0, k, mine) && Respects(k0, k, base - HEADER)
      modifies this
      ensures Valid() && RespectsAll(k0, k, mine)
      ensures Owned(k, now - HEADER) && size <= Usable(k, now - HEADER) && !Live(k, base - HEADER)
      ensures Copied(k.mem, k0.mem, now, base, Min(size, Usable(k0, base - HEADER)))
    {
      var made: nat := now - HEADER;
      var n := CopyOver(base, now, size, mine, k0);
      ghost var k1 := k;
      AllLive(k0, k1, mine);
      FreeOld(base, mine + {made});
      CopyKept(k0, k1, k, now, base, n, mine);
    }

    /** free, as realloc calls it. */
    method FreeOld(base: nat, mine: set<nat>)
      requires Valid() && base > HEADER && Owned(k, base - HEADER) && base - HEADER !in mine
      requires forall a | a in mine :: Live(k, a)
      modifies this
      ensures Valid() && RespectsAll(old(k), k, mine) && !Live(k, base - HEADER)
    {
      ghost var t := Free(base, mine);
    }

    /** Copies as many bytes of a block as both hold. */
    method CopyOver(base: nat, now: nat, size: nat, mine: set<nat>, ghost k0: State) returns (n: nat)
      requires Valid() && base > HEADER && now > HEADER && base != now
      requires Owned(k, base - HEADER) && base - HEADER !in mine && now - HEADER !in mine
      requires Owned(k, now - HEADER) && size <= Usable(k, now - HEADER)
      requires RespectsAll(k0, k, mine) && Respects(k0, k, base - HEADER)
      modifies this
      ensures Valid() && RespectsAll(k0, k, mine) && Owned(k, base - HEADER)
      ensures Owned(k, now - HEADER) && size <= Usable(k, now - HEADER)
      ensures n == Min(size, Usable(k0, base - HEADER)) && Copied(k.mem, k0.mem, now, base, n)
    {
      HeaderOf(k, base - HEADER);
      n := Min(size, BlockSize(k.mem[base - HEADER]) - HEADER);
      ghost var k1 := k;
      MemCopy(now, base, n);
      AllBut(k0, k1, k, mine, now - HEADER);
      CopyOf(k0, k1, k, now, base, n);
    }

    /** realloc: on success the old block is free and the new one begins with its bytes, as many
        as both hold; on failure the old block is as it was. The caller's other blocks are left
        alone. */
    method Realloc(base: nat, size: nat, mine: set<nat>) returns (now: nat)
      requires Valid() && (base != 0 ==> base > HEADER && Owned(k, base - HEADER) && base - HEADER !in mine)
      requires size + HEADER <= BlockSize(NBUCKETS - 1) && forall a | a in mine :: Live(k, a)
      modifies this
      ensures Valid() && RespectsAll(old(k), k, mine)
      ensures now != 0 ==> size > 0 && now > HEADER && Owned(k, now - HEADER) && size <= Usable(k, now - HEADER)
      ensures now != 0 ==> !Live(old(k), now - HEADER)
      ensures base != 0 && size == 0 ==> now == 0 && !Live(k, base - HEADER)
      ensures base != 0 && size > 0 && now == 0 ==> k == old(k)
      ensures base != 0 && now != 0 ==>
                && !Live(k, base - HEADER)
                && Copied(k.mem, old(k).mem, now, base, Min(size, Usable(old(k), base - HEADER)))
    {
      if base == 0 {
        ghost var t;
        now, t := Alloc(size, mine);
      } else if size == 0 {
        ghost var t := Free(base, mine);
        now := 0;
      } else {
        now := Resize(base, size, mine);
      }
    }

    /** A new block with the old one's bytes, and the old one freed; or no change. */
    method Resize(base: nat, size: nat, mine: set<nat>) returns (now: nat)
      requires Valid() && base > HEADER && Owned(k, base - HEADER) && base - HEADER !in mine
      requires 0 < size && size + HEADER <= BlockSize(NBUCKETS - 1) && forall a | a in mine :: Live(k, a)
      modifies this
      ensures Valid() && RespectsAll(old(k), k, mine)
      ensures now == 0 ==> k == old(k)
      ensures now != 0 ==>
                && now > HEADER && Owned(k, now - HEADER) && !Live(old(k), now - HEADER)
                && size <= Usable(k, now - HEADER)
                && !Live(k, base - HEADER)
                && Copied(k.mem, old(k).mem, now, base, Min(size, Usable(old(k), base - HEADER)))
    {
      ghost var t;
      now, t := Alloc(size, mine + {base - HEADER});
      AllOfMore(old(k), k, mine, base - HEADER);
      if now != 0 {
        Move(base, now, size, mine, old(k));
      }
    }
  }
}
