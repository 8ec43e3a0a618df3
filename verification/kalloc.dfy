/** The bootstrap allocator: power-of-two free lists whose links are kept in the free blocks
    themselves, over a space that grows by whole pages. Other threads may run whenever
    kget_space has dropped its lock. */
module KernelAlloc {

  import opened FreeLists

  const MINSIZE: nat := 4
  const KLIST_MAX: nat := 13

  /** What an address range is used for: a block of a free-list class, memory of its own, or
      pages that a thread has mapped and not yet added to the space. */
  datatype Kind = Small(i: nat) | Large | Region

  datatype Extent = Extent(size: nat, kind: Kind)

  datatype Piece = Piece(addr: nat, size: nat)

  datatype State = State(
    next: nat,                // kalloc_next_space
    end: nat,                 // kalloc_end_of_space
    wasted: nat,
    heads: seq<nat>,          // first free block of each class, or 0
    counts: seq<int>,
    mem: map<nat, nat>,       // memory, byte by byte
    // bookkeeping that the allocator does not read
    ext: map<nat, Extent>,    // what each range in use is, by its first address
    free: seq<seq<nat>>,      // the free blocks of each class
    kept: nat,                // space mapped and added
    carved: seq<Piece>)       // the blocks made of it

  function ClassSize(i: nat): nat {
    Doubled(MINSIZE, i)
  }

  /** The first class whose blocks hold `size` bytes. */
  function Class(size: nat): nat {
    FirstFit(MINSIZE, size, 0)
  }

  /** The size that kalloc and kfree make of a request: a class size if the request is below
      the limit, and the request itself if not. */
  method AllocSize(size: nat, max: nat) returns (n: nat, i: nat)
    ensures size < max ==> i == Class(size) && n == ClassSize(i)
    ensures size >= max ==> n == size
    ensures n >= size
  {
    n, i := size, 0;
    if size < max {
      n, i := FindBucket(MINSIZE, size);
    }
  }

  // What every step keeps

  /** The ranges in use do not overlap. */
  predicate Apart(ext: map<nat, Extent>) {
    && 0 !in ext
    && (forall a | a in ext :: ext[a].size > 0)
    && (forall a, b | a in ext && b in ext && a < b :: a + ext[a].size <= b)
  }

  /** No range in use reaches into this one. */
  predicate Clear(ext: map<nat, Extent>, lo: nat, hi: nat) {
    lo < hi ==> forall a | a in ext :: a + ext[a].size <= lo || hi <= a
  }

  /** Class `i` has its list of free blocks, all of its size and each once. */
  predicate ListOk(k: State, i: nat)
    requires i < |k.heads| && i < |k.free| && i < |k.counts|
  {
    && Chain(k.mem, k.heads[i], k.free[i])
    && NoDup(k.free[i])
    && (forall a | a in k.free[i] :: a in k.ext && k.ext[a] == Extent(ClassSize(i), Small(i)))
    && k.counts[i] == |k.free[i]|
  }

  predicate Layout(k: State) {
    && Apart(k.ext)
    && 0 < k.next <= k.end && Clear(k.ext, k.next, k.end)
    && |k.heads| == KLIST_MAX && |k.free| == KLIST_MAX && |k.counts| == KLIST_MAX
    && (forall i | 0 <= i < KLIST_MAX :: ListOk(k, i))
    && (forall a | a in k.ext && k.ext[a].kind.Small? ::
          k.ext[a].kind.i < KLIST_MAX && k.ext[a].size == ClassSize(k.ext[a].kind.i))
  }

  /** The space mapped is what was made into blocks, what is left, and what was wasted. */
  predicate Accounts(k: State) {
    && Pieces(k.ext, k.carved)
    && k.next <= k.end && k.kept == Total(k.carved) + (k.end - k.next) + k.wasted
  }

  predicate Inv(k: State) {
    Layout(k) && Accounts(k)
  }

  function Total(carved: seq<Piece>): nat {
    if |carved| == 0 then 0 else Total(carved[..|carved| - 1]) + carved[|carved| - 1].size
  }

  /** The blocks of the free-list classes are those carved, each once. */
  predicate Pieces(ext: map<nat, Extent>, carved: seq<Piece>) {
    && (forall i, j | 0 <= i < j < |carved| :: carved[i].addr != carved[j].addr)
    && (forall j | 0 <= j < |carved| :: IsPiece(ext, carved[j]))
    && (forall a | a in ext && ext[a].kind.Small? :: Counted(carved, a))
  }

  predicate IsPiece(ext: map<nat, Extent>, p: Piece) {
    p.addr in ext && ext[p.addr].kind.Small? && ext[p.addr].size == p.size
  }

  /** A block that has been handed out, or pages mapped by a thread. */
  predicate Live(k: State, a: nat) {
    a in k.ext && (k.ext[a].kind.Small? ==> k.ext[a].kind.i < |k.free| && a !in k.free[k.ext[a].kind.i])
  }

  /** Block `a` and what is in it are left alone. */
  predicate Respects(k: State, u: State, a: nat) {
    && Live(k, a) && Live(u, a) && u.ext[a] == k.ext[a]
    && forall x | a <= x < a + k.ext[a].size ::
         (x in u.mem <==> x in k.mem) && (x in k.mem ==> u.mem[x] == k.mem[x])
  }

  // The steps, each made with a lock held

  /** Takes the first block off the list of class `i`. */
  function Pop(k: State, i: nat): State
    requires Layout(k) && i < KLIST_MAX && |k.free[i]| > 0
  {
    assert ListOk(k, i);
    k.(heads := k.heads[i := k.mem[k.heads[i]]],
       counts := k.counts[i := k.counts[i] - 1],
       free := k.free[i := k.free[i][1..]])
  }

  /** Puts a block on the list of class `i`: its first word becomes the link. */
  function Push(k: State, i: nat, a: nat): State
    requires Layout(k) && i < KLIST_MAX
  {
    k.(mem := StoreWord(k.mem, a, k.heads[i]),
       heads := k.heads[i := a],
       counts := k.counts[i := k.counts[i] + 1],
       free := k.free[i := [a] + k.free[i]])
  }

  /** Makes a block of class `i` of the space that is left. */
  function Carve(k: State, i: nat): State {
    k.(next := k.next + ClassSize(i),
       ext := k.ext[k.next := Extent(ClassSize(i), Small(i))],
       carved := k.carved + [Piece(k.next, ClassSize(i))])
  }

  /** Adds mapped pages to the space, and wastes what is left of it unless they follow it. */
  function Install(k: State, a: nat): State
    requires a in k.ext && k.next <= k.end
  {
    var n := k.ext[a].size;
    k.(ext := k.ext - {a}, kept := k.kept + n, end := a + n,
       next := if a != k.end then a else k.next,
       wasted := if a != k.end then k.wasted + (k.end - k.next) else k.wasted)
  }

  function Map(k: State, a: nat, n: nat, kind: Kind): State {
    k.(ext := k.ext[a := Extent(n, kind)])
  }

  function Unmap(k: State, a: nat): State {
    k.(ext := k.ext - {a})
  }

  /** What the kernel promises of a range it maps: nothing in use is there. */
  predicate Fresh(k: State, a: nat, n: nat) {
    && a > 0 && n > 0 && Clear(k.ext, a, a + n)
    && (k.next < k.end ==> a + n <= k.next || k.end <= a)
  }

  // Each step keeps the invariant, and every other block

  lemma PopKeeps(k: State, i: nat)
    requires Layout(k) && i < KLIST_MAX && |k.free[i]| > 0
    ensures var u := Pop(k, i); var a := k.heads[i]; Layout(u) && Live(u, a) && !Live(k, a) && u.ext == k.ext
    ensures forall b | Live(k, b) :: Respects(k, Pop(k, i), b)
  {
    var u, l := Pop(k, i), k.free[i];
    assert ListOk(k, i) && l[0] in l;
    assert forall a | a in l[1..] :: a in l;
    forall j | 0 <= j < KLIST_MAX ensures ListOk(u, j) {
      assert ListOk(k, j);
    }
  }

  lemma PushKeeps(k: State, i: nat, a: nat)
    requires Layout(k) && i < KLIST_MAX && Live(k, a) && k.ext[a].kind == Small(i)
    ensures Layout(Push(k, i, a))
    ensures forall b | Live(k, b) && b != a :: Respects(k, Push(k, i, a), b)
  {
    forall j | 0 <= j < KLIST_MAX ensures ListOk(Push(k, i, a), j) {
      PushList(k, i, a, j);
    }
  }

  lemma PushList(k: State, i: nat, a: nat, j: nat)
    requires Layout(k) && i < KLIST_MAX && Live(k, a) && k.ext[a].kind == Small(i) && j < KLIST_MAX
    ensures ListOk(Push(k, i, a), j)
  {
    var u := Push(k, i, a);
    assert ListOk(k, i) && ListOk(k, j);
    assert a !in k.free[j];
    forall f | f in k.free[j] ensures SameWord(k.mem, u.mem, f) {
      StoreElsewhere(k.mem, a, k.heads[i], f);
    }
    ChainFrame(k.mem, u.mem, k.heads[j], k.free[j]);
    assert u.free[i][1..] == k.free[i];
  }

  /** Ranges that are not blocks come and go without changing the blocks. */
  lemma SamePieces(ext: map<nat, Extent>, now: map<nat, Extent>, carved: seq<Piece>)
    requires Pieces(ext, carved)
    requires forall a | a in ext && ext[a].kind.Small? :: a in now && now[a] == ext[a]
    requires forall a | a in now && now[a].kind.Small? :: a in ext && now[a] == ext[a]
    ensures Pieces(now, carved)
  {
    forall j | 0 <= j < |carved| ensures IsPiece(now, carved[j]) {
      assert IsPiece(ext, carved[j]);
    }
  }

  lemma CarveKeeps(k: State, i: nat)
    requires Layout(k) && i < KLIST_MAX && k.next + ClassSize(i) <= k.end
    ensures Layout(Carve(k, i)) && Live(Carve(k, i), k.next) && k.next !in k.ext
    ensures forall b | Live(k, b) :: Respects(k, Carve(k, i), b)
  {
    var u := Carve(k, i);
    assert k.next !in k.ext;
    forall j | 0 <= j < KLIST_MAX ensures ListOk(u, j) {
      assert ListOk(k, j);
    }
    assert ListOk(k, i);
  }

  lemma InstallKeeps(k: State, a: nat)
    requires Layout(k) && a in k.ext && k.ext[a].kind.Region?
    ensures Layout(Install(k, a)) && Install(k, a).end - Install(k, a).next >= k.ext[a].size
    ensures forall b | Live(k, b) && b != a :: Respects(k, Install(k, a), b)
  {
    var u := Install(k, a);
    forall j | 0 <= j < KLIST_MAX ensures ListOk(u, j) {
      assert ListOk(k, j);
    }
  }

  lemma MapKeeps(k: State, a: nat, n: nat, kind: Kind)
    requires Layout(k) && Fresh(k, a, n) && !kind.Small?
    ensures Layout(Map(k, a, n, kind)) && Live(Map(k, a, n, kind), a) && a !in k.ext
    ensures forall b | Live(k, b) :: Respects(k, Map(k, a, n, kind), b)
  {
    var u := Map(k, a, n, kind);
    assert a !in k.ext;
    forall j | 0 <= j < KLIST_MAX ensures ListOk(u, j) {
      assert ListOk(k, j);
    }
  }

  lemma UnmapKeeps(k: State, a: nat)
    requires Layout(k) && a in k.ext && !k.ext[a].kind.Small?
    ensures Layout(Unmap(k, a))
    ensures forall b | Live(k, b) && b != a :: Respects(k, Unmap(k, a), b)
  {
    var u := Unmap(k, a);
    forall j | 0 <= j < KLIST_MAX ensures ListOk(u, j) {
      assert ListOk(k, j);
    }
  }

  /** A thread writes a byte of a block of its own. */
  function Write(k: State, x: nat, value: nat): State {
    k.(mem := k.mem[x := value])
  }

  lemma WriteKeeps(k: State, a: nat, x: nat, value: nat)
    requires Layout(k) && Live(k, a) && a <= x < a + k.ext[a].size
    ensures Layout(Write(k, x, value))
    ensures forall b | Live(k, b) && b != a :: Respects(k, Write(k, x, value), b)
  {
    var u := Write(k, x, value);
    forall j | 0 <= j < KLIST_MAX ensures ListOk(u, j) {
      assert ListOk(k, j);
      forall f | f in k.free[j] ensures SameWord(k.mem, u.mem, f) {
        assert k.ext[f].kind == Small(j);
      }
      ChainFrame(k.mem, u.mem, k.heads[j], k.free[j]);
    }
  }

  // The accounts

  predicate Counted(carved: seq<Piece>, a: nat) {
    exists j | 0 <= j < |carved| :: carved[j].addr == a
  }

  lemma CountedMore(carved: seq<Piece>, p: Piece, a: nat)
    ensures Counted(carved + [p], a) <==> Counted(carved, a) || p.addr == a
  {
    var now := carved + [p];
    if Counted(carved, a) {
      var j :| 0 <= j < |carved| && carved[j].addr == a;
      assert now[j].addr == a;
    }
    assert now[|carved|] == p;
  }

  lemma CarveAccounts(k: State, i: nat)
    requires Accounts(k) && k.next !in k.ext && k.next + ClassSize(i) <= k.end
    ensures Accounts(Carve(k, i))
  {
    var u, p := Carve(k, i), Piece(k.next, ClassSize(i));
    assert u.carved[..|k.carved|] == k.carved;
    forall j | 0 <= j < |k.carved| ensures k.carved[j].addr != k.next && IsPiece(u.ext, k.carved[j]) {
      assert IsPiece(k.ext, k.carved[j]);
    }
    forall a | a in u.ext && u.ext[a].kind.Small? ensures Counted(u.carved, a) {
      CountedMore(k.carved, p, a);
    }
  }

  lemma InstallAccounts(k: State, a: nat)
    requires Accounts(k) && a in k.ext && k.ext[a].kind.Region?
    ensures Accounts(Install(k, a))
  {
    SamePieces(k.ext, k.ext - {a}, k.carved);
  }

  lemma MapAccounts(k: State, a: nat, n: nat, kind: Kind)
    requires Accounts(k) && a !in k.ext && !kind.Small?
    ensures Accounts(Map(k, a, n, kind))
  {
    SamePieces(k.ext, Map(k, a, n, kind).ext, k.carved);
  }

  lemma UnmapAccounts(k: State, a: nat)
    requires Accounts(k) && a in k.ext && !k.ext[a].kind.Small?
    ensures Accounts(Unmap(k, a))
  {
    SamePieces(k.ext, k.ext - {a}, k.carved);
  }

  // The allocator

  predicate RespectsAll(k: State, u: State, mine: set<nat>) {
    forall a | a in mine :: Respects(k, u, a)
  }

  lemma RespectsOn(k: State, t: State, u: State, mine: set<nat>, now: set<nat>)
    requires RespectsAll(k, t, mine) && RespectsAll(t, u, now) && mine <= now
    ensures RespectsAll(k, u, mine)
  {
    forall a | a in mine ensures Respects(k, u, a) {
      assert Respects(k, t, a) && Respects(t, u, a);
    }
  }

  /** Matching sizes: the block is what kalloc makes of a request of this size. */
  predicate Matches(e: Extent, size: nat, max: nat) {
    var i := Class(size);
    if size < max && ClassSize(i) < max then e == Extent(ClassSize(i), Small(i))
    else e == Extent(if size < max then ClassSize(i) else size, Large)
  }

  /** Pages that a thread has mapped and keeps for itself. */
  predicate Pages(k: State, a: nat, n: nat) {
    a in k.ext && k.ext[a] == Extent(n, Region)
  }

  class Kalloc {
    var k: State
    const pageSize: nat
    const max: nat            // kalloc_max

    ghost predicate Valid()
      reads this
    {
      pageSize > 0 && max <= ClassSize(KLIST_MAX - 1) && Inv(k)
    }

    /** kalloc_init. */
    constructor (pageSize: nat)
      requires pageSize > 0
      ensures Valid() && this.pageSize == pageSize && k.ext == map[] && k.next == k.end == pageSize
      ensures max == (if pageSize < 16 * 1024 then pageSize else 16 * 1024)
      ensures forall i | 0 <= i < KLIST_MAX :: k.free[i] == []
    {
      this.pageSize := pageSize;
      max := if pageSize > 16 * 1024 then 16 * 1024 else pageSize;
      k := State(pageSize, pageSize, 0, seq(KLIST_MAX, _ => 0), seq(KLIST_MAX, _ => 0), map[], map[],
                 seq(KLIST_MAX, _ => []), 0, []);
      new;
      assert ClassSize(10) == 2 * ClassSize(9) == 4 * ClassSize(8) == 8 * ClassSize(7) == 16 * ClassSize(6);
      assert ClassSize(6) == 2 * ClassSize(5) == 4 * ClassSize(4) == 8 * ClassSize(3) == 16 * ClassSize(2) == 256;
      assert ClassSize(12) == 2 * ClassSize(11) == 4 * ClassSize(10);
    }

    /** What other threads may do while this one holds no lock: anything that keeps the
        invariant and leaves the blocks of this thread alone. */
    method Others(mine: set<nat>)
      requires Valid() && forall a | a in mine :: Live(k, a)
      modifies this
      ensures Valid() && RespectsAll(old(k), k, mine)
    {
      var u :| Inv(u) && RespectsAll(k, u, mine);
      k := u;
    }

    /** vm_map and vm_allocate: pages that nobody uses, or 0. */
    method MapPages(n: nat, kind: Kind) returns (a: nat)
      requires Valid() && !kind.Small?
      modifies this
      ensures Valid()
      ensures a == 0 ==> k == old(k)
      ensures a != 0 ==>
                && Live(k, a) && a !in old(k).ext && k.ext[a] == Extent(n, kind)
                && forall b | Live(old(k), b) :: Respects(old(k), k, b)
    {
      a := *;
      if !Fresh(k, a, n) { return 0; }
      MapKeeps(k, a, n, kind);
      MapAccounts(k, a, n, kind);
      k := Map(k, a, n, kind);
    }

    /** Pages of this thread, mapped without a lock. */
    method Reserve(n: nat, mine: set<nat>, ghost k0: State) returns (a: nat)
      requires Valid() && RespectsAll(k0, k, mine)
      modifies this
      ensures Valid() && RespectsAll(k0, k, mine)
      ensures a != 0 ==> a !in mine && Pages(k, a, n)
    {
      ghost var k1 := k;
      Others(mine);
      ghost var k2 := k;
      RespectsOn(k0, k1, k2, mine, mine);
      a := MapPages(n, Region);
      if a != 0 {
        ghost var k3 := k;
        RespectsOn(k0, k2, k3, mine, mine);
        Others(mine + {a});
        RespectsOn(k0, k3, k, mine, mine + {a});
        assert Respects(k3, k, a);
      }
    }

    /** Adds this thread's pages to the space. */
    method AddPages(a: nat, mine: set<nat>, ghost k0: State)
      requires Valid() && RespectsAll(k0, k, mine) && a in k.ext && k.ext[a].kind.Region? && a !in mine
      modifies this
      ensures Valid() && RespectsAll(k0, k, mine) && k.end - k.next >= old(k).ext[a].size
    {
      InstallKeeps(k, a);
      InstallAccounts(k, a);
      ghost var k1 := k;
      k := Install(k, a);
      RespectsOn(k0, k1, k, mine, mine);
    }

    /** Carves a block, and gives pages back that turned out not to be needed. */
    method TakeSpace(i: nat, newSpace: nat, mine: set<nat>, ghost n: nat, ghost k0: State) returns (addr: nat)
      requires Valid() && i < KLIST_MAX && k.next + ClassSize(i) <= k.end
      requires RespectsAll(k0, k, mine) && (newSpace != 0 ==> newSpace !in mine && Pages(k, newSpace, n))
      modifies this
      ensures Valid() && RespectsAll(k0, k, mine)
      ensures addr == old(k).next != 0 && addr !in mine
      ensures Live(k, addr) && k.ext[addr] == Extent(ClassSize(i), Small(i))
    {
      CarveKeeps(k, i);
      CarveAccounts(k, i);
      ghost var k1 := k;
      addr := k.next;
      k := Carve(k, i);
      ghost var k2 := k;
      RespectsOn(k0, k1, k2, mine, mine);
      var keep := mine + {addr} + if newSpace != 0 then {newSpace} else {};
      assert newSpace != 0 ==> Respects(k1, k2, newSpace);
      Others(keep);
      ghost var k3 := k;
      RespectsOn(k0, k2, k3, mine, keep);
      assert Respects(k2, k3, addr);
      if newSpace != 0 {
        assert Respects(k2, k3, newSpace);
        UnmapKeeps(k, newSpace);
        UnmapAccounts(k, newSpace);
        k := Unmap(k, newSpace);
        RespectsOn(k0, k3, k, mine, mine);
        assert Respects(k3, k, addr);
      }
    }

    /** kget_space: a block of class `i` from the space, which grows if need be. The bounds may
        have been moved by others when the lock is taken again. */
    method GetSpace(i: nat, mine: set<nat>) returns (addr: nat)
      requires Valid() && i < KLIST_MAX && forall a | a in mine :: Live(k, a)
      modifies this
      ensures Valid() && RespectsAll(old(k), k, mine)
      ensures addr != 0 ==> addr !in mine && Live(k, addr) && k.ext[addr] == Extent(ClassSize(i), Small(i))
      ensures old(k).next + ClassSize(i) <= old(k).end ==> addr == old(k).next
    {
      var size := ClassSize(i);
      var pages := RoundPage(size);
      var newSpace := 0;
      while k.next + size > k.end
        invariant Valid() && RespectsAll(old(k), k, mine)
        invariant newSpace != 0 ==> newSpace !in mine && Pages(k, newSpace, pages)
        invariant old(k).next + size <= old(k).end ==> k == old(k)
        decreases if k.next + size <= k.end then 0 else if newSpace != 0 then 1 else 2
      {
        if newSpace == 0 {
          newSpace := Reserve(pages, mine, old(k));
          if newSpace == 0 { return 0; }
        } else {
          AddPages(newSpace, mine, old(k));
          newSpace := 0;
        }
      }
      addr := TakeSpace(i, newSpace, mine, pages, old(k));
    }

    /** kalloc: memory of at least the size asked for that is nobody else's, or 0. */
    method Alloc(size: nat, mine: set<nat>) returns (addr: nat)
      requires Valid() && forall a | a in mine :: Live(k, a)
      modifies this
      ensures Valid() && RespectsAll(old(k), k, mine)
      ensures addr != 0 ==>
                addr !in mine && Live(k, addr) && k.ext[addr].size >= size && Matches(k.ext[addr], size, max)
      ensures var i := Class(size);
              size < max && ClassSize(i) < max ==>
                && i < KLIST_MAX
                && (|old(k).free[i]| > 0 ==> addr == old(k).free[i][0] && k == Pop(old(k), i))
                && (|old(k).free[i]| == 0 && old(k).next + ClassSize(i) <= old(k).end ==> addr == old(k).next)
    {
      var n, i := AllocSize(size, max);
      if n < max {
        DoubledBelow(MINSIZE, i, KLIST_MAX - 1);
        assert ListOk(k, i);
        if k.heads[i] != 0 {
          PopKeeps(k, i);
          addr := k.heads[i];
          k := Pop(k, i);
        } else {
          addr := GetSpace(i, mine);
        }
      } else {
        addr := MapPages(n, Large);
      }
    }

    /** kfree, with the size of the request: the block goes back to the class it came from, or
        its pages back to the kernel, and no other block is touched. */
    method Free(a: nat, size: nat)
      requires Valid() && Live(k, a) && Matches(k.ext[a], size, max)
      modifies this
      ensures Valid() && !Live(k, a) && forall b | Live(old(k), b) && b != a :: Respects(old(k), k, b)
      ensures match old(k).ext[a].kind
              case Small(i) => i < KLIST_MAX && k.free[i] == [a] + old(k).free[i] && k.ext == old(k).ext
              case _ => k.ext == old(k).ext - {a} && k.free == old(k).free
    {
      var n, i := AllocSize(size, max);
      if n < max {
        DoubledBelow(MINSIZE, i, KLIST_MAX - 1);
        PushKeeps(k, i, a);
        k := Push(k, i, a);
      } else {
        UnmapKeeps(k, a);
        UnmapAccounts(k, a);
        k := Unmap(k, a);
      }
    }

    /** The owner of a block writes to it. */
    method Store(a: nat, x: nat, value: nat)
      requires Valid() && Live(k, a) && a <= x < a + k.ext[a].size
      modifies this
      ensures Valid() && k == old(k).(mem := old(k).mem[x := value])
      ensures forall b | Live(old(k), b) && b != a :: Respects(old(k), k, b)
    {
      WriteKeeps(k, a, x, value);
      k := Write(k, x, value);
    }

    function RoundPage(size: nat): (r: nat)
      requires pageSize > 0
      ensures size <= r < size + pageSize
    {
      (size + pageSize - 1) / pageSize * pageSize
    }
  }
}
