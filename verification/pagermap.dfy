/** Paging objects and their one- or two-level block maps.
 */
module PagerMap {
  import FreeLists
  import opened Partitions

  /** A map entry: the packed pair of a 24-bit block offset and an 8-bit partition index. */
  datatype Entry = Entry(pOffset: nat, pIndex: nat)

  /** The entry with every bit set. */
  const NO_BLOCK := Entry(0xffffff, 0xff)

  /** Map entries of pages that have no block. */
  function Blanks(n: nat): (r: seq<Entry>)
    ensures |r| == n && forall i | 0 <= i < n :: r[i] == NO_BLOCK
  {
    seq(n, _ => NO_BLOCK)
  }

  /** Number of pages in a second-level map. */
  const PAGEMAP_ENTRIES: nat := 64

  predicate IndirectPagemap(size: nat) {
    size > PAGEMAP_ENTRIES
  }

  /** Second-level maps needed for `npgs` pages. */
  function IndirectEntries(npgs: nat): nat
    requires npgs > 0
  {
    (npgs - 1) / PAGEMAP_ENTRIES + 1
  }

  function RoundupToPagemap(npgs: nat): nat {
    (npgs + PAGEMAP_ENTRIES - 1) / PAGEMAP_ENTRIES * PAGEMAP_ENTRIES
  }

  /** The sizes a map can have: a power of two below 64, or a multiple of 64. */
  predicate SizeOk(size: nat) {
    size in {1, 2, 4, 8, 16, 32} || (size >= PAGEMAP_ENTRIES && size % PAGEMAP_ENTRIES == 0)
  }

  /** `n` is `start`, doubled some number of times. */
  ghost predicate IsDoubled(start: nat, n: nat) {
    exists k: nat :: n == FreeLists.Doubled(start, k)
  }

  lemma DoubledOnce(start: nat, n: nat)
    requires n == start || IsDoubled(start, n)
    ensures IsDoubled(start, n) && IsDoubled(start, 2 * n)
  {
    assert start == FreeLists.Doubled(start, 0);
    var k: nat :| n == FreeLists.Doubled(start, k);
    assert 2 * n == FreeLists.Doubled(start, k + 1);
  }

  /** The size that a map of `start` pages gets to cover `npgs`: the first of its doublings that
      does, or the next whole number of second-level maps if that is too big for doubling. */
  ghost predicate Covers(start: nat, npgs: nat, maxDoubled: nat, n: nat) {
    && n >= npgs
    && if npgs <= maxDoubled then IsDoubled(start, n) && (n == start || n < 2 * npgs)
       else n % PAGEMAP_ENTRIES == 0 && n < npgs + PAGEMAP_ENTRIES
  }

  /** The size of a map of `size` pages once it reaches a page. */
  ghost predicate Reaches(size: nat, page: nat, maxDoubled: nat, n: nat) {
    if page < size then n == size else Covers(size, page + 1, maxDoubled, n)
  }

  /** The doubling loop shared by allocation and extension. */
  method DoubleUntil(start: nat, goal: nat) returns (i: nat)
    requires SizeOk(start)
    ensures SizeOk(i) && i >= goal && i >= start
    ensures IsDoubled(start, i) && (i == start || i < 2 * goal)
  {
    i := start;
    DoubledOnce(start, i);
    while i < goal
      invariant SizeOk(i) && i >= start
      invariant IsDoubled(start, i) && (i == start || i < 2 * goal)
    {
      DoubledOnce(start, i);
      i := 2 * i;
    }
  }

  /** The size a map of `start` pages gets to cover `npgs`: doubled, or rounded up if it
      is too big for that. Any size above 64 is a whole number of second-level maps. */
  method TargetSize(start: nat, npgs: nat, maxDoubled: nat) returns (n: nat)
    requires SizeOk(start) && (start == 1 || npgs > start)
    ensures SizeOk(n) && n >= npgs && n >= start
    ensures IndirectPagemap(n) ==> n == PAGEMAP_ENTRIES * IndirectEntries(n)
    ensures Covers(start, npgs, maxDoubled, n)
  {
    if npgs <= maxDoubled {
      n := DoubleUntil(start, npgs);
    } else {
      n := RoundupToPagemap(npgs);
    }
  }

  /** An entry of an indirect block: a second-level map, or none (a null pointer). */
  datatype Table = NoTable | Table(entries: seq<Entry>)

  /** The entry of a page in a map of two levels. */
  function Lookup(tables: seq<Table>, page: nat): Entry
    requires page < PAGEMAP_ENTRIES * |tables|
    requires TablesOk(tables)
  {
    match tables[page / PAGEMAP_ENTRIES]
    case NoTable => NO_BLOCK
    case Table(entries) => entries[page % PAGEMAP_ENTRIES]
  }

  /** Second-level maps are full size. */
  predicate TablesOk(tables: seq<Table>) {
    forall t | 0 <= t < |tables| && tables[t].Table? :: |tables[t].entries| == PAGEMAP_ENTRIES
  }

  /** A map of two levels, flattened. */
  ghost function Flatten(tables: seq<Table>): (flat: seq<Entry>)
    requires TablesOk(tables)
    ensures |flat| == PAGEMAP_ENTRIES * |tables|
    ensures forall p | 0 <= p < |flat| :: flat[p] == Lookup(tables, p)
  {
    seq(PAGEMAP_ENTRIES * |tables|, p requires 0 <= p < PAGEMAP_ENTRIES * |tables| => Lookup(tables, p))
  }

  /** Added tables that are missing add pages that have no block. */
  lemma MoreTables(tables: seq<Table>, more: nat)
    requires TablesOk(tables)
    ensures var tables' := tables + seq(more, _ => NoTable);
            TablesOk(tables') && Flatten(tables') == Flatten(tables) + Blanks(PAGEMAP_ENTRIES * more)
  {
    var tables' := tables + seq(more, _ => NoTable);
    var flat' := Flatten(tables) + Blanks(PAGEMAP_ENTRIES * more);
    forall p | 0 <= p < |flat'| ensures Lookup(tables', p) == flat'[p] {
      assert p < |Flatten(tables)| <==> p / PAGEMAP_ENTRIES < |tables|;
    }
  }

  /** A one-level map, moved into the first table of a two-level one. */
  lemma FirstTable(direct: seq<Entry>, more: nat)
    requires |direct| <= PAGEMAP_ENTRIES
    ensures var t := Table(direct + Blanks(PAGEMAP_ENTRIES - |direct|));
            var tables := [t] + seq(more, _ => NoTable);
            && TablesOk(tables)
            && Flatten(tables) == direct + Blanks(PAGEMAP_ENTRIES * (more + 1) - |direct|)
  {
    var t := Table(direct + Blanks(PAGEMAP_ENTRIES - |direct|));
    MoreTables([t], more);
    assert Flatten([t]) == t.entries;
  }

  /** A paging object: the size of its map in pages, the map while it has one level, the
      map once it has two, and the partition its next block comes from. */
  datatype Pager = Pager(size: nat, direct: seq<Entry>, indirect: seq<Table>, curPartition: nat)
  {
    ghost predicate Valid() {
      && SizeOk(size) && curPartition <= P_INDEX_INVALID
      && (!IndirectPagemap(size) ==> |direct| == size)
      && (IndirectPagemap(size) ==> TablesOk(indirect) && size == PAGEMAP_ENTRIES * |indirect|)
    }

    /** The map as a flat sequence, one entry a page. */
    ghost function Flat(): (flat: seq<Entry>)
      requires Valid()
      ensures |flat| == size
    {
      if IndirectPagemap(size) then Flatten(indirect) else direct
    }
  }

  /** pager_alloc: an empty map covering at least `npgs` pages. */
  method NewPager(part: nat, npgs: nat, maxDoubled: nat) returns (pager: Pager)
    requires part <= P_INDEX_INVALID
    ensures pager.Valid() && pager.curPartition == part && pager.size >= npgs
    ensures pager.Flat() == Blanks(pager.size) && Covers(1, npgs, maxDoubled, pager.size)
  {
    var n := TargetSize(1, npgs, maxDoubled);
    if IndirectPagemap(n) {
      pager := Pager(n, [], seq(IndirectEntries(n), _ => NoTable), part);
    } else {
      pager := Pager(n, Blanks(n), [], part);
    }
  }

  /** pager_read_offset: the entry of a page, NO_BLOCK where there is no second-level map. */
  method ReadOffset(pager: Pager, page: nat) returns (e: Entry)
    requires pager.Valid() && page < pager.size
    ensures e == pager.Flat()[page]
  {
    if IndirectPagemap(pager.size) {
      var t := pager.indirect[page / PAGEMAP_ENTRIES];
      if t.NoTable? {
        e := NO_BLOCK;
      } else {
        e := t.entries[page % PAGEMAP_ENTRIES];
      }
    } else {
      e := pager.direct[page];
    }
  }

  /** Stores the entry of a page, allocating its second-level map, every entry unset,
      if that is missing. */
  method StoreEntry(pager: Pager, page: nat, e: Entry) returns (pager': Pager)
    requires pager.Valid() && page < pager.size
    ensures pager'.Valid() && pager'.curPartition == pager.curPartition
    ensures pager'.Flat() == pager.Flat()[page := e]
  {
    if IndirectPagemap(pager.size) {
      var k := page / PAGEMAP_ENTRIES;
      var t := if pager.indirect[k].NoTable? then Blanks(PAGEMAP_ENTRIES) else pager.indirect[k].entries;
      pager' := pager.(indirect := pager.indirect[k := Table(t[page % PAGEMAP_ENTRIES := e])]);
    } else {
      pager' := pager.(direct := pager.direct[page := e]);
    }
  }

  /** pager_extend: a larger map with every old entry and no new one, whichever
      of the old and the new map have two levels. One call covers `newSize` pages. */
  method Extend(pager: Pager, newSize: nat, maxDoubled: nat) returns (pager': Pager)
    requires pager.Valid() && newSize > pager.size
    ensures pager'.Valid() && pager'.curPartition == pager.curPartition
    ensures pager'.size >= newSize && Covers(pager.size, newSize, maxDoubled, pager'.size)
    ensures pager'.Flat() == pager.Flat() + Blanks(pager'.size - pager.size)
  {
    var n := TargetSize(pager.size, newSize, maxDoubled);
    if IndirectPagemap(pager.size) {
      // Already two levels: a larger indirect block.
      MoreTables(pager.indirect, IndirectEntries(n) - |pager.indirect|);
      var tables := Grown(pager.indirect, IndirectEntries(n), NoTable);
      pager' := pager.(size := n, indirect := tables);
    } else if IndirectPagemap(n) {
      // From one level to two: the old entries move into a full second-level map.
      var table := Grown(pager.direct, PAGEMAP_ENTRIES, NO_BLOCK);
      FirstTable(pager.direct, IndirectEntries(n) - 1);
      var tables := Grown([Table(table)], IndirectEntries(n), NoTable);
      pager' := pager.(size := n, direct := [], indirect := tables);
    } else {
      var direct := Grown(pager.direct, n, NO_BLOCK);
      pager' := pager.(size := n, direct := direct);
    }
  }

  /** Extends the map until it reaches a page. */
  method GrowTo(pager: Pager, page: nat, maxDoubled: nat) returns (pager': Pager)
    requires pager.Valid()
    ensures pager'.Valid() && pager'.curPartition == pager.curPartition
    ensures pager'.size >= pager.size && page < pager'.size && Reaches(pager.size, page, maxDoubled, pager'.size)
    ensures pager'.Flat() == pager.Flat() + Blanks(pager'.size - pager.size)
  {
    pager' := pager;
    while page >= pager'.size
      invariant pager'.Valid() && pager'.curPartition == pager.curPartition
      invariant pager'.size >= pager.size
      invariant pager' == pager || (page < pager'.size && Reaches(pager.size, page, maxDoubled, pager'.size))
      invariant pager'.Flat() == pager.Flat() + Blanks(pager'.size - pager.size)
      decreases page + 1 - pager'.size
    {
      pager' := Extend(pager', page + 1, maxDoubled);
    }
  }

  /** Copies a map block into a larger one whose added entries are empty. */
  method Grown<T>(block: seq<T>, n: nat, empty: T) returns (r: seq<T>)
    requires |block| <= n
    ensures r == block + seq(n - |block|, _ => empty)
  {
    r := [];
    var i := 0;
    while i < |block|
      invariant 0 <= i <= |block| && r == block[..i]
    {
      r := r + [block[i]];
      i := i + 1;
    }
    while i < n
      invariant |block| <= i <= n && r == block + seq(i - |block|, _ => empty)
    {
      r := r + [empty];
      i := i + 1;
    }
  }
}
