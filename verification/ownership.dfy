/** Who owns which block: the invariant that ties the bitmaps of all partitions to the
    block maps of all paging objects, and the contents the two stand for together.
    Everything here is about values; the classes that update them are in `Storage`.
 */
module Ownership {
  import opened Partitions
  import opened PagerMap

  /** Block maps of the live paging objects, by pager port. */
  type Maps = map<nat, seq<Entry>>

  /** What the paging objects hold: the bytes of each (object, page). */
  type Contents = map<(nat, nat), Page>

  predicate Mapped(m: Maps, o: nat, p: nat) {
    o in m && p < |m[o]| && m[o][p] != NO_BLOCK
  }

  /** The entry names a live partition and a set bit of it. */
  ghost predicate InUse(parts: seq<Part>, e: Entry) {
    && e.pIndex < |parts| && parts[e.pIndex].Part?
    && parts[e.pIndex].Bit(e.pOffset)
  }

  /** Only partitions whose index a map entry can name have used blocks. */
  ghost predicate PartsOk(parts: seq<Part>) {
    forall i | 0 <= i < |parts| && parts[i].Part? ::
      && |parts[i].pages| == parts[i].total && |parts[i].bitmap| == HowMany(parts[i].total)
      && forall b: nat | parts[i].Bit(b) :: b < parts[i].total && i < P_INDEX_INVALID
  }

  ghost predicate AllInUse(parts: seq<Part>, m: Maps) {
    forall o: nat, p: nat | Mapped(m, o, p) :: InUse(parts, m[o][p])
  }

  ghost predicate Unshared(m: Maps) {
    forall o1: nat, p1: nat, o2: nat, p2: nat | Mapped(m, o1, p1) && Mapped(m, o2, p2) ::
      m[o1][p1] == m[o2][p2] ==> o1 == o2 && p1 == p2
  }

  ghost predicate Owned(m: Maps, e: Entry) {
    exists o: nat, p: nat :: Mapped(m, o, p) && m[o][p] == e
  }

  ghost predicate AllOwned(parts: seq<Part>, m: Maps) {
    forall e: Entry | InUse(parts, e) :: Owned(m, e)
  }

  /** Set bits and map entries correspond one to one. */
  ghost predicate Inv(parts: seq<Part>, m: Maps) {
    PartsOk(parts) && AllInUse(parts, m) && Unshared(m) && AllOwned(parts, m)
  }

  ghost function MappedPages(m: Maps): (r: set<(nat, nat)>)
    ensures forall o: nat, p: nat :: (o, p) in r <==> Mapped(m, o, p)
  {
    set o: nat, p: nat | o in m && 0 <= p < |m[o]| && Mapped(m, o, p) :: (o, p)
  }

  ghost function PageAt(parts: seq<Part>, e: Entry): Page
    requires PartsOk(parts) && InUse(parts, e)
  {
    parts[e.pIndex].pages[e.pOffset]
  }

  ghost function Holds(parts: seq<Part>, m: Maps): Contents
    requires PartsOk(parts) && AllInUse(parts, m)
  {
    map k | k in MappedPages(m) :: PageAt(parts, m[k.0][k.1])
  }

  /** Growing a map adds no page and moves none. */
  lemma Grow(parts: seq<Part>, m: Maps, o: nat, more: nat)
    requires Inv(parts, m) && o in m
    ensures var m' := m[o := m[o] + Blanks(more)];
            Inv(parts, m') && Holds(parts, m') == Holds(parts, m)
  {
    var m' := m[o := m[o] + Blanks(more)];
    SameEntries(parts, m, m');
  }

  lemma SameEntries(parts: seq<Part>, m: Maps, m': Maps)
    requires Inv(parts, m)
    requires forall o: nat, p: nat :: Mapped(m, o, p) <==> Mapped(m', o, p)
    requires forall o: nat, p: nat | Mapped(m, o, p) && Mapped(m', o, p) :: m[o][p] == m'[o][p]
    ensures Inv(parts, m') && Holds(parts, m') == Holds(parts, m)
  {
    forall e: Entry | InUse(parts, e) ensures Owned(m', e) {
      assert Owned(m, e);
      var o: nat, p: nat :| Mapped(m, o, p) && m[o][p] == e;
      assert Mapped(m', o, p);
    }
    assert MappedPages(m) == MappedPages(m');
  }

  /** Block `e` lies in a live partition. */
  predicate InRange(parts: seq<Part>, e: Entry) {
    && e.pIndex < |parts| && parts[e.pIndex].Part? && e.pOffset < parts[e.pIndex].total
    && |parts[e.pIndex].pages| == parts[e.pIndex].total
    && |parts[e.pIndex].bitmap| == HowMany(parts[e.pIndex].total)
  }

  function TakeAt(parts: seq<Part>, e: Entry): seq<Part>
    requires InRange(parts, e) && parts[e.pIndex].free > 0
  {
    parts[e.pIndex := parts[e.pIndex].Take(e.pOffset)]
  }

  function GiveAt(parts: seq<Part>, e: Entry): seq<Part>
    requires InRange(parts, e)
  {
    parts[e.pIndex := parts[e.pIndex].Give(e.pOffset)]
  }

  function PutAt(parts: seq<Part>, e: Entry, page: Page): seq<Part>
    requires InRange(parts, e)
  {
    parts[e.pIndex := parts[e.pIndex].WithPage(e.pOffset, page)]
  }

  /** The one change every operation makes: page `p` of object `o` gets the entry `e`
      (or none), its old block is given up and the new one taken. */
  ghost predicate Retargets(parts: seq<Part>, m: Maps, o: nat, p: nat, e: Entry, parts': seq<Part>)
  {
    && Inv(parts, m) && PartsOk(parts') && o in m && p < |m[o]|
    && (InUse(parts, e) ==> e == m[o][p])
    && (forall x: Entry :: InUse(parts', x) <==>
          (InUse(parts, x) && x != m[o][p]) || (x == e && e != NO_BLOCK))
    && (forall x: Entry | InUse(parts, x) && x != m[o][p] :: PageAt(parts', x) == PageAt(parts, x))
  }

  lemma Retarget(parts: seq<Part>, m: Maps, o: nat, p: nat, e: Entry, parts': seq<Part>)
    requires Retargets(parts, m, o, p, e, parts')
    ensures Inv(parts', m[o := m[o][p := e]])
    ensures Holds(parts', m[o := m[o][p := e]]) ==
            if e == NO_BLOCK then Holds(parts, m) - {(o, p)}
            else Holds(parts, m)[(o, p) := PageAt(parts', e)]
  {
    RetargetInUse(parts, m, o, p, e, parts');
    RetargetOwned(parts, m, o, p, e, parts');
    RetargetHolds(parts, m, o, p, e, parts');
  }

  lemma RetargetInUse(parts: seq<Part>, m: Maps, o: nat, p: nat, e: Entry, parts': seq<Part>)
    requires Retargets(parts, m, o, p, e, parts')
    ensures AllInUse(parts', m[o := m[o][p := e]]) && Unshared(m[o := m[o][p := e]])
  {
    var m' := m[o := m[o][p := e]];
    forall q: nat, r: nat | Mapped(m', q, r)
      ensures InUse(parts', m'[q][r])
      ensures m'[q][r] == e ==> q == o && r == p
    {
      if !(q == o && r == p) {
        assert Mapped(m, q, r) && InUse(parts, m[q][r]);
        assert m[q][r] == m[o][p] ==> Mapped(m, o, p);
      }
    }
    forall o1: nat, p1: nat, o2: nat, p2: nat | Mapped(m', o1, p1) && Mapped(m', o2, p2) && m'[o1][p1] == m'[o2][p2]
      ensures o1 == o2 && p1 == p2
    {
      if m'[o1][p1] != e {
        assert Mapped(m, o1, p1) && Mapped(m, o2, p2);
      }
    }
  }

  lemma RetargetOwned(parts: seq<Part>, m: Maps, o: nat, p: nat, e: Entry, parts': seq<Part>)
    requires Retargets(parts, m, o, p, e, parts')
    ensures AllOwned(parts', m[o := m[o][p := e]])
  {
    var m' := m[o := m[o][p := e]];
    forall x: Entry | InUse(parts', x) ensures Owned(m', x) {
      if x == e {
        assert Mapped(m', o, p);
      } else {
        assert Owned(m, x);
        var q: nat, r: nat :| Mapped(m, q, r) && m[q][r] == x;
        assert Mapped(m', q, r) && m'[q][r] == x;
      }
    }
  }

  lemma RetargetElsewhere(parts: seq<Part>, m: Maps, o: nat, p: nat, e: Entry, parts': seq<Part>, q: nat, r: nat)
    requires Retargets(parts, m, o, p, e, parts') && (q, r) != (o, p)
    ensures Mapped(m[o := m[o][p := e]], q, r) <==> Mapped(m, q, r)
    ensures Mapped(m, q, r) ==>
              && m[o := m[o][p := e]][q][r] == m[q][r] && InUse(parts, m[q][r])
              && PageAt(parts', m[q][r]) == PageAt(parts, m[q][r])
  {
    if Mapped(m, q, r) {
      assert InUse(parts, m[q][r]);
      assert m[q][r] == m[o][p] ==> Mapped(m, o, p);
    }
  }

  /** At page `x`, `h'` is `h` with page `k` set to `v`, or without it. */
  predicate UpdatedAt(h: Contents, h': Contents, k: (nat, nat), present: bool, v: Page, x: (nat, nat)) {
    if x == k then (x in h' <==> present) && (x in h' ==> h'[x] == v)
    else (x in h' <==> x in h) && (x in h' ==> h'[x] == h[x])
  }

  lemma Updated(h: Contents, h': Contents, k: (nat, nat), present: bool, v: Page)
    requires forall x :: UpdatedAt(h, h', k, present, v, x)
    ensures h' == if present then h[k := v] else h - {k}
  {
    var want := if present then h[k := v] else h - {k};
    forall x ensures x in h' <==> x in want {
      assert UpdatedAt(h, h', k, present, v, x);
    }
    forall x | x in h' ensures h'[x] == want[x] {
      assert UpdatedAt(h, h', k, present, v, x);
    }
  }

  lemma RetargetKey(parts: seq<Part>, m: Maps, o: nat, p: nat, e: Entry, parts': seq<Part>, m': Maps, x: (nat, nat))
    requires Retargets(parts, m, o, p, e, parts')
    requires m' == m[o := m[o][p := e]] && AllInUse(parts', m')
    ensures UpdatedAt(Holds(parts, m), Holds(parts', m'), (o, p), e != NO_BLOCK,
                      if e == NO_BLOCK then [] else PageAt(parts', e), x)
  {
    assert x == (x.0, x.1);
    if x != (o, p) {
      RetargetElsewhere(parts, m, o, p, e, parts', x.0, x.1);
    }
  }

  lemma RetargetHolds(parts: seq<Part>, m: Maps, o: nat, p: nat, e: Entry, parts': seq<Part>)
    requires Retargets(parts, m, o, p, e, parts')
    requires AllInUse(parts', m[o := m[o][p := e]])
    ensures Holds(parts', m[o := m[o][p := e]]) ==
            if e == NO_BLOCK then Holds(parts, m) - {(o, p)}
            else Holds(parts, m)[(o, p) := PageAt(parts', e)]
  {
    var m' := m[o := m[o][p := e]];
    var page, present, k := if e == NO_BLOCK then [] else PageAt(parts', e), e != NO_BLOCK, (o, p);
    var h, h' := Holds(parts, m), Holds(parts', m');
    forall x ensures UpdatedAt(h, h', k, present, page, x) {
      RetargetKey(parts, m, o, p, e, parts', m', x);
    }
    Updated(h, h', k, present, page);
  }

  /** Taking a block sets exactly that bit. */
  lemma TakenInUse(parts: seq<Part>, e: Entry)
    requires PartsOk(parts) && InRange(parts, e) && e.pIndex < P_INDEX_INVALID && parts[e.pIndex].free > 0
    ensures PartsOk(TakeAt(parts, e))
    ensures forall x: Entry :: InUse(TakeAt(parts, e), x) <==> InUse(parts, x) || x == e
    ensures forall x: Entry | InUse(parts, x) || x == e ::
              PageAt(TakeAt(parts, e), x) == parts[x.pIndex].pages[x.pOffset]
  {
  }

  /** Freeing a block clears exactly that bit. */
  lemma FreedInUse(parts: seq<Part>, e: Entry)
    requires PartsOk(parts) && InUse(parts, e)
    ensures InRange(parts, e) && PartsOk(GiveAt(parts, e))
    ensures forall x: Entry :: InUse(GiveAt(parts, e), x) <==> InUse(parts, x) && x != e
    ensures forall x: Entry | InUse(parts, x) && x != e ::
              PageAt(GiveAt(parts, e), x) == PageAt(parts, x)
  {
  }

  /** Writing a block changes no bit and no other block. */
  lemma WrittenInUse(parts: seq<Part>, e: Entry, page: Page)
    requires PartsOk(parts) && InUse(parts, e)
    ensures InRange(parts, e) && PartsOk(PutAt(parts, e, page))
    ensures forall x: Entry :: InUse(PutAt(parts, e, page), x) <==> InUse(parts, x)
    ensures forall x: Entry | InUse(parts, x) ::
              PageAt(PutAt(parts, e, page), x) == if x == e then page else PageAt(parts, x)
  {
  }

  /** Giving a newly taken block to an absent page adds that page and nothing else. */
  lemma Assign(parts: seq<Part>, m: Maps, o: nat, p: nat, e: Entry)
    requires Inv(parts, m) && o in m && p < |m[o]| && m[o][p] == NO_BLOCK
    requires InRange(parts, e) && e.pIndex < P_INDEX_INVALID && !InUse(parts, e) && parts[e.pIndex].free > 0
    ensures e != NO_BLOCK && Inv(TakeAt(parts, e), m[o := m[o][p := e]])
    ensures Holds(TakeAt(parts, e), m[o := m[o][p := e]])
            == Holds(parts, m)[(o, p) := parts[e.pIndex].pages[e.pOffset]]
  {
    TakenInUse(parts, e);
    Retarget(parts, m, o, p, e, TakeAt(parts, e));
  }

  /** Writing the block of a page changes that page and nothing else. */
  lemma Write(parts: seq<Part>, m: Maps, o: nat, p: nat, page: Page)
    requires Inv(parts, m) && Mapped(m, o, p)
    ensures InRange(parts, m[o][p]) && Inv(PutAt(parts, m[o][p], page), m)
    ensures Holds(PutAt(parts, m[o][p], page), m) == Holds(parts, m)[(o, p) := page]
  {
    var e := m[o][p];
    assert InUse(parts, e);
    WrittenInUse(parts, e, page);
    Retarget(parts, m, o, p, e, PutAt(parts, e, page));
    assert m[o][p := e] == m[o] && m[o := m[o]] == m;
  }

  /** Releasing a page removes it and nothing else. */
  lemma Release(parts: seq<Part>, m: Maps, o: nat, p: nat)
    requires Inv(parts, m) && Mapped(m, o, p)
    ensures InRange(parts, m[o][p]) && Inv(GiveAt(parts, m[o][p]), m[o := m[o][p := NO_BLOCK]])
    ensures Holds(GiveAt(parts, m[o][p]), m[o := m[o][p := NO_BLOCK]]) == Holds(parts, m) - {(o, p)}
  {
    assert InUse(parts, m[o][p]);
    FreedInUse(parts, m[o][p]);
    Retarget(parts, m, o, p, NO_BLOCK, GiveAt(parts, m[o][p]));
  }

  /** The partitions after a page has moved from block `f` to block `e`, where it reads
      `page`: the new block is taken, the old one given back, the new one written. */
  function AfterMove(parts: seq<Part>, f: Entry, e: Entry, page: Page): seq<Part>
    requires InRange(parts, f) && InRange(parts, e) && parts[e.pIndex].free > 0
  {
    PutAt(GiveAt(TakeAt(parts, e), f), e, page)
  }

  /** Moving a page to a free block, of another partition or the same. */
  lemma Move(parts: seq<Part>, m: Maps, o: nat, p: nat, e: Entry, page: Page)
    requires Inv(parts, m) && Mapped(m, o, p) && e.pIndex < P_INDEX_INVALID
    requires InRange(parts, e) && !InUse(parts, e) && parts[e.pIndex].free > 0
    ensures InRange(parts, m[o][p]) && e != NO_BLOCK
    ensures Inv(AfterMove(parts, m[o][p], e, page), m[o := m[o][p := e]])
    ensures Holds(AfterMove(parts, m[o][p], e, page), m[o := m[o][p := e]])
            == Holds(parts, m)[(o, p) := page]
  {
    var f := m[o][p];
    assert InUse(parts, f);
    TakenInUse(parts, e);
    FreedInUse(TakeAt(parts, e), f);
    WrittenInUse(GiveAt(TakeAt(parts, e), f), e, page);
    Retarget(parts, m, o, p, e, AfterMove(parts, f, e, page));
  }

  /** A new object has no pages. */
  lemma AddObject(parts: seq<Part>, m: Maps, o: nat, size: nat)
    requires Inv(parts, m) && o !in m
    ensures var m' := m[o := Blanks(size)];
            Inv(parts, m') && Holds(parts, m') == Holds(parts, m)
  {
    SameEntries(parts, m, m[o := Blanks(size)]);
  }

  /** Dropping an object whose map is empty loses nothing. */
  lemma DropObject(parts: seq<Part>, m: Maps, o: nat)
    requires Inv(parts, m) && o in m && forall p: nat | p < |m[o]| :: m[o][p] == NO_BLOCK
    ensures Inv(parts, m - {o}) && Holds(parts, m - {o}) == Holds(parts, m)
  {
    SameEntries(parts, m, m - {o});
  }

  /** A partition no map names has no block in use, and can be taken away. */
  lemma DropPartition(parts: seq<Part>, m: Maps, i: nat)
    requires Inv(parts, m) && i < |parts| && parts[i].Part?
    requires forall o: nat, p: nat | Mapped(m, o, p) :: m[o][p].pIndex != i
    ensures forall b: nat :: !parts[i].Bit(b)
    ensures Inv(parts[i := Absent], m) && Holds(parts[i := Absent], m) == Holds(parts, m)
  {
    forall b: nat ensures !parts[i].Bit(b) {
      assert parts[i].Bit(b) ==> InUse(parts, Entry(b, i));
    }
    var parts' := parts[i := Absent];
    assert forall x: Entry :: InUse(parts', x) <==> InUse(parts, x);
    SameUsed(parts, parts', m);
  }

  /** Partitions that gain no used block and lose none keep everything. */
  lemma SameUsed(parts: seq<Part>, parts': seq<Part>, m: Maps)
    requires Inv(parts, m) && PartsOk(parts')
    requires forall e: Entry :: InUse(parts', e) <==> InUse(parts, e)
    requires forall e: Entry | InUse(parts, e) :: PageAt(parts', e) == PageAt(parts, e)
    ensures Inv(parts', m) && Holds(parts', m) == Holds(parts, m)
  {
  }

  /** Block `e` was free and is now in use. */
  ghost predicate Takes(before: seq<Part>, after: seq<Part>, e: Entry) {
    && InRange(before, e) && e.pIndex < P_INDEX_INVALID && !before[e.pIndex].Bit(e.pOffset)
    && before[e.pIndex].free > 0
    && after == TakeAt(before, e)
  }

  /** What looking a page up for writing does to the object's map: it grows by empty pages,
      then the page has its old block, or a newly taken one, or (`e == NO_BLOCK`) none. */
  ghost predicate Looked(parts: seq<Part>, parts': seq<Part>, flat: seq<Entry>, flat': seq<Entry>,
                         page: nat, e: Entry)
  {
    && |flat'| >= |flat| && page < |flat'|
    && var grown := flat + Blanks(|flat'| - |flat|);
       if e == NO_BLOCK || grown[page] != NO_BLOCK then
         parts' == parts && flat' == grown && e == grown[page]
       else
         Takes(parts, parts', e) && flat' == grown[page := e]
  }

  lemma LookedGrown(parts: seq<Part>, parts': seq<Part>, flat: seq<Entry>, grown: seq<Entry>, flat': seq<Entry>,
                    page: nat, e: Entry)
    requires |flat| <= |grown| && grown == flat + Blanks(|grown| - |flat|)
    requires Looked(parts, parts', grown, flat', page, e)
    ensures Looked(parts, parts', flat, flat', page, e)
  {
    assert grown + Blanks(|flat'| - |grown|) == flat + Blanks(|flat'| - |flat|);
  }

  lemma UpdateTwice(h: Contents, k: (nat, nat), x: Page, y: Page)
    ensures h[k := x][k := y] == h[k := y]
  {
  }

  /** The page already has a block: only the map grows. */
  lemma LookFound(parts: seq<Part>, m: Maps, o: nat, flat': seq<Entry>, page: nat)
    requires Inv(parts, m) && o in m && |m[o]| <= |flat'| && flat' == m[o] + Blanks(|flat'| - |m[o]|)
    ensures Inv(parts, m[o := flat']) && Holds(parts, m[o := flat']) == Holds(parts, m)
    ensures Mapped(m[o := flat'], o, page) <==> Mapped(m, o, page)
  {
    Grow(parts, m, o, |flat'| - |m[o]|);
  }

  /** The page has no block yet: it gets the free block `e`. */
  lemma LookTaken(parts: seq<Part>, m: Maps, o: nat, grown: seq<Entry>, page: nat, e: Entry)
    requires Inv(parts, m) && o in m && |m[o]| <= |grown| && grown == m[o] + Blanks(|grown| - |m[o]|)
    requires page < |grown| && grown[page] == NO_BLOCK
    requires InRange(parts, e) && e.pIndex < P_INDEX_INVALID && !InUse(parts, e) && parts[e.pIndex].free > 0
    ensures e != NO_BLOCK && Inv(TakeAt(parts, e), m[o := grown[page := e]])
    ensures Holds(TakeAt(parts, e), m[o := grown[page := e]])
            == Holds(parts, m)[(o, page) := parts[e.pIndex].pages[e.pOffset]]
  {
    var g := m[o := grown];
    Grow(parts, m, o, |grown| - |m[o]|);
    Assign(parts, g, o, page, e);
    assert g[o := g[o][page := e]] == m[o := grown[page := e]];
  }

  /** Growing the map and, if need be, giving the page a block, then writing the block,
      leaves the page with those bytes and changes no other page. */
  lemma LookWrite(parts: seq<Part>, m: Maps, o: nat, parts': seq<Part>, flat': seq<Entry>, page: nat, e: Entry,
                  bytes: Page)
    requires Inv(parts, m) && o in m && Looked(parts, parts', m[o], flat', page, e) && e != NO_BLOCK
    ensures InRange(parts', e) && InUse(parts', e)
    ensures Inv(PutAt(parts', e, bytes), m[o := flat'])
    ensures Holds(PutAt(parts', e, bytes), m[o := flat']) == Holds(parts, m)[(o, page) := bytes]
  {
    var grown := m[o] + Blanks(|flat'| - |m[o]|);
    if grown[page] == NO_BLOCK {
      LookTaken(parts, m, o, grown, page, e);
      UpdateTwice(Holds(parts, m), (o, page), parts[e.pIndex].pages[e.pOffset], bytes);
    } else {
      LookFound(parts, m, o, flat', page);
    }
    assert Mapped(m[o := flat'], o, page) && InUse(parts', e);
    Write(parts', m[o := flat'], o, page, bytes);
  }

  /** The contents of every object but `o`. */
  ghost function Others(c: Contents, o: nat): Contents {
    map k | k in c && k.0 != o :: c[k]
  }

  lemma OthersLess(c: Contents, o: nat, p: nat)
    ensures Others(c - {(o, p)}, o) == Others(c, o)
  {
  }

  /** A map whose first `p` pages have been released. */
  function Rest(flat: seq<Entry>, p: nat): (r: seq<Entry>)
    requires p <= |flat|
    ensures |r| == |flat| && forall q | 0 <= q < |r| :: r[q] == if q < p then NO_BLOCK else flat[q]
  {
    Blanks(p) + flat[p..]
  }

  lemma RestStep(flat: seq<Entry>, p: nat)
    requires p < |flat|
    ensures Rest(flat, p)[p := NO_BLOCK] == Rest(flat, p + 1)
  {
  }

  /** Object `o` of `m` is being deleted: `parts'` are the partitions once its first `p`
      pages are released, and no other object's page has changed. */
  ghost predicate Clearing(parts: seq<Part>, m: Maps, o: nat, p: nat, parts': seq<Part>)
    requires PartsOk(parts) && AllInUse(parts, m)
  {
    && o in m && p <= |m[o]| && Inv(parts', m[o := Rest(m[o], p)])
    && Others(Holds(parts', m[o := Rest(m[o], p)]), o) == Others(Holds(parts, m), o)
  }

  lemma ClearingStart(parts: seq<Part>, m: Maps, o: nat)
    requires Inv(parts, m) && o in m
    ensures Clearing(parts, m, o, 0, parts)
  {
    assert Rest(m[o], 0) == m[o] && m[o := m[o]] == m;
  }

  lemma ClearingStep(parts: seq<Part>, m: Maps, o: nat, p: nat, parts': seq<Part>)
    requires PartsOk(parts) && AllInUse(parts, m) && Clearing(parts, m, o, p, parts') && p < |m[o]|
    ensures m[o][p] == NO_BLOCK ==> Clearing(parts, m, o, p + 1, parts')
    ensures m[o][p] != NO_BLOCK ==>
              && InUse(parts', m[o][p]) && InRange(parts', m[o][p])
              && Clearing(parts, m, o, p + 1, GiveAt(parts', m[o][p]))
  {
    RestStep(m[o], p);
    var n := m[o := Rest(m[o], p)];
    if m[o][p] == NO_BLOCK {
      assert Rest(m[o], p + 1) == Rest(m[o], p);
    } else {
      ClearOne(parts', n, o, p);
      assert n[o := n[o][p := NO_BLOCK]] == m[o := Rest(m[o], p + 1)];
    }
  }

  lemma ClearOne(parts: seq<Part>, m: Maps, o: nat, p: nat)
    requires Inv(parts, m) && Mapped(m, o, p)
    ensures InUse(parts, m[o][p]) && InRange(parts, m[o][p])
    ensures Inv(GiveAt(parts, m[o][p]), m[o := m[o][p := NO_BLOCK]])
    ensures Others(Holds(GiveAt(parts, m[o][p]), m[o := m[o][p := NO_BLOCK]]), o) == Others(Holds(parts, m), o)
  {
    assert InUse(parts, m[o][p]);
    Release(parts, m, o, p);
    OthersLess(Holds(parts, m), o, p);
  }

  lemma ClearingEnd(parts: seq<Part>, m: Maps, o: nat, parts': seq<Part>)
    requires PartsOk(parts) && AllInUse(parts, m) && o in m && Clearing(parts, m, o, |m[o]|, parts')
    ensures Inv(parts', m - {o}) && Holds(parts', m - {o}) == Others(Holds(parts, m), o)
  {
    var n := m[o := Rest(m[o], |m[o]|)];
    DropObject(parts', n, o);
    assert n - {o} == m - {o};
    NoneLeft(parts', n, o);
  }

  lemma NoneLeft(parts: seq<Part>, m: Maps, o: nat)
    requires PartsOk(parts) && AllInUse(parts, m) && forall p: nat :: !Mapped(m, o, p)
    ensures Others(Holds(parts, m), o) == Holds(parts, m)
  {
    forall k | k in Holds(parts, m) ensures k.0 != o {
      assert Mapped(m, k.0, k.1);
    }
  }

  /** The pages that lie in partition `i`. */
  ghost function PagesIn(m: Maps, i: nat): (r: set<(nat, nat)>)
    ensures forall o: nat, p: nat :: (o, p) in r <==> Mapped(m, o, p) && m[o][p].pIndex == i
  {
    set k | k in MappedPages(m) && m[k.0][k.1].pIndex == i
  }

  /** The block offset of a mapped page. */
  ghost function BlockOf(m: Maps, k: (nat, nat)): nat {
    if Mapped(m, k.0, k.1) then m[k.0][k.1].pOffset else 0
  }

  /** A partition has as many blocks in use as there are pages in it. */
  lemma UsedCountsPages(parts: seq<Part>, m: Maps, i: nat)
    requires Inv(parts, m) && i < |parts| && parts[i].Part?
    ensures |PagesIn(m, i)| == |parts[i].Used()|
  {
    var pages, used := PagesIn(m, i), parts[i].Used();
    forall k | k in pages ensures BlockOf(m, k) in used {
      assert Mapped(m, k.0, k.1);
      assert InUse(parts, m[k.0][k.1]);
    }
    forall b | b in used ensures exists k :: k in pages && BlockOf(m, k) == b {
      assert InUse(parts, Entry(b, i));
      assert Owned(m, Entry(b, i));
      var o: nat, p: nat :| Mapped(m, o, p) && m[o][p] == Entry(b, i);
      assert (o, p) in pages && BlockOf(m, (o, p)) == b;
    }
    forall k1, k2 | k1 in pages && k2 in pages && BlockOf(m, k1) == BlockOf(m, k2) ensures k1 == k2 {
      assert Mapped(m, k1.0, k1.1) && Mapped(m, k2.0, k2.1);
    }
    SameCount(m, pages, used);
  }

  /** Pages and blocks that their entries match one to one are equally many. */
  lemma {:induction false} SameCount(m: Maps, pages: set<(nat, nat)>, blocks: set<nat>)
    requires forall k | k in pages :: BlockOf(m, k) in blocks
    requires forall b | b in blocks :: exists k :: k in pages && BlockOf(m, k) == b
    requires forall k1, k2 | k1 in pages && k2 in pages && BlockOf(m, k1) == BlockOf(m, k2) :: k1 == k2
    ensures |pages| == |blocks|
    decreases blocks
  {
    if blocks == {} {
      assert pages == {};
    } else {
      var b :| b in blocks;
      var k :| k in pages && BlockOf(m, k) == b;
      forall c | c in blocks - {b} ensures exists l :: l in pages - {k} && BlockOf(m, l) == c {
        var l :| l in pages && BlockOf(m, l) == c;
        assert l in pages - {k};
      }
      SameCount(m, pages - {k}, blocks - {b});
    }
  }
}
