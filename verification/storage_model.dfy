/** The state of the default pager's storage, what makes it sound, and why each step of
    an operation keeps it so.
 */
module StorageModel {
  import opened Partitions
  import opened PagerMap
  import opened Ownership
  import opened History

  /** PAGER_PANIC stands for the end of the program. */
  datatype PagerResult = PAGER_SUCCESS | PAGER_ABSENT | PAGER_ERROR | PAGER_PANIC

  /** No offset: the partition could not give a block. */
  const NO_OFFSET: int := -1

  datatype MoveResult = Moved(entry: Entry) | NoRoom | Panic

  /** What one read and one write of at most `limit` bytes leave in the new block. */
  function MovedPage(from: Page, onto: Page, limit: nat): (r: Page)
    requires |from| == |onto|
    ensures |r| == |onto|
  {
    Overwrite(onto, 0, from[..Min(|from|, limit)])
  }

  /** A move keeps every page intact exactly when one transfer covers a whole page. */
  lemma MoveIntact(pageSize: nat, limit: nat)
    ensures (forall from: Page, onto: Page | |from| == |onto| == pageSize ::
               MovedPage(from, onto, limit) == from)
            <==> pageSize <= limit
  {
    if limit < pageSize {
      var from: Page := seq(pageSize, _ => 0);
      var onto: Page := seq(pageSize, _ => 1);
      assert MovedPage(from, onto, limit)[limit] == 1 != from[limit];
    }
  }

  /** Each partition is consistent, and no block is used of one that a map entry cannot name. */
  ghost predicate PartsValid(parts: seq<Part>, pageSize: nat) {
    forall i | 0 <= i < |parts| ::
      parts[i].Valid(pageSize) && (parts[i].Part? && i >= P_INDEX_INVALID ==> forall b: nat :: !parts[i].Bit(b))
  }

  ghost predicate PagersValid(pagers: map<nat, Pager>) {
    forall o | o in pagers :: pagers[o].Valid()
  }

  /** The flat block maps of all objects. */
  ghost function MapsOf(pagers: map<nat, Pager>): Maps
    requires PagersValid(pagers)
  {
    map o | o in pagers :: pagers[o].Flat()
  }

  /** Every object's current partition is a slot of the list; an object that has none has no pages. */
  ghost predicate CursorsOk(parts: seq<Part>, pagers: map<nat, Pager>)
    requires PagersValid(pagers)
  {
    forall o | o in pagers :: CursorOk(parts, pagers[o])
  }

  ghost predicate CursorOk(parts: seq<Part>, pager: Pager)
    requires pager.Valid()
  {
    if pager.curPartition == P_INDEX_INVALID then
      forall p | 0 <= p < pager.size :: pager.Flat()[p] == NO_BLOCK
    else
      pager.curPartition < |parts|
  }

  /** The value of the whole storage. */
  datatype State = State(parts: seq<Part>, pagers: map<nat, Pager>)

  /** Every part is consistent, blocks and map entries correspond one to one, and current
      partitions are live. */
  ghost predicate Sound(s: State, pageSize: nat) {
    && pageSize >= 256
    && PartsValid(s.parts, pageSize) && PagersValid(s.pagers)
    && Inv(s.parts, MapsOf(s.pagers))
    && CursorsOk(s.parts, s.pagers)
  }

  /** What the objects hold now. */
  ghost function ContentsOf(s: State, pageSize: nat): Contents
    requires Sound(s, pageSize)
  {
    Holds(s.parts, MapsOf(s.pagers))
  }

  /** In sound storage, the page holds what the run so far left in it. */
  ghost predicate HoldsLogged(s: State, log: seq<Event>, pageSize: nat, o: nat, p: nat) {
    && Sound(s, pageSize)
    && var c := ContentsOf(s, pageSize);
       && ((o, p) in c <==> (o, p) in Replay(log))
       && ((o, p) in c ==> c[(o, p)] == Replay(log)[(o, p)])
  }

  /** Every page of every object holds what the run so far left in it. */
  ghost predicate Recorded(s: State, log: seq<Event>, pageSize: nat) {
    forall o: nat, p: nat :: HoldsLogged(s, log, pageSize, o, p)
  }

  lemma RecordedSound(s: State, log: seq<Event>, pageSize: nat)
    requires Recorded(s, log, pageSize)
    ensures Sound(s, pageSize) && ContentsOf(s, pageSize) == Replay(log)
  {
    assert HoldsLogged(s, log, pageSize, 0, 0);
    forall k: (nat, nat)
      ensures k in ContentsOf(s, pageSize) <==> k in Replay(log)
      ensures k in Replay(log) ==> ContentsOf(s, pageSize)[k] == Replay(log)[k]
    {
      assert HoldsLogged(s, log, pageSize, k.0, k.1) && k == (k.0, k.1);
    }
  }

  lemma SoundRecorded(s: State, log: seq<Event>, pageSize: nat)
    requires Sound(s, pageSize) && ContentsOf(s, pageSize) == Replay(log)
    ensures Recorded(s, log, pageSize)
  {
  }

  /** A partition that may take `size` more bytes. */
  predicate Candidate(parts: seq<Part>, pageSize: nat, i: int, size: nat, cur: nat) {
    && 0 <= i < |parts| && i != cur && parts[i].Part?
    && !parts[i].goingAway && parts[i].free * pageSize >= size
  }

  /** `i` is the slot of the first candidate. */
  ghost predicate FirstCandidate(parts: seq<Part>, pageSize: nat, size: nat, cur: nat, i: nat) {
    Candidate(parts, pageSize, i, size, cur) && forall j | 0 <= j < i :: !Candidate(parts, pageSize, j, size, cur)
  }

  lemma FirstIsOne(parts: seq<Part>, pageSize: nat, size: nat, cur: nat, i: nat, j: nat)
    requires FirstCandidate(parts, pageSize, size, cur, i) && FirstCandidate(parts, pageSize, size, cur, j)
    ensures i == j
  {
  }

  /** What fits the 8 bits of a partition index. */
  function Index(slot: nat): nat {
    slot % 256
  }

  /** What choose_partition returns: the index of the first candidate's slot, cut off to 8 bits, or
      invalid if there is no candidate. */
  ghost predicate Chosen(parts: seq<Part>, pageSize: nat, size: nat, cur: nat, c: nat) {
    || (c == P_INDEX_INVALID && forall j :: !Candidate(parts, pageSize, j, size, cur))
    || (exists i: nat :: FirstCandidate(parts, pageSize, size, cur, i) && c == Index(i))
  }

  /** Every live partition has a slot that an index can name. */
  predicate AllNamed(parts: seq<Part>) {
    forall i | 0 <= i < |parts| && parts[i].Part? :: i < P_INDEX_INVALID
  }

  /** No partition that an index can name, but `cur`, has room for `size` bytes. */
  ghost predicate NoneFits(parts: seq<Part>, pageSize: nat, size: nat, cur: nat) {
    forall i: nat | i < P_INDEX_INVALID :: !Candidate(parts, pageSize, i, size, cur)
  }

  /** No partition that an index can name, but `cur`, can take another page. */
  ghost predicate NoRoomBut(parts: seq<Part>, pageSize: nat, cur: nat) {
    NoneFits(parts, pageSize, pageSize, cur)
  }

  /** An index chosen is that of a candidate, unless no candidate has an index of its own. */
  lemma ChosenNamed(parts: seq<Part>, pageSize: nat, size: nat, cur: nat, c: nat)
    requires Chosen(parts, pageSize, size, cur, c)
    ensures c <= P_INDEX_INVALID && (c != P_INDEX_INVALID ==> c < |parts|)
    ensures c == P_INDEX_INVALID || !Candidate(parts, pageSize, c, size, cur) ==> NoneFits(parts, pageSize, size, cur)
    ensures AllNamed(parts) && c != P_INDEX_INVALID ==> Candidate(parts, pageSize, c, size, cur)
  {
    if i: nat :| FirstCandidate(parts, pageSize, size, cur, i) && c == Index(i) {
      if i >= P_INDEX_INVALID { FirstBeyond(parts, pageSize, size, cur, i); }
      assert i < P_INDEX_INVALID ==> Index(i) == i;
    }
  }

  lemma FirstBeyond(parts: seq<Part>, pageSize: nat, size: nat, cur: nat, i: nat)
    requires FirstCandidate(parts, pageSize, size, cur, i) && i >= P_INDEX_INVALID
    ensures NoneFits(parts, pageSize, size, cur)
  {
  }

  /** A partition that gives a block when asked for one. */
  predicate Gives(parts: seq<Part>, i: nat) {
    i < |parts| && parts[i].Part? && !parts[i].goingAway && parts[i].free > 0
  }

  lemma GivesRoom(parts: seq<Part>, pageSize: nat, i: nat)
    requires Gives(parts, i) && i < P_INDEX_INVALID
    ensures !NoRoomBut(parts, pageSize, P_INDEX_INVALID)
  {
    assert parts[i].free * pageSize >= pageSize;
    assert Candidate(parts, pageSize, i, pageSize, P_INDEX_INVALID);
  }

  /** The object has no block for the page. */
  ghost predicate NoPage(pager: Pager, page: nat)
    requires pager.Valid()
  {
    page >= pager.size || pager.Flat()[page] == NO_BLOCK
  }

  lemma NoPageLogged(s: State, log: seq<Event>, pageSize: nat, o: nat, page: nat)
    requires Recorded(s, log, pageSize) && o in s.pagers && s.pagers[o].Valid()
    ensures (o, page) !in Replay(log) <==> NoPage(s.pagers[o], page)
  {
    if page < s.pagers[o].size {
      PageLogged(s, log, pageSize, o, page);
    } else {
      RecordedSound(s, log, pageSize);
      assert !Mapped(MapsOf(s.pagers), o, page);
    }
  }

  // Which block a new page gets

  /** Only one index is chosen. */
  lemma ChosenIsOne(parts: seq<Part>, pageSize: nat, size: nat, cur: nat, c: nat, d: nat)
    requires Chosen(parts, pageSize, size, cur, c) && Chosen(parts, pageSize, size, cur, d)
    ensures c == d
  {
    if i: nat, j: nat :| FirstCandidate(parts, pageSize, size, cur, i) && c == Index(i)
                         && FirstCandidate(parts, pageSize, size, cur, j) && d == Index(j) {
      FirstIsOne(parts, pageSize, size, cur, i, j);
    }
  }

  /** The entry is the lowest clear block of partition `i`. */
  ghost predicate LowestOf(parts: seq<Part>, i: nat, e: Entry) {
    && i < |parts| && parts[i].Part? && e.pIndex == i
    && !parts[i].Bit(e.pOffset) && forall b: nat | b < e.pOffset :: parts[i].Bit(b)
  }

  /** An object on partition `cur` gets a block there if that gives one; otherwise it goes over to
      the partition chosen for a page, and gets a block there if that gives one. */
  ghost predicate Spills(parts: seq<Part>, pageSize: nat, cur: nat, cur': nat, e: Entry) {
    if Gives(parts, cur) then cur' == cur && LowestOf(parts, cur, e)
    else exists c :: Chosen(parts, pageSize, pageSize, cur, c) && SpillsTo(parts, cur, c, cur', e)
  }

  ghost predicate SpillsTo(parts: seq<Part>, cur: nat, c: nat, cur': nat, e: Entry) {
    if c == P_INDEX_INVALID then cur' == cur && e == NO_BLOCK
    else cur' == c && if Gives(parts, c) then LowestOf(parts, c, e) else e == NO_BLOCK
  }

  /** An object without a partition is put on the first with room for as many pages as it has, or
      as lie before the page asked for if those are more, or else on the first with room for a page.
      The size is an unsigned word. */
  ghost predicate Attached(parts: seq<Part>, pageSize: nat, pager: Pager, page: nat, cur: nat) {
    if pager.curPartition != P_INDEX_INVALID then cur == pager.curPartition
    else exists c ::
      && Chosen(parts, pageSize, Wanted(pageSize, pager.size, page), P_INDEX_INVALID, c)
      && if c != P_INDEX_INVALID then cur == c else Chosen(parts, pageSize, pageSize, P_INDEX_INVALID, cur)
  }

  function Wanted(pageSize: nat, size: nat, page: nat): nat {
    (pageSize * if page > size then page else size) % WORD_RANGE
  }

  /** Where a page is, found or newly put there, and on which partition the object is then. */
  ghost predicate Homed(parts: seq<Part>, pageSize: nat, pager: Pager, page: nat, cur: nat, e: Entry)
    requires pager.Valid()
  {
    exists mid :: Attached(parts, pageSize, pager, page, mid) && HomedFrom(parts, pageSize, pager, page, mid, cur, e)
  }

  ghost predicate HomedFrom(parts: seq<Part>, pageSize: nat, pager: Pager, page: nat, mid: nat, cur: nat, e: Entry)
    requires pager.Valid()
  {
    if mid == P_INDEX_INVALID then cur == mid && e == NO_BLOCK
    else if !NoPage(pager, page) then cur == mid && e == pager.Flat()[page]
    else Spills(parts, pageSize, mid, cur, e)
  }

  /** An object that is on a partition, or gets on one, has its map reach the page asked for. */
  ghost predicate Grows(pager: Pager, page: nat, maxDoubled: nat, pager': Pager) {
    if pager'.curPartition == P_INDEX_INVALID then pager'.size == pager.size
    else Reaches(pager.size, page, maxDoubled, pager'.size)
  }

  /** The entry that an object's map has for a page. */
  ghost function EntryOf(pager: Pager, page: nat): Entry
    requires pager.Valid()
  {
    if page < pager.size then pager.Flat()[page] else NO_BLOCK
  }

  /** The first other partition with room has a slot whose index names one that gives no block. */
  ghost predicate Misnamed(parts: seq<Part>, pageSize: nat, cur: nat) {
    exists i: nat :: FirstCandidate(parts, pageSize, pageSize, cur, i)
                     && Index(i) != P_INDEX_INVALID && !Gives(parts, Index(i))
  }

  /** An index that gives no block is chosen only if no other partition that can be named has room. */
  lemma NotGiven(parts: seq<Part>, pageSize: nat, cur: nat, c: nat)
    requires Chosen(parts, pageSize, pageSize, cur, c) && (c == P_INDEX_INVALID || !Gives(parts, c)) && pageSize > 0
    ensures NoRoomBut(parts, pageSize, cur)
  {
    ChosenNamed(parts, pageSize, pageSize, cur, c);
    CandidateGives(parts, pageSize, cur, c);
  }

  lemma CandidateGives(parts: seq<Part>, pageSize: nat, cur: nat, i: nat)
    requires pageSize > 0
    ensures Candidate(parts, pageSize, i, pageSize, cur) ==> Gives(parts, i)
  {
    assert 0 * pageSize == 0;
  }

  /** With every partition named none is misnamed. */
  lemma NamedRight(parts: seq<Part>, pageSize: nat, cur: nat)
    requires AllNamed(parts) && pageSize > 0
    ensures !Misnamed(parts, pageSize, cur)
  {
    forall i: nat | FirstCandidate(parts, pageSize, pageSize, cur, i) ensures Gives(parts, Index(i)) {
      CandidateGives(parts, pageSize, cur, i);
    }
  }

  /** An index was chosen that gives no block if and only if the first candidate is misnamed. */
  lemma WhenMisnamed(parts: seq<Part>, pageSize: nat, cur: nat, c: nat)
    requires Chosen(parts, pageSize, pageSize, cur, c)
    ensures Misnamed(parts, pageSize, cur) <==> c != P_INDEX_INVALID && !Gives(parts, c)
  {
    if i: nat :| FirstCandidate(parts, pageSize, pageSize, cur, i) && c == Index(i) {
      forall j: nat | FirstCandidate(parts, pageSize, pageSize, cur, j) ensures j == i {
        FirstIsOne(parts, pageSize, pageSize, cur, i, j);
      }
    }
  }

  /** When neither `cur` nor any other partition has room, none has. */
  lemma OnlyCandidate(parts: seq<Part>, pageSize: nat, cur: nat)
    requires NoRoomBut(parts, pageSize, cur) && pageSize > 0 && !Gives(parts, cur)
    ensures NoRoomBut(parts, pageSize, P_INDEX_INVALID)
  {
    forall i: nat | i < P_INDEX_INVALID ensures !Candidate(parts, pageSize, i, pageSize, P_INDEX_INVALID) {
      assert !Candidate(parts, pageSize, i, pageSize, cur);
    }
  }

  /** An object's current partition stayed, or became another slot. */
  ghost predicate CursorFrom(parts: seq<Part>, pager: Pager, pager': Pager) {
    || pager'.curPartition == pager.curPartition
    || (pager'.curPartition != P_INDEX_INVALID && pager'.curPartition < |parts|)
  }

  /** The bytes of a page moved from block `e` to block `f` in one read and one write, the two of
      which carried `n` bytes. */
  ghost function Carried(parts: seq<Part>, e: Entry, f: Entry, n: nat): Page
    requires InRange(parts, e) && InRange(parts, f)
    requires |parts[e.pIndex].pages[e.pOffset]| == |parts[f.pIndex].pages[f.pOffset]|
  {
    MovedPage(parts[e.pIndex].pages[e.pOffset], parts[f.pIndex].pages[f.pOffset], n)
  }

  /** Block `e` moved to `f`, a free block of a partition that is not going away. */
  ghost predicate MoveStep(before: seq<Part>, after: seq<Part>, e: Entry, f: Entry, n: nat) {
    && InRange(before, e) && InRange(before, f) && f.pIndex < P_INDEX_INVALID
    && !before[f.pIndex].Bit(f.pOffset) && before[f.pIndex].free > 0 && !before[f.pIndex].goingAway
    && |before[e.pIndex].pages[e.pOffset]| == |before[f.pIndex].pages[f.pOffset]|
    && n >= Min(|before[e.pIndex].pages[e.pOffset]|, Min(before[e.pIndex].transfer, before[f.pIndex].transfer))
    && after == AfterMove(before, e, f, Carried(before, e, f, n))
  }

  lemma MapsUpdate(pagers: map<nat, Pager>, o: nat, pager: Pager)
    requires PagersValid(pagers) && pager.Valid()
    ensures PagersValid(pagers[o := pager])
    ensures MapsOf(pagers[o := pager]) == MapsOf(pagers)[o := pager.Flat()]
  {
  }

  /** The same partitions, up to their bitmaps, free counts and pages. */
  ghost predicate SameParts(parts: seq<Part>, parts': seq<Part>) {
    |parts'| == |parts| && forall i | 0 <= i < |parts| :: SamePart(parts[i], parts'[i])
  }

  predicate SamePart(part: Part, part': Part) {
    && part.Part? == part'.Part?
    && (part.Part? ==>
          && part'.total == part.total && part'.id == part.id
          && part'.goingAway == part.goingAway && part'.transfer == part.transfer)
  }

  lemma CursorsKept(parts: seq<Part>, parts': seq<Part>, pagers: map<nat, Pager>, o: nat, pager': Pager)
    requires PagersValid(pagers) && CursorsOk(parts, pagers) && SameParts(parts, parts')
    requires o in pagers && pager'.Valid() && CursorFrom(parts, pagers[o], pager')
    requires pager'.curPartition == P_INDEX_INVALID ==> pager' == pagers[o]
    ensures PagersValid(pagers[o := pager']) && CursorsOk(parts', pagers[o := pager'])
  {
    var pagers' := pagers[o := pager'];
    forall x | x in pagers' ensures CursorOk(parts', pagers'[x]) {
      assert CursorOk(parts, pagers[x]);
    }
  }

  lemma PutValid(parts: seq<Part>, e: Entry, page: Page, pageSize: nat)
    requires PartsValid(parts, pageSize) && InRange(parts, e) && |page| == pageSize
    ensures PartsValid(PutAt(parts, e, page), pageSize)
  {
    WithPageValid(parts[e.pIndex], e.pOffset, page, pageSize);
  }

  lemma LookedSlots(parts: seq<Part>, parts1: seq<Part>, flat: seq<Entry>, flat': seq<Entry>, page: nat, e: Entry,
                    bytes: Page)
    requires Looked(parts, parts1, flat, flat', page, e) && InRange(parts1, e)
    ensures SameParts(parts, PutAt(parts1, e, bytes))
  {
  }

  /** A write that got a block leaves the page with the bytes of the block, whatever they are. */
  lemma WriteSound(s: State, pageSize: nat, o: nat, parts1: seq<Part>, pager': Pager, page: nat, e: Entry,
                   bytes: Page)
    requires Sound(s, pageSize) && o in s.pagers && pager'.Valid() && PartsValid(parts1, pageSize)
    requires Looked(s.parts, parts1, s.pagers[o].Flat(), pager'.Flat(), page, e) && e != NO_BLOCK
    requires CursorFrom(s.parts, s.pagers[o], pager') && pager'.curPartition != P_INDEX_INVALID
    requires |bytes| == pageSize && InRange(parts1, e)
    ensures var s' := State(PutAt(parts1, e, bytes), s.pagers[o := pager']);
            && Sound(s', pageSize) && ContentsOf(s', pageSize) == ContentsOf(s, pageSize)[(o, page) := bytes]
            && SameParts(s.parts, s'.parts)
  {
    MapsUpdate(s.pagers, o, pager');
    LookWrite(s.parts, MapsOf(s.pagers), o, parts1, pager'.Flat(), page, e, bytes);
    PutValid(parts1, e, bytes, pageSize);
    LookedSlots(s.parts, parts1, s.pagers[o].Flat(), pager'.Flat(), page, e, bytes);
    CursorsKept(s.parts, PutAt(parts1, e, bytes), s.pagers, o, pager');
  }

  /** A write that got no block changes nothing a reader could see. */
  lemma NoBlockSound(s: State, pageSize: nat, o: nat, pager': Pager, page: nat)
    requires Sound(s, pageSize) && o in s.pagers && pager'.Valid()
    requires CursorFrom(s.parts, s.pagers[o], pager') && pager'.curPartition != P_INDEX_INVALID
    requires Looked(s.parts, s.parts, s.pagers[o].Flat(), pager'.Flat(), page, NO_BLOCK)
    ensures var s' := s.(pagers := s.pagers[o := pager']);
            Sound(s', pageSize) && ContentsOf(s', pageSize) == ContentsOf(s, pageSize)
    ensures (o, page) !in ContentsOf(s, pageSize)
  {
    LookFound(s.parts, MapsOf(s.pagers), o, pager'.Flat(), page);
    MapsUpdate(s.pagers, o, pager');
    CursorsKept(s.parts, s.parts, s.pagers, o, pager');
  }

  /** An object without a current partition has no pages. */
  lemma NoCursorNoPage(s: State, pageSize: nat, o: nat, page: nat)
    requires Sound(s, pageSize) && o in s.pagers && s.pagers[o].curPartition == P_INDEX_INVALID
    ensures (o, page) !in ContentsOf(s, pageSize)
  {
    assert CursorOk(s.parts, s.pagers[o]);
    assert !Mapped(MapsOf(s.pagers), o, page);
  }

  /** All mapped pages of an object lie in blocks in use. */
  ghost predicate EntriesInUse(parts: seq<Part>, flat: seq<Entry>) {
    forall p | 0 <= p < |flat| && flat[p] != NO_BLOCK :: InUse(parts, flat[p]) && InRange(parts, flat[p])
  }

  lemma SoundEntries(s: State, pageSize: nat, o: nat)
    requires Sound(s, pageSize) && o in s.pagers
    ensures EntriesInUse(s.parts, s.pagers[o].Flat()) && CursorOk(s.parts, s.pagers[o])
  {
    var m := MapsOf(s.pagers);
    forall p | 0 <= p < |m[o]| && m[o][p] != NO_BLOCK ensures InUse(s.parts, m[o][p]) && InRange(s.parts, m[o][p]) {
      assert Mapped(m, o, p) && InUse(s.parts, m[o][p]);
    }
  }

  /** How a write leaves the partitions and the object: the page looked up (`parts1`), then
      its block, if it got one, holding `bytes`. */
  ghost predicate WriteStep(parts: seq<Part>, pager: Pager, pageSize: nat, page: nat, data: Page,
                            e: Entry, ok: bool, parts1: seq<Part>, bytes: Page, parts': seq<Part>, pager': Pager)
  {
    && pager.Valid() && pager'.Valid() && CursorFrom(parts, pager, pager') && PartsValid(parts1, pageSize)
    && (pager'.curPartition == P_INDEX_INVALID ==> e == NO_BLOCK && pager' == pager)
    && (pager'.curPartition != P_INDEX_INVALID ==> Looked(parts, parts1, pager.Flat(), pager'.Flat(), page, e))
    && if e == NO_BLOCK then
         parts' == parts1 == parts && NoRoomBut(parts, pageSize, P_INDEX_INVALID)
       else
         && InRange(parts1, e) && parts' == PutAt(parts1, e, bytes)
         && |bytes| == pageSize && (ok ==> bytes == data)
  }

  /** A step of a write that changes the storage from `s` to `s'`. */
  ghost predicate WroteState(s: State, s': State, pageSize: nat, o: nat, page: nat, data: Page,
                             e: Entry, ok: bool, parts1: seq<Part>, bytes: Page)
  {
    && o in s.pagers && o in s'.pagers && s'.pagers == s.pagers[o := s'.pagers[o]]
    && WriteStep(s.parts, s.pagers[o], pageSize, page, data, e, ok, parts1, bytes, s'.parts, s'.pagers[o])
  }

  lemma WriteDone(s: State, s': State, pageSize: nat, o: nat, page: nat, data: Page,
                  e: Entry, ok: bool, parts1: seq<Part>, bytes: Page)
    requires Sound(s, pageSize) && e != NO_BLOCK
    requires WroteState(s, s', pageSize, o, page, data, e, ok, parts1, bytes)
    ensures Sound(s', pageSize) && SameParts(s.parts, s'.parts)
    ensures ContentsOf(s', pageSize) == ContentsOf(s, pageSize)[(o, page) := bytes]
  {
    WriteSound(s, pageSize, o, parts1, s'.pagers[o], page, e, bytes);
  }

  lemma WriteFailed(s: State, s': State, pageSize: nat, o: nat, page: nat, data: Page,
                    e: Entry, ok: bool, parts1: seq<Part>, bytes: Page)
    requires Sound(s, pageSize) && e == NO_BLOCK
    requires WroteState(s, s', pageSize, o, page, data, e, ok, parts1, bytes)
    ensures Sound(s', pageSize) && s'.parts == s.parts
    ensures ContentsOf(s', pageSize) == ContentsOf(s, pageSize) && (o, page) !in ContentsOf(s, pageSize)
    ensures NoRoomBut(s'.parts, pageSize, P_INDEX_INVALID)
  {
    if s'.pagers[o].curPartition == P_INDEX_INVALID {
      NoCursorNoPage(s, pageSize, o, page);
      assert s'.pagers == s.pagers;
    } else {
      NoBlockSound(s, pageSize, o, s'.pagers[o], page);
    }
  }

  /** How a releasing read leaves the partitions and the object. */
  ghost predicate ReleaseStep(parts: seq<Part>, pager: Pager, page: nat, parts': seq<Part>, pager': Pager) {
    && pager.Valid() && pager'.Valid() && page < pager.size
    && pager'.curPartition == pager.curPartition && pager'.Flat() == pager.Flat()[page := NO_BLOCK]
    && InRange(parts, pager.Flat()[page]) && parts' == GiveAt(parts, pager.Flat()[page])
  }

  /** Releasing a page takes it away and changes no other. */
  lemma ReleaseSound(s: State, s': State, pageSize: nat, o: nat, page: nat)
    requires Sound(s, pageSize) && o in s.pagers && o in s'.pagers
    requires ReleaseStep(s.parts, s.pagers[o], page, s'.parts, s'.pagers[o])
    requires s.pagers[o].Flat()[page] != NO_BLOCK
    requires s'.pagers == s.pagers[o := s'.pagers[o]]
    ensures Sound(s', pageSize) && ContentsOf(s', pageSize) == ContentsOf(s, pageSize) - {(o, page)}
    ensures SameParts(s.parts, s'.parts)
  {
    var m := MapsOf(s.pagers);
    var e := m[o][page];
    assert Mapped(m, o, page);
    MapsUpdate(s.pagers, o, s'.pagers[o]);
    Release(s.parts, m, o, page);
    GiveAtValid(s.parts, e, pageSize);
    CursorsGiven(s.parts, s'.parts, s.pagers, o, s'.pagers[o]);
  }

  /** A page is absent exactly when its entry is NO_BLOCK; otherwise its bytes are those
      of its block. */
  lemma PageOf(s: State, pageSize: nat, o: nat, page: nat)
    requires Sound(s, pageSize) && o in s.pagers && page < s.pagers[o].size
    ensures var e := s.pagers[o].Flat()[page];
            if e == NO_BLOCK then (o, page) !in ContentsOf(s, pageSize)
            else InUse(s.parts, e) && InRange(s.parts, e) && (o, page) in ContentsOf(s, pageSize)
                 && ContentsOf(s, pageSize)[(o, page)] == s.parts[e.pIndex].pages[e.pOffset]
  {
    var m := MapsOf(s.pagers);
    assert Mapped(m, o, page) <==> m[o][page] != NO_BLOCK;
    if Mapped(m, o, page) {
      assert InUse(s.parts, m[o][page]);
    }
  }

  lemma GiveAtValid(parts: seq<Part>, e: Entry, pageSize: nat)
    requires PartsValid(parts, pageSize) && InUse(parts, e) && InRange(parts, e)
    ensures PartsValid(GiveAt(parts, e), pageSize) && SameParts(parts, GiveAt(parts, e))
  {
    GiveValid(parts[e.pIndex], e.pOffset, pageSize);
  }

  lemma CursorsGiven(parts: seq<Part>, parts': seq<Part>, pagers: map<nat, Pager>, o: nat, pager': Pager)
    requires PagersValid(pagers) && CursorsOk(parts, pagers) && SameParts(parts, parts')
    requires o in pagers && pager'.Valid() && pager'.curPartition == pagers[o].curPartition
    requires pager'.size == pagers[o].size
    requires forall p | 0 <= p < pager'.size :: pager'.Flat()[p] != NO_BLOCK ==> pagers[o].Flat()[p] != NO_BLOCK
    ensures PagersValid(pagers[o := pager']) && CursorsOk(parts', pagers[o := pager'])
  {
    var pagers' := pagers[o := pager'];
    forall x | x in pagers' ensures CursorOk(parts', pagers'[x]) {
      assert CursorOk(parts, pagers[x]);
    }
  }

  /** What a caller of default_write sees: on success the page holds `data`. It fails either
      because no partition has room for a page that was absent, and then no page changed, or
      because the device failed, and then only this page may hold other bytes. */
  ghost predicate WriteOutcome(s': State, log: seq<Event>, log': seq<Event>, pageSize: nat,
                               o: nat, page: nat, data: Page, rc: PagerResult)
  {
    match rc
    case PAGER_SUCCESS => log' == log + [Wrote(o, page, data)]
    case PAGER_ERROR =>
      || (log' == log && (o, page) !in Replay(log) && NoRoomBut(s'.parts, pageSize, P_INDEX_INVALID))
      || ((o, page) in Replay(log') && log' == log + [Garbled(o, page, Replay(log')[(o, page)])])
    case PAGER_ABSENT => false
    case PAGER_PANIC => false
  }

  lemma WriteDoneRecorded(s: State, s': State, log: seq<Event>, pageSize: nat, o: nat, page: nat,
                          data: Page, e: Entry, ok: bool, parts1: seq<Part>, bytes: Page)
    requires Recorded(s, log, pageSize) && e != NO_BLOCK
    requires WroteState(s, s', pageSize, o, page, data, e, ok, parts1, bytes)
    ensures var log' := log + [if ok then Wrote(o, page, data) else Garbled(o, page, bytes)];
            && Recorded(s', log', pageSize) && SameParts(s.parts, s'.parts)
            && WriteOutcome(s', log, log', pageSize, o, page, data, if ok then PAGER_SUCCESS else PAGER_ERROR)
  {
    var event := if ok then Wrote(o, page, data) else Garbled(o, page, bytes);
    WriteDoneKept(s, s', log, pageSize, o, page, data, e, ok, parts1, bytes, event);
    WriteLogged(s', log, pageSize, o, page, data, ok, bytes);
  }

  lemma WriteDoneKept(s: State, s': State, log: seq<Event>, pageSize: nat, o: nat, page: nat,
                      data: Page, e: Entry, ok: bool, parts1: seq<Part>, bytes: Page, event: Event)
    requires Recorded(s, log, pageSize) && e != NO_BLOCK
    requires WroteState(s, s', pageSize, o, page, data, e, ok, parts1, bytes)
    requires event == if ok then Wrote(o, page, data) else Garbled(o, page, bytes)
    ensures Recorded(s', log + [event], pageSize) && SameParts(s.parts, s'.parts)
  {
    RecordedSound(s, log, pageSize);
    WriteDone(s, s', pageSize, o, page, data, e, ok, parts1, bytes);
    RecordStep(s', log, event, pageSize);
  }

  lemma WriteLogged(s': State, log: seq<Event>, pageSize: nat, o: nat, page: nat, data: Page, ok: bool, bytes: Page)
    ensures var log' := log + [if ok then Wrote(o, page, data) else Garbled(o, page, bytes)];
            WriteOutcome(s', log, log', pageSize, o, page, data, if ok then PAGER_SUCCESS else PAGER_ERROR)
  {
    ReplayStep(log, if ok then Wrote(o, page, data) else Garbled(o, page, bytes));
  }

  lemma WriteFailedRecorded(s: State, s': State, log: seq<Event>, pageSize: nat, o: nat, page: nat,
                            data: Page, e: Entry, ok: bool, parts1: seq<Part>, bytes: Page)
    requires Recorded(s, log, pageSize) && e == NO_BLOCK
    requires WroteState(s, s', pageSize, o, page, data, e, ok, parts1, bytes)
    ensures Recorded(s', log, pageSize) && s'.parts == s.parts
    ensures WriteOutcome(s', log, log, pageSize, o, page, data, PAGER_ERROR)
  {
    RecordedSound(s, log, pageSize);
    WriteFailed(s, s', pageSize, o, page, data, e, ok, parts1, bytes);
    SoundRecorded(s', log, pageSize);
  }

  lemma RecordStep(s': State, log: seq<Event>, event: Event, pageSize: nat)
    requires Sound(s', pageSize) && ContentsOf(s', pageSize) == Apply(Replay(log), event)
    ensures Recorded(s', log + [event], pageSize)
    ensures Replay(log + [event]) == Apply(Replay(log), event)
  {
    ReplayStep(log, event);
    SoundRecorded(s', log + [event], pageSize);
  }

  /** How a read leaves the object and what it returns, given the block of the page. */
  ghost predicate ReadStep(s: State, s': State, o: nat, page: nat, deallocate: bool, rc: PagerResult, data: Page)
  {
    && o in s.pagers && s.pagers[o].Valid() && page < s.pagers[o].size
    && var e := s.pagers[o].Flat()[page];
       if e == NO_BLOCK then
         rc.PAGER_ABSENT? && s' == s
       else
         && InRange(s.parts, e) && !rc.PAGER_ABSENT?
         && (rc.PAGER_SUCCESS? ==> data == s.parts[e.pIndex].pages[e.pOffset])
         && if rc.PAGER_SUCCESS? && deallocate then
              && o in s'.pagers && s'.pagers == s.pagers[o := s'.pagers[o]]
              && ReleaseStep(s.parts, s.pagers[o], page, s'.parts, s'.pagers[o])
            else s' == s
  }

  lemma ReadRecorded(s: State, s': State, log: seq<Event>, log': seq<Event>, pageSize: nat, o: nat, page: nat,
                     deallocate: bool, rc: PagerResult, data: Page)
    requires Recorded(s, log, pageSize) && ReadStep(s, s', o, page, deallocate, rc, data)
    requires log' == log + if rc.PAGER_SUCCESS? && deallocate then [Released(o, page)] else []
    ensures Recorded(s', log', pageSize) && s'.pagers.Keys == s.pagers.Keys && SameParts(s.parts, s'.parts)
    ensures rc.PAGER_ABSENT? <==> (o, page) !in Replay(log)
    ensures rc.PAGER_SUCCESS? ==> data == Replay(log)[(o, page)]
  {
    PageLogged(s, log, pageSize, o, page);
    if rc.PAGER_SUCCESS? && deallocate {
      ReleaseRecorded(s, s', log, pageSize, o, page);
    } else {
      assert log' == log;
    }
  }

  lemma PageLogged(s: State, log: seq<Event>, pageSize: nat, o: nat, page: nat)
    requires Recorded(s, log, pageSize) && o in s.pagers && s.pagers[o].Valid() && page < s.pagers[o].size
    ensures var e := s.pagers[o].Flat()[page];
            if e == NO_BLOCK then (o, page) !in Replay(log)
            else InRange(s.parts, e) && (o, page) in Replay(log)
                 && Replay(log)[(o, page)] == s.parts[e.pIndex].pages[e.pOffset]
  {
    RecordedSound(s, log, pageSize);
    PageOf(s, pageSize, o, page);
  }

  lemma ReleaseRecorded(s: State, s': State, log: seq<Event>, pageSize: nat, o: nat, page: nat)
    requires Recorded(s, log, pageSize) && o in s.pagers && o in s'.pagers
    requires ReleaseStep(s.parts, s.pagers[o], page, s'.parts, s'.pagers[o])
    requires s.pagers[o].Flat()[page] != NO_BLOCK && s'.pagers == s.pagers[o := s'.pagers[o]]
    ensures Recorded(s', log + [Released(o, page)], pageSize) && SameParts(s.parts, s'.parts)
  {
    RecordedSound(s, log, pageSize);
    ReleaseSound(s, s', pageSize, o, page);
    RecordStep(s', log, Released(o, page), pageSize);
  }

  /** What an operation on object `o` may rely on before it starts. */
  lemma Ready(s: State, log: seq<Event>, pageSize: nat, o: nat)
    requires Recorded(s, log, pageSize) && o in s.pagers
    ensures pageSize > 0 && PartsValid(s.parts, pageSize) && s.pagers[o].Valid()
    ensures CursorOk(s.parts, s.pagers[o]) && EntriesInUse(s.parts, s.pagers[o].Flat())
  {
    RecordedSound(s, log, pageSize);
    SoundEntries(s, pageSize, o);
  }

  /** A new object holds nothing. */
  lemma CreateRecorded(s: State, s': State, log: seq<Event>, pageSize: nat, o: nat)
    requires Recorded(s, log, pageSize) && o !in s.pagers && o in s'.pagers
    requires s'.parts == s.parts && s'.pagers == s.pagers[o := s'.pagers[o]]
    requires s'.pagers[o].Valid() && s'.pagers[o].Flat() == Blanks(s'.pagers[o].size)
    requires CursorOk(s.parts, s'.pagers[o])
    ensures Recorded(s', log, pageSize)
  {
    RecordedSound(s, log, pageSize);
    AddObject(s.parts, MapsOf(s.pagers), o, s'.pagers[o].size);
    MapsUpdate(s.pagers, o, s'.pagers[o]);
    SoundRecorded(s', log, pageSize);
  }

  lemma DeleteCursors(parts: seq<Part>, parts': seq<Part>, pagers: map<nat, Pager>, o: nat)
    requires PagersValid(pagers) && CursorsOk(parts, pagers) && SameParts(parts, parts')
    ensures PagersValid(pagers - {o}) && CursorsOk(parts', pagers - {o})
    ensures MapsOf(pagers - {o}) == MapsOf(pagers) - {o}
  {
    var pagers' := pagers - {o};
    forall x | x in pagers' ensures CursorOk(parts', pagers'[x]) {
      assert CursorOk(parts, pagers[x]);
    }
  }

  /** Deleting an object whose blocks are all released takes its pages away and no others. */
  lemma DeleteRecorded(s: State, s': State, log: seq<Event>, pageSize: nat, o: nat)
    requires Recorded(s, log, pageSize) && o in s.pagers && s.pagers[o].Valid() && PagersValid(s.pagers)
    requires PartsOk(s.parts) && AllInUse(s.parts, MapsOf(s.pagers))
    requires PartsValid(s'.parts, pageSize) && SameParts(s.parts, s'.parts) && s'.pagers == s.pagers - {o}
    requires Clearing(s.parts, MapsOf(s.pagers), o, s.pagers[o].size, s'.parts)
    ensures Recorded(s', log + [Deleted(o)], pageSize)
  {
    RecordedSound(s, log, pageSize);
    ClearingEnd(s.parts, MapsOf(s.pagers), o, s'.parts);
    DeleteCursors(s.parts, s'.parts, s.pagers, o);
    assert Apply(Replay(log), Deleted(o)) == Others(Replay(log), o);
    RecordStep(s', log, Deleted(o), pageSize);
  }

  lemma DeleteStart(s: State, log: seq<Event>, pageSize: nat, o: nat)
    requires Recorded(s, log, pageSize) && o in s.pagers
    ensures PagersValid(s.pagers) && PartsOk(s.parts) && AllInUse(s.parts, MapsOf(s.pagers))
    ensures Clearing(s.parts, MapsOf(s.pagers), o, 0, s.parts)
  {
    RecordedSound(s, log, pageSize);
    ClearingStart(s.parts, MapsOf(s.pagers), o);
  }

  /** One transfer of any partition covers a whole page. */
  ghost predicate WholePages(parts: seq<Part>, pageSize: nat) {
    forall i | 0 <= i < |parts| && parts[i].Part? :: parts[i].transfer >= pageSize
  }

  /** How a move leaves the storage: page `p` of object `o` is now in block `f`. */
  ghost predicate MovedState(s: State, s': State, pageSize: nat, o: nat, p: nat, f: Entry, n: nat) {
    && o in s.pagers && o in s'.pagers && s'.pagers == s.pagers[o := s'.pagers[o]]
    && s.pagers[o].Valid() && s'.pagers[o].Valid() && p < s.pagers[o].size
    && s'.pagers[o].curPartition == s.pagers[o].curPartition
    && s'.pagers[o].Flat() == s.pagers[o].Flat()[p := f]
    && s.pagers[o].Flat()[p] != NO_BLOCK
    && MoveStep(s.parts, s'.parts, s.pagers[o].Flat()[p], f, n)
    && PartsValid(s'.parts, pageSize)
  }

  lemma MoveSameParts(parts: seq<Part>, parts': seq<Part>, e: Entry, f: Entry, n: nat)
    requires MoveStep(parts, parts', e, f, n)
    ensures SameParts(parts, parts')
  {
  }

  /** A move changes at most the page that moves, to what one transfer carried. */
  lemma MoveSound(s: State, s': State, pageSize: nat, o: nat, p: nat, f: Entry, n: nat)
    requires Sound(s, pageSize) && MovedState(s, s', pageSize, o, p, f, n)
    ensures Sound(s', pageSize) && SameParts(s.parts, s'.parts)
    ensures ContentsOf(s', pageSize) ==
            ContentsOf(s, pageSize)[(o, p) := Carried(s.parts, s.pagers[o].Flat()[p], f, n)]
  {
    var m := MapsOf(s.pagers);
    var e := m[o][p];
    assert Mapped(m, o, p);
    Move(s.parts, m, o, p, f, Carried(s.parts, e, f, n));
    MapsUpdate(s.pagers, o, s'.pagers[o]);
    MoveSameParts(s.parts, s'.parts, e, f, n);
    CursorsGiven(s.parts, s'.parts, s.pagers, o, s'.pagers[o]);
  }

  /** What a move adds to the run: nothing, unless the transfer was too short to carry the
      whole page. */
  ghost function MoveEvents(s: State, o: nat, p: nat, f: Entry, n: nat): (r: seq<Event>)
    requires o in s.pagers && s.pagers[o].Valid() && p < s.pagers[o].size
    requires InRange(s.parts, s.pagers[o].Flat()[p]) && InRange(s.parts, f)
    requires var e := s.pagers[o].Flat()[p];
             |s.parts[e.pIndex].pages[e.pOffset]| == |s.parts[f.pIndex].pages[f.pOffset]|
    ensures forall i | 0 <= i < |r| :: r[i].Garbled? && r[i].o == o && r[i].p == p
  {
    var e := s.pagers[o].Flat()[p];
    if Carried(s.parts, e, f, n) == s.parts[e.pIndex].pages[e.pOffset] then []
    else [Garbled(o, p, Carried(s.parts, e, f, n))]
  }

  lemma MoveRecorded(s: State, s': State, log: seq<Event>, pageSize: nat, o: nat, p: nat, f: Entry, n: nat)
    requires Recorded(s, log, pageSize) && MovedState(s, s', pageSize, o, p, f, n)
    ensures Recorded(s', log + MoveEvents(s, o, p, f, n), pageSize) && SameParts(s.parts, s'.parts)
    ensures var log' := log + MoveEvents(s, o, p, f, n); OnlyGarbled(log, log', {(o, p)}) && OnlyOf(log, log', o)
    ensures WholePages(s.parts, pageSize) ==> log + MoveEvents(s, o, p, f, n) == log
  {
    MoveLogged(s, s', log, pageSize, o, p, f, n);
    var page := Carried(s.parts, s.pagers[o].Flat()[p], f, n);
    if MoveEvents(s, o, p, f, n) == [] {
      SameBytes(s', log, pageSize, o, p, page);
      assert log + [] == log;
    } else {
      RecordStep(s', log, Garbled(o, p, page), pageSize);
    }
    if WholePages(s.parts, pageSize) {
      WholeMoveSilent(s, pageSize, o, p, f, n, s');
    }
  }

  lemma MoveLogged(s: State, s': State, log: seq<Event>, pageSize: nat, o: nat, p: nat, f: Entry, n: nat)
    requires Recorded(s, log, pageSize) && MovedState(s, s', pageSize, o, p, f, n)
    ensures Sound(s', pageSize) && SameParts(s.parts, s'.parts) && PartsValid(s.parts, pageSize)
    ensures var e := s.pagers[o].Flat()[p];
            && ContentsOf(s', pageSize) == Replay(log)[(o, p) := Carried(s.parts, e, f, n)]
            && (o, p) in Replay(log) && Replay(log)[(o, p)] == s.parts[e.pIndex].pages[e.pOffset]
  {
    RecordedSound(s, log, pageSize);
    MoveSound(s, s', pageSize, o, p, f, n);
    PageLogged(s, log, pageSize, o, p);
  }

  lemma SameBytes(s': State, log: seq<Event>, pageSize: nat, o: nat, p: nat, page: Page)
    requires Sound(s', pageSize) && ContentsOf(s', pageSize) == Replay(log)[(o, p) := page]
    requires (o, p) in Replay(log) && Replay(log)[(o, p)] == page
    ensures Recorded(s', log, pageSize)
  {
    assert Replay(log)[(o, p) := page] == Replay(log);
    SoundRecorded(s', log, pageSize);
  }

  /** With whole-page transfers a move adds nothing to the run: every page keeps its bytes. */
  lemma WholeMoveSilent(s: State, pageSize: nat, o: nat, p: nat, f: Entry, n: nat, s': State)
    requires MovedState(s, s', pageSize, o, p, f, n) && WholePages(s.parts, pageSize) && PartsValid(s.parts, pageSize)
    ensures MoveEvents(s, o, p, f, n) == []
  {
    var e := s.pagers[o].Flat()[p];
    assert |s.parts[e.pIndex].pages[e.pOffset]| == pageSize;
    MoveIntact(pageSize, n);
  }

  /** Pages have only left partition `i`, and the run went on with nothing but short moves of
      pages that lay there. */
  ghost predicate LeftOnly(pagers: map<nat, Pager>, pagers': map<nat, Pager>,
                           log: seq<Event>, log': seq<Event>, i: nat)
  {
    && PagersValid(pagers) && PagersValid(pagers')
    && PagesIn(MapsOf(pagers'), i) <= PagesIn(MapsOf(pagers), i)
    && OnlyGarbled(log, log', PagesIn(MapsOf(pagers), i))
  }

  lemma LeftOnlySelf(s: State, log: seq<Event>, pageSize: nat, i: nat)
    requires Recorded(s, log, pageSize)
    ensures LeftOnly(s.pagers, s.pagers, log, log, i)
  {
    RecordedSound(s, log, pageSize);
  }

  lemma LeftOnlyOn(p: map<nat, Pager>, q: map<nat, Pager>, r: map<nat, Pager>,
                   a: seq<Event>, b: seq<Event>, c: seq<Event>, i: nat)
    requires LeftOnly(p, q, a, b, i) && LeftOnly(q, r, b, c, i)
    ensures LeftOnly(p, r, a, c, i)
  {
    OnlyGarbledOn(a, b, c, PagesIn(MapsOf(p), i), PagesIn(MapsOf(q), i));
  }

  /** A new current partition moves no page. */
  lemma LeftOnlyCursor(p: map<nat, Pager>, q: map<nat, Pager>, a: seq<Event>, b: seq<Event>, i: nat, o: nat, c: nat)
    requires LeftOnly(p, q, a, b, i) && o in q
    requires q[o].(curPartition := c).Valid() && q[o].(curPartition := c).Flat() == q[o].Flat()
    ensures LeftOnly(p, q[o := q[o].(curPartition := c)], a, b, i)
  {
    MapsUpdate(q, o, q[o].(curPartition := c));
    assert MapsOf(q[o := q[o].(curPartition := c)]) == MapsOf(q);
  }

  /** A move of a page that lies in partition `i`. */
  lemma MoveLeaves(s: State, s': State, log: seq<Event>, log': seq<Event>, pageSize: nat,
                   o: nat, p: nat, f: Entry, n: nat, i: nat)
    requires Recorded(s, log, pageSize) && MovedState(s, s', pageSize, o, p, f, n)
    requires s.pagers[o].Flat()[p].pIndex == i
    requires OnlyGarbled(log, log', {(o, p)})
    ensures LeftOnly(s.pagers, s'.pagers, log, log', i)
  {
    RecordedSound(s, log, pageSize);
    MapsUpdate(s.pagers, o, s'.pagers[o]);
    PagesLeave(MapsOf(s.pagers), o, p, f, i);
  }

  /** All that a move of a page in partition `i` keeps. */
  lemma MoveInRecorded(s: State, s': State, log: seq<Event>, pageSize: nat, o: nat, p: nat, f: Entry, n: nat, i: nat)
    requires Recorded(s, log, pageSize) && MovedState(s, s', pageSize, o, p, f, n)
    requires s.pagers[o].Flat()[p].pIndex == i
    ensures ObjectMoved(s, s', log, log + MoveEvents(s, o, p, f, n), pageSize, o, i)
  {
    MoveRecorded(s, s', log, pageSize, o, p, f, n);
    MoveLeaves(s, s', log, log + MoveEvents(s, o, p, f, n), pageSize, o, p, f, n, i);
    SameWhole(s.parts, s'.parts, pageSize);
  }

  lemma SameWhole(parts: seq<Part>, parts': seq<Part>, pageSize: nat)
    requires SameParts(parts, parts')
    ensures WholePages(parts', pageSize) <==> WholePages(parts, pageSize)
    ensures AllNamed(parts') <==> AllNamed(parts)
  {
  }

  lemma PagesLeave(m: Maps, o: nat, p: nat, f: Entry, i: nat)
    requires o in m && p < |m[o]| && m[o][p] != NO_BLOCK && m[o][p].pIndex == i
    ensures PagesIn(m[o := m[o][p := f]], i) <= PagesIn(m, i) && (o, p) in PagesIn(m, i)
  {
    var m' := m[o := m[o][p := f]];
    assert Mapped(m, o, p);
    forall k | k in PagesIn(m', i) ensures k in PagesIn(m, i) {
      assert k == (k.0, k.1) && Mapped(m', k.0, k.1);
      assert Mapped(m, k.0, k.1);
    }
  }

  /** Every page is still there, and only those that lay in partition `i` can hold other bytes. */
  ghost predicate KeptBut(pagers: map<nat, Pager>, log: seq<Event>, log': seq<Event>, i: nat) {
    PagersValid(pagers) && SameBut(Replay(log), Replay(log'), PagesIn(MapsOf(pagers), i))
  }

  lemma LeftOnlyKeeps(s: State, pagers': map<nat, Pager>, log: seq<Event>, log': seq<Event>, pageSize: nat, i: nat)
    requires Recorded(s, log, pageSize) && LeftOnly(s.pagers, pagers', log, log', i)
    ensures KeptBut(s.pagers, log, log', i)
  {
    RecordedSound(s, log, pageSize);
    var m := MapsOf(s.pagers);
    forall k | k in PagesIn(m, i) ensures k in Replay(log) {
      assert k == (k.0, k.1) && Mapped(m, k.0, k.1) && k in MappedPages(m);
    }
    GarbledKeeps(log, log', PagesIn(m, i));
  }

  /** None of the first `p` pages lies in partition `i`. */
  predicate Vacated(flat: seq<Entry>, p: nat, i: nat) {
    p <= |flat| && forall q | 0 <= q < p :: flat[q].pIndex != i
  }

  /** What moving pages of object `o` that lie in partition `k` does. */
  ghost predicate ObjectMoved(s: State, s': State, log: seq<Event>, log': seq<Event>, pageSize: nat, o: nat, k: nat) {
    && Recorded(s', log', pageSize) && o in s.pagers && o in s'.pagers && s'.pagers == s.pagers[o := s'.pagers[o]]
    && s.pagers[o].Valid() && s'.pagers[o].Valid() && s'.pagers[o].size == s.pagers[o].size
    && SameParts(s.parts, s'.parts) && (WholePages(s'.parts, pageSize) ==> log' == log)
    && (AllNamed(s'.parts) <==> AllNamed(s.parts)) && LeftOnly(s.pagers, s'.pagers, log, log', k)
    && OnlyOf(log, log', o)
  }

  lemma ObjectMovedSelf(s: State, log: seq<Event>, pageSize: nat, o: nat, k: nat)
    requires Recorded(s, log, pageSize) && o in s.pagers
    ensures ObjectMoved(s, s, log, log, pageSize, o, k)
  {
    Ready(s, log, pageSize, o);
    LeftOnlySelf(s, log, pageSize, k);
  }

  lemma ObjectMovedOn(s: State, t: State, u: State, a: seq<Event>, b: seq<Event>, c: seq<Event>, pageSize: nat,
                      o: nat, k: nat)
    requires ObjectMoved(s, t, a, b, pageSize, o, k) && ObjectMoved(t, u, b, c, pageSize, o, k)
    ensures ObjectMoved(s, u, a, c, pageSize, o, k)
  {
    LeftOnlyOn(s.pagers, t.pagers, u.pagers, a, b, c, k);
    OnlyOfOn(a, b, c, o);
    SameWhole(t.parts, u.parts, pageSize);
    SameTwice(s.parts, t.parts, u.parts);
  }

  lemma SameTwice(parts: seq<Part>, parts1: seq<Part>, parts2: seq<Part>)
    requires SameParts(parts, parts1) && SameParts(parts1, parts2)
    ensures SameParts(parts, parts2)
  {
    forall i | 0 <= i < |parts| ensures SamePart(parts[i], parts2[i]) {
      assert SamePart(parts[i], parts1[i]) && SamePart(parts1[i], parts2[i]);
    }
  }

  /** Only partition `i` is going away. */
  predicate OnlyGoing(parts: seq<Part>, i: nat) {
    && i < |parts| && parts[i].Part? && parts[i].goingAway
    && forall j | 0 <= j < |parts| && j != i && parts[j].Part? :: !parts[j].goingAway
  }

  /** An object with no page in the partition going away may be given any slot, or none if no
      partition that stays can be named: it then has no pages at all. */
  lemma RecursorRecorded(s: State, s': State, log: seq<Event>, pageSize: nat, o: nat, i: nat, c: nat)
    requires Recorded(s, log, pageSize) && o in s.pagers && s.pagers[o].Valid()
    requires OnlyGoing(s.parts, i) && (i < P_INDEX_INVALID ==> Vacated(s.pagers[o].Flat(), s.pagers[o].size, i))
    requires c <= P_INDEX_INVALID && (c != P_INDEX_INVALID ==> c < |s.parts|)
    requires c == P_INDEX_INVALID ==> NoneFits(s.parts, pageSize, 0, P_INDEX_INVALID)
    requires s' == s.(pagers := s.pagers[o := s.pagers[o].(curPartition := c)])
    ensures Recorded(s', log, pageSize)
  {
    RecordedSound(s, log, pageSize);
    var pager' := s'.pagers[o];
    assert pager'.Valid() && pager'.Flat() == s.pagers[o].Flat();
    MapsUpdate(s.pagers, o, pager');
    assert MapsOf(s'.pagers) == MapsOf(s.pagers);
    if c == P_INDEX_INVALID {
      NoPartitionNoPage(s, pageSize, o, i);
    }
    forall x | x in s'.pagers ensures CursorOk(s'.parts, s'.pagers[x]) {
      assert x != o ==> CursorOk(s.parts, s.pagers[x]);
    }
    SoundRecorded(s', log, pageSize);
  }

  lemma NoPartitionNoPage(s: State, pageSize: nat, o: nat, i: nat)
    requires Sound(s, pageSize) && o in s.pagers && OnlyGoing(s.parts, i)
    requires i < P_INDEX_INVALID ==> Vacated(s.pagers[o].Flat(), s.pagers[o].size, i)
    requires NoneFits(s.parts, pageSize, 0, P_INDEX_INVALID)
    ensures forall p | 0 <= p < s.pagers[o].size :: s.pagers[o].Flat()[p] == NO_BLOCK
  {
    SoundEntries(s, pageSize, o);
    var flat := s.pagers[o].Flat();
    forall p | 0 <= p < s.pagers[o].size ensures flat[p] == NO_BLOCK {
      NoCandidateNoPage(s.parts, pageSize, flat, p, i);
    }
  }

  lemma NoCandidateNoPage(parts: seq<Part>, pageSize: nat, flat: seq<Entry>, p: nat, i: nat)
    requires PartsValid(parts, pageSize) && OnlyGoing(parts, i) && EntriesInUse(parts, flat)
    requires p < |flat| && (flat[p] != NO_BLOCK && i < P_INDEX_INVALID ==> flat[p].pIndex != i)
    requires NoneFits(parts, pageSize, 0, P_INDEX_INVALID)
    ensures flat[p] == NO_BLOCK
  {
    var i' := flat[p].pIndex;
    assert flat[p] != NO_BLOCK ==> InUse(parts, flat[p]) && i' < P_INDEX_INVALID;
    assert i' < P_INDEX_INVALID ==> !Candidate(parts, pageSize, i', 0, P_INDEX_INVALID);
  }

  /** No removal is in progress. */
  predicate NoneGoing(parts: seq<Part>) {
    forall j | 0 <= j < |parts| && parts[j].Part? :: !parts[j].goingAway
  }

  function WithGoing(parts: seq<Part>, i: nat, flag: bool): seq<Part>
    requires i < |parts| && parts[i].Part?
  {
    parts[i := parts[i].(goingAway := flag)]
  }

  /** Marking a partition changes no block and no page. */
  lemma FlagRecorded(s: State, log: seq<Event>, pageSize: nat, i: nat, flag: bool)
    requires Recorded(s, log, pageSize) && i < |s.parts| && s.parts[i].Part?
    ensures Recorded(s.(parts := WithGoing(s.parts, i, flag)), log, pageSize)
  {
    RecordedSound(s, log, pageSize);
    var parts' := WithGoing(s.parts, i, flag);
    FlagValid(s.parts, pageSize, i, flag);
    SameUsed(s.parts, parts', MapsOf(s.pagers));
    forall x | x in s.pagers ensures CursorOk(parts', s.pagers[x]) {
      assert CursorOk(s.parts, s.pagers[x]);
    }
    SoundRecorded(s.(parts := parts'), log, pageSize);
  }

  lemma FlagValid(parts: seq<Part>, pageSize: nat, i: nat, flag: bool)
    requires PartsValid(parts, pageSize) && i < |parts| && parts[i].Part?
    ensures PartsValid(WithGoing(parts, i, flag), pageSize)
    ensures forall e: Entry :: InUse(WithGoing(parts, i, flag), e) <==> InUse(parts, e)
  {
    var part, part' := parts[i], parts[i].(goingAway := flag);
    assert forall b: nat :: part'.Bit(b) <==> part.Bit(b);
    assert part'.Used() == part.Used();
  }

  /** No page of object `o` lies in partition `i`. */
  ghost predicate Left(pagers: map<nat, Pager>, o: nat, i: nat) {
    o in pagers && pagers[o].Valid() && Vacated(pagers[o].Flat(), pagers[o].size, i)
  }

  /** The partition is live and going away. */
  predicate Going(parts: seq<Part>, i: nat) {
    i < |parts| && parts[i].Part? && parts[i].goingAway
  }

  lemma StillGoing(parts: seq<Part>, parts': seq<Part>, i: nat)
    requires OnlyGoing(parts, i) && SameParts(parts, parts')
    ensures Going(parts', i)
  {
    assert SamePart(parts[i], parts'[i]);
  }

  lemma StillOnlyGoing(parts: seq<Part>, parts': seq<Part>, i: nat)
    requires OnlyGoing(parts, i) && SameParts(parts, parts')
    ensures OnlyGoing(parts', i)
  {
    assert SamePart(parts[i], parts'[i]);
    assert forall j | 0 <= j < |parts| :: SamePart(parts[j], parts'[j]);
  }

  /** What moving pages of several objects that lie in partition `k` does. */
  ghost predicate Evacuated(s: State, s': State, log: seq<Event>, log': seq<Event>, pageSize: nat, k: nat) {
    && Recorded(s', log', pageSize) && s'.pagers.Keys == s.pagers.Keys && SameParts(s.parts, s'.parts)
    && (WholePages(s'.parts, pageSize) ==> log' == log) && (AllNamed(s'.parts) <==> AllNamed(s.parts))
    && LeftOnly(s.pagers, s'.pagers, log, log', k)
  }

  lemma EvacuatedOn(s: State, t: State, u: State, a: seq<Event>, b: seq<Event>, c: seq<Event>, pageSize: nat,
                    o: nat, k: nat)
    requires Evacuated(s, t, a, b, pageSize, k) && ObjectMoved(t, u, b, c, pageSize, o, k)
    ensures Evacuated(s, u, a, c, pageSize, k)
  {
    LeftOnlyOn(s.pagers, t.pagers, u.pagers, a, b, c, k);
    SameWhole(t.parts, u.parts, pageSize);
    SameTwice(s.parts, t.parts, u.parts);
  }

  /** The object's current partition is not `i`, unless no partition that stays can be named. */
  ghost predicate CursorLeft(parts: seq<Part>, pageSize: nat, pager: Pager, i: nat) {
    pager.curPartition == i ==> NoneFits(parts, pageSize, 0, P_INDEX_INVALID)
  }

  /** Object `o` has left partition `i` altogether. */
  ghost predicate Gone(parts: seq<Part>, pageSize: nat, pagers: map<nat, Pager>, o: nat, i: nat) {
    Left(pagers, o, i) && CursorLeft(parts, pageSize, pagers[o], i)
  }

  lemma GoneOn(parts: seq<Part>, parts': seq<Part>, pageSize: nat, pagers: map<nat, Pager>, pagers': map<nat, Pager>,
               o: nat, x: nat, i: nat)
    requires Gone(parts, pageSize, pagers, x, i) && x != o && SameParts(parts, parts')
    requires o in pagers' && pagers' == pagers[o := pagers'[o]]
    ensures Gone(parts', pageSize, pagers', x, i)
  {
    SameFit(parts, parts', pageSize);
  }

  lemma AllGoneOn(s: State, s': State, log: seq<Event>, log': seq<Event>, pageSize: nat, o: nat, i: nat, todo: set<nat>)
    requires ObjectMoved(s, s', log, log', pageSize, o, Index(i)) && Gone(s'.parts, pageSize, s'.pagers, o, i)
    requires forall x | x in s.pagers && x !in todo :: Gone(s.parts, pageSize, s.pagers, x, i)
    ensures forall x | x in s'.pagers && x !in todo - {o} :: Gone(s'.parts, pageSize, s'.pagers, x, i)
  {
    forall x | x in s'.pagers && x !in todo - {o} ensures Gone(s'.parts, pageSize, s'.pagers, x, i) {
      if x != o { GoneOn(s.parts, s'.parts, pageSize, s.pagers, s'.pagers, o, x, i); }
    }
  }

  /** No index names a live partition. */
  predicate NoneNamed(parts: seq<Part>) {
    forall i | 0 <= i < |parts| && i < P_INDEX_INVALID :: parts[i].Absent?
  }

  /** Room for nothing is only a matter of which partitions are live and stay. */
  lemma SameFit(parts: seq<Part>, parts': seq<Part>, pageSize: nat)
    requires SameParts(parts, parts')
    ensures NoneFits(parts, pageSize, 0, P_INDEX_INVALID) ==> NoneFits(parts', pageSize, 0, P_INDEX_INVALID)
  {
    forall j: nat | j < P_INDEX_INVALID
      ensures Candidate(parts', pageSize, j, 0, P_INDEX_INVALID) ==> Candidate(parts, pageSize, j, 0, P_INDEX_INVALID)
    {
      assert j < |parts| ==> SamePart(parts[j], parts'[j]);
    }
  }

  lemma NoneLeftNamed(parts: seq<Part>, pageSize: nat, i: nat)
    requires OnlyGoing(parts, i)
    ensures NoneFits(parts, pageSize, 0, P_INDEX_INVALID) ==> NoneNamed(parts[i := Absent])
  {
    var left := parts[i := Absent];
    if NoneFits(parts, pageSize, 0, P_INDEX_INVALID) {
      forall j | 0 <= j < |left| && j < P_INDEX_INVALID ensures left[j].Absent? {
        assert !Candidate(parts, pageSize, j, 0, P_INDEX_INVALID);
      }
    }
  }

  /** A partition that no index can name has no pages to leave. */
  lemma UnnamedLeft(s: State, log: seq<Event>, pageSize: nat, o: nat, i: nat)
    requires Recorded(s, log, pageSize) && o in s.pagers && i > P_INDEX_INVALID
    ensures Left(s.pagers, o, i)
  {
    Ready(s, log, pageSize, o);
    var flat := s.pagers[o].Flat();
    forall p | 0 <= p < |flat| ensures flat[p].pIndex != i {
      assert flat[p] != NO_BLOCK ==> InUse(s.parts, flat[p]) && flat[p].pIndex < P_INDEX_INVALID;
    }
  }

  /** A partition every object has left can be taken away: no page is lost. */
  lemma RemoveRecorded(s: State, log: seq<Event>, pageSize: nat, i: nat)
    requires Recorded(s, log, pageSize) && i < |s.parts| && s.parts[i].Part?
    requires forall o | o in s.pagers :: Left(s.pagers, o, i)
    ensures Recorded(s.(parts := s.parts[i := Absent]), log, pageSize)
  {
    RecordedSound(s, log, pageSize);
    var m, parts' := MapsOf(s.pagers), s.parts[i := Absent];
    forall o: nat, p: nat | Mapped(m, o, p) ensures m[o][p].pIndex != i {
      assert Left(s.pagers, o, i);
    }
    DropPartition(s.parts, m, i);
    forall x | x in s.pagers ensures CursorOk(parts', s.pagers[x]) {
      assert CursorOk(s.parts, s.pagers[x]);
    }
    SoundRecorded(s.(parts := parts'), log, pageSize);
  }

  /** Adding a partition to an empty slot, after lengthening the list if need be. */
  lemma AddRecorded(s: State, parts': seq<Part>, log: seq<Event>, pageSize: nat, i: nat)
    requires Recorded(s, log, pageSize) && pageSize >= 256 && i < |parts'| && |s.parts| <= |parts'|
    requires forall j | 0 <= j < |parts'| && j != i :: parts'[j] == if j < |s.parts| then s.parts[j] else Absent
    requires i < |s.parts| ==> s.parts[i].Absent?
    requires parts'[i].Part? && parts'[i].Valid(pageSize) && forall b: nat :: !parts'[i].Bit(b)
    ensures Recorded(s.(parts := parts'), log, pageSize)
  {
    RecordedSound(s, log, pageSize);
    assert PartsValid(parts', pageSize);
    SameUsed(s.parts, parts', MapsOf(s.pagers));
    forall x | x in s.pagers ensures CursorOk(parts', s.pagers[x]) {
      assert CursorOk(s.parts, s.pagers[x]);
    }
    SoundRecorded(s.(parts := parts'), log, pageSize);
  }

  /** Storage with no partitions and no objects. */
  lemma EmptyRecorded(pageSize: nat)
    requires pageSize >= 256
    ensures Recorded(State([], map[]), [], pageSize)
  {
    assert MapsOf(map[]) == map[];
    assert Holds([], map[]) == map[];
    SoundRecorded(State([], map[]), [], pageSize);
  }

  /** Over every run: a page of an object has a block exactly when the last event that
      touched it wrote it, and the block then holds the bytes of that event. */
  lemma ReadsLastWrite(s: State, log: seq<Event>, pageSize: nat, o: nat, page: nat)
    requires Recorded(s, log, pageSize) && o in s.pagers && s.pagers[o].Valid() && page < s.pagers[o].size
    ensures var e := s.pagers[o].Flat()[page];
            && (e != NO_BLOCK <==> exists i :: LastTouch(log, i, o, page) && (log[i].Wrote? || log[i].Garbled?))
            && (e != NO_BLOCK ==> InRange(s.parts, e))
            && forall i | LastTouch(log, i, o, page) && (log[i].Wrote? || log[i].Garbled?) ::
                 s.parts[e.pIndex].pages[e.pOffset] == log[i].page
  {
    PageLogged(s, log, pageSize, o, page);
    LastWriteWins(log, o, page);
  }

  /** Conservation: the blocks of a partition are its free ones and one for each page that
      some object has there. */
  lemma FreeCountsPages(s: State, log: seq<Event>, pageSize: nat, i: nat)
    requires Recorded(s, log, pageSize) && PagersValid(s.pagers) && i < |s.parts| && s.parts[i].Part?
    ensures s.parts[i].total == s.parts[i].free + |PagesIn(MapsOf(s.pagers), i)|
  {
    RecordedSound(s, log, pageSize);
    UsedCountsPages(s.parts, MapsOf(s.pagers), i);
    assert s.parts[i].Valid(pageSize);
    assert s.parts[i].Used() <= Below(s.parts[i].total);
    SubsetSize(s.parts[i].Used(), Below(s.parts[i].total));
  }
}
