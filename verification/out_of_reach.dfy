/** What becomes of a partition whose slot no 8-bit index can name: its room is never used, and a
    write can be refused, or a move panic, although it has room.
 */
module OutOfReach {
  import opened Partitions
  import opened PagerMap
  import opened History
  import opened StorageModel
  import opened Storage

  /** Some partition can take another page. */
  ghost predicate SomeRoom(parts: seq<Part>) {
    exists i: nat :: Gives(parts, i)
  }

  /** No new page is refused for lack of room while some partition has room, however full the
      partitions of this list are. */
  ghost predicate RoomReached(parts: seq<Part>, pageSize: nat) {
    forall parts' | PartsValid(parts', pageSize) && SameParts(parts, parts') ::
      SomeRoom(parts') ==> !NoRoomBut(parts', pageSize, P_INDEX_INVALID)
  }

  /** A partition in slot `i` that has blocks and no index of its own. */
  predicate Beyond(parts: seq<Part>, i: nat) {
    P_INDEX_INVALID <= i < |parts| && parts[i].Part? && !parts[i].goingAway && parts[i].total > 0
  }

  /** Room is reached on all of a list's states if and only if no slot beyond the indices holds a
      partition that has blocks. */
  lemma ReachedExactly(parts: seq<Part>, pageSize: nat)
    requires PartsValid(parts, pageSize) && pageSize > 0
    ensures RoomReached(parts, pageSize) <==> forall i: nat :: !Beyond(parts, i)
  {
    if i: nat :| Beyond(parts, i) {
      FilledUp(parts, pageSize, i);
    } else {
      forall parts' | PartsValid(parts', pageSize) && SameParts(parts, parts') && SomeRoom(parts')
        ensures !NoRoomBut(parts', pageSize, P_INDEX_INVALID)
      {
        RoomNamed(parts, parts', pageSize);
      }
    }
  }

  lemma RoomNamed(parts: seq<Part>, parts': seq<Part>, pageSize: nat)
    requires PartsValid(parts', pageSize) && SameParts(parts, parts') && pageSize > 0
    requires SomeRoom(parts') && forall i: nat :: !Beyond(parts, i)
    ensures !NoRoomBut(parts', pageSize, P_INDEX_INVALID)
  {
    var i: nat :| Gives(parts', i);
    assert SamePart(parts[i], parts'[i]) && !Beyond(parts, i);
    GivesRoom(parts', pageSize, i);
  }

  /** A partition beyond the indices is never used. */
  lemma BeyondFree(parts: seq<Part>, pageSize: nat, i: nat)
    requires PartsValid(parts, pageSize) && Beyond(parts, i)
    ensures Gives(parts, i) && parts[i].free == parts[i].total
  {
    assert parts[i].Used() == {};
  }

  /** A partition with every block used. */
  ghost function Full(part: Part): Part
    requires part.Part?
  {
    part.(free := 0, bitmap := seq(HowMany(part.total), (w: nat) => FullTo(w, part.total)))
  }

  /** Word `w` of the bitmap that has the bits below `n` set. */
  function FullTo(w: nat, n: nat): (r: Word)
    ensures forall k | 0 <= k < NB_BM :: r[k] <==> NB_BM * w + k < n
  {
    seq(NB_BM, k => NB_BM * w + k < n)
  }

  lemma FullBits(part: Part, b: nat)
    requires part.Part?
    ensures Full(part).Bit(b) <==> b < part.total
  {
    assert b == NB_BM * (b / NB_BM) + b % NB_BM;
  }

  lemma FullValid(part: Part, pageSize: nat)
    requires part.Part? && part.Valid(pageSize)
    ensures Full(part).Valid(pageSize)
  {
    forall b: nat ensures Full(part).Bit(b) <==> b < part.total {
      FullBits(part, b);
    }
    assert Full(part).Used() == Below(part.total);
  }

  /** The list with all room in reach used up. */
  ghost function NamedFull(parts: seq<Part>): seq<Part> {
    seq(|parts|, j requires 0 <= j < |parts| =>
      if j < P_INDEX_INVALID && parts[j].Part? then Full(parts[j]) else parts[j])
  }

  lemma NamedFullValid(parts: seq<Part>, pageSize: nat)
    requires PartsValid(parts, pageSize) && pageSize > 0
    ensures PartsValid(NamedFull(parts), pageSize) && SameParts(parts, NamedFull(parts))
    ensures forall i: nat | i < P_INDEX_INVALID :: !Gives(NamedFull(parts), i)
    ensures forall cur: nat :: NoRoomBut(NamedFull(parts), pageSize, cur)
  {
    forall j | 0 <= j < |parts| && j < P_INDEX_INVALID && parts[j].Part? ensures Full(parts[j]).Valid(pageSize) {
      FullValid(parts[j], pageSize);
    }
    assert 0 * pageSize == 0;
  }

  lemma FilledUp(parts: seq<Part>, pageSize: nat, i: nat)
    requires PartsValid(parts, pageSize) && pageSize > 0 && Beyond(parts, i)
    ensures !RoomReached(parts, pageSize)
  {
    NamedFullValid(parts, pageSize);
    BeyondFree(NamedFull(parts), pageSize, i);
  }

  /** When the first such slot's index names another partition, and all that can be named are full,
      every move of a page panics. */
  lemma MovesPanic(parts: seq<Part>, pageSize: nat, i: nat, cur: nat)
    requires PartsValid(parts, pageSize) && pageSize > 0 && cur < P_INDEX_INVALID
    requires Beyond(parts, i) && (forall j: nat | j < i :: !Beyond(parts, j)) && Index(i) != P_INDEX_INVALID
    ensures Misnamed(NamedFull(parts), pageSize, cur)
  {
    var parts' := NamedFull(parts);
    NamedFullValid(parts, pageSize);
    BeyondFree(parts', pageSize, i);
    forall j: nat | j < i ensures !Candidate(parts', pageSize, j, pageSize, cur) {
      CandidateGives(parts', pageSize, cur, j);
      assert !Beyond(parts, j);
    }
    assert parts'[i].free * pageSize >= pageSize;
    assert FirstCandidate(parts', pageSize, pageSize, cur, i);
  }

  /** With 256 partitions of no blocks before it, the 257th partition's room is out of reach: the
      first write of a page is refused. */
  method RefusedWrite(bytes: nat, data: Page) returns (s: PagerStorage, rc: PagerResult)
    requires |data| == 4096 <= bytes < WORD_RANGE
    ensures fresh(s) && s.Valid() && s.healthy && rc.PAGER_ERROR? && SomeRoom(s.parts)
  {
    s := new PagerStorage(|data|, 1024, true);
    Reserve(s, 256);
    var i := s.CreatePartition(256, bytes, |data|);
    s.CreateObject(0, |data|);
    ghost var was := s.parts;
    assert 0 * s.pageSize == 0;
    rc := s.DefaultWrite(0, 0, data);
    assert SamePart(was[i], s.parts[i]);
    RecordedSound(s.Now(), s.log, s.pageSize);
    BeyondFree(s.parts, s.pageSize, i);
  }

  lemma FirstEmpty(parts: seq<Part>, k: nat, i: nat)
    requires k <= |parts| && forall j | 0 <= j < |parts| :: parts[j].Part? <==> j < k
    requires i <= |parts| && (forall j | 0 <= j < i :: parts[j].Part?) && (i < |parts| ==> parts[i].Absent?)
    ensures i == k
  {
    assert k < |parts| ==> parts[k].Absent?;
  }

  /** Creates partitions of no blocks in the first `n` slots. */
  method Reserve(s: PagerStorage, n: nat)
    requires s.Valid() && s.parts == [] && s.log == [] && s.pagers == map[]
    modifies s
    ensures s.Valid() && s.log == [] && s.pagers == map[]
    ensures n <= |s.parts| && forall j | 0 <= j < |s.parts| :: s.parts[j].Part? <==> j < n
    ensures forall j | 0 <= j < n :: s.parts[j].free == 0
  {
    for k := 0 to n
      invariant s.Valid() && s.log == [] && s.pagers == map[]
      invariant k <= |s.parts| && forall j | 0 <= j < |s.parts| :: s.parts[j].Part? <==> j < k
      invariant forall j | 0 <= j < k :: s.parts[j].free == 0
    {
      ghost var was := s.parts;
      var i := s.CreatePartition(k, 0, 1);
      FirstEmpty(was, k, i);
    }
  }
}
