/** Paging partitions: a bitmap block allocator over a paging area, and the
    read and write callbacks of that area.
 */
module Partitions {

  type Byte = bv8

  /** The contents of one page. */
  type Page = seq<Byte>

  /** Bits per bitmap word (NB_BM). */
  const NB_BM: nat := 32

  /** A bitmap word, as the sequence of its bits, least significant first. */
  type Word = w: seq<bool> | |w| == NB_BM witness seq(NB_BM, _ => false)

  /** Partition indices fit a byte; the last one means "none" (P_INDEX_INVALID). */
  const P_INDEX_INVALID: nat := 255

  /** Block offsets fit 24 bits. */
  const MAX_BLOCKS: nat := 0x1000000

  /** Byte sizes fit an unsigned 32-bit word. */
  const WORD_RANGE: nat := 0x1_0000_0000

  /** The number of bitmap words that cover `n` blocks. */
  function HowMany(n: nat): nat {
    (n + NB_BM - 1) / NB_BM
  }

  /** The word with no clear bit (BM_MASK). */
  function FullWord(): Word {
    seq(NB_BM, _ => true)
  }

  function ZeroWord(): Word {
    seq(NB_BM, _ => false)
  }

  function Min(a: nat, b: nat): nat {
    if a <= b then a else b
  }

  /** The blocks 0 .. n - 1. */
  ghost function Below(n: nat): (r: set<nat>)
    ensures forall b: nat :: b in r <==> b < n
    ensures |r| == n
  {
    if n == 0 then {} else Below(n - 1) + {n - 1}
  }

  /** A slot of the partition list: empty, or a partition. */
  datatype Part =
    | Absent
    | Part(total: nat,              // total number of blocks
           free: nat,               // number of blocks free
           id: nat,                 // named lookup
           bitmap: seq<Word>,       // allocation map
           goingAway: bool,         // destroy attempt in progress
           transfer: nat,           // bytes one callback is sure to move, if asked for as many
           pages: seq<Page>)        // what the paging area holds, block by block
  {
    predicate Bit(b: nat)
      requires Part?
    {
      b / NB_BM < |bitmap| && bitmap[b / NB_BM][b % NB_BM]
    }

    /** The blocks whose bit is set. */
    ghost function Used(): (r: set<nat>)
      requires Part?
      ensures forall b: nat :: b in r <==> Bit(b)
    {
      set b: nat | 0 <= b < NB_BM * |bitmap| && Bit(b)
    }

    ghost predicate Valid(pageSize: nat) {
      Part? ==>
        && transfer > 0
        && total <= MAX_BLOCKS && total * pageSize < WORD_RANGE
        && |bitmap| == HowMany(total)
        && (forall b: nat | Bit(b) :: b < total)
        && free == total - |Used()|
        && |pages| == total
        && (forall b | 0 <= b < total :: |pages[b]| == pageSize)
    }

    function WithBit(b: nat, v: bool): (r: Part)
      requires Part? && b / NB_BM < |bitmap|
      ensures r.Part? && r == this.(bitmap := r.bitmap)
      ensures forall c: nat :: r.Bit(c) <==> if c == b then v else Bit(c)
    {
      this.(bitmap := bitmap[b / NB_BM := bitmap[b / NB_BM][b % NB_BM := v]])
    }

    /** The partition with one more block in use. */
    function Take(b: nat): (r: Part)
      requires Part? && b / NB_BM < |bitmap| && free > 0
      ensures r.Part? && forall c: nat :: r.Bit(c) <==> c == b || Bit(c)
    {
      var w := WithBit(b, true);
      assert forall c: nat :: w.Bit(c) <==> c == b || Bit(c);
      Part(total, free - 1, id, w.bitmap, goingAway, transfer, pages)
    }

    /** The partition with one block given back. */
    function Give(b: nat): (r: Part)
      requires Part? && b / NB_BM < |bitmap|
      ensures r.Part? && forall c: nat :: r.Bit(c) <==> c != b && Bit(c)
    {
      var w := WithBit(b, false);
      assert forall c: nat :: w.Bit(c) <==> c != b && Bit(c);
      Part(total, free + 1, id, w.bitmap, goingAway, transfer, pages)
    }

    function WithPage(b: nat, page: Page): (r: Part)
      requires Part? && b < |pages|
      ensures r.Part? && forall c: nat :: r.Bit(c) <==> Bit(c)
    {
      this.(pages := pages[b := page])
    }
  }

  lemma TakeValid(part: Part, b: nat, pageSize: nat)
    requires part.Part? && part.Valid(pageSize) && b < part.total && !part.Bit(b) && part.free > 0
    ensures part.Take(b).Valid(pageSize)
    ensures part.Take(b).Used() == part.Used() + {b}
  {
    assert part.Take(b).Used() == part.Used() + {b};
  }

  lemma GiveValid(part: Part, b: nat, pageSize: nat)
    requires part.Part? && part.Valid(pageSize) && part.Bit(b)
    ensures part.Give(b).Valid(pageSize)
    ensures part.Give(b).Used() == part.Used() - {b}
  {
    assert part.Give(b).Used() == part.Used() - {b};
  }

  lemma WithPageValid(part: Part, b: nat, page: Page, pageSize: nat)
    requires part.Part? && part.Valid(pageSize) && b < part.total && |page| == pageSize
    ensures part.WithPage(b, page).Valid(pageSize)
    ensures part.WithPage(b, page).Used() == part.Used()
  {
    assert part.WithPage(b, page).Used() == part.Used();
  }

  /** Pigeonhole: a partition whose count of free blocks is positive has a clear bit
      below its size, and one whose count is zero has none. */
  lemma FreeBlockExists(part: Part, pageSize: nat)
    requires part.Part? && part.Valid(pageSize)
    ensures part.free > 0 <==> exists b: nat | b < part.total :: !part.Bit(b)
  {
    var all := Below(part.total);
    assert part.Used() <= all;
    if part.Used() == all {
      assert part.free == 0;
    } else {
      var b :| b in all && b !in part.Used();
      assert part.Used() <= all - {b};
      SubsetSize(part.Used(), all - {b});
    }
  }

  lemma {:induction false} SubsetSize(a: set<nat>, b: set<nat>)
    requires a <= b
    ensures |a| <= |b|
    decreases a
  {
    if a != {} {
      var x :| x in a;
      SubsetSize(a - {x}, b - {x});
    }
  }

  /** A new partition of `bytes` bytes, all its blocks free. */
  method NewPartition(pageSize: nat, bytes: nat, id: nat, transfer: nat) returns (part: Part)
    requires pageSize >= 256 && bytes < WORD_RANGE && transfer > 0
    ensures part.Part? && part.Valid(pageSize)
    ensures part.id == id && part.transfer == transfer && !part.goingAway
    ensures part.total == part.free == bytes / pageSize
    ensures forall b: nat :: !part.Bit(b)
  {
    var n := bytes / pageSize;
    PartitionFits(pageSize, bytes);
    part := Part(n, n, id, seq(HowMany(n), _ => ZeroWord()), false, transfer,
                 seq(n, _ => seq(pageSize, _ => 0)));
    assert part.Used() == {};
  }

  /** A byte size that fits a 32-bit word gives a block count that fits the 24-bit
      offset of a map entry, and no block's byte offset wraps around. */
  lemma PartitionFits(pageSize: nat, bytes: nat)
    requires pageSize >= 256 && bytes < WORD_RANGE
    ensures (bytes / pageSize) * pageSize <= bytes
    ensures bytes / pageSize < MAX_BLOCKS
  {
    var n := bytes / pageSize;
    assert bytes == n * pageSize + bytes % pageSize;
    assert n >= MAX_BLOCKS ==> n * pageSize >= MAX_BLOCKS * 256;
  }

  /** The bitmap scan of pager_alloc_page: the lowest clear bit. Neither of its two ways
      of coming up empty can happen while a block is free, and the bit found lies below the
      partition's size although the tail bits of the last word are clear too. */
  method FirstClear(part: Part, ghost pageSize: nat) returns (block: nat)
    requires part.Part? && part.Valid(pageSize) && part.free > 0
    ensures block < part.total && !part.Bit(block)
    ensures forall b: nat | b < block :: part.Bit(b)
  {
    FreeBlockExists(part, pageSize);
    ghost var some: nat :| some < part.total && !part.Bit(some);
    var e := 0;
    while e < |part.bitmap| && part.bitmap[e] == FullWord()
      invariant e <= some / NB_BM
      invariant forall i | 0 <= i < e :: part.bitmap[i] == FullWord()
    {
      e := e + 1;
    }
    var bit := LowestClear(part.bitmap[e]);
    block := NB_BM * e + bit;
    assert block / NB_BM == e && block % NB_BM == bit;
  }

  /** The lowest clear bit of a word that has one. */
  method LowestClear(w: Word) returns (bit: nat)
    requires w != FullWord()
    ensures bit < NB_BM && !w[bit] && forall j | 0 <= j < bit :: w[j]
  {
    bit := 0;
    while bit < NB_BM && w[bit]
      invariant 0 <= bit <= NB_BM
      invariant forall j | 0 <= j < bit :: w[j]
    {
      bit := bit + 1;
    }
  }

  /** p_read at byte `done` of a block: some bytes of what is asked for, all of them if they are
      no more than `transfer` and at least that many if not; or a device error if devices are not
      healthy. */
  method PRead(part: Part, pageSize: nat, healthy: bool, block: nat, done: nat, size: nat)
    returns (rc: int, data: seq<Byte>)
    requires part.Part? && part.Valid(pageSize) && block < part.total && done + size <= pageSize
    ensures healthy ==> rc == 0
    ensures rc == 0 ==>
              && Min(size, part.transfer) <= |data| <= size
              && data == part.pages[block][done..done + |data|]
  {
    rc := *;
    if healthy { rc := 0; }
    var n: nat :| Min(size, part.transfer) <= n <= size;
    data := part.pages[block][done..done + n];
  }

  /** p_write at byte `done` of a block, of as many bytes as p_read may move. A failed write
      leaves that block with unspecified bytes and touches no other. */
  method PWrite(part: Part, pageSize: nat, healthy: bool, block: nat, done: nat, data: seq<Byte>)
    returns (rc: int, written: nat, part': Part)
    requires part.Part? && part.Valid(pageSize) && block < part.total && done + |data| <= pageSize
    ensures healthy ==> rc == 0
    ensures part'.Part? && |part'.pages| == part.total && |part'.pages[block]| == pageSize
    ensures part' == part.WithPage(block, part'.pages[block])
    ensures rc == 0 ==>
              && Min(|data|, part.transfer) <= written <= |data|
              && part'.pages[block] == Overwrite(part.pages[block], done, data[..written])
  {
    written :| Min(|data|, part.transfer) <= written <= |data|;
    rc := *;
    if healthy { rc := 0; }
    var page := Overwrite(part.pages[block], done, data[..written]);
    if rc != 0 {
      page :| |page| == pageSize;
    }
    part' := part.WithPage(block, page);
  }

  function Overwrite(p: Page, at: nat, data: seq<Byte>): (r: Page)
    requires at + |data| <= |p|
    ensures |r| == |p|
  {
    p[..at] + data + p[at + |data|..]
  }

  /** The transfer loop of default_read: the bytes of one block, a piece at a time. */
  method ReadPage(part: Part, pageSize: nat, healthy: bool, block: nat) returns (ok: bool, data: Page)
    requires part.Part? && part.Valid(pageSize) && block < part.total
    ensures healthy ==> ok
    ensures ok ==> data == part.pages[block]
  {
    assert |part.pages[block]| == pageSize;
    data := [];
    var size := pageSize;
    while size != 0
      invariant 0 <= size <= pageSize
      invariant data == part.pages[block][..pageSize - size]
      decreases size
    {
      var rc, piece := PRead(part, pageSize, healthy, block, pageSize - size, size);
      if rc != 0 { return false, []; }
      data := data + piece;
      size := size - |piece|;
    }
    ok := true;
  }

  /** The transfer loop of default_write. A device error leaves the block, and only it, garbled. */
  method WritePage(part: Part, pageSize: nat, healthy: bool, block: nat, data: Page) returns (ok: bool, part': Part)
    requires part.Part? && part.Valid(pageSize) && block < part.total && |data| == pageSize
    ensures healthy ==> ok
    ensures part'.Part? && |part'.pages| == part.total && |part'.pages[block]| == pageSize
    ensures part' == part.WithPage(block, part'.pages[block])
    ensures ok ==> part'.pages[block] == data
  {
    part' := part;
    var done := 0;
    while done < pageSize
      invariant 0 <= done <= pageSize
      invariant part'.Part? && part'.Valid(pageSize) && |part'.pages| == part.total
      invariant part' == part.WithPage(block, part'.pages[block])
      invariant |part'.pages[block]| == pageSize && part'.pages[block][..done] == data[..done]
    {
      ghost var before := part'.pages[block];
      var rc, written, next := PWrite(part', pageSize, healthy, block, done, data[done..]);
      WithPageValid(part', block, next.pages[block], pageSize);
      part' := next;
      if rc != 0 { return false, part'; }
      assert part'.pages[block][..done + written] == before[..done] + data[done..][..written];
      assert data[..done + written] == data[..done] + data[done..][..written];
      done := done + written;
    }
    ok := true;
  }
}
