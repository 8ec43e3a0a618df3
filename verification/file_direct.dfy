/** The flattened block map that the default pager reads and writes through (file_direct),
    which must agree with the slow path of the file reader. */
module FileDirects {

  import opened IndirectTree
  import opened Volumes
  import opened FileReader

  /** Bytes per device record. */
  const DEV_BSIZE: nat := 512

  datatype PageCode = PageDone | PageNotInFile | PagePanic

  /** A transfer that the device can do, in whole records. */
  predicate Records(offset: nat, size: nat) {
    offset % DEV_BSIZE == 0 && size % DEV_BSIZE == 0
  }

  /** Byte `o` of the blocks in the array. */
  function DirectByte(v: Volume, blocks: seq<nat>, o: nat): Byte
    requires v.Valid() && BlockNo(o, v.bsize) < |blocks|
  {
    v.at(blocks[BlockNo(o, v.bsize)], BlockOff(o, v.bsize))
  }

  predicate InDirect(bsize: nat, blocks: seq<nat>, o: nat)
    requires bsize > 0
  {
    HasBlock(blocks, BlockNo(o, bsize))
  }

  predicate HasBlock(blocks: seq<nat>, n: nat) {
    n < |blocks| && blocks[n] != 0
  }

  predicate DirectIs(v: Volume, blocks: seq<nat>, o: nat, x: Byte)
    requires v.Valid()
  {
    InDirect(v.bsize, blocks, o) && x == DirectByte(v, blocks, o)
  }

  /** `data` is what the blocks hold from `offset` on. */
  predicate DirectHolds(v: Volume, blocks: seq<nat>, offset: nat, data: seq<Byte>)
    requires v.Valid()
  {
    forall i | 0 <= i < |data| :: DirectIs(v, blocks, offset + i, data[i])
  }

  /** A transfer that starts a block or fits the rest of one. */
  predicate Fits(offset: nat, size: nat, bsize: nat)
    requires bsize > 0
  {
    FitsAt(BlockOff(offset, bsize), size, bsize)
  }

  predicate FitsAt(off: nat, size: nat, bsize: nat) {
    off == 0 || off + size <= bsize
  }

  class FileDirect {
    var v: Volume
    var blocks: seq<nat>

    ghost predicate Valid()
      reads this
    {
      v.Valid() && v.bsize % DEV_BSIZE == 0
    }

    /** open_file_direct: an empty array. */
    constructor (v: Volume)
      requires v.Valid() && v.bsize % DEV_BSIZE == 0
      ensures Valid() && this.v == v && blocks == []
    {
      this.v := v;
      blocks := [];
    }

    /** add_file_direct: the file's whole blocks behind those already there, or no change. */
    method AddFile(f: File) returns (rc: Code)
      requires Valid() && f.Valid() && f.v == v
      modifies this`blocks, f
      ensures Valid() && f.Valid() && f.ino == old(f.ino)
      ensures var view, num := FileView(v, f.ino), BlockNo(f.ino.size, v.bsize);
              && (rc.Success? <==> num <= |view.blocks|)
              && blocks == if rc.Success? then old(blocks) + view.blocks[..num] else old(blocks)
    {
      var num := BlockNo(f.ino.size, v.bsize);
      var buffer: seq<nat> := [];
      for i := 0 to num
        invariant f.Valid() && f.ino == old(f.ino) && v == old(v) && blocks == old(blocks)
        invariant |buffer| == i <= |FileView(v, f.ino).blocks| && buffer == FileView(v, f.ino).blocks[..i]
      {
        var b;
        rc, b := f.BlockMap(i);
        if rc.NotInFile? { return; }
        buffer := buffer + [b];
      }
      blocks := blocks + buffer;
      f.ReadInode(f.ino);
      rc := Success;
    }

    /** page_read_file_direct: at most a block's worth, from the disk block of `offset` on. */
    method PageRead(offset: nat, size: nat) returns (rc: PageCode, data: seq<Byte>)
      requires Valid()
      ensures rc.PagePanic? <==> !Records(offset, size)
      ensures rc.PageDone? <==> Records(offset, size) && InDirect(v.bsize, blocks, offset)
      ensures rc.PageDone? ==> |data| == if size > v.bsize then v.bsize else size
      ensures rc.PageDone? && Fits(offset, |data|, v.bsize) ==> DirectHolds(v, blocks, offset, data)
    {
      data := [];
      if offset % DEV_BSIZE != 0 || size % DEV_BSIZE != 0 { return PagePanic, data; }
      var off, n := BlockOff(offset, v.bsize), BlockNo(offset, v.bsize);
      if n >= |blocks| { return PageNotInFile, data; }
      var b := blocks[n];
      if b == 0 { return PageNotInFile, data; }
      var m := if size > v.bsize then v.bsize else size;
      data := PageData(v, blocks, offset, m);
      rc := PageDone;
      if Fits(offset, m, v.bsize) {
        WithinBlock(v, blocks, offset, data);
      }
    }

    /** page_write_file_direct: at most a block's worth, into the disk block of `offset` and
        nowhere else. */
    method PageWrite(offset: nat, data: seq<Byte>) returns (rc: PageCode, n: nat)
      requires Valid()
      modifies this`v
      ensures Valid() && v == old(v).(at := v.at)
      ensures rc.PagePanic? <==> !Records(offset, |data|)
      ensures rc.PageDone? <==> Records(offset, |data|) && InDirect(v.bsize, blocks, offset)
      ensures !rc.PageDone? ==> n == 0 && v == old(v)
      ensures rc.PageDone? ==>
                && n == (if |data| > v.bsize then v.bsize else |data|)
                && WroteAt(old(v), v, PlaceOf(old(v), blocks, offset), data[..n])
                && (Fits(offset, n, v.bsize) ==> WroteOnly(old(v), v, blocks, offset, n))
      ensures rc.PageDone? && Fits(offset, n, v.bsize) && Apart(v.fsize, v.bsize, blocks) ==>
                WroteRange(old(v), v, blocks, offset, data[..n])
    {
      n := 0;
      if offset % DEV_BSIZE != 0 || |data| % DEV_BSIZE != 0 { return PagePanic, n; }
      var off, k := BlockOff(offset, v.bsize), BlockNo(offset, v.bsize);
      if k >= |blocks| { return PageNotInFile, n; }
      var b := blocks[k];
      if b == 0 { return PageNotInFile, n; }
      n := if |data| > v.bsize then v.bsize else |data|;
      ghost var was := v;
      v := WriteAt(v, b, off, data[..n]);
      rc := PageDone;
      WriteInBlock(was, v, blocks, offset, data[..n]);
    }

    /** One call of page_write_file_direct, after the first `n` bytes have been written. */
    method WriteNext(ghost w: Volume, offset: nat, data: seq<Byte>, n: nat) returns (rc: PageCode, m: nat)
      requires Valid() && w.Valid() && WroteFirst(w, v, blocks, offset, data, n) && n < |data|
      requires Fits(offset + n, |data| - n, v.bsize) && Apart(v.fsize, v.bsize, blocks)
      modifies this`v
      ensures Valid() && WroteFirst(w, v, blocks, offset, data, n + m)
      ensures rc.PagePanic? <==> !Records(offset + n, |data| - n)
      ensures rc.PageNotInFile? ==> !InDirect(v.bsize, blocks, offset + n)
      ensures if rc.PageDone? then m > 0 else m == 0
      ensures rc.PageDone? ==>
                && (n + m < |data| ==> Fits(offset + (n + m), |data| - (n + m), v.bsize))
                && Records(offset + (n + m), |data| - (n + m))
    {
      ghost var was := v;
      rc, m := PageWrite(offset + n, data[n..]);
      if rc.PageDone? {
        NextFits(offset + n, |data| - n, v.bsize);
        NextRecords(offset + n, |data| - n, v.bsize);
        WroteMore(w, was, v, blocks, offset, data, n, m);
      }
    }

    /** The loop of default_write over page_write_file_direct, with complete transfers. The first
        `n` bytes are written, up to the first that the array has no block for, and nothing else. */
    method WritePage(offset: nat, data: seq<Byte>) returns (rc: PageCode, n: nat)
      requires Valid() && Fits(offset, |data|, v.bsize) && Apart(v.fsize, v.bsize, blocks)
      modifies this`v
      ensures Valid() && WroteFirst(old(v), v, blocks, offset, data, n)
      ensures rc.PagePanic? <==> |data| > 0 && !Records(offset, |data|)
      ensures rc.PageDone? <==> n == |data|
      ensures rc.PageNotInFile? ==> !InDirect(v.bsize, blocks, offset + n)
    {
      n := 0;
      while n < |data|
        invariant Valid() && WroteFirst(old(v), v, blocks, offset, data, n)
        invariant n < |data| ==> Fits(offset + n, |data| - n, v.bsize)
        invariant n > 0 ==> Records(offset, |data|) && Records(offset + n, |data| - n)
      {
        var m;
        rc, m := WriteNext(old(v), offset, data, n);
        if !rc.PageDone? { return; }
        n := n + m;
      }
      rc := PageDone;
    }

    /** The loop of default_read over page_read_file_direct, with complete transfers. */
    method ReadPage(offset: nat, size: nat) returns (rc: PageCode, data: seq<Byte>)
      requires Valid() && Fits(offset, size, v.bsize)
      ensures rc.PagePanic? <==> size > 0 && !Records(offset, size)
      ensures rc.PageDone? <==>
              !rc.PagePanic? && forall o | offset <= o < offset + size :: InDirect(v.bsize, blocks, o)
      ensures rc.PageDone? ==> |data| == size && DirectHolds(v, blocks, offset, data)
    {
      data := [];
      while |data| < size
        invariant |data| <= size && DirectHolds(v, blocks, offset, data)
        invariant |data| < size ==> Fits(offset + |data|, size - |data|, v.bsize)
        invariant |data| > 0 ==> Records(offset, size) && Records(offset + |data|, size - |data|)
      {
        var chunk;
        rc, chunk := PageRead(offset + |data|, size - |data|);
        if !rc.PageDone? { return; }
        NextFits(offset + |data|, size - |data|, v.bsize);
        NextRecords(offset + |data|, size - |data|, v.bsize);
        DirectMore(v, blocks, offset, data, chunk);
        data := data + chunk;
      }
      rc := PageDone;
      forall o | offset <= o < offset + size ensures InDirect(v.bsize, blocks, o) {
        assert DirectIs(v, blocks, offset + (o - offset), data[o - offset]);
      }
    }
  }

  lemma WithinBlock(v: Volume, blocks: seq<nat>, offset: nat, data: seq<Byte>)
    requires v.Valid() && InDirect(v.bsize, blocks, offset) && |data| <= v.bsize
    requires Fits(offset, |data|, v.bsize)
    requires forall i | 0 <= i < |data| ::
               data[i] == v.at(blocks[BlockNo(offset, v.bsize)], BlockOff(offset, v.bsize) + i)
    ensures DirectHolds(v, blocks, offset, data)
  {
    forall i | 0 <= i < |data| ensures DirectIs(v, blocks, offset + i, data[i]) {
      ByteWithin(v, blocks, offset, i);
    }
  }

  lemma ByteWithin(v: Volume, blocks: seq<nat>, offset: nat, i: nat)
    requires v.Valid() && InDirect(v.bsize, blocks, offset) && BlockOff(offset, v.bsize) + i < v.bsize
    ensures DirectIs(v, blocks, offset + i, v.at(blocks[BlockNo(offset, v.bsize)], BlockOff(offset, v.bsize) + i))
  {
    SameBlock(offset, i, v.bsize);
  }

  lemma DirectMore(v: Volume, blocks: seq<nat>, offset: nat, data: seq<Byte>, chunk: seq<Byte>)
    requires v.Valid() && DirectHolds(v, blocks, offset, data) && DirectHolds(v, blocks, offset + |data|, chunk)
    ensures DirectHolds(v, blocks, offset, data + chunk)
  {
    var all := data + chunk;
    forall i | 0 <= i < |all| ensures DirectIs(v, blocks, offset + i, all[i]) {
      if i >= |data| {
        assert DirectIs(v, blocks, offset + |data| + (i - |data|), chunk[i - |data|]);
      }
    }
  }

  lemma {:induction false} NextBlock(o: nat, bsize: nat)
    requires bsize > 0
    ensures BlockOff(o + bsize, bsize) == BlockOff(o, bsize) && BlockNo(o + bsize, bsize) == BlockNo(o, bsize) + 1
  {
  }

  /** What is left after a transfer of a block starts a block again. */
  lemma NextFits(offset: nat, size: nat, bsize: nat)
    requires bsize > 0 && Fits(offset, size, bsize)
    ensures size > bsize ==> Fits(offset + bsize, size - bsize, bsize)
    ensures Fits(offset, if size > bsize then bsize else size, bsize)
  {
    NextBlock(offset, bsize);
  }

  lemma NextRecords(offset: nat, size: nat, bsize: nat)
    requires Records(offset, size) && bsize % DEV_BSIZE == 0
    ensures size > bsize ==> Records(offset + bsize, size - bsize)
    ensures Records(offset + size, 0)
  {
  }

  // Agreement with the slow path

  lemma {:induction false} Shifted(o: nat, k: nat, bsize: nat)
    requires bsize > 0
    ensures BlockNo(o + Offset(bsize, k), bsize) == BlockNo(o, bsize) + k
    ensures BlockOff(o + Offset(bsize, k), bsize) == BlockOff(o, bsize)
  {
    if k > 0 {
      Shifted(o, k - 1, bsize);
      NextBlock(o + Offset(bsize, k - 1), bsize);
    }
  }

  /** After add_file_direct the blocks of a file, behind those that were there, read as the file. */
  lemma DirectAgrees(v: Volume, before: seq<nat>, f: View, num: nat, offset: nat, data: seq<Byte>)
    requires v.Valid() && num <= |f.blocks| && num == BlockNo(f.size, v.bsize)
    requires DirectHolds(v, before + f.blocks[..num], offset + Offset(v.bsize, |before|), data)
    ensures |data| > 0 ==> Holds(v, f, offset, data)
  {
    forall o | offset <= o < offset + |data| ensures RightFrom(v, f, offset, data, o) {
      RightAt(v, before, f, num, offset, data, o);
    }
    AllRight(v, f, offset, data);
  }

  /** Byte `o` is in the file, and `data` from `offset` on has it. */
  predicate RightFrom(v: Volume, f: View, offset: nat, data: seq<Byte>, o: nat)
    requires v.Valid() && offset <= o < offset + |data|
  {
    InAndRight(v, f, o, data[o - offset])
  }

  predicate InAndRight(v: Volume, f: View, o: nat, x: Byte)
    requires v.Valid()
  {
    o < f.size && ByteOf(v, f, o, x)
  }

  lemma AllRight(v: Volume, f: View, offset: nat, data: seq<Byte>)
    requires v.Valid()
    requires forall o | offset <= o < offset + |data| :: RightFrom(v, f, offset, data, o)
    ensures |data| > 0 ==> Holds(v, f, offset, data)
  {
    if |data| > 0 {
      assert RightFrom(v, f, offset, data, offset + |data| - 1);
      forall o | offset <= o < offset + |data| ensures ByteFrom(v, f, offset, data, o) {
        assert RightFrom(v, f, offset, data, o);
      }
    }
  }

  lemma RightAt(v: Volume, before: seq<nat>, f: View, num: nat, offset: nat, data: seq<Byte>, o: nat)
    requires v.Valid() && num <= |f.blocks| && num == BlockNo(f.size, v.bsize)
    requires DirectHolds(v, before + f.blocks[..num], offset + Offset(v.bsize, |before|), data)
    requires offset <= o < offset + |data|
    ensures RightFrom(v, f, offset, data, o)
  {
    var base, i := Offset(v.bsize, |before|), o - offset;
    DirectPick(v, before + f.blocks[..num], offset + base, data, i, o + base);
    DirectByteAgrees(v, before, f, num, o, data[i]);
  }

  lemma DirectPick(v: Volume, blocks: seq<nat>, offset: nat, data: seq<Byte>, i: nat, o: nat)
    requires v.Valid() && DirectHolds(v, blocks, offset, data) && i < |data| && o == offset + i
    ensures DirectIs(v, blocks, o, data[i])
  {
  }

  lemma DirectByteAgrees(v: Volume, before: seq<nat>, f: View, num: nat, o: nat, x: Byte)
    requires v.Valid() && num <= |f.blocks| && num == BlockNo(f.size, v.bsize)
    requires DirectIs(v, before + f.blocks[..num], o + Offset(v.bsize, |before|), x)
    ensures InAndRight(v, f, o, x)
  {
    Shifted(o, |before|, v.bsize);
    NotPastEnd(o, f.size, v.bsize);
    SecondPart(before, f.blocks, num, BlockNo(o, v.bsize));
  }

  lemma NotPastEnd(o: nat, size: nat, bsize: nat)
    requires bsize > 0
    ensures o >= size ==> BlockNo(o, bsize) >= BlockNo(size, bsize)
  {
    if o >= size {
      BlocksInOrder(size, o - size, bsize);
    }
  }

  lemma SecondPart(before: seq<nat>, s: seq<nat>, num: nat, n: nat)
    requires n < num <= |s|
    ensures (before + s[..num])[n + |before|] == s[n]
  {
  }

  // Page sizes and block sizes

  /** A multiple of a size that divides the block size, or that the block size divides, is the
      start of a block or leaves room for that size in its block. */
  lemma AlignedFits(i: nat, size: nat, k: nat, bsize: nat)
    requires bsize > 0 && size > 0
    requires size == Offset(bsize, k) || bsize == Offset(size, k)
    ensures Fits(Offset(size, i), size, bsize)
  {
    if bsize == Offset(size, k) {
      PageInBlock(i, size, k, bsize);
    } else {
      BlocksInPage(i, size, k, bsize);
    }
  }

  lemma {:induction false} BlocksInPage(i: nat, size: nat, k: nat, bsize: nat)
    requires bsize > 0 && size == Offset(bsize, k)
    ensures BlockOff(Offset(size, i), bsize) == 0
  {
    if i > 0 {
      BlocksInPage(i - 1, size, k, bsize);
      Shifted(Offset(size, i - 1), k, bsize);
    }
  }

  /** The places of pages in a block are multiples of the page size. */
  lemma {:induction false} PageInBlock(i: nat, size: nat, k: nat, bsize: nat)
    requires bsize > 0 && size > 0 && bsize == Offset(size, k)
    ensures exists j: nat | j < k :: BlockOff(Offset(size, i), bsize) == Offset(size, j)
    ensures BlockOff(Offset(size, i), bsize) + size <= bsize
  {
    if i == 0 {
      assert k > 0;
      assert Offset(size, 0) == 0;
      OffsetGrows(size, 1, k);
    } else {
      PageInBlock(i - 1, size, k, bsize);
      var j: nat :| j < k && BlockOff(Offset(size, i - 1), bsize) == Offset(size, j);
      NextPage(Offset(size, i - 1), j, size, k, bsize);
    }
  }

  lemma NextPage(o: nat, j: nat, size: nat, k: nat, bsize: nat)
    requires bsize > 0 && size > 0 && bsize == Offset(size, k) && j < k
    requires BlockOff(o, bsize) == Offset(size, j)
    ensures var j' := if j + 1 < k then j + 1 else 0; BlockOff(o + size, bsize) == Offset(size, j')
    ensures BlockOff(o + size, bsize) + size <= bsize
  {
    if j + 1 < k {
      OffsetGrows(size, j + 2, k);
      SameBlock(o, size, bsize);
    } else {
      EndOfBlock(o, size, bsize);
      OffsetGrows(size, 1, k);
    }
  }

  // Writing

  /** A complete transfer to byte `off` beyond address `b`. */
  function WriteAt(v: Volume, b: nat, off: nat, data: seq<Byte>): Volume {
    v.(at := (c: nat, o: nat) => Written(v, Place(v.fsize, b, off), data, c, o))
  }

  function Place(fsize: nat, b: nat, off: nat): nat {
    Offset(fsize, b) + off
  }

  function Written(v: Volume, start: nat, data: seq<Byte>, c: nat, o: nat): Byte {
    if start <= Place(v.fsize, c, o) < start + |data| then data[Place(v.fsize, c, o) - start] else v.at(c, o)
  }

  /** The blocks do not overlap on the disk. */
  predicate Apart(fsize: nat, bsize: nat, blocks: seq<nat>) {
    forall m, n | 0 <= m < |blocks| && 0 <= n < |blocks| && m != n && blocks[m] != 0 && blocks[n] != 0 ::
      || Place(fsize, blocks[m], 0) + bsize <= Place(fsize, blocks[n], 0)
      || Place(fsize, blocks[n], 0) + bsize <= Place(fsize, blocks[m], 0)
  }

  /** The bytes from `offset` on are now `data`, and every other byte of the blocks is as it was. */
  predicate WroteByte(v: Volume, u: Volume, blocks: seq<nat>, offset: nat, data: seq<Byte>, o: nat)
    requires v.Valid() && u == v.(at := u.at) && InDirect(v.bsize, blocks, o)
  {
    DirectByte(u, blocks, o) == if offset <= o < offset + |data| then data[o - offset] else DirectByte(v, blocks, o)
  }

  ghost predicate WroteRange(v: Volume, u: Volume, blocks: seq<nat>, offset: nat, data: seq<Byte>)
    requires v.Valid() && u == v.(at := u.at)
  {
    forall o: nat | InDirect(v.bsize, blocks, o) :: WroteByte(v, u, blocks, offset, data, o)
  }

  /** Where byte `o` of the blocks lies on the disk. */
  function PlaceOf(v: Volume, blocks: seq<nat>, o: nat): nat
    requires v.Valid() && BlockNo(o, v.bsize) < |blocks|
  {
    Place(v.fsize, blocks[BlockNo(o, v.bsize)], BlockOff(o, v.bsize))
  }

  /** The disk holds `data` from `start` on, and elsewhere what it held. */
  ghost predicate WroteAt(v: Volume, u: Volume, start: nat, data: seq<Byte>) {
    forall c: nat, o: nat :: u.at(c, o) == Written(v, start, data, c, o)
  }

  /** The disk's bytes `(c, o)` are those of a byte in the range. */
  ghost predicate InRange(v: Volume, blocks: seq<nat>, offset: nat, n: nat, c: nat, o: nat)
    requires v.Valid()
  {
    exists x | offset <= x < offset + n :: HasPlace(v, blocks, x, Place(v.fsize, c, o))
  }

  predicate HasPlace(v: Volume, blocks: seq<nat>, x: nat, p: nat)
    requires v.Valid()
  {
    InDirect(v.bsize, blocks, x) && PlaceOf(v, blocks, x) == p
  }

  /** Nothing on the disk has changed but the `n` bytes of the blocks from `offset` on. */
  ghost predicate WroteOnly(v: Volume, u: Volume, blocks: seq<nat>, offset: nat, n: nat)
    requires v.Valid()
  {
    forall c: nat, o: nat :: u.at(c, o) == v.at(c, o) || InRange(v, blocks, offset, n, c, o)
  }

  lemma PlaceInBlock(v: Volume, blocks: seq<nat>, x: nat)
    requires v.Valid()
    ensures InDirect(v.bsize, blocks, x) ==>
              var start := Place(v.fsize, blocks[BlockNo(x, v.bsize)], 0);
              start <= PlaceOf(v, blocks, x) < start + v.bsize
  {
  }

  /** In particular nothing outside the blocks has. */
  lemma OutsideKept(v: Volume, u: Volume, blocks: seq<nat>, offset: nat, n: nat, c: nat, o: nat)
    requires v.Valid() && WroteOnly(v, u, blocks, offset, n)
    requires forall k | 0 <= k < |blocks| && blocks[k] != 0 ::
               var start := Place(v.fsize, blocks[k], 0); !(start <= Place(v.fsize, c, o) < start + v.bsize)
    ensures u.at(c, o) == v.at(c, o)
  {
    forall x | offset <= x < offset + n ensures !HasPlace(v, blocks, x, Place(v.fsize, c, o)) {
      PlaceInBlock(v, blocks, x);
    }
  }

  /** Two bytes of one block are as far apart as their places in it. */
  lemma {:induction false} SameDistance(o: nat, p: nat, bsize: nat)
    requires bsize > 0 && BlockNo(o, bsize) == BlockNo(p, bsize)
    ensures o - p == BlockOff(o, bsize) - BlockOff(p, bsize)
    decreases o
  {
    if o >= bsize {
      SameDistance(o - bsize, p - bsize, bsize);
    }
  }

  lemma WriteInBlock(v: Volume, u: Volume, blocks: seq<nat>, offset: nat, data: seq<Byte>)
    requires v.Valid() && InDirect(v.bsize, blocks, offset) && |data| <= v.bsize
    requires u == WriteAt(v, blocks[BlockNo(offset, v.bsize)], BlockOff(offset, v.bsize), data)
    ensures u == v.(at := u.at) && WroteAt(v, u, PlaceOf(v, blocks, offset), data)
    ensures Fits(offset, |data|, v.bsize) ==> WroteOnly(v, u, blocks, offset, |data|)
    ensures Fits(offset, |data|, v.bsize) && Apart(v.fsize, v.bsize, blocks) ==> WroteRange(v, u, blocks, offset, data)
  {
    if Fits(offset, |data|, v.bsize) {
      forall c: nat, o: nat ensures u.at(c, o) == v.at(c, o) || InRange(v, blocks, offset, |data|, c, o) {
        WriteOnePlace(v, blocks, offset, |data|, c, o);
      }
      if Apart(v.fsize, v.bsize, blocks) {
        forall o: nat | InDirect(v.bsize, blocks, o) ensures WroteByte(v, u, blocks, offset, data, o) {
          WriteOneByte(v, u, blocks, offset, data, o);
        }
      }
    }
  }

  lemma WriteOnePlace(v: Volume, blocks: seq<nat>, offset: nat, n: nat, c: nat, o: nat)
    requires v.Valid() && InDirect(v.bsize, blocks, offset) && BlockOff(offset, v.bsize) + n <= v.bsize
    ensures var start := PlaceOf(v, blocks, offset);
            start <= Place(v.fsize, c, o) < start + n ==> InRange(v, blocks, offset, n, c, o)
  {
    var start, p := PlaceOf(v, blocks, offset), Place(v.fsize, c, o);
    if start <= p < start + n {
      SameBlock(offset, p - start, v.bsize);
      assert HasPlace(v, blocks, offset + (p - start), p);
    }
  }

  lemma WriteOneByte(v: Volume, u: Volume, blocks: seq<nat>, offset: nat, data: seq<Byte>, o: nat)
    requires v.Valid() && InDirect(v.bsize, blocks, offset) && Apart(v.fsize, v.bsize, blocks)
    requires BlockOff(offset, v.bsize) + |data| <= v.bsize && InDirect(v.bsize, blocks, o)
    requires u == WriteAt(v, blocks[BlockNo(offset, v.bsize)], BlockOff(offset, v.bsize), data)
    ensures WroteByte(v, u, blocks, offset, data, o)
  {
    ByteInOrOut(v, blocks, offset, |data|, o);
  }

  /** A byte of the blocks is where a transfer inside one block goes if and only if it is in the
      range that the transfer is for. */
  lemma ByteInOrOut(v: Volume, blocks: seq<nat>, offset: nat, n: nat, o: nat)
    requires v.Valid() && InDirect(v.bsize, blocks, offset) && InDirect(v.bsize, blocks, o)
    requires Apart(v.fsize, v.bsize, blocks)
    requires BlockOff(offset, v.bsize) + n <= v.bsize
    ensures var start := Place(v.fsize, blocks[BlockNo(offset, v.bsize)], BlockOff(offset, v.bsize));
            var p := Place(v.fsize, blocks[BlockNo(o, v.bsize)], BlockOff(o, v.bsize));
            && (start <= p < start + n <==> offset <= o < offset + n)
            && (offset <= o < offset + n ==> p - start == o - offset)
  {
    if BlockNo(o, v.bsize) == BlockNo(offset, v.bsize) {
      SameDistance(o, offset, v.bsize);
    } else if offset <= o < offset + n {
      SameBlock(offset, o - offset, v.bsize);
    }
  }

  lemma BlockIn(v: Volume, blocks: seq<nat>, offset: nat, n: nat)
    requires v.Valid() && InDirect(v.bsize, blocks, offset) && BlockOff(offset, v.bsize) + n <= v.bsize
    ensures forall o | offset <= o < offset + n :: InDirect(v.bsize, blocks, o)
  {
    forall o | offset <= o < offset + n ensures InDirect(v.bsize, blocks, o) {
      SameBlock(offset, o - offset, v.bsize);
    }
  }

  /** The first `n` bytes of `data` are where the blocks have room for them, and nothing else has
      changed. */
  ghost predicate WroteFirst(v: Volume, u: Volume, blocks: seq<nat>, offset: nat, data: seq<Byte>, n: nat)
    requires v.Valid()
  {
    && n <= |data| && u == v.(at := u.at)
    && WroteRange(v, u, blocks, offset, data[..n]) && WroteOnly(v, u, blocks, offset, n)
    && forall o | offset <= o < offset + n :: InDirect(v.bsize, blocks, o)
  }

  lemma WroteMore(v: Volume, t: Volume, u: Volume, blocks: seq<nat>, offset: nat, data: seq<Byte>, n: nat, m: nat)
    requires v.Valid() && WroteFirst(v, t, blocks, offset, data, n) && u == t.(at := u.at) && n + m <= |data|
    requires InDirect(v.bsize, blocks, offset + n) && BlockOff(offset + n, v.bsize) + m <= v.bsize
    requires WroteRange(t, u, blocks, offset + n, data[n..][..m]) && WroteOnly(t, u, blocks, offset + n, m)
    ensures WroteFirst(v, u, blocks, offset, data, n + m)
  {
    BlockIn(v, blocks, offset + n, m);
    OnlyMore(v, t, u, blocks, offset, n, m);
    RangeMore(v, t, u, blocks, offset, data, n, m);
  }

  lemma RangeMore(v: Volume, t: Volume, u: Volume, blocks: seq<nat>, offset: nat, data: seq<Byte>, n: nat, m: nat)
    requires v.Valid() && t == v.(at := t.at) && u == t.(at := u.at) && n + m <= |data|
    requires WroteRange(v, t, blocks, offset, data[..n])
    requires WroteRange(t, u, blocks, offset + n, data[n..][..m])
    ensures WroteRange(v, u, blocks, offset, data[..n + m])
  {
    forall o: nat | InDirect(v.bsize, blocks, o) ensures WroteByte(v, u, blocks, offset, data[..n + m], o) {
      assert WroteByte(v, t, blocks, offset, data[..n], o);
      assert InDirect(t.bsize, blocks, o) && WroteByte(t, u, blocks, offset + n, data[n..][..m], o);
    }
  }

  lemma OnlyMore(v: Volume, t: Volume, u: Volume, blocks: seq<nat>, offset: nat, n: nat, m: nat)
    requires v.Valid() && t == v.(at := t.at)
    requires WroteOnly(v, t, blocks, offset, n) && WroteOnly(t, u, blocks, offset + n, m)
    ensures WroteOnly(v, u, blocks, offset, n + m)
  {
    forall c: nat, o: nat ensures u.at(c, o) == v.at(c, o) || InRange(v, blocks, offset, n + m, c, o) {
      RangeGrows(v, t, blocks, offset, n, m, c, o);
    }
  }

  lemma RangeGrows(v: Volume, t: Volume, blocks: seq<nat>, offset: nat, done: nat, n: nat, c: nat, o: nat)
    requires v.Valid() && t == v.(at := t.at)
    ensures InRange(v, blocks, offset, done, c, o) ==> InRange(v, blocks, offset, done + n, c, o)
    ensures InRange(t, blocks, offset + done, n, c, o) ==> InRange(v, blocks, offset, done + n, c, o)
  {
    if InRange(t, blocks, offset + done, n, c, o) {
      var x :| offset + done <= x < offset + done + n && HasPlace(t, blocks, x, Place(t.fsize, c, o));
      assert HasPlace(v, blocks, x, Place(v.fsize, c, o));
    }
  }

  /** What was written is read back. */
  lemma WrittenIsRead(v: Volume, u: Volume, blocks: seq<nat>, offset: nat, data: seq<Byte>)
    requires v.Valid() && u == v.(at := u.at) && WroteRange(v, u, blocks, offset, data)
    requires forall o | offset <= o < offset + |data| :: InDirect(v.bsize, blocks, o)
    ensures DirectHolds(u, blocks, offset, data)
  {
    forall i | 0 <= i < |data| ensures DirectIs(u, blocks, offset + i, data[i]) {
      assert InDirect(v.bsize, blocks, offset + i);
      assert WroteByte(v, u, blocks, offset, data, offset + i);
    }
  }

  // Exactly when a page read stays inside its block

  /** What page_read_file_direct gets for `n` bytes. */
  function PageData(v: Volume, blocks: seq<nat>, offset: nat, n: nat): seq<Byte>
    requires v.Valid() && InDirect(v.bsize, blocks, offset)
  {
    v.Read(blocks[BlockNo(offset, v.bsize)], BlockOff(offset, v.bsize) + n)[BlockOff(offset, v.bsize)..]
  }

  /** A disk of blocks without fragments, with 1 in the bytes of block 2 and 0 elsewhere. */
  function Marked(bsize: nat): Volume {
    Volume((b: nat, o: nat) => if Offset(bsize, 2) <= Place(bsize, b, o) < Offset(bsize, 3) then 1 else 0, bsize, bsize)
  }

  /** A transfer that leaves its block gets bytes of the block's neighbour on the disk. */
  lemma Neighbour(offset: nat, n: nat, bsize: nat)
    requires bsize > 0 && bsize % 4 == 0 && BlockOff(offset, bsize) + n > bsize >= n
    ensures var blocks := Repeat(1, BlockNo(offset, bsize) + 1) + [3]; var v := Marked(bsize);
            && InDirect(bsize, blocks, offset)
            && !DirectHolds(v, blocks, offset, PageData(v, blocks, offset, n))
  {
    var k := BlockNo(offset, bsize);
    NeighbourByte(offset, n, bsize, Repeat(1, k + 1) + [3], k);
  }

  /** The first byte behind the block is not the one that the array has there. */
  lemma NeighbourByte(offset: nat, n: nat, bsize: nat, blocks: seq<nat>, k: nat)
    requires bsize > 0 && bsize % 4 == 0 && BlockOff(offset, bsize) + n > bsize >= n
    requires k == BlockNo(offset, bsize) && |blocks| == k + 2 && blocks[k] == 1 && blocks[k + 1] == 3
    ensures !DirectHolds(Marked(bsize), blocks, offset, PageData(Marked(bsize), blocks, offset, n))
  {
    var v, off := Marked(bsize), BlockOff(offset, bsize);
    var data, i := PageData(v, blocks, offset, n), bsize - off;
    MarkedAt(bsize);
    assert data[i] == 1 by { assert v.Read(1, off + n)[bsize] == v.at(1, bsize); }
    EndOfBlock(offset, i, bsize);
    NextNumber(offset, i, bsize);
    assert !DirectIs(v, blocks, offset + i, data[i]);
  }

  lemma MarkedAt(bsize: nat)
    requires bsize > 0
    ensures Marked(bsize).at(1, bsize) == 1 && Marked(bsize).at(3, 0) == 0
  {
    assert Offset(bsize, 1) == Offset(bsize, 0) + bsize;
    assert Offset(bsize, 2) == Offset(bsize, 1) + bsize;
    assert Offset(bsize, 3) == Offset(bsize, 2) + bsize;
  }

  lemma {:induction false} NextNumber(o: nat, size: nat, bsize: nat)
    requires bsize > 0 && BlockOff(o, bsize) + size == bsize
    ensures BlockNo(o + size, bsize) == BlockNo(o, bsize) + 1
    decreases o
  {
    if o >= bsize {
      NextNumber(o - bsize, size, bsize);
    }
  }

  /** A transfer of up to a block is right on every disk and every block map if and only if it
      starts a block or fits the rest of one. */
  lemma TransferExact(offset: nat, n: nat, bsize: nat)
    requires bsize > 0 && bsize % 4 == 0 && n <= bsize
    ensures Fits(offset, n, bsize) <==>
            forall v: Volume, blocks | v.Valid() && v.bsize == bsize && InDirect(bsize, blocks, offset) ::
              DirectHolds(v, blocks, offset, PageData(v, blocks, offset, n))
  {
    if Fits(offset, n, bsize) {
      forall v: Volume, blocks | v.Valid() && v.bsize == bsize && InDirect(bsize, blocks, offset)
        ensures DirectHolds(v, blocks, offset, PageData(v, blocks, offset, n))
      {
        WithinBlock(v, blocks, offset, PageData(v, blocks, offset, n));
      }
    } else {
      Neighbour(offset, n, bsize);
    }
  }

  // Exactly when a page write stays inside its block

  /** A transfer of up to a block writes its range of the blocks and no other byte of them, on every
      disk and every map of blocks that do not overlap, if and only if it starts a block or fits the
      rest of one. */
  lemma WriteExact(offset: nat, n: nat, bsize: nat)
    requires bsize > 0 && bsize % 4 == 0 && n <= bsize
    ensures Fits(offset, n, bsize) <==>
            forall v: Volume, blocks, data: seq<Byte> | WriteAsked(v, blocks, offset, data, n, bsize) ::
              WroteRange(v, PageWritten(v, blocks, offset, data), blocks, offset, data)
  {
    if Fits(offset, n, bsize) {
      forall v: Volume, blocks, data: seq<Byte> | WriteAsked(v, blocks, offset, data, n, bsize)
        ensures WroteRange(v, PageWritten(v, blocks, offset, data), blocks, offset, data)
      {
        WriteInBlock(v, PageWritten(v, blocks, offset, data), blocks, offset, data);
      }
    } else {
      NeighbourWritten(offset, n, bsize);
    }
  }

  ghost predicate WriteAsked(v: Volume, blocks: seq<nat>, offset: nat, data: seq<Byte>, n: nat, bsize: nat) {
    && v.Valid() && v.bsize == bsize && |data| == n
    && InDirect(bsize, blocks, offset) && Apart(v.fsize, bsize, blocks)
  }

  /** What page_write_file_direct makes of the disk. */
  function PageWritten(v: Volume, blocks: seq<nat>, offset: nat, data: seq<Byte>): (u: Volume)
    requires v.Valid() && InDirect(v.bsize, blocks, offset)
    ensures u == v.(at := u.at)
  {
    WriteAt(v, blocks[BlockNo(offset, v.bsize)], BlockOff(offset, v.bsize), data)
  }

  /** A transfer that leaves its block misses the byte that the array has in another place. */
  lemma NeighbourWritten(offset: nat, n: nat, bsize: nat)
    requires bsize > 0 && bsize % 4 == 0 && BlockOff(offset, bsize) + n > bsize >= n
    ensures var blocks := Repeat(0, BlockNo(offset, bsize)) + [1, 3];
            var data := Repeat(1, n); var v := Marked(bsize);
            && WriteAsked(v, blocks, offset, data, n, bsize)
            && !WroteRange(v, PageWritten(v, blocks, offset, data), blocks, offset, data)
  {
    var blocks, v, off := Repeat(0, BlockNo(offset, bsize)) + [1, 3], Marked(bsize), BlockOff(offset, bsize);
    var data: seq<Byte>, i := Repeat(1, n), bsize - off;
    var u := PageWritten(v, blocks, offset, data);
    EndOfBlock(offset, i, bsize);
    NextNumber(offset, i, bsize);
    assert DirectByte(u, blocks, offset + i) == u.at(3, 0);
    assert !WroteByte(v, u, blocks, offset, data, offset + i);
  }

  // The fast path and the slow path together

  /** Byte `o` of the file lies in one of its whole blocks, and not in a hole. */
  predicate Plain(bsize: nat, f: View, o: nat)
    requires bsize > 0
  {
    BlockNo(o, bsize) < BlockNo(f.size, bsize) && HasBlock(f.blocks, BlockNo(o, bsize))
  }

  lemma PlainIsDirect(bsize: nat, before: seq<nat>, f: View, o: nat)
    requires bsize > 0 && BlockNo(f.size, bsize) <= |f.blocks|
    ensures var all := before + f.blocks[..BlockNo(f.size, bsize)];
            InDirect(bsize, all, o + Offset(bsize, |before|)) <==> Plain(bsize, f, o)
  {
    Shifted(o, |before|, bsize);
    BehindAt(before, f.blocks, BlockNo(f.size, bsize), BlockNo(o, bsize));
  }

  /** A block has an address behind others if and only if it has one before. */
  lemma BehindAt(before: seq<nat>, s: seq<nat>, num: nat, n: nat)
    requires num <= |s|
    ensures HasBlock(before + s[..num], n + |before|) <==> n < num && HasBlock(s, n)
  {
    if n < num { SecondPart(before, s, num, n); }
  }

  /** A page-aligned place in a file is as good behind whole blocks. */
  lemma AlignedBehind(i: nat, size: nat, k: nat, bsize: nat, n: nat)
    requires bsize > 0 && size > 0 && (size == Offset(bsize, k) || bsize == Offset(size, k))
    ensures Fits(Offset(size, i) + Offset(bsize, n), size, bsize)
  {
    AlignedFits(i, size, k, bsize);
    FitsBehind(Offset(size, i), size, bsize, n);
  }

  lemma FitsBehind(o: nat, size: nat, bsize: nat, n: nat)
    requires bsize > 0 && Fits(o, size, bsize)
    ensures Fits(o + Offset(bsize, n), size, bsize)
  {
    Shifted(o, n, bsize);
  }

  /** Two readings of one range of a file are the same. */
  lemma SameReading(v: Volume, f: View, offset: nat, a: seq<Byte>, b: seq<Byte>)
    requires v.Valid() && |a| == |b| && Holds(v, f, offset, a) && Holds(v, f, offset, b)
    ensures a == b
  {
    forall i | 0 <= i < |a| ensures a[i] == b[i] {
      assert ByteFrom(v, f, offset, a, offset + i) && ByteFrom(v, f, offset, b, offset + i);
    }
  }

  /** After add_file_direct has put a file behind earlier blocks, page `i` of the file may be read
      through the array whenever page size and block size divide one another. The read succeeds
      exactly when the page lies in whole blocks without holes, and then returns what read_file
      returns. */
  lemma PageAgrees(v: Volume, before: seq<nat>, f: View, i: nat, size: nat, k: nat, fast: seq<Byte>, slow: seq<Byte>)
    requires v.Valid() && BlockNo(f.size, v.bsize) <= |f.blocks|
    requires size > 0 && (size == Offset(v.bsize, k) || v.bsize == Offset(size, k))
    ensures var all := before + f.blocks[..BlockNo(f.size, v.bsize)];
            var place := Offset(size, i) + Offset(v.bsize, |before|);
            && Fits(place, size, v.bsize)
            && ((forall o | place <= o < place + size :: InDirect(v.bsize, all, o)) <==>
                (forall o | Offset(size, i) <= o < Offset(size, i) + size :: Plain(v.bsize, f, o)))
            && (|fast| == |slow| == size && DirectHolds(v, all, place, fast) && Holds(v, f, Offset(size, i), slow)
                ==> fast == slow)
  {
    AlignedBehind(i, size, k, v.bsize, |before|);
    PlainRange(v.bsize, before, f, Offset(size, i), size);
    FastIsSlow(v, before, f, Offset(size, i), fast, slow);
  }

  lemma FastIsSlow(v: Volume, before: seq<nat>, f: View, offset: nat, fast: seq<Byte>, slow: seq<Byte>)
    requires v.Valid() && BlockNo(f.size, v.bsize) <= |f.blocks|
    ensures var all := before + f.blocks[..BlockNo(f.size, v.bsize)];
            |fast| == |slow| > 0
            && DirectHolds(v, all, offset + Offset(v.bsize, |before|), fast) && Holds(v, f, offset, slow)
            ==> fast == slow
  {
    var num := BlockNo(f.size, v.bsize);
    if DirectHolds(v, before + f.blocks[..num], offset + Offset(v.bsize, |before|), fast) {
      DirectAgrees(v, before, f, num, offset, fast);
      if |fast| == |slow| > 0 && Holds(v, f, offset, slow) {
        SameReading(v, f, offset, fast, slow);
      }
    }
  }

  lemma PlainRange(bsize: nat, before: seq<nat>, f: View, offset: nat, size: nat)
    requires bsize > 0 && BlockNo(f.size, bsize) <= |f.blocks|
    ensures var all := before + f.blocks[..BlockNo(f.size, bsize)];
            var place := offset + Offset(bsize, |before|);
            (forall o | place <= o < place + size :: InDirect(bsize, all, o)) <==>
            (forall o | offset <= o < offset + size :: Plain(bsize, f, o))
  {
    var all, base := before + f.blocks[..BlockNo(f.size, bsize)], Offset(bsize, |before|);
    if forall o | offset + base <= o < offset + base + size :: InDirect(bsize, all, o) {
      forall o | offset <= o < offset + size ensures Plain(bsize, f, o) {
        PlainIsDirect(bsize, before, f, o);
        assert InDirect(bsize, all, o + base);
      }
    } else {
      var o :| offset + base <= o < offset + base + size && !InDirect(bsize, all, o);
      PlainIsDirect(bsize, before, f, o - base);
      assert !Plain(bsize, f, o - base);
    }
  }
}
