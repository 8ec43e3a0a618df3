/** A mounted file system as its bytes, and the tree of indirect blocks of an inode. Both FFS
    and ext2 have this form; an ext2 block is its own fragment. */
module Volumes {

  import Partitions
  import opened IndirectTree

  type Byte = Partitions.Byte

  const NDADDR: nat := 12
  const NIADDR: nat := 3
  const MAXBSIZE: nat := 8192

  /** Disk addresses count fragments of `fsize` bytes; `bsize` is the size of a block. `at` gives
      the byte that is so many bytes beyond an address. */
  datatype Volume = Volume(at: (nat, nat) -> Byte, bsize: nat, fsize: nat) {
    predicate Valid() {
      fsize > 0 && bsize > 0 && bsize % 4 == 0
    }

    /** A block is a whole number of fragments. */
    ghost predicate Whole() {
      exists frags: nat :: bsize == Offset(fsize, frags)
    }

    /** NINDIR: the number of addresses in a block. */
    function PerBlock(): nat {
      bsize / 4
    }

    /** A complete transfer of `n` bytes from address `b` on. */
    function Read(b: nat, n: nat): (r: seq<Byte>)
      ensures |r| == n
      ensures forall i | 0 <= i < n :: r[i] == at(b, i)
    {
      seq(n, i requires 0 <= i < n => at(b, i))
    }

    /** The addresses in the blocks of this volume. */
    function Pointers(): Index {
      Index((b: nat, idx: nat) => if 4 * idx + 4 <= bsize then Word(Read(b, bsize), idx) else 0, PerBlock())
    }
  }

  /** The little-endian address at index `idx` of an indirect block. */
  function Word(data: seq<Byte>, idx: nat): nat
    requires 4 * idx + 4 <= |data|
  {
    data[4 * idx] as nat + 0x100 * data[4 * idx + 1] as nat
    + 0x1_0000 * data[4 * idx + 2] as nat + 0x100_0000 * data[4 * idx + 3] as nat
  }

  datatype Inode = Inode(size: nat, direct: seq<nat>, indirect: seq<nat>) {
    predicate Valid() {
      |direct| == NDADDR && |indirect| == NIADDR
    }
  }

  /** Every block of a file, in order: the direct ones, then those of each indirect tree. */
  function FileMap(v: Volume, ino: Inode): seq<nat>
    requires v.Valid() && ino.Valid()
  {
    ino.direct + Trees(v.Pointers(), ino.indirect, 1)
  }

  function Trees(x: Index, roots: seq<nat>, levels: nat): seq<nat>
    requires x.width > 0
    decreases |roots|
  {
    if |roots| == 0 then [] else Expand(x, roots[0], levels) + Trees(x, roots[1..], levels + 1)
  }

  /** A block is in the first tree if that is large enough, or else in the later ones. */
  lemma TreesStep(x: Index, roots: seq<nat>, levels: nat, m: nat)
    requires x.width > 0 && |roots| > 0
    ensures var k := Pow(x.width, levels); var t := Trees(x, roots, levels); var u := Trees(x, roots[1..], levels + 1);
            if m < k then m < |t| && t[m] == Walk(x, roots[0], levels, m)
            else (m < |t| <==> m - k < |u|) && (m < |t| ==> t[m] == u[m - k])
  {
    ExpandLength(x, roots[0], levels);
    if m < Pow(x.width, levels) {
      WalkExpand(x, roots[0], levels, m);
    }
  }

  // The level table

  /** A 32-bit int. */
  function AsInt(x: int): int {
    (x + 0x8000_0000) % 0x1_0000_0000 - 0x8000_0000
  }

  /** It is the one that differs from the number by a multiple of the word range. */
  lemma AsIntExact(x: int, r: int)
    ensures r == AsInt(x) <==> -0x8000_0000 <= r < 0x8000_0000 && (x - r) % 0x1_0000_0000 == 0
  {
  }

  /** The number of blocks in front of the tree at `level`. */
  function Skipped(width: nat, level: nat): nat {
    if level == 0 then NDADDR else Skipped(width, level - 1) + Pow(width, level)
  }

  /** The number of blocks that block_map finds: the entry of the level table for the last tree is
      an int, which can be less than the number of blocks in that tree. */
  function Reach(width: nat): nat {
    var last := AsInt(Pow(width, NIADDR));
    Skipped(width, NIADDR - 1) + if last > 0 then last else 0
  }

  /** The entries for the first two trees are exact up to the largest block size. */
  lemma SmallLevels(width: nat)
    requires width <= MAXBSIZE / 4
    ensures Pow(width, 1) == width <= 2048 && Pow(width, 2) == width * width <= 0x40_0000
    ensures AsInt(Pow(width, 1)) == Pow(width, 1) && AsInt(Pow(width, 2)) == Pow(width, 2)
    ensures Pow(width, 3) == Pow(width, 2) * width
  {
    assert Pow(width, 0) == 1;
    assert Pow(width, 1) == width * Pow(width, 0);
    assert Pow(width, 2) == width * Pow(width, 1);
    assert Pow(width, 3) == width * Pow(width, 2);
    assert width * width <= 2048 * 2048;
  }

  /** A block's place among the trees from `level` on. */
  lemma {:induction false} LevelAt(v: Volume, ino: Inode, level: nat, m: nat)
    requires v.Valid() && ino.Valid() && level <= NIADDR
    ensures var n := Skipped(v.PerBlock(), level) + m; var t := Trees(v.Pointers(), ino.indirect[level..], level + 1);
            (n < |FileMap(v, ino)| <==> m < |t|) && (m < |t| ==> FileMap(v, ino)[n] == t[m])
    decreases level
  {
    if level == 0 {
      assert ino.indirect[0..] == ino.indirect;
    } else {
      var k := Pow(v.PerBlock(), level);
      LevelAt(v, ino, level - 1, m + k);
      TreesStep(v.Pointers(), ino.indirect[level - 1..], level, m + k);
      assert ino.indirect[level - 1..][1..] == ino.indirect[level..];
    }
  }

  /** A block of the tree at `level`. */
  lemma InTree(v: Volume, ino: Inode, level: nat, m: nat)
    requires v.Valid() && ino.Valid() && level < NIADDR && m < Pow(v.PerBlock(), level + 1)
    ensures var n := Skipped(v.PerBlock(), level) + m;
            n < |FileMap(v, ino)| && FileMap(v, ino)[n] == Walk(v.Pointers(), ino.indirect[level], level + 1, m)
  {
    LevelAt(v, ino, level, m);
    TreesStep(v.Pointers(), ino.indirect[level..], level + 1, m);
  }

  lemma MapLength(v: Volume, ino: Inode)
    requires v.Valid() && ino.Valid()
    ensures |FileMap(v, ino)| == Skipped(v.PerBlock(), NIADDR)
  {
    var n := Skipped(v.PerBlock(), NIADDR);
    LevelAt(v, ino, NIADDR, 0);
    InTree(v, ino, NIADDR - 1, Pow(v.PerBlock(), NIADDR) - 1);
  }

  /** Every block of a file's map is found if and only if the last entry of the level table fits
      an int. */
  lemma ReachExact(v: Volume, ino: Inode)
    requires v.Valid() && ino.Valid()
    ensures Reach(v.PerBlock()) <= |FileMap(v, ino)|
    ensures Reach(v.PerBlock()) == |FileMap(v, ino)| <==> Pow(v.PerBlock(), NIADDR) < 0x8000_0000
  {
    MapLength(v, ino);
  }

  /** With the largest blocks the last entry is 0 and the last tree is never found. No byte of
      a file whose offsets are 32-bit words lies there. */
  lemma LargestBlocks(o: nat)
    ensures Reach(MAXBSIZE / 4) == Skipped(MAXBSIZE / 4, NIADDR - 1)
    ensures o < 0x1_0000_0000 ==> BlockNo(o, MAXBSIZE) < Reach(MAXBSIZE / 4)
  {
    SmallLevels(MAXBSIZE / 4);
    BlockSplit(o, MAXBSIZE);
    assert Skipped(2048, 1) == NDADDR + Pow(2048, 1);
    assert Skipped(2048, 2) == Skipped(2048, 1) + Pow(2048, 2);
  }

  // The bytes of a file

  /** What a reader sees of a file: the addresses of the blocks it finds, and its size. */
  datatype View = View(blocks: seq<nat>, size: nat)

  function FileView(v: Volume, ino: Inode): View
    requires v.Valid() && ino.Valid()
  {
    ReachExact(v, ino);
    View(FileMap(v, ino)[..Reach(v.PerBlock())], ino.size)
  }

  /** fragroundup. */
  function RoundUp(x: nat, fsize: nat): (r: nat)
    requires fsize > 0
    ensures x <= r < x + fsize
  {
    if BlockOff(x, fsize) == 0 then x else x + (fsize - BlockOff(x, fsize))
  }

  /** blksize: the last block of a small file has only the fragments it needs. */
  function BlockSize(v: Volume, f: View, n: nat): nat
    requires v.Valid()
  {
    if n >= NDADDR || f.size >= Offset(v.bsize, n + 1) then v.bsize
    else RoundUp(BlockOff(f.size, v.bsize), v.fsize)
  }

  /** Byte `o` of a file: zero in a hole. */
  function FileByte(v: Volume, f: View, o: nat): Byte
    requires v.Valid() && BlockNo(o, v.bsize) < |f.blocks|
  {
    var d := f.blocks[BlockNo(o, v.bsize)];
    if d == 0 then 0 else v.at(d, BlockOff(o, v.bsize))
  }

  /** The range is inside the file, and its blocks are within reach of the indirect blocks. */
  predicate InFile(v: Volume, f: View, offset: nat, n: nat)
    requires v.Valid()
  {
    offset + n <= f.size && (n > 0 ==> BlockNo(offset + n - 1, v.bsize) < |f.blocks|)
  }

  predicate ByteOf(v: Volume, f: View, o: nat, x: Byte)
    requires v.Valid()
  {
    BlockNo(o, v.bsize) < |f.blocks| && x == FileByte(v, f, o)
  }

  /** `data` is what the file holds from `offset` on. */
  predicate Holds(v: Volume, f: View, offset: nat, data: seq<Byte>)
    requires v.Valid()
  {
    && InFile(v, f, offset, |data|)
    && forall o | offset <= o < offset + |data| :: ByteFrom(v, f, offset, data, o)
  }

  predicate ByteFrom(v: Volume, f: View, offset: nat, data: seq<Byte>, o: nat)
    requires v.Valid() && offset <= o < offset + |data|
  {
    ByteOf(v, f, o, data[o - offset])
  }

  /** The block of the file at index `n`, as a buffer has it. */
  ghost predicate IsBlock(v: Volume, f: View, n: nat, data: seq<Byte>)
    requires v.Valid()
  {
    && n < |f.blocks|
    && |data| == BlockSize(v, f, n)
    && data == var d := f.blocks[n]; if d == 0 then Repeat(0, |data|) else v.Read(d, |data|)
  }

  // Blocks and places in them

  /** lblkno: the block of a byte. */
  function BlockNo(o: nat, bsize: nat): nat
    requires bsize > 0
  {
    if o < bsize then 0 else 1 + BlockNo(o - bsize, bsize)
  }

  /** blkoff: its place in the block. */
  function BlockOff(o: nat, bsize: nat): (r: nat)
    requires bsize > 0
    ensures r < bsize
  {
    if o < bsize then o else BlockOff(o - bsize, bsize)
  }

  lemma {:induction false} BlockSplit(o: nat, bsize: nat)
    requires bsize > 0
    ensures o == Offset(bsize, BlockNo(o, bsize)) + BlockOff(o, bsize)
    ensures o == BlockNo(o, bsize) * bsize + BlockOff(o, bsize)
  {
    if o >= bsize {
      BlockSplit(o - bsize, bsize);
    }
    OffsetIsProduct(bsize, BlockNo(o, bsize));
  }

  lemma {:induction false} SameBlock(o: nat, i: nat, bsize: nat)
    requires bsize > 0 && BlockOff(o, bsize) + i < bsize
    ensures BlockNo(o + i, bsize) == BlockNo(o, bsize) && BlockOff(o + i, bsize) == BlockOff(o, bsize) + i
    decreases o
  {
    if o >= bsize {
      SameBlock(o - bsize, i, bsize);
    }
  }

  lemma {:induction false} OffsetGrows(m: nat, i: nat, j: nat)
    requires i <= j
    ensures Offset(m, i) <= Offset(m, j)
    decreases j - i
  {
    if i < j {
      OffsetGrows(m, i, j - 1);
    }
  }

  lemma {:induction false} EndOfBlock(o: nat, size: nat, bsize: nat)
    requires bsize > 0 && BlockOff(o, bsize) + size == bsize
    ensures BlockOff(o + size, bsize) == 0
    decreases o
  {
    if o >= bsize {
      EndOfBlock(o - bsize, size, bsize);
    }
  }

  /** A file that ends in the block of one of its bytes ends behind that byte. */
  lemma {:induction false} EndsInBlock(o: nat, size: nat, bsize: nat)
    requires bsize > 0 && o < size < Offset(bsize, BlockNo(o, bsize) + 1)
    ensures BlockOff(size, bsize) - BlockOff(o, bsize) == size - o
    decreases o
  {
    if o >= bsize {
      EndsInBlock(o - bsize, size - bsize, bsize);
    }
  }

  /** The part of a buffered block from `offset` on, up to the end of the block or of the file. */
  lemma BlockHolds(v: Volume, f: View, offset: nat, data: seq<Byte>, size: nat, chunk: seq<Byte>)
    requires v.Valid()
    requires IsBlock(v, f, BlockNo(offset, v.bsize), data)
    requires BlockOff(offset, v.bsize) + size <= |data| <= v.bsize && 0 < size && offset + size <= f.size
    requires chunk == data[BlockOff(offset, v.bsize)..BlockOff(offset, v.bsize) + size]
    ensures Holds(v, f, offset, chunk)
  {
    forall o | offset <= o < offset + |chunk| ensures ByteFrom(v, f, offset, chunk, o) {
      ByteInChunk(v, f, offset, data, chunk, BlockOff(offset, v.bsize), o);
    }
    RangeInFile(v, f, offset, size);
  }

  lemma ByteInChunk(v: Volume, f: View, offset: nat, data: seq<Byte>, chunk: seq<Byte>, off: nat, o: nat)
    requires v.Valid() && IsBlock(v, f, BlockNo(offset, v.bsize), data) && |data| <= v.bsize
    requires off == BlockOff(offset, v.bsize) && off + |chunk| <= |data| && chunk == data[off..off + |chunk|]
    requires offset <= o < offset + |chunk|
    ensures ByteFrom(v, f, offset, chunk, o)
  {
    ByteInBlock(v, f, offset, data, o);
  }

  lemma RangeInFile(v: Volume, f: View, offset: nat, size: nat)
    requires v.Valid() && 0 < size && offset + size <= f.size
    requires BlockOff(offset, v.bsize) + size <= v.bsize && BlockNo(offset, v.bsize) < |f.blocks|
    ensures InFile(v, f, offset, size)
  {
    SameBlock(offset, size - 1, v.bsize);
  }

  lemma ByteInBlock(v: Volume, f: View, offset: nat, data: seq<Byte>, o: nat)
    requires v.Valid()
    requires IsBlock(v, f, BlockNo(offset, v.bsize), data) && |data| <= v.bsize
    requires offset <= o && BlockOff(offset, v.bsize) + (o - offset) < |data|
    ensures ByteOf(v, f, o, data[BlockOff(offset, v.bsize) + (o - offset)])
  {
    SameBlock(offset, o - offset, v.bsize);
  }

  /** The block that holds a byte of the file has more than the byte's place in it, even when it
      is a fragment, and reaches the end of the block or of the file. */
  lemma BlockReaches(v: Volume, f: View, offset: nat)
    requires v.Valid() && v.Whole() && offset < f.size
    ensures var size := BlockSize(v, f, BlockNo(offset, v.bsize));
            && BlockOff(offset, v.bsize) < size <= v.bsize
            && (size < v.bsize ==> size - BlockOff(offset, v.bsize) >= f.size - offset)
  {
    if BlockSize(v, f, BlockNo(offset, v.bsize)) != v.bsize {
      EndsInBlock(offset, f.size, v.bsize);
    }
    var frags: nat :| v.bsize == Offset(v.fsize, frags);
    RoundUpInside(BlockOff(f.size, v.bsize), v.fsize, v.bsize, frags);
  }

  /** Rounded up to fragments, a place in a block is still inside the block. */
  lemma {:induction false} RoundUpInside(x: nat, fsize: nat, bsize: nat, frags: nat)
    requires fsize > 0 && x < bsize && bsize == Offset(fsize, frags)
    ensures RoundUp(x, fsize) <= bsize
    decreases x
  {
    if x >= fsize {
      RoundUpInside(x - fsize, fsize, bsize - fsize, frags - 1);
    }
  }

  lemma {:induction false} BlocksInOrder(o: nat, i: nat, bsize: nat)
    requires bsize > 0
    ensures BlockNo(o, bsize) <= BlockNo(o + i, bsize)
    decreases o
  {
    if o >= bsize {
      BlocksInOrder(o - bsize, i, bsize);
    }
  }

  lemma NotBeyond(v: Volume, f: View, offset: nat, done: nat, size: nat)
    requires v.Valid() && done < size && !InFile(v, f, offset + done, 1)
    ensures !InFile(v, f, offset, size)
  {
    BlocksInOrder(offset + done, size - done - 1, v.bsize);
  }

  lemma HoldsMore(v: Volume, f: View, offset: nat, data: seq<Byte>, chunk: seq<Byte>, csize: nat)
    requires v.Valid() && (|data| > 0 ==> Holds(v, f, offset, data))
    requires 0 < csize <= |chunk| && Holds(v, f, offset + |data|, chunk)
    ensures Holds(v, f, offset, data + chunk[..csize])
  {
    var all := data + chunk[..csize];
    forall o | offset <= o < offset + |all| ensures ByteFrom(v, f, offset, all, o) {
      if o < offset + |data| {
        assert ByteFrom(v, f, offset, data, o);
      } else {
        assert ByteFrom(v, f, offset + |data|, chunk, o);
      }
    }
    assert ByteFrom(v, f, offset + |data|, chunk, offset + |all| - 1);
  }
}
