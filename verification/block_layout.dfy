/** What the blocks of a file are on a disk whose indirect blocks are written as the file system
    writes them: addresses of four bytes each, the lowest byte first.
 */
module BlockLayout {

  import opened IndirectTree
  import opened Volumes

  const ADDRESSES: nat := 0x1_0000_0000

  /** Digit `k` of an address to base 256. */
  function Digit(a: nat, k: nat): (r: nat)
    ensures r < 256
  {
    if k == 0 then a % 256 else Digit(a / 256, k - 1)
  }

  function AsByte(x: nat): (b: Byte)
    requires x < 256
    ensures b as nat == x
  {
    if x == 0 then 0 else AsByte(x - 1) + 1
  }

  /** The bytes of a sequence of addresses. */
  function Written(addresses: seq<nat>): (r: seq<Byte>)
    ensures |r| == 4 * |addresses|
  {
    seq(4 * |addresses|, i requires 0 <= i < 4 * |addresses| => AsByte(Digit(addresses[i / 4], i % 4)))
  }

  lemma WrittenAt(addresses: seq<nat>, idx: nat, k: nat)
    requires idx < |addresses| && k < 4
    ensures Written(addresses)[4 * idx + k] as nat == Digit(addresses[idx], k)
  {
    assert (4 * idx + k) / 4 == idx && (4 * idx + k) % 4 == k;
  }

  lemma FourDigits(a: nat)
    requires a < ADDRESSES
    ensures a == Digit(a, 0) + 0x100 * Digit(a, 1) + 0x1_0000 * Digit(a, 2) + 0x100_0000 * Digit(a, 3)
  {
    var b := a / 256;
    var c := b / 256;
    var d := c / 256;
    assert Digit(a, 1) == Digit(b, 0) && Digit(a, 2) == Digit(b, 1) == Digit(c, 0);
    assert Digit(a, 3) == Digit(b, 2) == Digit(c, 1) == Digit(d, 0) == d;
  }

  /** The word at an index of an indirect block is the address written there. */
  lemma WordWritten(addresses: seq<nat>, idx: nat)
    requires idx < |addresses| && addresses[idx] < ADDRESSES
    ensures Word(Written(addresses), idx) == addresses[idx]
  {
    WrittenAt(addresses, idx, 0);
    WrittenAt(addresses, idx, 1);
    WrittenAt(addresses, idx, 2);
    WrittenAt(addresses, idx, 3);
    FourDigits(addresses[idx]);
  }

  // The blocks of a file

  /** The disk holds these addresses, a whole block of them, at address `b`. */
  predicate HasAddresses(v: Volume, b: nat, addresses: seq<nat>)
    requires v.Valid()
  {
    && b != 0 && |addresses| == v.PerBlock() && v.Read(b, v.bsize) == Written(addresses)
    && forall i | 0 <= i < |addresses| :: addresses[i] < ADDRESSES
  }

  lemma PointerIs(v: Volume, b: nat, addresses: seq<nat>, i: nat)
    requires v.Valid() && HasAddresses(v, b, addresses) && i < v.PerBlock()
    ensures v.Pointers().ptr(b, i) == addresses[i]
  {
    WordWritten(addresses, i);
  }

  /** Each indirect block of a chain holds the address of the next at its index, and the last holds
      the address of a block of the file. */
  predicate Chained(v: Volume, b: nat, blocks: seq<seq<nat>>, idxs: seq<nat>)
    requires v.Valid()
    decreases |idxs|
  {
    && |blocks| == |idxs|
    && (idxs != [] ==>
          && HasAddresses(v, b, blocks[0]) && idxs[0] < |blocks[0]|
          && Chained(v, blocks[0][idxs[0]], blocks[1..], idxs[1..]))
  }

  function Named(v: Volume, b: nat, blocks: seq<seq<nat>>, idxs: seq<nat>): nat
    requires v.Valid() && Chained(v, b, blocks, idxs)
    decreases |idxs|
  {
    if idxs == [] then b else Named(v, blocks[0][idxs[0]], blocks[1..], idxs[1..])
  }

  /** The indices as the digits of a number to base `w`. */
  function Place(w: nat, idxs: seq<nat>): nat {
    if idxs == [] then 0 else idxs[0] * Pow(w, |idxs| - 1) + Place(w, idxs[1..])
  }

  lemma ProductGrows(a: nat, b: nat, m: nat)
    requires a <= b
    ensures a * m <= b * m
  {
  }

  lemma OneQuotient(q: nat, r: nat, i: nat, j: nat, m: nat)
    requires q * m + r == i * m + j && r < m && j < m
    ensures q == i && r == j
  {
    if q < i {
      ProductGrows(q + 1, i, m);
    } else if i < q {
      ProductGrows(i + 1, q, m);
    }
  }

  lemma Quotient(i: nat, w: nat, j: nat, m: nat)
    requires i < w && j < m
    ensures i * m + j < w * m && (i * m + j) / m == i && (i * m + j) % m == j
  {
    ProductGrows(i + 1, w, m);
    Split(i * m + j, w, m);
    OneQuotient((i * m + j) / m, (i * m + j) % m, i, j, m);
  }

  /** The walk down a tree arrives where the chain does. */
  lemma {:induction false} WalkNamed(v: Volume, b: nat, blocks: seq<seq<nat>>, idxs: seq<nat>)
    requires v.Valid() && Chained(v, b, blocks, idxs)
    ensures Place(v.PerBlock(), idxs) < Pow(v.PerBlock(), |idxs|)
    ensures Walk(v.Pointers(), b, |idxs|, Place(v.PerBlock(), idxs)) == Named(v, b, blocks, idxs)
    decreases |idxs|
  {
    if idxs != [] {
      var w, i := v.PerBlock(), idxs[0];
      var m, j := Pow(w, |idxs| - 1), Place(w, idxs[1..]);
      WalkNamed(v, blocks[0][i], blocks[1..], idxs[1..]);
      WalkChild(v, b, blocks[0], |idxs|, m, i, j);
    }
  }

  /** Child `i` of an indirect block, and place `j` under it. */
  lemma WalkChild(v: Volume, b: nat, addresses: seq<nat>, levels: nat, m: nat, i: nat, j: nat)
    requires v.Valid() && HasAddresses(v, b, addresses) && levels > 0 && m == Pow(v.PerBlock(), levels - 1)
    requires i < v.PerBlock() && j < m
    ensures i * m + j < Pow(v.PerBlock(), levels)
    ensures Walk(v.Pointers(), b, levels, i * m + j) == Walk(v.Pointers(), addresses[i], levels - 1, j)
  {
    Quotient(i, v.PerBlock(), j, m);
    WalkStep(v.Pointers(), b, levels, i * m + j, m);
    PointerIs(v, b, addresses, i);
  }

  /** A block in an indirect tree is where a chain of indirect blocks says, one more of them in each
      tree than in the one before. */
  lemma IndirectBlock(v: Volume, ino: Inode, blocks: seq<seq<nat>>, idxs: seq<nat>)
    requires v.Valid() && ino.Valid() && 0 < |idxs| <= NIADDR && Chained(v, ino.indirect[|idxs| - 1], blocks, idxs)
    ensures var n := Skipped(v.PerBlock(), |idxs| - 1) + Place(v.PerBlock(), idxs);
            n < |FileMap(v, ino)| && FileMap(v, ino)[n] == Named(v, ino.indirect[|idxs| - 1], blocks, idxs)
  {
    WalkNamed(v, ino.indirect[|idxs| - 1], blocks, idxs);
    InTree(v, ino, |idxs| - 1, Place(v.PerBlock(), idxs));
  }

  lemma {:induction false} PlaceBelow(w: nat, idxs: seq<nat>)
    requires forall i | 0 <= i < |idxs| :: idxs[i] < w
    ensures Place(w, idxs) < Pow(w, |idxs|)
  {
    if idxs != [] {
      PlaceBelow(w, idxs[1..]);
      Quotient(idxs[0], w, Place(w, idxs[1..]), Pow(w, |idxs| - 1));
    }
  }

  /** A chain that comes to no block leads to holes, whatever the indices behind it are. */
  lemma {:induction false} WalkHole(v: Volume, b: nat, blocks: seq<seq<nat>>, idxs: seq<nat>, more: seq<nat>)
    requires v.Valid() && Chained(v, b, blocks, idxs) && Named(v, b, blocks, idxs) == 0 && more != []
    requires forall i | 0 <= i < |more| :: more[i] < v.PerBlock()
    ensures Place(v.PerBlock(), idxs + more) < Pow(v.PerBlock(), |idxs + more|)
    ensures Walk(v.Pointers(), b, |idxs + more|, Place(v.PerBlock(), idxs + more)) == 0
    decreases |idxs|
  {
    var w, all := v.PerBlock(), idxs + more;
    if idxs == [] {
      assert all == more;
      PlaceBelow(w, more);
    } else {
      assert all[1..] == idxs[1..] + more;
      WalkHole(v, blocks[0][idxs[0]], blocks[1..], idxs[1..], more);
      WalkChild(v, b, blocks[0], |all|, Pow(w, |all| - 1), idxs[0], Place(w, all[1..]));
    }
  }

  /** Every block under a missing indirect block is a hole. */
  lemma IndirectHole(v: Volume, ino: Inode, blocks: seq<seq<nat>>, idxs: seq<nat>, more: seq<nat>)
    requires v.Valid() && ino.Valid() && more != [] && |idxs + more| <= NIADDR
    requires Chained(v, ino.indirect[|idxs + more| - 1], blocks, idxs)
    requires Named(v, ino.indirect[|idxs + more| - 1], blocks, idxs) == 0
    requires forall i | 0 <= i < |more| :: more[i] < v.PerBlock()
    ensures var n := Skipped(v.PerBlock(), |idxs + more| - 1) + Place(v.PerBlock(), idxs + more);
            n < |FileMap(v, ino)| && FileMap(v, ino)[n] == 0
  {
    WalkHole(v, ino.indirect[|idxs + more| - 1], blocks, idxs, more);
    InTree(v, ino, |idxs + more| - 1, Place(v.PerBlock(), idxs + more));
  }

  /** A direct block is where the inode says. */
  lemma DirectBlock(v: Volume, ino: Inode, i: nat)
    requires v.Valid() && ino.Valid() && i < NDADDR
    ensures i < |FileMap(v, ino)| && FileMap(v, ino)[i] == ino.direct[i]
  {
  }

  lemma PowFew(w: nat)
    ensures Pow(w, 1) == w && Pow(w, 2) == w * w
    ensures Skipped(w, 0) == NDADDR && Skipped(w, 1) == NDADDR + w && Skipped(w, 2) == NDADDR + w + w * w
  {
    assert Pow(w, 0) == 1;
    assert Pow(w, 1) == w * Pow(w, 0);
    assert Pow(w, 2) == w * Pow(w, 1);
    assert Skipped(w, 0) == NDADDR;
    assert Skipped(w, 1) == Skipped(w, 0) + Pow(w, 1);
    assert Skipped(w, 2) == Skipped(w, 1) + Pow(w, 2);
  }

  /** A block behind the direct ones is where the single indirect block says. */
  lemma SingleIndirect(v: Volume, ino: Inode, a: seq<nat>, i: nat)
    requires v.Valid() && ino.Valid() && HasAddresses(v, ino.indirect[0], a) && i < |a|
    ensures NDADDR + i < |FileMap(v, ino)| && FileMap(v, ino)[NDADDR + i] == a[i]
  {
    PowFew(v.PerBlock());
    PlaceOne(v.PerBlock(), i);
    assert Chained(v, a[i], [a][1..], [i][1..]);
    IndirectBlock(v, ino, [a], [i]);
    assert Named(v, ino.indirect[0], [a], [i]) == Named(v, a[i], [a][1..], [i][1..]);
  }

  lemma PlaceOne(w: nat, i: nat)
    ensures Place(w, [i]) == i
  {
    assert [i][1..] == [] && Pow(w, 0) == 1;
  }

  /** And one behind those is where the block says that the double indirect block names. */
  lemma DoubleIndirect(v: Volume, ino: Inode, a: seq<nat>, i: nat, b: seq<nat>, j: nat)
    requires v.Valid() && ino.Valid() && HasAddresses(v, ino.indirect[1], a) && i < |a|
    requires HasAddresses(v, a[i], b) && j < |b|
    ensures var w := v.PerBlock(); var n := NDADDR + w + (i * w + j);
            n < |FileMap(v, ino)| && FileMap(v, ino)[n] == b[j]
  {
    var w := v.PerBlock();
    PowFew(w);
    PlaceOne(w, j);
    assert [a, b][1..] == [b] && [i, j][1..] == [j];
    assert Chained(v, b[j], [b][1..], [j][1..]) && Chained(v, a[i], [b], [j]);
    assert Named(v, a[i], [b], [j]) == Named(v, b[j], [b][1..], [j][1..]);
    IndirectBlock(v, ino, [a, b], [i, j]);
  }

  // The bytes of a file

  lemma PlaceInBlock(o: nat, q: nat, r: nat, bsize: nat)
    requires r < bsize && o == q * bsize + r
    ensures BlockNo(o, bsize) == q && BlockOff(o, bsize) == r
  {
    BlockSplit(o, bsize);
    OneQuotient(BlockNo(o, bsize), BlockOff(o, bsize), q, r, bsize);
  }

  lemma ViewOfMap(v: Volume, ino: Inode, q: nat)
    requires v.Valid() && ino.Valid() && q < |FileView(v, ino).blocks|
    ensures q < |FileMap(v, ino)| && FileView(v, ino).blocks[q] == FileMap(v, ino)[q]
  {
    ReachExact(v, ino);
  }

  /** What is read as byte `r` of block `q` is byte `r` at the address of that block, and zero in a
      hole. */
  lemma ByteRead(v: Volume, ino: Inode, offset: nat, data: seq<Byte>, o: nat, q: nat, r: nat)
    requires v.Valid() && ino.Valid() && Holds(v, FileView(v, ino), offset, data)
    requires o == q * v.bsize + r && r < v.bsize && offset <= o < offset + |data|
    ensures q < |FileMap(v, ino)|
    ensures data[o - offset] == if FileMap(v, ino)[q] == 0 then 0 else v.at(FileMap(v, ino)[q], r)
  {
    PlaceInBlock(o, q, r, v.bsize);
    assert ByteFrom(v, FileView(v, ino), offset, data, o);
    ViewOfMap(v, ino, q);
  }

  // The sizes of blocks

  /** A size rounded up to fragments is a whole number of them. */
  lemma RoundUpWhole(x: nat, fsize: nat)
    requires fsize > 0
    ensures BlockOff(RoundUp(x, fsize), fsize) == 0
  {
    if BlockOff(x, fsize) != 0 {
      EndOfBlock(x, fsize - BlockOff(x, fsize), fsize);
    }
  }

  /** The block that a small file ends in has as many whole fragments as it needs and no more; every
      other block is a full one. */
  lemma FragmentsHeld(v: Volume, f: View, n: nat)
    requires v.Valid()
    ensures if n < NDADDR && n == BlockNo(f.size, v.bsize) then
              var bytes := f.size - Offset(v.bsize, n);
              bytes <= BlockSize(v, f, n) < bytes + v.fsize && BlockOff(BlockSize(v, f, n), v.fsize) == 0
            else n < BlockNo(f.size, v.bsize) || n >= NDADDR ==> BlockSize(v, f, n) == v.bsize
  {
    BlockSplit(f.size, v.bsize);
    if n < BlockNo(f.size, v.bsize) {
      OffsetGrows(v.bsize, n + 1, BlockNo(f.size, v.bsize));
    }
    if n == BlockNo(f.size, v.bsize) {
      RoundUpWhole(BlockOff(f.size, v.bsize), v.fsize);
    }
  }
}
