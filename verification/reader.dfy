/** The boot file reader: block_map with its cache of indirect blocks, buf_read_file with its
    buffer for a data block, and read_file. */
module FileReader {

  import opened IndirectTree
  import opened Volumes

  datatype Code = Success | NotInFile

  class File {
    const v: Volume
    var ino: Inode
    var nindir: seq<int>      // blocks mapped by the indirect block at each level, as an int
    var blkno: seq<int>       // address of the indirect block cached at each level, or -1
    var blk: seq<seq<Byte>>   // its data
    var bufBlkno: int         // index of the data block in the buffer, or -1
    var buf: seq<Byte>

    /** A cached indirect block is what the disk has at its address. */
    predicate CacheTrue(blkno: seq<int>, blk: seq<seq<Byte>>) {
      && |blkno| == NIADDR && |blk| == NIADDR
      && forall l | 0 <= l < NIADDR :: blkno[l] != -1 ==> blkno[l] >= 0 && blk[l] == v.Read(blkno[l], v.bsize)
    }

    ghost predicate Mounted()
      reads this`nindir, this`blkno, this`blk
    {
      && v.Valid()
      && v.bsize <= MAXBSIZE
      && |nindir| == NIADDR && (forall l | 0 <= l < NIADDR :: nindir[l] == AsInt(Pow(v.PerBlock(), l + 1)))
      && CacheTrue(blkno, blk)
    }

    /** The buffer holds a block of this inode, not of an earlier one. */
    ghost predicate Valid()
      reads this
    {
      && Mounted() && v.Whole() && ino.Valid()
      && (bufBlkno != -1 ==> bufBlkno >= 0 && IsBlock(v, FileView(v, ino), bufBlkno, buf))
    }

    /** mount_fs, of a file system whose block size is within bounds: the number of blocks mapped
        at each level, multiplied up in an int. */
    constructor (v: Volume)
      requires v.Valid() && v.bsize <= MAXBSIZE
      ensures this.v == v && Mounted() && bufBlkno == -1
    {
      this.v := v;
      ino := Inode(0, [], []);
      bufBlkno, buf := -1, [];
      blkno, blk := seq(NIADDR, _ => -1), seq(NIADDR, _ => []);
      new;
      var mult := 1;
      nindir := [];
      SmallLevels(v.PerBlock());
      for level := 0 to NIADDR
        invariant mult == AsInt(Pow(v.PerBlock(), level)) && |nindir| == level
        invariant forall l | 0 <= l < level :: nindir[l] == AsInt(Pow(v.PerBlock(), l + 1))
        invariant CacheTrue(blkno, blk) && bufBlkno == -1 && this.v == v
      {
        mult := AsInt(mult * v.PerBlock());
        nindir := nindir + [mult];
      }
    }

    /** read_inode: a new inode, and none of the old one's buffers. */
    method ReadInode(ino: Inode)
      requires Mounted() && v.Whole() && ino.Valid()
      modifies this
      ensures Valid() && this.ino == ino && nindir == old(nindir)
    {
      this.ino := ino;
      blkno, blk := seq(NIADDR, _ => -1), seq(NIADDR, _ => []);
      bufBlkno, buf := -1, [];
    }

    /** What other threads may do to the caches while block_map has dropped the lock. */
    method OtherReaders()
      requires Mounted()
      modifies this`blkno, this`blk
      ensures Mounted()
    {
      var b, d :| CacheTrue(b, d);
      blkno, blk := b, d;
    }

    /** The data of an indirect block: from the cache, or read and put there. */
    method IndirectBlock(level: nat, b: nat) returns (data: seq<Byte>)
      requires Mounted() && level < NIADDR
      modifies this`blkno, this`blk
      ensures Mounted() && data == v.Read(b, v.bsize) && blkno[level] == b && blk[level] == data
    {
      if blkno[level] == b {
        data := blk[level];
      } else {
        OtherReaders();
        data := v.Read(b, v.bsize);
        blkno, blk := blkno[level := b], blk[level := data];
      }
    }

    /** The level whose tree maps a block beyond the direct ones, and the block's place in it. */
    method FindLevel(n: nat) returns (level: nat, m: int)
      requires Mounted() && ino.Valid() && n >= NDADDR
      ensures level <= NIADDR && (level == NIADDR <==> n >= Reach(v.PerBlock()))
      ensures level < NIADDR ==> 0 <= m < Pow(v.PerBlock(), level + 1) && n == Skipped(v.PerBlock(), level) + m
    {
      level, m := 0, n - NDADDR;
      SmallLevels(v.PerBlock());
      while level < NIADDR && m >= nindir[level]
        invariant level <= NIADDR
        invariant level < NIADDR ==> m >= 0 && n == Skipped(v.PerBlock(), level) + m
        invariant level == NIADDR ==> n >= Reach(v.PerBlock())
      {
        m := m - nindir[level];
        level := level + 1;
      }
    }

    /** The number of blocks under one address of an indirect block. */
    method ChildSize(levels: nat) returns (k: nat)
      requires Mounted() && 0 < levels <= NIADDR
      ensures k == Pow(v.PerBlock(), levels - 1)
    {
      SmallLevels(v.PerBlock());
      k := if levels > 1 then nindir[levels - 2] else 1;
    }

    /** One level down an indirect tree. */
    method StepDown(b: nat, levels: nat, n: nat) returns (b': nat, n': nat)
      requires Mounted() && 0 < levels <= NIADDR && b != 0 && n < Pow(v.PerBlock(), levels)
      modifies this`blkno, this`blk
      ensures Mounted() && n' < Pow(v.PerBlock(), levels - 1)
      ensures Walk(v.Pointers(), b', levels - 1, n') == Walk(v.Pointers(), b, levels, n)
    {
      var data := IndirectBlock(levels - 1, b);
      var k := ChildSize(levels);
      WalkStep(v.Pointers(), b, levels, n, k);
      b' := Word(data, n / k);
      n' := n % k;
    }

    /** The way down an indirect tree, level by level, through the caches. */
    method Descend(top: nat, tree: nat, n: nat) returns (b: nat)
      requires Mounted() && tree <= NIADDR && n < Pow(v.PerBlock(), tree)
      modifies this`blkno, this`blk
      ensures Mounted() && b == Walk(v.Pointers(), top, tree, n)
    {
      var m: nat, levels: nat := n, tree;
      b := top;
      while levels > 0 && b != 0
        invariant levels <= NIADDR && Mounted()
        invariant m < Pow(v.PerBlock(), levels) && Walk(v.Pointers(), b, levels, m) == Walk(v.Pointers(), top, tree, n)
        decreases levels
      {
        b, m := StepDown(b, levels, m);
        levels := levels - 1;
      }
    }

    /** block_map: the disk address of block `n` of the file, 0 in a hole. */
    method BlockMap(n: nat) returns (rc: Code, b: nat)
      requires Mounted() && ino.Valid()
      modifies this`blkno, this`blk
      ensures Mounted()
      ensures rc.Success? <==> n < |FileView(v, ino).blocks|
      ensures rc.Success? ==> b == FileView(v, ino).blocks[n]
    {
      ReachExact(v, ino);
      if n < NDADDR { return Success, ino.direct[n]; }
      var level, m := FindLevel(n);
      if level == NIADDR { return NotInFile, 0; }
      InTree(v, ino, level, m);
      b := Descend(ino.indirect[level], level + 1, m);
      rc := Success;
    }

    /** Brings block `n` of the file into the buffer, unless it is there. */
    method FillBuffer(n: nat) returns (rc: Code)
      requires Valid()
      modifies this`blkno, this`blk, this`buf, this`bufBlkno
      ensures Valid()
      ensures rc.Success? <==> n < |FileView(v, ino).blocks|
      ensures rc.Success? ==> IsBlock(v, FileView(v, ino), n, buf) && bufBlkno == n
    {
      if n == bufBlkno { return Success; }
      var b;
      rc, b := BlockMap(n);
      if rc.Success? {
        var size := BlockSize(v, FileView(v, ino), n);
        buf := if b == 0 then Repeat(0, size) else v.Read(b, size);
        bufBlkno := n;
      }
    }

    /** buf_read_file: the bytes from `offset` to the end of its block or of the file, never none. */
    method BufReadFile(offset: nat) returns (rc: Code, data: seq<Byte>)
      requires Valid()
      modifies this`blkno, this`blk, this`buf, this`bufBlkno
      ensures Valid()
      ensures rc.Success? <==> InFile(v, FileView(v, ino), offset, 1)
      ensures rc.Success? ==> |data| > 0 && Holds(v, FileView(v, ino), offset, data)
      ensures rc.Success? ==>
                var left := v.bsize - BlockOff(offset, v.bsize);
                |data| == if left < ino.size - offset then left else ino.size - offset
    {
      if offset >= ino.size { return NotInFile, []; }
      var off := BlockOff(offset, v.bsize);
      var n := BlockNo(offset, v.bsize);
      rc := FillBuffer(n);
      if rc.NotInFile? { return NotInFile, []; }
      BlockReaches(v, FileView(v, ino), offset);
      var size := BlockSize(v, FileView(v, ino), n) - off;
      if size > ino.size - offset {
        size := ino.size - offset;
      }
      data := buf[off..off + size];
      BlockHolds(v, FileView(v, ino), offset, buf, size, data);
    }

    /** read_file: exactly the bytes asked for, or an error where the range leaves the file. */
    method ReadFile(offset: nat, size: nat) returns (rc: Code, data: seq<Byte>, resid: nat)
      requires Valid()
      modifies this`blkno, this`blk, this`buf, this`bufBlkno
      ensures Valid()
      ensures rc.Success? <==> size == 0 || InFile(v, FileView(v, ino), offset, size)
      ensures rc.Success? ==> resid == 0 && |data| == size && (size > 0 ==> Holds(v, FileView(v, ino), offset, data))
    {
      data, resid := [], size;
      while resid != 0
        invariant Valid() && |data| + resid == size
        invariant |data| > 0 ==> Holds(v, FileView(v, ino), offset, data)
        decreases resid
      {
        var chunk;
        rc, chunk := BufReadFile(offset + |data|);
        if rc.NotInFile? {
          NotBeyond(v, FileView(v, ino), offset, |data|, size);
          return;
        }
        var csize := if resid > |chunk| then |chunk| else resid;
        HoldsMore(v, FileView(v, ino), offset, data, chunk, csize);
        data := data + chunk[..csize];
        resid := resid - csize;
      }
      rc := Success;
    }
  }
}
