/** The default pager's storage: all partitions and all paging objects, and the
    operations that read, write, release and move pages.
 */
module Storage {
  import opened Partitions
  import opened PagerMap
  import opened Ownership
  import opened History
  import opened StorageModel

  datatype ReallocResult = Done | NotAll | Panicked

  datatype DestroyResult = KERN_SUCCESS | KERN_INVALID_ARGUMENT | KERN_FAILURE | PANIC | UNSPECIFIED

  class PagerStorage {
    const pageSize: nat
    const maxDoubled: nat                      // pages; larger objects are not doubled
    const healthy: bool                        // no device call fails
    var parts: seq<Part>                       // partition_list
    var pagers: map<nat, Pager>                // all live pagers, by port
    ghost var log: seq<Event>

    ghost function Now(): State
      reads this
    {
      State(parts, pagers)
    }

    ghost predicate Valid()
      reads this
    {
      pageSize >= 256 && Recorded(Now(), log, pageSize)
    }

    /** choose_partition: the index of the first candidate, cut off to 8 bits. */
    method ChoosePartition(size: nat, cur: nat) returns (i: nat)
      requires PartsValid(parts, pageSize)
      ensures Chosen(parts, pageSize, size, cur, i)
    {
      var slot := 0;
      while slot < |parts|
        invariant 0 <= slot <= |parts|
        invariant forall j | 0 <= j < slot :: !Candidate(parts, pageSize, j, size, cur)
      {
        if slot != cur && parts[slot].Part? && !parts[slot].goingAway && parts[slot].free * pageSize >= size {
          assert FirstCandidate(parts, pageSize, size, cur, slot);
          return Index(slot);
        }
        slot := slot + 1;
      }
      return P_INDEX_INVALID;
    }

    /** pager_alloc_page: the lowest free block of a partition, if it can give one. */
    method AllocPage(i: nat) returns (off: int)
      requires PartsValid(parts, pageSize) && i <= P_INDEX_INVALID && (i != P_INDEX_INVALID ==> i < |parts|)
      modifies this`parts
      ensures PartsValid(parts, pageSize)
      ensures off == NO_OFFSET <==> i == P_INDEX_INVALID || !Gives(old(parts), i)
      ensures off == NO_OFFSET ==> parts == old(parts)
      ensures off != NO_OFFSET ==>
                off >= 0 && Takes(old(parts), parts, Entry(off, i)) && LowestOf(old(parts), i, Entry(off, i))
    {
      if i == P_INDEX_INVALID { return NO_OFFSET; }
      if parts[i].Absent? || parts[i].goingAway { return NO_OFFSET; }
      if parts[i].free == 0 { return NO_OFFSET; }
      off := FirstClear(parts[i], pageSize);
      TakeValid(parts[i], off, pageSize);
      parts := parts[i := parts[i].Take(off)];
    }

    /** pager_dealloc_page. */
    method DeallocPage(e: Entry)
      requires PartsValid(parts, pageSize) && InUse(parts, e)
      modifies this`parts
      ensures PartsValid(parts, pageSize)
      ensures InRange(old(parts), e) && parts == GiveAt(old(parts), e)
    {
      GiveValid(parts[e.pIndex], e.pOffset, pageSize);
      parts := parts[e.pIndex := parts[e.pIndex].Give(e.pOffset)];
    }

    /** A block of the first other partition with room. There is none if no other partition that
        an index can name has room; even then the index chosen may name some partition. */
    method AllocElsewhere(cur: nat) returns (i: nat, off: int)
      requires PartsValid(parts, pageSize) && pageSize > 0
      modifies this`parts
      ensures PartsValid(parts, pageSize) && Chosen(old(parts), pageSize, pageSize, cur, i)
      ensures i <= P_INDEX_INVALID && (i != P_INDEX_INVALID ==> i < |parts|)
      ensures off == NO_OFFSET <==> i == P_INDEX_INVALID || !Gives(old(parts), i)
      ensures off == NO_OFFSET ==> parts == old(parts) && NoRoomBut(parts, pageSize, cur)
      ensures off != NO_OFFSET ==>
                && off >= 0 && i < P_INDEX_INVALID && Takes(old(parts), parts, Entry(off, i))
                && LowestOf(old(parts), i, Entry(off, i))
    {
      i := ChoosePartition(pageSize, cur);
      ChosenNamed(parts, pageSize, pageSize, cur, i);
      if i == P_INDEX_INVALID || !Gives(parts, i) {
        NotGiven(parts, pageSize, cur, i);
      }
      off := AllocPage(i);
    }

    /** pager_move_page: the page goes to the first other partition with a free block. On healthy
        devices it panics exactly when that partition's slot has an index that names another
        one, which gives no block. `n` bytes are carried. */
    method MovePage(e: Entry) returns (r: MoveResult, n: nat)
      requires PartsValid(parts, pageSize) && InUse(parts, e) && pageSize > 0
      modifies this`parts
      ensures PartsValid(parts, pageSize)
      ensures r.NoRoom? ==> parts == old(parts) && NoRoomBut(parts, pageSize, e.pIndex)
      ensures r.Moved? ==>
                && MoveStep(old(parts), parts, e, r.entry, n) && LowestOf(old(parts), r.entry.pIndex, r.entry)
                && Chosen(old(parts), pageSize, pageSize, e.pIndex, r.entry.pIndex)
      ensures healthy ==> (r.Panic? <==> Misnamed(old(parts), pageSize, e.pIndex))
    {
      n := 0;
      var i, off := AllocElsewhere(e.pIndex);
      ghost var was := old(parts);
      WhenMisnamed(was, pageSize, e.pIndex, i);
      if i == P_INDEX_INVALID { return NoRoom, n; }
      if off == NO_OFFSET { return Panic, n; }
      r, n := CarryPage(e, i, off, was);
    }

    /** The transfer of a page to a block that has been taken for it. */
    method CarryPage(e: Entry, i: nat, off: nat, ghost was: seq<Part>) returns (r: MoveResult, n: nat)
      requires PartsValid(was, pageSize) && InUse(was, e) && pageSize > 0
      requires PartsValid(parts, pageSize) && Takes(was, parts, Entry(off, i)) && !was[i].goingAway
      modifies this`parts
      ensures PartsValid(parts, pageSize) && !r.NoRoom?
      ensures r.Moved? ==> MoveStep(was, parts, e, r.entry, n) && r.entry == Entry(off, i)
      ensures healthy ==> !r.Panic?
    {
      n := 0;
      assert InUse(parts, e);
      var from := parts[e.pIndex];
      var rc, data := PRead(from, pageSize, healthy, e.pOffset, 0, pageSize);
      if rc != 0 { return Panic, n; }
      DeallocPage(e);
      var to;
      rc, n, to := PWrite(parts[i], pageSize, healthy, off, 0, data);
      WithPageValid(parts[i], off, to.pages[off], pageSize);
      parts := parts[i := to];
      if rc != 0 { return Panic, n; }
      r := MoveResult.Moved(Entry(off, i));
      assert data[..n] == from.pages[e.pOffset][..n];
    }

    /** Gives an object that has no current partition one: the first with room for the
        whole object, or the first with room for a page. */
    method Attach(pager: Pager, page: nat) returns (pager': Pager)
      requires PartsValid(parts, pageSize) && pager.Valid() && CursorOk(parts, pager)
      ensures pager'.Valid() && pager' == pager.(curPartition := pager'.curPartition)
      ensures pager'.Flat() == pager.Flat() && CursorFrom(parts, pager, pager')
      ensures pager'.curPartition != P_INDEX_INVALID ==> pager'.curPartition < |parts|
      ensures pager'.curPartition == P_INDEX_INVALID ==>
                pager' == pager && NoRoomBut(parts, pageSize, P_INDEX_INVALID)
      ensures Attached(parts, pageSize, pager, page, pager'.curPartition)
    {
      pager' := pager;
      if pager.curPartition == P_INDEX_INVALID {
        var size := Wanted(pageSize, pager.size, page);
        var c := ChoosePartition(size, P_INDEX_INVALID);
        ChosenNamed(parts, pageSize, size, P_INDEX_INVALID, c);
        if c == P_INDEX_INVALID {
          c := ChoosePartition(pageSize, P_INDEX_INVALID);
          ChosenNamed(parts, pageSize, pageSize, P_INDEX_INVALID, c);
        }
        pager' := pager.(curPartition := c);
      }
    }

    /** A block from partition `cur`, or else from the first other one with room: none exactly
        when no partition that an index can name has room. */
    method TakeBlock(cur: nat) returns (off: int, cur': nat)
      requires PartsValid(parts, pageSize) && pageSize > 0 && cur < P_INDEX_INVALID && cur < |parts|
      modifies this`parts
      ensures PartsValid(parts, pageSize) && cur' < P_INDEX_INVALID && cur' < |parts|
      ensures off == NO_OFFSET <==> NoRoomBut(old(parts), pageSize, P_INDEX_INVALID)
      ensures off == NO_OFFSET ==> parts == old(parts)
      ensures off != NO_OFFSET ==> off >= 0 && Takes(old(parts), parts, Entry(off, cur'))
      ensures Spills(old(parts), pageSize, cur, cur', if off == NO_OFFSET then NO_BLOCK else Entry(off, cur'))
    {
      off := AllocPage(cur);
      cur' := cur;
      if off == NO_OFFSET {
        var i;
        i, off := AllocElsewhere(cur);
        if i != P_INDEX_INVALID {
          cur' := i;
        }
        if off == NO_OFFSET {
          OnlyCandidate(parts, pageSize, cur);
        }
      }
      if off != NO_OFFSET {
        GivesRoom(old(parts), pageSize, cur');
      }
    }

    /** The block of a page the map reaches: found or newly taken. */
    method PlacePage(pager: Pager, page: nat) returns (e: Entry, pager': Pager)
      requires PartsValid(parts, pageSize) && pageSize > 0 && pager.Valid() && page < pager.size
      requires pager.curPartition < P_INDEX_INVALID && pager.curPartition < |parts|
      modifies this`parts
      ensures PartsValid(parts, pageSize) && pager'.Valid() && CursorFrom(old(parts), pager, pager')
      ensures pager'.curPartition != P_INDEX_INVALID
      ensures Looked(old(parts), parts, pager.Flat(), pager'.Flat(), page, e)
      ensures e == NO_BLOCK ==> NoRoomBut(parts, pageSize, P_INDEX_INVALID)
      ensures NoPage(pager, page) ==> (e == NO_BLOCK <==> NoRoomBut(old(parts), pageSize, P_INDEX_INVALID))
      ensures HomedFrom(old(parts), pageSize, pager, page, pager.curPartition, pager'.curPartition, e)
      ensures pager'.size == pager.size
    {
      assert pager.Flat() + Blanks(0) == pager.Flat();
      pager' := pager;
      e := ReadOffset(pager, page);
      if e == NO_BLOCK {
        var off, cur := TakeBlock(pager.curPartition);
        pager' := pager.(curPartition := cur);
        if off != NO_OFFSET {
          e := Entry(off, cur);
          pager' := StoreEntry(pager', page, e);
        }
      }
    }

    /** The block of a page, after the map has grown to reach it. */
    method ReachPage(pager: Pager, page: nat) returns (e: Entry, pager': Pager)
      requires PartsValid(parts, pageSize) && pageSize > 0 && pager.Valid()
      requires pager.curPartition < P_INDEX_INVALID && pager.curPartition < |parts|
      modifies this`parts
      ensures PartsValid(parts, pageSize) && pager'.Valid() && CursorFrom(old(parts), pager, pager')
      ensures pager'.curPartition != P_INDEX_INVALID
      ensures Looked(old(parts), parts, pager.Flat(), pager'.Flat(), page, e)
      ensures e == NO_BLOCK ==> NoRoomBut(parts, pageSize, P_INDEX_INVALID)
      ensures NoPage(pager, page) ==> (e == NO_BLOCK <==> NoRoomBut(old(parts), pageSize, P_INDEX_INVALID))
      ensures HomedFrom(old(parts), pageSize, pager, page, pager.curPartition, pager'.curPartition, e)
      ensures Reaches(pager.size, page, maxDoubled, pager'.size)
    {
      var larger := GrowTo(pager, page, maxDoubled);
      e, pager' := PlacePage(larger, page);
      LookedGrown(old(parts), parts, pager.Flat(), larger.Flat(), pager'.Flat(), page, e);
    }

    /** pager_write_offset: the block of a page, found or newly taken. The map grows to
        reach the page. It fails only when no partition has room, and then no block
        changes hands. */
    method WriteOffset(pager: Pager, page: nat) returns (e: Entry, pager': Pager)
      requires PartsValid(parts, pageSize) && pageSize > 0
      requires pager.Valid() && CursorOk(parts, pager)
      modifies this`parts
      ensures PartsValid(parts, pageSize) && pager'.Valid() && CursorFrom(old(parts), pager, pager')
      ensures pager'.curPartition == P_INDEX_INVALID ==> e == NO_BLOCK && parts == old(parts) && pager' == pager
      ensures pager'.curPartition != P_INDEX_INVALID ==>
                Looked(old(parts), parts, pager.Flat(), pager'.Flat(), page, e)
      ensures e == NO_BLOCK ==> NoRoomBut(parts, pageSize, P_INDEX_INVALID)
      ensures NoPage(pager, page) ==> (e == NO_BLOCK <==> NoRoomBut(old(parts), pageSize, P_INDEX_INVALID))
      ensures Homed(old(parts), pageSize, pager, page, pager'.curPartition, e) && EntryOf(pager', page) == e
      ensures Grows(pager, page, maxDoubled, pager')
    {
      var attached := Attach(pager, page);
      if attached.curPartition == P_INDEX_INVALID { return NO_BLOCK, pager; }
      e, pager' := ReachPage(attached, page);
    }

    /** The block of a page, taken if need be, and the transfer of `data` to it. */
    method WriteThrough(pager: Pager, page: nat, data: Page)
      returns (e: Entry, ok: bool, pager': Pager, ghost parts1: seq<Part>, ghost bytes: Page)
      requires PartsValid(parts, pageSize) && pageSize > 0 && |data| == pageSize
      requires pager.Valid() && CursorOk(parts, pager) && EntriesInUse(parts, pager.Flat())
      modifies this`parts
      ensures WriteStep(old(parts), pager, pageSize, page, data, e, ok, parts1, bytes, parts, pager')
      ensures healthy && e != NO_BLOCK ==> ok
      ensures NoPage(pager, page) ==> (e == NO_BLOCK <==> NoRoomBut(old(parts), pageSize, P_INDEX_INVALID))
      ensures Homed(old(parts), pageSize, pager, page, pager'.curPartition, e) && EntryOf(pager', page) == e
      ensures Grows(pager, page, maxDoubled, pager')
    {
      e, pager' := WriteOffset(pager, page);
      parts1, bytes, ok := parts, data, false;
      if e != NO_BLOCK {
        assert InRange(parts, e);
        var part;
        ok, part := WritePage(parts[e.pIndex], pageSize, healthy, e.pOffset, data);
        bytes := part.pages[e.pOffset];
        parts := parts[e.pIndex := part];
      }
    }

    /** default_write: a page that is not there is refused exactly when no partition that an index
        can name has room. */
    method DefaultWrite(o: nat, page: nat, data: Page) returns (rc: PagerResult)
      requires Valid() && o in pagers && |data| == pageSize
      modifies this
      ensures Valid() && pagers.Keys == old(pagers).Keys && SameParts(old(parts), parts)
      ensures WriteOutcome(Now(), old(log), log, pageSize, o, page, data, rc)
      ensures healthy && rc.PAGER_ERROR? ==> log == old(log)
      ensures (o, page) !in Replay(old(log)) ==>
                (rc.PAGER_ERROR? && log == old(log) <==> NoRoomBut(old(parts), pageSize, P_INDEX_INVALID))
      ensures old(pagers)[o].Valid() && pagers[o].Valid()
      ensures Homed(old(parts), pageSize, old(pagers)[o], page, pagers[o].curPartition, EntryOf(pagers[o], page))
      ensures Grows(old(pagers)[o], page, maxDoubled, pagers[o])
    {
      ghost var s := Now();
      Ready(s, log, pageSize, o);
      NoPageLogged(s, log, pageSize, o, page);
      ghost var parts1, bytes;
      var e, ok, pager;
      e, ok, pager, parts1, bytes := WriteThrough(pagers[o], page, data);
      pagers := pagers[o := pager];
      if e == NO_BLOCK {
        rc := PAGER_ERROR;
        WriteFailedRecorded(s, Now(), log, pageSize, o, page, data, e, ok, parts1, bytes);
      } else {
        rc := if ok then PAGER_SUCCESS else PAGER_ERROR;
        WriteDoneRecorded(s, Now(), log, pageSize, o, page, data, e, ok, parts1, bytes);
        log := log + [if ok then Wrote(o, page, data) else Garbled(o, page, bytes)];
      }
    }

    /** pager_release_offset: takes the entry out of the map and frees its block. */
    method ReleaseOffset(pager: Pager, page: nat) returns (pager': Pager)
      requires PartsValid(parts, pageSize) && pager.Valid() && page < pager.size
      requires InUse(parts, pager.Flat()[page])
      modifies this`parts
      ensures ReleaseStep(old(parts), pager, page, parts, pager')
    {
      var e := ReadOffset(pager, page);
      pager' := StoreEntry(pager, page, NO_BLOCK);
      DeallocPage(e);
    }

    /** The block of a page, its transfer, and its release if asked. */
    method ReadThrough(o: nat, page: nat, deallocate: bool) returns (rc: PagerResult, data: Page)
      requires PartsValid(parts, pageSize) && o in pagers && pagers[o].Valid() && page < pagers[o].size
      requires var e := pagers[o].Flat()[page]; e != NO_BLOCK ==> InUse(parts, e) && InRange(parts, e)
      modifies this`parts, this`pagers
      ensures ReadStep(old(Now()), Now(), o, page, deallocate, rc, data)
      ensures !rc.PAGER_PANIC? && (healthy ==> !rc.PAGER_ERROR?)
    {
      data := [];
      var e := ReadOffset(pagers[o], page);
      if e == NO_BLOCK { return PAGER_ABSENT, data; }
      var ok;
      ok, data := ReadPage(parts[e.pIndex], pageSize, healthy, e.pOffset);
      if !ok { return PAGER_ERROR, data; }
      if deallocate {
        var pager := ReleaseOffset(pagers[o], page);
        pagers := pagers[o := pager];
      }
      rc := PAGER_SUCCESS;
    }

    /** default_read of a page within the object's map. */
    method ReadMapped(o: nat, page: nat, deallocate: bool) returns (rc: PagerResult, data: Page)
      requires Valid() && o in pagers && page < pagers[o].size
      modifies this
      ensures Valid() && pagers.Keys == old(pagers).Keys && SameParts(old(parts), parts)
      ensures rc.PAGER_ABSENT? <==> (o, page) !in Replay(old(log))
      ensures rc.PAGER_SUCCESS? ==> data == Replay(old(log))[(o, page)]
      ensures !rc.PAGER_PANIC? && (healthy ==> !rc.PAGER_ERROR?)
      ensures log == old(log) + if rc.PAGER_SUCCESS? && deallocate then [Released(o, page)] else []
    {
      ghost var s := Now();
      Ready(s, log, pageSize, o);
      rc, data := ReadThrough(o, page, deallocate);
      log := log + if rc.PAGER_SUCCESS? && deallocate then [Released(o, page)] else [];
      ReadRecorded(s, Now(), old(log), log, pageSize, o, page, deallocate, rc, data);
    }

    /** default_read: the bytes the page holds, which are then released if asked; PAGER_ABSENT
        exactly when it holds none; an error only from a device; and a panic exactly when the
        page lies beyond the object's map. */
    method DefaultRead(o: nat, page: nat, deallocate: bool) returns (rc: PagerResult, data: Page)
      requires Valid() && o in pagers
      modifies this
      ensures Valid() && pagers.Keys == old(pagers).Keys && SameParts(old(parts), parts)
      ensures rc.PAGER_PANIC? <==> page >= old(pagers)[o].size
      ensures rc.PAGER_ABSENT? <==> page < old(pagers)[o].size && (o, page) !in Replay(old(log))
      ensures rc.PAGER_SUCCESS? ==> (o, page) in Replay(old(log)) && data == Replay(old(log))[(o, page)]
      ensures healthy ==> !rc.PAGER_ERROR?
      ensures log == old(log) + if rc.PAGER_SUCCESS? && deallocate then [Released(o, page)] else []
    {
      if page >= pagers[o].size { return PAGER_PANIC, []; }
      rc, data := ReadMapped(o, page, deallocate);
    }

    /** default_has_page, which panics beyond the object's map as a read does. */
    method HasPage(o: nat, page: nat) returns (has: bool)
      requires Valid() && o in pagers && page < pagers[o].size
      ensures has <==> (o, page) in Replay(log)
    {
      Ready(Now(), log, pageSize, o);
      NoPageLogged(Now(), log, pageSize, o, page);
      var e := ReadOffset(pagers[o], page);
      has := e != NO_BLOCK;
    }

    /** The partition a new object of `bytes` bytes is put on. */
    method ChooseHome(bytes: nat) returns (c: nat)
      requires PartsValid(parts, pageSize)
      ensures c <= P_INDEX_INVALID && (c != P_INDEX_INVALID ==> c < |parts|)
      ensures || (c != P_INDEX_INVALID && Chosen(parts, pageSize, bytes, P_INDEX_INVALID, c))
              || (Chosen(parts, pageSize, bytes, P_INDEX_INVALID, P_INDEX_INVALID)
                  && Chosen(parts, pageSize, 0, P_INDEX_INVALID, c))
    {
      c := ChoosePartition(bytes, P_INDEX_INVALID);
      ChosenNamed(parts, pageSize, bytes, P_INDEX_INVALID, c);
      if c == P_INDEX_INVALID {
        c := ChoosePartition(0, P_INDEX_INVALID);
        ChosenNamed(parts, pageSize, 0, P_INDEX_INVALID, c);
      }
    }

    /** pager_port_alloc: a new, empty object on the first partition big enough for it, or
        else the first there is. */
    method CreateObject(o: nat, bytes: nat)
      requires Valid() && o !in pagers
      modifies this`pagers
      ensures Valid() && o in pagers && pagers == old(pagers)[o := pagers[o]]
      ensures Covers(1, bytes / pageSize, maxDoubled, pagers[o].size)
      ensures var c := pagers[o].curPartition;
              || (c != P_INDEX_INVALID && Chosen(parts, pageSize, bytes, P_INDEX_INVALID, c))
              || (Chosen(parts, pageSize, bytes, P_INDEX_INVALID, P_INDEX_INVALID)
                  && Chosen(parts, pageSize, 0, P_INDEX_INVALID, c))
    {
      ghost var s := Now();
      RecordedSound(s, log, pageSize);
      var c := ChooseHome(bytes);
      var pager := NewPager(c, bytes / pageSize, maxDoubled);
      pagers := pagers[o := pager];
      CreateRecorded(s, Now(), log, pageSize, o);
    }

    /** pager_dealloc: frees the blocks of an object, one page after the other. */
    method FreeBlocks(pager: Pager, ghost was: seq<Part>, ghost m: Maps, ghost o: nat)
      requires PartsValid(parts, pageSize) && SameParts(was, parts)
      requires pager.Valid() && o in m && m[o] == pager.Flat() && PartsOk(was) && AllInUse(was, m)
      requires Clearing(was, m, o, 0, parts)
      modifies this`parts
      ensures PartsValid(parts, pageSize) && SameParts(was, parts)
      ensures Clearing(was, m, o, pager.size, parts)
    {
      for p := 0 to pager.size
        invariant PartsValid(parts, pageSize) && SameParts(was, parts)
        invariant Clearing(was, m, o, p, parts)
      {
        FreeBlock(pager, p, was, m, o);
      }
    }

    /** Frees the block of one page, if it has one. */
    method FreeBlock(pager: Pager, p: nat, ghost was: seq<Part>, ghost m: Maps, ghost o: nat)
      requires PartsValid(parts, pageSize) && SameParts(was, parts) && p < pager.size
      requires pager.Valid() && o in m && m[o] == pager.Flat() && PartsOk(was) && AllInUse(was, m)
      requires Clearing(was, m, o, p, parts)
      modifies this`parts
      ensures PartsValid(parts, pageSize) && SameParts(was, parts)
      ensures Clearing(was, m, o, p + 1, parts)
    {
      ClearingStep(was, m, o, p, parts);
      var e := ReadOffset(pager, p);
      if e != NO_BLOCK {
        DeallocPage(e);
      }
    }

    /** default_pager_no_senders: the object leaves the list, then pager_dealloc frees its blocks. */
    method DeleteObject(o: nat)
      requires Valid() && o in pagers
      modifies this
      ensures Valid() && pagers == old(pagers) - {o} && SameParts(old(parts), parts)
      ensures log == old(log) + [Deleted(o)]
    {
      ghost var s := Now();
      Ready(s, log, pageSize, o);
      DeleteStart(s, log, pageSize, o);
      var pager := pagers[o];
      pagers := pagers - {o};
      FreeBlocks(pager, s.parts, MapsOf(s.pagers), o);
      log := log + [Deleted(o)];
      DeleteRecorded(s, Now(), old(log), pageSize, o);
    }

    /** Moves one page of an object that lies in partition `k`, if it does. */
    method MoveOut(o: nat, p: nat, k: nat) returns (r: MoveResult)
      requires Valid() && o in pagers && pagers[o].Valid() && p < pagers[o].size && k < P_INDEX_INVALID
      modifies this
      ensures !r.Panic? ==> ObjectMoved(old(Now()), Now(), old(log), log, pageSize, o, k)
      ensures r.Moved? ==>
                && pagers[o].Flat() == old(pagers)[o].Flat()[p := pagers[o].Flat()[p]]
                && (Going(old(parts), k) ==> pagers[o].Flat()[p].pIndex != k)
      ensures r.NoRoom? ==> NoRoomBut(parts, pageSize, k)
      ensures healthy && AllNamed(old(parts)) ==> !r.Panic?
    {
      Ready(Now(), log, pageSize, o);
      var e := ReadOffset(pagers[o], p);
      if e.pIndex != k {
        ObjectMovedSelf(Now(), log, pageSize, o, k);
        return MoveResult.Moved(e);
      }
      r := MoveIn(o, p, k);
    }

    /** Moves one page of an object that lies in partition `k`. */
    method MoveIn(o: nat, p: nat, k: nat) returns (r: MoveResult)
      requires Valid() && o in pagers && pagers[o].Valid() && p < pagers[o].size
      requires k < P_INDEX_INVALID && pagers[o].Flat()[p].pIndex == k
      modifies this
      ensures !r.Panic? ==> ObjectMoved(old(Now()), Now(), old(log), log, pageSize, o, k)
      ensures r.Moved? ==>
                && pagers[o].Flat() == old(pagers)[o].Flat()[p := r.entry]
                && (Going(old(parts), k) ==> r.entry.pIndex != k)
      ensures r.NoRoom? ==> NoRoomBut(parts, pageSize, k)
      ensures healthy && AllNamed(old(parts)) ==> !r.Panic?
    {
      ghost var s := Now();
      Ready(s, log, pageSize, o);
      if AllNamed(parts) { NamedRight(parts, pageSize, k); }
      var n;
      r, n := MoveEntry(o, p);
      if r.Moved? {
        MoveInRecorded(s, Now(), log, pageSize, o, p, r.entry, n, k);
        log := log + MoveEvents(s, o, p, r.entry, n);
      } else {
        ObjectMovedSelf(s, log, pageSize, o, k);
      }
    }

    /** Moves one page of an object to another block and updates its map entry. */
    method MoveEntry(o: nat, p: nat) returns (r: MoveResult, n: nat)
      requires PartsValid(parts, pageSize) && pageSize > 0 && o in pagers && pagers[o].Valid() && p < pagers[o].size
      requires pagers[o].Flat()[p] != NO_BLOCK && InUse(parts, pagers[o].Flat()[p])
      modifies this`parts, this`pagers
      ensures r.NoRoom? ==> Now() == old(Now()) && NoRoomBut(parts, pageSize, pagers[o].Flat()[p].pIndex)
      ensures r.Moved? ==>
                MovedState(old(Now()), Now(), pageSize, o, p, r.entry, n) && !Going(old(parts), r.entry.pIndex)
      ensures healthy ==> (r.Panic? <==> Misnamed(old(parts), pageSize, old(pagers)[o].Flat()[p].pIndex))
    {
      var e := ReadOffset(pagers[o], p);
      r, n := MovePage(e);
      if r.Moved? {
        var pager := StoreEntry(pagers[o], p, r.entry);
        pagers := pagers[o := pager];
      }
    }

    /** Moves page `p`, after those before it. */
    method MoveNext(ghost s: State, ghost before: seq<Event>, o: nat, p: nat, i: nat) returns (r: ReallocResult)
      requires Valid() && Index(i) != P_INDEX_INVALID && ObjectMoved(s, Now(), before, log, pageSize, o, Index(i))
      requires OnlyGoing(s.parts, i) && p < pagers[o].size
      requires i < P_INDEX_INVALID ==> Vacated(pagers[o].Flat(), p, i)
      modifies this
      ensures !r.Panicked? ==> ObjectMoved(s, Now(), before, log, pageSize, o, Index(i))
      ensures r.Done? && i < P_INDEX_INVALID ==> Vacated(pagers[o].Flat(), p + 1, i)
      ensures r.NotAll? ==> NoRoomBut(parts, pageSize, Index(i))
      ensures healthy && AllNamed(s.parts) ==> !r.Panicked?
    {
      ghost var t, was := Now(), log;
      var m := MoveOut(o, p, Index(i));
      if m.Panic? { return Panicked; }
      ObjectMovedOn(s, t, Now(), before, was, log, pageSize, o, Index(i));
      StillGoing(s.parts, t.parts, i);
      r := if m.NoRoom? then NotAll else Done;
    }

    /** Moves every page of an object that lies in the partition whose index slot `i` has, until
        one finds no room. */
    method MoveAll(o: nat, i: nat) returns (r: ReallocResult)
      requires Valid() && o in pagers && OnlyGoing(parts, i) && Index(i) != P_INDEX_INVALID
      modifies this
      ensures !r.Panicked? ==> ObjectMoved(old(Now()), Now(), old(log), log, pageSize, o, Index(i))
      ensures r.Done? && i < P_INDEX_INVALID ==> Vacated(pagers[o].Flat(), pagers[o].size, i)
      ensures r.NotAll? ==> NoRoomBut(parts, pageSize, Index(i))
      ensures healthy && AllNamed(old(parts)) ==> !r.Panicked?
    {
      var k := Index(i);
      Ready(Now(), log, pageSize, o);
      ObjectMovedSelf(Now(), log, pageSize, o, k);
      var size, p := pagers[o].size, 0;
      r := Done;
      while p < size && r.Done?
        invariant p <= size
        invariant !r.Panicked? ==> ObjectMoved(old(Now()), Now(), old(log), log, pageSize, o, k)
        invariant r.Done? && i < P_INDEX_INVALID ==> Vacated(pagers[o].Flat(), p, i)
        invariant r.NotAll? ==> NoRoomBut(parts, pageSize, k)
        invariant r.Panicked? ==> !healthy || !AllNamed(old(parts))
        decreases size - p, r.Done?
      {
        r := MoveNext(old(Now()), old(log), o, p, i);
        p := p + 1;
      }
    }

    /** An object that has left partition `i` gets another current partition. That it has the
        index `i` again is possible only if no other partition can be named. */
    method ChangeCursor(o: nat, i: nat)
      requires Valid() && o in pagers && OnlyGoing(parts, i)
      requires pagers[o].Valid() && (i < P_INDEX_INVALID ==> Vacated(pagers[o].Flat(), pagers[o].size, i))
      modifies this`pagers
      ensures ObjectMoved(old(Now()), Now(), log, log, pageSize, o, Index(i))
      ensures Left(pagers, o, i) || i == P_INDEX_INVALID
      ensures Chosen(parts, pageSize, 0, P_INDEX_INVALID, pagers[o].curPartition)
      ensures pagers[o].curPartition == i ==> NoneFits(parts, pageSize, 0, P_INDEX_INVALID)
    {
      ghost var s := Now();
      Ready(s, log, pageSize, o);
      ObjectMovedSelf(s, log, pageSize, o, Index(i));
      var c := ChoosePartition(0, P_INDEX_INVALID);
      ChosenNamed(parts, pageSize, 0, P_INDEX_INVALID, c);
      pagers := pagers[o := pagers[o].(curPartition := c)];
      RecursorRecorded(s, Now(), log, pageSize, o, i, c);
      LeftOnlyCursor(s.pagers, s.pagers, log, log, Index(i), o, c);
      if i > P_INDEX_INVALID {
        UnnamedLeft(Now(), log, pageSize, o, i);
      }
    }

    /** pager_realloc: moves every page of an object out of a partition that is going away,
        then gives the object another current partition. It may stop halfway for lack of room.
        The partition is given by its index, so for a slot beyond the indices the pages moved
        are those of another partition. */
    method Realloc(o: nat, i: nat) returns (r: ReallocResult)
      requires Valid() && o in pagers && OnlyGoing(parts, i) && Index(i) != P_INDEX_INVALID
      modifies this
      ensures !r.Panicked? ==>
                && ObjectMoved(old(Now()), Now(), old(log), log, pageSize, o, Index(i))
                && KeptBut(old(pagers), old(log), log, Index(i))
      ensures r.Done? ==>
                && Gone(parts, pageSize, pagers, o, i)
                && Chosen(parts, pageSize, 0, P_INDEX_INVALID, pagers[o].curPartition)
      ensures r.NotAll? ==> NoRoomBut(parts, pageSize, Index(i))
      ensures healthy && AllNamed(old(parts)) ==> !r.Panicked?
    {
      r := MoveAll(o, i);
      if r.Panicked? { return; }
      LeftOnlyKeeps(old(Now()), pagers, old(log), log, pageSize, Index(i));
      if r.Done? {
        ghost var t := Now();
        ChangeCursor(o, i);
        ObjectMovedOn(old(Now()), t, Now(), old(log), log, log, pageSize, o, Index(i));
      }
    }

    /** Moves every object's pages out of a partition that is going away, one object after
        the other, until one finds no room. */
    method Evacuate(i: nat) returns (r: ReallocResult)
      requires Valid() && OnlyGoing(parts, i) && Index(i) != P_INDEX_INVALID
      modifies this
      ensures !r.Panicked? ==> Evacuated(old(Now()), Now(), old(log), log, pageSize, Index(i))
      ensures r.Done? ==> forall o | o in pagers :: Gone(parts, pageSize, pagers, o, i)
      ensures r.NotAll? ==> NoRoomBut(parts, pageSize, Index(i))
      ensures healthy && AllNamed(old(parts)) ==> !r.Panicked?
    {
      LeftOnlySelf(Now(), log, pageSize, Index(i));
      var todo := pagers.Keys;
      while todo != {}
        invariant Valid() && Evacuated(old(Now()), Now(), old(log), log, pageSize, Index(i))
        invariant todo <= pagers.Keys
        invariant forall o | o in pagers && o !in todo :: Gone(parts, pageSize, pagers, o, i)
        decreases todo
      {
        var o :| o in todo;
        ghost var t, before := Now(), log;
        StillOnlyGoing(old(parts), parts, i);
        r := Realloc(o, i);
        if r.Panicked? { return; }
        EvacuatedOn(old(Now()), t, Now(), old(log), before, log, pageSize, o, Index(i));
        if r.NotAll? { return; }
        AllGoneOn(t, Now(), before, log, pageSize, o, i, todo);
        todo := todo - {o};
      }
      r := Done;
    }

    /** The first live partition with a given id, if there is one. */
    method FindPartition(id: nat) returns (i: nat)
      ensures i <= |parts|
      ensures i < |parts| ==> parts[i].Part? && parts[i].id == id
      ensures forall j | 0 <= j < i :: parts[j].Part? ==> parts[j].id != id
    {
      i := 0;
      while i < |parts| && !(parts[i].Part? && parts[i].id == id)
        invariant 0 <= i <= |parts|
        invariant forall j | 0 <= j < i :: parts[j].Part? ==> parts[j].id != id
      {
        i := i + 1;
      }
    }

    /** Moves all pages out of a partition, marked as going away while this lasts. */
    method Vacate(i: nat) returns (r: ReallocResult)
      requires Valid() && NoneGoing(parts) && i < |parts| && parts[i].Part? && Index(i) != P_INDEX_INVALID
      modifies this
      ensures !r.Panicked? ==>
                && Valid() && OnlyGoing(parts, i)
                && Evacuated(old(Now()).(parts := WithGoing(old(parts), i, true)), Now(), old(log), log, pageSize,
                             Index(i))
                && (WholePages(old(parts), pageSize) ==> log == old(log))
      ensures r.Done? ==> forall o | o in pagers :: Gone(parts, pageSize, pagers, o, i)
      ensures r.NotAll? ==> NoRoomBut(parts, pageSize, Index(i))
      ensures healthy && AllNamed(old(parts)) ==> !r.Panicked?
    {
      RecordedSound(Now(), log, pageSize);
      FlagRecorded(Now(), log, pageSize, i, true);
      parts := WithGoing(parts, i, true);
      r := Evacuate(i);
    }

    /** The partition stays after all. */
    method PutBack(i: nat)
      requires Valid() && OnlyGoing(parts, i) && NoRoomBut(parts, pageSize, Index(i))
      modifies this`parts
      ensures Valid() && NoneGoing(parts) && parts == WithGoing(old(parts), i, false)
      ensures i < P_INDEX_INVALID ==> NoRoomBut(parts, pageSize, i)
    {
      FlagRecorded(Now(), log, pageSize, i, false);
      parts := WithGoing(parts, i, false);
      if i < P_INDEX_INVALID {
        assert Index(i) == i;
        assert forall j: nat ::
            Candidate(parts, pageSize, j, pageSize, i) ==> Candidate(old(parts), pageSize, j, pageSize, i);
      }
    }

    /** destroy_paging_partition: on success the partition is gone and no map entry names it; on
        failure, for lack of room, some pages have moved. Either way every page is still there,
        and keeps its bytes as long as one transfer covers a page; otherwise only pages that lay
        in the partition with the slot's index can differ. Slots whose index reads as "none" are
        not modelled further. */
    method DestroyPartition(id: nat) returns (kr: DestroyResult, i: nat)
      requires Valid() && NoneGoing(parts)
      modifies this
      ensures i <= |old(parts)| && (forall j | 0 <= j < i :: old(parts)[j].Part? ==> old(parts)[j].id != id)
      ensures i < |old(parts)| ==> old(parts)[i].Part? && old(parts)[i].id == id
      ensures kr == KERN_INVALID_ARGUMENT <==> i == |old(parts)|
      ensures kr == UNSPECIFIED <==> i < |old(parts)| && Index(i) == P_INDEX_INVALID
      ensures kr == KERN_INVALID_ARGUMENT ==> Now() == old(Now()) && log == old(log) && Valid()
      ensures kr == KERN_SUCCESS || kr == KERN_FAILURE ==>
                && Valid() && NoneGoing(parts) && pagers.Keys == old(pagers).Keys && |parts| == |old(parts)|
                && (WholePages(old(parts), pageSize) ==> log == old(log))
                && LeftOnly(old(pagers), pagers, old(log), log, Index(i))
                && KeptBut(old(pagers), old(log), log, Index(i))
      ensures kr == KERN_SUCCESS ==>
                && parts[i] == Absent && (forall o | o in pagers :: Left(pagers, o, i))
                && (forall o | o in pagers && pagers[o].curPartition == i :: NoneNamed(parts))
                && forall j | 0 <= j < |parts| && j != i :: SamePart(old(parts)[j], parts[j])
      ensures kr == KERN_FAILURE ==>
                SameParts(old(parts), parts) && (i < P_INDEX_INVALID ==> NoRoomBut(parts, pageSize, i))
      ensures healthy && AllNamed(old(parts)) ==> kr != PANIC
    {
      i := FindPartition(id);
      if i == |parts| { return KERN_INVALID_ARGUMENT, i; }
      if Index(i) == P_INDEX_INVALID { return UNSPECIFIED, i; }
      var r := Vacate(i);
      if r.Panicked? { return PANIC, i; }
      LeftOnlyKeeps(old(Now()), pagers, old(log), log, pageSize, Index(i));
      if r.Done? {
        Remove(i);
        kr := KERN_SUCCESS;
      } else {
        PutBack(i);
        kr := KERN_FAILURE;
      }
    }

    /** Takes a partition that every object has left off the list. */
    method Remove(i: nat)
      requires Valid() && OnlyGoing(parts, i)
      requires forall o | o in pagers :: Gone(parts, pageSize, pagers, o, i)
      modifies this`parts
      ensures Valid() && NoneGoing(parts) && parts == old(parts)[i := Absent]
      ensures forall o | o in pagers && pagers[o].curPartition == i :: NoneNamed(parts)
    {
      RemoveRecorded(Now(), log, pageSize, i);
      NoneLeftNamed(parts, pageSize, i);
      parts := parts[i := Absent];
    }

    /** create_paging_partition: the new partition takes the first empty slot; a full list is
        doubled first. Whatever the slot, no page is lost. */
    method CreatePartition(id: nat, bytes: nat, transfer: nat) returns (i: nat)
      requires Valid() && bytes < WORD_RANGE && transfer > 0
      modifies this`parts
      ensures Valid()
      ensures i < |parts| && i <= |old(parts)| && (forall j | 0 <= j < i :: old(parts)[j].Part?)
      ensures i < |old(parts)| ==> old(parts)[i].Absent?
      ensures parts[i].Part? && parts[i].id == id && parts[i].total == parts[i].free == bytes / pageSize
      ensures !parts[i].goingAway && parts[i].transfer == transfer
      ensures forall j | 0 <= j < |parts| && j != i :: parts[j] == if j < |old(parts)| then old(parts)[j] else Absent
      ensures |parts| == if i < |old(parts)| then |old(parts)| else if i == 0 then 2 else 2 * |old(parts)|
    {
      var part := NewPartition(pageSize, bytes, id, transfer);
      i := 0;
      while i < |parts| && parts[i].Part?
        invariant 0 <= i <= |parts|
        invariant forall j | 0 <= j < i :: parts[j].Part?
      {
        i := i + 1;
      }
      var list := parts;
      if i == |parts| {
        var n := if i > 0 then 2 * i else 2;
        list := parts + seq(n - i, _ => Absent);
      }
      list := list[i := part];
      AddRecorded(Now(), list, log, pageSize, i);
      parts := list;
    }

    constructor (pageSize: nat, maxDoubled: nat, healthy: bool)
      requires pageSize >= 256
      ensures Valid() && NoneGoing(parts) && parts == [] && pagers == map[] && log == []
      ensures this.pageSize == pageSize && this.maxDoubled == maxDoubled && this.healthy == healthy
    {
      this.pageSize := pageSize;
      this.healthy := healthy;
      this.maxDoubled := maxDoubled;
      parts := [];
      pagers := map[];
      log := [];
      EmptyRecorded(pageSize);
    }
  }
}
