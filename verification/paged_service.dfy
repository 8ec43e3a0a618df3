/** The handlers of one memory object over the pager's storage: what default_read and default_write
    do for them is what the run of the object says.
 */
module PagedService {

  import opened Partitions
  import opened History
  import opened StorageModel
  import opened Storage
  import opened PagedObject
  import P = RequestProtocol

  ghost predicate OfRun(t: PagedObject.State, s: PagedObject.State, log: seq<Event>) {
    Reached(t) && P.Shape(t.p) && t.o == s.o && t.msgs == s.msgs && t.log == log
  }

  /** Both ways in which a write can end are steps of the run. */
  lemma Either(s: PagedObject.State, n: nat)
    requires Reached(s) && P.Shape(s.p) && ToStore(s, n) && Writing(s, n)
    ensures Enabled(s, Store(n)) && Enabled(s, StoreFails(n, []))
    ensures var p, k := s.msgs[n].page + Dealt(s, n), Dealt(s, n);
            OfRun(Do(s, Store(n)), s, s.log + [Wrote(s.o, p, s.msgs[n].pages[k])])
    ensures OfRun(Do(s, StoreFails(n, [])), s, s.log)
  {
    ReachedOn(s, Store(n));
    ReachedOn(s, StoreFails(n, []));
    assert s.log + [] == s.log;
  }

  class Service {
    const storage: PagerStorage
    const o: nat                     // the object
    const msgs: seq<Message>         // its messages
    ghost var run: PagedObject.State // how far they have been handled

    ghost predicate Valid()
      reads this, storage
    {
      && storage.Valid() && storage.healthy && o in storage.pagers
      && Reached(run) && P.Shape(run.p) && run.o == o && run.msgs == msgs && run.log == storage.log
      && forall n | 0 <= n < |msgs| && Stores(msgs[n]) :: WholeMessage(msgs[n], storage.pageSize)
    }

    /** An object before its first message. */
    constructor (storage: PagerStorage, o: nat, initial: bool, msgs: seq<Message>)
      requires storage.Valid() && storage.healthy && o in storage.pagers
      requires P.KernelOrder(initial, Kinds(msgs)) && AsksBetween(msgs)
      requires forall n | 0 <= n < |msgs| && Stores(msgs[n]) :: WholeMessage(msgs[n], storage.pageSize)
      ensures Valid() && this.storage == storage && this.o == o && this.msgs == msgs
      ensures run == Start(o, initial, msgs, storage.log)
    {
      this.storage := storage;
      this.o := o;
      this.msgs := msgs;
      run := Start(o, initial, msgs, storage.log);
      ReachedStart(o, initial, msgs, storage.log);
    }

    /** A message of whole pages. */
    static predicate WholeMessage(m: Message, size: nat)
      requires Stores(m)
    {
      forall k | 0 <= k < |m.pages| :: |m.pages[k]| == size
    }

    /** A step of the protocol leaves the storage alone. */
    method Proceed(ghost step: P.Step)
      requires Valid() && Enabled(run, Protocol(step))
      modifies this
      ensures Valid() && run == Do(old(run), Protocol(step))
    {
      ReachedOn(run, Protocol(step));
      run := Do(run, Protocol(step));
    }

    /** Page `k` of a data_write or data_initialize: written, left as it is, or counted as an error
        for lack of room. A panic, beyond the object's map, comes only from data_initialize. */
    method HandlePage(n: nat, k: nat) returns (rc: PagerResult)
      requires Valid() && ToStore(run, n) && k == Dealt(run, n)
      modifies this, storage
      ensures rc.PAGER_PANIC? ==> msgs[n].Initialize? && run == old(run)
      ensures !rc.PAGER_PANIC? ==> Valid()
      ensures rc.PAGER_SUCCESS? ==> run == Do(old(run), Store(n))
      ensures rc.PAGER_ERROR? ==> Enabled(old(run), StoreFails(n, [])) && run == Do(old(run), StoreFails(n, []))
      ensures !rc.PAGER_ABSENT?
      ensures var page, was := msgs[n].page + k, old(storage.log);
              if msgs[n].Initialize? && (o, page) in Replay(was) then storage.log == was && !rc.PAGER_ERROR?
              else rc.PAGER_SUCCESS? ==> storage.log == was + [Wrote(o, page, msgs[n].pages[k])]
    {
      var page := msgs[n].page + k;
      if msgs[n].Initialize? {
        if page >= storage.pagers[o].size { return PAGER_PANIC; }
        var has := storage.HasPage(o, page);
        if has {
          Skip(n);
          return PAGER_SUCCESS;
        }
      }
      rc := WritePage(n, k);
    }

    /** default_write, as the handlers see it while devices do not fail. */
    method PutPage(page: nat, data: Page) returns (rc: PagerResult)
      requires storage.Valid() && storage.healthy && o in storage.pagers && |data| == storage.pageSize
      modifies storage
      ensures storage.Valid() && o in storage.pagers && (rc.PAGER_SUCCESS? || rc.PAGER_ERROR?)
      ensures storage.log == old(storage.log) + if rc.PAGER_SUCCESS? then [Wrote(o, page, data)] else []
    {
      rc := storage.DefaultWrite(o, page, data);
    }

    /** A page is written, or an error is counted and nothing changes. */
    method WritePage(n: nat, k: nat) returns (rc: PagerResult)
      requires Valid() && ToStore(run, n) && k == Dealt(run, n) && Writing(run, n)
      modifies this, storage
      ensures Valid() && (rc.PAGER_SUCCESS? || rc.PAGER_ERROR?)
      ensures rc.PAGER_SUCCESS? ==> storage.log == old(storage.log) + [Wrote(o, msgs[n].page + k, msgs[n].pages[k])]
      ensures rc.PAGER_SUCCESS? ==> run == Do(old(run), Store(n))
      ensures rc.PAGER_ERROR? ==> Enabled(old(run), StoreFails(n, [])) && run == Do(old(run), StoreFails(n, []))
    {
      ghost var stored, failed := Do(run, Store(n)), Do(run, StoreFails(n, []));
      Either(run, n);
      assert WholeMessage(msgs[n], storage.pageSize);
      rc := PutPage(msgs[n].page + k, msgs[n].pages[k]);
      run := if rc.PAGER_SUCCESS? then stored else failed;
    }

    /** data_initialize leaves a page that is there. */
    method Skip(ghost n: nat)
      requires Valid() && ToStore(run, n) && !Writing(run, n)
      modifies this
      ensures Valid() && run == Do(old(run), Store(n))
    {
      ReachedOn(run, Store(n));
      run := Do(run, Store(n));
      assert run.log == storage.log;
    }

    /** data_request: refused when there had been errors as it began; otherwise the bytes that
        handling the earlier messages one at a time would leave. */
    method HandleRequest(n: nat, errors: bool) returns (rc: PagerResult, data: Page)
      requires Valid() && ToAnswer(run, n) && (errors <==> n !in run.clean)
      modifies this, storage
      ensures !rc.PAGER_PANIC? ==> Valid()
      ensures rc.PAGER_ERROR? <==> errors
      ensures rc.PAGER_PANIC? ==> run == old(run) && storage.log == old(storage.log)
      ensures var found := Serial(msgs, n, msgs[n].page, Base(old(run), msgs[n].page));
              && (rc.PAGER_SUCCESS? ==> found == Bytes(data) && run == Do(old(run), Fetch(n)))
              && (rc.PAGER_ABSENT? ==> found == Missing && run == Do(old(run), Fetch(n)))
    {
      data := [];
      if errors {
        ReachedOn(run, Refuse(n));
        run := Do(run, Refuse(n));
        return PAGER_ERROR, data;
      }
      ReachedInv(run);
      FetchRight(run, n);
      ReachedOn(run, Fetch(n));
      rc, data := storage.DefaultRead(o, msgs[n].page, msgs[n].release);
      if !rc.PAGER_PANIC? {
        run := Do(run, Fetch(n));
      }
    }

    /** A write of another object's page. */
    method WriteElsewhere(x: nat, page: nat, data: Page) returns (rc: PagerResult)
      requires Valid() && x != o && x in storage.pagers && |data| == storage.pageSize
      modifies this, storage
      ensures Valid() && (rc.PAGER_SUCCESS? ==> run == Do(old(run), Elsewhere(Wrote(x, page, data))))
    {
      rc := storage.DefaultWrite(x, page, data);
      if rc.PAGER_SUCCESS? {
        ReachedOn(run, Elsewhere(Wrote(x, page, data)));
        run := Do(run, Elsewhere(Wrote(x, page, data)));
      }
    }
  }
}
