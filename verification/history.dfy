/** What a run of the pager looks like from outside: the events that touch page contents,
    in order, and the contents they leave.
 */
module History {
  import opened Partitions
  import opened Ownership

  datatype Event =
    | Wrote(o: nat, p: nat, page: Page)      // a write of the page succeeded
    | Garbled(o: nat, p: nat, page: Page)    // a failed write, or a short move, left these bytes
    | Released(o: nat, p: nat)               // a read released the page
    | Deleted(o: nat)                        // the object went away

  /** The contents after one more event. */
  ghost function Apply(c: Contents, e: Event): Contents {
    match e
    case Wrote(o, p, page) => c[(o, p) := page]
    case Garbled(o, p, page) => c[(o, p) := page]
    case Released(o, p) => c - {(o, p)}
    case Deleted(o) => map k | k in c && k.0 != o :: c[k]
  }

  /** The contents a whole run leaves, starting from nothing. */
  ghost function Replay(log: seq<Event>): Contents {
    if log == [] then map[] else Apply(Replay(log[..|log| - 1]), log[|log| - 1])
  }

  predicate Touches(e: Event, o: nat, p: nat) {
    match e
    case Wrote(x, q, _) => x == o && q == p
    case Garbled(x, q, _) => x == o && q == p
    case Released(x, q) => x == o && q == p
    case Deleted(x) => x == o
  }

  /** `i` is the last event of the run that touches the page. */
  ghost predicate LastTouch(log: seq<Event>, i: int, o: nat, p: nat) {
    && 0 <= i < |log| && Touches(log[i], o, p)
    && forall j | i < j < |log| :: !Touches(log[j], o, p)
  }

  /** A page holds the bytes of the last write to it, and is absent exactly when it
      was never written or was released or deleted since. */
  lemma {:induction false} LastWriteWins(log: seq<Event>, o: nat, p: nat)
    ensures (o, p) in Replay(log) <==>
            exists i :: LastTouch(log, i, o, p) && (log[i].Wrote? || log[i].Garbled?)
    ensures forall i | LastTouch(log, i, o, p) && (log[i].Wrote? || log[i].Garbled?) ::
              (o, p) in Replay(log) && Replay(log)[(o, p)] == log[i].page
  {
    if log != [] {
      var n := |log| - 1;
      LastWriteWins(log[..n], o, p);
      if Touches(log[n], o, p) {
        assert LastTouch(log, n, o, p);
      } else {
        assert forall i | 0 <= i < n :: LastTouch(log, i, o, p) <==> LastTouch(log[..n], i, o, p);
      }
    }
  }

  lemma ReplayStep(log: seq<Event>, e: Event)
    ensures Replay(log + [e]) == Apply(Replay(log), e)
  {
    assert (log + [e])[..|log|] == log;
  }

  /** The run went on with nothing but moves, of some of these pages, that did not carry a whole
      page. */
  ghost predicate OnlyGarbled(log: seq<Event>, log': seq<Event>, pages: set<(nat, nat)>) {
    && |log| <= |log'| && log'[..|log|] == log
    && forall i | |log| <= i < |log'| :: log'[i].Garbled? && (log'[i].o, log'[i].p) in pages
  }

  lemma OnlyGarbledOn(a: seq<Event>, b: seq<Event>, c: seq<Event>, pages: set<(nat, nat)>, later: set<(nat, nat)>)
    requires OnlyGarbled(a, b, pages) && OnlyGarbled(b, c, later) && later <= pages
    ensures OnlyGarbled(a, c, pages)
  {
    assert c[..|a|] == c[..|b|][..|a|];
    assert forall i | |a| <= i < |b| :: c[i] == c[..|b|][i];
  }

  /** The run went on with events of object `o` only. */
  predicate OnlyOf(log: seq<Event>, log': seq<Event>, o: nat) {
    |log| <= |log'| && log'[..|log|] == log && forall i | |log| <= i < |log'| :: log'[i].o == o
  }

  lemma OnlyOfOn(a: seq<Event>, b: seq<Event>, c: seq<Event>, o: nat)
    requires OnlyOf(a, b, o) && OnlyOf(b, c, o)
    ensures OnlyOf(a, c, o)
  {
    assert c[..|a|] == c[..|b|][..|a|];
    assert forall i | |a| <= i < |b| :: c[i] == c[..|b|][i];
  }

  /** The same pages are there, and all but these hold the same bytes. */
  ghost predicate SameBut(c: Contents, c': Contents, pages: set<(nat, nat)>) {
    c'.Keys == c.Keys && forall k | k in c && k !in pages :: c'[k] == c[k]
  }

  /** Short moves of pages that are there change only those pages. */
  lemma {:induction false} GarbledKeeps(log: seq<Event>, log': seq<Event>, pages: set<(nat, nat)>)
    requires OnlyGarbled(log, log', pages) && pages <= Replay(log).Keys
    ensures SameBut(Replay(log), Replay(log'), pages)
    decreases |log'|
  {
    if |log'| == |log| {
      assert log' == log'[..|log|];
    } else {
      var n := |log'| - 1;
      assert log'[..n][..|log|] == log;
      GarbledKeeps(log, log'[..n], pages);
      assert log'[n].Garbled?;
    }
  }
}
