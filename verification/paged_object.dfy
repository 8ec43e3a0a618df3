/** One memory object as the kernel sees it: its messages are handled by threads that the request
    protocol orders only in part, and the handlers read and write pages that other objects share
    partitions with. Every data_request is answered as if the messages had been handled one at a
    time, in order.
 */
module PagedObject {

  import opened Partitions
  import opened Ownership
  import opened History
  import P = RequestProtocol

  datatype Message =
    | Request(page: nat, release: bool)              // data_request; with write access the pager gives up its copy
    | Write(page: nat, pages: seq<Page>)             // data_write
    | Initialize(page: nat, pages: seq<Page>)        // data_initialize: pages the pager does not have
    | Init
    | Terminate

  function KindOf(m: Message): P.Kind {
    match m
    case Request(_, _) => P.DataRequest
    case Write(_, _) => P.DataWrite
    case Initialize(_, _) => P.DataWrite
    case Init => P.Init
    case Terminate => P.Terminate
  }

  function Kinds(msgs: seq<Message>): (r: seq<P.Kind>)
    ensures |r| == |msgs| && forall n | 0 <= n < |msgs| :: r[n] == KindOf(msgs[n])
  {
    seq(|msgs|, n requires 0 <= n < |msgs| => KindOf(msgs[n]))
  }

  predicate Stores(m: Message) {
    m.Write? || m.Initialize?
  }

  /** The message is about page `p`. */
  predicate On(m: Message, p: nat) {
    if m.Request? then m.page == p else Stores(m) && m.page <= p < m.page + |m.pages|
  }

  // The messages one at a time

  datatype Found = Missing | Bytes(page: Page)

  ghost function Look(c: Contents, o: nat, p: nat): Found {
    if (o, p) in c then Bytes(c[(o, p)]) else Missing
  }

  /** What page `p` holds after a message, if it held `f` before. */
  function Handled(m: Message, p: nat, f: Found): Found {
    if !On(m, p) then f
    else match m
      case Request(_, release) => if release then Missing else f
      case Write(page, pages) => Bytes(pages[p - page])
      case Initialize(page, pages) => if f.Missing? then Bytes(pages[p - page]) else f
  }

  /** What page `p` holds after the first `n` messages. */
  function Serial(msgs: seq<Message>, n: nat, p: nat, base: Found): Found
    requires n <= |msgs|
  {
    if n == 0 then base else Handled(msgs[n - 1], p, Serial(msgs, n - 1, p, base))
  }

  lemma {:induction false} SerialSkip(msgs: seq<Message>, m: nat, n: nat, p: nat, base: Found)
    requires m <= n <= |msgs| && forall k | m <= k < n :: !On(msgs[k], p)
    ensures Serial(msgs, n, p, base) == Serial(msgs, m, p, base)
    decreases n - m
  {
    if m < n {
      SerialSkip(msgs, m, n - 1, p, base);
    }
  }

  // The messages as they are handled

  datatype Answer = Supplied(found: Found) | Refused

  datatype State = State(
    o: nat,
    msgs: seq<Message>,
    first: seq<Event>,             // what happened to all pages before the first message
    p: P.State,
    done: map<nat, nat>,           // how many of its pages each write has dealt with
    failed: set<nat>,              // the writes that failed for some page: the object's error count
    clean: set<nat>,               // the requests that found no errors when they began
    answers: map<nat, Answer>,
    log: seq<Event>)               // what happened to all pages

  /** Message `n` is that many pages on its way. */
  function Dealt(s: State, n: nat): nat {
    if n in s.done then s.done[n] else 0
  }

  predicate Working(s: State, n: nat) {
    n < |s.p.threads| && n < |s.msgs| && s.p.threads[n].Working?
  }

  datatype Step =
    | Protocol(step: P.Step)
    | Store(n: nat)                // a write writes its next page
    | StoreFails(n: nat, left: seq<Event>)
    | Fetch(n: nat)                // a request reads its page, and releases it if asked
    | Refuse(n: nat)
    | Elsewhere(event: Event)      // another object's page changes

  /** What the kernel promises: it sends nothing about a page that it is waiting for. */
  predicate MaySend(s: State, n: nat) {
    forall m | 0 <= m < n < |s.msgs| && s.msgs[m].Request? && On(s.msgs[n], s.msgs[m].page) :: m in s.answers
  }

  /** And it asks for a page before it writes that page again. */
  ghost predicate AsksBetween(msgs: seq<Message>) {
    forall m, n, p | 0 <= m < n < |msgs| && Stores(msgs[m]) && Stores(msgs[n]) && On(msgs[m], p) && On(msgs[n], p) ::
      Asked(msgs, m, n, p)
  }

  ghost predicate Asked(msgs: seq<Message>, m: nat, n: nat, p: nat)
    requires m < n < |msgs|
  {
    exists r | m < r < n :: msgs[r].Request? && msgs[r].page == p
  }

  /** A handler finishes when it has dealt with all pages of its message. */
  predicate HasActed(s: State, n: nat)
    requires n < |s.msgs|
  {
    if Stores(s.msgs[n]) then Dealt(s, n) == |s.msgs[n].pages| else n in s.answers
  }

  predicate ToStore(s: State, n: nat) {
    Working(s, n) && Stores(s.msgs[n]) && Dealt(s, n) < |s.msgs[n].pages|
  }

  predicate ToAnswer(s: State, n: nat) {
    Working(s, n) && s.msgs[n].Request? && n !in s.answers
  }

  ghost predicate Enabled(s: State, step: Step)
    requires P.Shape(s.p)
  {
    match step
    case Protocol(step) =>
      && P.Enabled(s.p, step)
      && (step.Arrive? ==> MaySend(s, |s.p.threads|))
      && (step.Run? && Working(s, step.n) ==> HasActed(s, step.n))
    case Store(n) => ToStore(s, n)
    case StoreFails(n, left) =>
      ToStore(s, n) && Writing(s, n) && Spoils(left, s.o, s.msgs[n].page + Dealt(s, n))
    case Fetch(n) => ToAnswer(s, n) && n in s.clean
    case Refuse(n) => ToAnswer(s, n) && n !in s.clean
    case Elsewhere(event) => event.o != s.o
  }

  /** A failed write leaves the page out, or leaves other bytes in it. */
  predicate Spoils(left: seq<Event>, o: nat, p: nat) {
    left == [] || (|left| == 1 && left[0].Garbled? && left[0].o == o && left[0].p == p)
  }

  /** The next page of a write is to be written, and not left as it is. */
  ghost predicate Writing(s: State, n: nat)
    requires ToStore(s, n)
  {
    s.msgs[n].Write? || (s.o, s.msgs[n].page + Dealt(s, n)) !in Replay(s.log)
  }

  /** A request that begins to read looks whether there have been errors. */
  predicate Begins(s: State, step: P.Step) {
    step.Run? && step.n < |s.p.threads| && step.n < |s.msgs| && s.msgs[step.n].Request?
    && s.p.threads[step.n].WaitWriters? && s.p.sh.writers == 0
  }

  ghost function Do(s: State, step: Step): State
    requires P.Shape(s.p) && Enabled(s, step)
  {
    match step
    case Protocol(step) =>
      s.(p := P.Do(s.p, step), clean := s.clean + if Begins(s, step) && s.failed == {} then {step.n} else {})
    case Store(n) => s.(done := s.done[n := Dealt(s, n) + 1], log := s.log + StoreEvents(s, n))
    case StoreFails(n, left) =>
      s.(done := s.done[n := Dealt(s, n) + 1], failed := s.failed + {n}, log := s.log + left)
    case Fetch(n) => s.(answers := s.answers[n := Supplied(Here(s, n))], log := s.log + FetchEvents(s, n))
    case Refuse(n) => s.(answers := s.answers[n := Refused])
    case Elsewhere(event) => s.(log := s.log + [event])
  }

  ghost function StoreEvents(s: State, n: nat): seq<Event>
    requires ToStore(s, n)
  {
    var k := Dealt(s, n);
    if Writing(s, n) then [Wrote(s.o, s.msgs[n].page + k, s.msgs[n].pages[k])] else []
  }

  /** What default_read finds for a request. */
  ghost function Here(s: State, n: nat): Found
    requires ToAnswer(s, n)
  {
    Look(Replay(s.log), s.o, s.msgs[n].page)
  }

  ghost function FetchEvents(s: State, n: nat): seq<Event>
    requires ToAnswer(s, n)
  {
    if s.msgs[n].release && Here(s, n).Bytes? then [Released(s.o, s.msgs[n].page)] else []
  }

  ghost function Start(o: nat, initial: bool, msgs: seq<Message>, first: seq<Event>): State {
    State(o, msgs, first, P.Start(initial, Kinds(msgs)), map[], {}, {}, map[], first)
  }

  // What every step keeps

  /** Message `n` has done to page `p` what it does. */
  predicate Applied(s: State, n: nat, p: nat)
    requires n < |s.msgs|
  {
    if Stores(s.msgs[n]) then s.msgs[n].page + Dealt(s, n) > p else n in s.answers
  }

  /** Where a message's thread is, when the message has begun to have an effect, or had all of it. */
  predicate LinkedAt(s: State, n: nat)
    requires n < |s.p.threads| && n < |s.msgs|
  {
    var m, pc := s.msgs[n], s.p.threads[n];
    && (Dealt(s, n) > 0 || n in s.failed ==> Stores(m) && P.After(pc))
    && (Stores(m) ==> Dealt(s, n) <= |m.pages| && (P.Finished(pc) ==> Dealt(s, n) == |m.pages|))
    && (n in s.answers ==> m.Request? && P.After(pc) && (s.answers[n].Refused? <==> n !in s.clean))
    && (n in s.clean ==> m.Request? && P.After(pc))
  }

  ghost predicate Linked(s: State) {
    && P.Inv(s.p) && s.p.reqs == Kinds(s.msgs) && AsksBetween(s.msgs)
    && (forall n | 0 <= n < |s.p.threads| :: LinkedAt(s, n))
    && (forall n | n in s.done || n in s.failed || n in s.answers || n in s.clean :: n < |s.p.threads|)
  }

  /** A thread about a page finds earlier requests for that page answered. */
  predicate InTurn(s: State) {
    |s.p.threads| <= |s.msgs| && forall n | 0 <= n < |s.p.threads| :: MaySend(s, n)
  }

  /** A request found no errors exactly when no write had failed by then. */
  predicate CleanOk(s: State) {
    && |s.p.threads| <= |s.msgs|
    && (forall m, n | n in s.clean && m in s.failed :: m > n)
    && (forall m, n | 0 <= m < n && m < |s.p.threads| && n in s.clean && s.msgs[m].Request? :: m in s.clean)
    && (s.failed == {} ==>
          forall n | 0 <= n < |s.p.threads| && s.msgs[n].Request? && P.After(s.p.threads[n]) :: n in s.clean)
  }

  /** The messages below `k` are those that have had their effect on page `p`. */
  predicate Frontier(s: State, p: nat, k: nat) {
    && k <= |s.msgs|
    && (forall m | 0 <= m < k && On(s.msgs[m], p) :: Applied(s, m, p))
    && (forall m | k <= m < |s.msgs| && On(s.msgs[m], p) :: !Applied(s, m, p))
  }

  /** No message below `k` about page `p` has failed or was refused. */
  predicate NoneBad(s: State, p: nat, k: nat)
    requires k <= |s.msgs|
  {
    forall m | 0 <= m < k && On(s.msgs[m], p) :: m !in s.failed && (m in s.answers ==> s.answers[m].Supplied?)
  }

  ghost function Base(s: State, p: nat): Found {
    Look(Replay(s.first), s.o, p)
  }

  ghost predicate HoldsAt(s: State, p: nat, k: nat) {
    Frontier(s, p, k) && NoneBad(s, p, k) ==> Look(Replay(s.log), s.o, p) == Serial(s.msgs, k, p, Base(s, p))
  }

  ghost predicate Holds(s: State) {
    forall p: nat, k: nat :: HoldsAt(s, p, k)
  }

  /** Every answer is the one that handling the messages in order gives. */
  ghost predicate AnsweredRight(s: State, n: nat) {
    n in s.answers && s.answers[n].Supplied? ==>
      && n < |s.msgs| && s.msgs[n].Request?
      && s.answers[n].found == Serial(s.msgs, n, s.msgs[n].page, Base(s, s.msgs[n].page))
  }

  ghost predicate Inv(s: State) {
    Linked(s) && InTurn(s) && CleanOk(s) && Holds(s) && forall n :: AnsweredRight(s, n)
  }

  // The order of effects on one page

  /** Once a request begins, the writes before it are done. */
  lemma WritesDone(s: State, m: nat, n: nat, p: nat)
    requires Linked(s) && m < n < |s.p.threads| && P.Started(s.p.reqs[n], s.p.threads[n])
    requires Stores(s.msgs[m]) && On(s.msgs[m], p)
    ensures Applied(s, m, p)
  {
    assert LinkedAt(s, m);
  }

  /** What an earlier message does to a page is done when a later one about it is under way. */
  lemma EarlierFirst(s: State, m: nat, n: nat, p: nat)
    requires Linked(s) && InTurn(s) && m < n < |s.p.threads| && P.After(s.p.threads[n])
    requires On(s.msgs[m], p) && On(s.msgs[n], p)
    ensures Applied(s, m, p)
  {
    if s.msgs[m].Request? {
      assert MaySend(s, n);
    } else if s.msgs[n].Request? {
      WritesDone(s, m, n, p);
    } else {
      assert Asked(s.msgs, m, n, p);
      var r :| m < r < n && s.msgs[r].Request? && s.msgs[r].page == p;
      assert MaySend(s, n);
      assert LinkedAt(s, r);
      WritesDone(s, m, r, p);
    }
  }

  /** A message that has had an effect on a page comes before one that has not. */
  lemma NothingLater(s: State, m: nat, n: nat, p: nat)
    requires Linked(s) && InTurn(s) && m < n < |s.msgs| && On(s.msgs[m], p) && On(s.msgs[n], p)
    requires !Applied(s, m, p)
    ensures !Applied(s, n, p)
  {
    if Applied(s, n, p) {
      assert n < |s.p.threads| && LinkedAt(s, n);
      EarlierFirst(s, m, n, p);
    }
  }

  /** A message about to have its effect on a page is the first that has not had it. */
  lemma AtFrontier(s: State, n: nat, p: nat)
    requires Linked(s) && InTurn(s) && n < |s.p.threads| && P.After(s.p.threads[n])
    requires On(s.msgs[n], p) && !Applied(s, n, p)
    ensures Frontier(s, p, n)
  {
    forall m | 0 <= m < n && On(s.msgs[m], p) ensures Applied(s, m, p) {
      EarlierFirst(s, m, n, p);
    }
    forall m | n <= m < |s.msgs| && On(s.msgs[m], p) ensures !Applied(s, m, p) {
      if m > n { NothingLater(s, n, m, p); }
    }
  }

  // The protocol's steps

  /** How a thread goes on in a step of the protocol. */
  predicate ThreadMove(kind: P.Kind, pc: P.Pc, now: P.Pc, writers: int, ran: bool) {
    && (P.After(pc) ==> P.After(now))
    && (kind.DataWrite? && P.Finished(now) && !P.Finished(pc) ==> ran && pc.Working?)
    && (kind.DataRequest? && P.After(now) && !P.After(pc) ==> ran && pc.WaitWriters? && writers == 0)
  }

  lemma HandleMove(kind: P.Kind, n: nat, pc: P.Pc, sh: P.Shared)
    requires P.Runnable(pc) && P.PcOk(kind, pc)
    ensures ThreadMove(kind, pc, P.Handle(kind, n, pc, sh).pc, sh.writers, true)
  {
  }

  lemma ThreadsMove(s: P.State, step: P.Step, n: nat)
    requires P.Ordered(s) && P.Enabled(s, step) && n < |s.threads|
    ensures n < |P.Do(s, step).threads|
    ensures ThreadMove(s.reqs[n], s.threads[n], P.Do(s, step).threads[n], s.sh.writers, step == P.Run(n))
  {
    assert P.Placed(s.reqs[n], n, s.threads[n], s.sh.seqno);
    if step == P.Run(n) {
      HandleMove(s.reqs[n], n, s.threads[n], s.sh);
    }
  }

  /** The protocol does not touch the messages, and makes at most one new thread. */
  lemma ThreadsGrow(s: P.State, step: P.Step)
    requires P.Ordered(s) && P.Enabled(s, step)
    ensures var t := P.Do(s, step);
            && t.reqs == s.reqs
            && if step.Arrive? then |t.threads| == |s.threads| + 1 && t.threads[|s.threads|].AtGate?
               else |t.threads| == |s.threads|
  {
  }

  lemma ProtocolLinked(s: State, step: P.Step)
    requires Linked(s) && Enabled(s, Protocol(step))
    ensures Linked(Do(s, Protocol(step)))
  {
    var t := Do(s, Protocol(step));
    P.InvStep(s.p, step);
    ThreadsGrow(s.p, step);
    forall n | 0 <= n < |t.p.threads| ensures LinkedAt(t, n) {
      ProtocolLinkedAt(s, step, n);
    }
  }

  lemma ProtocolLinkedAt(s: State, step: P.Step, n: nat)
    requires Linked(s) && Enabled(s, Protocol(step)) && n < |Do(s, Protocol(step)).p.threads|
    requires |Do(s, Protocol(step)).p.threads| <= |s.msgs|
    ensures LinkedAt(Do(s, Protocol(step)), n)
  {
    ThreadsGrow(s.p, step);
    if n < |s.p.threads| {
      assert LinkedAt(s, n);
      ThreadsMove(s.p, step, n);
      if Begins(s, step) && step.n == n {
        BeginsAfter(s, step);
      }
    }
  }

  lemma BeginsAfter(s: State, step: P.Step)
    requires Linked(s) && Begins(s, step)
    ensures P.After(P.Do(s.p, step).threads[step.n])
  {
    assert s.p.reqs[step.n].DataRequest?;
  }

  // The handlers' steps

  predicate Acts(step: Step) {
    step.Store? || step.StoreFails? || step.Fetch? || step.Refuse?
  }

  lemma LinkedStep(s: State, step: Step)
    requires Linked(s) && Enabled(s, step)
    ensures Linked(Do(s, step))
  {
    if step.Protocol? {
      ProtocolLinked(s, step.step);
    } else {
      var t := Do(s, step);
      forall n | 0 <= n < |t.p.threads| ensures LinkedAt(t, n) {
        assert LinkedAt(s, n);
      }
    }
  }

  lemma SentStep(s: State, step: Step)
    requires P.Ordered(s.p) && |s.p.reqs| == |s.msgs| && InTurn(s) && Enabled(s, step)
    ensures InTurn(Do(s, step))
  {
    var t := Do(s, step);
    if step.Protocol? {
      ThreadsGrow(s.p, step.step);
    }
    AnswersKept(s, step);
    forall n | 0 <= n < |t.p.threads| ensures MaySend(t, n) {
      assert MaySend(s, n);
    }
  }

  /** A write that has pages left comes after every request that has begun. */
  lemma FailsLater(s: State, n: nat, r: nat)
    requires Linked(s) && ToStore(s, n) && r in s.clean
    ensures n > r
  {
    assert LinkedAt(s, r) && LinkedAt(s, n);
    var pc := s.p.threads[n];
    assert n < r ==> P.Finished(pc);
  }

  lemma CleanBegins(s: State, step: P.Step)
    requires Linked(s) && CleanOk(s) && P.Enabled(s.p, step) && Begins(s, step) && s.failed == {}
    ensures forall m | 0 <= m < step.n && s.msgs[m].Request? :: m in s.clean
    ensures forall r | r in s.clean :: r < step.n
  {
    var n := step.n;
    assert P.Placed(s.p.reqs[n], n, s.p.threads[n], s.p.sh.seqno);
    forall m | 0 <= m < n && s.msgs[m].Request? ensures m in s.clean {
      assert P.Placed(s.p.reqs[m], m, s.p.threads[m], s.p.sh.seqno);
    }
    forall r | r in s.clean ensures r < n {
      assert LinkedAt(s, r) && P.Placed(s.p.reqs[r], r, s.p.threads[r], s.p.sh.seqno);
    }
  }

  lemma ProtocolClean(s: State, step: P.Step)
    requires Linked(s) && CleanOk(s) && Enabled(s, Protocol(step))
    ensures CleanOk(Do(s, Protocol(step)))
  {
    var t := Do(s, Protocol(step));
    ThreadsGrow(s.p, step);
    if Begins(s, step) && s.failed == {} {
      CleanBegins(s, step);
    }
    forall n | 0 <= n < |t.p.threads| && s.msgs[n].Request? && P.After(t.p.threads[n]) && t.failed == {}
      ensures n in t.clean
    {
      ThreadsMove(s.p, step, n);
    }
  }

  lemma CleanStep(s: State, step: Step)
    requires Linked(s) && CleanOk(s) && Enabled(s, step)
    ensures CleanOk(Do(s, step))
  {
    if step.Protocol? {
      ProtocolClean(s, step.step);
    } else if step.StoreFails? {
      forall r | r in s.clean ensures step.n > r {
        FailsLater(s, step.n, r);
      }
    }
  }

  // The contents of a page

  /** One more message has had its effect on page `p`. */
  predicate Advanced(s: State, t: State, n: nat, p: nat) {
    && t.msgs == s.msgs && n < |s.msgs| && On(s.msgs[n], p)
    && forall m | 0 <= m < |s.msgs| && On(s.msgs[m], p) :: Applied(t, m, p) <==> Applied(s, m, p) || m == n
  }

  lemma NextFrontier(s: State, t: State, n: nat, p: nat, k: nat)
    requires Frontier(s, p, n) && Advanced(s, t, n, p) && Frontier(t, p, k)
    ensures n < k && Serial(s.msgs, k, p, Base(s, p)) == Serial(s.msgs, n + 1, p, Base(s, p))
  {
    assert Applied(t, n, p);
    forall m | n + 1 <= m < k ensures !On(s.msgs[m], p) {
      var was, now := Applied(s, m, p), Applied(t, m, p);
      assert On(s.msgs[m], p) ==> !was && now;
    }
    SerialSkip(s.msgs, n + 1, k, p, Base(s, p));
  }

  /** The contents follow when the effect is the one that the message has in order. */
  lemma AdvanceHolds(s: State, t: State, n: nat, p: nat, k: nat)
    requires Frontier(s, p, n) && Advanced(s, t, n, p) && HoldsAt(s, p, n)
    requires t.o == s.o && t.first == s.first && s.failed <= t.failed
    requires forall m | m in s.answers :: m in t.answers && t.answers[m] == s.answers[m]
    requires NoneBad(t, p, n + 1) ==>
               Look(Replay(t.log), t.o, p) == Handled(s.msgs[n], p, Look(Replay(s.log), s.o, p))
    ensures HoldsAt(t, p, k)
  {
    if Frontier(t, p, k) && NoneBad(t, p, k) {
      NextFrontier(s, t, n, p, k);
      assert NoneBad(s, p, n) && NoneBad(t, p, n + 1);
    }
  }

  /** Nothing changes for a page that a step is not about. */
  lemma OtherHolds(s: State, t: State, p: nat, k: nat)
    requires HoldsAt(s, p, k) && t.msgs == s.msgs && t.o == s.o && t.first == s.first && s.failed <= t.failed
    requires forall m | m in s.answers :: m in t.answers && t.answers[m] == s.answers[m]
    requires forall m | 0 <= m < |s.msgs| && On(s.msgs[m], p) :: Applied(t, m, p) <==> Applied(s, m, p)
    requires Look(Replay(t.log), t.o, p) == Look(Replay(s.log), s.o, p)
    ensures HoldsAt(t, p, k)
  {
    if Frontier(t, p, k) && NoneBad(t, p, k) {
      assert Frontier(s, p, k) && NoneBad(s, p, k);
    }
  }

  /** The page that a handler's step is about. */
  function PageOf(s: State, step: Step): nat
    requires Acts(step) && step.n < |s.msgs| && (Stores(s.msgs[step.n]) || s.msgs[step.n].Request?)
  {
    s.msgs[step.n].page + if Stores(s.msgs[step.n]) then Dealt(s, step.n) else 0
  }

  lemma ActAdvances(s: State, step: Step)
    requires Linked(s) && InTurn(s) && Enabled(s, step) && Acts(step)
    ensures Frontier(s, PageOf(s, step), step.n) && Advanced(s, Do(s, step), step.n, PageOf(s, step))
  {
    assert LinkedAt(s, step.n);
    AtFrontier(s, step.n, PageOf(s, step));
    OneAdvanced(s, step);
  }

  lemma OneAdvanced(s: State, step: Step)
    requires P.Shape(s.p) && Enabled(s, step) && Acts(step)
    ensures Advanced(s, Do(s, step), step.n, PageOf(s, step))
  {
  }

  /** One event, or none, about page `p` of object `o`. */
  predicate OneAbout(events: seq<Event>, o: nat, p: nat) {
    events == [] || (|events| == 1 && !events[0].Deleted? && events[0].o == o && events[0].p == p)
  }

  lemma LookElsewhere(log: seq<Event>, events: seq<Event>, o: nat, p: nat, q: nat)
    requires OneAbout(events, o, p) && q != p
    ensures Look(Replay(log + events), o, q) == Look(Replay(log), o, q)
  {
    if events == [] {
      assert log + events == log;
    } else {
      assert log + events == log + [events[0]];
      ReplayStep(log, events[0]);
    }
  }

  lemma SameLook(s: State, step: Step, q: nat)
    requires P.Shape(s.p) && Enabled(s, step) && Acts(step) && q != PageOf(s, step)
    ensures var t := Do(s, step); Look(Replay(t.log), t.o, q) == Look(Replay(s.log), s.o, q)
  {
    var p := PageOf(s, step);
    match step
    case Store(n) => LookElsewhere(s.log, StoreEvents(s, n), s.o, p, q);
    case StoreFails(n, left) => LookElsewhere(s.log, left, s.o, p, q);
    case Fetch(n) => LookElsewhere(s.log, FetchEvents(s, n), s.o, p, q);
    case _ =>
  }

  lemma SameApplied(s: State, step: Step, m: nat, q: nat)
    requires P.Shape(s.p) && Enabled(s, step) && Acts(step) && q != PageOf(s, step)
    requires m < |s.msgs| && On(s.msgs[m], q)
    ensures Applied(Do(s, step), m, q) <==> Applied(s, m, q)
  {
  }

  lemma StoreEffect(s: State, n: nat)
    requires ToStore(s, n)
    ensures var p := s.msgs[n].page + Dealt(s, n);
            Look(Replay(s.log + StoreEvents(s, n)), s.o, p) == Handled(s.msgs[n], p, Look(Replay(s.log), s.o, p))
  {
    if Writing(s, n) {
      ReplayStep(s.log, StoreEvents(s, n)[0]);
      assert s.log + StoreEvents(s, n) == s.log + [StoreEvents(s, n)[0]];
    } else {
      assert s.log + StoreEvents(s, n) == s.log;
    }
  }

  lemma FetchEffect(s: State, n: nat)
    requires ToAnswer(s, n)
    ensures var p := s.msgs[n].page;
            Look(Replay(s.log + FetchEvents(s, n)), s.o, p) == Handled(s.msgs[n], p, Here(s, n))
  {
    if FetchEvents(s, n) != [] {
      ReplayStep(s.log, Released(s.o, s.msgs[n].page));
    } else {
      assert s.log + FetchEvents(s, n) == s.log;
    }
  }

  /** A handler's step has the effect that its message has in order. */
  lemma ActEffect(s: State, step: Step)
    requires P.Shape(s.p) && Enabled(s, step) && Acts(step)
    ensures var t, p, n := Do(s, step), PageOf(s, step), step.n;
            NoneBad(t, p, n + 1) ==>
              Look(Replay(t.log), t.o, p) == Handled(s.msgs[n], p, Look(Replay(s.log), s.o, p))
  {
    assert On(s.msgs[step.n], PageOf(s, step));
    match step
    case Store(n) => StoreEffect(s, n);
    case Fetch(n) => FetchEffect(s, n);
    case _ =>
  }

  lemma AnswersKept(s: State, step: Step)
    requires P.Shape(s.p) && Enabled(s, step)
    ensures var t := Do(s, step);
            && t.msgs == s.msgs && t.o == s.o && t.first == s.first && s.failed <= t.failed
            && forall m | m in s.answers :: m in t.answers && t.answers[m] == s.answers[m]
  {
  }

  lemma HoldsAct(s: State, step: Step, p: nat, k: nat)
    requires Linked(s) && InTurn(s) && Holds(s) && Enabled(s, step) && Acts(step)
    ensures HoldsAt(Do(s, step), p, k)
  {
    AnswersKept(s, step);
    if p == PageOf(s, step) {
      ActAdvances(s, step);
      ActEffect(s, step);
      assert HoldsAt(s, p, step.n);
      AdvanceHolds(s, Do(s, step), step.n, p, k);
    } else {
      SameLook(s, step, p);
      forall m | 0 <= m < |s.msgs| && On(s.msgs[m], p) ensures Applied(Do(s, step), m, p) <==> Applied(s, m, p) {
        SameApplied(s, step, m, p);
      }
      assert HoldsAt(s, p, k);
      OtherHolds(s, Do(s, step), p, k);
    }
  }

  lemma HoldsStep(s: State, step: Step)
    requires Linked(s) && InTurn(s) && Holds(s) && Enabled(s, step)
    ensures Holds(Do(s, step))
  {
    var t := Do(s, step);
    forall p: nat, k: nat ensures HoldsAt(t, p, k) {
      if Acts(step) {
        HoldsAct(s, step, p, k);
      } else {
        if step.Elsewhere? { ReplayStep(s.log, step.event); }
        assert HoldsAt(s, p, k);
        OtherHolds(s, t, p, k);
      }
    }
  }

  /** A request that found no errors finds everything before it in order. */
  lemma FetchRight(s: State, n: nat)
    requires Inv(s) && ToAnswer(s, n) && n in s.clean
    ensures Look(Replay(s.log), s.o, s.msgs[n].page) == Serial(s.msgs, n, s.msgs[n].page, Base(s, s.msgs[n].page))
  {
    var p := s.msgs[n].page;
    assert LinkedAt(s, n);
    AtFrontier(s, n, p);
    forall m | 0 <= m < n && On(s.msgs[m], p) ensures m !in s.failed && (m in s.answers ==> s.answers[m].Supplied?) {
      assert LinkedAt(s, m);
    }
    assert HoldsAt(s, p, n);
  }

  lemma InvStep(s: State, step: Step)
    requires Inv(s) && Enabled(s, step)
    ensures Inv(Do(s, step))
  {
    LinkedStep(s, step);
    SentStep(s, step);
    CleanStep(s, step);
    HoldsStep(s, step);
    AnsweredStep(s, step);
  }

  lemma AnsweredStep(s: State, step: Step)
    requires Inv(s) && Enabled(s, step)
    ensures forall n :: AnsweredRight(Do(s, step), n)
  {
    var t := Do(s, step);
    AnswersKept(s, step);
    forall n ensures AnsweredRight(t, n) {
      assert AnsweredRight(s, n);
      if step == Fetch(n) {
        FetchRight(s, n);
      }
    }
  }

  // Every run

  ghost predicate Possible(s: State, steps: seq<Step>)
    decreases |steps|
  {
    |steps| == 0 || (P.Shape(s.p) && Enabled(s, steps[0]) && Possible(Do(s, steps[0]), steps[1..]))
  }

  ghost function Final(s: State, steps: seq<Step>): State
    requires Possible(s, steps)
    decreases |steps|
  {
    if |steps| == 0 then s else Final(Do(s, steps[0]), steps[1..])
  }

  lemma {:induction false} InvRun(s: State, steps: seq<Step>)
    requires Inv(s) && Possible(s, steps)
    ensures Inv(Final(s, steps)) && Final(s, steps).msgs == s.msgs && Final(s, steps).o == s.o
    ensures Final(s, steps).first == s.first
    decreases |steps|
  {
    if |steps| > 0 {
      InvStep(s, steps[0]);
      AnswersKept(s, steps[0]);
      InvRun(Do(s, steps[0]), steps[1..]);
    }
  }

  lemma InvStart(o: nat, initial: bool, msgs: seq<Message>, first: seq<Event>)
    requires P.KernelOrder(initial, Kinds(msgs)) && AsksBetween(msgs)
    ensures Inv(Start(o, initial, msgs, first))
  {
    var s := Start(o, initial, msgs, first);
    P.InvStart(initial, Kinds(msgs));
    forall p: nat, k: nat ensures HoldsAt(s, p, k) {
      if Frontier(s, p, k) {
        forall m | 0 <= m < k ensures !On(msgs[m], p) {
          assert On(msgs[m], p) ==> Applied(s, m, p);
        }
        SerialSkip(msgs, 0, k, p, Base(s, p));
      }
    }
  }

  /** In every run, every data_request that is answered with bytes, or with their absence, gets
      what handling all messages before it one at a time would leave; and no write before it has
      failed. One that is refused is refused because a write has failed. */
  lemma ServedInOrder(o: nat, initial: bool, msgs: seq<Message>, first: seq<Event>, steps: seq<Step>, n: nat)
    requires P.KernelOrder(initial, Kinds(msgs)) && AsksBetween(msgs)
    requires Possible(Start(o, initial, msgs, first), steps)
    ensures var s := Final(Start(o, initial, msgs, first), steps);
            n in s.answers ==>
              && n < |msgs| && msgs[n].Request?
              && match s.answers[n]
                 case Supplied(found) =>
                   && found == Serial(msgs, n, msgs[n].page, Look(Replay(first), o, msgs[n].page))
                   && forall m | m in s.failed :: m > n
                 case Refused => s.failed != {}
  {
    var s0 := Start(o, initial, msgs, first);
    InvStart(o, initial, msgs, first);
    InvRun(s0, steps);
    var s := Final(s0, steps);
    if n in s.answers {
      assert LinkedAt(s, n) && AnsweredRight(s, n);
    }
  }

  /** `s` is a state of a run. */
  ghost predicate Reached(s: State) {
    exists initial, steps :: ReachedBy(s, initial, steps)
  }

  ghost predicate ReachedBy(s: State, initial: bool, steps: seq<Step>) {
    && P.KernelOrder(initial, Kinds(s.msgs)) && AsksBetween(s.msgs)
    && Possible(Start(s.o, initial, s.msgs, s.first), steps)
    && Final(Start(s.o, initial, s.msgs, s.first), steps) == s
  }

  lemma ReachedInv(s: State)
    requires Reached(s)
    ensures Inv(s)
  {
    var initial, steps :| ReachedBy(s, initial, steps);
    InvStart(s.o, initial, s.msgs, s.first);
    InvRun(Start(s.o, initial, s.msgs, s.first), steps);
  }

  lemma {:induction false} OneMore(s: State, steps: seq<Step>, step: Step)
    requires Possible(s, steps) && P.Shape(Final(s, steps).p) && Enabled(Final(s, steps), step)
    ensures Possible(s, steps + [step]) && Final(s, steps + [step]) == Do(Final(s, steps), step)
    decreases |steps|
  {
    if |steps| == 0 {
      assert steps + [step] == [step];
    } else {
      OneMore(Do(s, steps[0]), steps[1..], step);
      assert (steps + [step])[1..] == steps[1..] + [step];
    }
  }

  lemma ReachedOn(s: State, step: Step)
    requires Reached(s) && P.Shape(s.p) && Enabled(s, step)
    ensures Reached(Do(s, step)) && P.Shape(Do(s, step).p)
  {
    var initial, steps :| ReachedBy(s, initial, steps);
    OneMore(Start(s.o, initial, s.msgs, s.first), steps, step);
    AnswersKept(s, step);
    assert ReachedBy(Do(s, step), initial, steps + [step]);
    ReachedInv(Do(s, step));
  }

  lemma ReachedStart(o: nat, initial: bool, msgs: seq<Message>, first: seq<Event>)
    requires P.KernelOrder(initial, Kinds(msgs)) && AsksBetween(msgs)
    ensures Reached(Start(o, initial, msgs, first))
  {
    assert ReachedBy(Start(o, initial, msgs, first), initial, []);
  }

  // What the serial order comes to

  /** The message decides what page `p` holds, whatever it held. */
  predicate Decides(m: Message, p: nat) {
    On(m, p) && (m.Write? || (m.Request? && m.release))
  }

  predicate Initializes(m: Message, p: nat) {
    On(m, p) && m.Initialize?
  }

  /** `r` is the last message before `n` that decides what page `p` holds. */
  predicate LastDecision(msgs: seq<Message>, r: nat, n: nat, p: nat) {
    r < n <= |msgs| && Decides(msgs[r], p) && Undecided(msgs, r + 1, n, p)
  }

  predicate Undecided(msgs: seq<Message>, from: nat, n: nat, p: nat)
    requires n <= |msgs|
  {
    forall k | from <= k < n :: !Decides(msgs[k], p)
  }

  predicate NotInitialized(msgs: seq<Message>, from: nat, n: nat, p: nat)
    requires n <= |msgs|
  {
    forall k | from <= k < n :: !Initializes(msgs[k], p)
  }

  /** `i` is the first data_initialize of page `p` from message `from` on. */
  predicate FirstInitialize(msgs: seq<Message>, i: nat, from: nat, n: nat, p: nat) {
    from <= i < n <= |msgs| && Initializes(msgs[i], p) && NotInitialized(msgs, from, i, p)
  }

  /** The bytes that a data_write or data_initialize has for page `p`. */
  function Sent(m: Message, p: nat): Found
    requires Stores(m) && On(m, p)
  {
    Bytes(m.pages[p - m.page])
  }

  /** A page that held `f` when message `from` came, and that nothing has decided since, holds `g`
      when message `n` comes: what it held, or else the bytes of the first data_initialize. */
  predicate HeldSince(msgs: seq<Message>, from: nat, n: nat, p: nat, f: Found, g: Found)
    requires n <= |msgs|
  {
    && (f.Bytes? || NotInitialized(msgs, from, n, p) ==> g == f)
    && forall i | 0 <= i < n && FirstInitialize(msgs, i, from, n, p) && f.Missing? :: g == Sent(msgs[i], p)
  }

  lemma {:induction false} SinceDecision(msgs: seq<Message>, from: nat, n: nat, p: nat, base: Found)
    requires from <= n <= |msgs| && Undecided(msgs, from, n, p)
    ensures HeldSince(msgs, from, n, p, Serial(msgs, from, p, base), Serial(msgs, n, p, base))
    decreases n
  {
    if from < n {
      SinceDecision(msgs, from, n - 1, p, base);
      assert !Decides(msgs[n - 1], p);
    }
  }

  /** A page holds the bytes of the last data_write of it, whatever data_initialize brought since.
      Where it was given up to the kernel since, or was never written nor there from the start, it
      holds the bytes of the first data_initialize after that, or none. */
  lemma PageServed(msgs: seq<Message>, n: nat, p: nat, base: Found)
    requires n <= |msgs|
    ensures forall r | 0 <= r < n && LastDecision(msgs, r, n, p) ::
              HeldSince(msgs, r + 1, n, p, if msgs[r].Write? then Sent(msgs[r], p) else Missing,
                        Serial(msgs, n, p, base))
    ensures Undecided(msgs, 0, n, p) ==> HeldSince(msgs, 0, n, p, base, Serial(msgs, n, p, base))
  {
    forall r | 0 <= r < n && LastDecision(msgs, r, n, p)
      ensures HeldSince(msgs, r + 1, n, p, if msgs[r].Write? then Sent(msgs[r], p) else Missing,
                        Serial(msgs, n, p, base))
    {
      SinceDecision(msgs, r + 1, n, p, base);
    }
    if Undecided(msgs, 0, n, p) {
      SinceDecision(msgs, 0, n, p, base);
    }
  }
}
