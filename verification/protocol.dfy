/** The default pager's request protocol on one memory object: every request message is
    handled by its own thread, and the threads meet only under the object's lock.

    A step is one critical section, or one action between two of them. Where a handler keeps
    the lock over several of its actions the steps let other threads in between, so they
    cover every interleaving the lock allows and more. A thread that waits for a condition
    falls asleep and runs again only when some thread broadcasts that condition.
 */
module RequestProtocol {

  import opened Sums

  /** data_initialize takes the same part in the protocol as data_write. */
  datatype Kind = DataRequest | DataWrite | Init | Terminate

  datatype Pc =
    | AtGate                       // about to compare its sequence number
    | AsleepSeqno
    | Excess(drop: int)            // unlocked, about to give back excess user references
    | Checked                      // data_write: request references counted
    | WaitReaders                  // terminate
    | AsleepReaders
    | WaitWriters                  // data_request and terminate
    | AsleepWriters
    | WaitRefs                     // terminate
    | AsleepRefs
    | Passed                       // sequence number advanced, broadcast still to come
    | Working                      // reading or writing pages, unlocked
    | WakeReaders                  // last reader gone, broadcast still to come
    | WakeWriters                  // last writer gone, broadcast still to come
    | PassedWith(rr: int, nr: int) // terminate: as Passed, with the references it must drop
    | Dropping(rr: int, nr: int)
    | Done

  /** default_pager_objects, which holds the list lock while it works on the object. */
  datatype Lister = Idle | Window | Granted

  /** User references kept before excess ones are given back (default_pager_max_urefs). */
  const MAX_UREFS: int := 10000

  /** The fields of the object that its lock protects. */
  datatype Shared = Shared(
    seqno: nat,
    readers: int,
    writers: int,
    active: bool,                  // pager_request and pager_name are set
    requestRefs: int,
    nameRefs: int)

  datatype State = State(
    initial: bool,                 // whether the object is made with its ports, or gets them from an init
    reqs: seq<Kind>,               // the messages of the run; the index is the sequence number
    threads: seq<Pc>,              // one thread for each message received so far
    sh: Shared,
    lister: Lister,
    held: map<nat, int>,           // send references the task holds for each request port
    names: map<nat, int>)          // and for each name port, not counting those in replies

  /** The pair of ports in force after the first `n` messages: a new pair with every init. */
  function Ports(reqs: seq<Kind>, n: nat): nat
    requires n <= |reqs|
  {
    if n == 0 then 0 else Ports(reqs, n - 1) + if reqs[n - 1].Init? then 1 else 0
  }

  /** Whether the kernel has the object initialized after the first `n` messages. */
  predicate ActiveAfter(initial: bool, reqs: seq<Kind>, n: nat)
    requires n <= |reqs|
  {
    if n == 0 then initial else reqs[n - 1].Init? || (!reqs[n - 1].Terminate? && ActiveAfter(initial, reqs, n - 1))
  }

  /** What the kernel promises of its messages: init exactly when the object is not active. */
  predicate KernelOrder(initial: bool, reqs: seq<Kind>) {
    forall n | 0 <= n < |reqs| :: InOrder(initial, reqs, n)
  }

  predicate InOrder(initial: bool, reqs: seq<Kind>, n: nat)
    requires n < |reqs|
  {
    reqs[n].Init? <==> !ActiveAfter(initial, reqs, n)
  }

  function Ref(m: map<nat, int>, g: nat): int {
    if g in m then m[g] else 0
  }

  function Add(m: map<nat, int>, g: nat, k: int): map<nat, int> {
    m[g := Ref(m, g) + k]
  }

  // One thread

  datatype Condition = Nothing | Seqno | Readers | Writers

  /** What a step of a thread does: where it goes, the object it leaves, the condition it
      broadcasts and the send references it gives back to the kernel. */
  datatype Outcome = Outcome(pc: Pc, sh: Shared, wake: Condition, drop: int, dropNames: int)

  predicate Asleep(pc: Pc) {
    pc.AsleepSeqno? || pc.AsleepReaders? || pc.AsleepWriters? || pc.AsleepRefs?
  }

  predicate Runnable(pc: Pc) {
    !Asleep(pc) && !pc.Done?
  }

  function Go(pc: Pc, sh: Shared): Outcome {
    Outcome(pc, sh, Nothing, 0, 0)
  }

  /** Where a data_request or data_write goes once its reference is counted. */
  function AfterCheck(kind: Kind): Pc {
    if kind.DataWrite? then Checked else WaitWriters
  }

  /** pager_port_lock, then what the handler does first. */
  function AtTheGate(kind: Kind, n: nat, sh: Shared): Outcome {
    if sh.seqno != n then Go(AsleepSeqno, sh)
    else if kind.Terminate? then Go(WaitReaders, sh)
    else if kind.Init? then Go(Passed, sh.(active := true, requestRefs := 1, nameRefs := 1, seqno := n + 1))
    else if sh.requestRefs + 1 > MAX_UREFS then Go(Excess(sh.requestRefs), sh.(requestRefs := 1))
    else Go(AfterCheck(kind), sh.(requestRefs := sh.requestRefs + 1))
  }

  /** pager_port_wait_for_writers, then what the handler does next. */
  function AwaitWriters(kind: Kind, sh: Shared): Outcome {
    if sh.writers != 0 then Go(AsleepWriters, sh)
    else if kind.Terminate? then Go(WaitRefs, sh)
    else Go(Passed, sh.(readers := sh.readers + 1, seqno := sh.seqno + 1))
  }

  /** pager_port_wait_for_refs, then the clean-up of memory_object_terminate. */
  function AwaitRefs(sh: Shared): Outcome {
    if sh.nameRefs == 0 then Go(AsleepRefs, sh)
    else Go(PassedWith(sh.requestRefs, sh.nameRefs),
            sh.(active := false, requestRefs := 0, nameRefs := 0, seqno := sh.seqno + 1))
  }

  /** pager_port_finish_read and pager_port_finish_write, up to the unlock. */
  function Finish(kind: Kind, sh: Shared): Outcome {
    if kind.DataWrite? then Go(if sh.writers == 1 then WakeWriters else Done, sh.(writers := sh.writers - 1))
    else Go(if sh.readers == 1 then WakeReaders else Done, sh.(readers := sh.readers - 1))
  }

  function Handle(kind: Kind, n: nat, pc: Pc, sh: Shared): Outcome
    requires Runnable(pc)
  {
    match pc
    case AtGate => AtTheGate(kind, n, sh)
    case Excess(drop) => Outcome(AfterCheck(kind), sh, Nothing, drop, 0)
    case Checked => Go(Passed, sh.(writers := sh.writers + 1, seqno := sh.seqno + 1))
    case WaitReaders => Go(if sh.readers != 0 then AsleepReaders else WaitWriters, sh)
    case WaitWriters => AwaitWriters(kind, sh)
    case WaitRefs => AwaitRefs(sh)
    case Passed => Outcome(if kind.Init? then Done else Working, sh, Seqno, 0, 0)
    case PassedWith(rr, nr) => Outcome(Dropping(rr, nr), sh, Seqno, 0, 0)
    case Working => Finish(kind, sh)
    case WakeReaders => Outcome(Done, sh, Readers, 0, 0)
    case WakeWriters => Outcome(Done, sh, Writers, 0, 0)
    case Dropping(rr, nr) => Outcome(Done, sh, Nothing, rr, nr)
  }

  // The whole object

  function Woken(pc: Pc, c: Condition): Pc {
    match (pc, c)
    case (AsleepSeqno, Seqno) => AtGate
    case (AsleepReaders, Readers) => WaitReaders
    case (AsleepWriters, Writers) => WaitWriters
    case _ => pc
  }

  function Broadcast(threads: seq<Pc>, c: Condition): (r: seq<Pc>)
    ensures |r| == |threads|
    ensures forall n | 0 <= n < |r| :: r[n] == Woken(threads[n], c)
  {
    seq(|threads|, n requires 0 <= n < |threads| => Woken(threads[n], c))
  }

  /** The broadcast of waiting_refs, made with the lock held. */
  function WakeRefs(threads: seq<Pc>): (r: seq<Pc>)
    ensures |r| == |threads|
    ensures forall n | 0 <= n < |r| :: r[n] == if threads[n].AsleepRefs? then WaitRefs else threads[n]
  {
    seq(|threads|, n requires 0 <= n < |threads| => if threads[n].AsleepRefs? then WaitRefs else threads[n])
  }

  predicate Shape(s: State) {
    s.sh.seqno <= |s.threads| <= |s.reqs|
  }

  /** The object as memory_object_create leaves it, with its ports and a reference to each, or
      as default_pager_object_create leaves it, without ports until an init brings them. */
  function Start(initial: bool, reqs: seq<Kind>): State {
    if initial then State(initial, reqs, [], Shared(0, 0, 0, true, 1, 1), Idle, map[0 := 1], map[0 := 1])
    else State(initial, reqs, [], Shared(0, 0, 0, false, 0, 0), Idle, map[], map[])
  }

  /** Arrive receives the next message, Run lets a thread make its next step, List takes a
      name reference for a reply and List's work goes on in Grant and EndList. */
  datatype Step = Arrive | Run(n: nat) | List | Grant | EndList

  predicate Enabled(s: State, step: Step) {
    match step
    case Arrive => |s.threads| < |s.reqs|
    case Run(n) => n < |s.threads| && Runnable(s.threads[n])
    case List => s.lister.Idle? && s.sh.active
    case Grant => s.lister.Window?
    case EndList => s.lister.Granted?
  }

  function Apply(s: State, n: nat, o: Outcome): State
    requires Shape(s) && n < |s.threads|
  {
    var g := Ports(s.reqs, n + 1);
    s.(threads := Broadcast(s.threads, o.wake)[n := o.pc],
       sh := o.sh,
       held := Add(s.held, g, -o.drop),
       names := Add(s.names, g, -o.dropNames))
  }

  /** Every message but terminate brings a send right for the request port, and init brings
      one for the name port too. */
  function DoArrive(s: State): State
    requires Shape(s) && Enabled(s, Arrive)
  {
    var n := |s.threads|;
    var g := Ports(s.reqs, n + 1);
    s.(threads := s.threads + [AtGate],
       held := Add(s.held, g, if s.reqs[n].Terminate? then 0 else 1),
       names := Add(s.names, g, if s.reqs[n].Init? then 1 else 0))
  }

  function Do(s: State, step: Step): State
    requires Shape(s) && Enabled(s, step)
  {
    match step
    case Arrive => DoArrive(s)
    case Run(n) => Apply(s, n, Handle(s.reqs[n], n, s.threads[n], s.sh))
    case List =>
      s.(sh := s.sh.(nameRefs := s.sh.nameRefs - 1),
         names := Add(s.names, Ports(s.reqs, s.sh.seqno), -1),
         lister := if s.sh.nameRefs == 1 then Window else Idle)
    case Grant =>
      s.(names := Add(s.names, Ports(s.reqs, s.sh.seqno), MAX_UREFS), lister := Granted)
    case EndList =>
      s.(sh := s.sh.(nameRefs := s.sh.nameRefs + MAX_UREFS), lister := Idle, threads := WakeRefs(s.threads))
  }

  // The gate

  predicate Before(pc: Pc) {
    pc.AtGate? || pc.AsleepSeqno?
  }

  predicate After(pc: Pc) {
    || pc.Passed? || pc.Working? || pc.WakeReaders? || pc.WakeWriters?
    || pc.PassedWith? || pc.Dropping? || pc.Done?
  }

  /** Each kind of request keeps to its own program counters. */
  predicate PcOk(kind: Kind, pc: Pc) {
    match pc
    case Excess(drop) => (kind.DataRequest? || kind.DataWrite?) && drop >= 0
    case Checked => kind.DataWrite?
    case WaitWriters => kind.DataRequest? || kind.Terminate?
    case AsleepWriters => kind.DataRequest? || kind.Terminate?
    case WaitReaders => kind.Terminate?
    case AsleepReaders => kind.Terminate?
    case WaitRefs => kind.Terminate?
    case AsleepRefs => kind.Terminate?
    case Passed => !kind.Terminate?
    case Working => kind.DataRequest? || kind.DataWrite?
    case WakeReaders => kind.DataRequest?
    case WakeWriters => kind.DataWrite?
    case PassedWith(rr, nr) => kind.Terminate? && rr >= 0 && nr >= 0
    case Dropping(rr, nr) => kind.Terminate? && rr >= 0 && nr >= 0
    case _ => true
  }

  /** A thread is past the gate exactly when its number is below the object's, and only the
      thread whose number is the object's can be between the gate and the increment. */
  predicate Placed(kind: Kind, n: nat, pc: Pc, seqno: nat) {
    && PcOk(kind, pc)
    && (After(pc) <==> n < seqno)
    && (n > seqno ==> Before(pc))
  }

  predicate Ordered(s: State) {
    && Shape(s)
    && s.sh.requestRefs >= 0 && s.sh.nameRefs >= 0
    && forall n | 0 <= n < |s.threads| :: Placed(s.reqs[n], n, s.threads[n], s.sh.seqno)
  }

  /** What the gate asks of one thread's move. */
  predicate GateMove(kind: Kind, n: nat, sh: Shared, o: Outcome) {
    && Placed(kind, n, o.pc, o.sh.seqno)
    && o.sh.requestRefs >= 0 && o.sh.nameRefs >= 0
    && (o.sh.seqno == sh.seqno || (n == sh.seqno && o.sh.seqno == n + 1))
  }

  lemma HandleGate(kind: Kind, n: nat, pc: Pc, sh: Shared)
    requires Runnable(pc) && Placed(kind, n, pc, sh.seqno) && sh.requestRefs >= 0 && sh.nameRefs >= 0
    ensures GateMove(kind, n, sh, Handle(kind, n, pc, sh))
  {
  }

  lemma ApplyOrdered(s: State, n: nat, o: Outcome)
    requires Ordered(s) && n < |s.threads| && GateMove(s.reqs[n], n, s.sh, o)
    ensures Ordered(Apply(s, n, o))
  {
    var t := Apply(s, n, o);
    forall m | 0 <= m < |t.threads| ensures Placed(t.reqs[m], m, t.threads[m], t.sh.seqno) {
      assert Placed(s.reqs[m], m, s.threads[m], s.sh.seqno);
    }
  }

  lemma OrderedStep(s: State, step: Step)
    requires Ordered(s) && Enabled(s, step) && (step.List? ==> s.sh.nameRefs > 0)
    ensures Ordered(Do(s, step))
  {
    if step.Run? {
      HandleGate(s.reqs[step.n], step.n, s.threads[step.n], s.sh);
      ApplyOrdered(s, step.n, Handle(s.reqs[step.n], step.n, s.threads[step.n], s.sh));
    }
  }

  // Sums over the threads

  /** A weight that waking up does not change. */
  ghost predicate Restful(w: (nat, Pc) -> int) {
    && (forall n, c, pc :: w(n, Woken(pc, c)) == w(n, pc))
    && (forall n :: w(n, AsleepRefs) == w(n, WaitRefs))
  }

  lemma ApplySum(w: (nat, Pc) -> int, s: State, n: nat, o: Outcome)
    requires Shape(s) && n < |s.threads| && Restful(w)
    ensures Sum(w, Apply(s, n, o).threads) == Sum(w, s.threads) - w(n, s.threads[n]) + w(n, o.pc)
  {
    SumMove(w, s.threads, Apply(s, n, o).threads, n);
  }

  lemma SumEndList(w: (nat, Pc) -> int, t: seq<Pc>)
    requires Restful(w)
    ensures Sum(w, WakeRefs(t)) == Sum(w, t)
  {
    SumSame(w, t, WakeRefs(t));
  }

  // Readers and writers

  predicate Reads(kind: Kind, pc: Pc) {
    kind.DataRequest? && (pc.Passed? || pc.Working?)
  }

  predicate Writes(kind: Kind, pc: Pc) {
    kind.DataWrite? && (pc.Passed? || pc.Working?)
  }

  function Reading(reqs: seq<Kind>): (nat, Pc) -> int {
    (n: nat, pc) => One(n < |reqs| && Reads(reqs[n], pc))
  }

  function Writing(reqs: seq<Kind>): (nat, Pc) -> int {
    (n: nat, pc) => One(n < |reqs| && Writes(reqs[n], pc))
  }

  lemma CountsRestful(reqs: seq<Kind>)
    ensures Restful(Reading(reqs)) && Restful(Writing(reqs))
  {
  }

  /** The counters are the numbers of threads that have started and not finished. */
  predicate Counted(s: State) {
    && s.sh.readers == Sum(Reading(s.reqs), s.threads)
    && s.sh.writers == Sum(Writing(s.reqs), s.threads)
  }

  predicate CountMove(kind: Kind, pc: Pc, sh: Shared, o: Outcome) {
    && o.sh.readers - sh.readers == One(Reads(kind, o.pc)) - One(Reads(kind, pc))
    && o.sh.writers - sh.writers == One(Writes(kind, o.pc)) - One(Writes(kind, pc))
  }

  lemma HandleCount(kind: Kind, n: nat, pc: Pc, sh: Shared)
    requires Runnable(pc) && PcOk(kind, pc)
    ensures CountMove(kind, pc, sh, Handle(kind, n, pc, sh))
  {
  }

  lemma ApplyCounted(s: State, n: nat, o: Outcome)
    requires Shape(s) && Counted(s) && n < |s.threads| && CountMove(s.reqs[n], s.threads[n], s.sh, o)
    ensures Counted(Apply(s, n, o))
  {
    CountsRestful(s.reqs);
    ApplySum(Reading(s.reqs), s, n, o);
    ApplySum(Writing(s.reqs), s, n, o);
  }

  lemma CountedStep(s: State, step: Step)
    requires Ordered(s) && Counted(s) && Enabled(s, step)
    ensures Counted(Do(s, step))
  {
    match step
    case Arrive =>
      SumAppend(Reading(s.reqs), s.threads, AtGate);
      SumAppend(Writing(s.reqs), s.threads, AtGate);
    case Run(n) =>
      HandleCount(s.reqs[n], n, s.threads[n], s.sh);
      ApplyCounted(s, n, Handle(s.reqs[n], n, s.threads[n], s.sh));
    case EndList =>
      CountsRestful(s.reqs);
      SumEndList(Reading(s.reqs), s.threads);
      SumEndList(Writing(s.reqs), s.threads);
    case _ =>
  }

  lemma NoneWriting(s: State, m: nat)
    requires Ordered(s) && Counted(s) && s.sh.writers == 0 && m < |s.threads|
    ensures !Writes(s.reqs[m], s.threads[m])
  {
    SumAtLeast(Writing(s.reqs), s.threads, m);
  }

  /** A write has finished: its pages are stored and it is no longer counted. */
  predicate Finished(pc: Pc) {
    pc.WakeWriters? || pc.Done?
  }

  /** A data_request that has begun to read, and has perhaps finished. */
  predicate Started(kind: Kind, pc: Pc) {
    kind.DataRequest? && After(pc)
  }

  /** From when a data_request begins to read, every data_write with a smaller number has finished. */
  predicate ReadsAfterWrites(s: State) {
    && Shape(s)
    && forall m, n | 0 <= m < n < |s.threads| && Started(s.reqs[n], s.threads[n]) && s.reqs[m].DataWrite? ::
         Finished(s.threads[m])
  }

  /** A thread begins to read only with no writer, and a finished write stays finished. */
  predicate ReadMove(kind: Kind, n: nat, pc: Pc, sh: Shared, o: Outcome) {
    && (Started(kind, o.pc) && !Started(kind, pc) ==> sh.writers == 0 && n == sh.seqno)
    && (Finished(pc) ==> Finished(o.pc))
  }

  lemma HandleRead(kind: Kind, n: nat, pc: Pc, sh: Shared)
    requires Runnable(pc) && Placed(kind, n, pc, sh.seqno)
    ensures ReadMove(kind, n, pc, sh, Handle(kind, n, pc, sh))
  {
  }

  lemma ApplyReads(s: State, n: nat, o: Outcome)
    requires Ordered(s) && Counted(s) && ReadsAfterWrites(s)
    requires n < |s.threads| && ReadMove(s.reqs[n], n, s.threads[n], s.sh, o)
    requires o.sh.seqno <= |s.threads|
    ensures ReadsAfterWrites(Apply(s, n, o))
  {
    var t := Apply(s, n, o);
    forall m, k | 0 <= m < k < |t.threads| && Started(t.reqs[k], t.threads[k]) && t.reqs[m].DataWrite?
      ensures Finished(t.threads[m])
    {
      if !Started(s.reqs[k], s.threads[k]) {
        NoneWriting(s, m);
        assert Placed(s.reqs[m], m, s.threads[m], s.sh.seqno);
      }
      assert Finished(s.threads[m]);
    }
  }

  lemma ReadsStep(s: State, step: Step)
    requires Ordered(s) && Counted(s) && ReadsAfterWrites(s) && Enabled(s, step)
    ensures ReadsAfterWrites(Do(s, step))
  {
    if step.Run? {
      var n := step.n;
      var o := Handle(s.reqs[n], n, s.threads[n], s.sh);
      HandleGate(s.reqs[n], n, s.threads[n], s.sh);
      HandleRead(s.reqs[n], n, s.threads[n], s.sh);
      ApplyReads(s, n, o);
    }
  }

  // The waits of terminate

  /** What a terminate has waited for stays so until it cleans up. */
  predicate Waited(kind: Kind, pc: Pc, sh: Shared) {
    && (kind.Terminate? && (pc.WaitWriters? || pc.AsleepWriters?) ==> sh.readers == 0)
    && (pc.WaitRefs? || pc.AsleepRefs? ==> sh.readers == 0 && sh.writers == 0)
  }

  predicate Drained(s: State) {
    && Shape(s)
    && forall n | 0 <= n < |s.threads| :: Waited(s.reqs[n], s.threads[n], s.sh)
  }

  predicate DrainMove(kind: Kind, n: nat, sh: Shared, o: Outcome) {
    && Waited(kind, o.pc, o.sh)
    && (o.sh.readers > sh.readers || o.sh.writers > sh.writers ==> n == sh.seqno)
  }

  lemma HandleDrain(kind: Kind, n: nat, pc: Pc, sh: Shared)
    requires Runnable(pc) && Placed(kind, n, pc, sh.seqno) && Waited(kind, pc, sh)
    ensures DrainMove(kind, n, sh, Handle(kind, n, pc, sh))
  {
  }

  lemma CountsNatural(s: State)
    requires Shape(s) && Counted(s)
    ensures s.sh.readers >= 0 && s.sh.writers >= 0
  {
    if |s.threads| > 0 {
      SumAtLeast(Reading(s.reqs), s.threads, 0);
      SumAtLeast(Writing(s.reqs), s.threads, 0);
    }
  }

  lemma ApplyDrained(s: State, n: nat, o: Outcome)
    requires Ordered(s) && Drained(s) && n < |s.threads| && DrainMove(s.reqs[n], n, s.sh, o)
    requires Ordered(Apply(s, n, o)) && Counted(Apply(s, n, o))
    ensures Drained(Apply(s, n, o))
  {
    var t := Apply(s, n, o);
    CountsNatural(t);
    forall m | 0 <= m < |t.threads| ensures Waited(t.reqs[m], t.threads[m], t.sh) {
      assert Waited(s.reqs[m], s.threads[m], s.sh);
      assert Placed(s.reqs[m], m, s.threads[m], s.sh.seqno);
    }
  }

  lemma DrainedStep(s: State, step: Step)
    requires Ordered(s) && Counted(s) && Drained(s) && Enabled(s, step)
    ensures Drained(Do(s, step))
  {
    if step.Run? {
      var n := step.n;
      var o := Handle(s.reqs[n], n, s.threads[n], s.sh);
      HandleGate(s.reqs[n], n, s.threads[n], s.sh);
      HandleCount(s.reqs[n], n, s.threads[n], s.sh);
      HandleDrain(s.reqs[n], n, s.threads[n], s.sh);
      ApplyOrdered(s, n, o);
      ApplyCounted(s, n, o);
      ApplyDrained(s, n, o);
    }
  }

  // Wake-ups

  predicate Waking(pc: Pc, c: Condition) {
    match c
    case Seqno => pc.Passed? || pc.PassedWith?
    case Readers => pc.WakeReaders?
    case Writers => pc.WakeWriters?
    case Nothing => false
  }

  /** Some thread is about to broadcast the condition. */
  predicate Pending(threads: seq<Pc>, c: Condition) {
    exists m | 0 <= m < |threads| :: Waking(threads[m], c)
  }

  /** Thread `n` is asleep although what it waits for has come about. */
  predicate Overdue(pc: Pc, n: nat, sh: Shared, c: Condition) {
    match c
    case Seqno => pc.AsleepSeqno? && n == sh.seqno
    case Readers => pc.AsleepReaders? && sh.readers == 0
    case Writers => pc.AsleepWriters? && sh.writers == 0
    case Nothing => false
  }

  /** No wake-up is lost: an overdue thread has a broadcast coming to it. */
  predicate Awaited(s: State) {
    && (forall n, c | 0 <= n < |s.threads| && Overdue(s.threads[n], n, s.sh, c) :: Pending(s.threads, c))
    && (forall n | 0 <= n < |s.threads| && s.threads[n].AsleepRefs? :: !s.lister.Idle?)
  }

  /** A thread that brings a condition about is itself going to broadcast it. */
  predicate WakeMove(n: nat, pc: Pc, sh: Shared, o: Outcome) {
    && (forall c :: Waking(pc, c) ==> o.wake == c)
    && (forall c :: !Overdue(o.pc, n, o.sh, c))
    && (o.sh.seqno != sh.seqno ==> Waking(o.pc, Seqno))
    && (o.sh.readers == 0 && sh.readers != 0 ==> Waking(o.pc, Readers))
    && (o.sh.writers == 0 && sh.writers != 0 ==> Waking(o.pc, Writers))
    && (o.pc.AsleepRefs? ==> sh.nameRefs == 0)
  }

  lemma HandleWake(kind: Kind, n: nat, pc: Pc, sh: Shared)
    requires Runnable(pc) && Placed(kind, n, pc, sh.seqno) && sh.readers >= 0 && sh.writers >= 0
    ensures WakeMove(n, pc, sh, Handle(kind, n, pc, sh))
  {
  }

  lemma ApplyAwaited(s: State, n: nat, o: Outcome)
    requires Shape(s) && Awaited(s) && n < |s.threads| && WakeMove(n, s.threads[n], s.sh, o)
    requires s.sh.nameRefs == 0 && s.sh.active ==> !s.lister.Idle?
    requires o.pc.AsleepRefs? ==> s.sh.active
    ensures Awaited(Apply(s, n, o))
  {
    var t := Apply(s, n, o);
    assert forall m | 0 <= m < |t.threads| && m != n :: t.threads[m] == Woken(s.threads[m], o.wake);
    forall k, c | 0 <= k < |t.threads| && Overdue(t.threads[k], k, t.sh, c) ensures Pending(t.threads, c) {
      if Waking(o.pc, c) {
        assert Waking(t.threads[n], c);
      } else {
        assert Overdue(s.threads[k], k, s.sh, c);
        assert Pending(s.threads, c);
        var m :| 0 <= m < |s.threads| && Waking(s.threads[m], c);
        assert Waking(t.threads[m], c);
      }
    }
  }

  lemma AwaitedOther(s: State, step: Step)
    requires Ordered(s) && Awaited(s) && Enabled(s, step) && !step.Run?
    ensures Awaited(Do(s, step))
  {
    var t := Do(s, step);
    forall k, c | 0 <= k < |t.threads| && Overdue(t.threads[k], k, t.sh, c) ensures Pending(t.threads, c) {
      assert Overdue(s.threads[k], k, s.sh, c);
      assert Pending(s.threads, c);
      var m :| 0 <= m < |s.threads| && Waking(s.threads[m], c);
      assert Waking(t.threads[m], c);
    }
  }

  lemma AwaitedStep(s: State, step: Step)
    requires Ordered(s) && Counted(s) && RefsOk(s) && Awaited(s) && Enabled(s, step)
    ensures Awaited(Do(s, step))
  {
    if step.Run? {
      var n := step.n;
      CountsNatural(s);
      HandleWake(s.reqs[n], n, s.threads[n], s.sh);
      assert InOrder(s.initial, s.reqs, n);
      HandleRefs(s.reqs[n], n, s.threads[n], s.sh, s.lister);
      ApplyAwaited(s, n, Handle(s.reqs[n], n, s.threads[n], s.sh));
    } else {
      AwaitedOther(s, step);
    }
  }

  // References

  /** The object's own reference counts, and the lister that is renewing the name's. */
  predicate RefsFine(sh: Shared, lister: Lister) {
    && (sh.active ==> 1 <= sh.requestRefs <= MAX_UREFS)
    && (!sh.active ==> sh.requestRefs == 0 && sh.nameRefs == 0)
    && (if lister.Idle? then sh.active ==> sh.nameRefs >= 1 else sh.active && sh.nameRefs == 0)
  }

  predicate RefsOk(s: State) {
    && Shape(s) && KernelOrder(s.initial, s.reqs)
    && RefsFine(s.sh, s.lister)
    && s.sh.active == ActiveAfter(s.initial, s.reqs, s.sh.seqno)
  }

  /** Thread `n` gets its turn in the state the kernel sent its message for. */
  predicate Expected(kind: Kind, n: nat, sh: Shared) {
    n == sh.seqno ==> (kind.Init? <==> !sh.active)
  }

  predicate RefMove(kind: Kind, sh: Shared, o: Outcome, lister: Lister) {
    && RefsFine(o.sh, lister)
    && o.sh.active == (if o.sh.seqno == sh.seqno then sh.active else kind.Init? || (!kind.Terminate? && sh.active))
    && (o.pc.AsleepRefs? ==> sh.active)
  }

  lemma HandleRefs(kind: Kind, n: nat, pc: Pc, sh: Shared, lister: Lister)
    requires Runnable(pc) && Placed(kind, n, pc, sh.seqno) && RefsFine(sh, lister) && Expected(kind, n, sh)
    ensures RefMove(kind, sh, Handle(kind, n, pc, sh), lister)
  {
  }

  lemma ApplyRefs(s: State, n: nat, o: Outcome)
    requires RefsOk(s) && n < |s.threads|
    requires GateMove(s.reqs[n], n, s.sh, o) && RefMove(s.reqs[n], s.sh, o, s.lister)
    ensures RefsOk(Apply(s, n, o))
  {
  }

  lemma RefsStep(s: State, step: Step)
    requires Ordered(s) && RefsOk(s) && Enabled(s, step)
    ensures RefsOk(Do(s, step))
  {
    if step.Run? {
      assert InOrder(s.initial, s.reqs, step.n);
      HandleGate(s.reqs[step.n], step.n, s.threads[step.n], s.sh);
      HandleRefs(s.reqs[step.n], step.n, s.threads[step.n], s.sh, s.lister);
      ApplyRefs(s, step.n, Handle(s.reqs[step.n], step.n, s.threads[step.n], s.sh));
    }
  }

  // The task's send references

  datatype Right = Request | Name

  /** References a thread has received and not yet entered in the object's counts, or taken
      out of them and not yet given back to the kernel. */
  function Owes(r: Right, kind: Kind, pc: Pc): int {
    match pc
    case AtGate => One(if r.Request? then !kind.Terminate? else kind.Init?)
    case AsleepSeqno => One(if r.Request? then !kind.Terminate? else kind.Init?)
    case Excess(drop) => if r.Request? then drop else 0
    case PassedWith(rr, nr) => if r.Request? then rr else nr
    case Dropping(rr, nr) => if r.Request? then rr else nr
    case _ => 0
  }

  function Refs(r: Right, sh: Shared): int {
    if r.Request? then sh.requestRefs else sh.nameRefs
  }

  function Drop(r: Right, o: Outcome): int {
    if r.Request? then o.drop else o.dropNames
  }

  function Held(r: Right, s: State, g: nat): int {
    if r.Request? then Ref(s.held, g) else Ref(s.names, g)
  }

  function Owing(r: Right, reqs: seq<Kind>, g: nat): (nat, Pc) -> int {
    (n: nat, pc) => if n < |reqs| && Ports(reqs, n + 1) == g then Owes(r, reqs[n], pc) else 0
  }

  /** References the object counts, or the lister has got and not yet entered. */
  function Own(r: Right, s: State, g: nat): int
    requires Shape(s)
  {
    if g == Ports(s.reqs, s.sh.seqno) then
      Refs(r, s.sh) + if r.Name? && s.lister.Granted? then MAX_UREFS else 0
    else 0
  }

  /** The references the kernel has given the task for a port are exactly those accounted for. */
  ghost predicate BalancedFor(s: State, r: Right, g: nat) {
    Shape(s) && Held(r, s, g) == Own(r, s, g) + Sum(Owing(r, s.reqs, g), s.threads)
  }

  ghost predicate Balanced(s: State) {
    forall r, g: nat :: BalancedFor(s, r, g)
  }

  /** A move of thread `n` for ports in force both before and after it, or for new ones. */
  predicate BookMove(r: Right, kind: Kind, n: nat, pc: Pc, sh: Shared, o: Outcome) {
    && (o.sh.seqno != sh.seqno && kind.Init? ==> Refs(r, sh) == 0)
    && (Refs(r, o.sh) != Refs(r, sh) ==> n == sh.seqno)
    && Refs(r, o.sh) - Refs(r, sh) + Owes(r, kind, o.pc) - Owes(r, kind, pc) == -Drop(r, o)
  }

  lemma HandleBook(r: Right, kind: Kind, n: nat, pc: Pc, sh: Shared, lister: Lister)
    requires Runnable(pc) && Placed(kind, n, pc, sh.seqno) && RefsFine(sh, lister) && Expected(kind, n, sh)
    ensures BookMove(r, kind, n, pc, sh, Handle(kind, n, pc, sh))
  {
  }

  lemma OwingRestful(r: Right, reqs: seq<Kind>, g: nat)
    ensures Restful(Owing(r, reqs, g))
  {
  }

  lemma OwnMove(s: State, n: nat, o: Outcome, r: Right, g: nat)
    requires Shape(s) && n < |s.threads| && o.sh.seqno <= |s.threads|
    requires o.sh.seqno == s.sh.seqno || (n == s.sh.seqno && o.sh.seqno == n + 1)
    requires BookMove(r, s.reqs[n], n, s.threads[n], s.sh, o) && Expected(s.reqs[n], n, s.sh)
    requires s.lister.Granted? ==> s.sh.active
    requires s.reqs[n].Init? && n == s.sh.seqno ==> o.sh.seqno == n + 1 || Refs(r, o.sh) == Refs(r, s.sh)
    ensures var w := Owing(r, s.reqs, g);
            Own(r, Apply(s, n, o), g) - Own(r, s, g) + w(n, o.pc) - w(n, s.threads[n])
            == if g == Ports(s.reqs, n + 1) then -Drop(r, o) else 0
  {
    var t := Apply(s, n, o);
    var now, was, p := Ports(s.reqs, o.sh.seqno), Ports(s.reqs, s.sh.seqno), Ports(s.reqs, n + 1);
    assert n == s.sh.seqno ==> p == was + if s.reqs[n].Init? then 1 else 0;
    var granted := if r.Name? && s.lister.Granted? then MAX_UREFS else 0;
    assert Own(r, t, g) == if g == now then Refs(r, o.sh) + granted else 0;
    assert Own(r, s, g) == if g == was then Refs(r, s.sh) + granted else 0;
    OwnArithmetic(r, s.reqs[n], n, s.threads[n], s.sh, o, granted, now, was, p, g);
  }

  lemma OwnArithmetic(r: Right, kind: Kind, n: nat, pc: Pc, sh: Shared, o: Outcome, granted: int,
                      now: nat, was: nat, p: nat, g: nat)
    requires o.sh.seqno == sh.seqno || n == sh.seqno
    requires BookMove(r, kind, n, pc, sh, o) && (granted != 0 ==> sh.active) && Expected(kind, n, sh)
    requires kind.Init? && n == sh.seqno ==> o.sh.seqno == n + 1 || Refs(r, o.sh) == Refs(r, sh)
    requires n == sh.seqno ==> p == was + if kind.Init? then 1 else 0
    requires now == if o.sh.seqno == sh.seqno then was else p
    ensures (if g == now then Refs(r, o.sh) + granted else 0) - (if g == was then Refs(r, sh) + granted else 0)
            + (if g == p then Owes(r, kind, o.pc) - Owes(r, kind, pc) else 0)
            == if g == p then -Drop(r, o) else 0
  {
  }

  lemma HeldMove(s: State, n: nat, o: Outcome, r: Right, g: nat)
    requires Shape(s) && n < |s.threads|
    ensures Held(r, Apply(s, n, o), g) == Held(r, s, g) - if g == Ports(s.reqs, n + 1) then Drop(r, o) else 0
  {
  }

  lemma ApplyBalanced(s: State, n: nat, o: Outcome, r: Right, g: nat)
    requires BalancedFor(s, r, g) && n < |s.threads| && o.sh.seqno <= |s.threads|
    requires o.sh.seqno == s.sh.seqno || (n == s.sh.seqno && o.sh.seqno == n + 1)
    requires BookMove(r, s.reqs[n], n, s.threads[n], s.sh, o) && Expected(s.reqs[n], n, s.sh)
    requires s.lister.Granted? ==> s.sh.active
    requires s.reqs[n].Init? && n == s.sh.seqno ==> o.sh.seqno == n + 1 || Refs(r, o.sh) == Refs(r, s.sh)
    ensures BalancedFor(Apply(s, n, o), r, g)
  {
    OwingRestful(r, s.reqs, g);
    ApplySum(Owing(r, s.reqs, g), s, n, o);
    OwnMove(s, n, o, r, g);
    HeldMove(s, n, o, r, g);
  }

  lemma BalancedRun(s: State, n: nat, r: Right, g: nat)
    requires Ordered(s) && RefsOk(s) && BalancedFor(s, r, g) && Enabled(s, Run(n))
    ensures BalancedFor(Do(s, Run(n)), r, g)
  {
    assert InOrder(s.initial, s.reqs, n);
    HandleGate(s.reqs[n], n, s.threads[n], s.sh);
    HandleBook(r, s.reqs[n], n, s.threads[n], s.sh, s.lister);
    ApplyBalanced(s, n, Handle(s.reqs[n], n, s.threads[n], s.sh), r, g);
  }

  lemma BalancedArrive(s: State, r: Right, g: nat)
    requires Ordered(s) && BalancedFor(s, r, g) && Enabled(s, Arrive)
    ensures BalancedFor(Do(s, Arrive), r, g)
  {
    SumAppend(Owing(r, s.reqs, g), s.threads, AtGate);
  }

  lemma BalancedLister(s: State, step: Step, r: Right, g: nat)
    requires RefsOk(s) && BalancedFor(s, r, g) && Enabled(s, step) && !step.Run? && !step.Arrive?
    ensures BalancedFor(Do(s, step), r, g)
  {
    if step.EndList? {
      OwingRestful(r, s.reqs, g);
      SumEndList(Owing(r, s.reqs, g), s.threads);
    }
  }

  lemma BalancedStep(s: State, step: Step)
    requires Ordered(s) && RefsOk(s) && Balanced(s) && Enabled(s, step)
    ensures Balanced(Do(s, step))
  {
    forall r, g: nat ensures BalancedFor(Do(s, step), r, g) {
      assert BalancedFor(s, r, g);
      match step
      case Run(n) => BalancedRun(s, n, r, g);
      case Arrive => BalancedArrive(s, r, g);
      case _ => BalancedLister(s, step, r, g);
    }
  }

  // Every run

  ghost predicate Inv(s: State) {
    Ordered(s) && Counted(s) && ReadsAfterWrites(s) && Drained(s) && Awaited(s) && RefsOk(s) && Balanced(s)
  }

  lemma InvStart(initial: bool, reqs: seq<Kind>)
    requires KernelOrder(initial, reqs)
    ensures Inv(Start(initial, reqs))
  {
  }

  lemma InvStep(s: State, step: Step)
    requires Inv(s) && Enabled(s, step)
    ensures Inv(Do(s, step))
  {
    OrderedStep(s, step);
    CountedStep(s, step);
    ReadsStep(s, step);
    DrainedStep(s, step);
    AwaitedStep(s, step);
    RefsStep(s, step);
    BalancedStep(s, step);
  }

  /** The steps can be made one after the other from `s`. */
  predicate Possible(s: State, steps: seq<Step>)
    decreases |steps|
  {
    |steps| == 0 || (Shape(s) && Enabled(s, steps[0]) && Possible(Do(s, steps[0]), steps[1..]))
  }

  function Final(s: State, steps: seq<Step>): State
    requires Possible(s, steps)
    decreases |steps|
  {
    if |steps| == 0 then s else Final(Do(s, steps[0]), steps[1..])
  }

  lemma {:induction false} InvRun(s: State, steps: seq<Step>)
    requires Inv(s) && Possible(s, steps)
    ensures Inv(Final(s, steps)) && Final(s, steps).reqs == s.reqs
    decreases |steps|
  {
    if |steps| > 0 {
      InvStep(s, steps[0]);
      InvRun(Do(s, steps[0]), steps[1..]);
    }
  }

  /** Both kinds of object keep the invariant in every state of every run. */
  lemma EveryRun(initial: bool, reqs: seq<Kind>, steps: seq<Step>)
    requires KernelOrder(initial, reqs) && Possible(Start(initial, reqs), steps)
    ensures Inv(Final(Start(initial, reqs), steps)) && Final(Start(initial, reqs), steps).reqs == reqs
  {
    InvStart(initial, reqs);
    InvRun(Start(initial, reqs), steps);
  }

  /** In every run, a thread that has got through the gate finds every thread with a smaller
      number past its increment, and a data_request reads only once every data_write with a
      smaller number has finished. */
  lemma NoStaleReads(initial: bool, reqs: seq<Kind>, steps: seq<Step>, m: nat, n: nat)
    requires KernelOrder(initial, reqs) && Possible(Start(initial, reqs), steps)
    requires m < n < |Final(Start(initial, reqs), steps).threads|
    ensures var t := Final(Start(initial, reqs), steps).threads;
            && |t| <= |reqs|
            && (!Before(t[n]) ==> After(t[m]))
            && (reqs[n].DataRequest? && After(t[n]) && reqs[m].DataWrite? ==> Finished(t[m]))
  {
    EveryRun(initial, reqs, steps);
    var s := Final(Start(initial, reqs), steps);
    assert Placed(s.reqs[m], m, s.threads[m], s.sh.seqno);
    assert Placed(s.reqs[n], n, s.threads[n], s.sh.seqno);
  }

  /** Two data_writes with a data_request between them never overlap: the first has finished
      before the second gets through the gate. Where the kernel asks for a page before it writes
      that page again, the writes of one page are made in the order they were sent. */
  lemma WritesInOrder(initial: bool, reqs: seq<Kind>, steps: seq<Step>, m: nat, r: nat, n: nat)
    requires KernelOrder(initial, reqs) && Possible(Start(initial, reqs), steps)
    requires m < r < n < |Final(Start(initial, reqs), steps).threads| && n < |reqs|
    requires reqs[m].DataWrite? && reqs[r].DataRequest?
    ensures var t := Final(Start(initial, reqs), steps).threads;
            !Before(t[n]) ==> Finished(t[m])
  {
    NoStaleReads(initial, reqs, steps, r, n);
    NoStaleReads(initial, reqs, steps, m, r);
  }

  lemma OnlyCleanUp(kind: Kind, n: nat, pc: Pc, sh: Shared)
    requires Runnable(pc) && Handle(kind, n, pc, sh).pc.PassedWith?
    ensures pc.WaitRefs? && sh.nameRefs != 0
  {
  }

  lemma NoneActive(s: State, m: nat)
    requires Ordered(s) && Counted(s) && s.sh.readers == 0 && s.sh.writers == 0 && m < |s.threads|
    ensures !Reads(s.reqs[m], s.threads[m]) && !Writes(s.reqs[m], s.threads[m])
  {
    SumAtLeast(Reading(s.reqs), s.threads, m);
    NoneWriting(s, m);
  }

  /** When a terminate cleans up, no thread reads or writes and the name has references, although
      it waited for the three one after the other with the lock dropped between. */
  lemma CleanUp(s: State, n: nat)
    requires Inv(s) && Enabled(s, Run(n)) && Handle(s.reqs[n], n, s.threads[n], s.sh).pc.PassedWith?
    ensures s.sh.readers == 0 && s.sh.writers == 0 && s.sh.nameRefs > 0
    ensures forall m | 0 <= m < |s.threads| :: !Reads(s.reqs[m], s.threads[m]) && !Writes(s.reqs[m], s.threads[m])
  {
    OnlyCleanUp(s.reqs[n], n, s.threads[n], s.sh);
    assert Waited(s.reqs[n], s.threads[n], s.sh);
    forall m | 0 <= m < |s.threads| ensures !Reads(s.reqs[m], s.threads[m]) && !Writes(s.reqs[m], s.threads[m]) {
      NoneActive(s, m);
    }
  }

  lemma OwingNatural(s: State, r: Right, g: nat)
    requires Ordered(s)
    ensures forall m | 0 <= m < |s.threads| :: Owing(r, s.reqs, g)(m, s.threads[m]) >= 0
  {
    forall m | 0 <= m < |s.threads| ensures Owing(r, s.reqs, g)(m, s.threads[m]) >= 0 {
      assert Placed(s.reqs[m], m, s.threads[m], s.sh.seqno);
    }
  }

  lemma OwnNatural(s: State, r: Right, g: nat)
    requires Ordered(s)
    ensures Own(r, s, g) >= 0
  {
  }

  lemma OwesHeld(s: State, n: nat, r: Right)
    requires Ordered(s) && n < |s.threads| && BalancedFor(s, r, Ports(s.reqs, n + 1))
    ensures 0 <= Owes(r, s.reqs[n], s.threads[n]) <= Held(r, s, Ports(s.reqs, n + 1))
  {
    var g := Ports(s.reqs, n + 1);
    OwingNatural(s, r, g);
    OwnNatural(s, r, g);
    SumAtLeast(Owing(r, s.reqs, g), s.threads, n);
  }

  lemma DropsOwed(kind: Kind, n: nat, pc: Pc, sh: Shared)
    requires Runnable(pc) && PcOk(kind, pc)
    ensures 0 <= Handle(kind, n, pc, sh).drop <= Owes(Request, kind, pc)
    ensures 0 <= Handle(kind, n, pc, sh).dropNames <= Owes(Name, kind, pc)
  {
  }

  /** No handler panics: the kernel always has the references a step gives back, an init finds
      the object without ports, and any other request finds the ports it was sent for. */
  lemma NoPanic(s: State, n: nat)
    requires Inv(s) && Enabled(s, Run(n))
    ensures var o := Handle(s.reqs[n], n, s.threads[n], s.sh);
            && 0 <= o.drop <= Ref(s.held, Ports(s.reqs, n + 1))
            && 0 <= o.dropNames <= Ref(s.names, Ports(s.reqs, n + 1))
    ensures n == s.sh.seqno ==> (s.reqs[n].Init? <==> !s.sh.active)
    ensures n == s.sh.seqno && s.sh.active ==> Ports(s.reqs, n + 1) == Ports(s.reqs, s.sh.seqno)
  {
    assert Placed(s.reqs[n], n, s.threads[n], s.sh.seqno);
    assert InOrder(s.initial, s.reqs, n);
    DropsOwed(s.reqs[n], n, s.threads[n], s.sh);
    OwesHeld(s, n, Request);
    OwesHeld(s, n, Name);
  }

  lemma {:induction false} PortsGrow(reqs: seq<Kind>, m: nat, n: nat)
    requires m <= n <= |reqs|
    ensures Ports(reqs, m) <= Ports(reqs, n)
    decreases n - m
  {
    if m < n {
      PortsGrow(reqs, m, n - 1);
    }
  }

  /** Ports end with their terminate: every later message is about later ports. */
  lemma NewPorts(initial: bool, reqs: seq<Kind>, n: nat, m: nat)
    requires KernelOrder(initial, reqs) && n < m < |reqs| && reqs[n].Terminate?
    ensures Ports(reqs, n + 1) < Ports(reqs, m + 1)
  {
    assert !ActiveAfter(initial, reqs, n + 1);
    assert InOrder(initial, reqs, n + 1);
    PortsGrow(reqs, n + 2, m + 1);
  }

  lemma NothingOwed(r: Right, kind: Kind, n: nat, pc: Pc, seqno: nat)
    requires Placed(kind, n, pc, seqno) && n < seqno && (kind.Terminate? ==> pc.Done?)
    ensures Owes(r, kind, pc) == 0
  {
  }

  lemma NoneOwing(s: State, n: nat, m: nat, r: Right)
    requires Ordered(s) && KernelOrder(s.initial, s.reqs) && n < |s.threads| && m < |s.threads|
    requires s.reqs[n].Terminate? && s.threads[n].Done?
    ensures Ports(s.reqs, m + 1) == Ports(s.reqs, n + 1) ==> Owes(r, s.reqs[m], s.threads[m]) == 0
  {
    assert Placed(s.reqs[n], n, s.threads[n], s.sh.seqno);
    assert Placed(s.reqs[m], m, s.threads[m], s.sh.seqno);
    if m > n {
      NewPorts(s.initial, s.reqs, n, m);
    } else if m < n && s.reqs[m].Terminate? {
      NewPorts(s.initial, s.reqs, m, n);
    } else {
      NothingOwed(r, s.reqs[m], m, s.threads[m], s.sh.seqno);
    }
  }

  lemma NoSumOwing(s: State, n: nat, r: Right)
    requires Ordered(s) && KernelOrder(s.initial, s.reqs) && n < |s.threads|
    requires s.reqs[n].Terminate? && s.threads[n].Done?
    ensures Sum(Owing(r, s.reqs, Ports(s.reqs, n + 1)), s.threads) == 0
  {
    var w := Owing(r, s.reqs, Ports(s.reqs, n + 1));
    if Sum(w, s.threads) != 0 {
      SumSome(w, s.threads);
      var m :| 0 <= m < |s.threads| && w(m, s.threads[m]) != 0;
      NoneOwing(s, n, m, r);
    }
  }

  lemma NoOwn(s: State, n: nat, r: Right)
    requires Ordered(s) && RefsOk(s) && n < s.sh.seqno && s.reqs[n].Terminate?
    ensures Own(r, s, Ports(s.reqs, n + 1)) == 0
  {
    if s.sh.seqno > n + 1 {
      NewPorts(s.initial, s.reqs, n, s.sh.seqno - 1);
    }
  }

  /** Terminate drops exactly the references held: none is left for its ports, ever after. */
  lemma NothingHeld(s: State, n: nat, r: Right)
    requires Inv(s) && n < |s.threads| && s.reqs[n].Terminate? && s.threads[n].Done?
    ensures Held(r, s, Ports(s.reqs, n + 1)) == 0
  {
    assert Placed(s.reqs[n], n, s.threads[n], s.sh.seqno);
    NoSumOwing(s, n, r);
    NoOwn(s, n, r);
    assert BalancedFor(s, r, Ports(s.reqs, n + 1));
  }

  // Progress

  /** Nothing can happen but the arrival of a message or of a new listing. */
  predicate Quiet(s: State) {
    s.lister.Idle? && forall n | 0 <= n < |s.threads| :: !Runnable(s.threads[n])
  }

  lemma NoneWorking(s: State)
    requires Ordered(s) && Counted(s) && Quiet(s)
    ensures s.sh.readers == 0 && s.sh.writers == 0
  {
    if s.sh.readers != 0 {
      SumSome(Reading(s.reqs), s.threads);
    }
    if s.sh.writers != 0 {
      SumSome(Writing(s.reqs), s.threads);
    }
  }

  lemma NotQuiet(s: State, n: nat, c: Condition)
    requires Awaited(s) && n < |s.threads| && Overdue(s.threads[n], n, s.sh, c)
    ensures !Quiet(s)
  {
    assert Pending(s.threads, c);
  }

  /** While the request whose turn it is has not finished, some step is enabled. */
  lemma TurnEnabled(s: State)
    requires Inv(s) && s.sh.seqno < |s.threads|
    ensures !Quiet(s)
  {
    var n := s.sh.seqno;
    if Quiet(s) {
      NoneWorking(s);
      assert Placed(s.reqs[n], n, s.threads[n], n);
      var c := match s.threads[n] case AsleepReaders => Readers case AsleepWriters => Writers case _ => Seqno;
      NotQuiet(s, n, c);
    }
  }

  /** There is no deadlock: when nothing can happen every request received is done. */
  lemma QuietIsDone(s: State)
    requires Inv(s) && Quiet(s)
    ensures forall n | 0 <= n < |s.threads| :: s.threads[n].Done?
  {
    if s.sh.seqno < |s.threads| {
      TurnEnabled(s);
    }
    forall n | 0 <= n < |s.threads| ensures s.threads[n].Done? {
      assert Placed(s.reqs[n], n, s.threads[n], s.sh.seqno);
    }
  }

  /** How far a thread is from done; falling asleep and waking up make no difference. */
  function Distance(pc: Pc): nat {
    match pc
    case AtGate => 9 case AsleepSeqno => 9
    case Excess(_) => 8
    case Checked => 7
    case WaitReaders => 7 case AsleepReaders => 7
    case WaitWriters => 6 case AsleepWriters => 6
    case WaitRefs => 5 case AsleepRefs => 5
    case Passed => 4 case PassedWith(_, _) => 4
    case Working => 3 case Dropping(_, _) => 3
    case WakeReaders => 2 case WakeWriters => 2
    case Done => 0
  }

  function Distances(): (nat, Pc) -> int {
    (n, pc) => Distance(pc)
  }

  function Awake(): (nat, Pc) -> int {
    (n, pc) => One(!Asleep(pc))
  }

  function ListerLeft(lister: Lister): nat {
    match lister case Idle => 0 case Window => 2 case Granted => 1
  }

  /** Each step of work takes at least one off the distance; falling asleep takes one thread
      off those awake, of which there are never more than threads. */
  function Measure(s: State): int {
    Weigh(Sum(Distances(), s.threads) + ListerLeft(s.lister), |s.threads|, Sum(Awake(), s.threads))
  }

  function Weigh(d: int, k: nat, a: int): int {
    d * (k + 1) + a
  }

  lemma DistancesRestful()
    ensures Restful(Distances())
  {
  }

  lemma HandleNearer(kind: Kind, n: nat, pc: Pc, sh: Shared)
    requires Runnable(pc)
    ensures var o := Handle(kind, n, pc, sh);
            || Distance(o.pc) < Distance(pc)
            || (Distance(o.pc) == Distance(pc) && o.wake.Nothing? && Asleep(o.pc))
  {
  }

  lemma {:induction false} AwakeBound(t: seq<Pc>)
    ensures 0 <= Sum(Awake(), t) <= |t|
  {
    if |t| > 0 {
      AwakeBound(t[..|t| - 1]);
    }
  }

  lemma {:induction false} DistanceNatural(t: seq<Pc>)
    ensures Sum(Distances(), t) >= 0
  {
    if |t| > 0 {
      DistanceNatural(t[..|t| - 1]);
    }
  }

  lemma Smaller(d: int, e: int, k: nat, a: int, b: int)
    requires d < e && 0 <= a <= k && 0 <= b <= k
    ensures Weigh(d, k, a) < Weigh(e, k, b)
  {
    assert e * (k + 1) >= (d + 1) * (k + 1);
  }

  predicate Internal(step: Step) {
    step.Run? || step.Grant? || step.EndList?
  }

  lemma WorkMeasure(s: State, n: nat, o: Outcome)
    requires Shape(s) && n < |s.threads| && Distance(o.pc) < Distance(s.threads[n])
    ensures Measure(Apply(s, n, o)) < Measure(s)
  {
    var t := Apply(s, n, o);
    DistancesRestful();
    ApplySum(Distances(), s, n, o);
    AwakeBound(s.threads);
    AwakeBound(t.threads);
    var l := ListerLeft(s.lister);
    Smaller(Sum(Distances(), t.threads) + l, Sum(Distances(), s.threads) + l, |s.threads|,
            Sum(Awake(), t.threads), Sum(Awake(), s.threads));
  }

  lemma SleepMeasure(s: State, n: nat, o: Outcome)
    requires Shape(s) && n < |s.threads| && Distance(o.pc) == Distance(s.threads[n])
    requires o.wake.Nothing? && !Asleep(s.threads[n]) && Asleep(o.pc)
    ensures Measure(Apply(s, n, o)) < Measure(s)
  {
    DistancesRestful();
    ApplySum(Distances(), s, n, o);
    assert Broadcast(s.threads, Nothing) == s.threads;
    SumMove(Awake(), s.threads, Apply(s, n, o).threads, n);
  }

  lemma ListerMeasure(s: State, step: Step)
    requires Shape(s) && (step.Grant? || step.EndList?) && Enabled(s, step)
    ensures Measure(Do(s, step)) < Measure(s)
  {
    var t := Do(s, step);
    if step.EndList? {
      DistancesRestful();
      SumEndList(Distances(), s.threads);
    }
    AwakeBound(s.threads);
    AwakeBound(t.threads);
    Smaller(Sum(Distances(), t.threads) + ListerLeft(t.lister), Sum(Distances(), s.threads) + ListerLeft(s.lister),
            |s.threads|, Sum(Awake(), t.threads), Sum(Awake(), s.threads));
  }

  lemma MeasureStep(s: State, step: Step)
    requires Shape(s) && Enabled(s, step) && Internal(step)
    ensures Measure(Do(s, step)) < Measure(s)
  {
    if step.Run? {
      var n := step.n;
      var o := Handle(s.reqs[n], n, s.threads[n], s.sh);
      HandleNearer(s.reqs[n], n, s.threads[n], s.sh);
      if Distance(o.pc) < Distance(s.threads[n]) {
        WorkMeasure(s, n, o);
      } else {
        SleepMeasure(s, n, o);
      }
    } else {
      ListerMeasure(s, step);
    }
  }

  lemma MeasureNatural(s: State)
    ensures Measure(s) >= 0
  {
    AwakeBound(s.threads);
    DistanceNatural(s.threads);
  }

  lemma {:induction false} RunBounded(s: State, steps: seq<Step>)
    requires Possible(s, steps) && forall i | 0 <= i < |steps| :: Internal(steps[i])
    ensures |steps| <= Measure(s)
    decreases |steps|
  {
    if |steps| == 0 {
      MeasureNatural(s);
    } else {
      MeasureStep(s, steps[0]);
      RunBounded(Do(s, steps[0]), steps[1..]);
    }
  }

  /** Without new messages and listings a run cannot go on for ever, and it ends only when every
      request received is done: until then some step is possible. */
  lemma EveryRequestCompletes(s: State, steps: seq<Step>)
    requires Inv(s) && Possible(s, steps) && forall i | 0 <= i < |steps| :: Internal(steps[i])
    ensures |steps| <= Measure(s)
    ensures var t := Final(s, steps);
            || (exists step :: Internal(step) && Enabled(t, step))
            || (forall n | 0 <= n < |t.threads| :: t.threads[n].Done?)
  {
    RunBounded(s, steps);
    InvRun(s, steps);
    if Quiet(Final(s, steps)) {
      QuietIsDone(Final(s, steps));
    } else {
      StepPossible(Final(s, steps));
    }
  }

  lemma StepPossible(s: State)
    requires !Quiet(s)
    ensures exists step :: Internal(step) && Enabled(s, step)
  {
    if s.lister.Idle? {
      var n :| 0 <= n < |s.threads| && Runnable(s.threads[n]);
      assert Enabled(s, Run(n));
    } else {
      var step := if s.lister.Window? then Grant else EndList;
      assert Internal(step) && Enabled(s, step);
    }
  }
}
