/** The slots that limit how many C threads receive on one port (cthread_mach_msg,
    cthread_msg_active and cthread_msg_busy). A step is one critical section of a port entry's
    lock; a thread's `busy` field is read and written by that thread only. */
module PortSlots {

  import opened Sums
  import opened FreeLists

  datatype Option<T> = None | Some(value: T)

  /** A port's entry, with the limits fixed when it is made. */
  datatype Entry = Entry(min: int, max: int, held: int, queue: seq<nat>) {
    /** What is held at least while a thread waits. */
    function Least(): int {
      if min < max then min else max
    }

    /** What is held at most. */
    function Most(): int {
      if max > 0 then max else 0
    }
  }

  /** Out of the calls, sending before it receives, on an entry's queue, or taken off it with
      the slot of another thread and not yet running. */
  datatype At = Out | Sending(e: nat) | Waiting(e: nat) | Handed(e: nat)

  datatype Thread = Thread(busy: Option<nat>, at: At)

  datatype State = State(entries: seq<Entry>, threads: seq<Thread>)

  datatype Step =
    | Busy(p: nat, e: nat)
    | Active(p: nat, e: nat)
    | Receive(p: nat, e: nat, sends: bool) // cthread_mach_msg, its thread not busy with another port
    | Sent(p: nat, ok: bool)
    | Run(p: nat)

  /** The calls a thread makes: cthread_msg_busy on the port it is busy with, and before it
      receives on another port. */
  predicate Enabled(s: State, step: Step) {
    && step.p < |s.threads|
    && match step
       case Busy(p, e) => e < |s.entries| && s.threads[p].at.Out?
       case Active(p, e) => e < |s.entries| && s.threads[p].at.Out?
       case Receive(p, e, _) =>
         e < |s.entries| && s.threads[p].at.Out? && (s.threads[p].busy.None? || s.threads[p].busy.value == e)
       case Sent(p, _) => s.threads[p].at.Sending? && s.threads[p].at.e < |s.entries|
       case Run(p) => s.threads[p].at.Handed?
  }

  function Put(s: State, e: nat, entry: Entry, p: nat, thread: Thread): State
    requires e < |s.entries| && p < |s.threads|
  {
    State(s.entries[e := entry], s.threads[p := thread])
  }

  /** cthread_msg_busy: the slot is given up, or handed to a waiting thread when no more than
      the minimum are held. */
  function DoBusy(s: State, p: nat, e: nat): State
    requires p < |s.threads| && e < |s.entries|
  {
    var t, en := s.threads[p], s.entries[e];
    if t.busy.None? then s
    else if en.held <= en.min && |en.queue| > 0 then
      var u := Put(s, e, en.(queue := en.queue[1..]), p, t.(busy := None));
      if en.queue[0] < |s.threads| then
        u.(threads := u.threads[en.queue[0] := u.threads[en.queue[0]].(at := Handed(e))])
      else u
    else Put(s, e, en.(held := en.held - 1), p, t.(busy := None))
  }

  /** A slot if there is one; otherwise the thread goes where it is told. */
  function Get(s: State, p: nat, e: nat, full: At): State
    requires p < |s.threads| && e < |s.entries|
  {
    var en := s.entries[e];
    if en.held >= en.max then
      Put(s, e, if full.Waiting? then en.(queue := [p] + en.queue) else en, p, s.threads[p].(at := full))
    else Put(s, e, en.(held := en.held + 1), p, Thread(Some(e), Out))
  }

  function Do(s: State, step: Step): State
    requires Enabled(s, step)
  {
    match step
    case Busy(p, e) => DoBusy(s, p, e)
    case Active(p, e) => if s.threads[p].busy.None? then Get(s, p, e, Out) else s
    case Receive(p, e, sends) =>
      if s.threads[p].busy == Some(e) then s else Get(s, p, e, if sends then Sending(e) else Waiting(e))
    case Sent(p, ok) =>
      if ok then Get(s, p, s.threads[p].at.e, Waiting(s.threads[p].at.e))
      else s.(threads := s.threads[p := s.threads[p].(at := Out)])
    case Run(p) => s.(threads := s.threads[p := Thread(Some(s.threads[p].at.e), Out)])
  }

  // The invariant

  /** The slots of entry `e` that a thread has: it is busy with it, or has been handed one. */
  function Has(e: nat): (nat, Thread) -> int {
    (n: nat, t: Thread) => One(t.busy == Some(e)) + One(t.at == Handed(e))
  }

  /** A thread inside a call is not busy. */
  predicate Fit(t: Thread) {
    t.at.Out? || t.busy.None?
  }

  ghost predicate QueueTrue(s: State, e: nat, q: seq<nat>) {
    NoDup(q) && forall p: nat :: p in q <==> p < |s.threads| && s.threads[p].at == Waiting(e)
  }

  /** The held slots are the threads' slots, within the limit; threads wait only while at least
      the minimum, or the maximum if that is less, is held. */
  ghost predicate EntryTrue(s: State, e: nat)
    requires e < |s.entries|
  {
    var en := s.entries[e];
    && en.held == Sum(Has(e), s.threads)
    && 0 <= en.held <= en.Most()
    && (|en.queue| > 0 ==> en.held >= en.Least())
    && QueueTrue(s, e, en.queue)
  }

  ghost predicate Inv(s: State) {
    && (forall p | 0 <= p < |s.threads| :: Fit(s.threads[p]))
    && (forall e | 0 <= e < |s.entries| :: EntryTrue(s, e))
  }

  // What one thread's change does to an entry

  lemma SumSet(s: State, p: nat, t: Thread, e: nat)
    requires p < |s.threads|
    ensures Sum(Has(e), s.threads[p := t]) == Sum(Has(e), s.threads) - Has(e)(p, s.threads[p]) + Has(e)(p, t)
  {
    SumMove(Has(e), s.threads, s.threads[p := t], p);
  }

  /** An entry that a thread had nothing to do with, and has not now. */
  lemma Untouched(s: State, u: State, p: nat, e: nat)
    requires |u.entries| == |s.entries| && e < |s.entries| && u.entries[e] == s.entries[e] && EntryTrue(s, e)
    requires p < |s.threads| == |u.threads| && u.threads == s.threads[p := u.threads[p]]
    requires Has(e)(p, u.threads[p]) == Has(e)(p, s.threads[p])
    requires (u.threads[p].at == Waiting(e)) == (s.threads[p].at == Waiting(e))
    ensures EntryTrue(u, e)
  {
    SumSet(s, p, u.threads[p], e);
    forall c: nat ensures c in s.entries[e].queue <==> c < |u.threads| && u.threads[c].at == Waiting(e) {
      assert c in s.entries[e].queue <==> c < |s.threads| && s.threads[c].at == Waiting(e);
    }
  }

  /** The number held is changed with the thread's slots, and the queue is left alone. */
  lemma Recounted(s: State, u: State, p: nat, e: nat)
    requires |u.entries| == |s.entries| && e < |s.entries| && EntryTrue(s, e)
    requires u.entries[e] == s.entries[e].(held := u.entries[e].held)
    requires 0 <= u.entries[e].held <= s.entries[e].Most()
    requires |s.entries[e].queue| > 0 ==> u.entries[e].held >= s.entries[e].Least()
    requires p < |s.threads| == |u.threads| && u.threads == s.threads[p := u.threads[p]]
    requires u.entries[e].held - s.entries[e].held == Has(e)(p, u.threads[p]) - Has(e)(p, s.threads[p])
    requires !u.threads[p].at.Waiting? && !s.threads[p].at.Waiting?
    ensures EntryTrue(u, e)
  {
    SumSet(s, p, u.threads[p], e);
    forall c: nat ensures c in s.entries[e].queue <==> c < |u.threads| && u.threads[c].at == Waiting(e) {
      assert c in s.entries[e].queue <==> c < |s.threads| && s.threads[c].at == Waiting(e);
    }
  }

  /** A thread without slots joins the queue of a full entry. */
  lemma Joined(s: State, u: State, p: nat, e: nat)
    requires |u.entries| == |s.entries| && e < |s.entries| && EntryTrue(s, e)
    requires s.entries[e].held >= s.entries[e].max
    requires u.entries[e] == s.entries[e].(queue := [p] + s.entries[e].queue)
    requires p < |s.threads| && u.threads == s.threads[p := Thread(None, Waiting(e))]
    requires s.threads[p].busy.None? && (s.threads[p].at.Out? || s.threads[p].at.Sending?)
    ensures EntryTrue(u, e)
  {
    SumSet(s, p, u.threads[p], e);
    var q := s.entries[e].queue;
    forall c: nat ensures c in [p] + q <==> c < |u.threads| && u.threads[c].at == Waiting(e) {
      assert c in q <==> c < |s.threads| && s.threads[c].at == Waiting(e);
    }
    assert p !in q;
  }

  lemma GetKeeps(s: State, p: nat, e: nat, full: At)
    requires Inv(s) && p < |s.threads| && e < |s.entries|
    requires s.threads[p].busy.None? && (s.threads[p].at.Out? || s.threads[p].at.Sending?)
    requires full.Out? || full == Sending(e) || full == Waiting(e)
    ensures Inv(Get(s, p, e, full))
  {
    var u := Get(s, p, e, full);
    forall f | 0 <= f < |u.entries| ensures EntryTrue(u, f) {
      assert EntryTrue(s, f);
      if f != e {
        Untouched(s, u, p, f);
      } else if s.entries[e].held >= s.entries[e].max && full.Waiting? {
        assert u.threads[p] == Thread(None, Waiting(e));
        Joined(s, u, p, e);
      } else {
        Recounted(s, u, p, e);
      }
    }
  }

  lemma HasNatural(s: State, p: nat, e: nat)
    requires p < |s.threads|
    ensures Sum(Has(e), s.threads) >= Has(e)(p, s.threads[p])
  {
    SumAtLeast(Has(e), s.threads, p);
  }

  /** The slot of `p` goes to the first thread on the queue, `c`. */
  lemma HandedOver(s: State, p: nat, c: nat, e: nat, f: nat)
    requires p < |s.threads| && c < |s.threads| && e < |s.entries| && f < |s.entries| && EntryTrue(s, f)
    requires s.threads[p] == Thread(Some(e), Out) && s.threads[c] == Thread(None, Waiting(e))
    requires |s.entries[e].queue| > 0 && s.entries[e].queue[0] == c
    ensures var u := State(s.entries[e := s.entries[e].(queue := s.entries[e].queue[1..])],
                           s.threads[p := Thread(None, Out)][c := Thread(None, Handed(e))]);
            EntryTrue(u, f)
  {
    var v := State(s.entries, s.threads[p := Thread(None, Out)]);
    SumSet(s, p, Thread(None, Out), f);
    SumSet(v, c, Thread(None, Handed(e)), f);
    var u := State(s.entries[e := s.entries[e].(queue := s.entries[e].queue[1..])],
                   v.threads[c := Thread(None, Handed(e))]);
    assert u.entries[f].held == Sum(Has(f), u.threads);
    QueueLeft(s, u, p, c, e, f);
  }

  lemma QueueLeft(s: State, u: State, p: nat, c: nat, e: nat, f: nat)
    requires p < |s.threads| && c < |s.threads| && e < |s.entries| && f < |s.entries|
    requires QueueTrue(s, f, s.entries[f].queue)
    requires s.threads[p] == Thread(Some(e), Out) && s.threads[c] == Thread(None, Waiting(e))
    requires |s.entries[e].queue| > 0 && s.entries[e].queue[0] == c
    requires u.entries == s.entries[e := s.entries[e].(queue := s.entries[e].queue[1..])]
    requires u.threads == s.threads[p := Thread(None, Out)][c := Thread(None, Handed(e))]
    ensures QueueTrue(u, f, u.entries[f].queue)
  {
    var q := s.entries[f].queue;
    forall n: nat ensures n in u.entries[f].queue <==> n < |u.threads| && u.threads[n].at == Waiting(f) {
      assert n in q <==> n < |s.threads| && s.threads[n].at == Waiting(f);
      assert f == e ==> (n in q[1..] <==> n in q && n != c);
    }
  }

  lemma BusyKeeps(s: State, p: nat, e: nat)
    requires Inv(s) && p < |s.threads| && e < |s.entries| && s.threads[p] == Thread(Some(e), Out)
    ensures Inv(DoBusy(s, p, e))
  {
    var u, en := DoBusy(s, p, e), s.entries[e];
    assert EntryTrue(s, e);
    HasNatural(s, p, e);
    if en.held <= en.min && |en.queue| > 0 {
      var c := en.queue[0];
      assert c in en.queue;
      assert Fit(s.threads[c]);
      forall f | 0 <= f < |u.entries| ensures EntryTrue(u, f) {
        assert EntryTrue(s, f);
        HandedOver(s, p, c, e, f);
      }
    } else {
      forall f | 0 <= f < |u.entries| ensures EntryTrue(u, f) {
        assert EntryTrue(s, f);
        if f == e {
          Recounted(s, u, p, e);
        } else {
          Untouched(s, u, p, f);
        }
      }
    }
  }

  /** cthread_msg_busy keeps the slots straight if and only if it is called for the port that
      the thread is busy with: nothing in it looks at which port that is. */
  lemma BusyExact(s: State, p: nat, e: nat)
    requires Inv(s) && p < |s.threads| && e < |s.entries| && s.threads[p].at.Out?
    requires s.threads[p].busy.Some? && s.threads[p].busy.value < |s.entries|
    ensures Inv(DoBusy(s, p, e)) <==> s.threads[p].busy.value == e
  {
    var b := s.threads[p].busy.value;
    if b == e {
      BusyKeeps(s, p, e);
    } else {
      SlotLost(s, p, e);
      assert !EntryTrue(DoBusy(s, p, e), b);
    }
  }

  /** The slot of the port that the thread was busy with stays held by nobody. */
  lemma SlotLost(s: State, p: nat, e: nat)
    requires Inv(s) && p < |s.threads| && e < |s.entries| && s.threads[p].at.Out?
    requires s.threads[p].busy.Some? && s.threads[p].busy.value < |s.entries| && s.threads[p].busy.value != e
    ensures var b := s.threads[p].busy.value; var u := DoBusy(s, p, e);
            u.entries[b].held == Sum(Has(b), u.threads) + 1
  {
    var b, u, q := s.threads[p].busy.value, DoBusy(s, p, e), s.entries[e].queue;
    assert EntryTrue(s, b) && EntryTrue(s, e);
    SumSet(s, p, Thread(None, Out), b);
    if s.entries[e].held <= s.entries[e].min && |q| > 0 {
      assert q[0] in q;
      assert Fit(s.threads[q[0]]);
      SumSet(State(s.entries, s.threads[p := Thread(None, Out)]), q[0], Thread(None, Handed(e)), b);
    }
  }

  /** The thread makes its calls for the right port. */
  predicate Proper(s: State, step: Step) {
    Enabled(s, step) && (step.Busy? && s.threads[step.p].busy.Some? ==> s.threads[step.p].busy.value == step.e)
  }

  lemma RunKeeps(s: State, p: nat)
    requires Inv(s) && Enabled(s, Run(p))
    ensures Inv(Do(s, Run(p)))
  {
    var u := Do(s, Run(p));
    assert Fit(s.threads[p]);
    forall f | 0 <= f < |u.entries| ensures EntryTrue(u, f) {
      assert EntryTrue(s, f);
      Untouched(s, u, p, f);
    }
  }

  lemma SendFailed(s: State, p: nat)
    requires Inv(s) && Enabled(s, Sent(p, false))
    ensures Inv(Do(s, Sent(p, false)))
  {
    var u := Do(s, Sent(p, false));
    forall f | 0 <= f < |u.entries| ensures EntryTrue(u, f) {
      assert EntryTrue(s, f);
      Untouched(s, u, p, f);
    }
  }

  lemma InvStep(s: State, step: Step)
    requires Inv(s) && Proper(s, step)
    ensures Inv(Do(s, step))
  {
    var t := s.threads[step.p];
    assert Fit(t);
    match step
    case Busy(p, e) => if t.busy.Some? { BusyKeeps(s, p, e); }
    case Active(p, e) => if t.busy.None? { GetKeeps(s, p, e, Out); }
    case Receive(p, e, sends) => if t.busy.None? { GetKeeps(s, p, e, if sends then Sending(e) else Waiting(e)); }
    case Sent(p, ok) => if ok { GetKeeps(s, p, t.at.e, Waiting(t.at.e)); } else { SendFailed(s, p); }
    case Run(p) => RunKeeps(s, p);
  }

  predicate Possible(s: State, steps: seq<Step>)
    decreases |steps|
  {
    |steps| == 0 || (Proper(s, steps[0]) && Possible(Do(s, steps[0]), steps[1..]))
  }

  function Final(s: State, steps: seq<Step>): State
    requires Possible(s, steps)
    decreases |steps|
  {
    if |steps| == 0 then s else Final(Do(s, steps[0]), steps[1..])
  }

  /** Ports with no slots taken and threads outside. */
  predicate Fresh(s: State) {
    && (forall p | 0 <= p < |s.threads| :: s.threads[p] == Thread(None, Out))
    && (forall e | 0 <= e < |s.entries| :: s.entries[e].held == 0 && s.entries[e].queue == [])
  }

  lemma {:induction false} NoneHas(e: nat, t: seq<Thread>)
    requires forall p | 0 <= p < |t| :: t[p] == Thread(None, Out)
    ensures Sum(Has(e), t) == 0
  {
    if |t| > 0 {
      NoneHas(e, t[..|t| - 1]);
    }
  }

  lemma FreshInv(s: State)
    requires Fresh(s)
    ensures Inv(s)
  {
    forall e | 0 <= e < |s.entries| ensures EntryTrue(s, e) {
      NoneHas(e, s.threads);
    }
  }

  lemma {:induction false} InvRun(s: State, steps: seq<Step>)
    requires Inv(s) && Possible(s, steps)
    ensures Inv(Final(s, steps))
    decreases |steps|
  {
    if |steps| > 0 {
      InvStep(s, steps[0]);
      InvRun(Do(s, steps[0]), steps[1..]);
    }
  }

  /** In every run the slots held are those of the threads, never more than the maximum, and a
      thread is kept waiting only while at least the minimum is held, whatever the limits. */
  lemma SlotsConserved(s: State, steps: seq<Step>, e: nat)
    requires Fresh(s) && Possible(s, steps) && e < |Final(s, steps).entries|
    ensures var u := Final(s, steps);
            && u.entries[e].held == Sum(Has(e), u.threads)
            && 0 <= u.entries[e].held <= u.entries[e].Most()
            && forall p | 0 <= p < |u.threads| && u.threads[p].at == Waiting(e) ::
                 u.entries[e].held >= u.entries[e].Least()
  {
    FreshInv(s);
    InvRun(s, steps);
    var u := Final(s, steps);
    assert EntryTrue(u, e);
    forall p | 0 <= p < |u.threads| && u.threads[p].at == Waiting(e) ensures u.entries[e].held >= u.entries[e].Least() {
      assert p in u.entries[e].queue;
    }
  }

  /** A run after which a call for the wrong port leaves a slot with nobody: one thread, two
      ports, and a slot of the first. */
  lemma SlotCanBeLost()
    ensures exists s, steps, e: nat ::
              && Fresh(s) && Possible(s, steps) && Enabled(Final(s, steps), Busy(0, e))
              && Inv(Final(s, steps)) && !Inv(DoBusy(Final(s, steps), 0, e))
  {
    var port := Entry(1, 1, 0, []);
    var s := State([port, port], [Thread(None, Out)]);
    var steps := [Active(0, 0)];
    assert Possible(Do(s, steps[0]), steps[1..]);
    var t := Final(s, steps);
    assert t == State([port.(held := 1), port], [Thread(Some(0), Out)]);
    FreshInv(s);
    InvRun(s, steps);
    BusyExact(t, 0, 1);
    assert Enabled(t, Busy(0, 1));
  }

  // Who gets a slot

  /** The port that a step asks a slot of, for a thread that has none. */
  predicate Asks(s: State, step: Step, e: nat)
    requires Enabled(s, step)
  {
    && s.threads[step.p].busy.None?
    && match step
       case Active(_, f) => f == e
       case Receive(_, f, _) => f == e
       case Sent(p, ok) => ok && s.threads[p].at.e == e
       case _ => false
  }

  /** A thread that asks for a slot gets one if and only if fewer than the maximum are held, and a
      thread begins to wait only when it asks and they are not. */
  lemma SlotsGiven(s: State, step: Step, e: nat)
    requires Inv(s) && Enabled(s, step) && e < |s.entries|
    ensures var t, p := Do(s, step), step.p;
            && (Asks(s, step, e) ==>
                  && (t.threads[p].busy == Some(e) <==> s.entries[e].held < s.entries[e].max)
                  && t.entries[e].held == s.entries[e].held + One(t.threads[p].busy == Some(e)))
            && (forall q | 0 <= q < |s.threads| && t.threads[q].at == Waiting(e) && s.threads[q].at != Waiting(e) ::
                  q == p && Asks(s, step, e) && s.entries[e].held >= s.entries[e].max)
  {
    assert EntryTrue(s, e) && Fit(s.threads[step.p]);
  }

  /** A slot given up goes to the thread that has begun to wait last, if one waits and no more than
      the minimum are held; otherwise one less is held and no other thread moves. */
  lemma SlotGivenUp(s: State, p: nat, e: nat)
    requires Inv(s) && Enabled(s, Busy(p, e)) && s.threads[p].busy == Some(e)
    ensures var t, en := Do(s, Busy(p, e)), s.entries[e];
            && t.threads[p] == Thread(None, Out)
            && if en.queue != [] && en.held <= en.min then
                 && en.queue[0] < |s.threads| && t.threads[en.queue[0]] == Thread(None, Handed(e))
                 && t.entries[e] == en.(queue := en.queue[1..])
               else t.entries[e] == en.(held := en.held - 1) && t.threads == s.threads[p := Thread(None, Out)]
  {
    assert EntryTrue(s, e) && Fit(s.threads[p]);
    if s.entries[e].queue != [] {
      assert s.entries[e].queue[0] in s.entries[e].queue;
      assert Fit(s.threads[s.entries[e].queue[0]]);
    }
  }
}
