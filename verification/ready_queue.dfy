/** How the ready queue is served: who goes on it where, who is taken off it, and when an idle
    kernel thread is sent a wakeup message for what is on it.
 */
module ReadyQueue {

  import opened Sums
  import opened Scheduler
  import opened SchedulerRuns

  /** The kernel threads that wait for work, or are about to. */
  function Idle(s: State): int {
    Sum(Idler(), s.ctx)
  }

  /** A cproc woken goes behind those already ready, and one that is put back goes in front. */
  lemma QueuedInOrder(s: State, d: nat)
    requires Inv(s) && d < |s.ctx| && s.ctx[d].at.Ready2?
    ensures Enabled(s, Run(d))
    ensures var c := s.ctx[d].at.next;
            Do(s, Run(d)).ready == if s.ctx[d].at.preq then [c] + s.ready else s.ready + [c]
  {
    assert Holds(s.ctx, d);
  }

  /** Both a cproc that blocks and a kernel thread that has a message take the first ready cproc. */
  lemma FirstServed(s: State, d: nat)
    requires Inv(s) && d < |s.ctx| && (s.ctx[d].at.Block1? || s.ctx[d].at.Idle2?)
    ensures Enabled(s, Run(d))
    ensures var t := Do(s, Run(d));
            if s.ready == [] then t.ready == [] && (t.ctx[d].at.Block3? || t.ctx[d].at.Idle1?)
            else t.ready == s.ready[1..] && HasTarget(t.ctx[d].at) && Target(t.ctx[d].at) == s.ready[0]
  {
    assert Fit(s.ctx[d]);
    if s.ready != [] {
      assert s.ready[0] in s.ready;
      assert IsOn(s.ctx, s.ready[0], OnReady);
    }
  }

  /** A cproc that was taken to be run, by one that then need not block, is put back in front. */
  lemma PutBackInFront(s: State, d: nat)
    requires Inv(s) && d < |s.ctx| && s.ctx[d].at.Block2? && s.ctx[d].state.Running? && Enabled(s, Run(d))
    ensures Do(s, Run(d)).ctx[d].at == Ready1(s.ctx[d].at.next, InUser, true)
  {
    assert Holds(s.ctx, d);
  }

  /** One that is signalled, or new, goes behind. */
  lemma WokenGoesBehind(s: State, step: Step)
    requires Inv(s) && Enabled(s, step) && (step.Signal? || step.Create?)
    ensures var at := Do(s, step).ctx[step.d].at;
            at.Ready1? && !at.preq && at.next == if step.Signal? then step.c else |s.ctx|
  {
  }

  /** A cproc that yields goes behind all that are ready and gives way to the first of them; with
      none ready nothing changes. */
  lemma YieldsToFirst(s: State, d: nat)
    requires Inv(s) && Enabled(s, Yield(d))
    ensures var t := Do(s, Yield(d));
            if s.ready == [] then t.ctx == s.ctx && t.ready == []
            else t.ready == s.ready[1..] + [d] && t.ctx[d].at == Switch1(s.ready[0])
  {
    assert Fit(s.ctx[d]);
    if s.ready != [] {
      assert s.ready[0] in s.ready;
      assert IsOn(s.ctx, s.ready[0], OnReady);
    }
  }

  /** A kernel thread with nothing to run gets the first stack that is free, or a new one. */
  lemma WaiterFound(s: State, d: nat)
    requires Inv(s) && d < |s.ctx| && s.ctx[d].at.Block3?
    ensures Enabled(s, Run(d))
    ensures var t := Do(s, Run(d));
            if s.waiters == [] then t.waiters == [] && |t.ctx| == |s.ctx| + 1 && t.ctx[d].at == Block4(|s.ctx|)
            else t.waiters == s.waiters[1..] && |t.ctx| == |s.ctx| && t.ctx[d].at == Block4(s.waiters[0])
  {
    assert Fit(s.ctx[d]);
    if s.waiters != [] {
      assert s.waiters[0] in s.waiters;
      assert IsOn(s.ctx, s.waiters[0], OnWaiters);
    }
  }

  /** cproc_ready goes on to send a message if and only if its cproc is not about to block in a
      condition wait, the ready queue, with the woken cproc on it, is longer than there are messages
      under way, and the idle kernel threads are not as many as those messages. */
  lemma SendsExactly(s: State, d: nat)
    requires Inv(s) && Counted(s) && d < |s.ctx| && s.ctx[d].at.Ready2?
    ensures Enabled(s, Run(d))
    ensures var t := Do(s, Run(d));
            && (t.ctx[d].at.Ready3? <==>
                !IsCondWait(s.ctx[d].state) && |s.ready| + 1 > Messages(s) && Idle(s) != Messages(s))
            && Messages(t) == Messages(s) + (if t.ctx[d].at.Ready3? then 1 else 0)
            && Idle(t) == Idle(s)
  {
    QueuedInOrder(s, d);
    CountedStep(s, Run(d));
    assert Holds(s.ctx, d);
  }

  // Idle kernel threads and ready cprocs

  /** There are no more ready cprocs than messages, or no more idle kernel threads than messages:
      for every ready cproc either a kernel thread is on its way or none is idle. */
  predicate Served(s: State) {
    |s.ready| <= Messages(s) || Idle(s) <= Messages(s)
  }

  /** The shortcut for a cproc that is about to block in a condition wait, taken when it matters. */
  predicate Shortcut(s: State, step: Step) {
    && step.Run? && step.d < |s.ctx| && s.ctx[step.d].at.Ready2? && IsCondWait(s.ctx[step.d].state)
    && |s.ready| + 1 > Messages(s) && Idle(s) > Messages(s)
  }

  lemma MessagesNatural(s: State, d: nat)
    requires d < |s.ctx|
    ensures Messages(s) >= if s.ctx[d].at.Ready3? || s.ctx[d].at.Idle2? then 1 else 0
  {
    SumAtLeast(Message(), s.ctx, d);
  }

  /** How a step changes the counters. */
  predicate CounterMove(s: State, step: Step, t: State)
    requires step.d < |s.ctx|
  {
    || (t.readyCount <= s.readyCount && t.waitCount <= s.waitCount)
    || (s.ready == [] && t.ready == [])
    || (t.readyCount == s.readyCount + 1 && t.waitCount == s.waitCount
        && (s.waitCount == 0 || s.readyCount + 1 <= 0
            || (step.Run? && s.ctx[step.d].at.Ready2? && IsCondWait(s.ctx[step.d].state))))
  }

  lemma CountersMove(s: State, step: Step)
    requires Inv(s) && Enabled(s, step)
    ensures step.d < |s.ctx| && CounterMove(s, step, Do(s, step))
  {
    if step.Run? && (s.ctx[step.d].at.Block1? || s.ctx[step.d].at.Idle2?) {
      FirstServed(s, step.d);
    }
  }

  /** Every step leaves all ready cprocs served, except the shortcut, which never does. */
  lemma ServedExactly(s: State, step: Step)
    requires Inv(s) && Counted(s) && Served(s) && Enabled(s, step)
    ensures Served(Do(s, step)) <==> !Shortcut(s, step)
  {
    var t := Do(s, step);
    CountedStep(s, step);
    CountersMove(s, step);
    MessagesNatural(t, step.d);
    if Shortcut(s, step) {
      SendsExactly(s, step.d);
    }
  }

  /** No cproc is in a condition wait. */
  predicate NoCondWait(s: State) {
    forall c | 0 <= c < |s.ctx| :: !IsCondWait(s.ctx[c].state)
  }

  lemma NoCondWaitStep(s: State, step: Step)
    requires NoCondWait(s) && Enabled(s, step) && !step.CondWaits?
    ensures NoCondWait(Do(s, step))
  {
    assert !IsCondWait(s.ctx[step.d].state);
    var t := Other(s, step);
    assert !IsCondWait(Contexts(s, step)[t].state);
    CondWaitAct(step, s.ctx[step.d], t, Contexts(s, step)[t], t == |s.ctx|, Env(s.readyCount, s.waitCount, s.clock));
  }

  lemma CondWaitAct(step: Step, x: Ctx, t: nat, y: Ctx, isNew: bool, env: Env)
    requires !step.CondWaits? && !IsCondWait(x.state) && !IsCondWait(y.state)
    ensures var e := Act(step, x, t, y, isNew, env); !IsCondWait(e.self.state) && !IsCondWait(e.other.state)
  {
    if step.Run? {
      CondWaitRun(step.d, x, t, y, isNew, env);
    }
  }

  lemma CondWaitRun(d: nat, x: Ctx, t: nat, y: Ctx, isNew: bool, env: Env)
    requires !IsCondWait(x.state) && !IsCondWait(y.state)
    ensures var e := ActRun(d, x, t, y, isNew, env); !IsCondWait(e.self.state) && !IsCondWait(e.other.state)
  {
    if Readying(x.at) || Waiting(x.at) {
      CondWaitBlock(d, x, t, y, isNew, env);
    }
  }

  lemma CondWaitBlock(d: nat, x: Ctx, t: nat, y: Ctx, isNew: bool, env: Env)
    requires !IsCondWait(x.state) && !IsCondWait(y.state) && (Readying(x.at) || Waiting(x.at))
    ensures var e := ActRun(d, x, t, y, isNew, env); !IsCondWait(e.self.state) && !IsCondWait(e.other.state)
  {
  }

  lemma {:induction false} ServedFrom(s: State, steps: seq<Step>)
    requires Sound(s) && Served(s) && NoCondWait(s) && Possible(s, steps)
    requires forall i | 0 <= i < |steps| :: !steps[i].CondWaits?
    ensures Served(Final(s, steps))
    decreases |steps|
  {
    if |steps| > 0 {
      ServedExactly(s, steps[0]);
      NoCondWaitStep(s, steps[0]);
      SoundRun(s, steps[..1]);
      assert Final(s, steps[..1]) == Do(s, steps[0]) by { assert steps[..1][1..] == []; }
      ServedFrom(Do(s, steps[0]), steps[1..]);
    }
  }

  lemma ServedStart(n: nat)
    ensures Served(Start(n)) && NoCondWait(Start(n))
  {
    StartSums(Message(), Start(n).ctx);
  }

  /** In every run without condition waits no kernel thread idles, unsent for, while more cprocs are
      ready than messages are under way. */
  lemma NoneIdle(n: nat, steps: seq<Step>)
    requires Possible(Start(n), steps) && forall i | 0 <= i < |steps| :: !steps[i].CondWaits?
    ensures Served(Final(Start(n), steps))
  {
    StartSound(n);
    ServedStart(n);
    ServedFrom(Start(n), steps);
  }
}
