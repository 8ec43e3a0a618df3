/** What holds in every run of the scheduler: wake-ups are neither lost nor doubled, a switch
    always goes to a context that has been left, the counters tell the truth, and the spinning
    on locks ends. */
module SchedulerRuns {

  import opened Sums
  import opened FreeLists
  import opened Scheduler

  // Runs

  /** `n` cprocs, each on a kernel thread of its own and outside the scheduler. */
  function Start(n: nat): State {
    State(seq(n, _ => Ctx(false, Running, false, User, NoLink, 0, 0, 0)), [], {}, [], 0, 0, 0, 0)
  }

  predicate Possible(s: State, steps: seq<Step>)
    decreases |steps|
  {
    |steps| == 0 || (Enabled(s, steps[0]) && Possible(Do(s, steps[0]), steps[1..]))
  }

  function Final(s: State, steps: seq<Step>): State
    requires Possible(s, steps)
    decreases |steps|
  {
    if |steps| == 0 then s else Final(Do(s, steps[0]), steps[1..])
  }

  // The counters

  /** A wakeup message that the counters no longer know of: about to be sent, or received. */
  function Message(): (nat, Ctx) -> int {
    (n: nat, x: Ctx) => One(x.at.Ready3? || x.at.Idle2?)
  }

  predicate IdleAt(at: At) {
    at.Block3? || at.Block4? || at.Unwait1? || at.Start1? || at.Start2? || at.Idle1? || at.Idle2?
  }

  /** A kernel thread that waits for work, or is about to. */
  function Idler(): (nat, Ctx) -> int {
    (n: nat, x: Ctx) => One(IdleAt(x.at))
  }

  function Messages(s: State): int {
    s.msgs + Sum(Message(), s.ctx)
  }

  /** Ready contexts less wakeup messages, and idle kernel threads less the same messages. */
  predicate Counted(s: State) {
    && s.readyCount == |s.ready| - Messages(s)
    && s.waitCount == Sum(Idler(), s.ctx) - Messages(s)
  }

  function Grown(op: QueueOp): int {
    match op
    case Keep => 0 case Pop => -1 case Rotate(_) => 0 case Enq(_) => 1 case Preq(_) => 1
  }

  /** The change of a weight that one step makes. */
  function Change(w: (nat, Ctx) -> int, d: nat, x: Ctx, t: nat, y: Ctx, isNew: bool, e: Effect): int {
    w(d, e.self) - w(d, x) + if t == d then 0 else w(t, e.other) - if isNew then 0 else w(t, y)
  }

  predicate CountMove(d: nat, x: Ctx, t: nat, y: Ctx, isNew: bool, e: Effect) {
    var m := e.msgs + Change(Message(), d, x, t, y, isNew, e);
    && e.readyCount == Grown(e.ready) - m
    && e.waitCount == Change(Idler(), d, x, t, y, isNew, e) - m
  }

  lemma CountSwitch(d: nat, x: Ctx, t: nat, y: Ctx, isNew: bool, env: Env)
    requires x.at.Switch2? || x.at.Start2? || x.at.Idle5?
    requires Fit(x) && Partnered(Run(d), x, t, y, isNew)
    ensures CountMove(d, x, t, y, isNew, ActRun(d, x, t, y, isNew, env))
  {
    assert y.at.Parked?;
  }

  lemma CountWaiting(d: nat, x: Ctx, t: nat, y: Ctx, isNew: bool, env: Env, msgs: nat)
    requires Waiting(x.at) || Settling(x.at)
    requires Fit(x) && Partnered(Run(d), x, t, y, isNew) && CanRun(x, y, msgs)
    ensures CountMove(d, x, t, y, isNew, ActRun(d, x, t, y, isNew, env))
  {
    assert ActRun(d, x, t, y, isNew, env).other.at == y.at;
  }

  lemma CountReadying(d: nat, x: Ctx, t: nat, y: Ctx, isNew: bool, env: Env, msgs: nat)
    requires Readying(x.at)
    requires Fit(x) && Partnered(Run(d), x, t, y, isNew) && CanRun(x, y, msgs)
    ensures CountMove(d, x, t, y, isNew, ActRun(d, x, t, y, isNew, env))
  {
    assert ActRun(d, x, t, y, isNew, env).other.at == y.at;
  }

  lemma CountIdling(d: nat, x: Ctx, t: nat, y: Ctx, isNew: bool, env: Env, msgs: nat)
    requires x.at.Switch1? || x.at.Start1? || Idling(x.at) || x.at.Idle4?
    requires Fit(x) && Partnered(Run(d), x, t, y, isNew) && CanRun(x, y, msgs)
    ensures CountMove(d, x, t, y, isNew, ActRun(d, x, t, y, isNew, env))
  {
    assert ActRun(d, x, t, y, isNew, env).other.at == y.at;
  }

  lemma CountRun(d: nat, x: Ctx, t: nat, y: Ctx, isNew: bool, env: Env, msgs: nat)
    requires Fit(x) && Partnered(Run(d), x, t, y, isNew) && CanRun(x, y, msgs)
    ensures CountMove(d, x, t, y, isNew, ActRun(d, x, t, y, isNew, env))
  {
    if x.at.Switch2? || x.at.Start2? || x.at.Idle5? {
      CountSwitch(d, x, t, y, isNew, env);
    } else if Waiting(x.at) || Settling(x.at) {
      CountWaiting(d, x, t, y, isNew, env, msgs);
    } else if Readying(x.at) {
      CountReadying(d, x, t, y, isNew, env, msgs);
    } else {
      CountIdling(d, x, t, y, isNew, env, msgs);
    }
  }

  lemma CountAct(step: Step, x: Ctx, t: nat, y: Ctx, isNew: bool, env: Env, msgs: nat)
    requires Fit(x) && Partnered(step, x, t, y, isNew) && Can(step, x, y, msgs)
    ensures CountMove(step.d, x, t, y, isNew, Act(step, x, t, y, isNew, env))
  {
    if step.Run? {
      CountRun(step.d, x, t, y, isNew, env, msgs);
    }
  }

  lemma SumChange(w: (nat, Ctx) -> int, was: seq<Ctx>, d: nat, t: nat, y: Ctx, isNew: bool, e: Effect)
    requires d < |was| && (if isNew then t == |was| else t < |was| && was[t] == y)
    requires t == d ==> !isNew
    ensures var ctx := if isNew then was + [y] else was;
            Sum(w, ctx[t := e.other][d := e.self]) == Sum(w, was) + Change(w, d, was[d], t, y, isNew, e)
  {
    var ctx := if isNew then was + [y] else was;
    if isNew {
      SumAppend(w, was, y);
    }
    SumMove(w, ctx, ctx[t := e.other], t);
    SumMove(w, ctx[t := e.other], ctx[t := e.other][d := e.self], d);
  }

  lemma LengthGrown(q: seq<nat>, op: QueueOp)
    requires op.Pop? || op.Rotate? ==> |q| > 0
    ensures |Queue(q, op)| == |q| + Grown(op)
  {
  }

  lemma MessageThere(step: Step, x: Ctx, t: nat, y: Ctx, isNew: bool, env: Env, msgs: nat)
    requires Can(step, x, y, msgs)
    ensures msgs + Act(step, x, t, y, isNew, env).msgs >= 0
  {
  }

  lemma CountedStep(s: State, step: Step)
    requires Inv(s) && Counted(s) && Enabled(s, step)
    ensures Counted(Do(s, step))
  {
    var d, t, y := step.d, Other(s, step), Contexts(s, step)[Other(s, step)];
    var e, env := EffectOf(s, step), Env(s.readyCount, s.waitCount, s.clock);
    PartnerFound(s, step);
    CountAct(step, s.ctx[d], t, y, t == |s.ctx|, env, s.msgs);
    MessageThere(step, s.ctx[d], t, y, t == |s.ctx|, env, s.msgs);
    HeadTaken(s, step);
    LengthGrown(s.ready, e.ready);
    SumChange(Message(), s.ctx, d, t, y, t == |s.ctx|, e);
    SumChange(Idler(), s.ctx, d, t, y, t == |s.ctx|, e);
  }

  // Spinning on locks

  predicate Took(at: At) {
    at.Block2? || at.Switch1?
  }

  /** A context that has taken another off the ready queue did so after that one began to
      switch, if it is still switching. */
  predicate TicketFor(s: State, d: nat)
    requires d < |s.ctx|
  {
    var x := s.ctx[d];
    Took(x.at) ==>
      && x.ticket < s.clock
      && (Target(x.at) < |s.ctx| && s.ctx[Target(x.at)].at.Switch1? ==> s.ctx[Target(x.at)].ticket < x.ticket)
  }

  predicate Ticketed(s: State) {
    forall d | 0 <= d < |s.ctx| :: TicketFor(s, d)
  }

  /** A context that takes another gets a new ticket; otherwise tickets stay. */
  predicate TicketMove(d: nat, x: Ctx, t: nat, y: Ctx, e: Effect, clock: nat) {
    && (t != d ==> e.other.ticket == y.ticket && (Took(e.other.at) ==> e.other.at == y.at))
    && (Took(e.self.at) ==>
          || (e.self.ticket == clock && t != d && Target(e.self.at) == t)
          || (e.self.ticket == x.ticket && Took(x.at) && Target(e.self.at) == Target(x.at)))
    && (e.self.at.Switch1? ==> (e.self.link.Held? ==> !e.self.link.stage.Taken?))
  }

  lemma TicketRun(d: nat, x: Ctx, t: nat, y: Ctx, isNew: bool, env: Env, msgs: nat)
    requires Fit(x) && Partnered(Run(d), x, t, y, isNew) && CanRun(x, y, msgs)
    ensures TicketMove(d, x, t, y, ActRun(d, x, t, y, isNew, env), env.clock)
  {
  }

  lemma TicketAct(step: Step, x: Ctx, t: nat, y: Ctx, isNew: bool, env: Env, msgs: nat)
    requires Fit(x) && Partnered(step, x, t, y, isNew) && Can(step, x, y, msgs)
    ensures TicketMove(step.d, x, t, y, Act(step, x, t, y, isNew, env), env.clock)
  {
    if step.Run? {
      TicketRun(step.d, x, t, y, isNew, env, msgs);
    }
  }

  lemma ApplyTickets(s: State, ctx: seq<Ctx>, d: nat, t: nat, e: Effect)
    requires Ticketed(s) && d < |s.ctx| && t < |ctx| && TicketMove(d, s.ctx[d], t, ctx[t], e, s.clock)
    requires ctx == s.ctx || (t == |s.ctx| && ctx == s.ctx + [ctx[t]] && !Took(ctx[t].at))
    requires forall c | 0 <= c < |s.ctx| :: Holds(s.ctx, c)
    requires forall c | 0 <= c < |ctx| :: Holds(Apply(s, ctx, d, t, e).ctx, c)
    ensures Ticketed(Apply(s, ctx, d, t, e))
  {
    var u := Apply(s, ctx, d, t, e);
    assert t < |s.ctx| ==> TicketFor(s, t);
    forall c | 0 <= c < |u.ctx| ensures TicketFor(u, c) {
      assert Holds(u.ctx, c);
      if c < |s.ctx| {
        assert TicketFor(s, c) && Holds(s.ctx, c);
      }
    }
  }

  lemma TicketedStep(s: State, step: Step)
    requires Inv(s) && Ticketed(s) && Enabled(s, step)
    ensures Ticketed(Do(s, step))
  {
    var d, t, y := step.d, Other(s, step), Contexts(s, step)[Other(s, step)];
    PartnerFound(s, step);
    TicketAct(step, s.ctx[d], t, y, t == |s.ctx|, Env(s.readyCount, s.waitCount, s.clock), s.msgs);
    InvStep(s, step);
    ApplyTickets(s, Contexts(s, step), d, t, EffectOf(s, step));
  }

  /** Following the locks that a lock's holder waits for, one comes to a context that can run:
      no set of contexts can wait for each other's locks. */
  function Front(s: State, c: nat): (e: nat)
    requires Inv(s) && Ticketed(s) && c < |s.ctx| && s.ctx[c].locked
    ensures e < |s.ctx| && Enabled(s, Run(e))
    decreases if s.ctx[c].at.Switch1? then s.ctx[c].ticket + 2 else if s.ctx[c].at.Start1? then 1 else 0
  {
    var x := s.ctx[c];
    assert Fit(x) && Holds(s.ctx, c) && TicketFor(s, c);
    if (x.at.Switch1? || x.at.Start1?) && s.ctx[Target(x.at)].locked then
      assert Fit(s.ctx[Target(x.at)]);
      Front(s, Target(x.at))
    else c
  }

  // What every run keeps

  ghost predicate Sound(s: State) {
    Inv(s) && Counted(s) && Ticketed(s)
  }

  lemma {:induction false} StartSums(w: (nat, Ctx) -> int, t: seq<Ctx>)
    requires forall n | 0 <= n < |t| :: w(n, t[n]) == 0
    ensures Sum(w, t) == 0
  {
    if |t| > 0 {
      StartSums(w, t[..|t| - 1]);
    }
  }

  lemma StartSound(n: nat)
    ensures Sound(Start(n))
  {
    StartSums(Message(), Start(n).ctx);
    StartSums(Idler(), Start(n).ctx);
  }

  lemma {:induction false} SoundRun(s: State, steps: seq<Step>)
    requires Sound(s) && Possible(s, steps)
    ensures Sound(Final(s, steps))
    decreases |steps|
  {
    if |steps| > 0 {
      InvStep(s, steps[0]);
      CountedStep(s, steps[0]);
      TicketedStep(s, steps[0]);
      SoundRun(Do(s, steps[0]), steps[1..]);
    }
  }

  /** A switch, to a cproc or to a waiter's stack, always goes to a context that has been left
      and whose lock has been released, and that no queue or other context knows of. */
  lemma SwitchSafe(s: State, d: nat)
    requires Inv(s) && d < |s.ctx| && (s.ctx[d].at.Switch2? || s.ctx[d].at.Start2? || s.ctx[d].at.Idle5?)
    ensures var t := Target(s.ctx[d].at);
            && t < |s.ctx| && s.ctx[t].at.Parked? && !s.ctx[t].locked
            && t !in s.ready && t !in s.waiters && t !in s.waiting
            && (forall e | 0 <= e < |s.ctx| && HasTarget(s.ctx[e].at) && Target(s.ctx[e].at) == t :: e == d)
  {
    var t := Target(s.ctx[d].at);
    assert Holds(s.ctx, d) && Fit(s.ctx[d]) && Fit(s.ctx[t]);
    assert !IsOn(s.ctx, t, OnReady) && !IsOn(s.ctx, t, OnWaiters) && !IsOn(s.ctx, t, OnWait);
    forall e | 0 <= e < |s.ctx| && HasTarget(s.ctx[e].at) && Target(s.ctx[e].at) == t ensures e == d {
      assert Holds(s.ctx, e);
    }
  }

  /** Taken off a wait queue, a cproc either has its block in progress cancelled, and is then on
      no queue, or it has been switched away from and is put on the ready queue, once. */
  lemma WakeupSplits(s: State, d: nat, c: nat)
    requires Inv(s) && d < |s.ctx| && c < |s.ctx| && Enabled(s, Run(d))
    requires s.ctx[d].at.Ready1? && s.ctx[d].at.next == c
    ensures var u := Do(s, Run(d));
            if s.ctx[c].at.Parked? then u.ctx[d].at.Ready2? && u.ctx[d].at.next == c && u.ctx[c].state.Blocked?
            else u.ctx[c].link.NoLink? && Due(u.ctx[c]) && !IsSwitching(u.ctx[c].state) && !HasTarget(u.ctx[d].at)
  {
    assert Holds(s.ctx, d) && Fit(s.ctx[d]) && Fit(s.ctx[c]);
  }

  lemma QueuedOnce(s: State, d: nat, c: nat)
    requires Inv(s) && d < |s.ctx| && c < |s.ctx| && Enabled(s, Run(d))
    requires s.ctx[d].at.Ready2? && s.ctx[d].at.next == c
    ensures c !in s.ready && c in Do(s, Run(d)).ready && NoDup(Do(s, Run(d)).ready)
  {
    InvStep(s, Run(d));
    assert Holds(s.ctx, d);
    assert !IsOn(s.ctx, c, OnReady);
  }

  /** Where a cproc that has been woken and not come back can be: running on towards the end of
      its wait, on the ready queue, or in the hands of a running context. */
  predicate OnItsWay(s: State, c: nat)
    requires c < |s.ctx|
  {
    var x := s.ctx[c];
    || !x.at.Parked?
    || c in s.ready
    || (x.link.Held? && x.link.holder < |s.ctx| && !s.ctx[x.link.holder].at.Parked?
        && HasTarget(s.ctx[x.link.holder].at) && Target(s.ctx[x.link.holder].at) == c)
  }

  lemma WokenTrue(s: State, c: nat)
    requires Inv(s) && c < |s.ctx| && !s.ctx[c].isWaiter
    ensures var x := s.ctx[c];
            && x.returned <= x.woken <= x.returned + 1
            && (x.woken == x.returned + 1 ==> Blocking(x.at) && c !in s.waiting && OnItsWay(s, c))
            && (x.woken == x.returned && Blocking(x.at) ==> c in s.waiting)
  {
    assert Fit(s.ctx[c]) && HeldBy(s.ctx, c);
    assert c in s.waiting <==> IsOn(s.ctx, c, OnWait);
    assert c in s.ready <==> IsOn(s.ctx, c, OnReady);
  }

  /** In every run a cproc comes back from waiting once for each time it is woken: it has come
      back as often, or once less, and then it is waiting and on its way. */
  lemma WakeupsConserved(n: nat, steps: seq<Step>, c: nat)
    requires Possible(Start(n), steps) && c < |Final(Start(n), steps).ctx|
    requires !Final(Start(n), steps).ctx[c].isWaiter
    ensures var s := Final(Start(n), steps); var x := s.ctx[c];
            && x.returned <= x.woken <= x.returned + 1
            && (x.woken == x.returned + 1 ==> Blocking(x.at) && c !in s.waiting && OnItsWay(s, c))
            && (x.woken == x.returned && Blocking(x.at) ==> c in s.waiting)
  {
    StartSound(n);
    SoundRun(Start(n), steps);
    WokenTrue(Final(Start(n), steps), c);
  }

  /** In every run the counters are those of the queue, the idle kernel threads and the messages. */
  lemma CountersTrue(n: nat, steps: seq<Step>)
    requires Possible(Start(n), steps)
    ensures var s := Final(Start(n), steps);
            && s.readyCount == |s.ready| - Messages(s)
            && s.waitCount == Sum(Idler(), s.ctx) - Messages(s)
            && (s.waitCount < 0 <==> Messages(s) > Sum(Idler(), s.ctx))
  {
    StartSound(n);
    SoundRun(Start(n), steps);
  }
}
