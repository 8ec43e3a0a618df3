/** The scheduler core of C threads: how an unwired cproc blocks, is woken and is switched to,
    with every kernel thread running one context and all of them interleaved.

    A step is what a context does between two points where another kernel thread can get in.
    All wait queues (mutexes, conditions, port entries, and the private queue of a broadcast)
    are one set, from which a waker may take any member.
 */
module Scheduler {

  import opened Sums
  import opened FreeLists

  /** The values of a cproc's state word. */
  datatype CState = Running | Switching | CondSwitching | CondWait | Blocked

  predicate IsSwitching(st: CState) {
    st.Switching? || st.CondSwitching?
  }

  predicate IsCondWait(st: CState) {
    st.CondWait? || st.CondSwitching?
  }

  function Cleared(st: CState): CState {
    if st.CondSwitching? then CondWait else Running
  }

  /** Where cproc_ready was called from. */
  datatype Back = InUser | InCond

  /** What a context is about to do. */
  datatype At =
    | Parked                                   // switched away from
    | User                                     // outside the scheduler
    | Queued                                   // on a wait queue, own lock held, entering cproc_block
    | CondQueued                               // condition_wait: queued, own lock not yet taken
    | Ready1(next: nat, back: Back, preq: bool) // cproc_ready: lock next
    | Ready2(next: nat, back: Back, preq: bool) // lock the ready queue
    | Ready3(back: Back)                       // send the wakeup message
    | Block1                                   // cproc_block: lock the ready queue
    | Block2(next: nat)                         // took next; lock self
    | Block3                                   // counted as waiting; get a waiter
    | Block4(waiter: nat)                      // lock self
    | Unwait1(waiter: nat)                     // saved: uncount
    | Unwait2(waiter: nat)                     // give the waiter back
    | Switch1(next: nat)                        // own lock held; lock next
    | Switch2(next: nat)                        // switch
    | Start1(waiter: nat)                      // own lock held; lock the waiter
    | Start2(waiter: nat)                      // switch to its stack
    | Idle1                                    // a waiter: receive a wakeup message
    | Idle2                                    // lock the ready queue
    | Idle3(next: nat)                          // lock next
    | Idle4(next: nat)                          // back to the queue of waiters, lock self
    | Idle5(next: nat)                          // switch

  /** How far the holder of a context has got with it. */
  datatype Stage = Waking | Queueing | Taken | Going | Lent | Starting

  /** The one place that knows of a context: bookkeeping that no step reads. */
  datatype Link = NoLink | OnWait | OnReady | OnWaiters | Held(holder: nat, stage: Stage)

  datatype Ctx = Ctx(
    isWaiter: bool,  // the stack of an idle kernel thread
    state: CState,
    locked: bool,
    at: At,
    link: Link,
    woken: nat,      // times taken off a wait queue to be woken, times yielded, and its creation
    returned: nat,   // times it has come back from waiting or yielding
    ticket: nat)     // when it last took a context off the ready queue

  datatype State = State(
    ctx: seq<Ctx>,
    ready: seq<nat>,
    waiting: set<nat>,
    waiters: seq<nat>,
    readyCount: int,
    waitCount: int,
    msgs: nat,       // wakeup messages on the wait port
    clock: nat)

  predicate HasTarget(at: At) {
    || at.Ready1? || at.Ready2? || at.Block2? || at.Block4? || at.Unwait1? || at.Unwait2?
    || at.Switch1? || at.Switch2? || at.Start1? || at.Start2? || at.Idle3? || at.Idle4? || at.Idle5?
  }

  function Target(at: At): nat
    requires HasTarget(at)
  {
    if at.Block4? || at.Unwait1? || at.Unwait2? || at.Start1? || at.Start2? then at.waiter else at.next
  }

  function StageOf(at: At): Stage
    requires HasTarget(at)
  {
    match at
    case Ready1(_, _, preq) => if preq then Taken else Waking
    case Ready2(_, _, _) => Queueing
    case Switch2(_) => Going
    case Idle4(_) => Going
    case Idle5(_) => Going
    case Block4(_) => Lent
    case Unwait1(_) => Lent
    case Unwait2(_) => Lent
    case Start1(_) => Lent
    case Start2(_) => Starting
    case _ => Taken
  }

  function Home(back: Back): At {
    if back.InUser? then User else CondQueued
  }

  /** Run lets a context make its next step; the others are the choices of the program. */
  datatype Step = Run(d: nat) | Wait(d: nat) | CondWaits(d: nat) | Signal(d: nat, c: nat) | Yield(d: nat)
                | Create(d: nat) | Spawn(d: nat)

  // What one step does to the context that makes it, and to one other

  datatype QueueOp = Keep | Pop | Enq(c: nat) | Preq(c: nat) | Rotate(c: nat)

  /** The queue after an operation; Rotate takes the head off and puts `c` at the end. */
  function Queue(q: seq<nat>, op: QueueOp): seq<nat> {
    match op
    case Keep => q
    case Pop => if |q| > 0 then q[1..] else q
    case Enq(c) => q + [c]
    case Preq(c) => [c] + q
    case Rotate(c) => if |q| > 0 then q[1..] + [c] else q
  }

  datatype Effect = Effect(
    self: Ctx,
    other: Ctx,
    ready: QueueOp := Keep,
    waiters: QueueOp := Keep,
    waits: bool := false,    // joins a wait queue
    wakes: bool := false,    // takes the other off a wait queue
    readyCount: int := 0,
    waitCount: int := 0,
    msgs: int := 0)

  /** What a step can see besides the two contexts. */
  datatype Env = Env(readyCount: int, waitCount: int, clock: nat)

  /** cproc_ready once the lock of the other is free. */
  function ActReady1(d: nat, x: Ctx, y: Ctx): Effect
    requires x.at.Ready1?
  {
    if IsSwitching(y.state) then
      Effect(x.(at := Home(x.at.back)), y.(state := Cleared(y.state), link := NoLink))
    else
      Effect(x.(at := Ready2(x.at.next, x.at.back, x.at.preq)), y.(link := Held(d, Queueing)))
  }

  /** cproc_ready under the lock of the ready queue. */
  function ActReady2(x: Ctx, y: Ctx, env: Env): Effect
    requires x.at.Ready2?
  {
    var op := if x.at.preq then Preq(x.at.next) else Enq(x.at.next);
    if !IsCondWait(x.state) && env.readyCount + 1 > 0 && env.waitCount != 0 then
      Effect(x.(at := Ready3(x.at.back)), y.(link := OnReady), ready := op, waitCount := -1)
    else
      Effect(x.(at := Home(x.at.back)), y.(link := OnReady), ready := op, readyCount := 1)
  }

  /** condition_wait, once it has its own lock. */
  function ActCondQueued(x: Ctx, y: Ctx): Effect {
    if IsSwitching(x.state) then Effect(x.(state := Switching, at := Block1), y)
    else Effect(x.(state := Running, at := User, returned := x.returned + 1), y)
  }

  /** cproc_block takes a context off the ready queue, or counts itself as waiting. */
  function ActBlock1(d: nat, x: Ctx, t: nat, y: Ctx, env: Env): Effect {
    if t == d then Effect(x.(at := Block3), y, waitCount := 1)
    else Effect(x.(at := Block2(t), ticket := env.clock), y.(link := Held(d, Taken)), ready := Pop, readyCount := -1)
  }

  /** The end of cproc_block: saved by a waker, or blocked with the own lock held. */
  function Settle(x: Ctx, y: Ctx, saved: At, blocked: At): Effect {
    if x.state.Running? then Effect(x.(at := saved, returned := x.returned + 1), y)
    else Effect(x.(state := Blocked, locked := true, at := blocked), y)
  }

  /** Lock the other, set it to running, unlock it. */
  function Claim(d: nat, x: Ctx, y: Ctx, at: At): Effect {
    Effect(x.(at := at), y.(state := Running, link := Held(d, Going)))
  }

  /** cproc_switch: the context is saved and its lock released as the other one runs. */
  function SwitchTo(x: Ctx, y: Ctx): Effect {
    Effect(x.(at := Parked, locked := false), y.(at := User, link := NoLink, returned := y.returned + 1))
  }

  function ActIdle2(d: nat, x: Ctx, t: nat, y: Ctx): Effect {
    if t == d then Effect(x.(at := Idle1), y, waitCount := 1, readyCount := 1)
    else Effect(x.(at := Idle3(t)), y.(link := Held(d, Taken)), ready := Pop)
  }

  /** The next action of context `d`; `t` is the other one, or `d` where there is none. */
  function ActRun(d: nat, x: Ctx, t: nat, y: Ctx, isNew: bool, env: Env): Effect {
    match x.at
    case Queued => Effect(x.(state := Switching, locked := false, at := Block1), y)
    case CondQueued => ActCondQueued(x, y)
    case Ready1(_, _, _) => ActReady1(d, x, y)
    case Ready2(_, _, _) => ActReady2(x, y, env)
    case Ready3(back) => Effect(x.(at := Home(back)), y, msgs := 1)
    case Block1 => ActBlock1(d, x, t, y, env)
    case Block2(next) => Settle(x, y, Ready1(next, InUser, true), Switch1(next))
    case Block3 =>
      Effect(x.(at := Block4(t)), y.(link := Held(d, Lent)), waiters := if isNew then Keep else Pop)
    case Block4(w) => Settle(x, y, Unwait1(w), Start1(w))
    case Unwait1(w) => Effect(x.(at := Unwait2(w)), y, waitCount := -1)
    case Unwait2(w) => Effect(x.(at := User), y.(link := OnWaiters), waiters := Preq(w))
    case Switch1(next) => Claim(d, x, y, Switch2(next))
    case Switch2(_) => SwitchTo(x, y)
    case Start1(w) => Effect(x.(at := Start2(w)), y.(link := Held(d, Starting)))
    case Start2(_) => Effect(x.(at := Parked, locked := false), y.(at := Idle1, link := NoLink))
    case Idle1 => Effect(x.(at := Idle2), y, msgs := -1)
    case Idle2 => ActIdle2(d, x, t, y)
    case Idle3(next) => Claim(d, x, y, Idle4(next))
    case Idle4(next) => Effect(x.(locked := true, link := OnWaiters, at := Idle5(next)), y, waiters := Enq(d))
    case Idle5(_) => SwitchTo(x, y)
    case _ => Effect(x, y)
  }

  /** cthread_yield. */
  function ActYield(d: nat, x: Ctx, t: nat, y: Ctx, env: Env): Effect {
    if t == d then Effect(x, y)
    else
      Effect(x.(state := Blocked, locked := true, at := Switch1(t), link := OnReady, woken := x.woken + 1,
                ticket := env.clock),
             y.(link := Held(d, Taken)), ready := Rotate(d))
  }

  function Act(step: Step, x: Ctx, t: nat, y: Ctx, isNew: bool, env: Env): Effect {
    match step
    case Run(d) => ActRun(d, x, t, y, isNew, env)
    case Wait(d) => Effect(x.(locked := true, at := Queued, link := OnWait), y, waits := true)
    case CondWaits(d) => Effect(x.(state := CondSwitching, at := CondQueued, link := OnWait), y, waits := true)
    case Signal(d, c) =>
      Effect(x.(at := Ready1(t, if x.at.User? then InUser else InCond, false)),
             y.(link := Held(d, Waking), woken := y.woken + 1), wakes := true)
    case Yield(d) => ActYield(d, x, t, y, env)
    case Create(d) => Effect(x.(at := Ready1(t, InUser, false)), y.(link := Held(d, Waking)))
    case Spawn(_) => Effect(x, y)
  }

  /** A new waiter's stack, a new cproc with its first wake-up on the way, or a new cproc that
      has a kernel thread of its own. */
  function Fresh(step: Step): Ctx {
    if step.Create? then Ctx(false, Blocked, false, Parked, NoLink, 1, 0, 0)
    else if step.Spawn? then Ctx(false, Running, false, User, NoLink, 0, 0, 0)
    else Ctx(true, Running, false, Parked, NoLink, 0, 0, 0)
  }

  predicate CanRun(x: Ctx, y: Ctx, msgs: nat) {
    match x.at
    case Parked => false
    case User => false
    case CondQueued => !x.locked
    case Block2(_) => !x.locked
    case Block4(_) => !x.locked
    case Idle4(_) => !x.locked
    case Ready1(_, _, _) => !y.locked
    case Switch1(_) => !y.locked
    case Start1(_) => !y.locked
    case Idle3(_) => !y.locked
    case Idle1 => msgs > 0
    case _ => true
  }

  predicate Can(step: Step, x: Ctx, y: Ctx, msgs: nat) {
    match step
    case Run(_) => CanRun(x, y, msgs)
    case Signal(_, _) => x.at.User? || x.at.CondQueued?
    case _ => x.at.User? && !x.locked
  }

  // Steps of the whole system

  /** The other context of a step: the one it holds, the head of the queue it takes from, or a
      new one; the context itself where there is none. */
  function Other(s: State, step: Step): nat
    requires step.d < |s.ctx|
  {
    var at := s.ctx[step.d].at;
    match step
    case Run(d) =>
      if HasTarget(at) then Target(at)
      else if (at.Block1? || at.Idle2?) && |s.ready| > 0 then s.ready[0]
      else if at.Block3? then (if |s.waiters| > 0 then s.waiters[0] else |s.ctx|)
      else d
    case Signal(_, c) => c
    case Yield(d) => if |s.ready| > 0 then s.ready[0] else d
    case Create(_) => |s.ctx|
    case Spawn(_) => |s.ctx|
    case _ => step.d
  }

  function Contexts(s: State, step: Step): seq<Ctx>
    requires step.d < |s.ctx|
  {
    if Other(s, step) == |s.ctx| then s.ctx + [Fresh(step)] else s.ctx
  }

  predicate Enabled(s: State, step: Step) {
    && step.d < |s.ctx|
    && Other(s, step) < |Contexts(s, step)|
    && Can(step, s.ctx[step.d], Contexts(s, step)[Other(s, step)], s.msgs)
    && (step.Signal? ==> step.c in s.waiting && step.c != step.d)
  }

  function EffectOf(s: State, step: Step): Effect
    requires Enabled(s, step)
  {
    var t := Other(s, step);
    Act(step, s.ctx[step.d], t, Contexts(s, step)[t], t == |s.ctx|, Env(s.readyCount, s.waitCount, s.clock))
  }

  function Apply(s: State, ctx: seq<Ctx>, d: nat, t: nat, e: Effect): State
    requires d < |ctx| && t < |ctx|
  {
    State(ctx[t := e.other][d := e.self],
          Queue(s.ready, e.ready),
          if e.waits then s.waiting + {d} else if e.wakes then s.waiting - {t} else s.waiting,
          Queue(s.waiters, e.waiters),
          s.readyCount + e.readyCount, s.waitCount + e.waitCount,
          if s.msgs + e.msgs >= 0 then s.msgs + e.msgs else 0,
          s.clock + 1)
  }

  function Do(s: State, step: Step): State
    requires Enabled(s, step)
  {
    Apply(s, Contexts(s, step), step.d, Other(s, step), EffectOf(s, step))
  }

  // One context

  /** On a wait queue, or just taken off one by a waker that has yet to look at it. */
  predicate Unwoken(link: Link) {
    link.OnWait? || (link.Held? && link.stage.Waking?)
  }

  /** Inside a wait or a yield. */
  predicate Blocking(at: At) {
    match at
    case Parked => true case Queued => true case CondQueued => true
    case Block1 => true case Block2(_) => true case Block3 => true case Block4(_) => true
    case Switch1(_) => true case Switch2(_) => true case Start1(_) => true case Start2(_) => true
    case Ready1(_, back, _) => back.InCond?
    case Ready2(_, back, _) => back.InCond?
    case Ready3(back) => back.InCond?
    case _ => false
  }

  /** A context that is waiting and has been woken, but has not yet come back. */
  predicate Due(x: Ctx) {
    Blocking(x.at) && !x.link.OnWait?
  }

  predicate FitWaiter(x: Ctx) {
    && x.state.Running?
    && match x.at
       case Idle1 => !x.locked && x.link.NoLink?
       case Idle2 => !x.locked && x.link.NoLink?
       case Idle3(_) => !x.locked && x.link.NoLink?
       case Idle4(_) => !x.locked && x.link.NoLink?
       case Idle5(_) => x.locked && (x.link.OnWaiters? || (x.link.Held? && x.link.stage.Lent?))
       case Parked =>
         !x.locked && (x.link.OnWaiters? || (x.link.Held? && (x.link.stage.Lent? || x.link.stage.Starting?)))
       case _ => false
  }

  predicate InFlight(link: Link) {
    link.OnWait? || link.OnReady? || (link.Held? && (link.stage.Waking? || link.stage.Taken?))
  }

  predicate FitCproc(x: Ctx) {
    match x.at
    case Parked =>
      && !x.locked
      && if x.link.Held? && x.link.stage.Going? then x.state.Running?
         else x.state.Blocked? && (InFlight(x.link) || (x.link.Held? && x.link.stage.Queueing?))
    case Queued => x.locked && x.state.Running? && Unwoken(x.link)
    case Block1 => FitBlocking(x)
    case Block2(_) => FitBlocking(x)
    case Block3 => FitBlocking(x)
    case Block4(_) => FitBlocking(x)
    case Switch1(_) => x.locked && x.state.Blocked? && InFlight(x.link)
    case Switch2(_) => x.locked && x.state.Blocked? && InFlight(x.link)
    case Start1(_) => x.locked && x.state.Blocked? && InFlight(x.link)
    case Start2(_) => x.locked && x.state.Blocked? && InFlight(x.link)
    case CondQueued => FitCond(x)
    case Ready1(_, back, preq) => FitBack(x, back) && (preq ==> back.InUser?)
    case Ready2(_, back, preq) => FitBack(x, back) && (preq ==> back.InUser?)
    case Ready3(back) => FitBack(x, back) && back.InUser?
    case Idle1 => false case Idle2 => false case Idle3(_) => false case Idle4(_) => false case Idle5(_) => false
    case _ => FitUser(x)
  }

  predicate FitUser(x: Ctx) {
    !x.locked && x.state.Running? && x.link.NoLink?
  }

  /** Either the wake-up is still to come, or it has cancelled the block in progress. */
  predicate FitBlocking(x: Ctx) {
    !x.locked && if x.state.Switching? then Unwoken(x.link) else x.state.Running? && x.link.NoLink?
  }

  predicate FitCond(x: Ctx) {
    !x.locked && if x.state.CondSwitching? then Unwoken(x.link) else x.state.CondWait? && x.link.NoLink?
  }

  predicate FitBack(x: Ctx, back: Back) {
    if back.InUser? then FitUser(x) else FitCond(x)
  }

  predicate Fit(x: Ctx) {
    if x.isWaiter then FitWaiter(x)
    else FitCproc(x) && x.woken == x.returned + if Due(x) then 1 else 0
  }

  /** What the queues and holders say of the other context of a step. */
  predicate Partnered(step: Step, x: Ctx, t: nat, y: Ctx, isNew: bool) {
    var d := step.d;
    && (t == d ==> y == x)
    && (isNew ==> y == Fresh(step) && t != d)
    && (!isNew ==> Fit(y))
    && match step
       case Run(_) =>
         && (HasTarget(x.at) ==> t != d && !isNew && t == Target(x.at) && y.link == Held(d, StageOf(x.at)))
         && ((x.at.Block1? || x.at.Idle2?) && t != d ==> !isNew && y.link.OnReady?)
         && (x.at.Block3? ==> t != d && (!isNew ==> y.link.OnWaiters?))
         && (HasTarget(x.at) || x.at.Block1? || x.at.Idle2? || x.at.Block3? || t == d)
       case Signal(_, c) => t != d && !isNew && y.link.OnWait?
       case Yield(_) => t != d ==> !isNew && y.link.OnReady?
       case Create(_) => isNew
       case Spawn(_) => isNew
       case _ => t == d
  }

  // The steps of a context in six groups

  predicate Readying(at: At) {
    at.Ready1? || at.Ready2? || at.Ready3?
  }

  predicate Waiting(at: At) {
    at.Queued? || at.CondQueued? || at.Block1? || at.Block3?
  }

  predicate Settling(at: At) {
    at.Block2? || at.Block4? || at.Unwait1? || at.Unwait2?
  }

  predicate Leaving(at: At) {
    at.Switch1? || at.Switch2? || at.Start1? || at.Start2?
  }

  predicate Idling(at: At) {
    at.Idle1? || at.Idle2? || at.Idle3?
  }

  predicate Resuming(at: At) {
    at.Idle4? || at.Idle5?
  }

  lemma FitWaking(d: nat, x: Ctx, t: nat, y: Ctx, isNew: bool, env: Env, msgs: nat)
    requires x.at.Ready1? && Fit(x) && Partnered(Run(d), x, t, y, isNew) && CanRun(x, y, msgs)
    ensures var e := ActRun(d, x, t, y, isNew, env); Fit(e.self) && (t != d ==> Fit(e.other))
  {
  }

  lemma FitReadying(d: nat, x: Ctx, t: nat, y: Ctx, isNew: bool, env: Env, msgs: nat)
    requires (x.at.Ready2? || x.at.Ready3?) && Fit(x) && Partnered(Run(d), x, t, y, isNew) && CanRun(x, y, msgs)
    ensures var e := ActRun(d, x, t, y, isNew, env); Fit(e.self) && (t != d ==> Fit(e.other))
  {
  }

  lemma FitWaiting(d: nat, x: Ctx, t: nat, y: Ctx, isNew: bool, env: Env, msgs: nat)
    requires Waiting(x.at) && Fit(x) && Partnered(Run(d), x, t, y, isNew) && CanRun(x, y, msgs)
    ensures var e := ActRun(d, x, t, y, isNew, env); Fit(e.self) && (t != d ==> Fit(e.other))
  {
  }

  lemma FitSettling(d: nat, x: Ctx, t: nat, y: Ctx, isNew: bool, env: Env, msgs: nat)
    requires Settling(x.at) && Fit(x) && Partnered(Run(d), x, t, y, isNew) && CanRun(x, y, msgs)
    ensures var e := ActRun(d, x, t, y, isNew, env); Fit(e.self) && (t != d ==> Fit(e.other))
  {
  }

  lemma FitLeaving(d: nat, x: Ctx, t: nat, y: Ctx, isNew: bool, env: Env, msgs: nat)
    requires Leaving(x.at) && Fit(x) && Partnered(Run(d), x, t, y, isNew) && CanRun(x, y, msgs)
    ensures var e := ActRun(d, x, t, y, isNew, env); Fit(e.self) && (t != d ==> Fit(e.other))
  {
  }

  lemma FitIdling(d: nat, x: Ctx, t: nat, y: Ctx, isNew: bool, env: Env, msgs: nat)
    requires Idling(x.at) && Fit(x) && Partnered(Run(d), x, t, y, isNew) && CanRun(x, y, msgs)
    ensures var e := ActRun(d, x, t, y, isNew, env); Fit(e.self) && (t != d ==> Fit(e.other))
  {
  }

  lemma FitResuming(d: nat, x: Ctx, t: nat, y: Ctx, isNew: bool, env: Env, msgs: nat)
    requires Resuming(x.at) && Fit(x) && Partnered(Run(d), x, t, y, isNew) && CanRun(x, y, msgs)
    ensures var e := ActRun(d, x, t, y, isNew, env); Fit(e.self) && (t != d ==> Fit(e.other))
  {
  }

  lemma FitRun(d: nat, x: Ctx, t: nat, y: Ctx, isNew: bool, env: Env, msgs: nat)
    requires Fit(x) && Partnered(Run(d), x, t, y, isNew) && CanRun(x, y, msgs)
    ensures var e := ActRun(d, x, t, y, isNew, env); Fit(e.self) && (t != d ==> Fit(e.other))
  {
    if x.at.Ready1? {
      FitWaking(d, x, t, y, isNew, env, msgs);
    } else if x.at.Ready2? || x.at.Ready3? {
      FitReadying(d, x, t, y, isNew, env, msgs);
    } else if Waiting(x.at) {
      FitWaiting(d, x, t, y, isNew, env, msgs);
    } else if Settling(x.at) {
      FitSettling(d, x, t, y, isNew, env, msgs);
    } else if Leaving(x.at) {
      FitLeaving(d, x, t, y, isNew, env, msgs);
    } else if Idling(x.at) {
      FitIdling(d, x, t, y, isNew, env, msgs);
    } else {
      FitResuming(d, x, t, y, isNew, env, msgs);
    }
  }

  lemma FitAct(step: Step, x: Ctx, t: nat, y: Ctx, isNew: bool, env: Env, msgs: nat)
    requires Fit(x) && Partnered(step, x, t, y, isNew) && Can(step, x, y, msgs)
    ensures var e := Act(step, x, t, y, isNew, env); Fit(e.self) && (t != step.d ==> Fit(e.other))
  {
    if step.Run? {
      FitRun(step.d, x, t, y, isNew, env, msgs);
    }
  }

  // The queues and the holders

  predicate IsOn(ctx: seq<Ctx>, c: nat, link: Link) {
    c < |ctx| && ctx[c].link == link
  }

  /** The queue holds exactly the contexts linked to it, each once. */
  ghost predicate Queues(ctx: seq<Ctx>, q: seq<nat>, link: Link) {
    NoDup(q) && forall c: nat :: c in q <==> IsOn(ctx, c, link)
  }

  ghost predicate Waits(ctx: seq<Ctx>, waiting: set<nat>) {
    forall c: nat :: c in waiting <==> IsOn(ctx, c, OnWait)
  }

  predicate Holds(ctx: seq<Ctx>, d: nat)
    requires d < |ctx|
  {
    HasTarget(ctx[d].at) ==>
      Target(ctx[d].at) != d && IsOn(ctx, Target(ctx[d].at), Held(d, StageOf(ctx[d].at)))
  }

  predicate HeldBy(ctx: seq<Ctx>, c: nat)
    requires c < |ctx|
  {
    ctx[c].link.Held? ==>
      && ctx[c].link.holder < |ctx|
      && HasTarget(ctx[ctx[c].link.holder].at)
      && Target(ctx[ctx[c].link.holder].at) == c
  }

  /** Each context is in one place only, the one its link tells. */
  ghost predicate Linked(s: State) {
    && Queues(s.ctx, s.ready, OnReady)
    && Queues(s.ctx, s.waiters, OnWaiters)
    && Waits(s.ctx, s.waiting)
    && (forall d | 0 <= d < |s.ctx| :: Holds(s.ctx, d))
    && (forall c | 0 <= c < |s.ctx| :: HeldBy(s.ctx, c))
  }

  /** A queue operation agrees with what becomes of the links of the two contexts. */
  predicate OpFits(op: QueueOp, link: Link, d: nat, x: Ctx, t: nat, y: Ctx, e: Effect) {
    var self := e.self.link == link;
    var other := e.other.link == link;
    match op
    case Keep => self == (x.link == link) && (t != d ==> other == (y.link == link))
    case Pop => t != d && y.link == link && !other && self == (x.link == link)
    case Rotate(c) => c == d && t != d && y.link == link && !other && x.link != link && self
    case Enq(c) => PutFits(c, link, d, x, t, y, e)
    case Preq(c) => PutFits(c, link, d, x, t, y, e)
  }

  predicate PutFits(c: nat, link: Link, d: nat, x: Ctx, t: nat, y: Ctx, e: Effect) {
    var self := e.self.link == link;
    var other := e.other.link == link;
    if c == d then x.link != link && self && (t != d ==> other == (y.link == link))
    else c == t && y.link != link && other && self == (x.link == link)
  }

  predicate WaitFits(d: nat, x: Ctx, t: nat, y: Ctx, e: Effect) {
    && (e.waits ==> t == d && e.self.link.OnWait?)
    && (!e.waits && e.wakes ==> t != d && !e.other.link.OnWait? && e.self.link.OnWait? == x.link.OnWait?)
    && (!e.waits && !e.wakes ==>
          && e.self.link.OnWait? == x.link.OnWait?
          && (t != d ==> e.other.link.OnWait? == y.link.OnWait?))
  }

  /** A context is let go only by its holder. */
  predicate HoldFits(d: nat, x: Ctx, t: nat, y: Ctx, e: Effect) {
    && (HasTarget(x.at) ==> t != d && t == Target(x.at))
    && (HasTarget(e.self.at) ==> t != d && t == Target(e.self.at) && e.other.link == Held(d, StageOf(e.self.at)))
    && (e.self.link == x.link || (!x.link.Held? && !e.self.link.Held?))
    && (t != d ==>
          && (if HasTarget(y.at) then e.other.at == y.at else !HasTarget(e.other.at))
          && (e.other.link == y.link || (y.link.Held? ==> y.link.holder == d))
          && (e.other.link.Held? && (e.other.link != y.link || e.other.link.holder == d)
              ==> e.other.link.holder == d && HasTarget(e.self.at)))
  }

  predicate LinkMove(d: nat, x: Ctx, t: nat, y: Ctx, e: Effect) {
    && OpFits(e.ready, OnReady, d, x, t, y, e)
    && OpFits(e.waiters, OnWaiters, d, x, t, y, e)
    && WaitFits(d, x, t, y, e)
    && HoldFits(d, x, t, y, e)
  }

  lemma LinkReadying(d: nat, x: Ctx, t: nat, y: Ctx, isNew: bool, env: Env, msgs: nat)
    requires Readying(x.at) && Fit(x) && Partnered(Run(d), x, t, y, isNew) && CanRun(x, y, msgs)
    ensures LinkMove(d, x, t, y, ActRun(d, x, t, y, isNew, env))
  {
  }

  lemma LinkWaiting(d: nat, x: Ctx, t: nat, y: Ctx, isNew: bool, env: Env, msgs: nat)
    requires Waiting(x.at) && Fit(x) && Partnered(Run(d), x, t, y, isNew) && CanRun(x, y, msgs)
    ensures LinkMove(d, x, t, y, ActRun(d, x, t, y, isNew, env))
  {
  }

  lemma LinkSettling(d: nat, x: Ctx, t: nat, y: Ctx, isNew: bool, env: Env, msgs: nat)
    requires Settling(x.at) && Fit(x) && Partnered(Run(d), x, t, y, isNew) && CanRun(x, y, msgs)
    ensures LinkMove(d, x, t, y, ActRun(d, x, t, y, isNew, env))
  {
  }

  lemma LinkSwitching(d: nat, x: Ctx, t: nat, y: Ctx, isNew: bool, env: Env, msgs: nat)
    requires (x.at.Switch1? || x.at.Switch2?) && Fit(x) && Partnered(Run(d), x, t, y, isNew) && CanRun(x, y, msgs)
    ensures LinkMove(d, x, t, y, ActRun(d, x, t, y, isNew, env))
  {
  }

  lemma LinkStarting(d: nat, x: Ctx, t: nat, y: Ctx, isNew: bool, env: Env, msgs: nat)
    requires (x.at.Start1? || x.at.Start2?) && Fit(x) && Partnered(Run(d), x, t, y, isNew) && CanRun(x, y, msgs)
    ensures LinkMove(d, x, t, y, ActRun(d, x, t, y, isNew, env))
  {
  }

  lemma LinkIdling(d: nat, x: Ctx, t: nat, y: Ctx, isNew: bool, env: Env, msgs: nat)
    requires Idling(x.at) && Fit(x) && Partnered(Run(d), x, t, y, isNew) && CanRun(x, y, msgs)
    ensures LinkMove(d, x, t, y, ActRun(d, x, t, y, isNew, env))
  {
  }

  lemma LinkResuming(d: nat, x: Ctx, t: nat, y: Ctx, isNew: bool, env: Env, msgs: nat)
    requires Resuming(x.at) && Fit(x) && Partnered(Run(d), x, t, y, isNew) && CanRun(x, y, msgs)
    ensures LinkMove(d, x, t, y, ActRun(d, x, t, y, isNew, env))
  {
  }

  lemma LinkRun(d: nat, x: Ctx, t: nat, y: Ctx, isNew: bool, env: Env, msgs: nat)
    requires Fit(x) && Partnered(Run(d), x, t, y, isNew) && CanRun(x, y, msgs)
    ensures LinkMove(d, x, t, y, ActRun(d, x, t, y, isNew, env))
  {
    if Readying(x.at) {
      LinkReadying(d, x, t, y, isNew, env, msgs);
    } else if Waiting(x.at) {
      LinkWaiting(d, x, t, y, isNew, env, msgs);
    } else if Settling(x.at) {
      LinkSettling(d, x, t, y, isNew, env, msgs);
    } else if x.at.Switch1? || x.at.Switch2? {
      LinkSwitching(d, x, t, y, isNew, env, msgs);
    } else if x.at.Start1? || x.at.Start2? {
      LinkStarting(d, x, t, y, isNew, env, msgs);
    } else if Idling(x.at) {
      LinkIdling(d, x, t, y, isNew, env, msgs);
    } else {
      LinkResuming(d, x, t, y, isNew, env, msgs);
    }
  }

  lemma LinkOther(step: Step, x: Ctx, t: nat, y: Ctx, isNew: bool, env: Env, msgs: nat)
    requires !step.Run? && Fit(x) && Partnered(step, x, t, y, isNew) && Can(step, x, y, msgs)
    ensures LinkMove(step.d, x, t, y, Act(step, x, t, y, isNew, env))
  {
  }

  lemma LinkAct(step: Step, x: Ctx, t: nat, y: Ctx, isNew: bool, env: Env, msgs: nat)
    requires Fit(x) && Partnered(step, x, t, y, isNew) && Can(step, x, y, msgs)
    ensures LinkMove(step.d, x, t, y, Act(step, x, t, y, isNew, env))
  {
    if step.Run? {
      LinkRun(step.d, x, t, y, isNew, env, msgs);
    } else {
      LinkOther(step, x, t, y, isNew, env, msgs);
    }
  }

  /** `now` is `was` with contexts `d` and `t` replaced, `t` perhaps added. */
  predicate Replaces(was: seq<Ctx>, now: seq<Ctx>, d: nat, x: Ctx, t: nat, y: Ctx, e: Effect) {
    && d < |was| <= |now| && t < |now| <= |was| + 1
    && was[d] == x && now[d] == e.self
    && (t != d ==> now[t] == e.other)
    && (t < |was| ==> |now| == |was| && was[t] == y)
    && (t >= |was| ==> y.link.NoLink? && !HasTarget(y.at))
    && forall c | 0 <= c < |was| && c != d && c != t :: now[c] == was[c]
  }

  lemma QueueMove(was: seq<Ctx>, now: seq<Ctx>, d: nat, x: Ctx, t: nat, y: Ctx, e: Effect,
                  q: seq<nat>, op: QueueOp, link: Link)
    requires Replaces(was, now, d, x, t, y, e) && Queues(was, q, link) && OpFits(op, link, d, x, t, y, e)
    requires !link.NoLink?
    requires op.Pop? || op.Rotate? ==> |q| > 0 && q[0] == t
    ensures Queues(now, Queue(q, op), link)
  {
    var r := Queue(q, op);
    forall c: nat ensures c in r <==> IsOn(now, c, link) {
      assert c in q <==> IsOn(was, c, link);
      assert op.Pop? || op.Rotate? ==> (c in q[1..] <==> c in q && c != t);
    }
    assert d in q <==> x.link == link;
    assert IsOn(was, t, link) <==> t in q;
    assert NoDup(r);
  }

  lemma WaitMove(was: seq<Ctx>, now: seq<Ctx>, d: nat, x: Ctx, t: nat, y: Ctx, e: Effect, waiting: set<nat>)
    requires Replaces(was, now, d, x, t, y, e) && Waits(was, waiting) && WaitFits(d, x, t, y, e)
    ensures Waits(now, if e.waits then waiting + {d} else if e.wakes then waiting - {t} else waiting)
  {
    forall c: nat ensures c in waiting <==> IsOn(was, c, OnWait) {
    }
  }

  lemma HoldMove(was: seq<Ctx>, now: seq<Ctx>, d: nat, x: Ctx, t: nat, y: Ctx, e: Effect)
    requires Replaces(was, now, d, x, t, y, e) && HoldFits(d, x, t, y, e)
    requires forall c | 0 <= c < |was| :: Holds(was, c) && HeldBy(was, c)
    ensures forall c | 0 <= c < |now| :: Holds(now, c) && HeldBy(now, c)
  {
    assert Holds(was, d) && HeldBy(was, d);
    forall c | 0 <= c < |now| ensures Holds(now, c) && HeldBy(now, c) {
      if c < |was| {
        assert Holds(was, c) && HeldBy(was, c);
      }
    }
  }

  ghost predicate Inv(s: State) {
    Linked(s) && forall c | 0 <= c < |s.ctx| :: Fit(s.ctx[c])
  }

  /** The other context of a step is where the step takes it to be. */
  lemma PartnerFound(s: State, step: Step)
    requires Inv(s) && Enabled(s, step)
    ensures var t := Other(s, step);
            Partnered(step, s.ctx[step.d], t, Contexts(s, step)[t], t == |s.ctx|)
  {
    var d, t := step.d, Other(s, step);
    assert Holds(s.ctx, d) && Fit(s.ctx[d]);
    if |s.ready| > 0 {
      assert s.ready[0] in s.ready;
      assert IsOn(s.ctx, s.ready[0], OnReady);
    }
    if |s.waiters| > 0 {
      assert s.waiters[0] in s.waiters;
      assert IsOn(s.ctx, s.waiters[0], OnWaiters);
    }
    if step.Signal? {
      assert IsOn(s.ctx, step.c, OnWait);
    }
  }

  lemma ApplyLinked(s: State, ctx: seq<Ctx>, d: nat, t: nat, e: Effect)
    requires Linked(s) && d < |s.ctx| && t < |ctx| && LinkMove(d, s.ctx[d], t, ctx[t], e)
    requires ctx == s.ctx || (t == |s.ctx| && ctx == s.ctx + [ctx[t]] && ctx[t].link.NoLink? && !HasTarget(ctx[t].at))
    requires e.ready.Pop? || e.ready.Rotate? ==> |s.ready| > 0 && s.ready[0] == t
    requires e.waiters.Pop? || e.waiters.Rotate? ==> |s.waiters| > 0 && s.waiters[0] == t
    ensures Linked(Apply(s, ctx, d, t, e))
  {
    var now := Apply(s, ctx, d, t, e).ctx;
    QueueMove(s.ctx, now, d, s.ctx[d], t, ctx[t], e, s.ready, e.ready, OnReady);
    QueueMove(s.ctx, now, d, s.ctx[d], t, ctx[t], e, s.waiters, e.waiters, OnWaiters);
    WaitMove(s.ctx, now, d, s.ctx[d], t, ctx[t], e, s.waiting);
    HoldMove(s.ctx, now, d, s.ctx[d], t, ctx[t], e);
  }

  /** A head is taken only by a step whose other context it is. */
  lemma HeadTaken(s: State, step: Step)
    requires Enabled(s, step)
    ensures var e := EffectOf(s, step); var t := Other(s, step);
            && (e.ready.Pop? || e.ready.Rotate? ==> |s.ready| > 0 && s.ready[0] == t)
            && (e.waiters.Pop? || e.waiters.Rotate? ==> |s.waiters| > 0 && s.waiters[0] == t)
  {
  }

  lemma ApplyFits(s: State, ctx: seq<Ctx>, d: nat, t: nat, e: Effect)
    requires forall c | 0 <= c < |s.ctx| :: Fit(s.ctx[c])
    requires d < |s.ctx| && t < |ctx| && (ctx == s.ctx || (t == |s.ctx| && ctx == s.ctx + [ctx[t]]))
    requires Fit(e.self) && (t != d ==> Fit(e.other))
    ensures forall c | 0 <= c < |Apply(s, ctx, d, t, e).ctx| :: Fit(Apply(s, ctx, d, t, e).ctx[c])
  {
  }

  lemma FitsStep(s: State, step: Step)
    requires Inv(s) && Enabled(s, step)
    ensures forall c | 0 <= c < |Do(s, step).ctx| :: Fit(Do(s, step).ctx[c])
  {
    var t, ctx := Other(s, step), Contexts(s, step);
    PartnerFound(s, step);
    FitAct(step, s.ctx[step.d], t, ctx[t], t == |s.ctx|, Env(s.readyCount, s.waitCount, s.clock), s.msgs);
    ApplyFits(s, ctx, step.d, t, EffectOf(s, step));
  }

  lemma LinkedStep(s: State, step: Step)
    requires Inv(s) && Enabled(s, step)
    ensures Linked(Do(s, step))
  {
    var t, ctx := Other(s, step), Contexts(s, step);
    PartnerFound(s, step);
    LinkAct(step, s.ctx[step.d], t, ctx[t], t == |s.ctx|, Env(s.readyCount, s.waitCount, s.clock), s.msgs);
    HeadTaken(s, step);
    ApplyLinked(s, ctx, step.d, t, EffectOf(s, step));
  }

  lemma InvStep(s: State, step: Step)
    requires Inv(s) && Enabled(s, step)
    ensures Inv(Do(s, step))
  {
    FitsStep(s, step);
    LinkedStep(s, step);
  }
}
