/** A run of the scheduler after which the count of waiting kernel threads is less than nothing:
    the first cproc counts itself as waiting; the second creates a third, whose wakeup message
    uses up that count, and then wakes the first, which uncounts itself. */
module CancelledWait {

  import opened Scheduler
  import opened SchedulerRuns

  function Cproc(state: CState, locked: bool, at: At, link: Link, woken: nat, returned: nat): Ctx {
    Ctx(false, state, locked, at, link, woken, returned, 0)
  }

  function Program(at: At): Ctx {
    Cproc(Running, false, at, NoLink, 0, 0)
  }

  function Created(link: Link): Ctx {
    Cproc(Blocked, false, Parked, link, 1, 0)
  }

  function Stack(): Ctx {
    Ctx(true, Running, false, Parked, Held(0, Lent), 0, 0, 0)
  }

  predicate Leads(s: State, step: Step, t: State) {
    Enabled(s, step) && Do(s, step) == t
  }

  function S0(): State {
    State([Program(User), Program(User)], [], {}, [], 0, 0, 0, 0)
  }

  function S1(): State {
    State([Cproc(Running, true, Queued, OnWait, 0, 0), Program(User)], [], {0}, [], 0, 0, 0, 1)
  }

  function S2(): State {
    State([Cproc(Switching, false, Block1, OnWait, 0, 0), Program(User)], [], {0}, [], 0, 0, 0, 2)
  }

  function S3(): State {
    State([Cproc(Switching, false, Block3, OnWait, 0, 0), Program(User)], [], {0}, [], 0, 1, 0, 3)
  }

  function S4(): State {
    State([Cproc(Switching, false, Block3, OnWait, 0, 0), Program(Ready1(2, InUser, false)), Created(Held(1, Waking))],
          [], {0}, [], 0, 1, 0, 4)
  }

  function S5(): State {
    State([Cproc(Switching, false, Block3, OnWait, 0, 0), Program(Ready2(2, InUser, false)),
           Created(Held(1, Queueing))],
          [], {0}, [], 0, 1, 0, 5)
  }

  function S6(): State {
    State([Cproc(Switching, false, Block3, OnWait, 0, 0), Program(Ready3(InUser)), Created(OnReady)],
          [2], {0}, [], 0, 0, 0, 6)
  }

  function S7(): State {
    State([Cproc(Switching, false, Block3, OnWait, 0, 0), Program(User), Created(OnReady)], [2], {0}, [], 0, 0, 1, 7)
  }

  function S8(): State {
    State([Cproc(Switching, false, Block3, Held(1, Waking), 1, 0), Program(Ready1(0, InUser, false)), Created(OnReady)],
          [2], {}, [], 0, 0, 1, 8)
  }

  function S9(): State {
    State([Cproc(Running, false, Block3, NoLink, 1, 0), Program(User), Created(OnReady)], [2], {}, [], 0, 0, 1, 9)
  }

  function S10(): State {
    State([Cproc(Running, false, Block4(3), NoLink, 1, 0), Program(User), Created(OnReady), Stack()],
          [2], {}, [], 0, 0, 1, 10)
  }

  function S11(): State {
    State([Cproc(Running, false, Unwait1(3), NoLink, 1, 1), Program(User), Created(OnReady), Stack()],
          [2], {}, [], 0, 0, 1, 11)
  }

  function S12(): State {
    State([Cproc(Running, false, Unwait2(3), NoLink, 1, 1), Program(User), Created(OnReady), Stack()],
          [2], {}, [], 0, -1, 1, 12)
  }

  /** A run from here ends with one less than no waiting thread counted. */
  ghost predicate Ends(s: State) {
    exists steps :: Possible(s, steps) && Final(s, steps).waitCount == -1
  }

  lemma Earlier(s: State, step: Step, t: State)
    requires Leads(s, step, t) && Ends(t)
    ensures Ends(s)
  {
    var rest :| Possible(t, rest) && Final(t, rest).waitCount == -1;
    assert ([step] + rest)[1..] == rest;
    assert Possible(s, [step] + rest) && Final(s, [step] + rest).waitCount == -1;
  }

  lemma From12()
    ensures Ends(S12())
  {
    assert Possible(S12(), []) && Final(S12(), []).waitCount == -1;
  }

  /** The first cproc finds itself saved and takes its count back. */
  lemma From11()
    ensures Ends(S11())
  {
    assert Leads(S11(), Run(0), S12());
    From12();
    Earlier(S11(), Run(0), S12());
  }

  lemma From10()
    ensures Ends(S10())
  {
    assert Leads(S10(), Run(0), S11());
    From11();
    Earlier(S10(), Run(0), S11());
  }

  lemma From9()
    ensures Ends(S9())
  {
    assert Leads(S9(), Run(0), S10());
    From10();
    Earlier(S9(), Run(0), S10());
  }

  /** Before that the second wakes it. */
  lemma From8()
    ensures Ends(S8())
  {
    assert Leads(S8(), Run(1), S9());
    From9();
    Earlier(S8(), Run(1), S9());
  }

  lemma From7()
    ensures Ends(S7())
  {
    assert Leads(S7(), Signal(1, 0), S8());
    From8();
    Earlier(S7(), Signal(1, 0), S8());
  }

  lemma From6()
    ensures Ends(S6())
  {
    assert Leads(S6(), Run(1), S7());
    From7();
    Earlier(S6(), Run(1), S7());
  }

  lemma From5()
    ensures Ends(S5())
  {
    assert Leads(S5(), Run(1), S6());
    From6();
    Earlier(S5(), Run(1), S6());
  }

  /** Before that the third's wakeup message has taken the count. */
  lemma From4()
    ensures Ends(S4())
  {
    assert Leads(S4(), Run(1), S5());
    From5();
    Earlier(S4(), Run(1), S5());
  }

  lemma From3()
    ensures Ends(S3())
  {
    assert Leads(S3(), Create(1), S4());
    From4();
    Earlier(S3(), Create(1), S4());
  }

  lemma From2()
    ensures Ends(S2())
  {
    assert Leads(S2(), Run(0), S3());
    From3();
    Earlier(S2(), Run(0), S3());
  }

  lemma From1()
    ensures Ends(S1())
  {
    assert Leads(S1(), Run(0), S2());
    From2();
    Earlier(S1(), Run(0), S2());
  }

  /** Before that the first cproc has counted itself. */
  lemma From0()
    ensures Ends(S0())
  {
    assert Leads(S0(), Wait(0), S1());
    From1();
    Earlier(S0(), Wait(0), S1());
  }

  lemma WaitCountNegative()
    ensures exists steps :: Possible(Start(2), steps) && Final(Start(2), steps).waitCount == -1
  {
    From0();
    assert Start(2).ctx == S0().ctx;
  }
}
