/**
 * Waiting with stop tokens. A caller registers a callback with its token before it takes the mutex; a stop request
 * sets the token's flag, and then its callback notifies all waiters, without the mutex. The callback is taken back
 * when `acquire` is left, and if it has not run by then it never will.
 */
module StopTokens {
  import P = ConnectionPool

  type Caller = P.Caller

  /** `pending`: callers whose token has fired and whose callback has still to run. */
  datatype State = State(pool: P.Pool, registered: set<Caller>, fired: set<Caller>, pending: set<Caller>)

  /**
   * Pool: a step of the pool; a token that fires during a lock region counts as late there. Missed: the token fires
   * and its callback runs after the caller's wait predicate was false and before the caller sleeps.
   */
  datatype Action =
    | Pool(step: P.Action)
    | Missed(step: P.Action)
    | Register(caller: Caller)
    | Fire(caller: Caller)
    | Callback(caller: Caller)
    | Deregister(caller: Caller)

  function Start(c: P.PoolConfig): State { State(P.Initial(c), {}, {}, {}) }

  predicate Looks(a: P.Action) { a.Arrive? || a.Recheck? }

  function Decision(c: P.PoolConfig, p: P.Pool, a: P.Action): P.Decision
    requires Looks(a)
  {
    if a.Arrive? then P.Arrival(c, p, a.stop, a.late) else P.Look(c, p, a.stop, a.late, a.timeUp)
  }

  predicate Enabled(c: P.PoolConfig, s: State, a: Action) {
    match a
    case Pool(step) =>
      && P.Enabled(c, s.pool, step) && !step.NotifyAll?
      && (Looks(step) ==> (step.stop <==> step.caller in s.fired) && (step.late ==> step.caller in s.registered))
    case Missed(step) =>
      && Looks(step) && P.Enabled(c, s.pool, step) && !step.stop && !step.late && Decision(c, s.pool, step).Sleep?
      && step.caller in s.registered && step.caller !in s.fired
    case Register(t) => t !in s.registered && P.Absent(s.pool, t)
    case Fire(t) => t in s.registered && t !in s.fired
    case Callback(t) => t in s.pending
    case Deregister(t) => t in s.registered && !P.Waiting(s.pool, t) && t !in s.pool.creating
  }

  /** The callback wakes everyone who sleeps, and then the caller goes to sleep. */
  function MissedPool(p: P.Pool, t: Caller): P.Pool {
    var q := P.WakeAll(p);
    P.Settle(q.(woken := q.woken - {t}), t, P.Sleep)
  }

  function Fired(s: State, t: Caller): State { s.(fired := s.fired + {t}, pending := s.pending + {t}) }

  function Apply(c: P.PoolConfig, s: State, a: Action): State
    requires Enabled(c, s, a)
  {
    match a
    case Pool(step) =>
      var q := s.(pool := P.Apply(c, s.pool, step));
      if Looks(step) && step.late && step.caller !in s.fired then Fired(q, step.caller) else q
    case Missed(step) => s.(pool := MissedPool(s.pool, step.caller), fired := s.fired + {step.caller})
    case Register(t) => s.(registered := s.registered + {t})
    case Fire(t) => Fired(s, t)
    case Callback(t) => s.(pool := P.WakeAll(s.pool), pending := s.pending - {t})
    case Deregister(t) => s.(registered := s.registered - {t}, fired := s.fired - {t}, pending := s.pending - {t})
  }

  predicate Possible(c: P.PoolConfig, s: State, run: seq<Action>)
    decreases |run|
  {
    run != [] ==> Enabled(c, s, run[0]) && Possible(c, Apply(c, s, run[0]), run[1..])
  }

  function Execute(c: P.PoolConfig, s: State, run: seq<Action>): State
    requires Possible(c, s, run)
    decreases |run|
  {
    if run == [] then s else Execute(c, Apply(c, s, run[0]), run[1..])
  }

  /** The steps of the pool alone that a step with tokens comes to. */
  function Projection(a: Action): seq<P.Action> {
    match a
    case Pool(step) => [step]
    case Missed(step) => [P.NotifyAll, step]
    case Callback(_) => [P.NotifyAll]
    case _ => []
  }

  /** Every step is a run of the pool's own steps, so whatever these keep is kept with tokens too. */
  lemma StepProjects(c: P.PoolConfig, s: State, a: Action)
    requires Enabled(c, s, a) && P.Invariant(c, s.pool)
    ensures P.Possible(c, s.pool, Projection(a)) && P.Execute(c, s.pool, Projection(a)) == Apply(c, s, a).pool
  {
    match a
    case Pool(step) => P.NothingRuns(c, P.Apply(c, s.pool, step)); OneStep(c, s.pool, step);
    case Missed(step) =>
      var q := P.Apply(c, s.pool, P.NotifyAll);
      MissedStep(c, s.pool, step);
      OneStep(c, q, step);
      assert [P.NotifyAll, step][1..] == [step];
    case Callback(_) => OneStep(c, s.pool, P.NotifyAll);
    case _ => P.NothingRuns(c, s.pool);
  }

  lemma OneStep(c: P.PoolConfig, p: P.Pool, step: P.Action)
    requires P.Enabled(c, p, step)
    ensures P.Possible(c, p, [step]) && P.Execute(c, p, [step]) == P.Apply(c, p, step)
  {
    assert [step][1..] == [];
  }

  lemma MissedStep(c: P.PoolConfig, p: P.Pool, step: P.Action)
    requires Looks(step) && P.Enabled(c, p, step) && P.OneRole(p) && !step.stop && !step.late && Decision(c, p, step).Sleep?
    ensures var q := P.Apply(c, p, P.NotifyAll);
      P.Enabled(c, q, step) && P.Apply(c, q, step) == MissedPool(p, step.caller)
  {
    var q := P.Apply(c, p, P.NotifyAll);
    if step.Arrive? { assert q.woken - {step.caller} == q.woken; } else { assert q.asleep - {step.caller} == q.asleep; }
  }

  ghost predicate Invariant(c: P.PoolConfig, s: State) {
    P.Invariant(c, s.pool) && s.pending <= s.fired <= s.registered
  }

  lemma StepKeepsInvariant(c: P.PoolConfig, s: State, a: Action)
    requires Invariant(c, s) && Enabled(c, s, a)
    ensures Invariant(c, Apply(c, s, a))
  {
    hide P.Invariant, P.Apply;
    StepProjects(c, s, a);
    P.RunKeepsInvariant(c, s.pool, Projection(a));
  }

  lemma {:induction false} RunKeepsInvariant(c: P.PoolConfig, s: State, run: seq<Action>)
    requires Invariant(c, s) && Possible(c, s, run)
    ensures Invariant(c, Execute(c, s, run))
    decreases |run|
  {
    if run != [] {
      StepKeepsInvariant(c, s, run[0]);
      RunKeepsInvariant(c, Apply(c, s, run[0]), run[1..]);
    }
  }

  lemma StartIsInvariant(config: P.PoolConfig)
    ensures Invariant(P.Clamp(config), Start(P.Clamp(config)))
  {
    assert P.Initial(P.Clamp(config)).leased.Keys == {};
  }

  // ---------------------------------------------------------------------------------------------
  // Wakeups lost to everyone but a timeout
  // ---------------------------------------------------------------------------------------------

  /** While anyone sleeps, a woken waiter is on its way to each spare connection, or a callback will wake them all. */
  ghost predicate Covered(c: P.PoolConfig, s: State) {
    s.pool.asleep != {} && !s.pool.closed ==> P.Spare(c, s.pool) <= |s.pool.woken| || s.pending != {}
  }

  /** A woken waiter leaves because of its token, though all the woken were needed and no callback is on its way. */
  ghost predicate LeavesWithWakeup(c: P.PoolConfig, s: State, a: Action) {
    a.Pool? && P.WakeupWasted(c, s.pool, a.step) && a.step.stop && s.pending == {}
  }

  /** The last callback on its way is taken back, though it was needed. */
  ghost predicate TakesCallback(c: P.PoolConfig, s: State, a: Action) {
    && a.Deregister? && s.pending == {a.caller}
    && s.pool.asleep != {} && !s.pool.closed && P.Spare(c, s.pool) > |s.pool.woken|
  }

  /** These are the only two ways to lose a wakeup, so that only its own timeout is left to a sleeper. */
  lemma WakeupIsLostIffTaken(c: P.PoolConfig, s: State, a: Action)
    requires Invariant(c, s) && Covered(c, s) && Enabled(c, s, a)
    ensures Covered(c, Apply(c, s, a)) <==> !LeavesWithWakeup(c, s, a) && !TakesCallback(c, s, a)
  {
    hide P.Invariant, P.Apply, P.Spare, P.WakeupWasted;
    match a
    case Pool(step) => PoolStepCovers(c, s, step);
    case Missed(step) => MissedCovers(c, s, step);
    case Register(_) =>
    case Fire(_) =>
    case Callback(_) =>
    case Deregister(t) => assert s.pending - {t} == {} <==> s.pending <= {t};
  }

  lemma PoolStepCovers(c: P.PoolConfig, s: State, step: P.Action)
    requires Invariant(c, s) && Covered(c, s) && Enabled(c, s, Pool(step))
    ensures Covered(c, Apply(c, s, Pool(step))) <==> !LeavesWithWakeup(c, s, Pool(step))
  {
    hide P.Invariant, P.Apply;
    if s.pending == {} { P.WakeupIsLostIffWasted(c, s.pool, step); }
  }

  /** A caller that goes to sleep has found nothing to spare. */
  lemma MissedCovers(c: P.PoolConfig, s: State, step: P.Action)
    requires Invariant(c, s) && Enabled(c, s, Missed(step))
    ensures Covered(c, Apply(c, s, Missed(step)))
  {
    hide P.Exclusive, P.OneRole;
  }

  predicate Tokenless(run: seq<Action>) { forall i :: 0 <= i < |run| ==> !run[i].Register? }

  /** Without stop tokens no waiter ever sleeps beside a connection it could have: every run of a new pool. */
  lemma NoTokensNoLoss(config: P.PoolConfig, run: seq<Action>)
    requires Possible(P.Clamp(config), Start(P.Clamp(config)), run) && Tokenless(run)
    ensures var c := P.Clamp(config); P.NoLostWakeup(c, Execute(c, Start(c), run).pool)
  {
    StartIsInvariant(config);
    TokenlessRun(P.Clamp(config), Start(P.Clamp(config)), run);
  }

  lemma {:induction false} TokenlessRun(c: P.PoolConfig, s: State, run: seq<Action>)
    requires Invariant(c, s) && Covered(c, s) && s.registered == {} && Possible(c, s, run) && Tokenless(run)
    ensures P.NoLostWakeup(c, Execute(c, s, run).pool)
    decreases |run|
  {
    hide P.Invariant, P.Apply;
    if run != [] {
      StepKeepsInvariant(c, s, run[0]);
      WakeupIsLostIffTaken(c, s, run[0]);
      TokenlessRun(c, Apply(c, s, run[0]), run[1..]);
    }
  }

  // ---------------------------------------------------------------------------------------------
  // A wakeup lost
  // ---------------------------------------------------------------------------------------------

  lemma RunsOn(c: P.PoolConfig, s: State, a: Action, rest: seq<Action>)
    requires Enabled(c, s, a) && Possible(c, Apply(c, s, a), rest)
    ensures Possible(c, s, [a] + rest) && Execute(c, s, [a] + rest) == Execute(c, Apply(c, s, a), rest)
  {
    assert ([a] + rest)[0] == a && ([a] + rest)[1..] == rest;
  }

  const Small := P.PoolConfig(1, 1, 1, 1)

  /** The pool of one connection, leased by caller 0 or idle, with these callers asleep and woken. */
  function Leased(asleep: set<Caller>): P.Pool { P.Pool([], 1, false, map[0 := 0], {}, asleep, {}, 1) }

  function Idle(woken: set<Caller>): P.Pool { P.Pool([0], 1, false, map[], {}, {2}, woken, 1) }

  /** Caller 1 with its token fired and no callback left. */
  function Deaf(p: P.Pool): State { State(p, {1}, {1}, {}) }

  const LastSteps := [Pool(P.Arrive(2, false, false))] + ([Pool(P.GiveBack(0, true, 1))] + ([Pool(P.Recheck(1, true, true, false))] + []))

  /**
   * Caller 1 misses its own callback and sleeps; caller 2 sleeps too. The connection returned wakes caller 1, which
   * leaves because its token has fired: caller 2 sleeps on beside the idle connection until its own time is up.
   */
  const LosingRun := [Pool(P.Arrive(0, false, false))] + ([Register(1)] + ([Missed(P.Arrive(1, false, false))] + LastSteps))

  lemma LastStepsLose()
    ensures Possible(Small, Deaf(Leased({1})), LastSteps)
    ensures Execute(Small, Deaf(Leased({1})), LastSteps) == Deaf(Idle({}))
  {
    hide Possible, Execute, Enabled, Apply, Leased, Idle;
    NothingRuns(Deaf(Idle({})));
    LastStep();
    RunsOn(Small, Deaf(Idle({1})), Pool(P.Recheck(1, true, true, false)), []);
    ReturnStep();
    RunsOn(Small, Deaf(Leased({1, 2})), Pool(P.GiveBack(0, true, 1)), [Pool(P.Recheck(1, true, true, false))] + []);
    SecondSleeps();
    RunsOn(Small, Deaf(Leased({1})), Pool(P.Arrive(2, false, false)), [Pool(P.GiveBack(0, true, 1))] + ([Pool(P.Recheck(1, true, true, false))] + []));
  }

  /** A cancelled waiter takes a wakeup with it, and no callback makes good for it. */
  lemma CancelledWaiterTakesTheWakeup()
    ensures P.Clamp(Small) == Small && Possible(Small, Start(Small), LosingRun)
    ensures var s := Execute(Small, Start(Small), LosingRun);
      && s.pool.idle == [0] && s.pool.asleep == {2} && s.pool.woken == {} && s.pending == {} && !s.pool.closed
      && !Covered(Small, s)
  {
    hide Possible, Execute, Enabled, Apply;
    LastStepsLose();
    MissedFirst();
    var p := Leased({});
    RunsOn(Small, State(p, {1}, {}, {}), Missed(P.Arrive(1, false, false)), LastSteps);
    FirstSteps();
    RunsOn(Small, State(p, {}, {}, {}), Register(1), [Missed(P.Arrive(1, false, false))] + LastSteps);
    RunsOn(Small, Start(Small), Pool(P.Arrive(0, false, false)), [Register(1)] + ([Missed(P.Arrive(1, false, false))] + LastSteps));
  }

  lemma FirstSteps()
    ensures var lease := Pool(P.Arrive(0, false, false));
      Enabled(Small, Start(Small), lease) && Apply(Small, Start(Small), lease) == State(Leased({}), {}, {}, {})
    ensures var s := State(Leased({}), {}, {}, {}); Enabled(Small, s, Register(1)) && Apply(Small, s, Register(1)) == s.(registered := {1})
  {
    assert Start(Small).pool.idle == [0];
    var none: set<Caller> := {};
    assert none + {1} == {1};
  }

  lemma MissedFirst()
    ensures var s, a := State(Leased({}), {1}, {}, {}), Missed(P.Arrive(1, false, false));
      Enabled(Small, s, a) && Apply(Small, s, a) == Deaf(Leased({1}))
  {
    var none: set<Caller> := {};
    assert none + none - {1} == none && none + {1} == {1};
  }

  lemma SecondSleeps()
    ensures var s, a := Deaf(Leased({1})), Pool(P.Arrive(2, false, false)); Enabled(Small, s, a) && Apply(Small, s, a) == Deaf(Leased({1, 2}))
  {
    assert {1} + {2} == {1, 2};
  }

  lemma ReturnStep()
    ensures var s, a := Deaf(Leased({1, 2})), Pool(P.GiveBack(0, true, 1)); Enabled(Small, s, a) && Apply(Small, s, a) == Deaf(Idle({1}))
  {
    assert {1, 2} - {1} == {2} && map[0 := 0] - {0} == map[];
  }

  lemma LastStep()
    ensures var s, a := Deaf(Idle({1})), Pool(P.Recheck(1, true, true, false)); Enabled(Small, s, a) && Apply(Small, s, a) == Deaf(Idle({}))
  {
    assert {2} - {1} == {2};
  }

  lemma NothingRuns(s: State)
    ensures Possible(Small, s, []) && Execute(Small, s, []) == s
  {
  }
}
