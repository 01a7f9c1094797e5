/**
 * A pool whose connections are used only by its own asynchronous jobs: the executor and the pool step side by side,
 * and the worker that runs a job is the caller that leases, each job holding one connection at a time.
 */
module AsyncPool {
  import E = Executor
  import P = ConnectionPool

  datatype System = System(exec: E.State, pool: P.Pool)

  datatype Action =
    | Exec(exec: E.Action)
    | Lease(pool: P.Action) // by the worker that is its caller
    | StopCallback
    | Close

  function ExecutorConfig(c: P.PoolConfig): E.Config { E.Configure(c.asyncWorkerCount, c.asyncQueueCapacity) }

  function Start(c: P.PoolConfig): System { System(E.Initial, P.Initial(c)) }

  predicate RunsJob(s: System, w: nat) { w < |s.exec.workers| && s.exec.workers[w].Running? }

  /** Jobs come while the pool is open, end when they have returned their connection, and are shut down after it closed. */
  predicate Enabled(c: P.PoolConfig, s: System, a: Action) {
    match a
    case Exec(e) =>
      && E.Enabled(ExecutorConfig(c), s.exec, e)
      && (e.Submit? ==> !s.pool.closed)
      && (e.Stop? ==> s.pool.closed)
      && (e.Finish? ==> P.Absent(s.pool, e.worker))
    case Lease(l) =>
      && (l.Arrive? || l.Recheck? || l.Created? || l.CreationFails? || l.GiveBack?)
      && RunsJob(s, l.caller)
      && P.Enabled(c, s.pool, l)
    case StopCallback => true
    case Close => !s.pool.closed
  }

  function Apply(c: P.PoolConfig, s: System, a: Action): System
    requires Enabled(c, s, a)
  {
    match a
    case Exec(e) => s.(exec := E.Apply(ExecutorConfig(c), s.exec, e))
    case Lease(l) => s.(pool := P.Apply(c, s.pool, l))
    case StopCallback => s.(pool := P.Apply(c, s.pool, P.NotifyAll))
    case Close => s.(pool := P.Apply(c, s.pool, P.Close))
  }

  predicate Possible(c: P.PoolConfig, s: System, run: seq<Action>)
    decreases |run|
  {
    run != [] ==> Enabled(c, s, run[0]) && Possible(c, Apply(c, s, run[0]), run[1..])
  }

  function Execute(c: P.PoolConfig, s: System, run: seq<Action>): System
    requires Possible(c, s, run)
    decreases |run|
  {
    if run == [] then s else Execute(c, Apply(c, s, run[0]), run[1..])
  }

  /** Only running jobs use the pool, and none of them waits. */
  ghost predicate JobsOnly(s: System) {
    && (forall t :: t in s.pool.leased || t in s.pool.creating ==> RunsJob(s, t))
    && s.pool.asleep == {} && s.pool.woken == {}
  }

  ghost predicate Invariant(c: P.PoolConfig, s: System) {
    E.Invariant(ExecutorConfig(c), s.exec) && P.Invariant(c, s.pool) && JobsOnly(s)
  }

  function Below(n: nat): (r: set<nat>)
    ensures |r| == n
    ensures forall i: nat :: i in r <==> i < n
  {
    if n == 0 then {} else Below(n - 1) + {n - 1}
  }

  lemma SubsetIsSmaller(a: set<nat>, b: set<nat>)
    requires a <= b
    ensures |a| <= |b|
  {
    assert b == a + (b - a);
  }

  /**
   * A job without a connection finds one to take or room for one, on an open pool: at most as many jobs run as
   * there may be connections, and each of the others uses at most one.
   */
  lemma AvailableToJob(c: P.PoolConfig, s: System, w: nat)
    requires P.Clamp(c) == c && Invariant(c, s)
    requires RunsJob(s, w) && P.Absent(s.pool, w)
    ensures P.Available(c, s.pool)
  {
    var users := s.pool.leased.Keys + s.pool.creating;
    assert |users| == |s.pool.leased| + |s.pool.creating|;
    assert users + {w} <= Below(|s.exec.workers|);
    SubsetIsSmaller(users + {w}, Below(|s.exec.workers|));
    assert |users + {w}| == |users| + 1;
  }

  lemma JobsGoOn(c: E.Config, s: E.State, e: E.Action, t: nat)
    requires E.Enabled(c, s, e) && t < |s.workers| && s.workers[t].Running?
    requires e.Finish? ==> e.worker != t
    ensures var r := E.Apply(c, s, e); t < |r.workers| && r.workers[t] == s.workers[t]
  {
  }

  lemma JobsStayAlone(c: P.PoolConfig, s: System, l: P.Action)
    requires P.Clamp(c) == c && Invariant(c, s) && Enabled(c, s, Lease(l))
    ensures JobsOnly(Apply(c, s, Lease(l)))
  {
    hide E.Invariant, P.Invariant, E.Enabled;
    if l.Arrive? { AvailableToJob(c, s, l.caller); }
  }

  lemma StepKeepsInvariant(c: P.PoolConfig, s: System, a: Action)
    requires P.Clamp(c) == c && Invariant(c, s) && Enabled(c, s, a)
    ensures Invariant(c, Apply(c, s, a))
  {
    hide E.Invariant, P.Invariant, E.Apply;
    match a
    case Exec(e) =>
      E.StepKeepsInvariant(ExecutorConfig(c), s.exec, e);
      var r := Apply(c, s, a);
      forall t | t in s.pool.leased || t in s.pool.creating ensures RunsJob(r, t) {
        JobsGoOn(ExecutorConfig(c), s.exec, e, t);
      }
    case Lease(l) =>
      P.StepKeepsInvariant(c, s.pool, l);
      JobsStayAlone(c, s, l);
    case StopCallback =>
      P.StepKeepsInvariant(c, s.pool, P.NotifyAll);
    case Close =>
      P.StepKeepsInvariant(c, s.pool, P.Close);
  }

  lemma {:induction false} RunKeepsInvariant(c: P.PoolConfig, s: System, run: seq<Action>)
    requires P.Clamp(c) == c && Invariant(c, s) && Possible(c, s, run)
    ensures Invariant(c, Execute(c, s, run))
    decreases |run|
  {
    if run != [] {
      StepKeepsInvariant(c, s, run[0]);
      RunKeepsInvariant(c, Apply(c, s, run[0]), run[1..]);
    }
  }

  lemma StartIsInvariant(c: P.PoolConfig)
    requires P.Clamp(c) == c
    ensures Invariant(c, Start(c))
  {
    assert P.Initial(c).leased.Keys == {};
  }

  /** Jobs never block on the pool: whoever runs and has no connection gets one at once, is refused, or was stopped. */
  lemma JobsNeverWait(settings: P.PoolConfig, run: seq<Action>, w: nat, late: bool)
    requires Possible(P.Clamp(settings), Start(P.Clamp(settings)), run)
    ensures var c := P.Clamp(settings); var s := Execute(c, Start(c), run);
      && s.pool.asleep == {} && s.pool.woken == {}
      && (RunsJob(s, w) && P.Absent(s.pool, w) ==>
            var d := P.Arrival(c, s.pool, false, late);
            && P.WaitIsOver(c, s.pool)
            && (d.Closed? <==> s.pool.closed)
            && (!s.pool.closed && !late ==> d.Reuse? || d.Create?))
  {
    var c := P.Clamp(settings);
    var s := Execute(c, Start(c), run);
    StartIsInvariant(c);
    RunKeepsInvariant(c, Start(c), run);
    if RunsJob(s, w) && P.Absent(s.pool, w) { AvailableToJob(c, s, w); }
  }

  /** When the executor of a closed pool has shut down, every connection is gone and every promise is settled. */
  lemma ClosingLeavesNothing(settings: P.PoolConfig, run: seq<Action>)
    requires Possible(P.Clamp(settings), Start(P.Clamp(settings)), run)
    ensures var c := P.Clamp(settings); var s := Execute(c, Start(c), run);
      s.pool.closed && s.exec.stopping && s.exec.phase.Free? ==>
        && s.pool.total == 0 && s.pool.idle == [] && s.pool.leased == map[] && s.pool.creating == {}
        && (forall job :: 0 <= job < |s.exec.promises| ==> |s.exec.promises[job]| == 1)
  {
    var c := P.Clamp(settings);
    var s := Execute(c, Start(c), run);
    StartIsInvariant(c);
    RunKeepsInvariant(c, Start(c), run);
    if s.pool.closed && s.exec.stopping && s.exec.phase.Free? {
      assert forall t :: !RunsJob(s, t);
      assert s.pool.leased.Keys == {};
      E.StoppedIsSettled(ExecutorConfig(c), s.exec);
    }
  }
}
