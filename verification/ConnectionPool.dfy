/**
 * The connection pool as a protocol of atomic steps: each step is one region under the pool's mutex, or the end of
 * a creation, which runs outside it. A caller may be refused, wait, create, or hold one connection.
 */
module ConnectionPool {
  type Caller = nat
  type Conn = nat

  datatype PoolConfig = PoolConfig(minConnections: nat, maxConnections: nat, asyncWorkerCount: nat, asyncQueueCapacity: nat)

  function Clamp(c: PoolConfig): (r: PoolConfig)
    ensures 1 <= r.maxConnections && r.minConnections <= r.maxConnections
    ensures 1 <= r.asyncWorkerCount <= r.maxConnections && 1 <= r.asyncQueueCapacity
    ensures r == c <==> 1 <= c.asyncWorkerCount <= c.maxConnections && c.minConnections <= c.maxConnections && 1 <= c.asyncQueueCapacity
  {
    var most := if c.maxConnections == 0 then 1 else c.maxConnections;
    PoolConfig(if c.minConnections > most then most else c.minConnections,
               most,
               if c.asyncWorkerCount == 0 || c.asyncWorkerCount > most then most else c.asyncWorkerCount,
               if c.asyncQueueCapacity == 0 then 1 else c.asyncQueueCapacity)
  }

  /** Callers in `wait_for` are asleep, or woken and not yet back in the mutex. Connections are numbered as they are made. */
  datatype Pool = Pool(idle: seq<Conn>, total: int, closed: bool, leased: map<Caller, Conn>, creating: set<Caller>,
                       asleep: set<Caller>, woken: set<Caller>, made: nat)

  function Initial(c: PoolConfig): Pool {
    Pool(seq(c.minConnections, i => i), c.minConnections, false, map[], {}, {}, {}, c.minConnections)
  }

  /** What a lock region of `acquire` or `try_acquire` comes to. */
  datatype Decision = Sleep | Cancelled | Closed | TimedOut | Reuse(conn: Conn) | Create | NoConnection

  /**
   * `stop`: the caller's stop token fired before the wait predicate was evaluated; `late`: before the check that
   * follows the wait. `late` may hold without `stop`, for no mutex guards the token.
   */
  datatype Action =
    | Arrive(caller: Caller, stop: bool, late: bool)
    | Recheck(caller: Caller, stop: bool, late: bool, timeUp: bool)
    | Created(caller: Caller)
    | CreationFails(caller: Caller, notified: Caller)
    | GiveBack(caller: Caller, open: bool, notified: Caller)
    | Move(caller: Caller, target: Caller)
    | NotifyAll
    | Close

  predicate Available(c: PoolConfig, p: Pool) { p.idle != [] || p.total < c.maxConnections }

  /** The predicate of the wait, for a caller without or before a stop request. */
  predicate WaitIsOver(c: PoolConfig, p: Pool) { p.closed || Available(c, p) }

  /** The branches of `acquire` after `wait_for`, in their order. */
  function Decide(c: PoolConfig, p: Pool, late: bool, success: bool): Decision {
    if late then Cancelled
    else if p.closed then Closed
    else if !success then TimedOut
    else if p.idle != [] then Reuse(p.idle[|p.idle| - 1])
    else if p.total < c.maxConnections then Create
    else NoConnection
  }

  function Look(c: PoolConfig, p: Pool, stop: bool, late: bool, timeUp: bool): Decision {
    if stop || WaitIsOver(c, p) then Decide(c, p, late, true)
    else if timeUp then Decide(c, p, late, false)
    else Sleep
  }

  function Arrival(c: PoolConfig, p: Pool, stop: bool, late: bool): Decision {
    if p.closed then Closed else Look(c, p, stop, late, false)
  }

  predicate Absent(p: Pool, t: Caller) { t !in p.leased && t !in p.creating && t !in p.asleep && t !in p.woken }

  predicate MayNotify(p: Pool, w: Caller) { w in p.asleep || p.asleep == {} }

  predicate Enabled(c: PoolConfig, p: Pool, a: Action) {
    match a
    case Arrive(t, stop, late) => Absent(p, t) && (stop ==> late)
    case Recheck(t, stop, late, _) => (t in p.asleep || t in p.woken) && (stop ==> late)
    case Created(t) => t in p.creating
    case CreationFails(t, w) => t in p.creating && MayNotify(p, w)
    case GiveBack(t, _, w) => t in p.leased && MayNotify(p, w)
    case Move(t, u) => t in p.leased && Absent(p, u)
    case NotifyAll => true
    case Close => !p.closed
  }

  /** The pool after a caller who is not waiting any more acts on a decision. */
  function Settle(p: Pool, t: Caller, d: Decision): Pool {
    match d
    case Sleep => p.(asleep := p.asleep + {t})
    case Reuse(conn) => p.(idle := if p.idle != [] then p.idle[..|p.idle| - 1] else [], leased := p.leased[t := conn])
    case Create => p.(total := p.total + 1, creating := p.creating + {t})
    case _ => p
  }

  function NotifyOne(p: Pool, w: Caller): Pool {
    if w in p.asleep then p.(asleep := p.asleep - {w}, woken := p.woken + {w}) else p
  }

  function WakeAll(p: Pool): Pool { p.(asleep := {}, woken := p.woken + p.asleep) }

  /** The pool after `return_connection`, before it notifies. */
  function Returned(p: Pool, t: Caller, open: bool): Pool
    requires t in p.leased
  {
    var q := p.(leased := p.leased - {t});
    if p.closed || !open then q.(total := p.total - 1) else q.(idle := p.idle + [p.leased[t]])
  }

  function Apply(c: PoolConfig, p: Pool, a: Action): Pool
    requires Enabled(c, p, a)
  {
    match a
    case Arrive(t, stop, late) => Settle(p, t, Arrival(c, p, stop, late))
    case Recheck(t, stop, late, timeUp) =>
      Settle(p.(asleep := p.asleep - {t}, woken := p.woken - {t}), t, Look(c, p, stop, late, timeUp))
    case Created(t) => p.(creating := p.creating - {t}, leased := p.leased[t := p.made], made := p.made + 1)
    case CreationFails(t, w) => NotifyOne(p.(creating := p.creating - {t}, total := p.total - 1), w)
    case GiveBack(t, open, w) => NotifyOne(Returned(p, t, open), w)
    case Move(t, u) => p.(leased := (p.leased - {t})[u := p.leased[t]])
    case NotifyAll => WakeAll(p)
    case Close => WakeAll(p.(closed := true, idle := [], total := p.total - |p.idle|))
  }

  predicate Possible(c: PoolConfig, p: Pool, run: seq<Action>)
    decreases |run|
  {
    run != [] ==> Enabled(c, p, run[0]) && Possible(c, Apply(c, p, run[0]), run[1..])
  }

  function Execute(c: PoolConfig, p: Pool, run: seq<Action>): Pool
    requires Possible(c, p, run)
    decreases |run|
  {
    if run == [] then p else Execute(c, Apply(c, p, run[0]), run[1..])
  }

  // ---------------------------------------------------------------------------------------------
  // What every step keeps
  // ---------------------------------------------------------------------------------------------

  predicate Distinct(s: seq<Conn>) { forall i, j :: 0 <= i < j < |s| ==> s[i] != s[j] }

  /** Every counted connection is idle, leased or being made, and there are never more than the maximum. */
  ghost predicate Conserved(c: PoolConfig, p: Pool) {
    p.total == |p.idle| + |p.leased| + |p.creating| <= c.maxConnections
  }

  /** A connection is idle once, or held by one lease, and never both. */
  ghost predicate Exclusive(idle: seq<Conn>, leased: map<Caller, Conn>, made: nat) {
    && Distinct(idle)
    && (forall t, u :: t in leased && u in leased && t != u ==> leased[t] != leased[u])
    && (forall t :: t in leased ==> leased[t] !in idle)
    && (forall t :: t in leased ==> leased[t] < made)
    && (forall conn :: conn in idle ==> conn < made)
  }

  /** A caller does one thing at a time. */
  ghost predicate OneRole(p: Pool) {
    && p.leased.Keys !! p.creating !! p.asleep !! p.woken
  }

  ghost predicate ClosedIsEmpty(p: Pool) { p.closed ==> p.idle == [] && p.asleep == {} }

  ghost predicate Invariant(c: PoolConfig, p: Pool) {
    Conserved(c, p) && Exclusive(p.idle, p.leased, p.made) && OneRole(p) && ClosedIsEmpty(p)
  }

  lemma RemoveKey<K, V>(m: map<K, V>, k: K)
    requires k in m
    ensures |m - {k}| == |m| - 1
  {
    assert (m - {k}).Keys == m.Keys - {k};
    assert |m.Keys| == |m| && |(m - {k}).Keys| == |m - {k}|;
  }

  lemma AddKey<K, V>(m: map<K, V>, k: K, v: V)
    requires k !in m
    ensures |m[k := v]| == |m| + 1
  {
    assert m[k := v].Keys == m.Keys + {k};
    assert |m.Keys| == |m| && |m[k := v].Keys| == |m[k := v]|;
  }

  lemma LeasingIsExclusive(idle: seq<Conn>, leased: map<Caller, Conn>, made: nat, t: Caller)
    requires Exclusive(idle, leased, made)
    ensures idle != [] && t !in leased ==> Exclusive(idle[..|idle| - 1], leased[t := idle[|idle| - 1]], made)
    ensures t !in leased ==> Exclusive(idle, leased[t := made], made + 1)
  {
    if idle != [] {
      var rest, conn := idle[..|idle| - 1], idle[|idle| - 1];
      assert idle == rest + [conn] && conn in idle;
      assert forall i :: 0 <= i < |rest| ==> rest[i] == idle[i] && idle[i] in idle;
    }
  }

  lemma ReturningIsExclusive(idle: seq<Conn>, leased: map<Caller, Conn>, made: nat, t: Caller)
    requires Exclusive(idle, leased, made) && t in leased
    ensures Exclusive(idle, leased - {t}, made)
    ensures Exclusive(idle + [leased[t]], leased - {t}, made)
  {
  }

  lemma MovingIsExclusive(idle: seq<Conn>, leased: map<Caller, Conn>, made: nat, t: Caller, u: Caller)
    requires Exclusive(idle, leased, made) && t in leased && u !in leased
    ensures Exclusive(idle, (leased - {t})[u := leased[t]], made)
  {
  }

  predicate Waiting(p: Pool, t: Caller) { t in p.asleep || t in p.woken }

  lemma ArrivalConserves(c: PoolConfig, p: Pool, t: Caller, d: Decision)
    requires Conserved(c, p) && t !in p.leased && t !in p.creating
    requires d.Reuse? ==> p.idle != []
    requires d.Create? ==> p.total < c.maxConnections
    ensures Conserved(c, Settle(p, t, d))
  {
    if d.Reuse? { AddKey(p.leased, t, d.conn); }
  }

  lemma ArrivalKeepsRoles(p: Pool, t: Caller, d: Decision)
    requires OneRole(p) && Absent(p, t)
    ensures OneRole(Settle(p, t, d))
  {
    if d.Reuse? { assert p.leased[t := d.conn].Keys == p.leased.Keys + {t}; }
  }

  lemma CreationConserves(c: PoolConfig, p: Pool, t: Caller)
    requires Conserved(c, p) && t in p.creating && t !in p.leased
    ensures Conserved(c, p.(creating := p.creating - {t}, leased := p.leased[t := p.made], made := p.made + 1))
    ensures Conserved(c, p.(creating := p.creating - {t}, total := p.total - 1))
  {
    AddKey(p.leased, t, p.made);
  }

  lemma CreationKeepsRoles(p: Pool, t: Caller)
    requires OneRole(p) && t in p.creating
    ensures t !in p.leased
    ensures OneRole(p.(creating := p.creating - {t}, leased := p.leased[t := p.made], made := p.made + 1))
    ensures OneRole(p.(creating := p.creating - {t}, total := p.total - 1))
  {
    assert p.leased[t := p.made].Keys == p.leased.Keys + {t};
  }

  lemma Arrives(c: PoolConfig, p: Pool, t: Caller, d: Decision)
    requires Invariant(c, p) && Absent(p, t)
    requires d.Sleep? ==> !p.closed
    requires d.Reuse? ==> p.idle != [] && d.conn == p.idle[|p.idle| - 1]
    requires d.Create? ==> p.total < c.maxConnections
    ensures Invariant(c, Settle(p, t, d))
  {
    hide Exclusive, OneRole, Conserved;
    LeasingIsExclusive(p.idle, p.leased, p.made, t);
    ArrivalConserves(c, p, t, d);
    ArrivalKeepsRoles(p, t, d);
  }

  lemma LeavingConserves(c: PoolConfig, p: Pool, t: Caller)
    requires Conserved(c, p)
    ensures Conserved(c, p.(asleep := p.asleep - {t}, woken := p.woken - {t}))
  {
  }

  lemma Leaves(c: PoolConfig, p: Pool, t: Caller)
    requires Invariant(c, p) && Waiting(p, t)
    ensures var q := p.(asleep := p.asleep - {t}, woken := p.woken - {t}); Invariant(c, q) && Absent(q, t)
  {
    hide Exclusive, Conserved;
    LeavingConserves(c, p, t);
  }

  lemma Notifies(c: PoolConfig, p: Pool, w: Caller)
    requires Invariant(c, p)
    ensures Invariant(c, NotifyOne(p, w))
  {
    hide Exclusive;
  }

  lemma WakesAll(c: PoolConfig, p: Pool)
    requires Invariant(c, p)
    ensures Invariant(c, WakeAll(p))
  {
    hide Exclusive;
  }

  lemma Creates(c: PoolConfig, p: Pool, t: Caller)
    requires Invariant(c, p) && t in p.creating
    ensures Invariant(c, p.(creating := p.creating - {t}, leased := p.leased[t := p.made], made := p.made + 1))
    ensures Invariant(c, p.(creating := p.creating - {t}, total := p.total - 1))
  {
    hide Exclusive, OneRole, Conserved;
    LeasingIsExclusive(p.idle, p.leased, p.made, t);
    CreationKeepsRoles(p, t);
    CreationConserves(c, p, t);
  }

  lemma ReturningConserves(c: PoolConfig, p: Pool, t: Caller, open: bool)
    requires Conserved(c, p) && t in p.leased
    ensures Conserved(c, Returned(p, t, open))
  {
    RemoveKey(p.leased, t);
  }

  lemma ReturningKeepsRoles(p: Pool, t: Caller, open: bool)
    requires OneRole(p) && t in p.leased
    ensures OneRole(Returned(p, t, open))
  {
    assert (p.leased - {t}).Keys <= p.leased.Keys;
  }

  lemma Returns(c: PoolConfig, p: Pool, t: Caller, open: bool)
    requires Invariant(c, p) && t in p.leased
    ensures Invariant(c, Returned(p, t, open))
  {
    hide Exclusive, Conserved, OneRole;
    ReturningIsExclusive(p.idle, p.leased, p.made, t);
    ReturningConserves(c, p, t, open);
    ReturningKeepsRoles(p, t, open);
  }

  lemma MovingConserves(c: PoolConfig, p: Pool, t: Caller, u: Caller)
    requires Conserved(c, p) && t in p.leased && u !in p.leased
    ensures Conserved(c, p.(leased := (p.leased - {t})[u := p.leased[t]]))
  {
    RemoveKey(p.leased, t);
    AddKey(p.leased - {t}, u, p.leased[t]);
  }

  lemma MovingKeepsRoles(p: Pool, t: Caller, u: Caller)
    requires OneRole(p) && t in p.leased && Absent(p, u)
    ensures OneRole(p.(leased := (p.leased - {t})[u := p.leased[t]]))
  {
    assert (p.leased - {t})[u := p.leased[t]].Keys <= p.leased.Keys + {u};
  }

  lemma Moves(c: PoolConfig, p: Pool, t: Caller, u: Caller)
    requires Invariant(c, p) && t in p.leased && Absent(p, u)
    ensures Invariant(c, p.(leased := (p.leased - {t})[u := p.leased[t]]))
  {
    hide Exclusive, Conserved, OneRole;
    MovingIsExclusive(p.idle, p.leased, p.made, t, u);
    MovingConserves(c, p, t, u);
    MovingKeepsRoles(p, t, u);
  }

  lemma ClosingKeepsRoles(p: Pool)
    requires OneRole(p)
    ensures OneRole(WakeAll(p.(closed := true, idle := [], total := p.total - |p.idle|)))
  {
  }

  lemma Closes(c: PoolConfig, p: Pool)
    requires Invariant(c, p)
    ensures Invariant(c, WakeAll(p.(closed := true, idle := [], total := p.total - |p.idle|)))
  {
    hide Exclusive, OneRole;
    EmptyIsExclusive(p.idle, p.leased, p.made);
    ClosingKeepsRoles(p);
  }

  lemma EmptyIsExclusive(idle: seq<Conn>, leased: map<Caller, Conn>, made: nat)
    requires Exclusive(idle, leased, made)
    ensures Exclusive([], leased, made)
  {
  }

  lemma StepKeepsInvariant(c: PoolConfig, p: Pool, a: Action)
    requires Invariant(c, p) && Enabled(c, p, a)
    ensures Invariant(c, Apply(c, p, a))
  {
    hide Invariant, Settle, NotifyOne, WakeAll, Returned;
    match a
    case Arrive(t, stop, late) => Arrives(c, p, t, Arrival(c, p, stop, late));
    case Recheck(t, stop, late, timeUp) =>
      Leaves(c, p, t);
      Arrives(c, p.(asleep := p.asleep - {t}, woken := p.woken - {t}), t, Look(c, p, stop, late, timeUp));
    case Created(t) => Creates(c, p, t);
    case CreationFails(t, w) =>
      Creates(c, p, t);
      Notifies(c, p.(creating := p.creating - {t}, total := p.total - 1), w);
    case GiveBack(t, open, w) =>
      Returns(c, p, t, open);
      Notifies(c, Returned(p, t, open), w);
    case Move(t, u) => Moves(c, p, t, u);
    case NotifyAll => WakesAll(c, p);
    case Close => Closes(c, p);
  }

  lemma {:induction false} RunKeepsInvariant(c: PoolConfig, p: Pool, run: seq<Action>)
    requires Invariant(c, p) && Possible(c, p, run)
    ensures Invariant(c, Execute(c, p, run))
    decreases |run|
  {
    if run != [] {
      StepKeepsInvariant(c, p, run[0]);
      RunKeepsInvariant(c, Apply(c, p, run[0]), run[1..]);
    }
  }

  /** The states of a pool made with a configuration. */
  ghost predicate Reachable(config: PoolConfig, p: Pool) {
    exists run :: Possible(Clamp(config), Initial(Clamp(config)), run) && Execute(Clamp(config), Initial(Clamp(config)), run) == p
  }

  lemma ReachableKeepsInvariant(config: PoolConfig, p: Pool)
    requires Reachable(config, p)
    ensures Invariant(Clamp(config), p)
  {
    var c := Clamp(config);
    var run :| Possible(c, Initial(c), run) && Execute(c, Initial(c), run) == p;
    assert Initial(c).leased.Keys == {};
    RunKeepsInvariant(c, Initial(c), run);
  }

  // ---------------------------------------------------------------------------------------------
  // Safety
  // ---------------------------------------------------------------------------------------------

  function Holders(p: Pool, conn: Conn): set<Caller> { set t | t in p.leased && p.leased[t] == conn }

  /** The counter is exact and stays in range, and no connection is idle and leased, or leased twice. */
  lemma ConnectionsAreConserved(config: PoolConfig, p: Pool, conn: Conn)
    requires Reachable(config, p)
    ensures p.total == |p.idle| + |p.leased| + |p.creating| && 0 <= p.total <= Clamp(config).maxConnections
    ensures |Holders(p, conn)| + (if conn in p.idle then 1 else 0) <= 1
    ensures forall i, j :: 0 <= i < j < |p.idle| ==> p.idle[i] != p.idle[j]
    ensures p.closed ==> p.idle == [] && (p.total == 0 <==> p.leased == map[] && p.creating == {})
  {
    ReachableKeepsInvariant(config, p);
    if t :| t in Holders(p, conn) {
      assert Holders(p, conn) == {t};
    }
    if p.total == 0 { assert p.leased.Keys == {}; }
  }

  lemma CounterCovers(c: PoolConfig, p: Pool, a: Action)
    requires Invariant(c, p) && Enabled(c, p, a)
    ensures a.GiveBack? || a.CreationFails? ==> p.total >= 1
    ensures a.Close? ==> p.total >= |p.idle|
  {
    if a.GiveBack? { RemoveKey(p.leased, a.caller); }
  }

  /** Every decrement of the counter finds something counted, also when a creation fails. */
  lemma CounterNeverUnderflows(config: PoolConfig, p: Pool, a: Action)
    requires Reachable(config, p) && Enabled(Clamp(config), p, a)
    ensures a.GiveBack? || a.CreationFails? ==> p.total >= 1
    ensures a.Close? ==> p.total >= |p.idle|
    ensures Apply(Clamp(config), p, a).total >= 0
  {
    ReachableKeepsInvariant(config, p);
    StepKeepsInvariant(Clamp(config), p, a);
    CounterCovers(Clamp(config), p, a);
  }

  /** The throw at the end of `acquire` is never reached, and `try_acquire` gives up there in no case. */
  lemma LastBranchIsDead(c: PoolConfig, p: Pool, stop: bool, late: bool, timeUp: bool)
    requires stop ==> late
    ensures !Look(c, p, stop, late, timeUp).NoConnection? && !Arrival(c, p, stop, late).NoConnection?
    ensures Look(c, p, stop, late, timeUp).TimedOut? <==> timeUp && !late && !WaitIsOver(c, p)
  {
  }

  predicate Departs(a: Action) { a.GiveBack? || a.CreationFails? }

  function Departures(run: seq<Action>): nat {
    if run == [] then 0 else (if Departs(run[0]) then 1 else 0) + Departures(run[1..])
  }

  /** After `close` nobody gets a connection any more: the counter only falls, by one with each return or failed creation. */
  lemma {:induction false} ClosedPoolDrains(c: PoolConfig, p: Pool, run: seq<Action>)
    requires Invariant(c, p) && p.closed && Possible(c, p, run)
    ensures var q := Execute(c, p, run);
      && q.closed && q.idle == [] && q.asleep == {}
      && q.total + Departures(run) == p.total
      && |q.leased| + |q.creating| == q.total
    decreases |run|
  {
    if run == [] {
    } else {
      StepKeepsInvariant(c, p, run[0]);
      ClosedStep(c, p, run[0]);
      ClosedPoolDrains(c, Apply(c, p, run[0]), run[1..]);
    }
  }

  lemma ClosedStep(c: PoolConfig, p: Pool, a: Action)
    requires ClosedIsEmpty(p) && p.closed && Enabled(c, p, a)
    ensures Apply(c, p, a).closed && Apply(c, p, a).total + (if Departs(a) then 1 else 0) == p.total
  {
  }

  // ---------------------------------------------------------------------------------------------
  // Wakeups without the callbacks of stop tokens
  // ---------------------------------------------------------------------------------------------

  function Spare(c: PoolConfig, p: Pool): int { |p.idle| + (c.maxConnections - p.total) }

  /** For each connection that could be taken, a woken waiter is on its way to it while others sleep. */
  ghost predicate NoLostWakeup(c: PoolConfig, p: Pool) {
    p.asleep != {} && !p.closed ==> Spare(c, p) <= |p.woken|
  }

  /**
   * A woken waiter leaves for its stop token, though each woken waiter was needed by those still asleep. Whether a
   * callback makes good for it is the matter of `StopTokens`.
   */
  ghost predicate WakeupWasted(c: PoolConfig, p: Pool, a: Action) {
    && a.Recheck?
    && a.late
    && (a.stop || a.timeUp || WaitIsOver(c, p))
    && a.caller in p.woken
    && p.asleep != {} && !p.closed
    && Spare(c, p) == |p.woken|
  }

  lemma WakeupIsLostIffWasted(c: PoolConfig, p: Pool, a: Action)
    requires Invariant(c, p) && NoLostWakeup(c, p) && Enabled(c, p, a)
    ensures NoLostWakeup(c, Apply(c, p, a)) <==> !WakeupWasted(c, p, a)
  {
    hide Conserved, Exclusive, OneRole, NoLostWakeup, Look, Arrival, Settle, NotifyOne, Returned;
    SleepersAreNotWoken(p);
    match a
    case Arrive(t, stop, late) => WakeupAfterArrival(c, p, t, stop, late);
    case Recheck(t, stop, late, timeUp) => WakeupAfterRecheck(c, p, a);
    case Created(t) => WakeupAfterCreation(c, p, t);
    case CreationFails(t, w) => WakeupAfterNotify(c, p, p.(creating := p.creating - {t}, total := p.total - 1), w);
    case GiveBack(t, open, w) =>
      ReturnedSpare(c, p, t, open);
      WakeupAfterNotify(c, p, Returned(p, t, open), w);
    case Move(t, u) => WakeupAfterCreation(c, p, t);
    case NotifyAll => WakeupAfterAll(c, p);
    case Close => WakeupAfterAll(c, p.(closed := true, idle := [], total := p.total - |p.idle|));
  }

  /** An arrival takes from what is to spare, or sleeps when there is nothing. */
  lemma WakeupAfterArrival(c: PoolConfig, p: Pool, t: Caller, stop: bool, late: bool)
    requires Conserved(c, p) && NoLostWakeup(c, p) && (stop ==> late)
    ensures NoLostWakeup(c, Settle(p, t, Arrival(c, p, stop, late)))
  {
  }

  lemma WakeupAfterCreation(c: PoolConfig, p: Pool, t: Caller)
    requires NoLostWakeup(c, p)
    ensures NoLostWakeup(c, p.(creating := p.creating - {t}, leased := p.leased[t := p.made], made := p.made + 1))
    ensures forall leased :: NoLostWakeup(c, p.(leased := leased))
  {
  }

  /** One more to spare, and one more woken if there is anyone to wake. */
  lemma WakeupAfterNotify(c: PoolConfig, p: Pool, q: Pool, w: Caller)
    requires NoLostWakeup(c, p) && p.asleep !! p.woken && MayNotify(p, w)
    requires q.asleep == p.asleep && q.woken == p.woken && q.closed == p.closed && Spare(c, q) <= Spare(c, p) + 1
    ensures NoLostWakeup(c, NotifyOne(q, w))
  {
    if w in q.asleep { assert |q.woken + {w}| == |q.woken| + 1; }
  }

  lemma ReturnedSpare(c: PoolConfig, p: Pool, t: Caller, open: bool)
    requires t in p.leased
    ensures var q := Returned(p, t, open);
      q.asleep == p.asleep && q.woken == p.woken && q.closed == p.closed && Spare(c, q) <= Spare(c, p) + 1
  {
  }

  lemma SleepersAreNotWoken(p: Pool)
    requires OneRole(p)
    ensures p.asleep !! p.woken
  {
  }

  lemma WakeupAfterAll(c: PoolConfig, p: Pool)
    ensures NoLostWakeup(c, WakeAll(p))
  {
  }

  /** What a decision changes for the waiters. */
  lemma Decided(c: PoolConfig, q: Pool, t: Caller, d: Decision)
    requires d.Reuse? ==> q.idle != []
    ensures var r := Settle(q, t, d);
      && r.woken == q.woken && r.closed == q.closed
      && r.asleep == (if d.Sleep? then q.asleep + {t} else q.asleep)
      && Spare(c, r) == Spare(c, q) - if d.Reuse? || d.Create? then 1 else 0
  {
  }

  /** A waiter that stops waiting. */
  lemma WaitingLess(p: Pool, t: Caller)
    requires Waiting(p, t) && p.asleep !! p.woken
    ensures t in p.woken ==> p.asleep - {t} == p.asleep && |p.woken - {t}| == |p.woken| - 1
    ensures t !in p.woken ==> p.woken - {t} == p.woken && p.asleep - {t} < p.asleep
  {
  }

  lemma WakeupAfterRecheck(c: PoolConfig, p: Pool, a: Action)
    requires Conserved(c, p) && p.asleep !! p.woken && NoLostWakeup(c, p) && Enabled(c, p, a) && a.Recheck?
    ensures NoLostWakeup(c, Apply(c, p, a)) <==> !WakeupWasted(c, p, a)
  {
    hide Settle, Conserved;
    var t, d := a.caller, Look(c, p, a.stop, a.late, a.timeUp);
    WaitingLess(p, t);
    Decided(c, p.(asleep := p.asleep - {t}, woken := p.woken - {t}), t, d);
    CounterFits(c, p);
  }

  lemma CounterFits(c: PoolConfig, p: Pool)
    requires Conserved(c, p)
    ensures p.total <= c.maxConnections
  {
  }

  predicate NeverStopped(run: seq<Action>) {
    forall i :: 0 <= i < |run| ==> (run[i].Arrive? || run[i].Recheck? ==> !run[i].late)
  }

  /** Without stop requests no waiter sleeps beside a connection it could have. */
  lemma {:induction false} NoWaiterSleepsBesideAConnection(c: PoolConfig, p: Pool, run: seq<Action>)
    requires Invariant(c, p) && NoLostWakeup(c, p) && Possible(c, p, run) && NeverStopped(run)
    ensures NoLostWakeup(c, Execute(c, p, run))
    decreases |run|
  {
    if run != [] {
      StepKeepsInvariant(c, p, run[0]);
      WakeupIsLostIffWasted(c, p, run[0]);
      NoWaiterSleepsBesideAConnection(c, Apply(c, p, run[0]), run[1..]);
    }
  }

  /** The same for every run of a new pool. */
  lemma NewPoolLosesNoWakeup(config: PoolConfig, run: seq<Action>)
    requires Possible(Clamp(config), Initial(Clamp(config)), run) && NeverStopped(run)
    ensures var c := Clamp(config); NoLostWakeup(c, Execute(c, Initial(c), run))
  {
    assert Initial(Clamp(config)).leased.Keys == {};
    NoWaiterSleepsBesideAConnection(Clamp(config), Initial(Clamp(config)), run);
  }

  lemma NothingRuns(c: PoolConfig, p: Pool)
    ensures Possible(c, p, []) && Execute(c, p, []) == p
  {
  }
}
