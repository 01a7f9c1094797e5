/** What became of each connection in a run of the pool, read off the actions of the run. */
module PoolHistory {
  import opened ConnectionPool

  /** The state of a new pool after a run; an action that is not enabled does nothing. */
  function Reached(c: PoolConfig, run: seq<Action>): Pool {
    if run == [] then Initial(c)
    else
      var p := Reached(c, run[..|run| - 1]);
      if Enabled(c, p, run[|run| - 1]) then Apply(c, p, run[|run| - 1]) else p
  }

  lemma {:induction false} PossibleSnoc(c: PoolConfig, p: Pool, run: seq<Action>)
    requires run != [] && Possible(c, p, run)
    ensures var n := |run| - 1;
      Possible(c, p, run[..n]) && Enabled(c, Execute(c, p, run[..n]), run[n]) && Execute(c, p, run) == Apply(c, Execute(c, p, run[..n]), run[n])
    decreases |run|
  {
    hide Enabled, Apply;
    var n := |run| - 1;
    if n > 0 {
      PossibleSnoc(c, Apply(c, p, run[0]), run[1..]);
      assert run[..n][1..] == run[1..][..n - 1];
    }
  }

  lemma {:induction false} ReachedIsExecuted(c: PoolConfig, run: seq<Action>)
    requires Possible(c, Initial(c), run)
    ensures Reached(c, run) == Execute(c, Initial(c), run)
    decreases |run|
  {
    hide Enabled, Apply;
    if run != [] {
      PossibleSnoc(c, Initial(c), run);
      ReachedIsExecuted(c, run[..|run| - 1]);
    }
  }

  lemma {:induction false} PossiblePrefix(c: PoolConfig, run: seq<Action>, i: nat)
    requires Possible(c, Initial(c), run) && i <= |run|
    ensures Possible(c, Initial(c), run[..i])
    decreases |run|
  {
    hide Enabled, Apply;
    if i < |run| {
      var n := |run| - 1;
      PossibleSnoc(c, Initial(c), run);
      PossiblePrefix(c, run[..n], i);
      assert run[..n][..i] == run[..i];
    } else {
      assert run[..i] == run;
    }
  }

  lemma ReachedIsReachable(config: PoolConfig, run: seq<Action>)
    requires Possible(Clamp(config), Initial(Clamp(config)), run)
    ensures Reachable(config, Reached(Clamp(config), run)) && Invariant(Clamp(config), Reached(Clamp(config), run))
  {
    hide Invariant, Enabled, Apply;
    ReachedIsExecuted(Clamp(config), run);
    ReachableKeepsInvariant(config, Reached(Clamp(config), run));
  }

  // ---------------------------------------------------------------------------------------------
  // Events
  // ---------------------------------------------------------------------------------------------

  /** Step `i` gives back this connection; `open` tells whether it still works. */
  predicate ReturnsAt(c: PoolConfig, run: seq<Action>, i: nat, conn: Conn, open: bool) {
    && i < |run| && run[i].GiveBack? && run[i].open == open
    && var p := Reached(c, run[..i]); run[i].caller in p.leased && p.leased[run[i].caller] == conn
  }

  /** Given back broken, or given back to a pool that an earlier action closed. */
  predicate DiscardedAt(c: PoolConfig, run: seq<Action>, i: nat, conn: Conn) {
    ReturnsAt(c, run, i, conn, false) || (ReturnsAt(c, run, i, conn, true) && Close in run[..i])
  }

  predicate InPool(p: Pool, conn: Conn) { conn in p.idle || exists t :: t in p.leased && p.leased[t] == conn }

  /** A connection the pool has made and does not have any more. */
  predicate Gone(p: Pool, conn: Conn) { conn < p.made && !InPool(p, conn) }

  /** What a caller is answered at step `i`. */
  predicate AnsweredAt(c: PoolConfig, run: seq<Action>, i: nat, d: Decision) {
    && i < |run|
    && var p := Reached(c, run[..i]);
      match run[i]
      case Arrive(_, stop, late) => d == Arrival(c, p, stop, late)
      case Recheck(_, stop, late, timeUp) => d == Look(c, p, stop, late, timeUp)
      case _ => false
  }

  // ---------------------------------------------------------------------------------------------
  // Connections that are gone stay away
  // ---------------------------------------------------------------------------------------------

  lemma NotifyKeepsPool(p: Pool, w: Caller)
    ensures var q := NotifyOne(p, w); q.idle == p.idle && q.leased == p.leased && q.made == p.made && q.closed == p.closed
  {
  }

  lemma SettleKeepsAway(p: Pool, t: Caller, d: Decision, conn: Conn)
    requires Gone(p, conn) && (d.Reuse? ==> d.conn in p.idle)
    ensures Gone(Settle(p, t, d), conn) && Settle(p, t, d).closed == p.closed
  {
  }

  lemma LookReusesIdle(c: PoolConfig, p: Pool, stop: bool, late: bool, timeUp: bool)
    ensures Look(c, p, stop, late, timeUp).Reuse? ==> Look(c, p, stop, late, timeUp).conn in p.idle
    ensures Arrival(c, p, stop, late).Reuse? ==> Arrival(c, p, stop, late).conn in p.idle
  {
  }

  lemma ReturnKeepsAway(p: Pool, t: Caller, open: bool, conn: Conn)
    requires Gone(p, conn) && t in p.leased
    ensures Gone(Returned(p, t, open), conn)
  {
    assert p.leased[t] != conn;
  }

  lemma StepKeepsAway(c: PoolConfig, p: Pool, a: Action, conn: Conn)
    requires Invariant(c, p) && Enabled(c, p, a) && Gone(p, conn)
    ensures Gone(Apply(c, p, a), conn)
  {
    hide Settle, NotifyOne, Returned, Look, Arrival, Conserved, OneRole;
    match a
    case Arrive(t, stop, late) =>
      LookReusesIdle(c, p, stop, late, false);
      SettleKeepsAway(p, t, Arrival(c, p, stop, late), conn);
    case Recheck(t, stop, late, timeUp) =>
      LookReusesIdle(c, p, stop, late, timeUp);
      SettleKeepsAway(p.(asleep := p.asleep - {t}, woken := p.woken - {t}), t, Look(c, p, stop, late, timeUp), conn);
    case Created(t) =>
    case CreationFails(t, w) => NotifyKeepsPool(p.(creating := p.creating - {t}, total := p.total - 1), w);
    case GiveBack(t, open, w) =>
      ReturnKeepsAway(p, t, open, conn);
      NotifyKeepsPool(Returned(p, t, open), w);
    case Move(t, u) =>
    case NotifyAll =>
    case Close =>
  }

  /** The pool is closed exactly if an action of the run closed it. */
  lemma {:induction false} ClosedByRun(c: PoolConfig, run: seq<Action>)
    requires Possible(c, Initial(c), run)
    ensures Reached(c, run).closed <==> Close in run
    decreases |run|
  {
    hide Enabled, Settle, NotifyOne, Look, Arrival;
    if run != [] {
      var n := |run| - 1;
      PossibleSnoc(c, Initial(c), run);
      ReachedIsExecuted(c, run[..n]);
      ClosedByRun(c, run[..n]);
      ClosingStep(c, Reached(c, run[..n]), run[n]);
      assert run == run[..n] + [run[n]];
    }
  }

  lemma ClosingStep(c: PoolConfig, p: Pool, a: Action)
    requires Enabled(c, p, a)
    ensures Apply(c, p, a).closed <==> p.closed || a == Close
  {
  }

  /** A returned connection is idle again, or gone. */
  lemma ReturnStep(c: PoolConfig, p: Pool, a: Action)
    requires Invariant(c, p) && Enabled(c, p, a) && a.GiveBack?
    ensures var conn, q := p.leased[a.caller], Apply(c, p, a);
      (a.open && !p.closed ==> conn in q.idle) && (!a.open || p.closed ==> Gone(q, conn))
  {
    hide Conserved, OneRole;
    var conn, q := p.leased[a.caller], Apply(c, p, a);
    NotifyKeepsPool(Returned(p, a.caller, a.open), a.notified);
    if a.open && !p.closed { assert q.idle[|q.idle| - 1] == conn; }
  }

  /** What is discarded at a step is gone at the end of every longer run. */
  lemma {:induction false} DiscardedIsGone(config: PoolConfig, run: seq<Action>, i: nat, conn: Conn)
    requires Possible(Clamp(config), Initial(Clamp(config)), run) && DiscardedAt(Clamp(config), run, i, conn)
    ensures Gone(Reached(Clamp(config), run), conn)
    decreases |run|
  {
    hide Enabled, Apply, Invariant, Gone;
    var c, n := Clamp(config), |run| - 1;
    PossibleSnoc(c, Initial(c), run);
    ReachedIsExecuted(c, run[..n]);
    ReachedIsReachable(config, run[..n]);
    if i < n {
      assert run[..n][..i] == run[..i];
      DiscardedIsGone(config, run[..n], i, conn);
      StepKeepsAway(c, Reached(c, run[..n]), run[n], conn);
    } else {
      ClosedByRun(c, run[..n]);
      ReturnStep(c, Reached(c, run[..n]), run[n]);
    }
  }

  /**
   * A connection that some step of a run gives back broken, or gives back after the pool was closed, is never idle or
   * leased after any later step, and no later answer hands it out.
   */
  lemma DiscardedNeverComesBack(config: PoolConfig, run: seq<Action>, i: nat, j: nat, conn: Conn)
    requires Possible(Clamp(config), Initial(Clamp(config)), run) && i < j <= |run|
    requires DiscardedAt(Clamp(config), run, i, conn)
    ensures var p := Reached(Clamp(config), run[..j]); conn !in p.idle && forall t :: t in p.leased ==> p.leased[t] != conn
    ensures !AnsweredAt(Clamp(config), run, j, Reuse(conn))
  {
    hide Enabled, Apply, Invariant, Reached, Look, Arrival;
    var c := Clamp(config);
    PossiblePrefix(c, run, j);
    assert run[..j][..i] == run[..i];
    DiscardedIsGone(config, run[..j], i, conn);
    var p := Reached(c, run[..j]);
    if j < |run| {
      match run[j]
      case Arrive(_, stop, late) => LookReusesIdle(c, p, stop, late, false);
      case Recheck(_, stop, late, timeUp) => LookReusesIdle(c, p, stop, late, timeUp);
      case _ =>
    }
  }

  /** A connection given back open to a pool that no action has closed is idle right after that step. */
  lemma OpenOnesReturnToThePool(config: PoolConfig, run: seq<Action>, i: nat, conn: Conn)
    requires Possible(Clamp(config), Initial(Clamp(config)), run) && ReturnsAt(Clamp(config), run, i, conn, true) && Close !in run[..i]
    ensures conn in Reached(Clamp(config), run[..i + 1]).idle
  {
    hide Enabled, Apply, Invariant;
    var c := Clamp(config);
    PossiblePrefix(c, run, i + 1);
    assert run[..i + 1][..i] == run[..i];
    PossibleSnoc(c, Initial(c), run[..i + 1]);
    ReachedIsExecuted(c, run[..i]);
    ReachedIsReachable(config, run[..i]);
    ClosedByRun(c, run[..i]);
    ReturnStep(c, Reached(c, run[..i]), run[i]);
  }

  /**
   * Answers by what happened before: nobody is told the pool is closed unless it was, a connection is made only when
   * none is idle and there is room, and nobody is given one after the pool was closed or his own token fired.
   */
  lemma AnswersFollowTheRun(config: PoolConfig, run: seq<Action>, i: nat, d: Decision)
    requires Possible(Clamp(config), Initial(Clamp(config)), run) && AnsweredAt(Clamp(config), run, i, d)
    ensures var p := Reached(Clamp(config), run[..i]);
      && (d == Closed ==> Close in run[..i])
      && (d.Reuse? || d.Create? || d.TimedOut? ==> Close !in run[..i] && !run[i].late)
      && (d.Create? <==> p.idle == [] && p.total < Clamp(config).maxConnections && Close !in run[..i] && !run[i].late)
      && (d.Reuse? <==> p.idle != [] && Close !in run[..i] && !run[i].late)
      && (d == Sleep ==> p.idle == [] && p.total == Clamp(config).maxConnections && Close !in run[..i])
      && d != NoConnection
  {
    hide Enabled, Apply, Invariant, Reached;
    var c := Clamp(config);
    PossiblePrefix(c, run, i);
    ClosedByRun(c, run[..i]);
    ReachedIsReachable(config, run[..i]);
    ConnectionsAreConserved(config, Reached(c, run[..i]), 0);
    StopIsLate(c, run, i);
  }

  /** A token that fired before the wait is seen to have fired after it. */
  lemma StopIsLate(c: PoolConfig, run: seq<Action>, i: nat)
    requires Possible(c, Initial(c), run) && i < |run|
    ensures run[i].Arrive? || run[i].Recheck? ==> (run[i].stop ==> run[i].late)
  {
    hide Apply;
    PossiblePrefix(c, run, i + 1);
    PossibleSnoc(c, Initial(c), run[..i + 1]);
  }
}
