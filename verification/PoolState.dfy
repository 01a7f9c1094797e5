/** The pool object. Each method is one region under its mutex, or the loop of its initialisation. */
module PoolState {
  import opened ConnectionPool

  class ConnectionPoolState {
    const config: PoolConfig
    var idle: seq<Conn>
    var total: nat
    var closed: bool
    ghost var leased: map<Caller, Conn>
    ghost var creating: set<Caller>
    ghost var asleep: set<Caller>
    ghost var woken: set<Caller>
    ghost var made: nat

    ghost function View(): Pool
      reads this
    {
      Pool(idle, total, closed, leased, creating, asleep, woken, made)
    }

    ghost predicate Valid()
      reads this
    {
      Invariant(config, View())
    }

    constructor (settings: PoolConfig)
      ensures config == Clamp(settings) && Valid()
      ensures View() == Pool([], 0, false, map[], {}, {}, {}, 0)
    {
      config := Clamp(settings);
      idle, total, closed := [], 0, false;
      leased, creating, asleep, woken, made := map[], {}, {}, {}, 0;
      new;
      assert leased.Keys == {};
    }

    /**
     * Makes the first connections, of which the first `working` can be made. They enter the pool together or, when
     * one of them fails, not at all.
     */
    method Initialize(working: nat) returns (ok: bool)
      requires View() == Pool([], 0, false, map[], {}, {}, {}, 0)
      modifies this
      ensures ok <==> config.minConnections <= working
      ensures View() == if ok then Initial(config) else old(View())
    {
      var created: seq<Conn> := [];
      while |created| < config.minConnections
        invariant |created| <= config.minConnections && |created| <= working
        invariant created == seq(|created|, i => i)
      {
        if |created| == working { return false; }
        created := created + [|created|];
      }
      var next := 0;
      while next < |created|
        invariant next <= |created|
        invariant idle == created[..next] && total == next
        invariant !closed && leased == map[] && creating == {} && asleep == {} && woken == {} && made == 0
      {
        idle := idle + [created[next]];
        total := total + 1;
        next := next + 1;
      }
      made := |created|;
      return true;
    }

    /** What follows the wait, for a caller no longer waiting. */
    method Conclude(t: Caller, late: bool, success: bool) returns (d: Decision)
      requires success ==> late || WaitIsOver(config, View())
      requires Valid() && Absent(View(), t)
      modifies this
      ensures d == Decide(config, old(View()), late, success) && View() == Settle(old(View()), t, d)
    {
      if late { return Cancelled; }
      if closed { return Closed; }
      if !success { return TimedOut; }
      if idle != [] {
        d := Reuse(idle[|idle| - 1]);
        idle := idle[..|idle| - 1];
        leased := leased[t := d.conn];
        return;
      }
      if total < config.maxConnections {
        total := total + 1;
        creating := creating + {t};
        return Create;
      }
      return NoConnection;
    }

    /**
     * The first lock region of `acquire` and `try_acquire`, up to the sleep or the decision. A token that has fired
     * `before` is answered without taking the mutex.
     */
    method Acquire(t: Caller, before: bool, stop: bool, late: bool) returns (d: Decision)
      requires Valid() && Enabled(config, View(), Arrive(t, stop, late))
      modifies this
      ensures Valid() && d != NoConnection
      ensures if before then d == Cancelled && View() == old(View())
              else d == Arrival(config, old(View()), stop, late) && View() == Apply(config, old(View()), Arrive(t, stop, late))
    {
      StepKeepsInvariant(config, View(), Arrive(t, stop, late));
      if before { return Cancelled; }
      if closed { return Closed; }
      if stop || closed || idle != [] || total < config.maxConnections {
        d := Conclude(t, late, true);
      } else {
        asleep := asleep + {t};
        d := Sleep;
      }
    }

    /** A waiting caller back in the mutex. */
    method Resume(t: Caller, stop: bool, late: bool, timeUp: bool) returns (d: Decision)
      requires Valid() && Enabled(config, View(), Recheck(t, stop, late, timeUp))
      modifies this
      ensures d == Look(config, old(View()), stop, late, timeUp)
      ensures View() == Apply(config, old(View()), Recheck(t, stop, late, timeUp))
      ensures Valid() && d != NoConnection
    {
      hide Invariant, Exclusive, OneRole;
      StepKeepsInvariant(config, View(), Recheck(t, stop, late, timeUp));
      Leaves(config, View(), t);
      asleep := asleep - {t};
      woken := woken - {t};
      if stop || closed || idle != [] || total < config.maxConnections {
        d := Conclude(t, late, true);
      } else if timeUp {
        d := Conclude(t, late, false);
      } else {
        asleep := asleep + {t};
        d := Sleep;
      }
    }

    /** The catch block of `acquire`: the creation outside the mutex failed. */
    method GiveUpCreation(t: Caller, notified: Caller)
      requires Valid() && Enabled(config, View(), CreationFails(t, notified))
      modifies this
      ensures Valid() && View() == Apply(config, old(View()), CreationFails(t, notified))
    {
      hide Invariant, Exclusive, OneRole;
      StepKeepsInvariant(config, View(), CreationFails(t, notified));
      CounterCovers(config, View(), CreationFails(t, notified));
      total := total - 1;
      creating := creating - {t};
      Notify(notified);
    }

    ghost method Notify(w: Caller)
      modifies this`asleep, this`woken
      ensures View() == NotifyOne(old(View()), w)
    {
      if w in asleep {
        asleep := asleep - {w};
        woken := woken + {w};
      }
    }

    /** `return_connection`, called when the lease of `t` ends. */
    method ReturnConnection(t: Caller, conn: Conn, open: bool, notified: Caller) returns (needClose: bool)
      requires Valid() && Enabled(config, View(), GiveBack(t, open, notified)) && leased[t] == conn
      modifies this
      ensures Valid() && View() == Apply(config, old(View()), GiveBack(t, open, notified))
      ensures needClose <==> open && closed
    {
      hide Invariant, Exclusive, OneRole;
      StepKeepsInvariant(config, View(), GiveBack(t, open, notified));
      CounterCovers(config, View(), GiveBack(t, open, notified));
      leased := leased - {t};
      needClose := false;
      if closed || !open {
        total := total - 1;
        needClose := open;
      } else {
        idle := idle + [conn];
      }
      Notify(notified);
    }

    /** The pool's own `close`; the second call does nothing. */
    method CloseIdle() returns (toClose: seq<Conn>)
      requires Valid()
      modifies this
      ensures Valid() && closed && idle == []
      ensures toClose == old(idle)
      ensures View() == if old(closed) then old(View()) else Apply(config, old(View()), Close)
    {
      hide Exclusive, OneRole;
      if closed { return []; }
      StepKeepsInvariant(config, View(), Close);
      CounterCovers(config, View(), Close);
      closed := true;
      toClose := idle;
      idle := [];
      total := total - |toClose|;
      woken := woken + asleep;
      asleep := {};
    }
  }
}
