/**
 * The bounded task executor as a protocol of atomic steps. A step is one region under `State::mutex`, one
 * notification, one settled promise, or one join; threads may interleave between any two steps. Callbacks
 * terminate and neither submit nor shut the executor down.
 */
module Executor {
  datatype Outcome = Value | Failed | Rejected(reason: Reason) | Cancelled
  datatype Reason = ShutDown | QueueFull | NoThread

  /** Where a worker thread stands in `run_worker`: about to lock, asleep, woken but not yet locked, in a job, gone. */
  datatype Worker = Ready | Asleep | Woken | Running(job: nat) | Exited

  /** What the holder of `lifecycle_mutex_` is doing in `shutdown`; Free when no shutdown is under way. */
  datatype Phase = Free | Cancelling(left: seq<nat>) | Joining(next: nat)

  /**
   * `pending` counts the submitters between their lock region and `notify_one`. A job is known by the number of
   * its submission; `promises` logs every settlement of its promise. The last three fields are histories.
   */
  datatype State = State(queue: seq<nat>, stopping: bool, workers: seq<Worker>, pending: nat, phase: Phase,
                         promises: seq<seq<Outcome>>, accepted: seq<nat>, started: seq<nat>, dropped: seq<nat>)

  datatype Config = Config(workerCount: nat, capacity: nat)

  function Configure(workers: nat, capacity: nat): (c: Config) {
    Config(if workers == 0 then 1 else workers, if capacity == 0 then 1 else capacity)
  }

  predicate Sane(c: Config) { c.workerCount >= 1 && c.capacity >= 1 }

  const Initial := State([], false, [], 0, Free, [], [], [], [])

  /**
   * Submit: the whole lock region; `threads` is how many workers the system lets it start. NotifyOne: wakes one
   * sleeper, if any. Check: the lock region of a worker. WakeUp: a spurious wakeup. Finish: a callback returns or
   * throws. Stop: the lock region of `shutdown`.
   */
  datatype Action =
    | Submit(threads: nat)
    | NotifyOne(sleeper: nat)
    | Check(worker: nat)
    | WakeUp(worker: nat)
    | Finish(worker: nat, ok: bool)
    | Stop
    | CancelNext
    | NotifyAll
    | JoinNext
    | Return

  predicate Sleeps(s: State, w: nat) { w < |s.workers| && s.workers[w] == Asleep }

  predicate CanRun(w: Worker) { w == Ready || w == Woken }

  predicate Enabled(c: Config, s: State, a: Action) {
    match a
    case Submit(_) => s.phase.Free?
    case NotifyOne(w) => s.pending > 0 && (Sleeps(s, w) || forall v :: 0 <= v < |s.workers| ==> !Sleeps(s, v))
    case Check(w) => w < |s.workers| && CanRun(s.workers[w])
    case WakeUp(w) => Sleeps(s, w)
    case Finish(w, _) => w < |s.workers| && s.workers[w].Running? && s.workers[w].job < |s.promises|
    case Stop => s.phase.Free?
    case CancelNext => s.phase.Cancelling? && s.phase.left != [] && s.phase.left[0] < |s.promises|
    case NotifyAll => s.phase == Cancelling([])
    case JoinNext => s.phase.Joining? && s.phase.next < |s.workers| && s.workers[s.phase.next] == Exited
    case Return => s.phase.Joining? && s.phase.next >= |s.workers|
  }

  function Settle(promises: seq<seq<Outcome>>, job: nat, outcome: Outcome): (r: seq<seq<Outcome>>)
    requires job < |promises|
  {
    promises[job := promises[job] + [outcome]]
  }

  function StartWorkers(workers: seq<Worker>, count: nat, threads: nat): (r: seq<Worker>) {
    var missing := if |workers| < count then count - |workers| else 0;
    workers + seq(if missing <= threads then missing else threads, _ => Ready)
  }

  function AfterSubmit(c: Config, s: State, threads: nat): State {
    var job := |s.promises|;
    if s.stopping then s.(promises := s.promises + [[Rejected(ShutDown)]])
    else if |s.queue| >= c.capacity then s.(promises := s.promises + [[Rejected(QueueFull)]])
    else
      var workers := StartWorkers(s.workers, c.workerCount, threads);
      if |workers| < c.workerCount then s.(workers := workers, promises := s.promises + [[Rejected(NoThread)]])
      else s.(workers := workers, queue := s.queue + [job], promises := s.promises + [[]], accepted := s.accepted + [job],
              pending := s.pending + 1)
  }

  function AfterCheck(s: State, w: nat): State
    requires w < |s.workers|
  {
    if s.queue != [] then
      s.(queue := s.queue[1..], workers := s.workers[w := Running(s.queue[0])], started := s.started + [s.queue[0]])
    else if s.stopping then s.(workers := s.workers[w := Exited])
    else s.(workers := s.workers[w := Asleep])
  }

  function Rouse(w: Worker): Worker { if w == Asleep then Woken else w }

  function RouseAll(workers: seq<Worker>): (r: seq<Worker>)
    ensures |r| == |workers|
  {
    seq(|workers|, i requires 0 <= i < |workers| => Rouse(workers[i]))
  }

  function Apply(c: Config, s: State, a: Action): State
    requires Enabled(c, s, a)
  {
    match a
    case Submit(threads) => AfterSubmit(c, s, threads)
    case NotifyOne(w) => s.(pending := s.pending - 1, workers := if Sleeps(s, w) then s.workers[w := Woken] else s.workers)
    case Check(w) => AfterCheck(s, w)
    case WakeUp(w) => s.(workers := s.workers[w := Woken])
    case Finish(w, ok) =>
      s.(promises := Settle(s.promises, s.workers[w].job, if ok then Value else Failed), workers := s.workers[w := Ready])
    case Stop => s.(stopping := true, queue := [], phase := Cancelling(s.queue), dropped := s.dropped + s.queue)
    case CancelNext =>
      s.(promises := Settle(s.promises, s.phase.left[0], Cancelled), phase := Cancelling(s.phase.left[1..]))
    case NotifyAll => s.(workers := RouseAll(s.workers), phase := Joining(0))
    case JoinNext => s.(phase := Joining(s.phase.next + 1))
    case Return => s.(phase := Free)
  }

  /** A run: every action enabled in its turn. */
  predicate Possible(c: Config, s: State, run: seq<Action>)
    decreases |run|
  {
    run != [] ==> Enabled(c, s, run[0]) && Possible(c, Apply(c, s, run[0]), run[1..])
  }

  function Execute(c: Config, s: State, run: seq<Action>): State
    requires Possible(c, s, run)
    decreases |run|
  {
    if run == [] then s else Execute(c, Apply(c, s, run[0]), run[1..])
  }

  // ---------------------------------------------------------------------------------------------
  // What every step keeps
  // ---------------------------------------------------------------------------------------------

  /** How many times a job stands in a list. */
  function Times(job: nat, jobs: seq<nat>): nat { if jobs == [] then 0 else (if jobs[0] == job then 1 else 0) + Times(job, jobs[1..]) }

  function TimesRunning(job: nat, workers: seq<Worker>): nat {
    if workers == [] then 0 else (if workers[0] == Running(job) then 1 else 0) + TimesRunning(job, workers[1..])
  }

  function Left(p: Phase): seq<nat> { if p.Cancelling? then p.left else [] }

  /** In how many places an unsettled job is held: queued, being run, or taken for cancellation. */
  function Held(s: State, job: nat): nat {
    Times(job, s.queue) + TimesRunning(job, s.workers) + Times(job, Left(s.phase))
  }

  /** Every submitted job is held in one place and unsettled, or held nowhere and settled once. */
  ghost predicate EachInOnePlace(s: State) {
    forall job: nat {:trigger Held(s, job)} :: Held(s, job) + (if job < |s.promises| then |s.promises[job]| else 1) == 1
  }

  ghost predicate NoLostWakeup(s: State) {
    !s.stopping && (exists w :: Sleeps(s, w)) ==> |s.queue| <= s.pending + WokenCount(s.workers)
  }

  function WokenCount(workers: seq<Worker>): nat {
    if workers == [] then 0 else (if workers[0] == Woken then 1 else 0) + WokenCount(workers[1..])
  }

  predicate Increasing(jobs: seq<nat>) { forall i, j :: 0 <= i < j < |jobs| ==> jobs[i] < jobs[j] }

  /** Jobs start in the order they were accepted, and those that never start are the last ones. */
  ghost predicate InOrder(s: State) {
    && s.accepted == s.started + s.dropped + s.queue
    && Increasing(s.accepted)
    && (forall i :: 0 <= i < |s.accepted| ==> s.accepted[i] < |s.promises|)
    && (s.stopping ==> s.queue == [])
    && (!s.stopping ==> s.dropped == [])
  }

  ghost predicate Bounded(c: Config, s: State) {
    && |s.queue| <= c.capacity
    && |s.workers| <= c.workerCount
    && (s.accepted != [] ==> |s.workers| == c.workerCount)
  }

  ghost predicate PhasesFit(s: State) {
    && (!s.phase.Free? ==> s.stopping)
    && (s.phase.Joining? ==> s.phase.next <= |s.workers| && forall w :: 0 <= w < s.phase.next ==> s.workers[w] == Exited)
    && (s.stopping && !s.phase.Cancelling? ==> forall w :: 0 <= w < |s.workers| ==> s.workers[w] != Asleep)
    && (s.stopping && s.phase.Free? ==> forall w :: 0 <= w < |s.workers| ==> s.workers[w] == Exited)
    && (!s.stopping ==> forall w :: 0 <= w < |s.workers| ==> s.workers[w] != Exited)
  }

  /** The outcome of a promise tells what became of its job. */
  ghost predicate OutcomesFit(s: State) {
    && (forall w, job :: 0 <= w < |s.workers| && s.workers[w] == Running(job) ==> job in s.started)
    && (forall job :: job in Left(s.phase) ==> job in s.dropped)
    && (forall job, k :: 0 <= job < |s.promises| && 0 <= k < |s.promises[job]| ==> OutcomeFits(s, job, s.promises[job][k]))
  }

  predicate OutcomeFits(s: State, job: nat, o: Outcome) {
    match o
    case Value => job in s.started
    case Failed => job in s.started
    case Cancelled => job in s.dropped
    case Rejected(_) => job !in s.accepted
  }

  ghost predicate Invariant(c: Config, s: State) {
    && EachInOnePlace(s)
    && OutcomesFit(s)
    && NoLostWakeup(s)
    && InOrder(s)
    && Bounded(c, s)
    && PhasesFit(s)
  }

  // Counting.

  lemma TimesAppend(job: nat, a: seq<nat>, b: seq<nat>)
    ensures Times(job, a + b) == Times(job, a) + Times(job, b)
  {
    if a == [] { assert a + b == b; } else {
      assert (a + b)[1..] == a[1..] + b;
      TimesAppend(job, a[1..], b);
    }
  }

  lemma RunningAppend(job: nat, a: seq<Worker>, b: seq<Worker>)
    ensures TimesRunning(job, a + b) == TimesRunning(job, a) + TimesRunning(job, b)
    ensures WokenCount(a + b) == WokenCount(a) + WokenCount(b)
  {
    if a == [] { assert a + b == b; } else {
      assert (a + b)[1..] == a[1..] + b;
      RunningAppend(job, a[1..], b);
    }
  }

  /** Changing one worker changes the counts by that worker alone. */
  lemma {:induction false} ChangeOne(job: nat, workers: seq<Worker>, w: nat, to: Worker)
    requires w < |workers|
    ensures TimesRunning(job, workers[w := to])
         == TimesRunning(job, workers) - (if workers[w] == Running(job) then 1 else 0) + (if to == Running(job) then 1 else 0)
    ensures WokenCount(workers[w := to])
         == WokenCount(workers) - (if workers[w] == Woken then 1 else 0) + (if to == Woken then 1 else 0)
    ensures workers[w] == Running(job) ==> TimesRunning(job, workers) >= 1
  {
    if w == 0 {
      assert workers[w := to][1..] == workers[1..];
    } else {
      assert workers[w := to][1..] == workers[1..][w - 1 := to];
      ChangeOne(job, workers[1..], w - 1, to);
    }
  }

  lemma FreshWorkers(job: nat, n: nat)
    ensures TimesRunning(job, seq(n, _ => Ready)) == 0 && WokenCount(seq(n, _ => Ready)) == 0
  {
    if n > 0 {
      assert seq(n, _ => Ready)[1..] == seq(n - 1, _ => Ready);
      FreshWorkers(job, n - 1);
    }
  }

  lemma RousedRun(job: nat, workers: seq<Worker>)
    ensures TimesRunning(job, RouseAll(workers)) == TimesRunning(job, workers)
  {
    if workers != [] {
      assert RouseAll(workers)[1..] == RouseAll(workers[1..]);
      RousedRun(job, workers[1..]);
    }
  }

  lemma RunningOnce(workers: seq<Worker>, job: nat, w: nat)
    requires w < |workers| && workers[w] == Running(job)
    ensures TimesRunning(job, workers) >= 1
  {
    ChangeOne(job, workers, w, Ready);
  }

  // One lemma for each part of the invariant.

  lemma HeldAfter(c: Config, s: State, a: Action)
    requires Invariant(c, s) && Enabled(c, s, a)
    ensures EachInOnePlace(Apply(c, s, a))
  {
    var t := Apply(c, s, a);
    forall job: nat
      ensures Held(t, job) + (if job < |t.promises| then |t.promises[job]| else 1) == 1
    {
      assert Held(s, job) + (if job < |s.promises| then |s.promises[job]| else 1) == 1;
      HeldOne(c, s, a, job);
    }
  }

  /** A job held in one place less is settled once more. */
  lemma HeldOne(c: Config, s: State, a: Action, job: nat)
    requires Enabled(c, s, a)
    ensures var t := Apply(c, s, a);
      Held(t, job) + (if job < |t.promises| then |t.promises[job]| else 1)
      == Held(s, job) + (if job < |s.promises| then |s.promises[job]| else 1)
  {
    match a
    case Submit(threads) => HeldAfterSubmit(c, s, threads, job);
    case NotifyOne(w) => if Sleeps(s, w) { ChangeOne(job, s.workers, w, Woken); }
    case Check(w) => ChangeOne(job, s.workers, w, AfterCheck(s, w).workers[w]);
    case WakeUp(w) => ChangeOne(job, s.workers, w, Woken);
    case Finish(w, ok) => ChangeOne(job, s.workers, w, Ready);
    case Stop =>
    case CancelNext =>
    case NotifyAll => RousedRun(job, s.workers);
    case JoinNext =>
    case Return =>
  }

  lemma HeldAfterSubmit(c: Config, s: State, threads: nat, job: nat)
    ensures var t := AfterSubmit(c, s, threads);
      Held(t, job) + (if job < |t.promises| then |t.promises[job]| else 1)
      == Held(s, job) + (if job < |s.promises| then |s.promises[job]| else 1)
  {
    var t := AfterSubmit(c, s, threads);
    var n := |t.workers| - |s.workers|;
    assert t.workers == s.workers + seq(n, _ => Ready);
    FreshWorkers(job, n);
    RunningAppend(job, s.workers, seq(n, _ => Ready));
    TimesAppend(job, s.queue, [|s.promises|]);
    assert [|s.promises|][1..] == [];
  }

  lemma WakeupAfter(c: Config, s: State, a: Action)
    requires Invariant(c, s) && Enabled(c, s, a)
    ensures NoLostWakeup(Apply(c, s, a))
  {
    var t := Apply(c, s, a);
    if !t.stopping && exists w :: Sleeps(t, w) {
      var v :| Sleeps(t, v);
      match a
      case Submit(threads) =>
        var n := |t.workers| - |s.workers|;
        assert Sleeps(s, v);
        assert t.workers == s.workers + seq(n, _ => Ready);
        FreshWorkers(0, n);
        RunningAppend(0, s.workers, seq(n, _ => Ready));
      case NotifyOne(w) =>
        assert Sleeps(s, v);
        assert Sleeps(s, w);
        ChangeOne(0, s.workers, w, Woken);
      case Check(w) =>
        ChangeOne(0, s.workers, w, t.workers[w]);
        if s.queue != [] { assert Sleeps(s, v); }
      case WakeUp(w) =>
        assert Sleeps(s, v);
        ChangeOne(0, s.workers, w, Woken);
      case Finish(w, ok) =>
        assert Sleeps(s, v);
        ChangeOne(0, s.workers, w, Ready);
      case JoinNext =>
      case Return =>
    }
  }

  lemma TakeFirst(started: seq<nat>, dropped: seq<nat>, queue: seq<nat>)
    requires queue != []
    ensures dropped == [] ==> started + dropped + queue == started + [queue[0]] + dropped + queue[1..]
  {
    if dropped == [] {
      assert started + dropped == started && started + [queue[0]] + dropped == started + [queue[0]];
      assert queue == [queue[0]] + queue[1..];
    }
  }

  lemma DropAll(started: seq<nat>, dropped: seq<nat>, queue: seq<nat>)
    ensures started + dropped + queue == started + (dropped + queue) + []
  {
  }

  /** A job accepted has the greatest number so far. */
  lemma OrderAfterSubmit(c: Config, s: State, threads: nat)
    requires InOrder(s)
    ensures InOrder(AfterSubmit(c, s, threads))
  {
    hide StartWorkers;
    var job := |s.promises|;
    assert s.started + s.dropped + (s.queue + [job]) == s.started + s.dropped + s.queue + [job];
  }

  lemma OrderAfter(c: Config, s: State, a: Action)
    requires Invariant(c, s) && Enabled(c, s, a)
    ensures InOrder(Apply(c, s, a))
  {
    hide Times, TimesRunning, WokenCount, StartWorkers, RouseAll, EachInOnePlace, NoLostWakeup, OutcomesFit, Bounded, PhasesFit, Increasing;
    match a
    case Submit(threads) => OrderAfterSubmit(c, s, threads);
    case NotifyOne(_) =>
    case Check(w) => if s.queue != [] { TakeFirst(s.started, s.dropped, s.queue); }
    case WakeUp(_) =>
    case Finish(_, _) =>
    case Stop => DropAll(s.started, s.dropped, s.queue);
    case CancelNext =>
    case NotifyAll =>
    case JoinNext =>
    case Return =>
  }

  lemma OutcomesAfter(c: Config, s: State, a: Action)
    requires OutcomesFit(s) && InOrder(s) && Enabled(c, s, a)
    ensures OutcomesFit(Apply(c, s, a))
  {
    hide Times, TimesRunning, WokenCount, Increasing;
    match a
    case Submit(threads) => OutcomesAfterSubmit(c, s, threads);
    case NotifyOne(_) =>
    case Check(_) =>
    case WakeUp(_) =>
    case Finish(_, _) =>
    case Stop =>
    case CancelNext =>
    case NotifyAll =>
    case JoinNext =>
    case Return =>
  }

  lemma OutcomesAfterSubmit(c: Config, s: State, threads: nat)
    requires OutcomesFit(s) && InOrder(s)
    ensures OutcomesFit(AfterSubmit(c, s, threads))
  {
    hide Times, TimesRunning, WokenCount, Increasing;
  }

  lemma BoundsAfter(c: Config, s: State, a: Action)
    requires Bounded(c, s) && Enabled(c, s, a)
    ensures Bounded(c, Apply(c, s, a))
  {
    hide Settle, Times, TimesRunning, WokenCount;
  }

  lemma PhasesAfter(c: Config, s: State, a: Action)
    requires InOrder(s) && PhasesFit(s) && Enabled(c, s, a)
    ensures PhasesFit(Apply(c, s, a))
  {
    hide Settle, Times, TimesRunning, WokenCount, Increasing;
    match a
    case Submit(threads) =>
    case NotifyOne(_) =>
    case Check(_) =>
    case WakeUp(_) =>
    case Finish(_, _) =>
    case Stop =>
    case CancelNext =>
    case NotifyAll =>
    case JoinNext =>
    case Return =>
  }

  lemma StepKeepsInvariant(c: Config, s: State, a: Action)
    requires Sane(c) && Invariant(c, s) && Enabled(c, s, a)
    ensures Invariant(c, Apply(c, s, a))
  {
    HeldAfter(c, s, a);
    WakeupAfter(c, s, a);
    OrderAfter(c, s, a);
    OutcomesAfter(c, s, a);
    BoundsAfter(c, s, a);
    PhasesAfter(c, s, a);
  }

  lemma {:induction false} RunKeepsInvariant(c: Config, s: State, run: seq<Action>)
    requires Sane(c) && Invariant(c, s) && Possible(c, s, run)
    ensures Invariant(c, Execute(c, s, run))
    decreases |run|
  {
    if run != [] {
      StepKeepsInvariant(c, s, run[0]);
      RunKeepsInvariant(c, Apply(c, s, run[0]), run[1..]);
    }
  }

  ghost predicate Reachable(c: Config, s: State) {
    exists run :: Possible(c, Initial, run) && Execute(c, Initial, run) == s
  }

  lemma ReachableKeepsInvariant(c: Config, s: State)
    requires Sane(c) && Reachable(c, s)
    ensures Invariant(c, s)
  {
    var run :| Possible(c, Initial, run) && Execute(c, Initial, run) == s;
    RunKeepsInvariant(c, Initial, run);
  }

  // ---------------------------------------------------------------------------------------------
  // Safety of every reachable state
  // ---------------------------------------------------------------------------------------------

  predicate IsRunning(s: State, job: nat) { exists w :: 0 <= w < |s.workers| && s.workers[w] == Running(job) }

  predicate IsRejected(s: State, job: nat) { job < |s.promises| && exists r :: s.promises[job] == [Rejected(r)] }

  predicate IsFinished(s: State, job: nat) { job < |s.promises| && (s.promises[job] == [Value] || s.promises[job] == [Failed]) }

  predicate IsCancelled(s: State, job: nat) {
    job in Left(s.phase) || (job < |s.promises| && s.promises[job] == [Cancelled])
  }

  function One(b: bool): nat { if b then 1 else 0 }

  lemma TimesOfMember(job: nat, jobs: seq<nat>)
    ensures Times(job, jobs) > 0 <==> job in jobs
  {
  }

  lemma TimesOfRunning(s: State, job: nat)
    ensures TimesRunning(job, s.workers) > 0 <==> IsRunning(s, job)
  {
    RunningSomewhere(job, s.workers);
  }

  lemma RunningSomewhere(job: nat, workers: seq<Worker>)
    ensures TimesRunning(job, workers) > 0 <==> exists w :: 0 <= w < |workers| && workers[w] == Running(job)
  {
    if workers != [] {
      RunningSomewhere(job, workers[1..]);
      if w :| 0 <= w < |workers| && workers[w] == Running(job) {
        assert w > 0 ==> workers[1..][w - 1] == Running(job);
      }
      if TimesRunning(job, workers[1..]) > 0 {
        var w :| 0 <= w < |workers| - 1 && workers[1..][w] == Running(job);
        assert workers[w + 1] == Running(job);
      }
    }
  }

  /** Exactly once: every submitted job is in one standing, and its promise is settled once, when it is at rest. */
  lemma ExactlyOnce(c: Config, s: State, job: nat)
    requires Sane(c) && Reachable(c, s) && job < |s.promises|
    ensures One(IsRejected(s, job)) + One(job in s.queue) + One(IsRunning(s, job)) + One(IsFinished(s, job))
          + One(IsCancelled(s, job)) == 1
    ensures |s.promises[job]| <= 1
    ensures s.promises[job] == [] <==> (job in s.queue || IsRunning(s, job) || job in Left(s.phase))
    ensures forall v, w :: 0 <= v < w < |s.workers| ==> !(s.workers[v] == Running(job) && s.workers[w] == Running(job))
  {
    ReachableKeepsInvariant(c, s);
    assert Held(s, job) + |s.promises[job]| == 1;
    TimesOfMember(job, s.queue);
    TimesOfMember(job, Left(s.phase));
    TimesOfRunning(s, job);
    StandsOnce(s, job);
    forall v, w | 0 <= v < w < |s.workers| && s.workers[v] == Running(job) && s.workers[w] == Running(job) ensures false {
      ChangeOne(job, s.workers, v, Ready);
      ChangeOne(job, s.workers[v := Ready], w, Ready);
    }
  }

  lemma StandsOnce(s: State, job: nat)
    requires job < |s.promises| && One(job in s.queue) + One(IsRunning(s, job)) + One(job in Left(s.phase)) + |s.promises[job]| == 1
    ensures One(IsRejected(s, job)) + One(job in s.queue) + One(IsRunning(s, job)) + One(IsFinished(s, job))
          + One(IsCancelled(s, job)) == 1
  {
    if |s.promises[job]| == 1 {
      var o := s.promises[job][0];
      assert s.promises[job] == [o];
      assert o.Rejected? ==> s.promises[job] == [Rejected(o.reason)];
      forall r ensures s.promises[job] == [Rejected(r)] ==> o == Rejected(r) {
        assert [Rejected(r)][0] == Rejected(r);
      }
      assert [Value][0] == Value && [Failed][0] == Failed && [Cancelled][0] == Cancelled;
    }
  }

  /** FIFO: the started jobs are the first accepted ones, in the order of their submission. */
  lemma StartsInOrder(c: Config, s: State)
    requires Sane(c) && Reachable(c, s)
    ensures s.started <= s.accepted && Increasing(s.accepted)
    ensures s.accepted[|s.started|..] == s.dropped + s.queue
    ensures |s.queue| <= c.capacity && |s.workers| <= c.workerCount
    ensures forall job :: 0 <= job < |s.promises| && IsFinished(s, job) ==> job in s.started
    ensures forall job :: 0 <= job < |s.promises| && s.promises[job] == [Cancelled] ==> job in s.dropped
  {
    ReachableKeepsInvariant(c, s);
    assert s.accepted == s.started + (s.dropped + s.queue);
    forall job | 0 <= job < |s.promises| && IsFinished(s, job) ensures job in s.started {
      assert OutcomeFits(s, job, s.promises[job][0]);
    }
    forall job | 0 <= job < |s.promises| && s.promises[job] == [Cancelled] ensures job in s.dropped {
      assert OutcomeFits(s, job, s.promises[job][0]);
    }
  }

  /** No job is queued or started once `shutdown` has taken the queue. */
  lemma {:induction false} NothingAfterStop(c: Config, s: State, run: seq<Action>)
    requires Sane(c) && Invariant(c, s) && s.stopping && Possible(c, s, run)
    ensures var t := Execute(c, s, run);
      t.stopping && t.queue == [] && t.accepted == s.accepted && t.started == s.started && t.dropped == s.dropped
    decreases |run|
  {
    if run != [] {
      StepKeepsInvariant(c, s, run[0]);
      NothingAfterStop(c, Apply(c, s, run[0]), run[1..]);
    }
  }

  /** Lost wakeups: a job never waits beside a sleeper unless a wakeup is on its way, and every worker is awake otherwise. */
  lemma NoJobWaitsBesideASleeper(c: Config, s: State)
    requires Sane(c) && Reachable(c, s) && !s.stopping
    ensures (exists w :: Sleeps(s, w)) ==> |s.queue| <= s.pending + WokenCount(s.workers)
    ensures s.queue != [] && s.pending == 0 && (forall w :: 0 <= w < |s.workers| ==> !CanRun(s.workers[w]))
        ==> |s.workers| == c.workerCount && forall w :: 0 <= w < |s.workers| ==> s.workers[w].Running?
  {
    ReachableKeepsInvariant(c, s);
    if s.queue != [] && s.pending == 0 && forall w :: 0 <= w < |s.workers| ==> !CanRun(s.workers[w]) {
      NoneWoken(s.workers);
      forall w | 0 <= w < |s.workers| ensures s.workers[w].Running? {
        assert !Sleeps(s, w) && s.workers[w] != Exited;
      }
    }
  }

  lemma NoneWoken(workers: seq<Worker>)
    requires forall w :: 0 <= w < |workers| ==> workers[w] != Woken
    ensures WokenCount(workers) == 0
  {
  }

  // ---------------------------------------------------------------------------------------------
  // Termination: of every burst of work, and of shutdown
  // ---------------------------------------------------------------------------------------------

  function Effort(w: Worker, stopping: bool): nat {
    match w
    case Running(_) => 4
    case Asleep => if stopping then 3 else 1
    case Exited => 0
    case _ => 2
  }

  function Efforts(workers: seq<Worker>, stopping: bool): nat {
    if workers == [] then 0 else Effort(workers[0], stopping) + Efforts(workers[1..], stopping)
  }

  /** What is left to do before the executor can only wait for its callers. */
  function Work(s: State): nat {
    5 * |s.queue| + 3 * s.pending + Efforts(s.workers, s.stopping)
    + match s.phase
      case Free => 0
      case Cancelling(left) => |left| + |s.workers| + 3
      case Joining(next) => 1 + if next < |s.workers| then |s.workers| - next else 0
  }

  /** Steps the executor takes by itself. A spurious wakeup counts as one only while stopping. */
  predicate Internal(s: State, a: Action) { !a.Submit? && !a.Stop? && (a.WakeUp? ==> s.stopping) }

  lemma {:induction false} EffortOfChange(workers: seq<Worker>, w: nat, to: Worker, stopping: bool)
    requires w < |workers|
    ensures Efforts(workers[w := to], stopping) == Efforts(workers, stopping) - Effort(workers[w], stopping) + Effort(to, stopping)
  {
    if w == 0 {
      assert workers[w := to][1..] == workers[1..];
    } else {
      assert workers[w := to][1..] == workers[1..][w - 1 := to];
      EffortOfChange(workers[1..], w - 1, to, stopping);
    }
  }

  lemma EffortOfRoused(workers: seq<Worker>)
    ensures Efforts(RouseAll(workers), true) <= Efforts(workers, true)
  {
    if workers != [] {
      assert RouseAll(workers)[1..] == RouseAll(workers[1..]);
      EffortOfRoused(workers[1..]);
    }
  }

  /** Every step the executor takes by itself leaves it less work. */
  lemma StepsWork(c: Config, s: State, a: Action)
    requires Sane(c) && Invariant(c, s) && Enabled(c, s, a) && Internal(s, a)
    ensures Work(Apply(c, s, a)) < Work(s)
  {
    hide Times, TimesRunning, WokenCount, EachInOnePlace, NoLostWakeup, OutcomesFit, InOrder, Settle;
    var t := Apply(c, s, a);
    match a
    case NotifyOne(w) => if Sleeps(s, w) { EffortOfChange(s.workers, w, Woken, s.stopping); }
    case Check(w) => CheckWorks(s, w);
    case WakeUp(w) => EffortOfChange(s.workers, w, Woken, s.stopping);
    case Finish(w, _) => EffortOfChange(s.workers, w, Ready, s.stopping);
    case CancelNext =>
    case NotifyAll => EffortOfRoused(s.workers);
    case JoinNext =>
    case Return =>
  }

  lemma CheckWorks(s: State, w: nat)
    requires w < |s.workers| && CanRun(s.workers[w])
    ensures Work(AfterCheck(s, w)) < Work(s)
  {
    EffortOfChange(s.workers, w, AfterCheck(s, w).workers[w], s.stopping);
  }

  /** A run of the executor's own steps. */
  predicate Undisturbed(c: Config, s: State, run: seq<Action>)
    requires Possible(c, s, run)
    decreases |run|
  {
    run != [] ==> Internal(s, run[0]) && Undisturbed(c, Apply(c, s, run[0]), run[1..])
  }

  /** Left alone, the executor comes to rest: no run of its own steps is longer than the work it began with. */
  lemma {:induction false} EveryRunEnds(c: Config, s: State, run: seq<Action>)
    requires Sane(c) && Invariant(c, s) && Possible(c, s, run) && Undisturbed(c, s, run)
    ensures |run| + Work(Execute(c, s, run)) <= Work(s)
    decreases |run|
  {
    if run != [] {
      StepsWork(c, s, run[0]);
      StepKeepsInvariant(c, s, run[0]);
      EveryRunEnds(c, Apply(c, s, run[0]), run[1..]);
    }
  }

  ghost predicate AtRest(c: Config, s: State) {
    forall a :: Enabled(c, s, a) ==> !Internal(s, a)
  }

  /** When it comes to rest, no shutdown is under way, nothing is queued or running, and every promise is settled. */
  lemma RestIsSettled(c: Config, s: State)
    requires Sane(c) && Invariant(c, s) && AtRest(c, s)
    ensures s.phase.Free? && s.queue == [] && s.pending == 0
    ensures forall job :: 0 <= job < |s.promises| ==> |s.promises[job]| == 1
    ensures s.stopping ==> forall w :: 0 <= w < |s.workers| ==> s.workers[w] == Exited
  {
    NoWorkerCanMove(c, s);
    if !s.phase.Free? { ShutdownCanMove(c, s); }
    assert s.pending == 0 by {
      if s.pending > 0 {
        var v := if exists w :: Sleeps(s, w) then (var w :| Sleeps(s, w); w) else 0;
        assert Enabled(c, s, NotifyOne(v)) && Internal(s, NotifyOne(v));
      }
    }
    NoneWoken(s.workers);
    assert !s.stopping && |s.workers| > 0 ==> Sleeps(s, 0);
    forall job | 0 <= job < |s.promises| ensures |s.promises[job]| == 1 {
      assert Held(s, job) + |s.promises[job]| == 1;
      RunningSomewhere(job, s.workers);
    }
  }

  lemma NoWorkerCanMove(c: Config, s: State)
    requires Invariant(c, s) && AtRest(c, s)
    ensures forall w :: 0 <= w < |s.workers| ==> s.workers[w] == Asleep || s.workers[w] == Exited
  {
    forall w | 0 <= w < |s.workers| ensures s.workers[w] == Asleep || s.workers[w] == Exited {
      if CanRun(s.workers[w]) {
        assert Enabled(c, s, Check(w)) && Internal(s, Check(w));
      } else if s.workers[w].Running? {
        var job := s.workers[w].job;
        RunningOnce(s.workers, job, w);
        assert Held(s, job) + (if job < |s.promises| then |s.promises[job]| else 1) == 1;
        assert Enabled(c, s, Finish(w, true)) && Internal(s, Finish(w, true));
      }
    }
  }

  /** A shutdown with every worker asleep or gone has a step to take. */
  lemma ShutdownCanMove(c: Config, s: State)
    requires Invariant(c, s) && !s.phase.Free?
    requires forall w :: 0 <= w < |s.workers| ==> s.workers[w] == Asleep || s.workers[w] == Exited
    ensures !AtRest(c, s)
  {
    var a :=
      match s.phase
      case Cancelling(left) => if left != [] then CancelNext else NotifyAll
      case Joining(next) => if next < |s.workers| then JoinNext else Return;
    if s.phase.Cancelling? && s.phase.left != [] {
      var job := s.phase.left[0];
      assert Times(job, s.phase.left) >= 1;
      assert Held(s, job) + (if job < |s.promises| then |s.promises[job]| else 1) == 1;
    }
    assert Enabled(c, s, a) && Internal(s, a);
  }

  /** While a shutdown is under way its lifecycle lock keeps every disturbance out, so it cannot go on for ever. */
  lemma ShutdownIsUndisturbed(c: Config, s: State, a: Action)
    requires Invariant(c, s) && !s.phase.Free? && Enabled(c, s, a)
    ensures Internal(s, a)
  {
  }

  /** A run during which `shutdown` does not return. */
  predicate Within(c: Config, s: State, run: seq<Action>)
    requires Possible(c, s, run)
    decreases |run|
  {
    !s.phase.Free? && (run != [] ==> Within(c, Apply(c, s, run[0]), run[1..]))
  }

  /** Shutdown terminates: it returns within a bounded number of steps, whatever steps are taken, and is never stuck. */
  lemma {:induction false} ShutdownTerminates(c: Config, s: State, run: seq<Action>)
    requires Sane(c) && Invariant(c, s) && Possible(c, s, run) && Within(c, s, run)
    ensures |run| <= Work(s)
    ensures !AtRest(c, Execute(c, s, run))
    decreases |run|
  {
    if run == [] {
      if AtRest(c, s) { RestIsSettled(c, s); }
    } else {
      ShutdownIsUndisturbed(c, s, run[0]);
      StepsWork(c, s, run[0]);
      StepKeepsInvariant(c, s, run[0]);
      ShutdownTerminates(c, Apply(c, s, run[0]), run[1..]);
      assert Execute(c, s, run) == Execute(c, Apply(c, s, run[0]), run[1..]);
    }
  }

  lemma StoppedIsSettled(c: Config, s: State)
    requires Invariant(c, s) && s.stopping && !s.phase.Cancelling?
    requires forall w :: 0 <= w < |s.workers| ==> s.workers[w] == Exited
    ensures forall job :: 0 <= job < |s.promises| ==> |s.promises[job]| == 1
  {
    forall job | 0 <= job < |s.promises| ensures |s.promises[job]| == 1 {
      assert Held(s, job) + |s.promises[job]| == 1;
      RunningSomewhere(job, s.workers);
    }
  }

  /** When `shutdown` returns every worker has exited and every promise is settled; after `notify_all` none sleeps. */
  lemma ShutdownQuiesces(c: Config, s: State)
    requires Sane(c) && Reachable(c, s) && s.stopping && !s.phase.Cancelling?
    ensures forall w :: 0 <= w < |s.workers| ==> s.workers[w] != Asleep
    ensures Enabled(c, s, Return) || s.phase.Free? ==>
      && (forall w :: 0 <= w < |s.workers| ==> s.workers[w] == Exited)
      && (forall job :: 0 <= job < |s.promises| ==> |s.promises[job]| == 1)
  {
    ReachableKeepsInvariant(c, s);
    if Enabled(c, s, Return) || s.phase.Free? { StoppedIsSettled(c, s); }
  }
}
