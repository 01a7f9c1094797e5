/** The executor object, field by field. Each method is one atomic step, or a loop of them that touches one thread's data. */
module TaskExecutor {
  import opened Values
  import opened Executor

  class BoundedTaskExecutor {
    const config: Config
    var queue: seq<nat>
    var stopping: bool
    var workers: seq<Worker>
    var pending: nat
    var phase: Phase
    var promises: seq<seq<Outcome>>
    ghost var accepted: seq<nat>
    ghost var started: seq<nat>
    ghost var dropped: seq<nat>

    ghost function View(): State
      reads this
    {
      State(queue, stopping, workers, pending, phase, promises, accepted, started, dropped)
    }

    constructor (workerCount: nat, capacity: nat)
      ensures Sane(config) && Reachable(config, View())
      ensures config == Configure(workerCount, capacity) && View() == Initial
    {
      config := Configure(workerCount, capacity);
      queue, stopping, workers, pending, phase, promises := [], false, [], 0, Free, [];
      accepted, started, dropped := [], [], [];
      new;
      assert Possible(config, Initial, []) && Execute(config, Initial, []) == Initial;
    }

    /** `start_workers_locked`: it starts workers one by one until the pool is full or the system gives no more threads. */
    method StartWorkersLocked(threads: nat) returns (started: bool)
      modifies this`workers
      ensures workers == StartWorkers(old(workers), config.workerCount, threads)
      ensures started == (|workers| >= config.workerCount)
    {
      var granted := 0;
      while |workers| < config.workerCount
        invariant granted <= threads
        invariant granted == 0 || |old(workers)| + granted <= config.workerCount
        invariant workers == old(workers) + seq(granted, _ => Ready)
        decreases config.workerCount - |workers|
      {
        if granted == threads { return false; }
        workers := workers + [Ready];
        granted := granted + 1;
      }
      return true;
    }

    /** The lock region of `submit`: it settles a job it refuses, and queues any other. */
    method SubmitLocked(threads: nat) returns (job: nat)
      requires Enabled(config, View(), Submit(threads))
      modifies this
      ensures job == old(|promises|) && View() == Apply(config, old(View()), Submit(threads))
    {
      job := |promises|;
      promises := promises + [[]];
      if stopping {
        SettleNew(old(promises), Rejected(ShutDown));
        promises := Settle(promises, job, Rejected(ShutDown));
      } else if |queue| >= config.capacity {
        SettleNew(old(promises), Rejected(QueueFull));
        promises := Settle(promises, job, Rejected(QueueFull));
      } else {
        var full := StartWorkersLocked(threads);
        if full {
          queue := queue + [job];
          accepted := accepted + [job];
          pending := pending + 1;
        } else {
          SettleNew(old(promises), Rejected(NoThread));
          promises := Settle(promises, job, Rejected(NoThread));
        }
      }
    }

    /** `notify_one`, which wakes the given sleeper, or nobody when nobody sleeps. */
    method NotifyOneSleeper(sleeper: nat)
      requires Enabled(config, View(), NotifyOne(sleeper))
      modifies this`pending, this`workers
      ensures View() == Apply(config, old(View()), NotifyOne(sleeper))
    {
      pending := pending - 1;
      if sleeper < |workers| && workers[sleeper] == Asleep {
        workers := workers[sleeper := Woken];
      }
    }

    /** The lock region of `run_worker`: the next job, or None when the worker sleeps or leaves. */
    method NextJob(w: nat) returns (job: Option<nat>)
      requires Enabled(config, View(), Check(w))
      modifies this
      ensures View() == Apply(config, old(View()), Check(w))
      ensures job == if old(queue) == [] then None else Some(old(queue)[0])
    {
      if !stopping && queue == [] {
        workers := workers[w := Asleep];
        return None;
      }
      if queue == [] {
        workers := workers[w := Exited];
        return None;
      }
      job := Some(queue[0]);
      queue := queue[1..];
      workers := workers[w := Running(job.value)];
      started := started + [job.value];
    }

    /** `TypedJob::run`: the value of the callback, or what it threw. */
    method RunJob(w: nat, ok: bool)
      requires Enabled(config, View(), Finish(w, ok))
      modifies this`promises, this`workers
      ensures View() == Apply(config, old(View()), Finish(w, ok))
    {
      promises := Settle(promises, workers[w].job, if ok then Value else Failed);
      workers := workers[w := Ready];
    }

    /** The lock region of `shutdown`: the flag is set and the queue taken in one go. */
    method TakeQueue()
      requires Enabled(config, View(), Stop)
      modifies this
      ensures View() == Apply(config, old(View()), Stop)
    {
      stopping := true;
      phase := Cancelling(queue);
      dropped := dropped + queue;
      queue := [];
    }

    /** The loop of `shutdown` over the jobs it took. */
    method CancelTaken()
      requires phase.Cancelling? && Possible(config, View(), Cancels(phase.left))
      modifies this`promises, this`phase
      ensures View() == Execute(config, old(View()), Cancels(old(phase.left)))
    {
      while phase.left != []
        invariant phase.Cancelling? && Possible(config, View(), Cancels(phase.left))
        invariant Execute(config, View(), Cancels(phase.left)) == Execute(config, old(View()), Cancels(old(phase.left)))
        decreases if phase.Cancelling? then |phase.left| else 0
      {
        assert Cancels(phase.left)[1..] == Cancels(phase.left[1..]);
        promises := Settle(promises, phase.left[0], Cancelled);
        phase := Cancelling(phase.left[1..]);
      }
    }

    /** `notify_all`. */
    method WakeAll()
      requires Enabled(config, View(), NotifyAll)
      modifies this`workers, this`phase
      ensures View() == Apply(config, old(View()), NotifyAll)
    {
      var w := 0;
      while w < |workers|
        invariant w <= |workers| == |old(workers)|
        invariant forall v :: 0 <= v < w ==> workers[v] == Rouse(old(workers[v]))
        invariant forall v :: w <= v < |workers| ==> workers[v] == old(workers[v])
      {
        if workers[w] == Asleep { workers := workers[w := Woken]; }
        w := w + 1;
      }
      phase := Joining(0);
    }
  }

  lemma SettleNew(promises: seq<seq<Outcome>>, o: Outcome)
    ensures Settle(promises + [[]], |promises|, o) == promises + [[o]]
  {
    assert (promises + [[]])[|promises|] + [o] == [o];
  }

  function Cancels(left: seq<nat>): seq<Action> { seq(|left|, _ => CancelNext) }

  /** Cancelling the taken jobs settles each of them once more and no other, and leaves none. */
  lemma {:induction false} CancelsSettleTheTaken(c: Config, s: State, job: nat)
    requires s.phase.Cancelling? && job < |s.promises|
    requires forall i :: 0 <= i < |s.phase.left| ==> s.phase.left[i] < |s.promises|
    ensures Possible(c, s, Cancels(s.phase.left))
    ensures var t := Execute(c, s, Cancels(s.phase.left));
      && t.phase == Cancelling([])
      && t == s.(phase := t.phase, promises := t.promises)
      && |t.promises| == |s.promises|
      && t.promises[job] == s.promises[job] + seq(Times(job, s.phase.left), _ => Cancelled)
    decreases |s.phase.left|
  {
    var left := s.phase.left;
    if left == [] {
      assert s.promises[job] + seq(Times(job, left), _ => Cancelled) == s.promises[job];
    } else {
      var next := Apply(c, s, CancelNext);
      assert Cancels(left)[1..] == Cancels(left[1..]);
      CancelsSettleTheTaken(c, next, job);
      var n := Times(job, left[1..]);
      assert seq(1 + n, _ => Cancelled) == [Cancelled] + seq(n, _ => Cancelled);
      assert s.promises[job] + [Cancelled] + seq(n, _ => Cancelled) == s.promises[job] + ([Cancelled] + seq(n, _ => Cancelled));
    }
  }
}
