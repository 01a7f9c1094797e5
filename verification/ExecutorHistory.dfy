/** What a run of the executor did, read off its actions, and the promises at its end. */
module ExecutorHistory {
  import opened Values
  import opened Executor

  /** The state after a run; an action that is not enabled does nothing. */
  function Reached(c: Config, run: seq<Action>): State {
    if run == [] then Initial
    else
      var s := Reached(c, run[..|run| - 1]);
      if Enabled(c, s, run[|run| - 1]) then Apply(c, s, run[|run| - 1]) else s
  }

  lemma {:induction false} PossibleSnoc(c: Config, s: State, run: seq<Action>)
    requires run != [] && Possible(c, s, run)
    ensures var n := |run| - 1;
      Possible(c, s, run[..n]) && Enabled(c, Execute(c, s, run[..n]), run[n]) && Execute(c, s, run) == Apply(c, Execute(c, s, run[..n]), run[n])
    decreases |run|
  {
    hide Enabled, Apply;
    var n := |run| - 1;
    if n > 0 {
      PossibleSnoc(c, Apply(c, s, run[0]), run[1..]);
      assert run[..n][1..] == run[1..][..n - 1];
    }
  }

  lemma {:induction false} ReachedIsExecuted(c: Config, run: seq<Action>)
    requires Possible(c, Initial, run)
    ensures Reached(c, run) == Execute(c, Initial, run)
    decreases |run|
  {
    hide Enabled, Apply;
    if run != [] {
      PossibleSnoc(c, Initial, run);
      ReachedIsExecuted(c, run[..|run| - 1]);
    }
  }

  // ---------------------------------------------------------------------------------------------
  // Events of a run
  // ---------------------------------------------------------------------------------------------

  function Submissions(run: seq<Action>): nat {
    if run == [] then 0 else Submissions(run[..|run| - 1]) + (if run[|run| - 1].Submit? then 1 else 0)
  }

  /** At its step `i` the run lets the callback of a job return or throw, on the worker that has it. */
  predicate FinishesAt(c: Config, run: seq<Action>, i: nat, job: nat, ok: bool) {
    && i < |run| && run[i].Finish? && run[i].ok == ok
    && var s := Reached(c, run[..i]); run[i].worker < |s.workers| && s.workers[run[i].worker] == Running(job)
  }

  /** Why a submission is refused, in the order of the tests; none when it is not. */
  function Refusal(c: Config, s: State, stopped: bool, threads: nat): Option<Reason> {
    if stopped then Some(ShutDown)
    else if |s.queue| >= c.capacity then Some(QueueFull)
    else if |s.workers| + threads < c.workerCount then Some(NoThread)
    else None
  }

  /** Step `i` is the submission of the job, and this is how it is answered: a stop earlier in the run refuses it. */
  predicate SubmittedAt(c: Config, run: seq<Action>, i: nat, job: nat, answer: Option<Reason>) {
    && i < |run| && run[i].Submit? && Submissions(run[..i]) == job
    && Refusal(c, Reached(c, run[..i]), Stop in run[..i], run[i].threads) == answer
  }

  predicate CancelsAt(c: Config, run: seq<Action>, i: nat, job: nat) {
    && i < |run| && run[i] == CancelNext
    && var p := Reached(c, run[..i]).phase; p.Cancelling? && p.left != [] && p.left[0] == job
  }

  ghost predicate Finishes(c: Config, run: seq<Action>, job: nat, ok: bool) { exists i: nat :: FinishesAt(c, run, i, job, ok) }

  ghost predicate Submitted(c: Config, run: seq<Action>, job: nat, answer: Option<Reason>) {
    exists i: nat :: SubmittedAt(c, run, i, job, answer)
  }

  ghost predicate Cancels(c: Config, run: seq<Action>, job: nat) { exists i: nat :: CancelsAt(c, run, i, job) }

  // ---------------------------------------------------------------------------------------------
  // One more step
  // ---------------------------------------------------------------------------------------------

  lemma FinishesSnoc(c: Config, run: seq<Action>, job: nat, ok: bool)
    requires run != []
    ensures var n := |run| - 1; Finishes(c, run, job, ok) <==> Finishes(c, run[..n], job, ok) || FinishesAt(c, run, n, job, ok)
  {
    hide Reached;
    var n := |run| - 1;
    forall i: nat | i < n ensures FinishesAt(c, run, i, job, ok) <==> FinishesAt(c, run[..n], i, job, ok) {
      assert run[..n][..i] == run[..i];
    }
  }

  lemma SubmittedSnoc(c: Config, run: seq<Action>, job: nat, answer: Option<Reason>)
    requires run != []
    ensures var n := |run| - 1; Submitted(c, run, job, answer) <==> Submitted(c, run[..n], job, answer) || SubmittedAt(c, run, n, job, answer)
  {
    hide Reached, Submissions, Refusal;
    var n := |run| - 1;
    forall i: nat | i < n ensures SubmittedAt(c, run, i, job, answer) <==> SubmittedAt(c, run[..n], i, job, answer) {
      assert run[..n][..i] == run[..i];
    }
  }

  lemma CancelsSnoc(c: Config, run: seq<Action>, job: nat)
    requires run != []
    ensures var n := |run| - 1; Cancels(c, run, job) <==> Cancels(c, run[..n], job) || CancelsAt(c, run, n, job)
  {
    hide Reached;
    var n := |run| - 1;
    forall i: nat | i < n ensures CancelsAt(c, run, i, job) <==> CancelsAt(c, run[..n], i, job) {
      assert run[..n][..i] == run[..i];
    }
  }

  /** The outcomes one action adds to the promise of a job. */
  function Settled(c: Config, s: State, a: Action, job: nat): seq<Outcome> {
    match a
    case Finish(w, ok) => if w < |s.workers| && s.workers[w] == Running(job) then [if ok then Value else Failed] else []
    case Submit(threads) =>
      if job != |s.promises| then []
      else (match Refusal(c, s, s.stopping, threads) case None => [] case Some(r) => [Rejected(r)])
    case CancelNext => if s.phase.Cancelling? && s.phase.left != [] && s.phase.left[0] == job then [Cancelled] else []
    case _ => []
  }

  function PromiseOf(s: State, job: nat): seq<Outcome> { if job < |s.promises| then s.promises[job] else [] }

  lemma StepSettles(c: Config, s: State, a: Action, job: nat)
    requires Enabled(c, s, a)
    ensures var t := Apply(c, s, a);
      && PromiseOf(t, job) == PromiseOf(s, job) + Settled(c, s, a, job)
      && |t.promises| == |s.promises| + (if a.Submit? then 1 else 0)
      && (t.stopping <==> s.stopping || a == Stop)
  {
    hide RouseAll;
    match a
    case Submit(threads) => SubmitSettles(c, s, threads, job);
    case _ =>
  }

  lemma SubmitSettles(c: Config, s: State, threads: nat, job: nat)
    ensures var t := AfterSubmit(c, s, threads);
      && PromiseOf(t, job) == PromiseOf(s, job) + Settled(c, s, Submit(threads), job)
      && |t.promises| == |s.promises| + 1 && t.stopping == s.stopping
      && t.accepted == s.accepted + (if Refusal(c, s, s.stopping, threads) == None then [|s.promises|] else [])
  {
  }

  // ---------------------------------------------------------------------------------------------
  // Promises and events
  // ---------------------------------------------------------------------------------------------

  /** The state knows how many jobs were submitted and whether a stop has come. */
  lemma {:induction false} CountsOfRun(c: Config, run: seq<Action>)
    requires Possible(c, Initial, run)
    ensures |Reached(c, run).promises| == Submissions(run) && (Reached(c, run).stopping <==> Stop in run)
    decreases |run|
  {
    hide Enabled, Apply;
    if run != [] {
      var n := |run| - 1;
      PossibleSnoc(c, Initial, run);
      ReachedIsExecuted(c, run[..n]);
      CountsOfRun(c, run[..n]);
      StepSettles(c, Reached(c, run[..n]), run[n], 0);
      assert run == run[..n] + [run[n]];
    }
  }

  /** The promises of a run hold exactly what its events say. */
  ghost predicate Accounted(c: Config, run: seq<Action>, job: nat) {
    var p := PromiseOf(Reached(c, run), job);
    && (Value in p <==> Finishes(c, run, job, true))
    && (Failed in p <==> Finishes(c, run, job, false))
    && (Cancelled in p <==> Cancels(c, run, job))
    && (forall r: Reason :: Rejected(r) in p <==> Submitted(c, run, job, Some(r)))
    && (job in Reached(c, run).accepted <==> Submitted(c, run, job, None))
  }

  /** What the last action settles is what the events of that step say. */
  lemma LastEvent(c: Config, run: seq<Action>, job: nat)
    requires run != [] && Possible(c, Initial, run[..|run| - 1])
    ensures var n := |run| - 1; var s := Reached(c, run[..n]); var o := Settled(c, s, run[n], job);
      && (Value in o <==> FinishesAt(c, run, n, job, true))
      && (Failed in o <==> FinishesAt(c, run, n, job, false))
      && (Cancelled in o <==> CancelsAt(c, run, n, job))
      && (forall r: Reason :: Rejected(r) in o <==> SubmittedAt(c, run, n, job, Some(r)))
      && (SubmittedAt(c, run, n, job, None)
          <==> run[n].Submit? && job == |s.promises| && Refusal(c, s, s.stopping, run[n].threads) == None)
  {
    hide Reached, Submissions, Refusal;
    var n := |run| - 1;
    CountsOfRun(c, run[..n]);
  }

  lemma AcceptedAfter(c: Config, s: State, a: Action)
    requires Enabled(c, s, a)
    ensures Apply(c, s, a).accepted
         == s.accepted + (if a.Submit? && Refusal(c, s, s.stopping, a.threads) == None then [|s.promises|] else [])
  {
    hide RouseAll;
    match a
    case Submit(threads) => SubmitSettles(c, s, threads, 0);
    case _ =>
  }

  lemma {:induction false} RunIsAccounted(c: Config, run: seq<Action>, job: nat)
    requires Possible(c, Initial, run)
    ensures Accounted(c, run, job)
    decreases |run|
  {
    hide Enabled, Apply, Settled, FinishesAt, CancelsAt, SubmittedAt, Finishes, Cancels, Submitted;
    if run == [] {
      NothingYet(c, job);
    } else {
      var n := |run| - 1;
      var s := Reached(c, run[..n]);
      PossibleSnoc(c, Initial, run);
      ReachedIsExecuted(c, run[..n]);
      RunIsAccounted(c, run[..n], job);
      StepSettles(c, s, run[n], job);
      LastEvent(c, run, job);
      AcceptedAfter(c, s, run[n]);
      FinishesSnoc(c, run, job, true);
      FinishesSnoc(c, run, job, false);
      CancelsSnoc(c, run, job);
      SubmittedSnoc(c, run, job, None);
      forall r: Reason ensures Submitted(c, run, job, Some(r)) <==> Submitted(c, run[..n], job, Some(r)) || SubmittedAt(c, run, n, job, Some(r)) {
        SubmittedSnoc(c, run, job, Some(r));
      }
    }
  }

  lemma NothingYet(c: Config, job: nat)
    ensures Accounted(c, [], job)
  {
  }

  /**
   * The promise of every job, from the actions of the run alone: a value if its callback returned, an exception if it
   * threw, the reason if its submission was refused, cancelled if shutdown took it; and it is accepted exactly if
   * there was room, a thread, and no stop before it.
   */
  lemma OutcomeOfRun(c: Config, run: seq<Action>, job: nat)
    requires Sane(c) && Possible(c, Initial, run) && job < Submissions(run)
    ensures var s := Execute(c, Initial, run);
      && job < |s.promises| && |s.promises[job]| <= 1
      && (s.promises[job] == [Value] <==> Finishes(c, run, job, true))
      && (s.promises[job] == [Failed] <==> Finishes(c, run, job, false))
      && (s.promises[job] == [Cancelled] <==> Cancels(c, run, job))
      && (forall r: Reason :: s.promises[job] == [Rejected(r)] <==> Submitted(c, run, job, Some(r)))
      && (job in s.accepted <==> Submitted(c, run, job, None))
  {
    hide Enabled, Apply, Reached, Finishes, Cancels, Submitted, Invariant;
    var s := Execute(c, Initial, run);
    ReachedIsExecuted(c, run);
    CountsOfRun(c, run);
    RunIsAccounted(c, run, job);
    assert Reachable(c, s);
    ExactlyOnce(c, s, job);
    var p := s.promises[job];
    forall o: Outcome ensures o in p <==> p == [o] {
      if o in p { assert p == [p[0]]; }
    }
    forall r: Reason ensures p == [Rejected(r)] <==> Submitted(c, run, job, Some(r)) {
      assert Rejected(r) in p <==> p == [Rejected(r)];
    }
  }
}
