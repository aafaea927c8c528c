/**
 * The queue always gets its work done: left to itself it stops, after a bounded
 * number of steps, with every job answered that was handed in while a worker was left.
 */
module QueueProgress {
  import opened JobQueue
  import opened QueueProtocol

  /** Steps taken by the queue's own threads, as opposed to requests and spurious wakeups. */
  predicate Internal(step: Step) {
    !step.Submit? && !step.Spurious? && !step.Cancel? && !step.Shutdown?
  }

  /** A bound on the internal steps still to come. */
  ghost function Fuel(s: Sys): nat {
    var n := |s.workers|;
    (n + 4) * |s.q.pending| + 2 * s.owedOne + (if s.owedAll then n + 1 else 0) + Total(s.workers, WorkTally(n))
  }

  lemma InternalStepDecreases(s: Sys, step: Step)
    requires Enabled(s, step) && Internal(step)
    ensures Fuel(Apply(s, step)) < Fuel(s)
  {
    match step
    case NotifyOne(w) => if SomeAsleep(s) { TotalUpdate(s.workers, w, Awake, WorkTally(|s.workers|)); }
    case Check(w) => CheckDecreases(s, w);
    case Start(w) => AdvanceDecreases(s, step);
    case Reply(w, _) => AdvanceDecreases(s, step);
    case Finish(w) => AdvanceDecreases(s, step);
    case NotifyAll(w) => NotifyAllDecreases(s, w);
    case ShutdownNotify => TotalCompare(WakeAll(s.workers), s.workers, WorkTally(|s.workers|), 1);
  }

  lemma AdvanceDecreases(s: Sys, step: Step)
    requires Enabled(s, step) && (step.Start? || step.Reply? || step.Finish?)
    ensures Fuel(Apply(s, step)) < Fuel(s)
  {
    hide Total, SomeAsleep, SomeWorkerLeft;
    TotalUpdate(s.workers, step.w, Apply(s, step).workers[step.w], WorkTally(|s.workers|));
  }

  lemma OneLess(n: nat, k: nat)
    requires k > 0
    ensures (n + 4) * k == (n + 4) * (k - 1) + n + 4
  {}

  lemma CheckDecreases(s: Sys, w: nat)
    requires Enabled(s, Check(w))
    ensures Fuel(Apply(s, Check(w))) < Fuel(s)
  {
    hide Total, SomeAdmissible, FirstAdmissible;
    var n := |s.workers|;
    if SomeAdmissible(s.q) && !(s.q.stopping && s.q.pending == []) {
      var i := CheckTakes(s, w);
      OneLess(n, |s.q.pending|);
      TotalUpdate(s.workers, w, Holding(Taken(s.q, i)), WorkTally(n));
    } else if s.q.stopping && s.q.pending == [] {
      TotalUpdate(s.workers, w, Exited, WorkTally(n));
    } else {
      TotalUpdate(s.workers, w, Asleep, WorkTally(n));
    }
  }

  /** Waking everyone else costs less than the notify was worth: the notifier itself was not asleep. */
  lemma NotifyAllDecreases(s: Sys, w: nat)
    requires Enabled(s, NotifyAll(w))
    ensures Fuel(Apply(s, NotifyAll(w))) < Fuel(s)
  {
    var n := |s.workers|;
    var ws := s.workers[w := Asleep];
    TotalUpdate(s.workers, w, Asleep, WorkTally(n));
    assert WakeAll(ws) == WakeAll(s.workers[w := Awake]);
    TotalCompare(WakeAll(ws), ws, WorkTally(n), 1);
  }

  ghost predicate WorkRemains(s: Sys) {
    (s.q.pending != [] && SomeWorkerLeft(s)) || s.owedOne > 0 || s.owedAll || SomeActive(s)
  }

  /** No deadlock: while anything is outstanding, some internal step can be taken. */
  lemma SomeStepEnabled(s: Sys) returns (step: Step)
    requires Inv(s) && WorkRemains(s)
    ensures Enabled(s, step) && Internal(step)
  {
    if s.owedAll { return ShutdownNotify; }
    if s.owedOne > 0 {
      if SomeAsleep(s) {
        var w: nat :| w < |s.workers| && s.workers[w].Asleep?;
        return NotifyOne(w);
      }
      return NotifyOne(0);
    }
    assert SomeActive(s);
    var w: nat :| w < |s.workers| && (s.workers[w].Awake? || IsBusy(s.workers[w]) || s.workers[w].Notifying?);
    match s.workers[w]
    case Awake => return Check(w);
    case Holding(e) =>
      assert IsSubmitted(s, e);
      return Start(w);
    case Executing(_, _) => return Reply(w, Cancelled);
    case Answered(_) =>
      TotalAtLeast(s.workers, w, BusyTally);
      return Finish(w);
    case Notifying => return NotifyAll(w);
  }

  /** Nothing more can happen on its own. */
  ghost predicate AtRest(s: Sys) {
    forall step :: Internal(step) ==> !Enabled(s, step)
  }

  /** A queue at rest has answered every job once, except the late ones, which it has not answered at all. */
  lemma QuietMeansDone(s: Sys)
    requires Inv(s) && AtRest(s)
    ensures s.q.running == 0 && (s.q.pending == [] <==> s.late == {})
    ensures forall t: nat | t < |s.submitted| ::
      (t in s.finished <==> t !in s.late) && AnswerTimes(s.answers, t) == 1 - Bit(t in s.late)
    ensures s.q.stopping ==> !SomeWorkerLeft(s)
  {
    if WorkRemains(s) {
      var step := SomeStepEnabled(s);
      assert false;
    }
    assert forall w | 0 <= w < |s.workers| :: !(s.workers[w].Awake? || IsBusy(s.workers[w]) || s.workers[w].Notifying?);
    TotalZero(s.workers, BusyTally);
    forall t: nat | t < |s.submitted|
      ensures (t in s.finished <==> t !in s.late) && AnswerTimes(s.answers, t) == 1 - Bit(t in s.late)
      ensures t in s.late ==> s.q.pending != []
    {
      TotalZero(s.workers, TokenTally(t));
      TotalZero(s.workers, AnsweredTally(t));
      if SomeWorkerLeft(s) {
        assert s.q.pending == [] && s.late == {};
      } else if t !in s.late {
        OnlyLatePending(s, t);
      }
    }
    if s.q.pending != [] { assert s.q.pending[0].token in s.late; }
    if s.q.stopping && SomeWorkerLeft(s) {
      ActiveOrAsleep(s);
    }
  }

  ghost predicate AllInternal(steps: seq<Step>) {
    forall i | 0 <= i < |steps| :: Internal(steps[i])
  }

  /** No internal run is longer than the fuel of the state it starts from. */
  lemma {:induction false} InternalRunBounded(s: Sys, steps: seq<Step>)
    requires Inv(s) && ValidRun(s, steps) && AllInternal(steps)
    ensures |steps| + Fuel(Exec(s, steps)) <= Fuel(s)
    decreases |steps|
  {
    if steps != [] {
      InvStep(s, steps[0]);
      InternalStepDecreases(s, steps[0]);
      InternalRunBounded(Apply(s, steps[0]), steps[1..]);
    }
  }

  /** From every state the invariant allows, the queue can come to rest, with all but the late jobs answered. */
  lemma {:induction false} CanFinish(s: Sys) returns (steps: seq<Step>)
    requires Inv(s)
    ensures ValidRun(s, steps) && AllInternal(steps)
    ensures var end := Exec(s, steps);
      && Inv(end) && AtRest(end) && end.submitted == s.submitted && end.late == s.late
      && forall t: nat | t < |s.submitted| :: AnswerTimes(end.answers, t) == 1 - Bit(t in s.late)
    decreases Fuel(s)
  {
    hide Inv, Enabled, Apply, Fuel, WorkRemains, SomeWorkerLeft;
    if WorkRemains(s) {
      var step := SomeStepEnabled(s);
      InvStep(s, step);
      InternalStepDecreases(s, step);
      var s' := Apply(s, step);
      LateOnlyGrows(s, step);
      assert s'.submitted == s.submitted by { NoSubmit(s, step); }
      var rest := CanFinish(s');
      steps := [step] + rest;
      assert steps[0] == step && steps[1..] == rest;
    } else {
      steps := [];
      forall step | Internal(step) ensures !Enabled(s, step) { EnabledIsWork(s, step); }
      QuietMeansDone(s);
    }
  }

  lemma NoSubmit(s: Sys, step: Step)
    requires Enabled(s, step) && !step.Submit?
    ensures Apply(s, step).submitted == s.submitted
  {
    if step.Check? && SomeAdmissible(s.q) && !(s.q.stopping && s.q.pending == []) { var i := CheckTakes(s, step.w); }
  }

  lemma EnabledIsWork(s: Sys, step: Step)
    requires Internal(step)
    ensures Enabled(s, step) ==> WorkRemains(s)
  {}

  // ------------------------------------------------ submits after the last exit

  lemma {:induction false} LateStays(s: Sys, steps: seq<Step>, t: nat)
    requires Inv(s) && ValidRun(s, steps) && t < |s.submitted|
    ensures var end := Exec(s, steps); Inv(end) && t < |end.submitted| && (t in end.late <==> t in s.late)
    decreases |steps|
  {
    if steps != [] {
      InvStep(s, steps[0]);
      LateOnlyGrows(s, steps[0]);
      if !steps[0].Submit? { NoSubmit(s, steps[0]); }
      LateStays(Apply(s, steps[0]), steps[1..], t);
    }
  }

  lemma SubmitLate(s: Sys, submit: Step)
    requires Inv(s) && submit.Submit? && Enabled(s, submit)
    ensures var s' := Apply(s, submit);
      |s'.submitted| == |s.submitted| + 1 && (|s.submitted| in s'.late <==> !SomeWorkerLeft(s))
  {
    LinkedCounts(s);
  }

  /**
   * In every run that comes to rest, a job has been answered (once) if and only if some
   * worker was left when it was handed in. `before` leads up to the submit.
   */
  lemma AnsweredIffWorkerLeft(s0: Sys, n: nat, budget: nat, before: seq<Step>, submit: Step, after: seq<Step>)
    requires Init(s0, n, budget) && ValidRun(s0, before) && submit.Submit?
    requires Enabled(Exec(s0, before), submit) && ValidRun(Apply(Exec(s0, before), submit), after)
    requires AtRest(Exec(Apply(Exec(s0, before), submit), after))
    ensures var s := Exec(s0, before);
      AnswerTimes(Exec(Apply(s, submit), after).answers, |s.submitted|) == Bit(SomeWorkerLeft(s))
  {
    hide Init, Inv, Enabled, Apply, Exec, ValidRun, AtRest, SomeWorkerLeft;
    InitInv(s0, n, budget);
    InvRun(s0, before);
    var s := Exec(s0, before);
    InvStep(s, submit);
    SubmitLate(s, submit);
    LateStays(Apply(s, submit), after, |s.submitted|);
    QuietMeansDone(Exec(Apply(s, submit), after));
  }

  /** Whatever happens next, the answers stay as they are and what is pending stays pending. */
  lemma {:induction false} StrandedWithoutWorkers(s: Sys, steps: seq<Step>)
    requires !SomeWorkerLeft(s) && ValidRun(s, steps)
    ensures s.q.pending <= Exec(s, steps).q.pending && Exec(s, steps).answers == s.answers
    decreases |steps|
  {
    if steps != [] {
      GoneStaysGone(s, steps[0]);
      StrandedWithoutWorkers(Apply(s, steps[0]), steps[1..]);
    }
  }

  /** Such a run: one worker, shutdown, the worker leaves, a job comes in, and everybody is notified. */
  function LateSubmit(): seq<Step> {
    [Shutdown, Check(0), Submit(0, "", 0), NotifyOne(0), ShutdownNotify]
  }

  lemma LateSubmitSteps(s0: Sys, budget: nat)
    requires Init(s0, 1, budget)
    ensures Enabled(s0, Shutdown) && var s1 := Apply(s0, Shutdown);
      Enabled(s1, Check(0)) && var s2 := Apply(s1, Check(0));
      Enabled(s2, Submit(0, "", 0)) && var s3 := Apply(s2, Submit(0, "", 0));
      Enabled(s3, NotifyOne(0)) && var s4 := Apply(s3, NotifyOne(0));
      Enabled(s4, ShutdownNotify) && var s5 := Apply(s4, ShutdownNotify);
      s5.workers == [Exited] && s5.owedOne == 0 && !s5.owedAll && s5.answers == []
      && s5.q.pending == [Entry(0, "", 0, 0, false)]
  {
    var s2 := Apply(Apply(s0, Shutdown), Check(0));
    assert s2.workers == [Exited];
  }

  lemma NobodyLeft(s: Sys)
    requires s.workers == [Exited] && s.owedOne == 0 && !s.owedAll
    ensures AtRest(s) && !SomeWorkerLeft(s)
  {}

  lemma RunCons(s: Sys, step: Step, rest: seq<Step>)
    requires Enabled(s, step) && ValidRun(Apply(s, step), rest)
    ensures ValidRun(s, [step] + rest) && Exec(s, [step] + rest) == Exec(Apply(s, step), rest)
  {
    assert ([step] + rest)[1..] == rest;
  }

  lemma LateSubmitStranded(s0: Sys, budget: nat)
    requires Init(s0, 1, budget)
    ensures ValidRun(s0, LateSubmit())
    ensures var s := Exec(s0, LateSubmit());
      AtRest(s) && !SomeWorkerLeft(s) && s.q.pending == [Entry(0, "", 0, 0, false)] && s.answers == []
  {
    LateSubmitSteps(s0, budget);
    hide Enabled, Apply, AtRest, SomeWorkerLeft, Init;
    var s1 := Apply(s0, Shutdown);
    var s2 := Apply(s1, Check(0));
    var s3 := Apply(s2, Submit(0, "", 0));
    var s4 := Apply(s3, NotifyOne(0));
    var s5 := Apply(s4, ShutdownNotify);
    NobodyLeft(s5);
    RunCons(s4, ShutdownNotify, []);
    RunCons(s3, NotifyOne(0), [ShutdownNotify] + []);
    RunCons(s2, Submit(0, "", 0), [NotifyOne(0)] + ([ShutdownNotify] + []));
    RunCons(s1, Check(0), [Submit(0, "", 0)] + ([NotifyOne(0)] + ([ShutdownNotify] + [])));
    RunCons(s0, Shutdown, [Check(0)] + ([Submit(0, "", 0)] + ([NotifyOne(0)] + ([ShutdownNotify] + []))));
    assert LateSubmit()
        == [Shutdown] + ([Check(0)] + ([Submit(0, "", 0)] + ([NotifyOne(0)] + ([ShutdownNotify] + []))));
  }
}
