/**
 * What a request of the queue comes to, said of jobs rather than of the queue's fields:
 * whom a cancel reaches, how a cancelled job is answered, and which job a worker takes.
 */
module QueueOrder {
  import opened Integers
  import opened JobQueue
  import opened QueueProtocol
  import opened QueueBudget

  // ------------------------------------------------------------ cancelling

  /** A cancel raises the flag of the unfinished job with that id, and does nothing else at all. */
  lemma CancelRaises(s: Sys, id: nat, t: nat)
    requires Inv(s) && t < |s.submitted|
    ensures Enabled(s, Cancel(id)) && var s' := Apply(s, Cancel(id));
      && |s'.q.flags| == |s.submitted| && s'.(q := s'.q.(flags := s.q.flags)) == s
      && (s'.q.flags[t] <==> s.q.flags[t] || (Unfinished(s, t) && s.submitted[t].id == id))
  {
    if Unfinished(s, t) && !s.q.flags[t] { assert InLive(s, t); }
    if id in s.q.live {
      var u := s.q.live[id];
      assert u < |s.submitted| && s.submitted[u].id == id && u !in s.finished;
    }
  }

  /** No worker has begun the task of job `t`. */
  ghost predicate NotStarted(s: Sys, t: nat) {
    Unfinished(s, t) && forall w | 0 <= w < |s.workers| && IsBusy(s.workers[w]) && s.workers[w].entry.token == t ::
      s.workers[w].Holding?
  }

  /** Cancelled, and so seen by every worker that has the job and said in every answer it has had. */
  ghost predicate Doomed(s: Sys, t: nat) {
    && t < |s.q.flags| && s.q.flags[t]
    && (forall w | 0 <= w < |s.workers| && s.workers[w].Executing? && s.workers[w].entry.token == t ::
          s.workers[w].sawCancel)
    && OnlyCancelled(s.answers, t)
  }

  ghost predicate OnlyCancelled(answers: seq<Answer>, t: nat) {
    forall k | 0 <= k < |answers| && answers[k].token == t :: answers[k].outcome == Cancelled
  }

  lemma DoomedStep(s: Sys, step: Step, t: nat)
    requires Linked(s) && Doomed(s, t) && Enabled(s, step)
    ensures Doomed(Apply(s, step), t)
  {
    FlagsGrow(s, step);
    var s' := Apply(s, step);
    if step.Check? && SomeAdmissible(s.q) && !(s.q.stopping && s.q.pending == []) {
      var i := CheckTakes(s, step.w);
    }
    forall w | 0 <= w < |s'.workers| && s'.workers[w].Executing? && s'.workers[w].entry.token == t
      ensures s'.workers[w].sawCancel
    {
      assert step == Start(w) || s.workers[w] == s'.workers[w];
    }
  }

  lemma {:induction false} DoomedRun(s: Sys, steps: seq<Step>, t: nat)
    requires Inv(s) && Doomed(s, t) && ValidRun(s, steps)
    ensures OnlyCancelled(Exec(s, steps).answers, t)
    decreases |steps|
  {
    hide Inv, Enabled, Apply;
    if steps != [] {
      InvStep(s, steps[0]);
      assert Linked(s) by { InvLinked(s); }
      DoomedStep(s, steps[0], t);
      DoomedRun(Apply(s, steps[0]), steps[1..], t);
    }
  }

  lemma InvLinked(s: Sys)
    requires Inv(s)
    ensures Linked(s)
  {}

  lemma {:induction false} NoneGiven(answers: seq<Answer>, t: nat)
    requires AnswerTimes(answers, t) == 0
    ensures forall k | 0 <= k < |answers| :: answers[k].token != t
  {
    if answers != [] {
      NoneGiven(answers[..|answers| - 1], t);
      assert forall k | 0 <= k < |answers| - 1 :: answers[..|answers| - 1][k] == answers[k];
    }
  }

  /**
   * A job whose flag is up before a worker begins it, by a cancel, a newer job of its key
   * or a shutdown, is answered as cancelled and in no other way, whatever happens after.
   */
  lemma CancelledBeforeStart(s: Sys, t: nat, steps: seq<Step>)
    requires Inv(s) && NotStarted(s, t) && s.q.flags[t] && ValidRun(s, steps)
    ensures OnlyCancelled(Exec(s, steps).answers, t)
  {
    TotalZero(s.workers, AnsweredTally(t));
    NoneGiven(s.answers, t);
    DoomedRun(s, steps, t);
  }

  /** In every run, a job cancelled by its id before a worker began it has no answer but `Cancelled`. */
  lemma CancelMeansCancelled(s0: Sys, n: nat, budget: nat, before: seq<Step>, t: nat, after: seq<Step>)
    requires Init(s0, n, budget) && ValidRun(s0, before) && NotStarted(Exec(s0, before), t)
    requires var s := Exec(s0, before); var cancel := Cancel(s.submitted[t].id);
      Enabled(s, cancel) && ValidRun(Apply(s, cancel), after)
    ensures var s := Exec(s0, before);
      OnlyCancelled(Exec(Apply(s, Cancel(s.submitted[t].id)), after).answers, t)
  {
    hide Inv, Init, ValidRun, Exec, Enabled, OnlyCancelled;
    InitInv(s0, n, budget);
    InvRun(s0, before);
    var s := Exec(s0, before);
    var cancel := Cancel(s.submitted[t].id);
    CancelRaises(s, s.submitted[t].id, t);
    InvStep(s, cancel);
    CancelledBeforeStart(Apply(s, cancel), t, after);
  }

  // ------------------------------------------------- which job a worker takes

  /** The deque is in the order of submission. */
  ghost predicate InOrder(s: Sys) { Rising(s.q.pending, |s.q.flags|) }

  ghost predicate Rising(pending: seq<Entry>, n: nat) {
    && (forall i, j | 0 <= i < j < |pending| :: pending[i].token < pending[j].token)
    && (forall i | 0 <= i < |pending| :: pending[i].token < n)
  }

  lemma StillRising(pending: seq<Entry>, i: nat, n: nat)
    requires Rising(pending, n) && i < |pending|
    ensures Rising(pending[..i] + pending[i + 1..], n)
  {}

  lemma InOrderStep(s: Sys, step: Step)
    requires InOrder(s) && Enabled(s, step)
    ensures InOrder(Apply(s, step))
  {
    hide SomeWorkerLeft;
    if step.Check? { InOrderCheck(s, step.w); }
  }

  lemma InOrderCheck(s: Sys, w: nat)
    requires InOrder(s) && Enabled(s, Check(w))
    ensures InOrder(Apply(s, Check(w)))
  {
    hide SomeWorkerLeft;
    hide Rising;
    if SomeAdmissible(s.q) && !(s.q.stopping && s.q.pending == []) {
      var i := CheckTakes(s, w);
      StillRising(s.q.pending, i, |s.q.flags|);
    }
  }

  lemma {:induction false} InOrderRun(s: Sys, steps: seq<Step>)
    requires InOrder(s) && ValidRun(s, steps)
    ensures InOrder(Exec(s, steps))
    decreases |steps|
  {
    hide InOrder, Enabled, Apply;
    if steps != [] {
      InOrderStep(s, steps[0]);
      InOrderRun(Apply(s, steps[0]), steps[1..]);
    }
  }

  ghost predicate Waiting(s: Sys, t: nat) {
    exists i :: 0 <= i < |s.q.pending| && s.q.pending[i].token == t
  }

  /** The bytes the running jobs were charged for. */
  ghost function Load(s: Sys): nat { Total(s.workers, LoadTally) }

  /** Neither cancelled nor small enough for what the running jobs leave of the budget. */
  ghost predicate HeldBack(s: Sys, t: nat)
    requires t < |s.submitted| && |s.q.flags| == |s.submitted|
  {
    !s.q.flags[t] && Load(s) + s.submitted[t].estimate > s.q.budget
  }

  ghost predicate NobodyBusy(s: Sys) {
    forall w | 0 <= w < |s.workers| :: !IsBusy(s.workers[w])
  }

  /**
   * What a worker that looks for work does, said of jobs: it leaves when the queue is
   * stopping and nothing waits; it sleeps only when every waiting job is held back and
   * somebody is at work on another; and it takes a job only past jobs that are held back.
   */
  ghost predicate Looked(s: Sys, p: Phase)
    requires |s.q.flags| == |s.submitted| && forall i | 0 <= i < |s.q.pending| :: s.q.pending[i].token < |s.submitted|
  {
    match p
    case Exited => s.q.stopping && s.q.pending == []
    case Asleep =>
      && (s.q.pending == [] ==> !s.q.stopping) && (s.q.pending != [] ==> !NobodyBusy(s))
      && forall t: nat | Waiting(s, t) :: HeldBack(s, t)
    case Holding(e) =>
      && Waiting(s, e.token) && e == s.submitted[e.token].(charged := !s.q.flags[e.token])
      && (forall t: nat | Waiting(s, t) && t < e.token :: HeldBack(s, t))
      && (HeldBack(s, e.token) ==> NobodyBusy(s) && forall t: nat | Waiting(s, t) :: e.token <= t)
    case _ => false
  }

  /** With exact accounting the 64-bit test is the plain one. */
  lemma FitsPlainly(s: Sys, w: nat, i: nat, bound: nat)
    requires Inv(s) && Exact(s) && w < |s.workers| && s.workers[w].Awake? && i < |s.q.pending|
    requires Bounded(s, bound) && NoOverflow(|s.workers|, s.q.budget, bound)
    ensures s.q.pending[i].token < |s.submitted|
    ensures Admissible(s.q, i) <==> !HeldBack(s, s.q.pending[i].token) || (NobodyBusy(s) && i == 0)
  {
    hide Conserved, AnsweredOnce, Registered, LatestPerKey, Draining, LateWaits, Wakes;
    var t := s.q.pending[i].token;
    assert s.q.pending[i] == s.submitted[t];
    AdmittedBound(s, bound);
    RoomForOneMore(s, w, bound);
    assert Add64(s.q.admitted, s.submitted[t].estimate) == Load(s) + s.submitted[t].estimate;
    BusyCount(s);
  }

  lemma BusyCount(s: Sys)
    requires Counted(s)
    ensures s.q.running == 0 <==> NobodyBusy(s)
  {
    if NobodyBusy(s) {
      TotalZero(s.workers, BusyTally);
    } else {
      var w :| 0 <= w < |s.workers| && IsBusy(s.workers[w]);
      TotalAtLeast(s.workers, w, BusyTally);
    }
  }

  lemma LookTakes(s: Sys, w: nat, i: nat, bound: nat)
    requires Inv(s) && Exact(s) && InOrder(s) && w < |s.workers| && s.workers[w].Awake?
    requires Bounded(s, bound) && NoOverflow(|s.workers|, s.q.budget, bound) && FirstAdmissible(s.q, i)
    ensures Looked(s, Holding(Taken(s.q, i)))
  {
    hide Exact, Bounded, NoOverflow, HeldBack, NobodyBusy;
    var t := s.q.pending[i].token;
    assert s.q.pending[i] == s.submitted[t];
    FitsPlainly(s, w, i, bound);
    forall u: nat | Waiting(s, u) && u < t ensures HeldBack(s, u) {
      var j :| 0 <= j < |s.q.pending| && s.q.pending[j].token == u;
      assert j < i;
      FitsPlainly(s, w, j, bound);
      assert !Admissible(s.q, j);
    }
    if HeldBack(s, t) {
      forall u: nat | Waiting(s, u) ensures t <= u {
        var j :| 0 <= j < |s.q.pending| && s.q.pending[j].token == u;
      }
    }
  }

  lemma LookSleeps(s: Sys, w: nat, bound: nat)
    requires Inv(s) && Exact(s) && w < |s.workers| && s.workers[w].Awake?
    requires Bounded(s, bound) && NoOverflow(|s.workers|, s.q.budget, bound)
    requires !SomeAdmissible(s.q) && !(s.q.stopping && s.q.pending == [])
    ensures Looked(s, Asleep)
  {
    hide Exact, Bounded, NoOverflow, HeldBack, Admissible;
    forall t: nat | Waiting(s, t) ensures HeldBack(s, t) {
      var j :| 0 <= j < |s.q.pending| && s.q.pending[j].token == t;
      FitsPlainly(s, w, j, bound);
      NoneAdmissible(s.q, j);
    }
    if s.q.pending != [] {
      NothingAdmissible(s);
    }
  }

  /** If any entry is admissible, some entry is the first. */
  lemma {:induction false} NoneAdmissible(q: QueueState, j: nat)
    requires TokensExist(q) && !SomeAdmissible(q) && j < |q.pending|
    ensures forall k | 0 <= k <= j :: !Admissible(q, k)
  {
    hide Admissible;
    if j > 0 { NoneAdmissible(q, j - 1); }
    assert FirstAdmissible(q, j) == Admissible(q, j);
  }

  /** In every reachable state whose figures cannot overflow, a worker that looks does what `Looked` says. */
  lemma LookFindsTheRightJob(s: Sys, w: nat, bound: nat)
    requires Inv(s) && Exact(s) && InOrder(s) && Enabled(s, Check(w))
    requires Bounded(s, bound) && NoOverflow(|s.workers|, s.q.budget, bound)
    ensures |s.q.flags| == |s.submitted| && forall i | 0 <= i < |s.q.pending| :: s.q.pending[i].token < |s.submitted|
    ensures |Apply(s, Check(w)).workers| == |s.workers| && Looked(s, Apply(s, Check(w)).workers[w])
  {
    hide Exact, Bounded, NoOverflow, InOrder;
    assert Linked(s) by { InvLinked(s); }
    if s.q.stopping && s.q.pending == [] {
    } else if SomeAdmissible(s.q) {
      var i := CheckTakes(s, w);
      LookTakes(s, w, i, bound);
    } else {
      LookSleeps(s, w, bound);
    }
  }

  /** All that `LookFindsTheRightJob` asks for holds in every run from the start. */
  lemma ReachedInOrder(s0: Sys, n: nat, budget: nat, steps: seq<Step>, bound: nat)
    requires Init(s0, n, budget) && ValidRun(s0, steps)
    requires NoOverflow(n, budget, bound) && Bounded(Exec(s0, steps), bound)
    ensures var s := Exec(s0, steps);
      Inv(s) && Exact(s) && InOrder(s) && |s.workers| == n && s.q.budget == budget
  {
    InitInv(s0, n, budget);
    TotalZero(s0.workers, LoadTally);
    InvRun(s0, steps);
    ExactRun(s0, steps, bound);
    InOrderRun(s0, steps);
    WorkersStay(s0, steps);
    SubmittedGrows(s0, steps);
  }

  // ------------------------------------------------------- high-water marks

  /** The most bytes, and the most jobs, there ever were at once in a run. */
  ghost function MostBytes(s: Sys, steps: seq<Step>): nat
    requires ValidRun(s, steps)
    decreases |steps|
  {
    if steps == [] then s.q.admitted else Max(s.q.admitted, MostBytes(Apply(s, steps[0]), steps[1..]))
  }

  ghost function MostJobs(s: Sys, steps: seq<Step>): nat
    requires ValidRun(s, steps)
    decreases |steps|
  {
    if steps == [] then s.q.running else Max(s.q.running, MostJobs(Apply(s, steps[0]), steps[1..]))
  }

  lemma MarksStep(s: Sys, step: Step)
    requires Enabled(s, step) && s.q.admitted <= s.q.peakAdmitted && s.q.running <= s.q.peakJobs
    ensures Apply(s, step).q.peakAdmitted == Max(s.q.peakAdmitted, Apply(s, step).q.admitted)
    ensures Apply(s, step).q.peakJobs == Max(s.q.peakJobs, Apply(s, step).q.running)
  {
    hide SomeWorkerLeft;
    if step.Check? && SomeAdmissible(s.q) && !(s.q.stopping && s.q.pending == []) {
      var i := CheckTakes(s, step.w);
    }
  }

  /** The two marks are those maxima. */
  lemma {:induction false} MarksAreHighest(s: Sys, steps: seq<Step>)
    requires ValidRun(s, steps) && s.q.admitted <= s.q.peakAdmitted && s.q.running <= s.q.peakJobs
    ensures Exec(s, steps).q.peakAdmitted == Max(s.q.peakAdmitted, MostBytes(s, steps))
    ensures Exec(s, steps).q.peakJobs == Max(s.q.peakJobs, MostJobs(s, steps))
    decreases |steps|
  {
    hide Enabled, Apply;
    if steps != [] {
      MarksStep(s, steps[0]);
      MarksAreHighest(Apply(s, steps[0]), steps[1..]);
    }
  }
}
