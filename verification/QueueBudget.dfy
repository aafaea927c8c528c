/**
 * Admission by bytes. The counter is 64 bits wide; it tells the truth in every run
 * exactly when no sum the queue's workers can make it hold reaches 2^64.
 */
module QueueBudget {
  import opened Integers
  import opened JobQueue
  import opened QueueProtocol

  /** The estimates on record are at most `bound`. */
  ghost predicate Bounded(s: Sys, bound: nat) {
    forall t | 0 <= t < |s.submitted| :: s.submitted[t].estimate <= bound
  }

  /**
   * The admitted bytes are the charged running jobs' estimates, inside the budget
   * unless one oversized job runs alone among the charged; and what a finishing job
   * gives back is always there to be given back.
   */
  ghost predicate Exact(s: Sys) {
    && s.q.admitted == Total(s.workers, LoadTally)
    && (s.q.admitted <= s.q.budget || Total(s.workers, ChargedTally) == 1)
    && (forall w | 0 <= w < |s.workers| && IsBusy(s.workers[w]) && s.workers[w].entry.charged ::
          s.workers[w].entry.estimate <= s.q.admitted)
  }

  /** The condition: `n` workers cannot hold 2^64 bytes between them, or the budget stops them in time. */
  predicate NoOverflow(n: nat, budget: nat, bound: nat) {
    n * bound < U64 || bound + Max(bound, budget) < U64
  }

  /** The admitted bytes never exceed the budget by more than one job's size. */
  lemma AdmittedBound(s: Sys, bound: nat)
    requires Linked(s) && Bounded(s, bound) && Exact(s)
    ensures s.q.admitted <= Max(bound, s.q.budget)
  {
    if s.q.admitted > s.q.budget {
      var w := ChargedWorker(s.workers);
      assert IsSubmitted(s, s.workers[w].entry);
      OnlyLoad(s.workers, w);
    }
  }

  /** Charged jobs hold at most `bound` bytes each. */
  lemma {:induction false} LoadBound(ws: seq<Phase>, bound: nat)
    requires forall w | 0 <= w < |ws| && IsBusy(ws[w]) && ws[w].entry.charged :: ws[w].entry.estimate <= bound
    ensures Total(ws, LoadTally) <= bound * Total(ws, ChargedTally)
  {
    if ws != [] {
      LoadBound(ws[1..], bound);
      var c := Weight(ChargedTally, ws[0]);
      assert bound * (c + Total(ws[1..], ChargedTally)) == bound * c + bound * Total(ws[1..], ChargedTally);
      assert c == 1 ==> bound * c == bound;
    }
  }

  /** The worker that is looking for a job holds none itself, so the others' jobs and one more fit `n * bound`. */
  lemma RoomForOneMore(s: Sys, w: nat, bound: nat)
    requires Linked(s) && Bounded(s, bound) && w < |s.workers| && s.workers[w].Awake?
    ensures Total(s.workers, LoadTally) + bound <= |s.workers| * bound
  {
    forall v | 0 <= v < |s.workers| && IsBusy(s.workers[v]) ensures s.workers[v].entry.estimate <= bound {
      assert IsSubmitted(s, s.workers[v].entry);
    }
    LoadBound(s.workers, bound);
    AtMostOneEach(s.workers, w);
    OneShareMore(Total(s.workers, LoadTally), bound, Total(s.workers, ChargedTally), |s.workers|);
  }

  lemma OneShareMore(load: nat, bound: nat, charged: nat, n: nat)
    requires load <= bound * charged && charged < n
    ensures load + bound <= n * bound
  {
    TimesMonotone(bound, charged + 1, n);
    assert bound * (charged + 1) == bound * charged + bound;
  }

  lemma TimesMonotone(k: nat, a: nat, b: nat)
    requires a <= b
    ensures k * a <= k * b
  {}

  lemma {:induction false} AtMostOneEach(ws: seq<Phase>, w: nat)
    requires w < |ws| && !IsBusy(ws[w])
    ensures Total(ws, ChargedTally) < |ws|
  {
    if w > 0 {
      AtMostOneEach(ws[1..], w - 1);
    } else {
      AtMostAll(ws[1..]);
    }
  }

  lemma {:induction false} AtMostAll(ws: seq<Phase>)
    ensures Total(ws, ChargedTally) <= |ws|
  {
    if ws != [] { AtMostAll(ws[1..]); }
  }

  lemma {:induction false} ChargedWorker(ws: seq<Phase>) returns (w: nat)
    requires Total(ws, ChargedTally) >= 1
    ensures w < |ws| && IsBusy(ws[w]) && ws[w].entry.charged
  {
    if Weight(ChargedTally, ws[0]) == 1 {
      w := 0;
    } else {
      w := ChargedWorker(ws[1..]);
      w := w + 1;
    }
  }

  /** A single charged job is the whole load. */
  lemma {:induction false} OnlyLoad(ws: seq<Phase>, w: nat)
    requires w < |ws| && IsBusy(ws[w]) && ws[w].entry.charged && Total(ws, ChargedTally) == 1
    ensures Total(ws, LoadTally) == ws[w].entry.estimate
  {
    if w == 0 {
      NoLoad(ws[1..]);
    } else {
      TotalAtLeast(ws[1..], w - 1, ChargedTally);
      OnlyLoad(ws[1..], w - 1);
    }
  }

  lemma {:induction false} NoLoad(ws: seq<Phase>)
    requires Total(ws, ChargedTally) == 0
    ensures Total(ws, LoadTally) == 0
  {
    if ws != [] { NoLoad(ws[1..]); }
  }

  lemma {:induction false} NoBusyNoLoad(ws: seq<Phase>)
    requires Total(ws, BusyTally) == 0
    ensures Total(ws, LoadTally) == 0 && Total(ws, ChargedTally) == 0
  {
    if ws != [] { NoBusyNoLoad(ws[1..]); }
  }

  lemma GivenBack(s: Sys)
    requires s.q.admitted == Total(s.workers, LoadTally)
    requires s.q.admitted <= s.q.budget || Total(s.workers, ChargedTally) == 1
    ensures Exact(s)
  {
    forall w | 0 <= w < |s.workers| && IsBusy(s.workers[w]) && s.workers[w].entry.charged
      ensures s.workers[w].entry.estimate <= s.q.admitted
    {
      TotalAtLeast(s.workers, w, LoadTally);
    }
  }

  lemma ExactStep(s: Sys, step: Step, bound: nat)
    requires Inv(s) && Exact(s) && Enabled(s, step)
    requires Bounded(s, bound) && NoOverflow(|s.workers|, s.q.budget, bound)
    ensures Exact(Apply(s, step))
  {
    if Quiet(step) {
      QuietTotals(s, step, LoadTally);
      QuietTotals(s, step, ChargedTally);
      GivenBack(Apply(s, step));
    } else if step.Finish? {
      ExactFinish(s, step.w);
    } else {
      ExactCheck(s, step.w, bound);
    }
  }

  lemma ExactFinish(s: Sys, w: nat)
    requires Inv(s) && Exact(s) && Enabled(s, Finish(w))
    ensures Exact(Apply(s, Finish(w)))
  {
    TotalUpdate(s.workers, w, Notifying, LoadTally);
    TotalUpdate(s.workers, w, Notifying, ChargedTally);
    if Total(s.workers, ChargedTally) == 1 && s.workers[w].entry.charged { OnlyLoad(s.workers, w); }
    GivenBack(Apply(s, Finish(w)));
  }

  lemma ExactCheck(s: Sys, w: nat, bound: nat)
    requires Inv(s) && Exact(s) && Enabled(s, Check(w))
    requires Bounded(s, bound) && NoOverflow(|s.workers|, s.q.budget, bound)
    ensures Exact(Apply(s, Check(w)))
  {
    if SomeAdmissible(s.q) && !(s.q.stopping && s.q.pending == []) {
      var i := CheckTakes(s, w);
      ExactTake(s, w, i, bound);
    } else {
      var p := if s.q.stopping && s.q.pending == [] then Exited else Asleep;
      TotalUpdate(s.workers, w, p, LoadTally);
      TotalUpdate(s.workers, w, p, ChargedTally);
      GivenBack(Apply(s, Check(w)));
    }
  }

  lemma ExactTake(s: Sys, w: nat, i: nat, bound: nat)
    requires Linked(s) && Counted(s) && Exact(s) && w < |s.workers| && s.workers[w].Awake?
    requires FirstAdmissible(s.q, i) && Bounded(s, bound) && NoOverflow(|s.workers|, s.q.budget, bound)
    ensures Exact(s.(q := TakeSpec(s.q, i), workers := s.workers[w := Holding(Taken(s.q, i))]))
  {
    var e := Taken(s.q, i);
    TotalUpdate(s.workers, w, Holding(e), LoadTally);
    TotalUpdate(s.workers, w, Holding(e), ChargedTally);
    AdmittedBound(s, bound);
    RoomForOneMore(s, w, bound);
    assert s.submitted[s.q.pending[i].token].estimate == e.estimate <= bound;
    assert Add64(s.q.admitted, e.estimate) == s.q.admitted + e.estimate;
    if s.q.running == 0 { NoBusyNoLoad(s.workers); }
    GivenBack(s.(q := TakeSpec(s.q, i), workers := s.workers[w := Holding(e)]));
  }

  lemma {:induction false} SubmittedGrows(s: Sys, steps: seq<Step>)
    requires ValidRun(s, steps)
    ensures s.submitted <= Exec(s, steps).submitted && Exec(s, steps).q.budget == s.q.budget
    decreases |steps|
  {
    if steps != [] {
      SubmittedGrows(Apply(s, steps[0]), steps[1..]);
      StepKeepsBudget(s, steps[0]);
    }
  }

  lemma StepKeepsBudget(s: Sys, step: Step)
    requires Enabled(s, step)
    ensures Apply(s, step).q.budget == s.q.budget && s.submitted <= Apply(s, step).submitted
  {
    if step.Check? && SomeAdmissible(s.q) && !(s.q.stopping && s.q.pending == []) {
      var i := CheckTakes(s, step.w);
    }
  }

  lemma {:induction false} ExactRun(s: Sys, steps: seq<Step>, bound: nat)
    requires Inv(s) && Exact(s) && ValidRun(s, steps)
    requires NoOverflow(|s.workers|, s.q.budget, bound) && Bounded(Exec(s, steps), bound)
    ensures Exact(Exec(s, steps))
    decreases |steps|
  {
    if steps != [] {
      SubmittedGrows(s, steps);
      assert Bounded(s, bound) by {
        var end := Exec(s, steps).submitted;
        assert forall t | 0 <= t < |s.submitted| :: s.submitted[t] == end[t];
      }
      InvStep(s, steps[0]);
      ExactStep(s, steps[0], bound);
      StepKeepsBudget(s, steps[0]);
      WorkersStay(s, steps[..1]);
      assert Exec(s, steps[..1]) == Apply(s, steps[0]);
      ExactRun(Apply(s, steps[0]), steps[1..], bound);
    }
  }

  // --------------------------------------------------- when it does not hold

  /** The first `held` workers hold uncancelled jobs, the others have not looked yet. */
  ghost predicate Filling(s: Sys, held: nat) {
    && held <= |s.workers|
    && (forall w | held <= w < |s.workers| :: s.workers[w].Awake?)
    && |s.q.flags| == |s.submitted| == held
    && (forall t | 0 <= t < held :: s.submitted[t].id == t)
    && s.q.pending == [] && s.q.keys == map[]
    && (forall id <- s.q.live :: id < held && s.q.live[id] < |s.q.flags|)
    && !s.q.stopping
  }

  /** Submit one more job and let the next worker take it. */
  lemma FillOne(s: Sys, held: nat, estimate: nat)
    requires Filling(s, held) && held < |s.workers| && estimate < U64
    requires Add64(s.q.admitted, estimate) <= s.q.budget || s.q.running == 0
    ensures Enabled(s, Submit(held, "", estimate))
    ensures var s1 := Apply(s, Submit(held, "", estimate));
      Enabled(s1, Check(held)) &&
      var s' := Apply(s1, Check(held));
      && Filling(s', held + 1) && |s'.workers| == |s.workers| && s'.q.budget == s.q.budget
      && s'.q.admitted == Add64(s.q.admitted, estimate) && s'.q.running == s.q.running + 1
      && Total(s'.workers, LoadTally) == Total(s.workers, LoadTally) + estimate
      && s'.submitted == s.submitted + [Entry(held, "", estimate, held, false)]
  {
    assert s.workers[held].Awake?;
    TakeOnly(Apply(s, Submit(held, "", estimate)), held, estimate);
  }

  /** The only pending job goes to worker `w`. */
  lemma TakeOnly(s: Sys, w: nat, estimate: nat)
    requires Enabled(s, Check(w)) && s.q.pending == [Entry(w, "", estimate, w, false)] && !s.q.flags[w]
    requires Add64(s.q.admitted, estimate) <= s.q.budget || s.q.running == 0
    ensures var s' := Apply(s, Check(w)); var e := Entry(w, "", estimate, w, true);
      && s' == s.(q := TakeSpec(s.q, 0), workers := s.workers[w := Holding(e)])
      && Total(s'.workers, LoadTally) == Total(s.workers, LoadTally) + estimate
  {
    assert FirstAdmissible(s.q, 0);
    var i := CheckTakes(s, w);
    TotalUpdate(s.workers, w, Holding(Taken(s.q, i)), LoadTally);
  }

  lemma RunTwo(s: Sys, one: Step, two: Step, rest: seq<Step>)
    requires Enabled(s, one) && Enabled(Apply(s, one), two)
    requires ValidRun(Apply(Apply(s, one), two), rest)
    ensures ValidRun(s, [one, two] + rest)
    ensures Exec(s, [one, two] + rest) == Exec(Apply(Apply(s, one), two), rest)
  {
    hide Enabled, Apply;
    var steps := [one, two] + rest;
    assert steps[1..] == [two] + rest;
    assert steps[1..][1..] == rest;
    assert Exec(s, steps) == Exec(Apply(s, one), steps[1..]);
  }

  /** One more job of `bound` bytes takes the counter back to nothing. */
  lemma WrapRound(s: Sys, held: nat, bound: nat) returns (steps: seq<Step>)
    requires Filling(s, held) && held < |s.workers| && 0 < bound < U64 && Bounded(s, bound)
    requires s.q.admitted == U64 - bound == Total(s.workers, LoadTally)
    ensures ValidRun(s, steps) && Bounded(Exec(s, steps), bound) && !Exact(Exec(s, steps))
  {
    assert Add64(s.q.admitted, bound) == 0;
    FillOne(s, held, bound);
    var one, two := Submit(held, "", bound), Check(held);
    RunTwo(s, one, two, []);
    steps := [one, two] + [];
  }

  lemma SumFits(a: nat, b: nat)
    requires a + b < U64
    ensures Add64(a, b) == a + b
  {}

  /**
   * Pile up jobs of at most `bound` bytes until only `bound` are missing to 2^64, then
   * add one more. The workers left over are enough: full jobs for `amount`, one for the rest.
   */
  lemma {:induction false} FillAndWrap(s: Sys, held: nat, amount: nat, bound: nat) returns (steps: seq<Step>)
    requires Filling(s, held) && 0 < bound < U64 && held < |s.workers| && Bounded(s, bound)
    requires amount <= (|s.workers| - held - 1) * bound
    requires s.q.admitted + amount == U64 - bound
    requires U64 - bound <= s.q.budget || (s.q.running == 0 && amount <= bound) || amount == 0
    requires s.q.admitted == Total(s.workers, LoadTally)
    ensures ValidRun(s, steps) && Bounded(Exec(s, steps), bound) && !Exact(Exec(s, steps))
    decreases amount
  {
    hide Filling, Exact, Total, Enabled, Apply, Exec, ValidRun;
    if amount == 0 {
      steps := WrapRound(s, held, bound);
    } else {
      var e := if amount < bound then amount else bound;
      var k := |s.workers| - held - 1;
      assert k * bound == (k - 1) * bound + bound;
      SumFits(s.q.admitted, e);
      FillOne(s, held, e);
      var s' := Apply(Apply(s, Submit(held, "", e)), Check(held));
      assert amount - e <= (k - 1) * bound by { if e < bound { TimesMonotone(bound, 0, k - 1); } }
      var rest := FillAndWrap(s', held + 1, amount - e, bound);
      RunTwo(s, Submit(held, "", e), Check(held), rest);
      steps := [Submit(held, "", e), Check(held)] + rest;
    }
  }

  lemma StartsFilling(s0: Sys, n: nat, budget: nat)
    requires Init(s0, n, budget)
    ensures Filling(s0, 0) && Total(s0.workers, LoadTally) == 0 && s0.q.running == 0 && s0.q.admitted == 0
    ensures |s0.workers| == n && s0.q.budget == budget
  {
    TotalZero(s0.workers, LoadTally);
  }

  /** When `n` workers can bring the figures to 2^64, some run with `n` workers admits a job by wrapping round. */
  lemma OverflowRun(n: nat, budget: nat, bound: nat) returns (s0: Sys, steps: seq<Step>)
    requires budget < U64 && bound < U64 && !NoOverflow(n, budget, bound)
    ensures Init(s0, n, budget) && ValidRun(s0, steps)
    ensures Bounded(Exec(s0, steps), bound) && !Exact(Exec(s0, steps))
  {
    s0 := Sys(InitSpec(budget), seq(n, _ => Awake), 0, false, [], [], {}, {});
    StartsFilling(s0, n, budget);
    assert n > 0 && bound > 0;
    assert n * bound == (n - 1) * bound + bound;
    steps := FillAndWrap(s0, 0, U64 - bound, bound);
  }

  /** The run starts afresh with `n` workers, its estimates stay within `bound`, and its accounting ends up wrong. */
  ghost predicate GoesWrong(n: nat, budget: nat, bound: nat, s0: Sys, steps: seq<Step>) {
    Init(s0, n, budget) && ValidRun(s0, steps) && Bounded(Exec(s0, steps), bound) && !Exact(Exec(s0, steps))
  }

  /** For every number of workers: accounting is exact in all their runs if and only if `NoOverflow`. */
  lemma AccountingIff(n: nat, budget: nat, bound: nat)
    requires budget < U64 && bound < U64
    ensures NoOverflow(n, budget, bound) <==>
      forall s0: Sys, steps: seq<Step> :: !GoesWrong(n, budget, bound, s0, steps)
  {
    if NoOverflow(n, budget, bound) {
      forall s0: Sys, steps: seq<Step> ensures !GoesWrong(n, budget, bound, s0, steps) {
        if Init(s0, n, budget) && ValidRun(s0, steps) && Bounded(Exec(s0, steps), bound) {
          InitInv(s0, n, budget);
          TotalZero(s0.workers, LoadTally);
          ExactRun(s0, steps, bound);
        }
      }
    } else {
      var s0, steps := OverflowRun(n, budget, bound);
      assert GoesWrong(n, budget, bound, s0, steps);
    }
  }

  /** Two jobs of the same size, each taken by its own worker. */
  function TwoJobs(size: nat): seq<Step> {
    [Submit(0, "", size), Check(0), Submit(1, "", size), Check(1)]
  }

  lemma NoSteps(s: Sys)
    ensures ValidRun(s, []) && Exec(s, []) == s
  {}

  /** Two workers, two jobs that make 2^64 together and the largest budget there is. */
  lemma TwoHalvesTaken(s0: Sys, half: nat)
    requires Filling(s0, 0) && |s0.workers| == 2 && half + half == U64
    requires s0.q.admitted == 0 && s0.q.running == 0 && s0.q.budget == U64 - 1 && Total(s0.workers, LoadTally) == 0
    ensures ValidRun(s0, TwoJobs(half))
    ensures var s := Exec(s0, TwoJobs(half));
      s.q.running == 2 && Total(s.workers, LoadTally) == U64 && s.q.admitted == 0
  {
    hide Filling, Total, Enabled, Apply, Exec, ValidRun;
    FillOne(s0, 0, half);
    var s1 := Apply(Apply(s0, Submit(0, "", half)), Check(0));
    FillOne(s1, 1, half);
    NoSteps(Apply(Apply(s1, Submit(1, "", half)), Check(1)));
    RunTwo(s1, Submit(1, "", half), Check(1), []);
    RunTwo(s0, Submit(0, "", half), Check(0), [Submit(1, "", half), Check(1)] + []);
    assert [Submit(0, "", half), Check(0)] + ([Submit(1, "", half), Check(1)] + []) == TwoJobs(half);
  }

  /** Both jobs of 2^63 bytes are admitted, and the counter reads nothing. */
  lemma TwoWorkersOverflow(s0: Sys)
    requires Init(s0, 2, U64 - 1)
    ensures ValidRun(s0, TwoJobs(U64 / 2))
    ensures var s := Exec(s0, TwoJobs(U64 / 2));
      s.q.running == 2 && Total(s.workers, LoadTally) == U64 && s.q.admitted == 0
  {
    hide Filling, Total, Enabled, Apply, Exec, ValidRun, TwoJobs;
    StartsFilling(s0, 2, U64 - 1);
    TwoHalvesTaken(s0, U64 / 2);
  }

  /** A single worker cannot be brought to this, whatever the figures. */
  lemma OneWorkerExact(s0: Sys, budget: nat, bound: nat, steps: seq<Step>)
    requires budget < U64 && bound < U64 && Init(s0, 1, budget)
    requires ValidRun(s0, steps) && Bounded(Exec(s0, steps), bound)
    ensures Exact(Exec(s0, steps))
  {
    hide Exact, Init, ValidRun, Exec, Bounded;
    AccountingIff(1, budget, bound);
    assert !GoesWrong(1, budget, bound, s0, steps);
  }
}
