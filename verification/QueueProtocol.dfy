/**
 * The queue's workers, submitters and condition variable as a step system.
 *
 * A step is one critical section, one notification, or one move of a job outside
 * the lock. Any interleaving of steps is a run. A job is named by its token,
 * which is also its place in the order of submission.
 */
module QueueProtocol {
  import opened JobQueue

  /** What a worker is doing. `Asleep` is blocked on the condition variable. */
  datatype Phase =
    | Asleep
    | Awake
    | Holding(entry: Entry)
    | Executing(entry: Entry, sawCancel: bool)
    | Answered(entry: Entry)
    | Notifying
    | Exited

  datatype Outcome = Completed | Failed | Cancelled

  datatype Answer = Answer(token: nat, id: nat, outcome: Outcome)

  /**
   * `owedOne` counts submits that have not notified yet; `owedAll` is shutdown's own
   * notify. `late` holds the tokens of jobs handed in when no worker was left.
   */
  datatype Sys = Sys(
    q: QueueState,
    workers: seq<Phase>,
    owedOne: nat,
    owedAll: bool,
    submitted: seq<Entry>,
    answers: seq<Answer>,
    finished: set<nat>,
    late: set<nat>)

  datatype Step =
    | Submit(id: nat, key: string, estimate: nat)
    | NotifyOne(w: nat)
    | Spurious(w: nat)
    | Check(w: nat)
    | Start(w: nat)
    | Reply(w: nat, outcome: Outcome)
    | Finish(w: nat)
    | NotifyAll(w: nat)
    | Cancel(id: nat)
    | Shutdown
    | ShutdownNotify

  ghost predicate Init(s: Sys, n: nat, budget: nat) {
    s == Sys(InitSpec(budget), seq(n, _ => Awake), 0, false, [], [], {}, {})
  }

  predicate IsBusy(p: Phase) { p.Holding? || p.Executing? || p.Answered? }

  function WakeAll(ws: seq<Phase>): (r: seq<Phase>)
    ensures |r| == |ws|
    ensures forall i | 0 <= i < |ws| :: r[i] == if ws[i].Asleep? then Awake else ws[i]
  {
    seq(|ws|, i requires 0 <= i < |ws| => if ws[i].Asleep? then Awake else ws[i])
  }

  ghost predicate SomeWorkerLeft(s: Sys) {
    exists w :: 0 <= w < |s.workers| && !s.workers[w].Exited?
  }

  ghost predicate SomeAsleep(s: Sys) {
    exists w :: 0 <= w < |s.workers| && s.workers[w].Asleep?
  }

  ghost predicate SomeAdmissible(q: QueueState)
    requires TokensExist(q)
  {
    exists i: nat :: FirstAdmissible(q, i)
  }

  /** Ids are fresh; a submit may come at any time, also after the last worker has gone. */
  ghost predicate Enabled(s: Sys, step: Step) {
    TokensExist(s.q) &&
    match step
    case Submit(id, _, estimate) =>
      estimate < U64 && forall t | 0 <= t < |s.submitted| :: s.submitted[t].id != id
    case NotifyOne(w) => s.owedOne > 0 && (SomeAsleep(s) ==> w < |s.workers| && s.workers[w].Asleep?)
    case Spurious(w) => w < |s.workers| && s.workers[w].Asleep?
    case Check(w) => w < |s.workers| && s.workers[w].Awake?
    case Start(w) =>
      w < |s.workers| && s.workers[w].Holding? && s.workers[w].entry.token < |s.q.flags|
    case Reply(w, outcome) =>
      w < |s.workers| && s.workers[w].Executing? && (s.workers[w].sawCancel ==> outcome == Cancelled)
    case Finish(w) => w < |s.workers| && s.workers[w].Answered? && s.q.running > 0
    case NotifyAll(w) => w < |s.workers| && s.workers[w].Notifying?
    case Cancel(_) => true
    case Shutdown => !s.q.stopping
    case ShutdownNotify => s.owedAll
  }

  /** The predicate a worker evaluates under the lock each time it wakes. */
  ghost function CheckStep(s: Sys, w: nat): Sys
    requires TokensExist(s.q) && w < |s.workers|
  {
    if s.q.stopping && s.q.pending == [] then
      s.(workers := s.workers[w := Exited])
    else if SomeAdmissible(s.q) then
      var i: nat :| FirstAdmissible(s.q, i);
      s.(q := TakeSpec(s.q, i), workers := s.workers[w := Holding(Taken(s.q, i))])
    else
      s.(workers := s.workers[w := Asleep])
  }

  ghost function Apply(s: Sys, step: Step): Sys
    requires Enabled(s, step)
  {
    match step
    case Submit(id, key, estimate) =>
      s.(q := SubmitSpec(s.q, id, key, estimate),
         owedOne := s.owedOne + 1,
         submitted := s.submitted + [Entry(id, key, estimate, |s.q.flags|, false)],
         late := if SomeWorkerLeft(s) then s.late else s.late + {|s.q.flags|})
    case NotifyOne(w) =>
      s.(owedOne := s.owedOne - 1, workers := if SomeAsleep(s) then s.workers[w := Awake] else s.workers)
    case Spurious(w) => s.(workers := s.workers[w := Awake])
    case Check(w) => CheckStep(s, w)
    case Start(w) =>
      var e := s.workers[w].entry;
      s.(workers := s.workers[w := Executing(e, s.q.flags[e.token])])
    case Reply(w, outcome) =>
      var e := s.workers[w].entry;
      s.(workers := s.workers[w := Answered(e)], answers := s.answers + [Answer(e.token, e.id, outcome)])
    case Finish(w) =>
      var e := s.workers[w].entry;
      s.(q := FinishSpec(s.q, e), workers := s.workers[w := Notifying], finished := s.finished + {e.token})
    case NotifyAll(w) => s.(workers := WakeAll(s.workers[w := Awake]))
    case Cancel(id) => s.(q := CancelSpec(s.q, id))
    case Shutdown => s.(q := ShutdownSpec(s.q), owedAll := true)
    case ShutdownNotify => s.(workers := WakeAll(s.workers), owedAll := false)
  }

  ghost predicate ValidRun(s: Sys, steps: seq<Step>)
    decreases |steps|
  {
    steps == [] || (Enabled(s, steps[0]) && ValidRun(Apply(s, steps[0]), steps[1..]))
  }

  ghost function Exec(s: Sys, steps: seq<Step>): Sys
    requires ValidRun(s, steps)
    decreases |steps|
  {
    if steps == [] then s else Exec(Apply(s, steps[0]), steps[1..])
  }

  // ---------------------------------------------------------------- tallies

  /** The quantities that are summed over the workers. */
  datatype Tally = BusyTally | LoadTally | ChargedTally | TokenTally(t: nat) | AnsweredTally(t: nat) | WorkTally(n: nat)

  function Weight(tally: Tally, p: Phase): nat {
    match tally
    case BusyTally => if IsBusy(p) then 1 else 0
    case LoadTally => if IsBusy(p) && p.entry.charged then p.entry.estimate else 0
    case ChargedTally => if IsBusy(p) && p.entry.charged then 1 else 0
    case TokenTally(t) => if IsBusy(p) && p.entry.token == t then 1 else 0
    case AnsweredTally(t) => if p.Answered? && p.entry.token == t then 1 else 0
    case WorkTally(n) =>
      match p
      case Asleep => 0
      case Awake => 1
      case Holding(_) => n + 4
      case Executing(_, _) => n + 3
      case Answered(_) => n + 2
      case Notifying => n + 1
      case Exited => 0
  }

  function Total(ws: seq<Phase>, tally: Tally): nat {
    if ws == [] then 0 else Weight(tally, ws[0]) + Total(ws[1..], tally)
  }

  lemma {:induction false} TotalUpdate(ws: seq<Phase>, w: nat, p: Phase, tally: Tally)
    requires w < |ws|
    ensures Total(ws[w := p], tally) + Weight(tally, ws[w]) == Total(ws, tally) + Weight(tally, p)
  {
    if w > 0 {
      assert ws[w := p][1..] == ws[1..][w - 1 := p];
      TotalUpdate(ws[1..], w - 1, p, tally);
    } else {
      assert ws[w := p][1..] == ws[1..];
    }
  }

  /** Sums compare as their terms do; `slack` is what each term may gain. */
  lemma {:induction false} TotalCompare(vs: seq<Phase>, ws: seq<Phase>, tally: Tally, slack: nat)
    requires |vs| == |ws|
    requires forall i | 0 <= i < |vs| :: Weight(tally, vs[i]) <= Weight(tally, ws[i]) + slack
    ensures Total(vs, tally) <= Total(ws, tally) + slack * |ws|
  {
    if |vs| > 0 {
      TotalCompare(vs[1..], ws[1..], tally, slack);
      assert slack * |ws| == slack + slack * |ws[1..]|;
    }
  }

  lemma TotalWakeAll(ws: seq<Phase>, tally: Tally)
    requires !tally.WorkTally?
    ensures Total(WakeAll(ws), tally) == Total(ws, tally)
  {
    TotalCompare(WakeAll(ws), ws, tally, 0);
    TotalCompare(ws, WakeAll(ws), tally, 0);
  }

  lemma {:induction false} TotalAtLeast(ws: seq<Phase>, w: nat, tally: Tally)
    requires w < |ws|
    ensures Weight(tally, ws[w]) <= Total(ws, tally)
  {
    if w > 0 { TotalAtLeast(ws[1..], w - 1, tally); }
  }

  /** Two workers that both count make at least two. */
  lemma {:induction false} TotalPair(ws: seq<Phase>, v: nat, w: nat, tally: Tally)
    requires v < w < |ws|
    ensures Weight(tally, ws[v]) + Weight(tally, ws[w]) <= Total(ws, tally)
  {
    if v > 0 {
      TotalPair(ws[1..], v - 1, w - 1, tally);
    } else {
      TotalAtLeast(ws[1..], w - 1, tally);
    }
  }

  lemma {:induction false} TotalZero(ws: seq<Phase>, tally: Tally)
    requires forall i | 0 <= i < |ws| :: Weight(tally, ws[i]) == 0
    ensures Total(ws, tally) == 0
  {
    if ws != [] { TotalZero(ws[1..], tally); }
  }

  /** How often token `t` is waiting in the deque. */
  function PendingTimes(pending: seq<Entry>, t: nat): nat {
    if pending == [] then 0 else (if pending[0].token == t then 1 else 0) + PendingTimes(pending[1..], t)
  }

  lemma {:induction false} PendingTimesAppend(pending: seq<Entry>, e: Entry, t: nat)
    ensures PendingTimes(pending + [e], t) == PendingTimes(pending, t) + (if e.token == t then 1 else 0)
  {
    if pending == [] {
      assert [] + [e] == [e];
    } else {
      assert (pending + [e])[1..] == pending[1..] + [e];
      PendingTimesAppend(pending[1..], e, t);
    }
  }

  lemma {:induction false} PendingTimesErase(pending: seq<Entry>, i: nat, t: nat)
    requires i < |pending|
    ensures PendingTimes(pending, t)
         == PendingTimes(pending[..i] + pending[i + 1..], t) + (if pending[i].token == t then 1 else 0)
  {
    if i == 0 {
      assert pending[..0] + pending[1..] == pending[1..];
    } else {
      assert (pending[..i] + pending[i + 1..])[1..] == pending[1..][..i - 1] + pending[1..][i..];
      PendingTimesErase(pending[1..], i - 1, t);
    }
  }

  /** How many answers token `t` has been given. */
  function AnswerTimes(answers: seq<Answer>, t: nat): nat {
    if answers == [] then 0
    else AnswerTimes(answers[..|answers| - 1], t) + (if answers[|answers| - 1].token == t then 1 else 0)
  }

  // ------------------------------------------------------------- invariants

  function Bit(b: bool): nat { if b then 1 else 0 }

  /** Entries in the deque and in workers' hands are the ones submitted. */
  ghost predicate Linked(s: Sys) {
    && TokensExist(s.q)
    && |s.q.flags| == |s.submitted|
    && (forall t | 0 <= t < |s.submitted| :: s.submitted[t].token == t && !s.submitted[t].charged)
    && (forall t, u | 0 <= t < u < |s.submitted| :: s.submitted[t].id != s.submitted[u].id)
    && (forall i | 0 <= i < |s.q.pending| ::
          s.q.pending[i].token < |s.submitted| && s.q.pending[i] == s.submitted[s.q.pending[i].token])
    && (forall w | 0 <= w < |s.workers| && IsBusy(s.workers[w]) :: IsSubmitted(s, s.workers[w].entry))
    && (forall t <- s.finished :: t < |s.submitted|)
  }

  ghost predicate IsSubmitted(s: Sys, e: Entry) {
    e.token < |s.submitted| && e.(charged := false) == s.submitted[e.token]
  }

  /** Each job is waiting, with a worker, or finished: exactly one of the three, exactly once. */
  ghost predicate Conserved(s: Sys) {
    forall t: nat | t < |s.submitted| ::
      PendingTimes(s.q.pending, t) + Total(s.workers, TokenTally(t)) + Bit(t in s.finished) == 1
  }

  /** A job has been answered once if its task has run, and not at all before. */
  ghost predicate AnsweredOnce(s: Sys) {
    forall t: nat ::
      AnswerTimes(s.answers, t) == Total(s.workers, AnsweredTally(t)) + Bit(t in s.finished)
  }

  ghost predicate Counted(s: Sys) {
    s.q.running == Total(s.workers, BusyTally)
  }

  ghost predicate Unfinished(s: Sys, t: nat) {
    t < |s.submitted| && t !in s.finished
  }

  ghost predicate InLive(s: Sys, t: nat)
    requires t < |s.submitted|
  {
    var e := s.submitted[t];
    && e.id in s.q.live && s.q.live[e.id] == t
    && (e.key != "" ==> e.id in s.q.keys && s.q.keys[e.id] == e.key)
  }

  /** `live` and `keys` describe unfinished jobs, and every job that could still be cancelled. */
  ghost predicate Registered(s: Sys)
    requires |s.q.flags| == |s.submitted|
  {
    && (forall id <- s.q.live ::
          s.q.live[id] < |s.submitted| && s.submitted[s.q.live[id]].id == id && s.q.live[id] !in s.finished)
    && (forall id <- s.q.keys ::
          id in s.q.live && s.q.live[id] < |s.submitted| && s.q.keys[id] == s.submitted[s.q.live[id]].key != "")
    && (forall t: nat | Unfinished(s, t) && (!s.q.flags[t] || !s.q.stopping) :: InLive(s, t))
  }

  /** An uncancelled unfinished job under a key is the last one submitted under that key. */
  ghost predicate LatestPerKey(s: Sys)
    requires |s.q.flags| == |s.submitted|
  {
    forall t: nat, u: nat ::
      t < u < |s.submitted| && Unfinished(s, t) && s.submitted[t].key == s.submitted[u].key != "" ==> s.q.flags[t]
  }

  ghost predicate Draining(s: Sys)
    requires |s.q.flags| == |s.submitted|
  {
    && (forall w | 0 <= w < |s.workers| && s.workers[w].Exited? :: s.q.stopping)
    && (s.owedAll ==> s.q.stopping)
    && (s.q.stopping ==> forall t: nat | Unfinished(s, t) :: s.q.flags[t])
  }

  /** Late jobs exist only once every worker has gone; then they are all that is pending, and none is finished. */
  ghost predicate LateWaits(s: Sys) {
    && (SomeWorkerLeft(s) ==> s.late == {})
    && (!SomeWorkerLeft(s) ==> forall i | 0 <= i < |s.q.pending| :: s.q.pending[i].token in s.late)
    && (forall t <- s.late :: t < |s.submitted| && t !in s.finished)
  }

  ghost predicate SomeActive(s: Sys) {
    exists w :: 0 <= w < |s.workers| && (s.workers[w].Awake? || IsBusy(s.workers[w]) || s.workers[w].Notifying?)
  }

  /** A worker whose next steps end in a `notify_all`. */
  ghost predicate SomeWillNotify(s: Sys) {
    exists w :: 0 <= w < |s.workers| && (IsBusy(s.workers[w]) || s.workers[w].Notifying?)
  }

  /** No lost wakeup while a worker is left, neither for pending work nor for the end. */
  ghost predicate Wakes(s: Sys) {
    && (s.q.pending != [] && SomeWorkerLeft(s) ==> SomeActive(s) || ((s.owedOne > 0 || s.owedAll) && SomeAsleep(s)))
    && (s.q.stopping && SomeAsleep(s) ==> SomeWillNotify(s) || s.owedAll)
  }

  ghost predicate Inv(s: Sys) {
    && Linked(s)
    && Conserved(s)
    && AnsweredOnce(s)
    && Counted(s)
    && Registered(s)
    && LatestPerKey(s)
    && Draining(s)
    && LateWaits(s)
    && Wakes(s)
  }

  lemma InitInv(s: Sys, n: nat, budget: nat)
    requires Init(s, n, budget)
    ensures Inv(s)
  {
    TotalZero(s.workers, BusyTally);
    forall t: nat ensures Total(s.workers, AnsweredTally(t)) == 0 { TotalZero(s.workers, AnsweredTally(t)); }
  }

  // ---------------------------------------------- each step keeps each part

  lemma LinkedStep(s: Sys, step: Step)
    requires Linked(s) && Enabled(s, step)
    ensures Linked(Apply(s, step))
  {
    if step.Submit? {
      LinkedSubmit(s, step);
    } else if step.Finish? {
      LinkedFinish(s, step);
    } else if step.Check? && SomeAdmissible(s.q) && !(s.q.stopping && s.q.pending == []) {
      var i := CheckTakes(s, step.w);
      LinkedTake(s, step.w, i);
    } else {
      NoJobMoves(s, step);
      LinkedSame(s, Apply(s, step));
    }
  }

  /** Steps that touch neither the deque, the register, nor the history. */
  lemma NoJobMoves(s: Sys, step: Step)
    requires Enabled(s, step) && !step.Submit? && !step.Finish?
    ensures var s' := Apply(s, step);
      && s'.q.live == s.q.live && s'.q.keys == s.q.keys && s'.submitted == s.submitted && s'.finished == s.finished
      && |s'.q.flags| == |s.q.flags| && (s.q.stopping ==> s'.q.stopping) && |s'.workers| == |s.workers|
    ensures var s' := Apply(s, step);
      step.Check? || (s'.q.pending == s.q.pending
                      && forall w | 0 <= w < |s.workers| && IsBusy(s'.workers[w]) ::
                           IsBusy(s.workers[w]) && s'.workers[w].entry == s.workers[w].entry)
    ensures var s' := Apply(s, step);
      step.Check? && s'.q == s.q ==>
        forall w | 0 <= w < |s.workers| && IsBusy(s'.workers[w]) ::
          IsBusy(s.workers[w]) && s'.workers[w].entry == s.workers[w].entry
    ensures step.Check? && !(SomeAdmissible(s.q) && !(s.q.stopping && s.q.pending == [])) ==> Apply(s, step).q == s.q
  {
    if step.Check? && SomeAdmissible(s.q) && !(s.q.stopping && s.q.pending == []) {
      var i := CheckTakes(s, step.w);
    }
  }

  lemma LinkedSame(s: Sys, s': Sys)
    requires Linked(s) && s'.submitted == s.submitted && s'.finished == s.finished
    requires s'.q.pending == s.q.pending && s'.q.live == s.q.live && |s'.q.flags| == |s.q.flags|
    requires |s'.workers| == |s.workers|
    requires forall w | 0 <= w < |s.workers| && IsBusy(s'.workers[w]) ::
               IsBusy(s.workers[w]) && s'.workers[w].entry == s.workers[w].entry
    ensures Linked(s')
  {
    assert forall w | 0 <= w < |s'.workers| && IsBusy(s'.workers[w]) :: IsSubmitted(s, s.workers[w].entry);
  }

  lemma LinkedSubmit(s: Sys, step: Step)
    requires Linked(s) && Enabled(s, step) && step.Submit?
    ensures Linked(Apply(s, step))
  {
    hide SomeWorkerLeft, UnderKey;
    var s' := Apply(s, step);
    assert s'.workers == s.workers;
    forall w | 0 <= w < |s'.workers| && IsBusy(s'.workers[w]) ensures IsSubmitted(s', s'.workers[w].entry) {
      assert IsSubmitted(s, s.workers[w].entry);
    }
  }

  lemma LinkedFinish(s: Sys, step: Step)
    requires Linked(s) && Enabled(s, step) && step.Finish?
    ensures Linked(Apply(s, step))
  {
    var s' := Apply(s, step);
    assert IsSubmitted(s, s.workers[step.w].entry);
    assert forall w | 0 <= w < |s'.workers| && IsBusy(s'.workers[w]) ::
        IsSubmitted(s, s.workers[w].entry) && IsSubmitted(s', s'.workers[w].entry);
  }

  lemma LinkedTake(s: Sys, w: nat, i: nat)
    requires Linked(s) && w < |s.workers| && FirstAdmissible(s.q, i)
    ensures Linked(s.(q := TakeSpec(s.q, i), workers := s.workers[w := Holding(Taken(s.q, i))]))
  {
    var s' := s.(q := TakeSpec(s.q, i), workers := s.workers[w := Holding(Taken(s.q, i))]);
    assert s.q.pending[i] == s.submitted[s.q.pending[i].token];
    assert IsSubmitted(s', Taken(s.q, i));
    assert forall v | 0 <= v < |s'.workers| && v != w && IsBusy(s'.workers[v]) :: IsSubmitted(s, s.workers[v].entry);
  }

  /** When a worker finds work, some first admissible entry moved from the deque into its hands. */
  lemma CheckTakes(s: Sys, w: nat) returns (i: nat)
    requires Enabled(s, Check(w)) && SomeAdmissible(s.q) && !(s.q.stopping && s.q.pending == [])
    ensures FirstAdmissible(s.q, i)
    ensures Apply(s, Check(w)) == s.(q := TakeSpec(s.q, i), workers := s.workers[w := Holding(Taken(s.q, i))])
  {
    i :| FirstAdmissible(s.q, i) && Apply(s, Check(w)).q == TakeSpec(s.q, i)
         && Apply(s, Check(w)).workers == s.workers[w := Holding(Taken(s.q, i))];
  }

  lemma ConservedStep(s: Sys, step: Step)
    requires Inv(s) && Enabled(s, step)
    ensures Conserved(Apply(s, step))
  {
    var s' := Apply(s, step);
    forall t: nat | t < |s'.submitted|
      ensures PendingTimes(s'.q.pending, t) + Total(s'.workers, TokenTally(t)) + Bit(t in s'.finished) == 1
    {
      ConservedStepAt(s, step, t);
    }
  }

  lemma ConservedStepAt(s: Sys, step: Step, t: nat)
    requires Linked(s) && Conserved(s) && Enabled(s, step) && t < |Apply(s, step).submitted|
    ensures var s' := Apply(s, step);
      PendingTimes(s'.q.pending, t) + Total(s'.workers, TokenTally(t)) + Bit(t in s'.finished) == 1
  {
    match step
    case Submit(id, key, estimate) =>
      PendingTimesAppend(s.q.pending, Entry(id, key, estimate, |s.q.flags|, false), t);
      if t == |s.submitted| { NewTokenUnused(s, t); }
    case Check(w) => ConservedCheck(s, w, t);
    case Finish(w) => ConservedFinish(s, w, t);
    case Cancel(_) =>
    case Shutdown =>
    case NotifyOne(_) => QuietTotals(s, step, TokenTally(t));
    case NotifyAll(_) => QuietTotals(s, step, TokenTally(t));
    case ShutdownNotify => QuietTotals(s, step, TokenTally(t));
    case Spurious(_) => QuietTotals(s, step, TokenTally(t));
    case Start(_) => QuietTotals(s, step, TokenTally(t));
    case Reply(_, _) => QuietTotals(s, step, TokenTally(t));
  }

  /** Steps that move no job between the deque, the workers and the finished set. */
  ghost predicate Quiet(step: Step) {
    !step.Check? && !step.Finish?
  }

  /** Quiet steps leave every sum over busy workers alone. */
  lemma QuietTotals(s: Sys, step: Step, tally: Tally)
    requires Enabled(s, step) && Quiet(step) && !tally.WorkTally? && (tally.AnsweredTally? ==> !step.Reply?)
    ensures Total(Apply(s, step).workers, tally) == Total(s.workers, tally)
  {
    hide Total, SubmitSpec, CancelSpec, ShutdownSpec, FinishSpec, CheckStep;
    match step
    case NotifyOne(w) => if SomeAsleep(s) { TotalUpdate(s.workers, w, Awake, tally); }
    case NotifyAll(w) =>
      TotalUpdate(s.workers, w, Awake, tally);
      TotalWakeAll(s.workers[w := Awake], tally);
    case ShutdownNotify => TotalWakeAll(s.workers, tally);
    case Spurious(w) => TotalUpdate(s.workers, w, Awake, tally);
    case Start(w) => TotalUpdate(s.workers, w, Apply(s, step).workers[w], tally);
    case Reply(w, _) => TotalUpdate(s.workers, w, Apply(s, step).workers[w], tally);
    case Submit(_, _, _) =>
    case Cancel(_) =>
    case Shutdown =>
  }

  lemma ConservedCheck(s: Sys, w: nat, t: nat)
    requires Linked(s) && Conserved(s) && Enabled(s, Check(w)) && t < |s.submitted|
    ensures var s' := Apply(s, Check(w));
      PendingTimes(s'.q.pending, t) + Total(s'.workers, TokenTally(t)) + Bit(t in s'.finished) == 1
  {
    hide Linked, FirstAdmissible, Total, PendingTimes, SomeAdmissible;
    if s.q.stopping && s.q.pending == [] {
      TotalUpdate(s.workers, w, Exited, TokenTally(t));
    } else if SomeAdmissible(s.q) {
      var i := CheckTakes(s, w);
      TotalUpdate(s.workers, w, Holding(Taken(s.q, i)), TokenTally(t));
      PendingTimesErase(s.q.pending, i, t);
    } else {
      TotalUpdate(s.workers, w, Asleep, TokenTally(t));
    }
  }

  lemma ConservedFinish(s: Sys, w: nat, t: nat)
    requires Linked(s) && Conserved(s) && Enabled(s, Finish(w)) && t < |s.submitted|
    ensures var s' := Apply(s, Finish(w));
      PendingTimes(s'.q.pending, t) + Total(s'.workers, TokenTally(t)) + Bit(t in s'.finished) == 1
  {
    TotalUpdate(s.workers, w, Notifying, TokenTally(t));
    TotalAtLeast(s.workers, w, TokenTally(s.workers[w].entry.token));
  }

  /** A token that has not been handed out is nowhere. */
  lemma NewTokenUnused(s: Sys, t: nat)
    requires Linked(s) && t >= |s.submitted|
    ensures PendingTimes(s.q.pending, t) == 0 && Total(s.workers, TokenTally(t)) == 0 && t !in s.finished
    ensures Total(s.workers, AnsweredTally(t)) == 0
  {
    TotalZero(s.workers, TokenTally(t));
    TotalZero(s.workers, AnsweredTally(t));
    PendingTimesNone(s.q.pending, t);
  }

  lemma {:induction false} PendingTimesNone(pending: seq<Entry>, t: nat)
    requires forall i | 0 <= i < |pending| :: pending[i].token != t
    ensures PendingTimes(pending, t) == 0
  {
    if pending != [] { PendingTimesNone(pending[1..], t); }
  }

  lemma CountedStep(s: Sys, step: Step)
    requires Counted(s) && Enabled(s, step)
    ensures Counted(Apply(s, step))
  {
    if Quiet(step) {
      QuietTotals(s, step, BusyTally);
    } else {
      TotalUpdate(s.workers, step.w, Apply(s, step).workers[step.w], BusyTally);
    }
  }

  lemma AnsweredOnceStep(s: Sys, step: Step)
    requires Linked(s) && Conserved(s) && AnsweredOnce(s) && Enabled(s, step)
    ensures AnsweredOnce(Apply(s, step))
  {
    var s' := Apply(s, step);
    forall t: nat
      ensures AnswerTimes(s'.answers, t) == Total(s'.workers, AnsweredTally(t)) + Bit(t in s'.finished)
    {
      if step.Reply? {
        AnsweredReply(s, step, t);
      } else if step.Finish? {
        AnsweredFinish(s, step.w, t);
      } else {
        AnswersUntouched(s, step, t);
      }
    }
  }

  lemma AnswersUntouched(s: Sys, step: Step, t: nat)
    requires Enabled(s, step) && !step.Reply? && !step.Finish?
    ensures var s' := Apply(s, step);
      && s'.answers == s.answers && s'.finished == s.finished
      && Total(s'.workers, AnsweredTally(t)) == Total(s.workers, AnsweredTally(t))
  {
    if step.Check? {
      TotalUpdate(s.workers, step.w, Apply(s, step).workers[step.w], AnsweredTally(t));
    } else {
      QuietTotals(s, step, AnsweredTally(t));
    }
  }

  lemma AnsweredReply(s: Sys, step: Step, t: nat)
    requires AnsweredOnce(s) && Enabled(s, step) && step.Reply?
    ensures var s' := Apply(s, step);
      AnswerTimes(s'.answers, t) == Total(s'.workers, AnsweredTally(t)) + Bit(t in s'.finished)
  {
    var s' := Apply(s, step);
    TotalUpdate(s.workers, step.w, s'.workers[step.w], AnsweredTally(t));
    assert s'.answers[..|s'.answers| - 1] == s.answers;
  }

  lemma AnsweredFinish(s: Sys, w: nat, t: nat)
    requires Linked(s) && Conserved(s) && AnsweredOnce(s) && Enabled(s, Finish(w))
    ensures var s' := Apply(s, Finish(w));
      AnswerTimes(s'.answers, t) == Total(s'.workers, AnsweredTally(t)) + Bit(t in s'.finished)
  {
    var e := s.workers[w].entry;
    TotalUpdate(s.workers, w, Notifying, AnsweredTally(t));
    TotalAtLeast(s.workers, w, TokenTally(e.token));
    assert IsSubmitted(s, e);
    assert e.token !in s.finished;
  }

  lemma RegisteredStep(s: Sys, step: Step)
    requires Linked(s) && Registered(s) && Enabled(s, step)
    requires |Apply(s, step).q.flags| == |Apply(s, step).submitted|
    ensures Registered(Apply(s, step))
  {
    if step.Submit? {
      RegisteredSubmit(s, step);
    } else if step.Finish? {
      RegisteredFinish(s, step.w);
    } else {
      NoJobMoves(s, step);
      FlagsGrow(s, step);
      RegisteredSame(s, Apply(s, step));
    }
  }

  /** The register only depends on the maps, the history and which flags are still down. */
  lemma RegisteredSame(s: Sys, s': Sys)
    requires |s.q.flags| == |s.submitted| && |s'.q.flags| == |s'.submitted|
    requires Registered(s) && s'.submitted == s.submitted && s'.finished == s.finished
    requires s'.q.live == s.q.live && s'.q.keys == s.q.keys
    requires s.q.stopping ==> s'.q.stopping
    requires forall t | 0 <= t < |s.submitted| :: s.q.flags[t] ==> s'.q.flags[t]
    ensures Registered(s')
  {
    forall t: nat | Unfinished(s', t) && (!s'.q.flags[t] || !s'.q.stopping) ensures InLive(s', t) {
      assert Unfinished(s, t) && InLive(s, t);
    }
  }

  lemma RegisteredSubmit(s: Sys, step: Step)
    requires Linked(s) && Registered(s) && Enabled(s, step) && step.Submit?
    requires |Apply(s, step).q.flags| == |Apply(s, step).submitted|
    ensures Registered(Apply(s, step))
  {
    hide Registered, SubmitSpec, Enabled, SomeWorkerLeft;
    SubmitEffect(s, step);
    RegisteredFresh(s, step);
    RegisteredAdds(s, Apply(s, step), Entry(step.id, step.key, step.estimate, |s.submitted|, false));
  }

  lemma SubmitEffect(s: Sys, step: Step)
    requires Linked(s) && Enabled(s, step) && step.Submit?
    ensures var s', n := Apply(s, step), |s.submitted|;
      && s'.submitted == s.submitted + [Entry(step.id, step.key, step.estimate, n, false)]
      && s'.finished == s.finished && s'.q.stopping == s.q.stopping && |s'.q.flags| == n + 1
      && s'.q.flags[n] == s.q.stopping && (forall t | 0 <= t < n :: s.q.flags[t] ==> s'.q.flags[t])
      && s'.q.live == (if s.q.stopping || step.id in s.q.live then s.q.live else s.q.live[step.id := n])
      && s'.q.keys
         == (if s.q.stopping || step.key == "" || step.id in s.q.keys then s.q.keys else s.q.keys[step.id := step.key])
  {
    hide Linked, SomeWorkerLeft, UnderKey;
    assert |s.q.flags| == |s.submitted| by { LinkedCounts(s); }
  }

  lemma LinkedCounts(s: Sys)
    requires Linked(s)
    ensures |s.q.flags| == |s.submitted| && forall t <- s.finished :: t < |s.submitted|
  {}

  lemma RegisteredFresh(s: Sys, step: Step)
    requires Linked(s) && Registered(s) && Enabled(s, step) && step.Submit?
    ensures step.id !in s.q.live && step.id !in s.q.keys && |s.submitted| !in s.finished
  {}

  /** What a submit does to the register, on the fields it depends on. */
  lemma RegisteredAdds(s: Sys, s': Sys, e: Entry)
    requires |s.q.flags| == |s.submitted| && Registered(s) && s'.submitted == s.submitted + [e]
    requires s'.finished == s.finished && s'.q.stopping == s.q.stopping && |s'.q.flags| == |s.submitted| + 1
    requires s'.q.flags[|s.submitted|] == s.q.stopping
    requires forall t | 0 <= t < |s.submitted| :: s.q.flags[t] ==> s'.q.flags[t]
    requires e.id !in s.q.live && e.id !in s.q.keys && |s.submitted| !in s.finished
    requires s'.q.live == (if s.q.stopping then s.q.live else s.q.live[e.id := |s.submitted|])
    requires s'.q.keys == (if s.q.stopping || e.key == "" then s.q.keys else s.q.keys[e.id := e.key])
    ensures Registered(s')
  {
    var n := |s.submitted|;
    assert forall id <- s.q.live :: s'.submitted[s.q.live[id]] == s.submitted[s.q.live[id]];
    forall t: nat | Unfinished(s', t) && (!s'.q.flags[t] || !s'.q.stopping) ensures InLive(s', t) {
      if t < n { assert Unfinished(s, t) && InLive(s, t) && s'.submitted[t] == s.submitted[t]; }
    }
  }

  lemma RegisteredFinish(s: Sys, w: nat)
    requires Linked(s) && Registered(s) && Enabled(s, Finish(w))
    ensures Registered(Apply(s, Finish(w)))
  {
    hide Registered, SomeWorkerLeft;
    var e := s.workers[w].entry;
    assert IsSubmitted(s, e);
    RegisteredDrops(s, Apply(s, Finish(w)), e);
  }

  /** What a finish does to the register, on the fields it depends on. */
  lemma RegisteredDrops(s: Sys, s': Sys, e: Entry)
    requires |s.q.flags| == |s.submitted| && Registered(s) && IsSubmitted(s, e)
    requires forall t, u | 0 <= t < u < |s.submitted| :: s.submitted[t].id != s.submitted[u].id
    requires s'.submitted == s.submitted && s'.q.flags == s.q.flags && s'.q.stopping == s.q.stopping
    requires s'.finished == s.finished + {e.token}
    requires s'.q.live == s.q.live - {e.id} && s'.q.keys == s.q.keys - {e.id}
    ensures Registered(s')
  {
    forall t: nat | Unfinished(s', t) && (!s'.q.flags[t] || !s'.q.stopping) ensures InLive(s', t) {
      assert Unfinished(s, t) && InLive(s, t);
      assert s.submitted[t].id != e.id;
    }
  }

  lemma LatestPerKeySubmit(s: Sys, step: Step)
    requires Linked(s) && Registered(s) && LatestPerKey(s) && Draining(s) && Enabled(s, step) && step.Submit?
    requires |Apply(s, step).q.flags| == |Apply(s, step).submitted|
    ensures LatestPerKey(Apply(s, step))
  {
    hide Linked, SomeWorkerLeft;
    LinkedCounts(s);
    SubmitEffect(s, step);
    var s' := Apply(s, step);
    forall t: nat, u: nat | t < u < |s'.submitted| && Unfinished(s', t)
                           && s'.submitted[t].key == s'.submitted[u].key != ""
      ensures s'.q.flags[t]
    {
      assert Unfinished(s, t);
      if u == |s.submitted| && !s.q.flags[t] {
        assert InLive(s, t);
        assert UnderKey(s.q, step.key, t);
      }
    }
  }

  lemma LatestPerKeyStep(s: Sys, step: Step)
    requires Linked(s) && Registered(s) && LatestPerKey(s) && Draining(s) && Enabled(s, step)
    requires |Apply(s, step).q.flags| == |Apply(s, step).submitted|
    ensures LatestPerKey(Apply(s, step))
  {
    hide Linked, Registered, SomeWorkerLeft;
    var s' := Apply(s, step);
    if step.Submit? {
      LatestPerKeySubmit(s, step);
    } else {
      FlagsGrow(s, step);
      forall t: nat, u: nat | t < u < |s'.submitted| && Unfinished(s', t)
                             && s'.submitted[t].key == s'.submitted[u].key != ""
        ensures s'.q.flags[t]
      {
        assert Unfinished(s, t);
      }
    }
  }

  /** Cancellation is never undone. */
  lemma FlagsGrow(s: Sys, step: Step)
    requires Linked(s) && Enabled(s, step)
    ensures |s.q.flags| <= |Apply(s, step).q.flags|
    ensures forall t | 0 <= t < |s.q.flags| :: s.q.flags[t] ==> Apply(s, step).q.flags[t]
  {
    if step.Check? && SomeAdmissible(s.q) && !(s.q.stopping && s.q.pending == []) {
      var i := CheckTakes(s, step.w);
    }
  }

  lemma DrainingStep(s: Sys, step: Step)
    requires Linked(s) && Registered(s) && Draining(s) && Enabled(s, step)
    requires |Apply(s, step).q.flags| == |Apply(s, step).submitted|
    ensures Draining(Apply(s, step))
  {
    var s' := Apply(s, step);
    FlagsGrow(s, step);
    if step.Shutdown? {
      forall t: nat | Unfinished(s', t) ensures s'.q.flags[t] {
        assert Unfinished(s, t);
        if !s.q.flags[t] { assert InLive(s, t) && IsLive(s.q, t); }
      }
    } else if s.q.stopping {
      forall t: nat | Unfinished(s', t) ensures s'.q.flags[t] {
        if t < |s.submitted| { assert Unfinished(s, t); }
      }
    }
    ExitsWhenStopping(s, step);
  }

  lemma ExitsWhenStopping(s: Sys, step: Step)
    requires |s.q.flags| == |s.submitted| && Draining(s) && Enabled(s, step)
    ensures forall w | 0 <= w < |Apply(s, step).workers| && Apply(s, step).workers[w].Exited? ::
              Apply(s, step).q.stopping
    ensures Apply(s, step).q.stopping == (s.q.stopping || step.Shutdown?)
  {
    if step.Check? && SomeAdmissible(s.q) && !(s.q.stopping && s.q.pending == []) {
      var i := CheckTakes(s, step.w);
    }
  }

  /** A worker that has gone does not come back. */
  lemma GoneStaysGone(s: Sys, step: Step)
    requires Enabled(s, step) && !SomeWorkerLeft(s)
    ensures !SomeWorkerLeft(Apply(s, step))
    ensures !step.Check? && !step.Start? && !step.Reply? && !step.Finish?
  {
    var s' := Apply(s, step);
    forall w | 0 <= w < |s'.workers| ensures s'.workers[w].Exited? { assert s.workers[w].Exited?; }
  }

  /** Only an empty deque lets the last worker go. */
  lemma SomeoneStays(s: Sys, step: Step)
    requires Enabled(s, step) && SomeWorkerLeft(s) && Apply(s, step).q.pending != []
    ensures SomeWorkerLeft(Apply(s, step))
  {
    var s' := Apply(s, step);
    if step.Check? {
      if SomeAdmissible(s.q) && !(s.q.stopping && s.q.pending == []) { var i := CheckTakes(s, step.w); }
      assert !s'.workers[step.w].Exited?;
    } else {
      var w :| 0 <= w < |s.workers| && !s.workers[w].Exited?;
      assert !s'.workers[w].Exited?;
    }
  }

  lemma LateWaitsStep(s: Sys, step: Step)
    requires Linked(s) && LateWaits(s) && Enabled(s, step)
    ensures LateWaits(Apply(s, step))
  {
    hide SomeWorkerLeft;
    var s' := Apply(s, step);
    if SomeWorkerLeft(s) {
      LateOnlyGrows(s, step);
      if s'.q.pending != [] { SomeoneStays(s, step); }
    } else {
      GoneStaysGone(s, step);
    }
  }

  lemma LateOnlyGrows(s: Sys, step: Step)
    requires Enabled(s, step)
    ensures Apply(s, step).late == if step.Submit? && !SomeWorkerLeft(s) then s.late + {|s.q.flags|} else s.late
  {
    if step.Check? && SomeAdmissible(s.q) && !(s.q.stopping && s.q.pending == []) {
      var i := CheckTakes(s, step.w);
    }
  }

  lemma WakesStep(s: Sys, step: Step)
    requires Inv(s) && Enabled(s, step)
    ensures Wakes(Apply(s, step))
  {
    match step
    case Submit(_, _, _) => WakesSubmit(s, step);
    case NotifyOne(w) => WakesNotifyOne(s, w);
    case Spurious(w) => StillAwake(s, step, w);
    case Check(w) => WakesCheck(s, w);
    case Start(w) => StillAwake(s, step, w);
    case Reply(w, _) => StillAwake(s, step, w);
    case Finish(w) => StillAwake(s, step, w);
    case NotifyAll(w) => assert Apply(s, step).workers[w].Awake?;
    case Cancel(_) => SameWorkers(s, Apply(s, step));
    case Shutdown => SameWorkers(s, Apply(s, step));
    case ShutdownNotify => WakesShutdownNotify(s);
  }

  lemma SameWorkers(s: Sys, s': Sys)
    requires s'.workers == s.workers
    ensures SomeActive(s) ==> SomeActive(s')
    ensures SomeAsleep(s) <==> SomeAsleep(s')
    ensures SomeWillNotify(s) ==> SomeWillNotify(s')
    ensures SomeWorkerLeft(s') <==> SomeWorkerLeft(s)
  {}

  /** A worker that is not asleep, asleep or gone counts as active. */
  lemma ActiveOrAsleep(s: Sys)
    requires SomeWorkerLeft(s)
    ensures SomeActive(s) || SomeAsleep(s)
  {
    var w :| 0 <= w < |s.workers| && !s.workers[w].Exited?;
    assert s.workers[w].Asleep? || s.workers[w].Awake? || IsBusy(s.workers[w]) || s.workers[w].Notifying?;
  }

  lemma WakesSubmit(s: Sys, step: Step)
    requires Inv(s) && Enabled(s, step) && step.Submit?
    ensures Wakes(Apply(s, step))
  {
    var s' := Apply(s, step);
    if SomeWorkerLeft(s) { ActiveOrAsleep(s); }
    SameWorkers(s, s');
    assert s'.owedOne > 0;
  }

  lemma WakesNotifyOne(s: Sys, w: nat)
    requires Inv(s) && Enabled(s, NotifyOne(w))
    ensures Wakes(Apply(s, NotifyOne(w)))
  {
    var s' := Apply(s, NotifyOne(w));
    if SomeAsleep(s) {
      StillAwake(s, NotifyOne(w), w);
    } else {
      SameWorkers(s, s');
      if SomeWorkerLeft(s) { ActiveOrAsleep(s); }
    }
  }

  /** Worker `w` ends the step awake or on its way to a notify, and nobody fell asleep. */
  lemma StillAwake(s: Sys, step: Step, w: nat)
    requires Inv(s) && Enabled(s, step) && w < |s.workers|
    requires step == Spurious(w) || step == Start(w) || (step.Reply? && step.w == w) || step == Finish(w)
          || (step == NotifyOne(w) && SomeAsleep(s))
    ensures Wakes(Apply(s, step))
  {
    var s' := Apply(s, step);
    assert s'.workers[w].Awake? || IsBusy(s'.workers[w]) || s'.workers[w].Notifying?;
    if SomeAsleep(s') {
      var v :| 0 <= v < |s'.workers| && s'.workers[v].Asleep?;
      assert s.workers[v].Asleep?;
    }
    if s'.q.stopping && SomeWillNotify(s) {
      var v :| 0 <= v < |s.workers| && (IsBusy(s.workers[v]) || s.workers[v].Notifying?);
      assert IsBusy(s'.workers[v]) || s'.workers[v].Notifying?;
    }
  }

  lemma WakesShutdownNotify(s: Sys)
    requires Inv(s) && Enabled(s, ShutdownNotify)
    ensures Wakes(Apply(s, ShutdownNotify))
  {
    var s' := Apply(s, ShutdownNotify);
    if SomeWorkerLeft(s') {
      var w :| 0 <= w < |s.workers| && !s'.workers[w].Exited?;
      assert s'.workers[w].Awake? || IsBusy(s'.workers[w]) || s'.workers[w].Notifying?;
    }
  }

  /** A worker only goes back to sleep, or finds nothing to take, while another is busy. */
  lemma NothingAdmissible(s: Sys)
    requires Linked(s) && Counted(s) && s.q.pending != [] && !SomeAdmissible(s.q)
    ensures exists v :: 0 <= v < |s.workers| && IsBusy(s.workers[v])
  {
    if s.q.running == 0 {
      assert FirstAdmissible(s.q, 0) by {
        if !Admissible(s.q, 0) { assert false; }
      }
      assert false;
    }
    if forall v | 0 <= v < |s.workers| :: !IsBusy(s.workers[v]) {
      TotalZero(s.workers, BusyTally);
    }
  }

  lemma WakesCheck(s: Sys, w: nat)
    requires Inv(s) && Enabled(s, Check(w))
    ensures Wakes(Apply(s, Check(w)))
  {
    var s' := Apply(s, Check(w));
    if s.q.stopping && s.q.pending == [] {
      WakesOthers(s, w, Exited);
    } else if SomeAdmissible(s.q) {
      var i := CheckTakes(s, w);
      assert IsBusy(s'.workers[w]);
    } else if s.q.pending != [] {
      NothingAdmissible(s);
      var v :| 0 <= v < |s.workers| && IsBusy(s.workers[v]);
      assert IsBusy(s'.workers[v]);
    } else {
      assert !s.q.stopping;
    }
  }

  /** The last clause of `Wakes` does not count awake workers, so one may leave. */
  lemma WakesOthers(s: Sys, w: nat, p: Phase)
    requires Inv(s) && w < |s.workers| && s.workers[w].Awake? && s.q.pending == [] && p == Exited
    ensures Wakes(s.(workers := s.workers[w := p]))
  {
    var s' := s.(workers := s.workers[w := p]);
    if SomeAsleep(s') {
      var v :| 0 <= v < |s'.workers| && s'.workers[v].Asleep?;
      assert s.workers[v].Asleep?;
      if SomeWillNotify(s) {
        var u :| 0 <= u < |s.workers| && (IsBusy(s.workers[u]) || s.workers[u].Notifying?);
        assert IsBusy(s'.workers[u]) || s'.workers[u].Notifying?;
      }
    }
  }

  /** Every step keeps the invariant. */
  lemma InvStep(s: Sys, step: Step)
    requires Inv(s) && Enabled(s, step)
    ensures Inv(Apply(s, step))
  {
    LinkedStep(s, step);
    ConservedStep(s, step);
    AnsweredOnceStep(s, step);
    CountedStep(s, step);
    RegisteredStep(s, step);
    LatestPerKeyStep(s, step);
    DrainingStep(s, step);
    LateWaitsStep(s, step);
    WakesStep(s, step);
  }

  lemma {:induction false} InvRun(s: Sys, steps: seq<Step>)
    requires Inv(s) && ValidRun(s, steps)
    ensures Inv(Exec(s, steps))
    decreases |steps|
  {
    if steps != [] {
      InvStep(s, steps[0]);
      InvRun(Apply(s, steps[0]), steps[1..]);
    }
  }

  // ------------------------------------------------------------ main results

  /**
   * In every run each submitted job is in exactly one of the deque, a worker's
   * hands and the finished set, and it has been answered once when its task has
   * run and not before.
   */
  lemma EveryJobOnce(s0: Sys, n: nat, budget: nat, steps: seq<Step>, t: nat)
    requires Init(s0, n, budget) && ValidRun(s0, steps)
    requires t < |Exec(s0, steps).submitted|
    ensures var s := Exec(s0, steps);
      && PendingTimes(s.q.pending, t) + Total(s.workers, TokenTally(t)) + Bit(t in s.finished) == 1
      && (t in s.finished ==> AnswerTimes(s.answers, t) == 1)
      && (PendingTimes(s.q.pending, t) == 1 ==> AnswerTimes(s.answers, t) == 0)
      && AnswerTimes(s.answers, t) <= 1
  {
    InitInv(s0, n, budget);
    InvRun(s0, steps);
    var s := Exec(s0, steps);
    AnsweredIsHeld(s.workers, t);
  }

  lemma {:induction false} AnsweredIsHeld(ws: seq<Phase>, t: nat)
    ensures Total(ws, AnsweredTally(t)) <= Total(ws, TokenTally(t))
  {
    if ws != [] { AnsweredIsHeld(ws[1..], t); }
  }

  /**
   * In every run at most one unfinished job per coalescing key is uncancelled,
   * and it is the last one submitted under that key.
   */
  lemma OneJobPerKey(s0: Sys, n: nat, budget: nat, steps: seq<Step>, t: nat, u: nat)
    requires Init(s0, n, budget) && ValidRun(s0, steps)
    requires var s := Exec(s0, steps);
      t < |s.submitted| && u < |s.submitted| && t != u && s.submitted[t].key == s.submitted[u].key != ""
      && Unfinished(s, t) && |s.q.flags| == |s.submitted| && !s.q.flags[t]
    ensures var s := Exec(s0, steps); u < t && (Unfinished(s, u) ==> s.q.flags[u])
  {
    InitInv(s0, n, budget);
    InvRun(s0, steps);
  }

  /** A submit cancels the unfinished jobs under its own key and no other job. */
  lemma SubmitCancelsOwnKey(s: Sys, step: Step, t: nat)
    requires Inv(s) && Enabled(s, step) && step.Submit? && t < |s.submitted| && !s.q.flags[t]
    ensures Apply(s, step).q.flags[t] <==>
      Unfinished(s, t) && !s.q.stopping && step.key != "" && s.submitted[t].key == step.key
  {
    if Unfinished(s, t) { assert InLive(s, t); }
    if UnderKey(s.q, step.key, t) {
      var id :| id in s.q.keys && s.q.keys[id] == step.key && id in s.q.live && s.q.live[id] == t;
    }
  }

  /** Before shutdown, `Cancel` finds exactly the jobs that have not finished. */
  lemma CancelFindsUnfinished(s: Sys, t: nat)
    requires Inv(s) && t < |s.submitted| && !s.q.stopping
    ensures s.submitted[t].id in s.q.live <==> Unfinished(s, t)
  {
    if Unfinished(s, t) { assert InLive(s, t); }
  }

  /** When the last worker has gone the drain is complete: all that is left came after it. */
  lemma DrainedWhenGone(s0: Sys, n: nat, budget: nat, steps: seq<Step>)
    requires Init(s0, n, budget) && ValidRun(s0, steps)
    requires !SomeWorkerLeft(Exec(s0, steps))
    ensures var s := Exec(s0, steps);
      && (s.q.stopping || n == 0) && s.q.running == 0
      && (forall t: nat | t < |s.submitted| && t !in s.late :: t in s.finished && AnswerTimes(s.answers, t) == 1)
      && (forall t: nat | t < |s.submitted| && t in s.late ::
            PendingTimes(s.q.pending, t) == 1 && AnswerTimes(s.answers, t) == 0)
  {
    InitInv(s0, n, budget);
    InvRun(s0, steps);
    var s := Exec(s0, steps);
    WorkersStay(s0, steps);
    if n > 0 { assert s.workers[0].Exited?; }
    TotalZero(s.workers, BusyTally);
    forall t: nat | t < |s.submitted|
      ensures t !in s.late ==> t in s.finished && AnswerTimes(s.answers, t) == 1
      ensures t in s.late ==> PendingTimes(s.q.pending, t) == 1 && AnswerTimes(s.answers, t) == 0
    {
      TotalZero(s.workers, TokenTally(t));
      TotalZero(s.workers, AnsweredTally(t));
      if t !in s.late { OnlyLatePending(s, t); }
    }
  }

  lemma OnlyLatePending(s: Sys, t: nat)
    requires LateWaits(s) && !SomeWorkerLeft(s) && t !in s.late
    ensures PendingTimes(s.q.pending, t) == 0
  {
    PendingTimesNone(s.q.pending, t);
  }

  lemma {:induction false} WorkersStay(s: Sys, steps: seq<Step>)
    requires ValidRun(s, steps)
    ensures |Exec(s, steps).workers| == |s.workers|
    decreases |steps|
  {
    if steps != [] {
      WorkersStay(Apply(s, steps[0]), steps[1..]);
      if steps[0].Check? && SomeAdmissible(s.q) && !(s.q.stopping && s.q.pending == []) {
        var i := CheckTakes(s, steps[0].w);
      }
    }
  }
}
