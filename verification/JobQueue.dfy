/**
 * The engine's job queue, one critical section at a time.
 *
 * A cancellation token is a shared flag. Here it is an index into `flags`, so the
 * entry in `pending`, the copy a worker holds and the one in `live` all see the
 * same cancellation. Byte counts are 64-bit and wrap.
 */
module JobQueue {
  import opened Integers

  const U64: nat := 0x1_0000_0000_0000_0000

  /** One job. `charged` says whether its estimate was counted when it was admitted. */
  datatype Entry = Entry(id: nat, key: string, estimate: nat, token: nat, charged: bool)

  /** Everything the queue's mutex guards. */
  datatype QueueState = QueueState(
    pending: seq<Entry>,
    live: map<nat, nat>,
    keys: map<nat, string>,
    flags: seq<bool>,
    budget: nat,
    admitted: nat,
    running: nat,
    peakAdmitted: nat,
    peakJobs: nat,
    stopping: bool)

  /** Tokens are flags that exist. */
  ghost predicate TokensExist(q: QueueState) {
    && (forall id <- q.live :: q.live[id] < |q.flags|)
    && (forall i | 0 <= i < |q.pending| :: q.pending[i].token < |q.flags|)
  }

  /** Whether cancelling `key` reaches token `t`: some live job under that key carries it. */
  ghost predicate UnderKey(q: QueueState, key: string, t: nat) {
    exists id :: id in q.keys && q.keys[id] == key && id in q.live && q.live[id] == t
  }

  ghost function CancelKeySpec(q: QueueState, key: string): (r: seq<bool>)
    ensures |r| == |q.flags|
    ensures forall t | 0 <= t < |r| :: r[t] == (q.flags[t] || (key != "" && UnderKey(q, key, t)))
  {
    seq(|q.flags|, t requires 0 <= t < |q.flags| => q.flags[t] || (key != "" && UnderKey(q, key, t)))
  }

  ghost function SubmitSpec(q: QueueState, id: nat, key: string, estimate: nat): QueueState {
    var t := |q.flags|;
    var entry := Entry(id, key, estimate, t, false);
    if q.stopping then
      q.(flags := q.flags + [true], pending := q.pending + [entry])
    else
      q.(flags := CancelKeySpec(q, key) + [false],
         live := if id in q.live then q.live else q.live[id := t],
         keys := if key == "" || id in q.keys then q.keys else q.keys[id := key],
         pending := q.pending + [entry])
  }

  function CancelSpec(q: QueueState, id: nat): QueueState
    requires id in q.live ==> q.live[id] < |q.flags|
  {
    if id in q.live then q.(flags := q.flags[q.live[id] := true]) else q
  }

  /** The sum as the 64-bit counter would hold it. */
  function Add64(a: nat, b: nat): nat {
    (a + b) % U64
  }

  /** Whether the job at position `i` may start now. */
  predicate Admissible(q: QueueState, i: nat)
    requires i < |q.pending| && q.pending[i].token < |q.flags|
  {
    || q.flags[q.pending[i].token]
    || Add64(q.admitted, q.pending[i].estimate) <= q.budget
    || (q.running == 0 && i == 0)
  }

  ghost predicate FirstAdmissible(q: QueueState, i: nat)
    requires TokensExist(q)
  {
    i < |q.pending| && Admissible(q, i) && forall j | 0 <= j < i :: !Admissible(q, j)
  }

  /** The entry taken from position `i`, as the worker receives it. */
  function Taken(q: QueueState, i: nat): Entry
    requires i < |q.pending| && q.pending[i].token < |q.flags|
  {
    q.pending[i].(charged := !q.flags[q.pending[i].token])
  }

  function TakeSpec(q: QueueState, i: nat): QueueState
    requires i < |q.pending| && q.pending[i].token < |q.flags|
  {
    var entry := Taken(q, i);
    var admitted := if entry.charged then Add64(q.admitted, entry.estimate) else q.admitted;
    q.(pending := q.pending[..i] + q.pending[i + 1..],
       admitted := admitted,
       peakAdmitted := if entry.charged then Max(q.peakAdmitted, admitted) else q.peakAdmitted,
       running := q.running + 1,
       peakJobs := Max(q.peakJobs, q.running + 1))
  }

  function FinishSpec(q: QueueState, entry: Entry): QueueState
    requires q.running > 0
  {
    q.(admitted := if entry.charged && q.admitted >= entry.estimate then q.admitted - entry.estimate else q.admitted,
       running := q.running - 1,
       live := q.live - {entry.id},
       keys := q.keys - {entry.id})
  }

  /** Whether shutting down reaches token `t`. */
  ghost predicate IsLive(q: QueueState, t: nat) {
    exists id :: id in q.live && q.live[id] == t
  }

  ghost function ShutdownSpec(q: QueueState): (r: QueueState)
    ensures |r.flags| == |q.flags|
  {
    if q.stopping then q else
    q.(stopping := true,
       flags := seq(|q.flags|, t requires 0 <= t < |q.flags| => q.flags[t] || IsLive(q, t)))
  }

  ghost function InitSpec(budget: nat): QueueState {
    QueueState([], map[], map[], [], budget, 0, 0, 0, 0, false)
  }

  /**
   * The queue object. Each method is the body of one `lock_guard` block; the
   * interleaving of workers around them is in module QueueProtocol.
   */
  class Queue {
    var pending: seq<Entry>
    var live: map<nat, nat>
    var keys: map<nat, string>
    var flags: seq<bool>
    var budget: nat
    var admitted: nat
    var running: nat
    var peakAdmitted: nat
    var peakJobs: nat
    var stopping: bool

    ghost function State(): QueueState
      reads this
    {
      QueueState(pending, live, keys, flags, budget, admitted, running, peakAdmitted, peakJobs, stopping)
    }

    ghost predicate Valid()
      reads this
    {
      TokensExist(State())
    }

    constructor (budgetBytes: nat)
      ensures Valid() && State() == InitSpec(budgetBytes)
    {
      pending, live, keys, flags := [], map[], map[], [];
      budget, admitted, running, peakAdmitted, peakJobs := budgetBytes, 0, 0, 0, 0;
      stopping := false;
    }

    method CancelKeyLocked(key: string)
      requires Valid()
      modifies this`flags
      ensures Valid() && flags == CancelKeySpec(old(State()), key)
    {
      if key == "" {
        assert flags == CancelKeySpec(State(), key);
        return;
      }
      ghost var q := State();
      var rest := keys.Keys;
      while rest != {}
        invariant rest <= keys.Keys && |flags| == |q.flags| && Valid()
        invariant forall t | 0 <= t < |flags| ::
            flags[t] == (q.flags[t] || exists id :: id in q.keys && id !in rest && q.keys[id] == key
                                                     && id in q.live && q.live[id] == t)
        decreases rest
      {
        var id :| id in rest;
        rest := rest - {id};
        if keys[id] == key && id in live {
          flags := flags[live[id] := true];
        }
      }
      assert forall t | 0 <= t < |flags| :: flags[t] == (q.flags[t] || UnderKey(q, key, t));
    }

    method Submit(id: nat, key: string, estimate: nat)
      requires Valid() && estimate < U64
      modifies this
      ensures Valid() && State() == SubmitSpec(old(State()), id, key, estimate)
    {
      var token := |flags|;
      var entry := Entry(id, key, estimate, token, false);
      if stopping {
        flags := flags + [true];
      } else {
        CancelKeyLocked(key);
        flags := flags + [false];
        if id !in live { live := live[id := token]; }
        if key != "" && id !in keys { keys := keys[id := key]; }
      }
      pending := pending + [entry];
    }

    method Cancel(id: nat) returns (found: bool)
      requires Valid()
      modifies this`flags
      ensures Valid() && State() == CancelSpec(old(State()), id)
      ensures found == (id in live)
    {
      if id !in live { return false; }
      flags := flags[live[id] := true];
      return true;
    }

    method TakeRunnableLocked() returns (took: bool, entry: Entry)
      requires Valid()
      modifies this`pending, this`admitted, this`peakAdmitted, this`running, this`peakJobs
      ensures Valid()
      ensures took == exists i: nat :: i < |old(pending)| && Admissible(old(State()), i)
      ensures took ==> exists i: nat :: FirstAdmissible(old(State()), i)
                                       && entry == Taken(old(State()), i) && State() == TakeSpec(old(State()), i)
      ensures !took ==> State() == old(State())
    {
      entry := Entry(0, "", 0, 0, false);
      var i := 0;
      while i < |pending|
        invariant 0 <= i <= |pending| && State() == old(State())
        invariant forall j | 0 <= j < i :: !Admissible(State(), j)
      {
        var free := flags[pending[i].token];
        var fits := Add64(admitted, pending[i].estimate) <= budget;
        var alone := running == 0 && i == 0;
        if free || fits || alone {
          assert Admissible(State(), i) && FirstAdmissible(State(), i);
          entry := pending[i].(charged := !free);
          pending := pending[..i] + pending[i + 1..];
          if entry.charged {
            admitted := Add64(admitted, entry.estimate);
            peakAdmitted := Max(peakAdmitted, admitted);
          }
          running := running + 1;
          peakJobs := Max(peakJobs, running);
          return true, entry;
        }
        i := i + 1;
      }
      return false, entry;
    }

    method FinishLocked(entry: Entry)
      requires Valid() && running > 0
      modifies this`admitted, this`running, this`live, this`keys
      ensures Valid() && State() == FinishSpec(old(State()), entry)
    {
      if entry.charged && admitted >= entry.estimate {
        admitted := admitted - entry.estimate;
      }
      running := running - 1;
      live := live - {entry.id};
      keys := keys - {entry.id};
    }

    method ShutdownLocked()
      requires Valid()
      modifies this`stopping, this`flags
      ensures Valid() && State() == ShutdownSpec(old(State()))
    {
      if stopping { return; }
      ghost var q := State();
      stopping := true;
      var rest := live.Keys;
      while rest != {}
        invariant rest <= live.Keys && |flags| == |q.flags| && Valid()
        invariant State() == q.(stopping := true, flags := flags)
        invariant forall t | 0 <= t < |flags| ::
            flags[t] == (q.flags[t] || exists id :: id in q.live && id !in rest && q.live[id] == t)
        decreases rest
      {
        var id :| id in rest;
        rest := rest - {id};
        flags := flags[live[id] := true];
      }
      assert forall t | 0 <= t < |flags| :: flags[t] == (q.flags[t] || IsLive(q, t));
      assert flags == ShutdownSpec(q).flags;
    }
  }
}
