/**
 * What a stretch of the stream does to the requests that wait for it, said of its frames:
 * who is resolved, and with what; who is rejected; which events are passed on.
 */
module Settling {
  import opened ByteStrings
  import opened Wire
  import opened Clients

  /** The first frame whose header answers request `id`. */
  function FirstAnswer(frames: seq<Frame>, id: int, json: Json): (f: seq<Frame>)
    ensures |f| <= 1
    ensures f == [] <==> forall k | 0 <= k < |frames| :: json(frames[k].header) != Answer(id)
    ensures f != [] ==> exists k :: 0 <= k < |frames| && frames[k] == f[0] && json(f[0].header) == Answer(id)
                              && forall j | 0 <= j < k :: json(frames[j].header) != Answer(id)
  {
    if frames == [] then []
    else if json(frames[0].header) == Answer(id) then [frames[0]]
    else
      var rest := FirstAnswer(frames[1..], id, json);
      AnswerShifts(frames, id, json);
      rest
  }

  lemma AnswerShifts(frames: seq<Frame>, id: int, json: Json)
    requires frames != []
    ensures forall k | 0 < k < |frames| :: frames[k] == frames[1..][k - 1]
    ensures (forall k | 0 <= k < |frames| :: json(frames[k].header) != Answer(id))
       <==> json(frames[0].header) != Answer(id)
            && forall k | 0 <= k < |frames| - 1 :: json(frames[1..][k].header) != Answer(id)
  {
    assert forall k | 0 <= k < |frames| - 1 :: frames[1..][k] == frames[k + 1];
  }

  /** The event headers, in order. */
  function EventsIn(frames: seq<Frame>, json: Json): seq<Bytes> {
    if frames == [] then []
    else (if json(frames[0].header).Event? then [frames[0].header] else []) + EventsIn(frames[1..], json)
  }

  function NullsIn(frames: seq<Frame>, json: Json): nat {
    if frames == [] then 0
    else (if json(frames[0].header).Null? then 1 else 0) + NullsIn(frames[1..], json)
  }

  /** The requests that none of the frames answers, in order. */
  function Unanswered(pending: seq<int>, frames: seq<Frame>, json: Json): seq<int> {
    if pending == [] then []
    else (if FirstAnswer(frames, pending[0], json) == [] then [pending[0]] else [])
         + Unanswered(pending[1..], frames, json)
  }

  predicate Distinct(pending: seq<int>) {
    forall i, j | 0 <= i < j < |pending| :: pending[i] != pending[j]
  }

  /**
   * What frames do to a host: `added` is what is settled on the way. A request is resolved,
   * with frame `f`, exactly when it waited and `f` is the first to answer it.
   */
  ghost predicate Effect(h: Host, frames: seq<Frame>, json: Json, h': Host, added: seq<Settlement>) {
    && h' == Host(h.alive, Unanswered(h.pending, frames, json), h.nextId, h.events + EventsIn(frames, json),
                  h.settled + added, h.thrown + NullsIn(frames, json))
    && Settles(h.pending, frames, json, added)
  }

  ghost predicate Settles(pending: seq<int>, frames: seq<Frame>, json: Json, added: seq<Settlement>) {
    && (forall id: int, f: Frame :: Resolved(id, f) in added <==> id in pending && FirstAnswer(frames, id, json) == [f])
    && (forall id: int :: Rejected(id) !in added)
  }

  lemma {:induction false} UnansweredNone(pending: seq<int>, json: Json)
    ensures Unanswered(pending, [], json) == pending
  {
    if pending != [] { UnansweredNone(pending[1..], json); }
  }

  lemma {:induction false} UnansweredIn(pending: seq<int>, frames: seq<Frame>, json: Json)
    ensures forall id: int ::
      id in Unanswered(pending, frames, json) <==> id in pending && FirstAnswer(frames, id, json) == []
    ensures Distinct(pending) ==> Distinct(Unanswered(pending, frames, json))
  {
    if pending != [] {
      UnansweredIn(pending[1..], frames, json);
      assert pending == [pending[0]] + pending[1..];
    }
  }

  /** Answering the first frame and then the others. */
  lemma {:induction false} UnansweredFirst(pending: seq<int>, frames: seq<Frame>, json: Json)
    requires frames != [] && Distinct(pending)
    ensures Unanswered(pending, frames, json)
         == Unanswered(FirstLeft(pending, frames[0], json), frames[1..], json)
  {
    if pending != [] {
      FirstAnswerCons(frames, pending[0], json);
      UnansweredFirst(pending[1..], frames, json);
      if json(frames[0].header).Answer? && json(frames[0].header).id == pending[0] {
        assert pending[0] !in pending[1..];
      }
    }
  }

  lemma {:induction false} WithoutIn(pending: seq<int>, id: int)
    requires Distinct(pending)
    ensures Distinct(Without(pending, id)) && forall i: int :: i in Without(pending, id) <==> i in pending && i != id
  {
    if pending != [] {
      assert pending == [pending[0]] + pending[1..];
      WithoutIn(pending[1..], id);
      assert pending[0] !in pending[1..] && pending[0] !in Without(pending[1..], id);
    }
  }

  lemma FirstAnswerCons(frames: seq<Frame>, id: int, json: Json)
    requires frames != []
    ensures FirstAnswer(frames, id, json)
         == if json(frames[0].header) == Answer(id) then [frames[0]] else FirstAnswer(frames[1..], id, json)
  {}

  lemma {:induction false} FramesSettle(h: Host, frames: seq<Frame>, json: Json) returns (added: seq<Settlement>)
    requires Distinct(h.pending) && forall f | f in frames :: !json(f.header).Malformed?
    ensures Effect(h, frames, json, DeliveredAll(h, frames, json), added)
    decreases |frames|
  {
    hide Distinct, Effect, Delivered, FirstLeft, FirstSettled;
    if frames == [] {
      added := [];
      NothingSettles(h, json);
    } else {
      var first := frames[0];
      assert first in frames && forall f | f in frames[1..] :: f in frames;
      var next := Delivered(h, first, json);
      FirstDelivered(h, first, json);
      UnansweredFirst(h.pending, frames, json);
      FirstLeftIs(h.pending, first, json);
      var rest := FramesSettle(next, frames[1..], json);
      added := FirstSettled(h.pending, first, json) + rest;
      AddedIs(h, frames, json, next, DeliveredAll(next, frames[1..], json), added, rest);
    }
  }

  lemma NothingSettles(h: Host, json: Json)
    ensures Effect(h, [], json, h, [])
  {
    UnansweredNone(h.pending, json);
  }

  lemma FirstLeftIs(pending: seq<int>, f: Frame, json: Json)
    requires Distinct(pending)
    ensures Distinct(FirstLeft(pending, f, json))
    ensures forall id: int :: id in FirstLeft(pending, f, json) <==> id in pending && json(f.header) != Answer(id)
  {
    hide Distinct, Without;
    if json(f.header).Answer? { WithoutIn(pending, json(f.header).id); }
  }

  lemma NotThere(pending: seq<int>, id: int)
    ensures id !in pending ==> Without(pending, id) == pending
  {}

  /** What the first frame settles. */
  function FirstSettled(pending: seq<int>, f: Frame, json: Json): seq<Settlement> {
    if json(f.header).Answer? && json(f.header).id in pending then [Resolved(json(f.header).id, f)] else []
  }

  function FirstLeft(pending: seq<int>, f: Frame, json: Json): seq<int> {
    if json(f.header).Answer? then Without(pending, json(f.header).id) else pending
  }

  lemma FirstDelivered(h: Host, f: Frame, json: Json)
    requires !json(f.header).Malformed?
    ensures Delivered(h, f, json) == Host(h.alive, FirstLeft(h.pending, f, json), h.nextId,
      h.events + EventsIn([f], json), h.settled + FirstSettled(h.pending, f, json), h.thrown + NullsIn([f], json))
  {
    if json(f.header).Answer? { NotThere(h.pending, json(f.header).id); }
  }

  lemma AddedIs(h: Host, frames: seq<Frame>, json: Json, next: Host, end: Host,
                added: seq<Settlement>, rest: seq<Settlement>)
    requires frames != [] && next == Host(h.alive, FirstLeft(h.pending, frames[0], json), h.nextId,
      h.events + EventsIn([frames[0]], json), h.settled + FirstSettled(h.pending, frames[0], json),
      h.thrown + NullsIn([frames[0]], json))
    requires Effect(next, frames[1..], json, end, rest) && added == FirstSettled(h.pending, frames[0], json) + rest
    requires forall id: int :: id in FirstLeft(h.pending, frames[0], json)
                          <==> id in h.pending && json(frames[0].header) != Answer(id)
    requires Unanswered(h.pending, frames, json) == Unanswered(FirstLeft(h.pending, frames[0], json), frames[1..], json)
    ensures Effect(h, frames, json, end, added)
  {
    hide FirstLeft, FirstSettled, Unanswered, FirstAnswer, Settles, EventsIn, NullsIn;
    EventsAdd(frames, json);
    assert h.events + EventsIn(frames, json) == next.events + EventsIn(frames[1..], json);
    assert h.settled + added == next.settled + rest;
    OneSettles(h.pending, next.pending, frames, json, added, rest);
  }

  lemma EventsAdd(frames: seq<Frame>, json: Json)
    requires frames != []
    ensures EventsIn(frames, json) == EventsIn([frames[0]], json) + EventsIn(frames[1..], json)
    ensures NullsIn(frames, json) == NullsIn([frames[0]], json) + NullsIn(frames[1..], json)
  {
    var one, rest := [frames[0]], frames[1..];
    assert one[1..] == [] && EventsIn(one[1..], json) == [] && NullsIn(one[1..], json) == 0;
    EventsCons(frames, json);
    EventsCons(one, json);
    hide EventsIn, NullsIn;
  }

  lemma EventsCons(frames: seq<Frame>, json: Json)
    requires frames != []
    ensures EventsIn(frames, json)
         == (if json(frames[0].header).Event? then [frames[0].header] else []) + EventsIn(frames[1..], json)
    ensures NullsIn(frames, json) == (if json(frames[0].header).Null? then 1 else 0) + NullsIn(frames[1..], json)
  {}

  lemma OneSettles(pending: seq<int>, next: seq<int>, frames: seq<Frame>, json: Json,
                   added: seq<Settlement>, rest: seq<Settlement>)
    requires frames != [] && Settles(next, frames[1..], json, rest)
    requires forall id: int :: id in next <==> id in pending && json(frames[0].header) != Answer(id)
    requires added == FirstSettled(pending, frames[0], json) + rest
    ensures Settles(pending, frames, json, added)
  {
    hide FirstAnswer;
    forall id: int, f: Frame
      ensures Resolved(id, f) in added <==> id in pending && FirstAnswer(frames, id, json) == [f]
    {
      FirstAnswerCons(frames, id, json);
    }
  }

  // ------------------------------------------------------------ one run of the handler

  /** Requests that wait are numbered once each. */
  lemma WaitingAreDistinct(moves: seq<Move>, json: Json)
    ensures Distinct(Lived(moves, json).host.pending)
  {
    hide Lived, Ids, Issued;
    var h := Lived(moves, json).host;
    EveryRequestOnce(moves, json);
    forall i, j | 0 <= i < j < |h.pending| ensures h.pending[i] != h.pending[j] {
      var id := h.pending[i];
      IssuedCount(h.nextId, id);
      assert multiset(h.pending)[id] + multiset(Ids(h.settled))[id] == multiset(Issued(h.nextId))[id];
      if h.pending[j] == id {
        TwiceIn(h.pending, i, j);
        assert false;
      }
    }
  }

  lemma TwiceIn(s: seq<int>, i: nat, j: nat)
    requires i < j < |s| && s[i] == s[j]
    ensures multiset(s)[s[i]] >= 2
  {
    assert s == s[..j] + [s[j]] + s[j + 1..];
    assert s[..j][i] == s[i];
    assert s[i] in multiset(s[..j]);
  }

  /** What one run of the data handler does, by the frames it reads and whether it gives up. */
  ghost predicate Handled(c: Client, look: Scan, json: Json, c': Client, added: seq<Settlement>) {
    var h, left := c.host, Unanswered(c.host.pending, look.frames, json);
    && c' == Client(look.rest,
                    Host(h.alive && !look.bad, if look.bad then [] else left, h.nextId,
                         h.events + EventsIn(look.frames, json), h.settled + added,
                         h.thrown + NullsIn(look.frames, json)))
    && (forall id: int, f: Frame ::
          Resolved(id, f) in added <==> id in h.pending && FirstAnswer(look.frames, id, json) == [f])
    && (forall id: int ::
          Rejected(id) in added <==> look.bad && id in h.pending && FirstAnswer(look.frames, id, json) == [])
  }

  /**
   * A run of the handler resolves the waiting requests its frames answer, each with the
   * first frame that does; it rejects the others if it gives up and no one otherwise; and
   * it passes on the event headers in order.
   */
  lemma ChunkSettles(c: Client, chunk: Bytes, json: Json) returns (added: seq<Settlement>)
    requires Distinct(c.host.pending)
    ensures Handled(c, ReadOnce(c.buffer + chunk, json), json, Consumed(c, chunk, json), added)
  {
    hide First, ReadOnce, Digested, DeliveredAll, Distinct, Effect, Handled, Outcome, NullOnlyLast;
    var look := ReadOnce(c.buffer + chunk, json);
    DigestIsRead(Client(c.buffer + chunk, c.host), json);
    ReadParses(c.buffer + chunk, json);
    ReadEnds(c.buffer + chunk, json);
    var answered := FramesSettle(c.host, look.frames, json);
    added := OutcomeSettles(c, look, json, answered);
  }

  lemma OutcomeSettles(c: Client, look: Scan, json: Json, answered: seq<Settlement>) returns (added: seq<Settlement>)
    requires Effect(c.host, look.frames, json, DeliveredAll(c.host, look.frames, json), answered)
    requires look.bad ==> look.rest == []
    ensures Handled(c, look, json, Outcome(c.host, look, json), added)
  {
    hide DeliveredAll, Unanswered, FirstAnswer, EventsIn, NullsIn, Rejections;
    added := answered;
    if look.bad {
      var left := Unanswered(c.host.pending, look.frames, json);
      UnansweredIn(c.host.pending, look.frames, json);
      RejectionsIn(left);
      added := added + Rejections(left);
    }
  }

  lemma {:induction false} RejectionsIn(pending: seq<int>)
    ensures forall id: int :: Rejected(id) in Rejections(pending) <==> id in pending
    ensures forall id: int, f: Frame :: Resolved(id, f) !in Rejections(pending)
  {
    forall id: int ensures Rejected(id) in Rejections(pending) <==> id in pending {
      if id in pending {
        var k :| 0 <= k < |pending| && pending[k] == id;
        assert Rejections(pending)[k] == Rejected(id);
      }
    }
  }

  /** A stretch in which nothing follows a null header is settled by the frames a parser of all of it finds. */
  lemma StretchSettles(c: Client, chunk: Bytes, json: Json) returns (added: seq<Settlement>)
    requires Distinct(c.host.pending) && NullOnlyLast(ScanAll(c.buffer + chunk, json), json)
    ensures Handled(c, ScanAll(c.buffer + chunk, json), json, Consumed(c, chunk, json), added)
  {
    hide ScanAll, ReadOnce, Handled, Consumed, NullOnlyLast;
    added := ChunkSettles(c, chunk, json);
    ReadIsScanIff(c.buffer + chunk, json);
  }

  // ------------------------------------------------------------ every move

  /** The requests a move rejects: by a timer, an exit, a failed spawn, or a stream given up before it answered. */
  ghost predicate Rejects(c: Client, m: Move, id: int, json: Json) {
    && id in c.host.pending
    && match m
       case Ask => false
       case Start => false
       case TimerFires(timed) => id == timed
       case EngineExits => true
       case SpawnFails => true
       case Chunk(bytes) =>
         var look := ReadOnce(c.buffer + bytes, json);
         look.bad && FirstAnswer(look.frames, id, json) == []
  }

  /** And those it resolves: only by a chunk with a frame that answers. */
  ghost predicate Resolves(c: Client, m: Move, id: int, f: Frame, json: Json) {
    && id in c.host.pending && m.Chunk?
    && FirstAnswer(ReadOnce(c.buffer + m.bytes, json).frames, id, json) == [f]
  }

  /** Whatever happens to a client, these are all the settlements there are. */
  lemma MoveSettles(c: Client, m: Move, json: Json) returns (added: seq<Settlement>)
    requires Distinct(c.host.pending)
    ensures Moved(c, m, json).host.settled == c.host.settled + added
    ensures forall id: int :: Rejected(id) in added <==> Rejects(c, m, id, json)
    ensures forall id: int, f: Frame :: Resolved(id, f) in added <==> Resolves(c, m, id, f, json)
  {
    hide First, ReadOnce, Digested, Without, Distinct;
    match m
    case Chunk(bytes) => added := ChunkSettles(c, bytes, json);
    case TimerFires(id) => added := if id in c.host.pending then [Rejected(id)] else [];
    case Ask => added := [];
    case Start => added := [];
    case EngineExits =>
      added := Rejections(c.host.pending);
      RejectionsIn(c.host.pending);
    case SpawnFails =>
      added := Rejections(c.host.pending);
      RejectionsIn(c.host.pending);
  }
}
