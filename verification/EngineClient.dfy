/**
 * The host's end of the stream: bytes kept as they arrive, looked at only when there
 * are enough of them, and requests waiting for their answers.
 */
module Clients {
  import opened ByteStrings
  import opened Wire

  datatype Settlement = Resolved(id: int, frame: Frame) | Rejected(id: int)

  /** The requests of a client and what has come of them; `thrown` counts errors that left the data handler. */
  datatype Host = Host(
    alive: bool,
    pending: seq<int>,
    nextId: nat,
    events: seq<Bytes>,
    settled: seq<Settlement>,
    thrown: nat)

  /** Where the client stands, however the bytes it holds are cut up. */
  datatype Client = Client(buffer: Bytes, host: Host)

  const NEW_CLIENT := Client([], Host(false, [], 1, [], [], 0))

  function Without(pending: seq<int>, id: int): (r: seq<int>)
    ensures id !in pending ==> r == pending
  {
    if pending == [] then [] else if pending[0] == id then pending[1..] else [pending[0]] + Without(pending[1..], id)
  }

  function Rejections(pending: seq<int>): (r: seq<Settlement>)
    ensures |r| == |pending| && forall k | 0 <= k < |r| :: r[k] == Rejected(pending[k])
  {
    if pending == [] then [] else Rejections(pending[..|pending| - 1]) + [Rejected(pending[|pending| - 1])]
  }

  function AllFailed(h: Host): Host {
    h.(pending := [], settled := h.settled + Rejections(h.pending))
  }

  /** A stream that has lost its place cannot be recovered: everything waiting fails. */
  function Aborted(h: Host): Client {
    Client([], AllFailed(h).(alive := false))
  }

  function Delivered(h: Host, frame: Frame, json: Json): Host {
    match json(frame.header)
    case Malformed => h
    case Null => h.(thrown := h.thrown + 1)
    case Event => h.(events := h.events + [frame.header])
    case Answer(id) =>
      if id !in h.pending then h
      else h.(pending := Without(h.pending, id), settled := h.settled + [Resolved(id, frame)])
  }

  /** What one run of the data handler makes of the bytes held: an error thrown in it leaves later frames unread. */
  function Digested(c: Client, json: Json): Client
    decreases |c.buffer|
  {
    match First(c.buffer)
    case Wait(_) => c
    case Bad => Aborted(c.host)
    case Got(frame, total) =>
      var next := Client(c.buffer[total..], Delivered(c.host, frame, json));
      if json(frame.header).Malformed? then Aborted(c.host)
      else if json(frame.header).Null? then next
      else Digested(next, json)
  }

  function Consumed(c: Client, chunk: Bytes, json: Json): Client {
    Digested(Client(c.buffer + chunk, c.host), json)
  }

  function TimedOut(h: Host, id: int): Host
    requires id in h.pending
  {
    h.(pending := Without(h.pending, id), settled := h.settled + [Rejected(id)])
  }

  function Requested(h: Host): Host {
    if h.alive then h.(pending := h.pending + [h.nextId], nextId := h.nextId + 1) else h
  }

  function Joined(chunks: seq<Bytes>): Bytes {
    if chunks == [] then [] else Joined(chunks[..|chunks| - 1]) + chunks[|chunks| - 1]
  }

  class EngineClient {
    var chunks: seq<Bytes>
    var buffered: nat
    var need: nat
    var alive: bool
    var pending: seq<int>
    var nextId: nat
    var events: seq<Bytes>
    var settled: seq<Settlement>
    var thrown: nat

    function Now(): Host reads this { Host(alive, pending, nextId, events, settled, thrown) }

    function State(): Client reads this { Client(Joined(chunks), Now()) }

    /** While fewer bytes are held than `need`, it is exactly what the next look at them is waiting for. */
    ghost predicate Valid() reads this {
      buffered == |Joined(chunks)| && need >= 8 && (buffered < need ==> First(Joined(chunks)) == Wait(need))
    }

    constructor ()
      ensures Valid() && State() == NEW_CLIENT
    {
      chunks, buffered, need := [], 0, 8;
      alive, pending, nextId, events, settled, thrown := false, [], 1, [], [], 0;
    }

    method FailAllPending()
      modifies this`pending, this`settled
      ensures Now() == AllFailed(old(Now()))
    {
      ghost var before := settled;
      for k := 0 to |pending|
        invariant pending == old(pending) && settled == before + Rejections(pending[..k])
      {
        assert pending[..k + 1][..k] == pending[..k];
        settled := settled + [Rejected(pending[k])];
      }
      assert pending[..|pending|] == pending;
      pending := [];
    }

    /** Joins the bytes held into one buffer. */
    method Coalesce() returns (buffer: Bytes)
      modifies this`chunks
      ensures State() == old(State()) && buffer == Joined(chunks)
    {
      if |chunks| > 1 {
        var all := Joined(chunks);
        chunks := [all];
        OneChunk(all);
      }
      if |chunks| == 1 { OneChunk(chunks[0]); }
      buffer := if |chunks| > 0 then chunks[0] else [];
    }

    method AbortStream()
      modifies this
      ensures Valid() && State() == Aborted(old(Now()))
    {
      FailAllPending();
      alive := false;
      chunks, buffered, need := [], 0, 8;
    }

    method Consume(chunk: Bytes, json: Json)
      requires Valid()
      modifies this
      ensures Valid() && State() == Consumed(old(State()), chunk, json)
    {
      hide First, Digested, Aborted, Delivered, Joined, U32, ScanAll, Encoded, LittleEndian;
      ghost var target := Consumed(State(), chunk, json);
      ghost var held := Joined(chunks);
      JoinOne(chunks, chunk);
      FirstStable(held, chunk);
      chunks := chunks + [chunk];
      buffered := buffered + |chunk|;
      var more := true;
      while more
        invariant Valid() && (if more then Digested(State(), json) else State()) == target
        decreases more, buffered
      {
        if buffered < need {
          NothingToDigest(State(), json);
          return;
        }
        more := Look(json);
      }
    }

    /** One look at the bytes held: false when the handler ends here, by returning or by throwing. */
    method Look(json: Json) returns (more: bool)
      requires Valid() && buffered >= need
      modifies this
      ensures Valid() && (more ==> buffered < old(buffered))
      ensures (if more then Digested(State(), json) else State()) == Digested(old(State()), json)
    {
      hide First, Digested, Aborted, Delivered, Joined, U32, ScanAll, Encoded, LittleEndian;
      var buffer := Coalesce();
      DigestedIs(State(), json);
      FirstIs(buffer);
      var headerLength := U32(buffer, 0);
      if headerLength == 0 || headerLength > MAX_HEADER {
        AbortStream();
        return false;
      }
      if buffered < 4 + headerLength + 4 {
        need := 4 + headerLength + 4;
        return false;
      }
      var payloadLength := U32(buffer, 4 + headerLength);
      if payloadLength > MAX_PAYLOAD {
        AbortStream();
        return false;
      }
      var total := 4 + headerLength + 4 + payloadLength;
      if buffered < total {
        need := total;
        return false;
      }
      var frame := Frame(buffer[4..4 + headerLength], buffer[4 + headerLength + 4..total]);
      chunks := if total < |buffer| then [buffer[total..]] else [];
      OneChunk(buffer[total..]);
      buffered := buffered - total;
      need := 8;
      ShortWaits(Joined(chunks));
      var parsed := json(frame.header);
      if parsed.Malformed? {
        AbortStream();
        return false;
      }
      Deliver(frame, json);
      more := !parsed.Null?;
    }

    method Deliver(frame: Frame, json: Json)
      requires !json(frame.header).Malformed?
      modifies this`events, this`pending, this`settled, this`thrown
      ensures Now() == Delivered(old(Now()), frame, json)
    {
      var parsed := json(frame.header);
      if parsed.Null? {
        thrown := thrown + 1;
        return;
      }
      if parsed.Event? {
        events := events + [frame.header];
        return;
      }
      if parsed.id !in pending { return; }
      pending := Without(pending, parsed.id);
      settled := settled + [Resolved(parsed.id, frame)];
    }

    /** Sends a request, unless there is no engine to send it to. */
    method Request(header: nat -> Bytes, body: Bytes) returns (written: Bytes)
      modifies this`nextId, this`pending
      ensures Now() == Requested(old(Now()))
      ensures written == if old(alive) then Encoded(Frame(header(old(nextId)), body)) else []
    {
      if !alive { return []; }
      var id := nextId;
      nextId := nextId + 1;
      written := EncodeFrame(Frame(header(id), body));
      pending := pending + [id];
    }

    /** A timer that is still set fires. */
    method Timeout(id: int)
      requires id in pending
      modifies this`pending, this`settled
      ensures Now() == TimedOut(old(Now()), id)
    {
      pending := Without(pending, id);
      settled := settled + [Rejected(id)];
    }

    method Exit()
      modifies this
      ensures Valid() && State() == Aborted(old(Now()))
    {
      alive := false;
      chunks, buffered, need := [], 0, 8;
      FailAllPending();
    }

    /** The engine could not be started: the bytes held are kept. */
    method SpawnFailed()
      modifies this`alive, this`pending, this`settled
      ensures Now() == AllFailed(old(Now())).(alive := false)
    {
      FailAllPending();
      alive := false;
    }

    method Start()
      modifies this`alive
      ensures Now() == old(Now()).(alive := true)
    {
      alive := true;
    }
  }

  lemma OneChunk(b: Bytes)
    ensures Joined([b]) == b && Joined([]) == []
  {
    assert [b][..0] == [];
  }

  lemma JoinOne(chunks: seq<Bytes>, chunk: Bytes)
    ensures Joined(chunks + [chunk]) == Joined(chunks) + chunk
  {
    assert (chunks + [chunk])[..|chunks|] == chunks;
  }

  lemma NothingToDigest(c: Client, json: Json)
    requires First(c.buffer).Wait?
    ensures Digested(c, json) == c
  {}

  lemma DigestedIs(c: Client, json: Json)
    ensures var k := First(c.buffer);
      Digested(c, json) ==
        if k.Wait? then c else if k.Bad? then Aborted(c.host) else
        var next := Client(c.buffer[k.total..], Delivered(c.host, k.frame, json));
        if json(k.frame.header).Malformed? then Aborted(c.host)
        else if json(k.frame.header).Null? then next
        else Digested(next, json)
  {}

  /** The look at a buffer of at least eight bytes, step by step. */
  lemma FirstIs(s: Bytes)
    requires |s| >= 8
    ensures var header := U32(s, 0);
      if header == 0 || header > MAX_HEADER then First(s).Bad?
      else if |s| < 4 + header + 4 then First(s) == Wait(4 + header + 4)
      else var payload := U32(s, 4 + header); var total := 4 + header + 4 + payload;
        if payload > MAX_PAYLOAD then First(s).Bad?
        else if |s| < total then First(s) == Wait(total)
        else First(s) == Got(Frame(s[4..4 + header], s[4 + header + 4..total]), total)
  {}

  lemma ShortWaits(s: Bytes)
    ensures |s| < 8 ==> First(s) == Wait(8)
  {}

  // ---------------------------------------------------------- every chunking

  /** What the frames of a stream do, one after another. */
  function DeliveredAll(h: Host, frames: seq<Frame>, json: Json): Host
    decreases |frames|
  {
    if frames == [] then h else DeliveredAll(Delivered(h, frames[0], json), frames[1..], json)
  }

  /** What a whole scanned stream does. */
  function Outcome(h: Host, scan: Scan, json: Json): Client {
    var after := DeliveredAll(h, scan.frames, json);
    if scan.bad then Aborted(after) else Client(scan.rest, after)
  }

  /** What one run of the handler reads: it stops after a null header, with the rest unread. */
  function ReadOnce(s: Bytes, json: Json): Scan
    decreases |s|
  {
    match First(s)
    case Wait(_) => Scan([], false, s)
    case Bad => Scan([], true, [])
    case Got(frame, total) =>
      if json(frame.header).Malformed? then Scan([], true, [])
      else if json(frame.header).Null? then Scan([frame], false, s[total..])
      else
      var more := ReadOnce(s[total..], json);
      more.(frames := [frame] + more.frames)
  }

  /** A null header comes last of all, if it comes at all. */
  ghost predicate NullOnlyLast(scan: Scan, json: Json) {
    forall k | 0 <= k < |scan.frames| && json(scan.frames[k].header).Null? :: k == |scan.frames| - 1 && !scan.bad
  }

  lemma {:induction false} DigestIsRead(c: Client, json: Json)
    ensures Digested(c, json) == Outcome(c.host, ReadOnce(c.buffer, json), json)
    decreases |c.buffer|
  {
    hide First, Delivered;
    DigestedIs(c, json);
    var k := First(c.buffer);
    if k.Got? && !json(k.frame.header).Malformed? {
      var next := Client(c.buffer[k.total..], Delivered(c.host, k.frame, json));
      if json(k.frame.header).Null? {
        assert [k.frame][1..] == [] && DeliveredAll(next.host, [], json) == next.host;
      } else {
        DigestIsRead(next, json);
        var more := ReadOnce(next.buffer, json);
        assert ([k.frame] + more.frames)[1..] == more.frames;
      }
    }
  }

  /** A whole-buffer parser of a longer stream finds what one run of the handler read, and then the rest. */
  lemma {:induction false} ReadSplit(s: Bytes, more: Bytes, json: Json)
    ensures var a := ReadOnce(s, json);
      ScanAll(s + more, json)
      == if a.bad then a
         else var b := ScanAll(a.rest + more, json); Scan(a.frames + b.frames, b.bad, b.rest)
    decreases |s|
  {
    hide First;
    FirstStable(s, more);
    var k := First(s);
    if k.Got? && !json(k.frame.header).Malformed? {
      assert (s + more)[k.total..] == s[k.total..] + more;
      if !json(k.frame.header).Null? {
        ReadSplit(s[k.total..], more, json);
        PrependFrames(k.frame, ReadOnce(s[k.total..], json), more, json);
      }
    }
  }

  /** What is left unread is left behind a null header. */
  lemma {:induction false} ReadEnds(s: Bytes, json: Json)
    ensures var a := ReadOnce(s, json);
      && NullOnlyLast(a, json)
      && (a.bad ==> a.rest == [])
      && (a.bad || First(a.rest).Wait? || (a.frames != [] && json(a.frames[|a.frames| - 1].header).Null?))
    decreases |s|
  {
    hide First;
    ShortWaits([]);
    var k := First(s);
    if k.Got? && !json(k.frame.header).Malformed? && !json(k.frame.header).Null? {
      ReadEnds(s[k.total..], json);
      NullOnlyLastCons(k.frame, ReadOnce(s[k.total..], json), json);
    }
  }

  lemma NullOnlyLastCons(f: Frame, scan: Scan, json: Json)
    requires !json(f.header).Null?
    ensures NullOnlyLast(scan.(frames := [f] + scan.frames), json) <==> NullOnlyLast(scan, json)
  {
    var all := [f] + scan.frames;
    assert forall k | 0 <= k < |scan.frames| :: all[k + 1] == scan.frames[k];
  }

  /** One run of the handler reads the whole buffer exactly when nothing follows a null header. */
  lemma {:induction false} ReadIsScanIff(s: Bytes, json: Json)
    ensures ReadOnce(s, json) == ScanAll(s, json) <==> NullOnlyLast(ScanAll(s, json), json)
    decreases |s|
  {
    hide First;
    var k := First(s);
    if k.Got? && !json(k.frame.header).Malformed? {
      var rest := ScanAll(s[k.total..], json);
      if json(k.frame.header).Null? {
        assert ([k.frame] + rest.frames)[0] == k.frame;
        ScanNothing(s[k.total..], json);
      } else {
        ReadIsScanIff(s[k.total..], json);
        NullOnlyLastCons(k.frame, rest, json);
        assert ([k.frame] + ReadOnce(s[k.total..], json).frames)[1..] == ReadOnce(s[k.total..], json).frames;
        assert ([k.frame] + rest.frames)[1..] == rest.frames;
      }
    }
  }

  lemma ScanNothing(s: Bytes, json: Json)
    ensures ScanAll(s, json) == Scan([], false, s) <==> ScanAll(s, json).frames == [] && !ScanAll(s, json).bad
    ensures First(s).Wait? <==> ScanAll(s, json) == Scan([], false, s)
  {}

  /** The host stands where it stood before an outcome exactly when there was nothing to read. */
  lemma OutcomeOfNothing(c: Client, json: Json)
    ensures Outcome(c.host, ScanAll(c.buffer, json), json) == c <==> First(c.buffer).Wait?
  {
    hide First;
    ScanRest(c.buffer, json);
    ShortWaits([]);
    if First(c.buffer).Bad? || First(c.buffer).Got? { assert c.buffer != []; }
  }

  lemma {:induction false} ScanRest(s: Bytes, json: Json)
    ensures First(ScanAll(s, json).rest).Wait?
    decreases |s|
  {
    hide First;
    ShortWaits([]);
    var k := First(s);
    if k.Got? && !json(k.frame.header).Malformed? { ScanRest(s[k.total..], json); }
  }

  /**
   * One run of the handler does what the whole-buffer parser finds, and gives up when it
   * does, if and only if nothing follows a null header.
   */
  lemma DigestIsScan(c: Client, json: Json)
    ensures Digested(c, json) == Outcome(c.host, ScanAll(c.buffer, json), json)
       <==> NullOnlyLast(ScanAll(c.buffer, json), json)
  {
    hide ScanAll, Digested, Delivered, DeliveredAll, First, ReadOnce;
    var a, b := ReadOnce(c.buffer, json), ScanAll(c.buffer, json);
    DigestIsRead(c, json);
    ReadIsScanIff(c.buffer, json);
    if a != b && Digested(c, json) == Outcome(c.host, b, json) {
      assert c.buffer + [] == c.buffer;
      ReadSplit(c.buffer, [], json);
      assert a.rest + [] == a.rest && a.frames + [] == a.frames;
      var next := Client(a.rest, DeliveredAll(c.host, a.frames, json));
      var rest := ScanAll(a.rest, json);
      DeliveredAllSplit(c.host, a.frames, rest.frames, json);
      OutcomeOfNothing(next, json);
      ScanNothing(a.rest, json);
    }
  }

  lemma {:induction false} DeliveredAllSplit(h: Host, a: seq<Frame>, b: seq<Frame>, json: Json)
    ensures DeliveredAll(h, a + b, json) == DeliveredAll(DeliveredAll(h, a, json), b, json)
    decreases |a|
  {
    hide Delivered;
    if a == [] {
      assert a + b == b;
    } else {
      assert (a + b)[1..] == a[1..] + b;
      DeliveredAllSplit(Delivered(h, a[0], json), a[1..], b, json);
    }
  }

  function Fed(c: Client, chunks: seq<Bytes>, json: Json): Client {
    if chunks == [] then c else Consumed(Fed(c, chunks[..|chunks| - 1], json), chunks[|chunks| - 1], json)
  }

  lemma {:induction false} FedFirst(c: Client, chunks: seq<Bytes>, json: Json)
    requires chunks != []
    ensures Fed(c, chunks, json) == Fed(Consumed(c, chunks[0], json), chunks[1..], json)
  {
    hide Consumed;
    var before := chunks[..|chunks| - 1];
    if before != [] {
      FedFirst(c, before, json);
      assert before[1..] == chunks[1..][..|chunks| - 2];
    }
  }

  lemma {:induction false} JoinFirst(chunks: seq<Bytes>)
    requires chunks != []
    ensures Joined(chunks) == chunks[0] + Joined(chunks[1..])
  {
    var before := chunks[..|chunks| - 1];
    if before == [] {
      assert chunks[1..] == [];
    } else {
      JoinFirst(before);
      assert before[1..] == chunks[1..][..|chunks| - 2];
      assert chunks[1..][|chunks| - 2] == chunks[|chunks| - 1];
    }
  }

  // ------------------------------------------------------ after giving up

  /** Answers to nobody: no event and no null header. */
  ghost predicate AllAnswers(frames: seq<Frame>, json: Json) {
    forall k | 0 <= k < |frames| :: json(frames[k].header).Answer?
  }

  /** Chunks that come when nothing is waiting, and leave no trace: answers only, and no bytes left over. */
  ghost predicate Silent(held: Bytes, chunks: seq<Bytes>, json: Json)
    decreases |chunks|
  {
    if chunks == [] then held == [] else
    var look := ReadOnce(held + chunks[0], json);
    AllAnswers(look.frames, json) && Silent(look.rest, chunks[1..], json)
  }

  /** What the client has shown for the bytes it has had; it never takes any of it back. */
  function Shown(h: Host): nat { |h.events| + h.thrown }

  lemma {:induction false} DeliveredToNobody(h: Host, frames: seq<Frame>, json: Json)
    requires h.pending == []
    ensures AllAnswers(frames, json) ==> DeliveredAll(h, frames, json) == h
    ensures !AllAnswers(frames, json) && (forall f | f in frames :: !json(f.header).Malformed?) ==>
      Shown(DeliveredAll(h, frames, json)) > Shown(h)
    ensures Shown(DeliveredAll(h, frames, json)) >= Shown(h) && DeliveredAll(h, frames, json).pending == []
    ensures DeliveredAll(h, frames, json).alive == h.alive
    decreases |frames|
  {
    if frames != [] {
      DeliveredToNobody(Delivered(h, frames[0], json), frames[1..], json);
      assert AllAnswers(frames, json) <==> json(frames[0].header).Answer? && AllAnswers(frames[1..], json) by {
        assert forall k | 1 <= k < |frames| :: frames[k] == frames[1..][k - 1];
      }
    }
  }

  lemma {:induction false} ReadParses(s: Bytes, json: Json)
    ensures forall f | f in ReadOnce(s, json).frames :: !json(f.header).Malformed?
    decreases |s|
  {
    hide First;
    var k := First(s);
    if k.Got? && !json(k.frame.header).Malformed? && !json(k.frame.header).Null? { ReadParses(s[k.total..], json); }
  }

  /** A host that has given up and has nothing waiting. */
  ghost predicate Idle(h: Host) { h.pending == [] && !h.alive }

  lemma ConsumedIdle(h: Host, held: Bytes, chunk: Bytes, json: Json)
    requires Idle(h)
    ensures var look, c := ReadOnce(held + chunk, json), Consumed(Client(held, h), chunk, json);
      && Idle(c.host) && c.buffer == look.rest && Shown(c.host) >= Shown(h)
      && (if AllAnswers(look.frames, json) then c.host == h else Shown(c.host) > Shown(h))
  {
    hide First, Digested, DeliveredAll, ReadOnce, AllAnswers;
    var look := ReadOnce(held + chunk, json);
    DigestIsRead(Client(held + chunk, h), json);
    DeliveredToNobody(h, look.frames, json);
    ReadParses(held + chunk, json);
    ReadEnds(held + chunk, json);
  }

  lemma {:induction false} ShownGrows(c: Client, chunks: seq<Bytes>, json: Json)
    requires Idle(c.host)
    ensures Shown(Fed(c, chunks, json).host) >= Shown(c.host) && Idle(Fed(c, chunks, json).host)
  {
    hide Consumed, AllAnswers, ReadOnce;
    if chunks != [] {
      var before := chunks[..|chunks| - 1];
      ShownGrows(c, before, json);
      var d := Fed(c, before, json);
      ConsumedIdle(d.host, d.buffer, chunks[|chunks| - 1], json);
    }
  }

  /** Exactly the silent chunks leave a client that has given up as it was. */
  lemma {:induction false} SilentIff(h: Host, held: Bytes, chunks: seq<Bytes>, json: Json)
    requires Idle(h)
    ensures Fed(Client(held, h), chunks, json) == Client([], h) <==> Silent(held, chunks, json)
    decreases |chunks|
  {
    hide Consumed, AllAnswers, ReadOnce, Idle, Shown;
    if chunks != [] {
      var c := Consumed(Client(held, h), chunks[0], json);
      FedFirst(Client(held, h), chunks, json);
      ConsumedIdle(h, held, chunks[0], json);
      ShownGrows(c, chunks[1..], json);
      if c.host == h { SilentIff(h, c.buffer, chunks[1..], json); }
    }
  }

  /** Late bytes that would not make the client give up again are silent when they are whole answers. */
  lemma {:induction false} SilentWhole(held: Bytes, chunks: seq<Bytes>, json: Json)
    requires First(held).Wait? && !ScanAll(held + Joined(chunks), json).bad
    ensures var scan := ScanAll(held + Joined(chunks), json);
      Silent(held, chunks, json) <==> scan.rest == [] && AllAnswers(scan.frames, json)
    decreases |chunks|
  {
    hide First, ScanAll, ReadOnce;
    if chunks == [] {
      assert held + Joined(chunks) == held;
      ScanNothing(held, json);
    } else {
      var s, more := held + chunks[0], Joined(chunks[1..]);
      JoinFirst(chunks);
      assert held + Joined(chunks) == s + more;
      ReadSplit(s, more, json);
      ReadEnds(s, json);
      var look := ReadOnce(s, json);
      var b := ScanAll(look.rest + more, json);
      AllAnswersConcat(look.frames, b.frames, json);
      if AllAnswers(look.frames, json) { SilentWhole(look.rest, chunks[1..], json); }
    }
  }

  lemma AllAnswersConcat(a: seq<Frame>, b: seq<Frame>, json: Json)
    ensures AllAnswers(a + b, json) <==> AllAnswers(a, json) && AllAnswers(b, json)
  {
    assert forall k | 0 <= k < |a| :: (a + b)[k] == a[k];
    assert forall k | 0 <= k < |b| :: (a + b)[|a| + k] == b[k];
  }

  /** Bytes that come after the client gave up change nothing if and only if they are whole answers. */
  lemma LateBytesIff(h: Host, late: seq<Bytes>, json: Json)
    requires !ScanAll(Joined(late), json).bad
    ensures var scan := ScanAll(Joined(late), json);
      Fed(Aborted(h), late, json) == Aborted(h) <==> scan.rest == [] && AllAnswers(scan.frames, json)
  {
    hide ScanAll, AllAnswers, Fed, Silent;
    var gone := Aborted(h);
    ShortWaits([]);
    assert [] + Joined(late) == Joined(late);
    SilentIff(gone.host, [], late, json);
    SilentWhole([], late, json);
  }

  // ---------------------------------------------------------- one chunking

  /**
   * When a chunking does not matter: either the client gives up and what comes after is
   * silent, or it reads to the end, with no frame left unread behind a null header.
   */
  ghost predicate Harmless(held: Bytes, chunks: seq<Bytes>, json: Json)
    decreases |chunks|
  {
    if chunks == [] then First(held).Wait? else
    var look := ReadOnce(held + chunks[0], json);
    if look.bad then Silent([], chunks[1..], json) else Harmless(look.rest, chunks[1..], json)
  }

  /**
   * For every client and every way of cutting a stream up, it ends as the whole-buffer
   * parser says exactly when this is harmless.
   */
  lemma {:induction false} ChunkingIff(c: Client, chunks: seq<Bytes>, json: Json)
    ensures Fed(c, chunks, json) == Outcome(c.host, ScanAll(c.buffer + Joined(chunks), json), json)
       <==> Harmless(c.buffer, chunks, json)
    decreases |chunks|
  {
    hide First, ScanAll, ReadOnce, DeliveredAll, Digested, Silent;
    if chunks == [] {
      assert c.buffer + Joined(chunks) == c.buffer;
      OutcomeOfNothing(c, json);
    } else {
      var s, more := c.buffer + chunks[0], Joined(chunks[1..]);
      JoinFirst(chunks);
      assert c.buffer + Joined(chunks) == s + more;
      FedFirst(c, chunks, json);
      DigestIsRead(Client(s, c.host), json);
      ReadSplit(s, more, json);
      var look := ReadOnce(s, json);
      var after := DeliveredAll(c.host, look.frames, json);
      if look.bad {
        SilentIff(Aborted(after).host, [], chunks[1..], json);
      } else {
        DeliveredAllSplit(c.host, look.frames, ScanAll(look.rest + more, json).frames, json);
        ChunkingIff(Client(look.rest, after), chunks[1..], json);
      }
    }
  }

  // ---------------------------------------------------------- every chunking

  /** Nothing follows a null header, and nothing follows the byte that makes the client give up. */
  ghost predicate CutFree(s: Bytes, more: Bytes, json: Json) {
    && NullOnlyLast(ScanAll(s + more, json), json)
    && (more != [] ==> !ScanAll(s + more[..|more| - 1], json).bad)
  }

  lemma {:induction false} EmptySilent(chunks: seq<Bytes>, json: Json)
    requires Joined(chunks) == []
    ensures Silent([], chunks, json)
    decreases |chunks|
  {
    hide First;
    if chunks != [] {
      JoinFirst(chunks);
      assert [] + chunks[0] == [];
      ShortWaits([]);
      EmptySilent(chunks[1..], json);
    }
  }

  lemma {:induction false} CutFreeHarmless(held: Bytes, chunks: seq<Bytes>, json: Json)
    requires First(held).Wait? && CutFree(held, Joined(chunks), json)
    ensures Harmless(held, chunks, json)
    decreases |chunks|
  {
    hide First, ScanAll, ReadOnce, Silent, NullOnlyLast;
    if chunks != [] {
      var s, more := held + chunks[0], Joined(chunks[1..]);
      JoinFirst(chunks);
      assert held + Joined(chunks) == s + more;
      var look := ReadOnce(s, json);
      ReadSplit(s, more, json);
      ReadEnds(s, json);
      if more == [] {
        if look.bad {
          EmptySilent(chunks[1..], json);
        } else {
          CutFreeRest(look, more, json);
          assert CutFree(look.rest, more, json);
          CutFreeHarmless(look.rest, chunks[1..], json);
        }
      } else {
        var most := more[..|more| - 1];
        assert Joined(chunks)[..|Joined(chunks)| - 1] == chunks[0] + most;
        assert held + (chunks[0] + most) == s + most;
        ReadSplit(s, most, json);
        CutFreeRest(look, more, json);
        CutFreeHarmless(look.rest, chunks[1..], json);
      }
    }
  }

  /** What is left after one run of the handler is free of the same trouble, and waits for more. */
  lemma CutFreeRest(look: Scan, more: Bytes, json: Json)
    requires !look.bad && NullOnlyLast(look, json)
    requires First(look.rest).Wait? || (look.frames != [] && json(look.frames[|look.frames| - 1].header).Null?)
    requires var b := ScanAll(look.rest + more, json); NullOnlyLast(Scan(look.frames + b.frames, b.bad, b.rest), json)
    ensures NullOnlyLast(ScanAll(look.rest + more, json), json) && First(look.rest).Wait?
  {
    hide First, ScanAll;
    var b := ScanAll(look.rest + more, json);
    var all := look.frames + b.frames;
    assert forall k | 0 <= k < |b.frames| :: all[|look.frames| + k] == b.frames[k];
    if !First(look.rest).Wait? {
      assert all[|look.frames| - 1] == look.frames[|look.frames| - 1];
      ScanNothing(look.rest + more, json);
      FirstStable(look.rest, more);
    }
  }

  /**
   * However a stream is cut into chunks the client ends where a parser of the whole stream
   * would leave it, if and only if nothing follows a null header and nothing follows the
   * byte that makes the client give up.
   */
  lemma AnyChunking(c: Client, s: Bytes, json: Json)
    requires First(c.buffer).Wait?
    ensures (forall chunks: seq<Bytes> | Joined(chunks) == s ::
               Fed(c, chunks, json) == Outcome(c.host, ScanAll(c.buffer + s, json), json))
       <==> CutFree(c.buffer, s, json)
  {
    hide First, ScanAll, Outcome, Harmless, CutFree, Fed;
    if CutFree(c.buffer, s, json) {
      forall chunks: seq<Bytes> | Joined(chunks) == s
        ensures Fed(c, chunks, json) == Outcome(c.host, ScanAll(c.buffer + s, json), json)
      {
        ChunkingIff(c, chunks, json);
        CutFreeHarmless(c.buffer, chunks, json);
      }
    } else {
      OneChunk(s);
      ChunkingIff(c, [s], json);
      if s != [] {
        var s1, last := s[..|s| - 1], s[|s| - 1..];
        JoinTwo(s1, last);
        assert s1 + last == s;
        ChunkingIff(c, [s1, last], json);
      }
      if Harmless(c.buffer, [s], json) && (s != [] ==> Harmless(c.buffer, [s[..|s| - 1], s[|s| - 1..]], json)) {
        TwoCuts(c.buffer, s, json);
        assert false;
      }
    }
  }

  lemma JoinTwo(a: Bytes, b: Bytes)
    ensures Joined([a, b]) == a + b
  {
    assert [a, b][..1] == [a];
    OneChunk(a);
  }

  /** A null header with something behind it shows when the stream comes in one piece. */
  lemma OneCut(held: Bytes, s: Bytes, json: Json)
    requires Harmless(held, [s], json)
    ensures NullOnlyLast(ScanAll(held + s, json), json)
  {
    hide First, ScanAll, ReadOnce, NullOnlyLast;
    assert held + s + [] == held + s;
    ReadSplit(held + s, [], json);
    var look := ReadOnce(held + s, json);
    ReadEnds(held + s, json);
    assert look.rest + [] == look.rest && look.frames + [] == look.frames && [s][1..] == [];
    ScanNothing(look.rest, json);
  }

  /** Giving up too early shows when the last byte comes on its own. */
  lemma LastCut(held: Bytes, s1: Bytes, last: Bytes, json: Json)
    requires |last| == 1 && Harmless(held, [s1, last], json) && NullOnlyLast(ScanAll(held + (s1 + last), json), json)
    ensures !ScanAll(held + s1, json).bad
  {
    hide First, ScanAll, ReadOnce, NullOnlyLast;
    assert (held + s1) + last == held + (s1 + last);
    ScanSplit(held + s1, last, json);
    ReadIsScanIff(held + s1, json);
    LastByteAlone(last, json);
    assert [s1, last][1..] == [last];
  }

  lemma TwoCuts(held: Bytes, s: Bytes, json: Json)
    requires Harmless(held, [s], json) && (s != [] ==> Harmless(held, [s[..|s| - 1], s[|s| - 1..]], json))
    ensures CutFree(held, s, json)
  {
    hide First, ScanAll, Harmless, NullOnlyLast;
    OneCut(held, s, json);
    if s != [] {
      assert s[..|s| - 1] + s[|s| - 1..] == s;
      LastCut(held, s[..|s| - 1], s[|s| - 1..], json);
    }
  }

  lemma LastByteAlone(last: Bytes, json: Json)
    requires |last| == 1
    ensures !Silent([], [last], json)
  {
    hide First;
    assert [] + last == last;
    ShortWaits(last);
    assert [last][1..] == [];
  }

  /** The chunk with which the client gives up, and what the chunking depends on after that. */
  lemma {:induction false} GivesUp(held: Bytes, chunks: seq<Bytes>, json: Json) returns (n: nat)
    requires First(held).Wait? && ScanAll(held + Joined(chunks), json).bad
    requires NullOnlyLast(ScanAll(held + Joined(chunks), json), json)
    ensures 0 < n <= |chunks| && ScanAll(held + Joined(chunks[..n]), json) == ScanAll(held + Joined(chunks), json)
    ensures forall k | 0 <= k < n :: !ScanAll(held + Joined(chunks[..k]), json).bad
    ensures Harmless(held, chunks[..n], json) && (Harmless(held, chunks, json) <==> Silent([], chunks[n..], json))
    decreases |chunks|
  {
    hide First, ScanAll, ReadOnce, NullOnlyLast;
    ScanNothing(held, json);
    assert held + [] == held;
    var s, more := held + chunks[0], Joined(chunks[1..]);
    JoinPrefix(held, chunks, |chunks|);
    ReadSplit(s, more, json);
    ReadEnds(s, json);
    var look := ReadOnce(s, json);
    if look.bad {
      n := 1;
      JoinPrefix(held, chunks, 1);
      ReadSplit(s, [], json);
    } else {
      CutFreeRest(look, more, json);
      var m := GivesUp(look.rest, chunks[1..], json);
      n := m + 1;
      JoinPrefix(held, chunks, n);
      ReadSplit(s, Joined(chunks[1..][..m]), json);
      assert chunks[n..] == chunks[1..][m..];
      forall k | 0 < k < n ensures !ScanAll(held + Joined(chunks[..k]), json).bad {
        JoinPrefix(held, chunks, k);
        ReadSplit(s, Joined(chunks[1..][..k - 1]), json);
      }
    }
  }

  lemma JoinPrefix(held: Bytes, chunks: seq<Bytes>, k: nat)
    requires 0 < k <= |chunks|
    ensures held + Joined(chunks[..k]) == (held + chunks[0]) + Joined(chunks[1..][..k - 1])
    ensures chunks[..k] != [] && chunks[..k][0] == chunks[0] && chunks[..k][1..] == chunks[1..][..k - 1]
    ensures k == |chunks| ==> chunks[..k] == chunks && chunks[1..][..k - 1] == chunks[1..]
  {
    JoinFirst(chunks[..k]);
    assert chunks[..k][1..] == chunks[1..][..k - 1];
  }

  /**
   * A stream that makes the client give up does so at the same frame however it is cut.
   * The chunks after that one change nothing if and only if they are silent: when they do
   * not make it give up again, that is when they are whole answers.
   */
  lemma AbortAnyChunking(c: Client, chunks: seq<Bytes>, json: Json) returns (n: nat)
    requires First(c.buffer).Wait? && ScanAll(c.buffer + Joined(chunks), json).bad
    requires NullOnlyLast(ScanAll(c.buffer + Joined(chunks), json), json)
    ensures 0 < n <= |chunks| && Fed(c, chunks[..n], json) == Consumed(c, Joined(chunks), json)
    ensures forall k | 0 <= k < n :: !ScanAll(c.buffer + Joined(chunks[..k]), json).bad
    ensures Fed(c, chunks, json) == Consumed(c, Joined(chunks), json) <==> Silent([], chunks[n..], json)
    ensures var late := ScanAll(Joined(chunks[n..]), json);
      !late.bad ==> (Silent([], chunks[n..], json) <==> late.rest == [] && AllAnswers(late.frames, json))
  {
    hide First, ScanAll, Digested, Outcome, Silent, NullOnlyLast, Harmless, Fed;
    DigestIsScan(Client(c.buffer + Joined(chunks), c.host), json);
    n := GivesUp(c.buffer, chunks, json);
    ChunkingIff(c, chunks[..n], json);
    ChunkingIff(c, chunks, json);
    ShortWaits([]);
    assert [] + Joined(chunks[n..]) == Joined(chunks[n..]);
    if !ScanAll(Joined(chunks[n..]), json).bad { SilentWhole([], chunks[n..], json); }
  }

  /**
   * Encoded frames, cut anywhere, are delivered exactly, with nothing left over, if and
   * only if none but the last has a null header.
   */
  lemma EncodedDelivered(h: Host, frames: seq<Frame>, json: Json)
    requires forall f | f in frames :: Sendable(f, json)
    ensures (forall chunks: seq<Bytes> | Joined(chunks) == EncodedAll(frames) ::
               Fed(Client([], h), chunks, json) == Client([], DeliveredAll(h, frames, json)))
       <==> NullOnlyLast(Scan(frames, false, []), json)
  {
    hide ScanAll, Digested, First, EncodedAll, Sendable, DeliveredAll, Delivered, Encoded, Fed, Joined, NullOnlyLast;
    var s := EncodedAll(frames);
    RoundTrip(frames, json);
    ShortWaits([]);
    assert [] + s == s;
    if s != [] {
      var s1, last := s[..|s| - 1], s[|s| - 1..];
      assert [] + s1 == s1 && s1 + last == s;
      ScanSplit(s1, last, json);
    }
    AnyChunking(Client([], h), s, json);
  }

  // ------------------------------------------------------------ concrete streams

  /**
   * After it gives up, the client reads bytes that are still to come as a fresh
   * stream: cut before them, a frame that follows a bad one is delivered.
   */
  lemma LateBytesAreAFreshStream(h: Host, frame: Frame, json: Json)
    requires Sendable(frame, json) && json(frame.header).Event?
    ensures var bad: Bytes := [0, 0, 0, 0, 0, 0, 0, 0];
      Fed(Client([], h), [bad + Encoded(frame)], json).host.events == h.events
      && Fed(Client([], h), [bad, Encoded(frame)], json).host.events == h.events + [frame.header]
  {
    hide ScanAll, EncodedAll, Encoded, First, Digested;
    var bad: Bytes := [0, 0, 0, 0, 0, 0, 0, 0];
    var s := Encoded(frame);
    var c := Client([], h);
    BadLook(bad, s);
    FedOne(c, bad + s, json);
    FedTwo(c, bad, s, json);
    assert [] + (bad + s) == bad + s && [] + bad == bad && [] + s == s && s + [] == s && s[|s|..] == [];
    DigestedIs(Client(bad + s, h), json);
    DigestedIs(Client(bad, h), json);
    FirstOfEncoded(frame, []);
    DigestedIs(Client(s, Aborted(h).host), json);
    ShortWaits([]);
    DigestedIs(Client([], Delivered(Aborted(h).host, frame, json)), json);
  }

  /** A frame behind a null header waits unread for the next chunk; cut between the two, it is delivered. */
  lemma NullHidesTheNext(h: Host, odd: Frame, frame: Frame, json: Json)
    requires Sendable(odd, json) && json(odd.header).Null?
    requires Sendable(frame, json) && json(frame.header).Event?
    ensures Fed(Client([], h), [Encoded(odd) + Encoded(frame)], json)
         == Client(Encoded(frame), h.(thrown := h.thrown + 1))
    ensures Fed(Client([], h), [Encoded(odd), Encoded(frame)], json)
         == Client([], h.(thrown := h.thrown + 1, events := h.events + [frame.header]))
  {
    hide ScanAll, EncodedAll, Encoded, First, Digested;
    var n, s := Encoded(odd), Encoded(frame);
    var c := Client([], h);
    FedOne(c, n + s, json);
    FedTwo(c, n, s, json);
    assert [] + (n + s) == n + s && [] + n == n && n + [] == n && [] + s == s && s + [] == s;
    FirstOfEncoded(odd, s);
    DigestedIs(Client(n + s, h), json);
    FirstOfEncoded(odd, []);
    DigestedIs(Client(n, h), json);
    FirstOfEncoded(frame, []);
    var after := Delivered(h, odd, json);
    DigestedIs(Client(s, after), json);
    ShortWaits([]);
    DigestedIs(Client([], Delivered(after, frame, json)), json);
  }

  lemma FedOne(c: Client, chunk: Bytes, json: Json)
    ensures Fed(c, [chunk], json) == Consumed(c, chunk, json)
  {
    assert [chunk][..0] == [];
  }

  lemma FedTwo(c: Client, first: Bytes, second: Bytes, json: Json)
    ensures Fed(c, [first, second], json) == Consumed(Consumed(c, first, json), second, json)
  {
    assert [first, second][..1] == [first];
    FedOne(c, first, json);
  }

  lemma BadLook(bad: Bytes, s: Bytes)
    requires bad == [0, 0, 0, 0, 0, 0, 0, 0]
    ensures First(bad).Bad? && First(bad + s).Bad?
  {
    assert forall k | 0 <= k < 4 :: (bad + s)[k] == 0;
  }

  // ------------------------------------------------------------ settling once

  datatype Move =
    | Ask
    | Chunk(bytes: Bytes)
    | TimerFires(id: int)
    | EngineExits
    | SpawnFails
    | Start

  function Moved(c: Client, m: Move, json: Json): Client {
    match m
    case Ask => c.(host := Requested(c.host))
    case Chunk(bytes) => Consumed(c, bytes, json)
    case TimerFires(id) => if id in c.host.pending then c.(host := TimedOut(c.host, id)) else c
    case EngineExits => Aborted(c.host)
    case SpawnFails => c.(host := AllFailed(c.host).(alive := false))
    case Start => c.(host := c.host.(alive := true))
  }

  function Lived(moves: seq<Move>, json: Json): Client {
    if moves == [] then NEW_CLIENT else Moved(Lived(moves[..|moves| - 1], json), moves[|moves| - 1], json)
  }

  function Ids(settled: seq<Settlement>): seq<int> {
    if settled == [] then [] else Ids(settled[..|settled| - 1]) + [settled[|settled| - 1].id]
  }

  function Issued(next: nat): seq<int> {
    if next <= 1 then [] else Issued(next - 1) + [next - 1]
  }

  /** Every request made is either waiting or settled, and that once. */
  ghost predicate Accounted(h: Host) {
    h.nextId >= 1 && multiset(h.pending) + multiset(Ids(h.settled)) == multiset(Issued(h.nextId))
  }

  lemma {:induction false} WithoutCounts(pending: seq<int>, id: int)
    requires id in pending
    ensures multiset(Without(pending, id)) + multiset{id} == multiset(pending)
  {
    assert pending == [pending[0]] + pending[1..];
    if pending[0] != id { WithoutCounts(pending[1..], id); }
  }

  lemma IdsAppend(settled: seq<Settlement>, s: Settlement)
    ensures Ids(settled + [s]) == Ids(settled) + [s.id]
  {
    assert (settled + [s])[..|settled|] == settled;
  }

  lemma {:induction false} IdsRejected(settled: seq<Settlement>, pending: seq<int>)
    ensures Ids(settled + Rejections(pending)) == Ids(settled) + pending
  {
    if pending == [] {
      assert settled + Rejections(pending) == settled;
    } else {
      var n := |pending| - 1;
      IdsRejected(settled, pending[..n]);
      assert settled + Rejections(pending) == (settled + Rejections(pending[..n])) + [Rejected(pending[n])];
      IdsAppend(settled + Rejections(pending[..n]), Rejected(pending[n]));
      assert Ids(settled) + pending[..n] + [pending[n]] == Ids(settled) + pending;
    }
  }

  lemma AccountedFailed(h: Host)
    requires Accounted(h)
    ensures Accounted(AllFailed(h))
  {
    IdsRejected(h.settled, h.pending);
  }

  lemma AccountedSettled(h: Host, id: int, s: Settlement)
    requires Accounted(h) && id in h.pending && s.id == id
    ensures Accounted(h.(pending := Without(h.pending, id), settled := h.settled + [s]))
  {
    WithoutCounts(h.pending, id);
    IdsAppend(h.settled, s);
  }

  lemma {:induction false} AccountedDigested(c: Client, json: Json)
    requires Accounted(c.host)
    ensures Accounted(Digested(c, json).host)
    decreases |c.buffer|
  {
    hide First, Ids, Without, Issued;
    DigestedIs(c, json);
    AccountedFailed(c.host);
    var k := First(c.buffer);
    if k.Got? && !json(k.frame.header).Malformed? {
      if json(k.frame.header).Answer? && json(k.frame.header).id in c.host.pending {
        AccountedSettled(c.host, json(k.frame.header).id, Resolved(json(k.frame.header).id, k.frame));
      }
      AccountedDigested(Client(c.buffer[k.total..], Delivered(c.host, k.frame, json)), json);
    }
  }

  lemma AccountedTimedOut(h: Host, id: int)
    requires Accounted(h) && id in h.pending
    ensures Accounted(TimedOut(h, id))
  {
    hide Accounted;
    AccountedSettled(h, id, Rejected(id));
  }

  lemma AccountedRequested(h: Host)
    requires Accounted(h)
    ensures Accounted(Requested(h))
  {}

  lemma SameAccount(h: Host, alive: bool)
    ensures Accounted(h.(alive := alive)) == Accounted(h)
  {}

  lemma AccountedMoved(c: Client, m: Move, json: Json)
    requires Accounted(c.host)
    ensures Accounted(Moved(c, m, json).host)
  {
    hide Ids, Without, Digested, Accounted, Issued, AllFailed, Requested, TimedOut;
    SameAccount(AllFailed(c.host), false);
    SameAccount(c.host, true);
    match m
    case Ask => AccountedRequested(c.host);
    case Chunk(bytes) => AccountedDigested(Client(c.buffer + bytes, c.host), json);
    case TimerFires(id) => if id in c.host.pending { AccountedTimedOut(c.host, id); }
    case EngineExits => AccountedFailed(c.host);
    case SpawnFails => AccountedFailed(c.host);
    case Start =>
  }

  /** In every life of a client each request made is waiting or settled, exactly once. */
  lemma {:induction false} EveryRequestOnce(moves: seq<Move>, json: Json)
    ensures Accounted(Lived(moves, json).host)
  {
    hide Moved, Accounted;
    if moves == [] {
      NewAccounted();
    } else {
      EveryRequestOnce(moves[..|moves| - 1], json);
      AccountedMoved(Lived(moves[..|moves| - 1], json), moves[|moves| - 1], json);
    }
  }

  lemma NewAccounted()
    ensures Accounted(NEW_CLIENT.host)
  {}

  lemma {:induction false} IssuedCount(next: nat, id: int)
    ensures multiset(Issued(next))[id] == if 1 <= id < next then 1 else 0
  {
    if next > 1 { IssuedCount(next - 1, id); }
  }

  /** So no request is settled twice, and one that is settled is no longer waiting. */
  lemma SettledAtMostOnce(moves: seq<Move>, json: Json, id: int)
    ensures var c := Lived(moves, json).host;
      multiset(Ids(c.settled))[id] <= 1 && (id in Ids(c.settled) ==> id !in c.pending)
      && (1 <= id < c.nextId <==> id in Ids(c.settled) || id in c.pending)
  {
    hide Ids, Lived, Issued;
    var c := Lived(moves, json).host;
    EveryRequestOnce(moves, json);
    IssuedCount(c.nextId, id);
    assert multiset(c.pending)[id] + multiset(Ids(c.settled))[id] == multiset(Issued(c.nextId))[id];
    assert (id in Ids(c.settled)) == (id in multiset(Ids(c.settled)));
    assert (id in c.pending) == (id in multiset(c.pending));
  }
}
