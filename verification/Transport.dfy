/**
 * The engine's end: frames read from standard input, which gives as many bytes at a
 * time as it likes.
 */
module Transport {
  import opened ByteStrings
  import opened Wire

  /** A frame, the end of the stream, or why what is there is not a frame. */
  datatype Reading = Read(frame: Frame) | Closed | Failed(reason: Reason)

  datatype Reason = BadHeaderLength | TruncatedHeader | TruncatedLength | BadPayloadLength | TruncatedPayload | NotJson

  /** What a read of `s` gives, and how many bytes it takes. */
  function ReadOf(s: Bytes, json: Json): (Reading, nat) {
    if |s| < 4 then (Closed, |s|) else
    var header := U32(s, 0);
    if header == 0 || header > MAX_HEADER then (Failed(BadHeaderLength), 4)
    else if |s| < 4 + header then (Failed(TruncatedHeader), |s|)
    else if |s| < 4 + header + 4 then (Failed(TruncatedLength), |s|)
    else
    var payload := U32(s, 4 + header);
    if payload > MAX_PAYLOAD then (Failed(BadPayloadLength), 8 + header)
    else if |s| < 8 + header + payload then (Failed(TruncatedPayload), |s|)
    else if json(s[4..4 + header]).Malformed? then (Failed(NotJson), 8 + header + payload)
    else (Read(Frame(s[4..4 + header], s[8 + header..8 + header + payload])), 8 + header + payload)
  }

  class Input {
    const data: Bytes
    var at: nat

    ghost predicate Valid() reads this { at <= |data| }
    function Left(): Bytes reads this requires at <= |data| { data[at..] }

    constructor (bytes: Bytes)
      ensures Valid() && Left() == bytes && data == bytes && at == 0
    {
      data, at := bytes, 0;
    }

    /** Some of the bytes asked for; none only at the end of the stream. */
    method FRead(n: nat) returns (bytes: Bytes)
      requires Valid() && n > 0
      modifies this`at
      ensures Valid() && old(at) <= at && bytes == data[old(at)..at] && |bytes| <= n
      ensures bytes == [] ==> at == |data|
    {
      if at == |data| { return []; }
      var count: nat :| 1 <= count <= n && at + count <= |data|;
      bytes := data[at..at + count];
      at := at + count;
    }

    method ReadExact(length: nat) returns (ok: bool, bytes: Bytes)
      requires Valid()
      modifies this`at
      ensures Valid() && ok == (old(at) + length <= |data|)
      ensures at == (if ok then old(at) + length else |data|) && bytes == data[old(at)..at]
    {
      bytes := [];
      while |bytes| < length
        invariant Valid() && at == old(at) + |bytes| && bytes == data[old(at)..at] && |bytes| <= length
        decreases length - |bytes|
      {
        var more := FRead(length - |bytes|);
        if more == [] { return false, bytes; }
        bytes := bytes + more;
      }
      ok := true;
    }

    method ReadFrame(json: Json) returns (r: Reading)
      requires Valid()
      modifies this`at
      ensures Valid() && (r, at - old(at)) == ReadOf(old(Left()), json)
    {
      hide U32;
      ghost var s := Left();
      var ok, lengthBytes := ReadExact(4);
      if !ok { return Closed; }
      Slice(data, old(at), 0, 4);
      U32Of(s, 0, lengthBytes);
      var headerLength := U32(lengthBytes, 0);
      if headerLength == 0 || headerLength > MAX_HEADER { return Failed(BadHeaderLength); }
      var header;
      ok, header := ReadExact(headerLength);
      if !ok { return Failed(TruncatedHeader); }
      Slice(data, old(at), 4, 4 + headerLength);
      ok, lengthBytes := ReadExact(4);
      if !ok { return Failed(TruncatedLength); }
      Slice(data, old(at), 4 + headerLength, 8 + headerLength);
      U32Of(s, 4 + headerLength, lengthBytes);
      var payloadLength := U32(lengthBytes, 0);
      if payloadLength > MAX_PAYLOAD { return Failed(BadPayloadLength); }
      var payload;
      ok, payload := ReadExact(payloadLength);
      if !ok { return Failed(TruncatedPayload); }
      Slice(data, old(at), 8 + headerLength, 8 + headerLength + payloadLength);
      if json(header).Malformed? { return Failed(NotJson); }
      return Read(Frame(header, payload));
    }
  }

  lemma Slice(data: Bytes, at: nat, i: nat, j: nat)
    requires i <= j && at + j <= |data|
    ensures data[at..][i..j] == data[at + i..at + j]
  {}

  lemma U32Of(s: Bytes, at: nat, part: Bytes)
    requires at + 4 <= |s| && part == s[at..at + 4]
    ensures U32(part, 0) == U32(s, at)
  {}

  /** Both ends take the same bytes for the same frame. */
  lemma EndsAgree(s: Bytes, json: Json)
    ensures var (r, n) := ReadOf(s, json);
      r.Read? <==> First(s).Got? && !json(First(s).frame.header).Malformed?
    ensures var (r, n) := ReadOf(s, json);
      r.Read? ==> First(s) == Got(r.frame, n)
    ensures var (r, n) := ReadOf(s, json);
      First(s).Bad? <==> |s| >= 8 && (r == Failed(BadHeaderLength) || r == Failed(BadPayloadLength))
    ensures var (r, n) := ReadOf(s, json); n <= |s|
  {}

  /** Reading until something other than a frame turns up. */
  function ReadAll(s: Bytes, json: Json): (seq<Frame>, Reading)
    decreases |s|
  {
    var (r, n) := ReadOf(s, json);
    if !r.Read? then ([], r) else
    var (frames, last) := ReadAll(s[n..], json);
    ([r.frame] + frames, last)
  }

  /** The engine reads off a stream exactly the frames the client's parser finds in it. */
  lemma {:induction false} SameFrames(s: Bytes, json: Json)
    ensures ReadAll(s, json).0 == ScanAll(s, json).frames
    ensures ReadAll(s, json).1 == Closed <==> !ScanAll(s, json).bad && |ScanAll(s, json).rest| < 4
    decreases |s|
  {
    hide First;
    EndsAgree(s, json);
    LookShort(s, json);
    var (r, n) := ReadOf(s, json);
    if r.Read? { SameFrames(s[n..], json); }
  }

  lemma LookShort(s: Bytes, json: Json)
    ensures ReadOf(s, json).0 == Closed <==> |s| < 4
    ensures |s| < 4 ==> First(s).Wait?
  {}

  /** What the client writes, the engine reads: every frame, and then the end of the stream. */
  lemma ReadsWhatWasWritten(frames: seq<Frame>, json: Json)
    requires forall f | f in frames :: Sendable(f, json)
    ensures ReadAll(EncodedAll(frames), json) == (frames, Closed)
  {
    RoundTrip(frames, json);
    SameFrames(EncodedAll(frames), json);
  }

  /** A frame cut short is never taken for a frame, nor for the end of the stream once four bytes are there. */
  lemma CutShort(f: Frame, n: nat, json: Json)
    requires Sendable(f, json) && n < |Encoded(f)|
    ensures var (r, taken) := ReadOf(Encoded(f)[..n], json);
      taken == n && (if n < 4 then r == Closed
                     else r.Failed? && r.reason in {TruncatedHeader, TruncatedLength, TruncatedPayload})
  {
    hide First, LittleEndian;
    var s := Encoded(f);
    FirstOfEncoded(f, []);
    assert s + [] == s;
    if n >= 4 { CutHeader(f, n); }
    if n >= 8 + |f.header| { CutPayload(f, n); }
  }

  lemma CutHeader(f: Frame, n: nat)
    requires |f.header| <= MAX_HEADER && 4 <= n <= |Encoded(f)|
    ensures U32(Encoded(f)[..n], 0) == |f.header|
  {
    hide LittleEndian, U32;
    var s := Encoded(f);
    U32Back(|f.header|, [], f.header + LittleEndian(|f.payload|) + f.payload);
    assert s == [] + LittleEndian(|f.header|) + (f.header + LittleEndian(|f.payload|) + f.payload);
    assert s[..n][0..4] == s[0..4];
    U32Of(s[..n], 0, s[0..4]);
    U32Of(s, 0, s[0..4]);
  }

  lemma CutPayload(f: Frame, n: nat)
    requires |f.header| <= MAX_HEADER && |f.payload| <= MAX_PAYLOAD && 8 + |f.header| <= n <= |Encoded(f)|
    ensures U32(Encoded(f)[..n], 4 + |f.header|) == |f.payload|
  {
    hide LittleEndian, U32;
    var s, at := Encoded(f), 4 + |f.header|;
    var before := LittleEndian(|f.header|) + f.header;
    U32Back(|f.payload|, before, f.payload);
    assert s == before + LittleEndian(|f.payload|) + f.payload;
    assert s[..n][at..at + 4] == s[at..at + 4];
    U32Of(s[..n], at, s[at..at + 4]);
    U32Of(s, at, s[at..at + 4]);
  }
}
