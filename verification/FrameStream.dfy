/**
 * The engine's wire form: length-prefixed frames, one parser that sees the whole
 * buffer and one that is fed chunks and told how many bytes it still needs.
 */
module Wire {
  import opened ByteStrings

  const MAX_HEADER: nat := 0x10_0000
  const MAX_PAYLOAD: nat := 0x4000_0000

  datatype Frame = Frame(header: Bytes, payload: Bytes)

  /**
   * What parsing a header as JSON gives, for as far as the client looks at it. The value
   * null is JSON, but asking it for its type throws.
   */
  datatype Parsed = Malformed | Null | Event | Answer(id: int)

  type Json = Bytes -> Parsed

  function U32(s: Bytes, at: nat): (v: nat)
    requires at + 4 <= |s|
    ensures v < 0x1_0000_0000
  {
    s[at] as int + 0x100 * s[at + 1] as int + 0x1_0000 * s[at + 2] as int + 0x100_0000 * s[at + 3] as int
  }

  function LittleEndian(v: nat): (s: Bytes)
    ensures |s| == 4
  {
    [(v % 0x100) as Byte, (v / 0x100 % 0x100) as Byte, (v / 0x1_0000 % 0x100) as Byte, (v / 0x100_0000 % 0x100) as Byte]
  }

  function Encoded(f: Frame): Bytes {
    LittleEndian(|f.header|) + f.header + LittleEndian(|f.payload|) + f.payload
  }

  method EncodeFrame(f: Frame) returns (bytes: Bytes)
    ensures bytes == Encoded(f)
  {
    bytes := LittleEndian(|f.header|);
    bytes := bytes + f.header;
    bytes := bytes + LittleEndian(|f.payload|);
    bytes := bytes + f.payload;
  }

  lemma U32Back(v: nat, before: Bytes, after: Bytes)
    requires v < 0x1_0000_0000
    ensures U32(before + LittleEndian(v) + after, |before|) == v
  {
    var s, w, n := before + LittleEndian(v) + after, LittleEndian(v), |before|;
    assert s[n] == w[0] && s[n + 1] == w[1] && s[n + 2] == w[2] && s[n + 3] == w[3];
    Digits(v);
  }

  /** The low byte comes first, and the others are those of what is left. */
  lemma LowByteFirst(v: nat)
    requires v < 0x1_0000_0000
    ensures LittleEndian(v)[0] as int == v % 256 && LittleEndian(v)[1..] + [0] == LittleEndian(v / 256)
  {
    var s, t := LittleEndian(v), LittleEndian(v / 256);
    assert v / 256 / 0x100 == v / 0x1_0000 && v / 256 / 0x1_0000 == v / 0x100_0000 && v / 256 / 0x100_0000 == 0;
    assert s[1] == t[0] && s[2] == t[1] && s[3] == t[2] && t[3] == 0;
  }

  lemma Digits(v: nat)
    requires v < 0x1_0000_0000
    ensures v % 0x100 + 0x100 * (v / 0x100 % 0x100) + 0x1_0000 * (v / 0x1_0000 % 0x100)
            + 0x100_0000 * (v / 0x100_0000 % 0x100) == v
  {
    assert v / 0x1_0000 == v / 0x100 / 0x100 && v / 0x100_0000 == v / 0x1_0000 / 0x100;
  }

  // ----------------------------------------------------- whole-buffer parser

  /** The first thing in a buffer: not enough of it yet, a frame and where it ends, or a reason to give up. */
  datatype Look = Wait(need: nat) | Got(frame: Frame, total: nat) | Bad

  function First(s: Bytes): (k: Look)
    ensures k.Wait? ==> |s| < k.need && k.need >= 8
    ensures k.Got? ==> 8 < k.total <= |s| && k.total == 8 + |k.frame.header| + |k.frame.payload|
  {
    if |s| < 8 then Wait(8) else
    var header := U32(s, 0);
    if header == 0 || header > MAX_HEADER then Bad
    else if |s| < 4 + header + 4 then Wait(4 + header + 4) else
    var payload := U32(s, 4 + header);
    if payload > MAX_PAYLOAD then Bad else
    var total := 4 + header + 4 + payload;
    if |s| < total then Wait(total)
    else Got(Frame(s[4..4 + header], s[4 + header + 4..total]), total)
  }

  /** Every frame of a stream, and whether it ends in a stream to give up or in bytes still to be completed. */
  datatype Scan = Scan(frames: seq<Frame>, bad: bool, rest: Bytes)

  function ScanAll(s: Bytes, json: Json): (r: Scan)
    decreases |s|
  {
    match First(s)
    case Wait(_) => Scan([], false, s)
    case Bad => Scan([], true, [])
    case Got(frame, total) =>
      if json(frame.header).Malformed? then Scan([], true, []) else
      var more := ScanAll(s[total..], json);
      more.(frames := [frame] + more.frames)
  }

  /** More bytes do not change a frame that is there, nor a reason to give up. */
  lemma FirstStable(s: Bytes, more: Bytes)
    ensures First(s).Got? ==> First(s + more) == First(s)
    ensures First(s).Bad? ==> First(s + more).Bad?
    ensures First(s).Wait? && |s + more| < First(s).need ==> First(s + more) == First(s)
  {
    if |s| >= 8 {
      SameU32(s, more, 0);
      var header := U32(s, 0);
      if 0 < header <= MAX_HEADER && |s| >= 4 + header + 4 {
        SameU32(s, more, 4 + header);
        var total := 4 + header + 4 + U32(s, 4 + header);
        if |s| >= total {
          assert (s + more)[4..4 + header] == s[4..4 + header];
          assert (s + more)[4 + header + 4..total] == s[4 + header + 4..total];
        }
      }
    }
  }

  lemma SameU32(s: Bytes, more: Bytes, at: nat)
    requires at + 4 <= |s|
    ensures U32(s + more, at) == U32(s, at)
  {
    assert forall k | at <= k < at + 4 :: (s + more)[k] == s[k];
  }

  /** Scanning a longer stream finds what scanning its beginning found, and then what the rest holds. */
  lemma {:induction false} ScanSplit(s: Bytes, more: Bytes, json: Json)
    ensures var a := ScanAll(s, json);
      ScanAll(s + more, json)
      == if a.bad then a
         else var b := ScanAll(a.rest + more, json); Scan(a.frames + b.frames, b.bad, b.rest)
    decreases |s|
  {
    hide First;
    FirstStable(s, more);
    var k := First(s);
    if k.Got? && !json(k.frame.header).Malformed? {
      assert (s + more)[k.total..] == s[k.total..] + more;
      ScanSplit(s[k.total..], more, json);
      PrependFrames(k.frame, ScanAll(s[k.total..], json), more, json);
    }
  }

  lemma PrependFrames(f: Frame, a: Scan, more: Bytes, json: Json)
    ensures var b := ScanAll(a.rest + more, json); [f] + (a.frames + b.frames) == ([f] + a.frames) + b.frames
  {}

  // ------------------------------------------------------------ round trip

  /** A frame the protocol allows: sizes in range and a header that parses. */
  ghost predicate Sendable(f: Frame, json: Json) {
    0 < |f.header| <= MAX_HEADER && |f.payload| <= MAX_PAYLOAD && !json(f.header).Malformed?
  }

  function EncodedAll(frames: seq<Frame>): Bytes {
    if frames == [] then [] else Encoded(frames[0]) + EncodedAll(frames[1..])
  }

  lemma FirstOfEncoded(f: Frame, more: Bytes)
    requires 0 < |f.header| <= MAX_HEADER && |f.payload| <= MAX_PAYLOAD
    ensures First(Encoded(f) + more) == Got(f, |Encoded(f)|)
    ensures (Encoded(f) + more)[|Encoded(f)|..] == more
  {
    hide U32, LittleEndian;
    var h, p := LittleEndian(|f.header|), LittleEndian(|f.payload|);
    var s := Encoded(f) + more;
    assert s == [] + h + (f.header + p + f.payload + more);
    U32Back(|f.header|, [], f.header + p + f.payload + more);
    assert s == (h + f.header) + p + (f.payload + more);
    U32Back(|f.payload|, h + f.header, f.payload + more);
    assert s[4..4 + |f.header|] == f.header;
    assert s[4 + |f.header| + 4..|Encoded(f)|] == f.payload;
  }

  /** Any sequence of frames within the limits comes out as it went in, and what follows is still to come. */
  lemma {:induction false} ScanOfEncoded(frames: seq<Frame>, more: Bytes, json: Json)
    requires forall f | f in frames :: Sendable(f, json)
    ensures var rest := ScanAll(more, json);
      ScanAll(EncodedAll(frames) + more, json) == Scan(frames + rest.frames, rest.bad, rest.rest)
  {
    hide First, Encoded, Sendable;
    if frames == [] {
      assert [] + more == more;
    } else {
      var first, others := frames[0], frames[1..];
      assert first in frames && frames == [first] + others;
      ScanOfEncoded(others, more, json);
      OneMore(first, EncodedAll(others), more, json);
      assert EncodedAll(frames) == Encoded(first) + EncodedAll(others);
      assert [first] + (others + ScanAll(more, json).frames) == frames + ScanAll(more, json).frames;
    }
  }

  lemma OneMore(f: Frame, others: Bytes, more: Bytes, json: Json)
    requires Sendable(f, json)
    ensures var scan := ScanAll(others + more, json);
      ScanAll(Encoded(f) + others + more, json) == Scan([f] + scan.frames, scan.bad, scan.rest)
  {
    hide First, Encoded;
    assert Encoded(f) + others + more == Encoded(f) + (others + more);
    FirstOfEncoded(f, others + more);
  }

  /** Frames that arrive whole are delivered exactly, with nothing left over. */
  lemma RoundTrip(frames: seq<Frame>, json: Json)
    requires forall f | f in frames :: Sendable(f, json)
    ensures ScanAll(EncodedAll(frames), json) == Scan(frames, false, [])
  {
    ScanOfEncoded(frames, [], json);
    assert EncodedAll(frames) + [] == EncodedAll(frames);
    assert First([]) == Wait(8);
  }
}
