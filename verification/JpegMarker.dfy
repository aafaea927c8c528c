/**
 * The marker segments of a JPEG file, and an ICC profile split over several of them
 * (section B.1.1.4 of ITU-T T.81; Annex B.4 of ICC.1).
 */
module JpegMarkers {
  import opened ByteStrings

  datatype Segment = Segment(marker: Byte, payload: Bytes)

  const MAX_PAYLOAD: nat := 65533

  /** Markers without a length. */
  predicate Standalone(marker: Byte) { marker == 0xD8 || marker == 0x01 || 0xD0 <= marker <= 0xD7 }

  /** Start of scan or end of image: what follows is not segments. */
  predicate Final(marker: Byte) { marker == 0xDA || marker == 0xD9 }

  /** The segments from some point of a file on, up to the scan or the first thing that is not a segment. */
  function Walk(rest: Bytes): seq<Segment>
    decreases |rest|
  {
    if |rest| < 4 || rest[0] != 0xFF then []
    else if Standalone(rest[1]) then Walk(rest[2..])
    else if Final(rest[1]) then []
    else
      var length := rest[2] as int * 256 + rest[3] as int;
      if length < 2 || 2 + length > |rest| then []
      else [Segment(rest[1], rest[4..2 + length])] + Walk(rest[2 + length..])
  }

  function Segments(bytes: Bytes): seq<Segment> {
    if |bytes| < 4 || bytes[0] != 0xFF || bytes[1] != 0xD8 then [] else Walk(bytes[2..])
  }

  /** The segments a visitor sees: all of them, or up to and with the first after which it wants no more. */
  function Visited(segments: seq<Segment>, more: Segment -> bool): seq<Segment> {
    if segments == [] then []
    else [segments[0]] + (if more(segments[0]) then Visited(segments[1..], more) else [])
  }

  method ForEachJpegSegment(bytes: Bytes, more: Segment -> bool) returns (visited: seq<Segment>)
    ensures visited == Visited(Segments(bytes), more)
  {
    hide Walk, Standalone, Final, Visited, Segments;
    visited := [];
    SegmentsAre(bytes, more);
    if |bytes| < 4 || bytes[0] != 0xFF || bytes[1] != 0xD8 { return; }
    var offset := 2;
    while offset + 4 <= |bytes|
      invariant offset <= |bytes| && Visited(Segments(bytes), more) == visited + Visited(Walk(bytes[offset..]), more)
      decreases |bytes| - offset
    {
      VisitAt(bytes, offset, more);
      if bytes[offset] != 0xFF { return; }
      var marker := bytes[offset + 1];
      if Standalone(marker) {
        offset := offset + 2;
        continue;
      }
      if Final(marker) { return; }
      var length := bytes[offset + 2] as int * 256 + bytes[offset + 3] as int;
      if length < 2 || offset + 2 + length > |bytes| { return; }
      var segment := Segment(marker, bytes[offset + 4..offset + 2 + length]);
      visited := visited + [segment];
      if !more(segment) { return; }
      offset := offset + 2 + length;
    }
    VisitEnds(bytes[offset..], more);
  }

  lemma SegmentsAre(bytes: Bytes, more: Segment -> bool)
    ensures if |bytes| < 4 || bytes[0] != 0xFF || bytes[1] != 0xD8 then Visited(Segments(bytes), more) == []
            else Segments(bytes) == Walk(bytes[2..])
  {}

  /** What the visitor sees from some point on. */
  lemma VisitAt(bytes: Bytes, at: nat, more: Segment -> bool)
    requires at + 4 <= |bytes|
    ensures var length := bytes[at + 2] as int * 256 + bytes[at + 3] as int;
      var seen := Visited(Walk(bytes[at..]), more);
      if bytes[at] != 0xFF then seen == []
      else if Standalone(bytes[at + 1]) then seen == Visited(Walk(bytes[at + 2..]), more)
      else if Final(bytes[at + 1]) || length < 2 || at + 2 + length > |bytes| then seen == []
      else
        var s := Segment(bytes[at + 1], bytes[at + 4..at + 2 + length]);
        seen == [s] + (if more(s) then Visited(Walk(bytes[at + 2 + length..]), more) else [])
  {
    hide Walk, Standalone, Final;
    WalkAt(bytes, at);
    var length := bytes[at + 2] as int * 256 + bytes[at + 3] as int;
    if length >= 2 && at + 2 + length <= |bytes| {
      VisitedCons(Segment(bytes[at + 1], bytes[at + 4..at + 2 + length]), Walk(bytes[at + 2 + length..]), more);
    }
  }

  lemma VisitEnds(rest: Bytes, more: Segment -> bool)
    ensures |rest| < 4 ==> Visited(Walk(rest), more) == []
  {}

  lemma VisitedCons(s: Segment, rest: seq<Segment>, more: Segment -> bool)
    ensures Visited([s] + rest, more) == [s] + (if more(s) then Visited(rest, more) else [])
  {
    assert ([s] + rest)[1..] == rest;
  }

  lemma {:induction false} VisitedAll(segments: seq<Segment>, more: Segment -> bool)
    requires forall s | s in segments :: more(s)
    ensures Visited(segments, more) == segments
  {
    if segments != [] { VisitedAll(segments[1..], more); }
  }

  /** One step of the walk, in place. */
  lemma WalkAt(bytes: Bytes, at: nat)
    requires at + 4 <= |bytes|
    ensures var length := bytes[at + 2] as int * 256 + bytes[at + 3] as int;
      Walk(bytes[at..]) ==
        if bytes[at] != 0xFF then []
        else if Standalone(bytes[at + 1]) then Walk(bytes[at + 2..])
        else if Final(bytes[at + 1]) || length < 2 || at + 2 + length > |bytes| then []
        else [Segment(bytes[at + 1], bytes[at + 4..at + 2 + length])] + Walk(bytes[at + 2 + length..])
  {
    var rest := bytes[at..];
    var length := bytes[at + 2] as int * 256 + bytes[at + 3] as int;
    assert rest[0] == bytes[at] && rest[1] == bytes[at + 1] && rest[2] == bytes[at + 2] && rest[3] == bytes[at + 3];
    assert rest[2..] == bytes[at + 2..];
    if length >= 2 && at + 2 + length <= |bytes| {
      assert rest[4..2 + length] == bytes[at + 4..at + 2 + length];
      assert rest[2 + length..] == bytes[at + 2 + length..];
    }
  }

  // ------------------------------------------------------------ written files

  /** What may stand before the scan: a segment, or a marker on its own. */
  datatype Item = Marked(segment: Segment) | Alone(marker: Byte)

  predicate Writable(i: Item) {
    match i
    case Marked(s) => !Standalone(s.marker) && !Final(s.marker) && |s.payload| <= MAX_PAYLOAD
    case Alone(m) => Standalone(m)
  }

  function ItemBytes(i: Item): Bytes
    requires Writable(i)
  {
    match i
    case Marked(s) =>
      var length := |s.payload| + 2;
      [0xFF, s.marker, (length / 256) as Byte, (length % 256) as Byte] + s.payload
    case Alone(m) => [0xFF, m]
  }

  function ItemsBytes(items: seq<Item>): Bytes
    requires forall i | i in items :: Writable(i)
  {
    if items == [] then [] else ItemBytes(items[0]) + ItemsBytes(items[1..])
  }

  function SegmentsOf(items: seq<Item>): seq<Segment> {
    if items == [] then []
    else (if items[0].Marked? then [items[0].segment] else []) + SegmentsOf(items[1..])
  }

  /** Where the walk ends: the scan, the end of the image, or the end of the file. */
  predicate Ends(tail: Bytes) {
    |tail| < 4 || tail[0] != 0xFF || Final(tail[1])
  }

  lemma WalkItem(i: Item, rest: Bytes)
    requires Writable(i) && (i.Alone? ==> |rest| >= 2)
    ensures Walk(ItemBytes(i) + rest) == (if i.Marked? then [i.segment] else []) + Walk(rest)
  {
    hide Walk, Standalone, Final;
    var all := ItemBytes(i) + rest;
    assert all[0..] == all;
    WalkAt(all, 0);
    if i.Marked? { WalkMarked(i.segment, rest, all); } else { assert all[2..] == rest; }
  }

  lemma WalkMarked(s: Segment, rest: Bytes, all: Bytes)
    requires Writable(Marked(s)) && all == ItemBytes(Marked(s)) + rest
    ensures |all| >= 4 && all[0] == 0xFF && all[1] == s.marker
    ensures var length := all[2] as int * 256 + all[3] as int;
      length == |s.payload| + 2 && 2 + length <= |all| && all[4..2 + length] == s.payload && all[2 + length..] == rest
  {
    hide Standalone, Final;
    var length := |s.payload| + 2;
    assert length / 256 * 256 + length % 256 == length;
  }

  /** The walk finds the segments that were written, and skips the markers between them. */
  lemma {:induction false} WalkItems(items: seq<Item>, tail: Bytes)
    requires (forall i | i in items :: Writable(i)) && Ends(tail) && |tail| >= 2
    ensures Walk(ItemsBytes(items) + tail) == SegmentsOf(items)
  {
    if items == [] {
      assert ItemsBytes(items) + tail == tail;
    } else {
      var rest := ItemsBytes(items[1..]) + tail;
      assert ItemsBytes(items) + tail == ItemBytes(items[0]) + rest;
      assert items[0] in items;
      WalkItem(items[0], rest);
      WalkItems(items[1..], tail);
    }
  }

  function FileBytes(items: seq<Item>, tail: Bytes): Bytes
    requires forall i | i in items :: Writable(i)
  {
    [0xFF, 0xD8] + ItemsBytes(items) + tail
  }

  lemma SegmentsWritten(items: seq<Item>, tail: Bytes)
    requires (forall i | i in items :: Writable(i)) && Ends(tail) && |tail| >= 2
    ensures Segments(FileBytes(items, tail)) == SegmentsOf(items)
  {
    assert FileBytes(items, tail)[2..] == ItemsBytes(items) + tail;
    WalkItems(items, tail);
  }

  // ------------------------------------------------------------ ICC profiles

  const TAG: Bytes := [73, 67, 67, 95, 80, 82, 79, 70, 73, 76, 69, 0]
  const HEADER_LENGTH := 14
  const MAX_CHUNK := 65519
  const APP2: Byte := 0xE2

  function ChunkCount(icc: Bytes): nat { (|icc| + MAX_CHUNK - 1) / MAX_CHUNK }

  function Chunk(icc: Bytes, k: nat): Bytes
    requires k * MAX_CHUNK <= |icc|
  {
    icc[k * MAX_CHUNK..if (k + 1) * MAX_CHUNK <= |icc| then (k + 1) * MAX_CHUNK else |icc|]
  }

  function ChunkSegment(icc: Bytes, k: nat, count: nat): Segment
    requires k * MAX_CHUNK <= |icc| && k < count <= 255
  {
    Segment(APP2, TAG + [(k + 1) as Byte, count as Byte] + Chunk(icc, k))
  }

  lemma ChunkFits(icc: Bytes, k: nat)
    requires k < ChunkCount(icc)
    ensures k * MAX_CHUNK < |icc| && 0 < |Chunk(icc, k)| <= MAX_CHUNK
  {}

  function FirstSegments(icc: Bytes, n: nat): (r: seq<Segment>)
    requires n <= ChunkCount(icc) <= 255
    ensures |r| == n
  {
    if n == 0 then [] else
    ChunkFits(icc, n - 1);
    FirstSegments(icc, n - 1) + [ChunkSegment(icc, n - 1, ChunkCount(icc))]
  }

  /** Nothing is written for an empty profile, nor for one with more pieces than a byte can count. */
  function IccSegments(icc: Bytes): seq<Segment> {
    if ChunkCount(icc) > 255 then [] else FirstSegments(icc, ChunkCount(icc))
  }

  method WriteIccSegments(icc: Bytes) returns (written: seq<Segment>)
    ensures written == IccSegments(icc)
  {
    written := [];
    if icc == [] { return; }
    var chunks := (|icc| + MAX_CHUNK - 1) / MAX_CHUNK;
    if chunks > 255 { return; }
    for index := 0 to chunks
      invariant written == FirstSegments(icc, index)
    {
      ChunkFits(icc, index);
      var offset := index * MAX_CHUNK;
      var length := if MAX_CHUNK < |icc| - offset then MAX_CHUNK else |icc| - offset;
      var segment := TAG + [(index + 1) as Byte] + [chunks as Byte];
      segment := segment + icc[offset..offset + length];
      assert segment == TAG + [(index + 1) as Byte, chunks as Byte] + Chunk(icc, index);
      written := written + [Segment(APP2, segment)];
    }
  }

  /** A segment the reader takes for a piece of a profile. */
  predicate IsPiece(s: Segment) {
    && s.marker == APP2 && |s.payload| > HEADER_LENGTH && s.payload[..12] == TAG
    && s.payload[12] != 0 && s.payload[13] != 0 && s.payload[12] <= s.payload[13]
  }

  function Resized(pieces: seq<Bytes>, count: nat): (r: seq<Bytes>)
    ensures |r| == (if |pieces| < count then count else |pieces|)
    ensures forall k | 0 <= k < |r| :: r[k] == if k < |pieces| then pieces[k] else []
  {
    if |pieces| < count then pieces + seq(count - |pieces|, _ => []) else pieces
  }

  function Collected(segments: seq<Segment>): seq<Bytes> {
    if segments == [] then [] else
    var before, s := Collected(segments[..|segments| - 1]), segments[|segments| - 1];
    if !IsPiece(s) then before
    else Resized(before, s.payload[13] as nat)[s.payload[12] as nat - 1 := s.payload[HEADER_LENGTH..]]
  }

  /** The pieces one after another, or nothing when one is missing. */
  function Joined(pieces: seq<Bytes>): Bytes {
    if exists k :: 0 <= k < |pieces| && pieces[k] == [] then [] else Concat(pieces)
  }

  function Concat(pieces: seq<Bytes>): Bytes {
    if pieces == [] then [] else Concat(pieces[..|pieces| - 1]) + pieces[|pieces| - 1]
  }

  function Profile(segments: seq<Segment>): Bytes { Joined(Collected(segments)) }

  method ExtractIcc(bytes: Bytes) returns (icc: Bytes)
    ensures icc == Profile(Segments(bytes))
  {
    hide Visited, Segments;
    var every := (_: Segment) => true;
    var segments := ForEachJpegSegment(bytes, every);
    VisitedAll(Segments(bytes), every);
    var chunks := CollectChunks(segments);
    icc := [];
    for k := 0 to |chunks|
      invariant icc == Concat(chunks[..k]) && forall j | 0 <= j < k :: chunks[j] != []
    {
      if chunks[k] == [] { return []; }
      assert chunks[..k + 1][..k] == chunks[..k];
      icc := icc + chunks[k];
    }
    assert chunks[..|chunks|] == chunks;
  }

  /** What the visitor does with each segment in turn. */
  method CollectChunks(segments: seq<Segment>) returns (chunks: seq<Bytes>)
    ensures chunks == Collected(segments)
  {
    chunks := [];
    for k := 0 to |segments|
      invariant chunks == Collected(segments[..k])
    {
      assert segments[..k + 1][..k] == segments[..k];
      var s := segments[k];
      if s.marker != APP2 || |s.payload| <= HEADER_LENGTH { continue; }
      if s.payload[..12] != TAG { continue; }
      var sequence, count := s.payload[12] as nat, s.payload[13] as nat;
      if sequence == 0 || count == 0 || sequence > count { continue; }
      if |chunks| < count { chunks := Resized(chunks, count); }
      chunks := chunks[sequence - 1 := s.payload[HEADER_LENGTH..]];
    }
    assert segments[..|segments|] == segments;
  }

  // ------------------------------------------------------------- round trip

  lemma PieceIs(icc: Bytes, k: nat, count: nat)
    requires k < count == ChunkCount(icc) <= 255
    ensures k * MAX_CHUNK <= |icc| && var s := ChunkSegment(icc, k, count);
      IsPiece(s) && s.payload[12] as int == k + 1 && s.payload[13] as int == count && |s.payload| <= MAX_PAYLOAD
      && s.payload[HEADER_LENGTH..] == Chunk(icc, k)
  {
    ChunkFits(icc, k);
    var s := ChunkSegment(icc, k, count);
    assert s.payload[..12] == TAG;
    assert s.payload[HEADER_LENGTH..] == Chunk(icc, k);
  }

  /** What Annex B.4 of ICC.1 asks of a piece: its marker, its name closed by a zero, its number, and how many. */
  lemma PieceLayout(icc: Bytes, k: nat)
    requires k < ChunkCount(icc) <= 255
    ensures IccSegments(icc)[k].marker == 0xE2
    ensures var s := IccSegments(icc)[k].payload;
      && |s| > 14 && (forall i | 0 <= i < 11 :: s[i] as int == "ICC_PROFILE"[i] as int) && s[11] == 0
      && s[12] as int == k + 1 && s[13] as int == ChunkCount(icc)
      && s[14..] == icc[k * 65519..if (k + 1) * 65519 <= |icc| then (k + 1) * 65519 else |icc|]
  {
    hide FirstSegments, ChunkCount;
    PieceAt(icc, ChunkCount(icc), k);
    PieceIs(icc, k, ChunkCount(icc));
    ChunkFits(icc, k);
  }

  lemma {:induction false} PieceAt(icc: Bytes, n: nat, k: nat)
    requires k < n <= ChunkCount(icc) <= 255
    ensures k * MAX_CHUNK <= |icc| && FirstSegments(icc, n)[k] == ChunkSegment(icc, k, ChunkCount(icc))
  {
    hide ChunkSegment;
    ChunkFits(icc, n - 1);
    if k < n - 1 { PieceAt(icc, n - 1, k); }
  }

  lemma {:induction false} FirstSegmentsAre(icc: Bytes, n: nat, s: Segment)
    requires n <= ChunkCount(icc) <= 255
    ensures s in FirstSegments(icc, n)
       <==> exists k: nat :: k < n && k * MAX_CHUNK <= |icc| && s == ChunkSegment(icc, k, ChunkCount(icc))
  {
    if n > 0 {
      ChunkFits(icc, n - 1);
      FirstSegmentsAre(icc, n - 1, s);
    }
  }

  /** The pieces met so far are in place and the others are empty. */
  ghost predicate Gathered(segments: seq<Segment>, icc: Bytes, count: nat)
    requires count == ChunkCount(icc) <= 255
  {
    var pieces := Collected(segments);
    && (pieces == [] ==> forall s | s in segments :: !IsPiece(s))
    && (pieces != [] ==> |pieces| == count)
    && forall k | 0 <= k < |pieces| ::
         k * MAX_CHUNK <= |icc| && pieces[k] == if ChunkSegment(icc, k, count) in segments then Chunk(icc, k) else []
  }

  lemma {:induction false} GathersPieces(segments: seq<Segment>, icc: Bytes, count: nat)
    requires count == ChunkCount(icc) <= 255
    requires forall s | s in segments && IsPiece(s) :: s in FirstSegments(icc, count)
    ensures Gathered(segments, icc, count)
  {
    hide IsPiece, Chunk, ChunkSegment, FirstSegments, ChunkCount, Resized;
    if segments != [] {
      var n := |segments| - 1;
      var s := segments[n];
      assert segments == segments[..n] + [s];
      GathersPieces(segments[..n], icc, count);
      if IsPiece(s) {
        FirstSegmentsAre(icc, count, s);
        var j: nat :| j < count && j * MAX_CHUNK <= |icc| && s == ChunkSegment(icc, j, count);
        GathersPiece(segments[..n], s, icc, count, j);
      } else {
        GathersOther(segments[..n], s, icc, count);
      }
    }
  }

  lemma GathersOther(before: seq<Segment>, s: Segment, icc: Bytes, count: nat)
    requires count == ChunkCount(icc) <= 255 && Gathered(before, icc, count) && !IsPiece(s)
    ensures Gathered(before + [s], icc, count)
  {
    hide Chunk, ChunkCount, IsPiece, ChunkSegment;
    assert (before + [s])[..|before|] == before;
    var pieces := Collected(before);
    forall k | 0 <= k < |pieces| ensures s != ChunkSegment(icc, k, count) { PieceIs(icc, k, count); }
  }

  lemma GathersPiece(before: seq<Segment>, s: Segment, icc: Bytes, count: nat, j: nat)
    requires count == ChunkCount(icc) <= 255 && Gathered(before, icc, count)
    requires j < count && j * MAX_CHUNK <= |icc| && s == ChunkSegment(icc, j, count)
    ensures Gathered(before + [s], icc, count)
  {
    hide Chunk, ChunkCount, IsPiece, ChunkSegment;
    assert (before + [s])[..|before|] == before;
    PieceIs(icc, j, count);
    var pieces, after := Collected(before), Collected(before + [s]);
    assert after == Resized(pieces, count)[j := Chunk(icc, j)];
    forall k | 0 <= k < count
      ensures k * MAX_CHUNK <= |icc|
        && after[k] == if ChunkSegment(icc, k, count) in before + [s] then Chunk(icc, k) else []
    {
      PieceIs(icc, k, count);
      if pieces == [] { assert ChunkSegment(icc, k, count) !in before; }
    }
  }

  /** The chunks of a profile put together are the profile. */
  lemma {:induction false} ChunksJoin(icc: Bytes, pieces: seq<Bytes>)
    requires |pieces| <= ChunkCount(icc)
    requires forall k | 0 <= k < |pieces| :: k * MAX_CHUNK <= |icc| && pieces[k] == Chunk(icc, k)
    ensures Concat(pieces) == icc[..if |pieces| * MAX_CHUNK <= |icc| then |pieces| * MAX_CHUNK else |icc|]
  {
    if pieces != [] {
      var n := |pieces| - 1;
      ChunkFits(icc, n);
      ChunksJoin(icc, pieces[..n]);
    }
  }

  /**
   * A profile of up to 255 full pieces comes back the same, in whatever order its
   * segments stand, however often, and whatever other segments stand between them.
   */
  lemma ProfileBack(icc: Bytes, segments: seq<Segment>)
    requires ChunkCount(icc) <= 255
    requires forall s | s in segments && IsPiece(s) :: s in IccSegments(icc)
    requires forall s | s in IccSegments(icc) :: s in segments
    ensures Profile(segments) == icc
  {
    hide IsPiece, Chunk, ChunkSegment, FirstSegments, ChunkCount;
    var count := ChunkCount(icc);
    GathersPieces(segments, icc, count);
    var pieces := Collected(segments);
    CountIs(icc);
    if count == 0 {
      assert pieces == [];
    } else {
      AllIn(icc, segments, count);
      ChunkSegmentsMet(icc, count, 0);
      PieceIs(icc, 0, count);
      assert pieces != [];
      forall k | 0 <= k < count ensures k * MAX_CHUNK <= |icc| && pieces[k] == Chunk(icc, k) && pieces[k] != [] {
        ChunkFits(icc, k);
      }
      ChunksJoin(icc, pieces);
    }
  }

  lemma CountIs(icc: Bytes)
    ensures ChunkCount(icc) == 0 <==> icc == []
    ensures ChunkCount(icc) * MAX_CHUNK >= |icc|
  {}

  lemma ChunkSegmentsMet(icc: Bytes, count: nat, k: nat)
    requires k < count == ChunkCount(icc) <= 255
    ensures k * MAX_CHUNK <= |icc| && ChunkSegment(icc, k, count) in FirstSegments(icc, count)
  {
    hide Chunk, ChunkSegment, FirstSegments;
    ChunkFits(icc, k);
    FirstSegmentsAre(icc, count, ChunkSegment(icc, k, count));
  }

  lemma AllIn(icc: Bytes, segments: seq<Segment>, count: nat)
    requires count == ChunkCount(icc) <= 255 && forall s | s in FirstSegments(icc, count) :: s in segments
    ensures forall k: nat | k < count :: k * MAX_CHUNK <= |icc| && ChunkSegment(icc, k, count) in segments
  {
    hide Chunk, ChunkSegment, FirstSegments, ChunkCount;
    forall k: nat | k < count ensures k * MAX_CHUNK <= |icc| && ChunkSegment(icc, k, count) in segments {
      ChunkSegmentsMet(icc, count, k);
    }
  }

  /** Written into a file that has no other profile, a profile reads back exactly when it has at most 255 pieces. */
  lemma FileBack(icc: Bytes, items: seq<Item>, tail: Bytes)
    requires (forall i | i in items :: Writable(i)) && Ends(tail) && |tail| >= 2
    requires forall s | s in SegmentsOf(items) && IsPiece(s) :: s in IccSegments(icc)
    requires forall s | s in IccSegments(icc) :: s in SegmentsOf(items)
    ensures Profile(Segments(FileBytes(items, tail))) == icc <==> |icc| <= 255 * MAX_CHUNK
  {
    hide IsPiece, Profile, Segments, FileBytes, FirstSegments, Writable;
    SegmentsWritten(items, tail);
    if ChunkCount(icc) <= 255 {
      ProfileBack(icc, SegmentsOf(items));
    } else {
      NoProfile(SegmentsOf(items));
    }
  }

  lemma {:induction false} NoPieces(segments: seq<Segment>)
    requires forall s | s in segments :: !IsPiece(s)
    ensures Collected(segments) == []
  {
    if segments != [] { NoPieces(segments[..|segments| - 1]); }
  }

  lemma NoProfile(segments: seq<Segment>)
    requires forall s | s in segments :: !IsPiece(s)
    ensures Profile(segments) == []
  {
    hide IsPiece;
    NoPieces(segments);
  }
}
