/**
 * The orientation tag of an EXIF block (section 2 of TIFF 6.0), read and put back to upright.
 */
module Exif {
  import opened ByteStrings
  import opened Options
  import opened Orientations
  import J = JpegMarkers

  const ORIENTATION_TAG := 0x0112

  /** An application segment that carries an EXIF block of at least one byte. */
  predicate Carries(s: J.Segment) {
    s.marker == 0xE1 && |s.payload| > 6 && s.payload[..6] == [69, 120, 105, 102, 0, 0]
  }

  /** The block of the first such segment. */
  function FirstBlock(segments: seq<J.Segment>): Bytes {
    if segments == [] then []
    else if Carries(segments[0]) then segments[0].payload[6..]
    else FirstBlock(segments[1..])
  }

  method ExtractJpegExif(bytes: Bytes) returns (exif: Bytes)
    ensures exif == FirstBlock(J.Segments(bytes))
  {
    var visited := J.ForEachJpegSegment(bytes, s => !Carries(s));
    exif := [];
    for k := 0 to |visited|
      invariant FirstBlock(visited) == (if exif == [] then FirstBlock(visited[k..]) else exif)
    {
      if exif == [] && Carries(visited[k]) { exif := visited[k].payload[6..]; }
      assert visited[k..][1..] == visited[k + 1..];
    }
    StopsAtBlock(J.Segments(bytes));
  }

  lemma {:induction false} StopsAtBlock(segments: seq<J.Segment>)
    ensures FirstBlock(J.Visited(segments, s => !Carries(s))) == FirstBlock(segments)
  {
    if segments != [] {
      StopsAtBlock(segments[1..]);
      J.VisitedCons(segments[0], segments[1..], s => !Carries(s));
      assert segments == [segments[0]] + segments[1..];
    }
  }

  /** The first block of a written file is found whatever follows it, also when that is another block. */
  lemma BlockBack(items: seq<J.Item>, tail: Bytes, before: seq<J.Segment>, s: J.Segment, after: seq<J.Segment>)
    requires (forall i | i in items :: J.Writable(i)) && J.Ends(tail) && |tail| >= 2
    requires J.SegmentsOf(items) == before + [s] + after && Carries(s) && forall b | b in before :: !Carries(b)
    ensures FirstBlock(J.Segments(J.FileBytes(items, tail))) == s.payload[6..]
  {
    J.SegmentsWritten(items, tail);
    SkipsOthers(before, s, after);
  }

  lemma {:induction false} SkipsOthers(before: seq<J.Segment>, s: J.Segment, after: seq<J.Segment>)
    requires Carries(s) && forall b | b in before :: !Carries(b)
    ensures FirstBlock(before + [s] + after) == s.payload[6..]
  {
    var all := before + [s] + after;
    if before != [] {
      assert all[1..] == before[1..] + [s] + after;
      SkipsOthers(before[1..], s, after);
    }
  }

  function U16(s: Bytes, at: nat, little: bool): (v: nat)
    requires at + 2 <= |s|
    ensures v < 0x1_0000
  {
    if little then s[at] as int + 256 * s[at + 1] as int else 256 * s[at] as int + s[at + 1] as int
  }

  function U32(s: Bytes, at: nat, little: bool): (v: nat)
    requires at + 4 <= |s|
    ensures v < 0x1_0000_0000
  {
    if little then U16(s, at, true) + 0x1_0000 * U16(s, at + 2, true)
    else 0x1_0000 * U16(s, at, false) + U16(s, at + 2, false)
  }

  predicate Little(s: Bytes)
    requires |s| >= 8
  {
    s[0] == 73 && s[1] == 73
  }

  /** A TIFF header in either byte order. */
  predicate Headed(s: Bytes) {
    |s| >= 8 && (Little(s) || (s[0] == 77 && s[1] == 77)) && U16(s, 2, Little(s)) == 0x2A
  }

  function Directory(s: Bytes): nat
    requires Headed(s)
  {
    U32(s, 4, Little(s))
  }

  /** The source's guard: the end of the entry count, worked out in 32 bits, is not past the end of the block. */
  predicate Passes(s: Bytes)
    requires Headed(s)
  {
    (Directory(s) + 2) % 0x1_0000_0000 <= |s|
  }

  /** What the guard lets through is there to be read. */
  predicate ReadsInside(s: Bytes) {
    Headed(s) && Passes(s) ==> Directory(s) + 2 <= |s|
  }

  /** The guard does its work unless the offset is one of the last two 32-bit numbers, past the end of the block. */
  lemma ReadsInsideIff(s: Bytes)
    ensures ReadsInside(s) <==> (Headed(s) && Directory(s) in {0xFFFF_FFFE, 0xFFFF_FFFF} ==> Directory(s) + 2 <= |s|)
  {
    if Headed(s) {
      var d := Directory(s) + 2;
      if d < 0x1_0000_0000 {
        assert d % 0x1_0000_0000 == d;
      } else {
        assert d % 0x1_0000_0000 == d - 0x1_0000_0000;
      }
    }
  }

  /** A header alone, with such an offset. */
  lemma GuardPassesWrongly()
    ensures var s: Bytes := [73, 73, 0x2A, 0, 0xFE, 0xFF, 0xFF, 0xFF]; Headed(s) && Passes(s) && !ReadsInside(s)
  {
    var s: Bytes := [73, 73, 0x2A, 0, 0xFE, 0xFF, 0xFF, 0xFF];
    assert U16(s, 4, true) == 0xFFFE && U16(s, 6, true) == 0xFFFF;
    assert Directory(s) == 0xFFFF_FFFE;
  }

  /** The offset of the first orientation entry from entry `i` on, if there is one inside the block. */
  function EntryFrom(s: Bytes, little: bool, directory: nat, count: nat, i: nat): (e: int)
    requires i <= count
    ensures e == -1 || (directory + 2 <= e && e + 12 <= |s| && U16(s, e, little) == ORIENTATION_TAG)
    decreases count - i
  {
    var entry := directory + 2 + i * 12;
    if i == count || entry + 12 > |s| then -1
    else if U16(s, entry, little) == ORIENTATION_TAG then entry
    else EntryFrom(s, little, directory, count, i + 1)
  }

  function Entry(s: Bytes): (e: int)
    ensures e == -1 || (Headed(s) && Directory(s) + 2 <= e && e + 12 <= |s|)
  {
    if !Headed(s) || Directory(s) + 2 > |s| then -1
    else EntryFrom(s, Little(s), Directory(s), U16(s, Directory(s), Little(s)), 0)
  }

  function OrientationOf(s: Bytes): Orientation {
    var e := Entry(s);
    if e < 0 then TopLeft else FromInt(U16(s, e + 8, Little(s)))
  }

  /** One step of the search. */
  lemma EntryAt(s: Bytes, little: bool, directory: nat, count: nat, i: nat)
    requires i <= count
    ensures var entry, found := directory + 2 + i * 12, EntryFrom(s, little, directory, count, i);
      if i == count || entry + 12 > |s| then found == -1
      else if U16(s, entry, little) == ORIENTATION_TAG then found == entry
      else found == EntryFrom(s, little, directory, count, i + 1)
  {}

  /** None stands for a read outside the block, of which nothing can be said. */
  method ReadOrientation(exif: Bytes) returns (o: Option<Orientation>)
    ensures o == if ReadsInside(exif) then Some(OrientationOf(exif)) else None
  {
    hide U16, U32, EntryFrom, FromInt;
    if |exif| < 8 { return Some(TopLeft); }
    var little := false;
    if exif[0] == 73 && exif[1] == 73 {
      little := true;
    } else if !(exif[0] == 77 && exif[1] == 77) {
      return Some(TopLeft);
    }
    if U16(exif, 2, little) != 0x2A { return Some(TopLeft); }
    var directory := U32(exif, 4, little);
    if (directory + 2) % 0x1_0000_0000 > |exif| { return Some(TopLeft); }
    if directory + 2 > |exif| { return None; }
    var count := U16(exif, directory, little);
    EntryAt(exif, little, directory, count, count);
    for i := 0 to count
      invariant EntryFrom(exif, little, directory, count, i) == Entry(exif)
    {
      EntryAt(exif, little, directory, count, i);
      var entry := directory + 2 + i * 12;
      if entry + 12 > |exif| { break; }
      if U16(exif, entry, little) != ORIENTATION_TAG { continue; }
      return Some(FromInt(U16(exif, entry + 8, little)));
    }
    o := Some(TopLeft);
  }

  /** The block with its orientation entry, if it has one, set to one. */
  function Normalized(s: Bytes): (r: Bytes)
    ensures |r| == |s|
  {
    var e := Entry(s);
    if e < 0 then s else s[e + 8 := if Little(s) then 1 else 0][e + 9 := if Little(s) then 0 else 1]
  }

  /** When `inside` is false the source reads outside the block, and nothing can be said of what it does. */
  method NormalizeOrientationTag(exif: array<Byte>) returns (inside: bool)
    modifies exif
    ensures inside == ReadsInside(old(exif[..]))
    ensures exif[..] == if inside then Normalized(old(exif[..])) else old(exif[..])
  {
    hide U16, U32, EntryFrom;
    ghost var s := exif[..];
    inside := true;
    if exif.Length < 8 { return; }
    var little := false;
    if exif[0] == 73 && exif[1] == 73 {
      little := true;
    } else if !(exif[0] == 77 && exif[1] == 77) {
      return;
    }
    if U16(exif[..], 2, little) != 0x2A { return; }
    var directory := U32(exif[..], 4, little);
    if (directory + 2) % 0x1_0000_0000 > exif.Length { return; }
    if directory + 2 > exif.Length { return false; }
    var count := U16(exif[..], directory, little);
    EntryAt(s, little, directory, count, count);
    for i := 0 to count
      invariant exif[..] == s && EntryFrom(s, little, directory, count, i) == Entry(s)
    {
      EntryAt(s, little, directory, count, i);
      var entry := directory + 2 + i * 12;
      if entry + 12 > exif.Length { break; }
      if U16(exif[..], entry, little) != ORIENTATION_TAG { continue; }
      exif[entry + 8] := if little then 1 else 0;
      exif[entry + 9] := if little then 0 else 1;
      assert exif[..] == Normalized(s);
      return;
    }
  }

  // ------------------------------------------------------------ what it keeps

  /** Nothing before the written bytes has changed. */
  lemma U16Same(s: Bytes, r: Bytes, at: nat, little: bool, limit: nat)
    requires |r| == |s| && at + 2 <= limit <= |s| && r[..limit] == s[..limit]
    ensures U16(r, at, little) == U16(s, at, little)
  {
    assert r[at] == r[..limit][at] && r[at + 1] == r[..limit][at + 1];
  }

  lemma {:induction false} EntrySame(s: Bytes, r: Bytes, little: bool, directory: nat, count: nat, i: nat, limit: nat)
    requires i <= count && |r| == |s| && limit <= |s| && r[..limit] == s[..limit]
    requires EntryFrom(s, little, directory, count, i) + 2 <= limit && EntryFrom(s, little, directory, count, i) >= 0
    ensures EntryFrom(r, little, directory, count, i) == EntryFrom(s, little, directory, count, i)
    decreases count - i
  {
    hide U16;
    var entry := directory + 2 + i * 12;
    EntryOrder(s, little, directory, count, i);
    U16Same(s, r, entry, little, limit);
    if U16(s, entry, little) != ORIENTATION_TAG { EntrySame(s, r, little, directory, count, i + 1, limit); }
  }

  lemma {:induction false} EntryOrder(s: Bytes, little: bool, directory: nat, count: nat, i: nat)
    requires i <= count && EntryFrom(s, little, directory, count, i) >= 0
    ensures i < count && directory + 2 + i * 12 <= EntryFrom(s, little, directory, count, i)
    decreases count - i
  {
    hide U16;
    var entry := directory + 2 + i * 12;
    if U16(s, entry, little) != ORIENTATION_TAG { EntryOrder(s, little, directory, count, i + 1); }
  }

  /** The header, the count of entries and the entry itself are found where they were. */
  lemma NormalizedEntry(s: Bytes)
    requires Entry(s) >= 0
    ensures var r := Normalized(s); Headed(r) && Little(r) == Little(s) && Entry(r) == Entry(s)
  {
    hide U16, EntryFrom, FromInt;
    var r, e := Normalized(s), Entry(s);
    var limit := e + 8;
    assert r[..limit] == s[..limit];
    U16Same(s, r, 2, Little(s), limit);
    U16Same(s, r, 4, Little(s), limit);
    U16Same(s, r, 6, Little(s), limit);
    assert r[0] == s[0] && r[1] == s[1];
    assert Directory(r) == Directory(s);
    U16Same(s, r, Directory(s), Little(s), limit);
    EntrySame(s, r, Little(s), Directory(s), U16(s, Directory(s), Little(s)), 0, limit);
  }

  /**
   * After normalising, the block reads as upright, whatever it was, and at most the
   * two bytes of the orientation value have changed.
   */
  lemma NormalizedIsUpright(s: Bytes)
    ensures OrientationOf(Normalized(s)) == TopLeft
    ensures forall k | 0 <= k < |s| && !(Entry(s) >= 0 && Entry(s) + 8 <= k <= Entry(s) + 9) :: Normalized(s)[k] == s[k]
  {
    hide Entry, EntryFrom;
    if Entry(s) >= 0 {
      NormalizedEntry(s);
      var r := Normalized(s);
      assert U16(r, Entry(s) + 8, Little(s)) == 1;
    }
  }

  /** Once is enough. */
  lemma NormalizedTwice(s: Bytes)
    ensures Normalized(Normalized(s)) == Normalized(s)
  {
    hide Entry, EntryFrom;
    if Entry(s) >= 0 { NormalizedEntry(s); }
  }
}
