/**
 * EXIF blocks as section 2 of TIFF 6.0 lays them out, written here and read back: in
 * either byte order, with the directory anywhere, and any entries around the orientation.
 */
module ExifBlocks {
  import opened ByteStrings
  import opened Exif
  import opened Options
  import opened Orientations

  /** A directory entry: its tag and the ten bytes after it, of which the last four hold the value. */
  datatype Entry = Entry(tag: nat, rest: Bytes) {
    ghost predicate Valid() { tag < 0x1_0000 && |rest| == 10 }
  }

  function Short(v: nat, little: bool): (s: Bytes)
    requires v < 0x1_0000
    ensures |s| == 2 && U16(s, 0, little) == v
  {
    var low, high := (v % 256) as Byte, (v / 256) as Byte;
    if little then [low, high] else [high, low]
  }

  function Long(v: nat, little: bool): (s: Bytes)
    requires v < 0x1_0000_0000
    ensures |s| == 4
  {
    var low, high := Short(v % 0x1_0000, little), Short(v / 0x1_0000, little);
    if little then low + high else high + low
  }

  function EntryBytes(e: Entry, little: bool): (s: Bytes)
    requires e.Valid()
    ensures |s| == 12
  {
    Short(e.tag, little) + e.rest
  }

  ghost predicate AllValid(entries: seq<Entry>) { forall e | e in entries :: e.Valid() }

  function EntriesBytes(entries: seq<Entry>, little: bool): (s: Bytes)
    requires AllValid(entries)
    ensures |s| == 12 * |entries|
  {
    if entries == [] then []
    else EntriesBytes(entries[..|entries| - 1], little) + EntryBytes(entries[|entries| - 1], little)
  }

  /** The byte order, the number forty-two and where the directory is. */
  function Header(little: bool, directory: nat): (s: Bytes)
    requires directory < 0x1_0000_0000
    ensures |s| == 8
  {
    (if little then [73, 73] else [77, 77]) + Short(0x2A, little) + Long(directory, little)
  }

  function Block(little: bool, gap: Bytes, entries: seq<Entry>, tail: Bytes): Bytes
    requires AllValid(entries) && |entries| < 0x1_0000 && 8 + |gap| < 0x1_0000_0000
  {
    Header(little, 8 + |gap|) + gap + Short(|entries|, little) + EntriesBytes(entries, little) + tail
  }

  /** The value an entry holds, as a short number. */
  function Value(e: Entry, little: bool): nat
    requires e.Valid()
  {
    U16(e.rest, 6, little)
  }

  /** What the first orientation entry says, if there is one. */
  function Said(entries: seq<Entry>, little: bool): Orientation
    requires AllValid(entries)
  {
    if entries == [] then TopLeft
    else if entries[0].tag == 0x0112 then FromInt(Value(entries[0], little))
    else Said(entries[1..], little)
  }

  lemma U16At(s: Bytes, at: nat, part: Bytes, from: nat, little: bool)
    requires from + 2 <= |part| && at + |part| <= |s| && s[at..at + |part|] == part
    ensures U16(s, at + from, little) == U16(part, from, little)
  {
    assert s[at + from] == s[at..at + |part|][from] && s[at + from + 1] == s[at..at + |part|][from + 1];
  }

  lemma HeaderReads(s: Bytes, little: bool, directory: nat)
    requires directory < 0x1_0000_0000 && |s| >= 8 && s[0..8] == Header(little, directory)
    ensures Headed(s) && Little(s) == little && Directory(s) == directory
  {
    hide U16;
    var h := Header(little, directory);
    assert s[0] == s[0..8][0] && s[1] == s[0..8][1];
    assert s[2..4] == s[0..8][2..4] == Short(0x2A, little);
    U16At(s, 2, Short(0x2A, little), 0, little);
    var low, high := Short(directory % 0x1_0000, little), Short(directory / 0x1_0000, little);
    assert s[4..8] == s[0..8][4..8] == Long(directory, little);
    if little {
      assert s[4..6] == s[4..8][0..2] == low && s[6..8] == s[4..8][2..4] == high;
      U16At(s, 4, low, 0, little);
      U16At(s, 6, high, 0, little);
    } else {
      assert s[4..6] == s[4..8][0..2] == high && s[6..8] == s[4..8][2..4] == low;
      U16At(s, 4, high, 0, little);
      U16At(s, 6, low, 0, little);
    }
  }

  lemma {:induction false} EntryStands(entries: seq<Entry>, little: bool, k: nat)
    requires AllValid(entries) && k < |entries|
    ensures entries[k].Valid() && EntriesBytes(entries, little)[12 * k..12 * k + 12] == EntryBytes(entries[k], little)
  {
    hide EntryBytes;
    var n := |entries| - 1;
    var first, last := EntriesBytes(entries[..n], little), EntryBytes(entries[n], little);
    if k < n {
      EntryStands(entries[..n], little, k);
      SliceOfFirst(first, last, 12 * k, 12 * k + 12);
    } else {
      SliceOfLast(first, last);
    }
  }

  lemma SliceOfFirst(first: Bytes, last: Bytes, from: nat, to: nat)
    requires from <= to <= |first|
    ensures (first + last)[from..to] == first[from..to]
  {}

  lemma SliceOfLast(first: Bytes, last: Bytes)
    ensures (first + last)[|first|..|first| + |last|] == last
  {}

  /** Where the entries of a directory are, and what their tags and values read as. */
  ghost predicate Listed(s: Bytes, little: bool, directory: nat, entries: seq<Entry>) {
    && AllValid(entries) && directory + 2 + 12 * |entries| <= |s|
    && forall k: nat | k < |entries| ::
         && U16(s, directory + 2 + 12 * k, little) == entries[k].tag
         && U16(s, directory + 2 + 12 * k + 8, little) == Value(entries[k], little)
  }

  lemma BlockLists(little: bool, gap: Bytes, entries: seq<Entry>, tail: Bytes)
    requires AllValid(entries) && |entries| < 0x1_0000 && 8 + |gap| < 0x1_0000_0000
    ensures var s := Block(little, gap, entries, tail);
      && Headed(s) && Little(s) == little && Directory(s) == 8 + |gap| && 8 + |gap| + 2 <= |s|
      && U16(s, 8 + |gap|, little) == |entries| && Listed(s, little, 8 + |gap|, entries)
  {
    hide U16, Headed, Little, Directory, Header, EntriesBytes, EntryBytes, Short;
    var s, d := Block(little, gap, entries, tail), 8 + |gap|;
    assert s[0..8] == Header(little, d);
    HeaderReads(s, little, d);
    assert s[d..d + 2] == Short(|entries|, little);
    U16At(s, d, Short(|entries|, little), 0, little);
    assert s[d + 2..d + 2 + 12 * |entries|] == EntriesBytes(entries, little);
    forall k: nat | k < |entries|
      ensures U16(s, d + 2 + 12 * k, little) == entries[k].tag
      ensures U16(s, d + 2 + 12 * k + 8, little) == Value(entries[k], little)
    {
      assert entries[k] in entries;
      EntryStands(entries, little, k);
      var at := d + 2 + 12 * k;
      var one := EntryBytes(entries[k], little);
      assert s[at..at + 12] == s[d + 2..d + 2 + 12 * |entries|][12 * k..12 * k + 12];
      EntryReads(s, at, entries[k], little);
    }
  }

  lemma EntryReads(s: Bytes, at: nat, e: Entry, little: bool)
    requires e.Valid() && at + 12 <= |s| && s[at..at + 12] == EntryBytes(e, little)
    ensures U16(s, at, little) == e.tag && U16(s, at + 8, little) == Value(e, little)
  {
    hide U16;
    assert s[at..at + 2] == s[at..at + 12][0..2] == Short(e.tag, little);
    U16At(s, at, Short(e.tag, little), 0, little);
    assert s[at + 2..at + 12] == s[at..at + 12][2..12] == e.rest;
    U16At(s, at + 2, e.rest, 6, little);
  }

  lemma {:induction false} SearchFinds(s: Bytes, little: bool, directory: nat, entries: seq<Entry>, i: nat)
    requires Listed(s, little, directory, entries) && i <= |entries|
    ensures AllValid(entries[i..])
    ensures var e := EntryFrom(s, little, directory, |entries|, i);
      (if e < 0 then TopLeft else FromInt(U16(s, e + 8, little))) == Said(entries[i..], little)
    decreases |entries| - i
  {
    hide U16, FromInt;
    assert forall e | e in entries[i..] :: e in entries;
    if i < |entries| {
      assert entries[i..][0] == entries[i] && entries[i..][1..] == entries[i + 1..];
      assert directory + 2 + i * 12 == directory + 2 + 12 * i;
      assert U16(s, directory + 2 + 12 * i, little) == entries[i].tag;
      SearchFinds(s, little, directory, entries, i + 1);
    }
  }

  /** Whatever is in a block, reading it gives what its first orientation entry says, by the tag's own table. */
  lemma BlockReads(little: bool, gap: Bytes, entries: seq<Entry>, tail: Bytes)
    requires AllValid(entries) && |entries| < 0x1_0000 && 8 + |gap| < 0x1_0000_0000
    ensures OrientationOf(Block(little, gap, entries, tail)) == Said(entries, little)
  {
    hide U16, FromInt, Headed, Little, Directory, EntryFrom, Block, Listed;
    BlockLists(little, gap, entries, tail);
    SearchFinds(Block(little, gap, entries, tail), little, 8 + |gap|, entries, 0);
    assert entries[0..] == entries;
  }

  /** A well-formed orientation entry: a single short number. */
  function OrientationEntry(value: nat, little: bool): (e: Entry)
    requires value < 0x1_0000
    ensures e.Valid() && e.tag == 0x0112 && Value(e, little) == value
  {
    var rest := Short(3, little) + Long(1, little) + Short(value, little) + [0, 0];
    assert rest[6..8] == Short(value, little);
    U16At(rest, 6, Short(value, little), 0, little);
    Entry(0x0112, rest)
  }

  /** So an orientation written among other entries comes back. */
  lemma WrittenOrientationBack(little: bool, gap: Bytes, before: seq<Entry>, value: nat, after: seq<Entry>, tail: Bytes)
    requires AllValid(before) && AllValid(after) && value < 0x1_0000
    requires |before| + 1 + |after| < 0x1_0000 && 8 + |gap| < 0x1_0000_0000
    requires forall e | e in before :: e.tag != 0x0112
    ensures var entries := before + [OrientationEntry(value, little)] + after;
      AllValid(entries) && OrientationOf(Block(little, gap, entries, tail)) == FromInt(value)
  {
    hide OrientationOf, Block, FromInt, OrientationEntry;
    BlockReads(little, gap, before + [OrientationEntry(value, little)] + after, tail);
    SkipsOthers(before, OrientationEntry(value, little), after, little);
  }

  lemma {:induction false} SkipsOthers(before: seq<Entry>, e: Entry, after: seq<Entry>, little: bool)
    requires AllValid(before) && AllValid(after) && e.Valid() && e.tag == 0x0112
    requires forall b | b in before :: b.tag != 0x0112
    ensures AllValid(before + [e] + after) && Said(before + [e] + after, little) == FromInt(Value(e, little))
  {
    hide FromInt, Value;
    var all := before + [e] + after;
    if before != [] {
      assert all[1..] == before[1..] + [e] + after && all[0] == before[0];
      SkipsOthers(before[1..], e, after, little);
    }
  }
}
