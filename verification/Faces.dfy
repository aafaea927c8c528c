/**
 * From a face detector's raw outputs to a list of faces: anchors decoded, repeats of
 * one face dropped, the largest first.
 */
module Faces {
  import opened RealArithmetic

  const SCORE_THRESHOLD: real := 0.6
  const OVERLAP_THRESHOLD: real := 0.3

  datatype Spot = Spot(x: real, y: real)

  /** A box in fractions of the image, how sure the detector is of it, and five points of the face. */
  datatype Face = Face(
    x: real, y: real, width: real, height: real, score: real,
    rightEye: Spot, leftEye: Spot, nose: Spot, rightMouth: Spot, leftMouth: Spot)

  function Area(f: Face): real { f.width * f.height }
  function Score(f: Face): real { f.score }

  function Least(a: real, b: real): real { if a < b then a else b }
  function Most(a: real, b: real): real { if a > b then a else b }

  function Across(a: Face, b: Face): real { Least(a.x + a.width, b.x + b.width) - Most(a.x, b.x) }
  function Down(a: Face, b: Face): real { Least(a.y + a.height, b.y + b.height) - Most(a.y, b.y) }

  /** Area of overlap over area of union. */
  function Overlap(a: Face, b: Face): real {
    var width, height := Across(a, b), Down(a, b);
    if width <= 0.0 || height <= 0.0 then 0.0 else ShareOf(Intersection(a, b), Area(a) + Area(b))
  }

  function Intersection(a: Face, b: Face): real { Across(a, b) * Down(a, b) }

  function ShareOf(intersection: real, both: real): real {
    var united := both - intersection;
    if united > 0.0 then intersection / united else 0.0
  }

  predicate Repeats(f: Face, kept: seq<Face>) {
    exists k :: 0 <= k < |kept| && Overlap(f, kept[k]) > OVERLAP_THRESHOLD
  }

  /** Each face in turn, unless it overlaps one already kept. */
  function Suppressed(found: seq<Face>): (kept: seq<Face>)
    ensures |kept| <= |found|
  {
    if found == [] then [] else
    var kept, f := Suppressed(found[..|found| - 1]), found[|found| - 1];
    if Repeats(f, kept) then kept else kept + [f]
  }

  // -------------------------------------------------------------- decoding

  /** What the model gives at one stride, an anchor at a time. */
  datatype Level = Level(cls: seq<real>, obj: seq<real>, bbox: seq<real>, kps: seq<real>)

  /** Square root and exponential, library functions. */
  datatype Maths = Maths(root: real -> real, exp: real -> real)

  ghost predicate MathsOk(m: Maths) {
    forall r: real :: m.exp(r) > 0.0
  }

  function Stride(level: nat): nat
    requires level < 3
  {
    if level == 0 then 8 else if level == 1 then 16 else 32
  }

  function ScoreOf(l: Level, anchor: nat, m: Maths): real
    requires anchor < |l.cls| && anchor < |l.obj|
  {
    m.root(Most(0.0, l.cls[anchor] * l.obj[anchor]))
  }

  /** One of the five points an anchor reports, in cells from its own. */
  function SpotAt(l: Level, anchor: nat, i: nat, column: real, row: real, stride: nat, side: nat): Spot
    requires side > 0 && i < 5 && anchor * 10 + 10 <= |l.kps|
  {
    var at := anchor * 10 + i * 2;
    Spot((column + l.kps[at]) * stride as real / side as real, (row + l.kps[at + 1]) * stride as real / side as real)
  }

  /** The face an anchor reports: its centre in cells, its size as a logarithm, its points in cells. */
  function FaceAt(l: Level, anchor: nat, columns: nat, stride: nat, side: nat, m: Maths): Face
    requires columns > 0 && side > 0 && anchor < |l.cls| && anchor < |l.obj| && anchor * 4 + 4 <= |l.bbox|
    requires anchor * 10 + 10 <= |l.kps|
  {
    var column, row := (anchor % columns) as real, (anchor / columns) as real;
    var centreX := (column + l.bbox[anchor * 4]) * stride as real;
    var centreY := (row + l.bbox[anchor * 4 + 1]) * stride as real;
    var width, height := m.exp(l.bbox[anchor * 4 + 2]) * stride as real, m.exp(l.bbox[anchor * 4 + 3]) * stride as real;
    Face((centreX - width * 0.5) / side as real, (centreY - height * 0.5) / side as real, width / side as real,
         height / side as real, ScoreOf(l, anchor, m),
         SpotAt(l, anchor, 0, column, row, stride, side), SpotAt(l, anchor, 1, column, row, stride, side),
         SpotAt(l, anchor, 2, column, row, stride, side), SpotAt(l, anchor, 3, column, row, stride, side),
         SpotAt(l, anchor, 4, column, row, stride, side))
  }

  /** A level with too little in it is passed over. */
  predicate Complete(l: Level, anchors: nat) {
    |l.cls| >= anchors && |l.obj| >= anchors && |l.bbox| >= anchors * 4 && |l.kps| >= anchors * 10
  }

  function FromLevel(l: Level, stride: nat, side: nat, m: Maths, n: nat): seq<Face>
    requires stride > 0 && side > 0 && Complete(l, n) && (n > 0 ==> side / stride > 0)
  {
    if n == 0 then [] else
    var before := FromLevel(l, stride, side, m, n - 1);
    if ScoreOf(l, n - 1, m) < SCORE_THRESHOLD then before
    else before + [FaceAt(l, n - 1, side / stride, stride, side, m)]
  }

  function Anchors(side: nat, stride: nat): nat
    requires stride > 0
  {
    (side / stride) * (side / stride)
  }

  function Found(outputs: seq<Level>, side: nat, m: Maths, levels: nat): seq<Face>
    requires |outputs| == 3 && levels <= 3 && side > 0
  {
    if levels == 0 then [] else
    var l, stride := outputs[levels - 1], Stride(levels - 1);
    var n := Anchors(side, stride);
    Found(outputs, side, m, levels - 1) + (if Complete(l, n) then FromLevel(l, stride, side, m, n) else [])
  }

  // ---------------------------------------------------------------- sorting

  ghost predicate Descending(s: seq<Face>, key: Face -> real) {
    forall i, j | 0 <= i < j < |s| :: key(s[i]) >= key(s[j])
  }

  /** A library sort: the order of equal keys is not specified. */
  method Sort(s: seq<Face>, key: Face -> real) returns (sorted: seq<Face>)
    ensures Descending(sorted, key) && multiset(sorted) == multiset(s)
  {
    hide Descending;
    sorted := [];
    Empty(key);
    for n := 0 to |s|
      invariant Descending(sorted, key) && multiset(sorted) == multiset(s[..n])
    {
      var at := Place(sorted, s[n], key);
      Placed(sorted, at, s[n], key);
      assert s[..n + 1] == s[..n] + [s[n]];
      sorted := Put(sorted, at, s[n]);
    }
    assert s[..|s|] == s;
  }

  lemma Empty(key: Face -> real)
    ensures Descending([], key)
  {}

  method Place(s: seq<Face>, f: Face, key: Face -> real) returns (at: nat)
    ensures at <= |s| && (at > 0 ==> key(s[at - 1]) >= key(f)) && forall j | at <= j < |s| :: key(s[j]) < key(f)
  {
    at := |s|;
    while at > 0 && key(s[at - 1]) < key(f)
      invariant at <= |s| && forall j | at <= j < |s| :: key(s[j]) < key(f)
    {
      at := at - 1;
    }
  }

  function Put(s: seq<Face>, at: nat, f: Face): (r: seq<Face>)
    requires at <= |s|
    ensures |r| == |s| + 1
    ensures forall i | 0 <= i < |r| :: r[i] == if i < at then s[i] else if i == at then f else s[i - 1]
    ensures multiset(r) == multiset(s) + multiset{f}
  {
    assert s == s[..at] + s[at..];
    s[..at] + [f] + s[at..]
  }

  lemma Placed(s: seq<Face>, at: nat, f: Face, key: Face -> real)
    requires at <= |s| && Descending(s, key)
    requires (at > 0 ==> key(s[at - 1]) >= key(f)) && forall j | at <= j < |s| :: key(s[j]) < key(f)
    ensures Descending(Put(s, at, f), key)
  {
    var r := Put(s, at, f);
    forall i, j | 0 <= i < j < |r| ensures key(r[i]) >= key(r[j]) {
      var a := if i < at then s[i] else if i == at then f else s[i - 1];
      var b := if j < at then s[j] else if j == at then f else s[j - 1];
      assert r[i] == a && r[j] == b;
      if i < at {
        assert i == at - 1 || key(s[i]) >= key(s[at - 1]);
        if j < at { assert key(s[i]) >= key(s[j]); } else if j > at { assert key(s[j - 1]) < key(f); }
      } else {
        assert key(s[j - 1]) < key(f);
        if i > at { assert key(s[i - 1]) >= key(s[j - 1]); }
      }
    }
  }

  // ----------------------------------------------------------- suppression

  /** No two faces overlap by more than the threshold. */
  ghost predicate Apart(s: seq<Face>) {
    forall i, j | 0 <= i < j < |s| :: Overlap(s[i], s[j]) <= OVERLAP_THRESHOLD
  }

  /** Kept, or the repeat of a kept face that is at least as sure. */
  predicate Accounted(f: Face, kept: seq<Face>) {
    f in kept || exists k :: 0 <= k < |kept| && Overlap(f, kept[k]) > OVERLAP_THRESHOLD && kept[k].score >= f.score
  }

  lemma OverlapSymmetric(a: Face, b: Face)
    ensures Overlap(a, b) == Overlap(b, a)
  {
    hide Area, ShareOf, Across, Down, Intersection;
    SpansSymmetric(a, b);
  }

  lemma SpansSymmetric(a: Face, b: Face)
    ensures Across(a, b) == Across(b, a) && Down(a, b) == Down(b, a) && Intersection(a, b) == Intersection(b, a)
  {}

  /** A box overlaps itself wholly, so of two equal boxes one goes. */
  lemma OverlapSelf(f: Face)
    requires f.width > 0.0 && f.height > 0.0
    ensures Overlap(f, f) == 1.0
  {
    hide ShareOf, Across, Down;
    SelfSpans(f);
    Positive(f.width, f.height);
    ShareWhole(Intersection(f, f), Area(f));
  }

  lemma SelfSpans(f: Face)
    requires f.width > 0.0 && f.height > 0.0
    ensures Across(f, f) == f.width && Down(f, f) == f.height
  {}

  lemma ShareWhole(part: real, a: real)
    requires part == a > 0.0
    ensures ShareOf(part, a + a) == 1.0
  {
    assert a + a - part == a;
    Whole(a);
  }

  /** An overlap is a fraction: none of the union at least, all of it at most. */
  lemma OverlapRange(a: Face, b: Face)
    requires a.width > 0.0 && a.height > 0.0 && b.width > 0.0 && b.height > 0.0
    ensures 0.0 <= Overlap(a, b) <= 1.0
  {
    hide Area, ShareOf, Across, Down, Intersection;
    if Across(a, b) > 0.0 && Down(a, b) > 0.0 {
      IntersectionInside(a, b);
      ShareRange(Intersection(a, b), Area(a), Area(b));
    }
  }

  lemma IntersectionInside(a: Face, b: Face)
    requires Across(a, b) > 0.0 && Down(a, b) > 0.0
    requires a.width > 0.0 && a.height > 0.0 && b.width > 0.0 && b.height > 0.0
    ensures 0.0 < Intersection(a, b) <= Area(a) && Intersection(a, b) <= Area(b)
  {
    hide Area, Across, Down;
    SpansInside(a, b);
    Positive(Across(a, b), Down(a, b));
    Inside(Across(a, b), Down(a, b), a);
    Inside(Across(a, b), Down(a, b), b);
  }

  lemma SpansInside(a: Face, b: Face)
    ensures Across(a, b) <= a.width && Across(a, b) <= b.width && Down(a, b) <= a.height && Down(a, b) <= b.height
  {}

  lemma Inside(w: real, h: real, f: Face)
    requires 0.0 < w <= f.width && 0.0 < h <= f.height
    ensures w * h <= Area(f)
  {
    AtMost(w, f.width, h);
    AtMost(h, f.height, f.width);
  }

  lemma ShareRange(part: real, a: real, b: real)
    requires 0.0 < part <= a && part <= b
    ensures 0.0 <= ShareOf(part, a + b) <= 1.0
  {
    var whole := a + b - part;
    var q := part / whole;
    assert q * whole == part;
    if q > 1.0 { Positive(q - 1.0, whole); }
    if q < 0.0 { Positive(-q, whole); }
  }

  lemma {:induction false} SuppressedApart(found: seq<Face>)
    ensures Apart(Suppressed(found))
  {
    hide Overlap;
    if found != [] {
      SuppressedApart(found[..|found| - 1]);
      var kept, f := Suppressed(found[..|found| - 1]), found[|found| - 1];
      if !Repeats(f, kept) {
        forall i | 0 <= i < |kept| ensures Overlap(kept[i], f) <= OVERLAP_THRESHOLD { OverlapSymmetric(kept[i], f); }
      }
    }
  }

  /** Whatever order equal scores come in, every face found is kept or is the repeat of one at least as sure. */
  lemma {:induction false} SuppressedAccounts(found: seq<Face>)
    requires Descending(found, Score)
    ensures forall f | f in found :: Accounted(f, Suppressed(found))
    ensures forall f | f in Suppressed(found) :: f in found
  {
    hide Overlap;
    if found != [] {
      var n := |found| - 1;
      var before := Suppressed(found[..n]);
      SuppressedAccounts(found[..n]);
      forall f | f in found ensures Accounted(f, Suppressed(found)) {
        if f in found[..n] {
          StillAccounted(f, before, found[n]);
        } else {
          assert f == found[n];
          if Repeats(f, before) {
            var k :| 0 <= k < |before| && Overlap(f, before[k]) > OVERLAP_THRESHOLD;
            assert before[k] in before;
            var i :| 0 <= i < n && found[i] == before[k];
            assert Score(found[i]) >= Score(found[n]);
          }
        }
      }
    }
  }

  lemma StillAccounted(f: Face, kept: seq<Face>, next: Face)
    requires Accounted(f, kept)
    ensures Accounted(f, kept + [next])
  {
    if k :| 0 <= k < |kept| && Overlap(f, kept[k]) > OVERLAP_THRESHOLD && kept[k].score >= f.score {
      assert (kept + [next])[k] == kept[k];
    }
  }

  /** Suppressing again drops nothing more. */
  lemma {:induction false} SuppressedAgain(kept: seq<Face>)
    requires Apart(kept)
    ensures Suppressed(kept) == kept
  {
    hide Overlap;
    if kept != [] {
      var n := |kept| - 1;
      SuppressedAgain(kept[..n]);
      if Repeats(kept[n], kept[..n]) {
        var k :| 0 <= k < n && Overlap(kept[n], kept[..n][k]) > OVERLAP_THRESHOLD;
        OverlapSymmetric(kept[n], kept[k]);
      }
    }
  }

  method DecodeFaces(outputs: seq<Level>, side: nat, m: Maths) returns (faces: seq<Face>)
    requires |outputs| == 3 && side > 0
    ensures Descending(faces, Area) && Apart(faces)
    ensures forall f | f in Found(outputs, side, m, 3) :: Accounted(f, faces)
    ensures forall f | f in faces :: f in Found(outputs, side, m, 3)
  {
    hide Overlap, ScoreOf, FaceAt, SpotAt;
    var found: seq<Face> := [];
    for level := 0 to 3
      invariant found == Found(outputs, side, m, level)
    {
      var stride := Stride(level);
      var columns := side / stride;
      var anchors := columns * columns;
      if !Complete(outputs[level], anchors) { continue; }
      ghost var before := found;
      for anchor := 0 to anchors
        invariant columns > 0 || anchors == 0
        invariant found == before + FromLevel(outputs[level], stride, side, m, anchor)
      {
        if ScoreOf(outputs[level], anchor, m) < SCORE_THRESHOLD { continue; }
        found := found + [FaceAt(outputs[level], anchor, columns, stride, side, m)];
      }
    }
    var sorted := Sort(found, Score);
    var kept: seq<Face> := [];
    for k := 0 to |sorted|
      invariant kept == Suppressed(sorted[..k])
    {
      assert sorted[..k + 1][..k] == sorted[..k];
      if !Repeats(sorted[k], kept) { kept := kept + [sorted[k]]; }
    }
    assert sorted[..|sorted|] == sorted;
    SuppressedApart(sorted);
    SuppressedAccounts(sorted);
    faces := Sort(kept, Area);
    Reordered(found, sorted, kept, faces);
  }

  /** An exponential is positive, so every box found has an area. */
  lemma {:induction false} FoundPositive(outputs: seq<Level>, side: nat, m: Maths, levels: nat, f: Face)
    requires |outputs| == 3 && levels <= 3 && side > 0 && MathsOk(m) && f in Found(outputs, side, m, levels)
    ensures f.width > 0.0 && f.height > 0.0
  {
    if levels > 0 {
      var l, stride := outputs[levels - 1], Stride(levels - 1);
      var n := Anchors(side, stride);
      if f in Found(outputs, side, m, levels - 1) {
        FoundPositive(outputs, side, m, levels - 1, f);
      } else {
        LevelPositive(l, stride, side, m, n, f);
      }
    }
  }

  lemma {:induction false} LevelPositive(l: Level, stride: nat, side: nat, m: Maths, n: nat, f: Face)
    requires stride > 0 && side > 0 && Complete(l, n) && (n > 0 ==> side / stride > 0) && MathsOk(m)
    requires f in FromLevel(l, stride, side, m, n)
    ensures f.width > 0.0 && f.height > 0.0
  {
    hide FaceAt, ScoreOf;
    if f in FromLevel(l, stride, side, m, n - 1) {
      LevelPositive(l, stride, side, m, n - 1, f);
    } else {
      FacePositive(l, n - 1, side / stride, stride, side, m);
    }
  }

  lemma ExpPositive(m: Maths, r: real)
    requires MathsOk(m)
    ensures m.exp(r) > 0.0
  {}

  lemma FacePositive(l: Level, anchor: nat, columns: nat, stride: nat, side: nat, m: Maths)
    requires columns > 0 && side > 0 && stride > 0 && anchor < |l.cls| && anchor < |l.obj| && anchor * 4 + 4 <= |l.bbox|
    requires anchor * 10 + 10 <= |l.kps| && MathsOk(m)
    ensures var f := FaceAt(l, anchor, columns, stride, side, m); f.width > 0.0 && f.height > 0.0
  {
    hide SpotAt, ScoreOf;
    var w, h := m.exp(l.bbox[anchor * 4 + 2]), m.exp(l.bbox[anchor * 4 + 3]);
    ExpPositive(m, l.bbox[anchor * 4 + 2]);
    ExpPositive(m, l.bbox[anchor * 4 + 3]);
    Positive(w, stride as real);
    Positive(h, stride as real);
  }

  /** So no face is listed twice: a box overlaps itself wholly. */
  lemma NoneTwice(outputs: seq<Level>, side: nat, m: Maths, faces: seq<Face>, i: nat, j: nat)
    requires |outputs| == 3 && side > 0 && MathsOk(m)
    requires Apart(faces) && forall f | f in faces :: f in Found(outputs, side, m, 3)
    requires i < j < |faces|
    ensures faces[i] != faces[j]
  {
    hide Overlap, Found;
    FoundPositive(outputs, side, m, 3, faces[i]);
    OverlapSelf(faces[i]);
  }

  /** None of this depends on the order the faces are listed in. */
  lemma Reordered(found: seq<Face>, sorted: seq<Face>, kept: seq<Face>, faces: seq<Face>)
    requires multiset(sorted) == multiset(found) && multiset(faces) == multiset(kept) && Apart(kept)
    requires forall f | f in sorted :: Accounted(f, kept)
    requires forall f | f in kept :: f in sorted
    ensures Apart(faces) && (forall f | f in found :: Accounted(f, faces)) && (forall f | f in faces :: f in found)
  {
    hide Overlap;
    forall f | f in found ensures Accounted(f, faces) {
      assert f in multiset(found);
      assert f in sorted;
      if k :| 0 <= k < |kept| && Overlap(f, kept[k]) > OVERLAP_THRESHOLD && kept[k].score >= f.score {
        assert kept[k] in multiset(kept);
        var j :| 0 <= j < |faces| && faces[j] == kept[k];
      } else {
        assert f in multiset(kept);
      }
    }
    forall f | f in faces ensures f in found {
      assert f in multiset(faces);
      assert f in kept;
      assert f in multiset(sorted);
    }
    ApartAnyOrder(kept, faces);
  }

  /** Two equal faces that both stay would have to overlap little, each itself. */
  lemma ApartAnyOrder(kept: seq<Face>, faces: seq<Face>)
    requires multiset(faces) == multiset(kept) && Apart(kept)
    ensures Apart(faces)
  {
    hide Overlap;
    forall i, j | 0 <= i < j < |faces| ensures Overlap(faces[i], faces[j]) <= OVERLAP_THRESHOLD {
      var a, b := faces[i], faces[j];
      assert a in multiset(kept) && b in multiset(kept) by {
        assert a in multiset(faces) && b in multiset(faces);
      }
      if a == b {
        TwiceIn(faces, i, j);
        var p, q := Twice(kept, a);
        assert Overlap(kept[p], kept[q]) <= OVERLAP_THRESHOLD;
      } else {
        var p :| 0 <= p < |kept| && kept[p] == a;
        var q :| 0 <= q < |kept| && kept[q] == b;
        OverlapSymmetric(a, b);
        if p < q { assert Overlap(kept[p], kept[q]) <= OVERLAP_THRESHOLD; }
        else { assert Overlap(kept[q], kept[p]) <= OVERLAP_THRESHOLD; }
      }
    }
  }

  lemma TwiceIn(s: seq<Face>, i: nat, j: nat)
    requires i < j < |s| && s[i] == s[j]
    ensures multiset(s)[s[i]] >= 2
  {
    assert s == s[..j] + [s[j]] + s[j + 1..];
    assert s[..j][i] == s[i];
    assert s[i] in multiset(s[..j]);
  }

  lemma {:induction false} Twice(s: seq<Face>, f: Face) returns (p: nat, q: nat)
    requires multiset(s)[f] >= 2
    ensures p < q < |s| && s[p] == f && s[q] == f
  {
    var n := |s| - 1;
    assert s == s[..n] + [s[n]];
    if s[n] == f {
      assert f in multiset(s[..n]);
      p :| 0 <= p < n && s[p] == f;
      q := n;
    } else {
      p, q := Twice(s[..n], f);
    }
  }
}
