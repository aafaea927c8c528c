/**
 * What a detector's outputs say of the picture: which anchors make faces, which box and
 * which points an anchor stands for, and what it is for two boxes to overlap.
 */
module FaceBoxes {
  import opened Faces
  import opened RealArithmetic

  // ------------------------------------------------------------ anchors

  /** An anchor of a feature map that is whole, and sure enough of a face. */
  ghost predicate Sure(outputs: seq<Level>, side: nat, m: Maths, level: nat, anchor: nat)
    requires |outputs| == 3 && level < 3
  {
    var l, cells := outputs[level], side / [8, 16, 32][level];
    && anchor < cells * cells
    && |l.cls| >= cells * cells && |l.obj| >= cells * cells && |l.bbox| >= cells * cells * 4
    && |l.kps| >= cells * cells * 10
    && m.root(Agreement(l, anchor)) >= 0.6
  }

  /** How far the two confidences of an anchor agree, before the root. */
  function Agreement(l: Level, anchor: nat): real
    requires anchor < |l.cls| && anchor < |l.obj|
  {
    if l.cls[anchor] * l.obj[anchor] > 0.0 then l.cls[anchor] * l.obj[anchor] else 0.0
  }

  lemma CellsPositive(cells: nat, anchor: nat)
    requires anchor < cells * cells
    ensures cells > 0 && anchor * 4 + 4 <= cells * cells * 4 && anchor * 10 + 10 <= cells * cells * 10
  {}

  /** The face an anchor of one of the three maps stands for. */
  ghost function FaceOf(outputs: seq<Level>, side: nat, m: Maths, level: nat, anchor: nat): Face
    requires |outputs| == 3 && level < 3 && side > 0 && Sure(outputs, side, m, level, anchor)
  {
    var stride := [8, 16, 32][level];
    CellsPositive(side / stride, anchor);
    FaceAt(outputs[level], anchor, side / stride, stride, side, m)
  }

  lemma {:induction false} LevelFinds(l: Level, stride: nat, side: nat, m: Maths, n: nat, f: Face)
    requires stride > 0 && side > 0 && Complete(l, n) && (n > 0 ==> side / stride > 0)
    ensures f in FromLevel(l, stride, side, m, n)
       <==> exists a: nat ::
              a < n && ScoreOf(l, a, m) >= SCORE_THRESHOLD && f == FaceAt(l, a, side / stride, stride, side, m)
  {
    hide FaceAt, ScoreOf;
    if n > 0 { LevelFinds(l, stride, side, m, n - 1, f); }
  }

  lemma StrideIs(level: nat)
    requires level < 3
    ensures Stride(level) == [8, 16, 32][level]
  {}

  lemma LevelIsSure(outputs: seq<Level>, side: nat, m: Maths, level: nat, anchor: nat)
    requires |outputs| == 3 && level < 3 && side > 0
    ensures var l, n := outputs[level], Anchors(side, Stride(level));
      Sure(outputs, side, m, level, anchor)
      <==> Complete(l, n) && anchor < n && ScoreOf(l, anchor, m) >= SCORE_THRESHOLD
  {
    hide Agreement, ScoreOf;
    var l, n := outputs[level], Anchors(side, Stride(level));
    StrideIs(level);
    if anchor < n && Complete(l, n) { ScoreIs(l, anchor, m); }
    if anchor < Anchors(side, Stride(level)) { CellsPositive(side / Stride(level), anchor); }
  }

  /** The faces found are those of the sure anchors of the three maps, and no others. */
  lemma {:induction false} FoundIff(outputs: seq<Level>, side: nat, m: Maths, levels: nat, f: Face)
    requires |outputs| == 3 && side > 0 && levels <= 3
    ensures f in Found(outputs, side, m, levels) <==>
      exists level: nat, anchor: nat ::
        level < levels && Sure(outputs, side, m, level, anchor) && f == FaceOf(outputs, side, m, level, anchor)
  {
    hide FaceAt, ScoreOf, Sure, FromLevel, Complete, Anchors, Stride;
    if levels > 0 {
      FoundIff(outputs, side, m, levels - 1, f);
      LastLevel(outputs, side, m, levels - 1, f);
    }
  }

  lemma LastLevel(outputs: seq<Level>, side: nat, m: Maths, level: nat, f: Face)
    requires |outputs| == 3 && side > 0 && level < 3
    ensures var l, stride := outputs[level], Stride(level); var n := Anchors(side, stride);
      f in (if Complete(l, n) then FromLevel(l, stride, side, m, n) else [])
      <==> exists anchor: nat :: Sure(outputs, side, m, level, anchor) && f == FaceOf(outputs, side, m, level, anchor)
  {
    hide FaceAt, ScoreOf, Sure, FromLevel;
    StrideIs(level);
    var l, stride := outputs[level], Stride(level);
    var n := Anchors(side, stride);
    forall anchor: nat
      ensures Sure(outputs, side, m, level, anchor)
         <==> Complete(l, n) && anchor < n && ScoreOf(l, anchor, m) >= SCORE_THRESHOLD
    {
      LevelIsSure(outputs, side, m, level, anchor);
    }
    if Complete(l, n) { LevelFinds(l, stride, side, m, n, f); }
  }

  // ------------------------------------------------------------ what an anchor stands for

  /** A face in pixels: the middle of its box, its size and its five points. */
  datatype Pixels = Pixels(x: real, y: real, width: real, height: real, points: seq<Spot>)

  /**
   * An anchor says it of a face when its four numbers give the middle from its own cell and
   * the logarithms of the sides, all in cells, and the ten others the points, likewise.
   */
  ghost predicate Says(l: Level, anchor: nat, columns: nat, stride: nat, m: Maths, p: Pixels)
    requires columns > 0 && anchor * 4 + 4 <= |l.bbox| && anchor * 10 + 10 <= |l.kps|
  {
    var s, column, row := stride as real, (anchor % columns) as real, (anchor / columns) as real;
    && (column + l.bbox[anchor * 4]) * s == p.x && (row + l.bbox[anchor * 4 + 1]) * s == p.y
    && m.exp(l.bbox[anchor * 4 + 2]) * s == p.width && m.exp(l.bbox[anchor * 4 + 3]) * s == p.height
    && |p.points| == 5 && forall i: nat | i < 5 :: SaysPoint(l, anchor, column, row, s, i, p.points[i])
  }

  predicate SaysPoint(l: Level, anchor: nat, column: real, row: real, s: real, i: nat, point: Spot)
    requires i < 5 && anchor * 10 + 10 <= |l.kps|
  {
    var at := anchor * 10 + i * 2;
    (column + l.kps[at]) * s == point.x && (row + l.kps[at + 1]) * s == point.y
  }

  /** The face decoded is that face, in fractions of the picture and from its top left corner. */
  lemma SaidIsDecoded(l: Level, anchor: nat, columns: nat, stride: nat, side: nat, m: Maths, p: Pixels)
    requires columns > 0 && side > 0 && anchor < |l.cls| && anchor < |l.obj| && anchor * 4 + 4 <= |l.bbox|
    requires anchor * 10 + 10 <= |l.kps| && Says(l, anchor, columns, stride, m, p)
    ensures var f, n := FaceAt(l, anchor, columns, stride, side, m), side as real;
      && f.x * n == p.x - p.width / 2.0 && f.y * n == p.y - p.height / 2.0
      && f.width * n == p.width && f.height * n == p.height
      && f.rightEye == At(p, 0, side) && f.leftEye == At(p, 1, side) && f.nose == At(p, 2, side)
      && f.rightMouth == At(p, 3, side) && f.leftMouth == At(p, 4, side)
      && f.score == m.root(Agreement(l, anchor))
  {
    hide ScoreOf, SpotAt, At, Agreement, SaysPoint;
    ScoreIs(l, anchor, m);
    var column, row := (anchor % columns) as real, (anchor / columns) as real;
    forall i: nat | i < 5 ensures SpotAt(l, anchor, i, column, row, stride, side) == At(p, i, side) {
      PointSaid(l, anchor, column, row, stride, side, p, i);
    }
    Fractions(p.x - p.width * 0.5, side as real);
    Fractions(p.y - p.height * 0.5, side as real);
    Fractions(p.width, side as real);
    Fractions(p.height, side as real);
  }

  lemma ScoreIs(l: Level, anchor: nat, m: Maths)
    requires anchor < |l.cls| && anchor < |l.obj|
    ensures ScoreOf(l, anchor, m) == m.root(Agreement(l, anchor))
  {}

  lemma PointSaid(l: Level, anchor: nat, column: real, row: real, stride: nat, side: nat, p: Pixels, i: nat)
    requires side > 0 && i < 5 && anchor * 10 + 10 <= |l.kps| && |p.points| == 5
    requires SaysPoint(l, anchor, column, row, stride as real, i, p.points[i])
    ensures SpotAt(l, anchor, i, column, row, stride, side) == At(p, i, side)
  {}

  function At(p: Pixels, i: nat, side: nat): Spot
    requires side > 0 && i < |p.points|
  {
    Spot(p.points[i].x / side as real, p.points[i].y / side as real)
  }

  lemma Fractions(a: real, n: real)
    requires n > 0.0
    ensures a / n * n == a
  {}

  // ------------------------------------------------------------ overlap

  ghost predicate Holds(f: Face, x: real, y: real) {
    f.x <= x <= f.x + f.width && f.y <= y <= f.y + f.height
  }

  ghost predicate HoldsInside(f: Face, x: real, y: real) {
    f.x < x < f.x + f.width && f.y < y < f.y + f.height
  }

  /**
   * Two boxes that share an inside share a box, whose area over the area of both together
   * is their overlap; two that do not have no overlap.
   */
  lemma OverlapIsShare(a: Face, b: Face)
    requires a.width > 0.0 && a.height > 0.0 && b.width > 0.0 && b.height > 0.0
    ensures var common := a.(x := Most(a.x, b.x), y := Most(a.y, b.y), width := Across(a, b), height := Down(a, b));
      if Across(a, b) > 0.0 && Down(a, b) > 0.0 then
        && (forall x: real, y: real :: Holds(common, x, y) <==> Holds(a, x, y) && Holds(b, x, y))
        && Overlap(a, b) * (Area(a) + Area(b) - Area(common)) == Area(common)
      else
        Overlap(a, b) == 0.0 && forall x: real, y: real :: !(HoldsInside(a, x, y) && HoldsInside(b, x, y))
  {
    if Across(a, b) > 0.0 && Down(a, b) > 0.0 {
      SharedArea(a, b);
      CommonBox(a, b, a.(x := Most(a.x, b.x), y := Most(a.y, b.y), width := Across(a, b), height := Down(a, b)));
    }
  }

  lemma CommonBox(a: Face, b: Face, common: Face)
    requires common.x == Most(a.x, b.x) && common.x + common.width == Least(a.x + a.width, b.x + b.width)
    requires common.y == Most(a.y, b.y) && common.y + common.height == Least(a.y + a.height, b.y + b.height)
    ensures forall x: real, y: real :: Holds(common, x, y) <==> Holds(a, x, y) && Holds(b, x, y)
  {}

  lemma SharedArea(a: Face, b: Face)
    requires a.width > 0.0 && a.height > 0.0 && b.width > 0.0 && b.height > 0.0
    requires Across(a, b) > 0.0 && Down(a, b) > 0.0
    ensures Overlap(a, b) * (Area(a) + Area(b) - Intersection(a, b)) == Intersection(a, b)
  {
    hide Area, Intersection, Across, Down;
    IntersectionInside(a, b);
    ShareTimes(Intersection(a, b), Area(a) + Area(b)) by { PositiveArea(b); }
  }

  lemma PositiveArea(f: Face)
    requires f.width > 0.0 && f.height > 0.0
    ensures Area(f) > 0.0
  {
    ProductPositive(f.width, f.height, Area(f));
  }

  lemma ShareTimes(part: real, both: real)
    requires part < both
    ensures ShareOf(part, both) * (both - part) == part
  {}
}
