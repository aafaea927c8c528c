/**
 * A run of rotations, flips, crops, straightens and resizes folded into one source
 * rectangle, one angle, one orientation and one target size.
 */
module Geometries {
  import opened Integers
  import opened Orientations
  import opened Operations
  import opened RealArithmetic

  datatype Geometry = Geometry(
    sourceRect: Rect,
    angle: real,
    unrotatedRect: Rect,
    orientation: Orientation,
    targetWidth: int,
    targetHeight: int)
  {
    function NaturalWidth(): int { TurnedWidth(orientation, sourceRect.width, sourceRect.height) }
    function NaturalHeight(): int { TurnedHeight(orientation, sourceRect.width, sourceRect.height) }
    function OutputWidth(): int { if targetWidth > 0 then targetWidth else NaturalWidth() }
    function OutputHeight(): int { if targetHeight > 0 then targetHeight else NaturalHeight() }
  }

  const MAX_STRAIGHTEN: real := 45.0

  /** Sine and cosine of an angle in degrees: library functions, only named here. */
  datatype Trig = Trig(sin: real -> real, cos: real -> real)

  /** Rounds half away from zero. */
  function LRound(r: real): int {
    if r >= 0.0 then (r + 0.5).Floor else -((-r + 0.5).Floor)
  }

  function MapRectBack(rect: Rect, o: Orientation, w: int, h: int): Rect {
    if rect.Empty() then NO_RECT else
    var inverse := Inverse(o);
    var ow, oh := TurnedWidth(o, w, h), TurnedHeight(o, w, h);
    var p0 := MapPoint(inverse, ow, oh, Point(rect.x, rect.y));
    var p1 := MapPoint(inverse, ow, oh, Point(rect.Right() - 1, rect.Bottom() - 1));
    Rect(Min(p0.x, p1.x), Min(p0.y, p1.y), Max(p1.x - p0.x, p0.x - p1.x) + 1, Max(p1.y - p0.y, p0.y - p1.y) + 1)
  }

  /** The larger shrink that still fits a frame turned by `sin`, `cos` inside its region. */
  function FrameScale(region: Rect, sin: real, cos: real): real
    requires !region.Empty() && sin >= 0.0 && cos > 0.0
  {
    var w, h := region.width as real, region.height as real;
    PositiveSpan(w, h, sin, cos);
    var across, down := w / (w * cos + h * sin), h / (w * sin + h * cos);
    if across < down then across else down
  }

  /** What is kept of a region when its sides come down to `keptWidth` and `keptHeight`, about its centre. */
  function Kept(region: Rect, keptWidth: real, keptHeight: real): Rect {
    var w, h := Max(1, keptWidth.Floor), Max(1, keptHeight.Floor);
    Rect(region.x + Half(region.width - w), region.y + Half(region.height - h), w, h)
  }

  function KeptWidth(region: Rect, sin: real, cos: real): real
    requires !region.Empty() && sin >= 0.0 && cos > 0.0
  {
    region.width as real * FrameScale(region, sin, cos)
  }

  function KeptHeight(region: Rect, sin: real, cos: real): real
    requires !region.Empty() && sin >= 0.0 && cos > 0.0
  {
    region.height as real * FrameScale(region, sin, cos)
  }

  lemma PositiveSpan(w: real, h: real, sin: real, cos: real)
    requires w > 0.0 && h > 0.0 && sin >= 0.0 && cos > 0.0
    ensures w * cos + h * sin > 0.0 && w * sin + h * cos > 0.0
  {
    assert w * cos > 0.0 && h * cos > 0.0;
    assert h * sin >= 0.0 && w * sin >= 0.0;
  }

  /** Integer halves are truncated towards zero. */
  function Half(n: int): int { if n >= 0 then n / 2 else -((-n) / 2) }

  /** What the library promises about angles up to half a right angle. */
  ghost predicate TrigOk(t: Trig) {
    forall d: real :: 0.0 <= d <= MAX_STRAIGHTEN ==>
      t.sin(d) >= 0.0 && t.cos(d) > 0.0 && t.sin(d) * t.sin(d) + t.cos(d) * t.cos(d) == 1.0
  }

  function InscribedFrame(region: Rect, degrees: real, t: Trig): Rect
    requires TrigOk(t) && -MAX_STRAIGHTEN <= degrees <= MAX_STRAIGHTEN
  {
    if region.Empty() || degrees == 0.0 then region else
    var sin, cos := t.sin(Abs(degrees)), t.cos(Abs(degrees));
    Kept(region, KeptWidth(region, sin, cos), KeptHeight(region, sin, cos))
  }

  function StartGeometry(w: int, h: int): Geometry {
    Geometry(Rect(0, 0, w, h), 0.0, Rect(0, 0, w, h), TopLeft, 0, 0)
  }

  function Ratio(natural: int, target: int): real {
    if target > 0 then natural as real / target as real else 1.0
  }

  function Scaled(n: int, scale: real): real { n as real * scale }

  /** A crop, given in what the user sees, measured in source pixels before the turns. */
  function NaturalCrop(g: Geometry, rect: Rect): (r: Rect)
    ensures !r.Empty()
  {
    var scaleX, scaleY := Ratio(g.NaturalWidth(), g.targetWidth), Ratio(g.NaturalHeight(), g.targetHeight);
    Rect(LRound(Scaled(rect.x, scaleX)), LRound(Scaled(rect.y, scaleY)),
         Max(1, LRound(Scaled(rect.width, scaleX))), Max(1, LRound(Scaled(rect.height, scaleY))))
  }

  /** The same crop in the coordinates of the unturned frame. */
  function CropInFrame(g: Geometry, rect: Rect): Rect {
    MapRectBack(NaturalCrop(g, rect), g.orientation, g.sourceRect.width, g.sourceRect.height)
  }

  function Shifted(r: Rect, origin: Rect): Rect {
    Rect(r.x + origin.x, r.y + origin.y, r.width, r.height)
  }

  function CroppedRect(g: Geometry, rect: Rect, t: Trig): Rect {
    var frame := CropInFrame(g, rect);
    if g.angle == 0.0 then Intersect(Shifted(frame, g.sourceRect), g.sourceRect)
    else CroppedTurned(g.sourceRect, g.angle, frame, t)
  }

  function Middle(at: int, side: int): real { at as real + side as real / 2.0 }

  /** How far the middle of a crop is from the middle of its frame, before the turn. */
  function OffMiddle(at: int, side: int, whole: int): real { Middle(at, side) - whole as real / 2.0 }

  function TurnedX(dx: real, dy: real, sin: real, cos: real): real { dx * cos - dy * sin }
  function TurnedY(dx: real, dy: real, sin: real, cos: real): real { dx * sin + dy * cos }

  /** A crop of a turned frame moves its centre and keeps its size. */
  function CroppedTurned(s: Rect, angle: real, frame: Rect, t: Trig): Rect {
    var sin, cos := t.sin(angle), t.cos(angle);
    var dx, dy := OffMiddle(frame.x, frame.width, s.width), OffMiddle(frame.y, frame.height, s.height);
    var cx := Middle(s.x, s.width) + TurnedX(dx, dy, sin, cos);
    var cy := Middle(s.y, s.height) + TurnedY(dx, dy, sin, cos);
    Rect(LRound(cx - frame.width as real / 2.0), LRound(cy - frame.height as real / 2.0), frame.width, frame.height)
  }

  /** Keep the resample ratio a resize set up. */
  function Retarget(natural: int, scale: real): int {
    if scale == 0.0 then 1 else Max(1, LRound(natural as real / scale))
  }

  function Step(g: Geometry, op: Operation, t: Trig): Geometry
    requires TrigOk(t)
  {
    match op
    case Rotate(quarters) =>
      var turned := g.(orientation := Compose(RotateQuarters(quarters), g.orientation));
      if quarters % 2 != 0 then turned.(targetWidth := g.targetHeight, targetHeight := g.targetWidth) else turned
    case Straighten(angle) =>
      var a := Clamp(angle, -MAX_STRAIGHTEN, MAX_STRAIGHTEN);
      g.(angle := a, sourceRect := InscribedFrame(g.unrotatedRect, a, t))
    case FlipHorizontal => g.(orientation := Compose(TopRight, g.orientation))
    case FlipVertical => g.(orientation := Compose(BottomLeft, g.orientation))
    case Resize(w, h) => g.(targetWidth := Max(1, w), targetHeight := Max(1, h))
    case Crop(rect) =>
      var kept := CroppedRect(g, rect, t);
      var g' := g.(sourceRect := kept, unrotatedRect := kept);
      if g.targetWidth > 0 then
        g'.(targetWidth := Retarget(g'.NaturalWidth(), Ratio(g.NaturalWidth(), g.targetWidth)),
            targetHeight := Retarget(g'.NaturalHeight(), Ratio(g.NaturalHeight(), g.targetHeight)))
      else g'
    case _ => g
  }

  function Fold(ops: seq<Operation>, w: int, h: int, t: Trig): Geometry
    requires TrigOk(t)
  {
    if ops == [] then StartGeometry(w, h)
    else Step(Fold(ops[..|ops| - 1], w, h, t), ops[|ops| - 1], t)
  }

  method FoldGeometry(ops: seq<Operation>, w: int, h: int, t: Trig) returns (g: Geometry)
    requires TrigOk(t)
    ensures g == Fold(ops, w, h, t)
  {
    g := StartGeometry(w, h);
    for i := 0 to |ops|
      invariant g == Fold(ops[..i], w, h, t)
    {
      g := Step(g, ops[i], t);
      assert ops[..i + 1][..i] == ops[..i];
    }
    assert ops[..|ops|] == ops;
  }

  // ------------------------------------------------------- mapping crops back

  /** The rectangle mapped back holds exactly the points that the orientation sends into `rect`. */
  lemma MapRectBackPreimage(rect: Rect, o: Orientation, w: int, h: int, p: Point)
    requires !rect.Empty()
    ensures MapRectBack(rect, o, w, h).Contains(p) <==> rect.Contains(MapPoint(o, w, h, p))
    ensures !MapRectBack(rect, o, w, h).Empty()
    ensures MapRectBack(rect, o, w, h).width == TurnedWidth(o, rect.width, rect.height)
    ensures MapRectBack(rect, o, w, h).height == TurnedHeight(o, rect.width, rect.height)
  {
    if SwapsAxes(o) {
      PreimageSwapped(rect, o, w, h, p);
    } else {
      PreimageStraight(rect, o, w, h, p);
    }
  }

  lemma PreimageStraight(rect: Rect, o: Orientation, w: int, h: int, p: Point)
    requires !rect.Empty() && !SwapsAxes(o)
    ensures var m := MapRectBack(rect, o, w, h);
      && (m.Contains(p) <==> rect.Contains(MapPoint(o, w, h, p)))
      && m.width == rect.width && m.height == rect.height
  {
    match o {
      case TopLeft => assert MapRectBack(rect, o, w, h) == rect;
      case TopRight => assert MapRectBack(rect, o, w, h) == Rect(w - rect.Right(), rect.y, rect.width, rect.height);
      case BottomRight =>
        assert MapRectBack(rect, o, w, h) == Rect(w - rect.Right(), h - rect.Bottom(), rect.width, rect.height);
      case BottomLeft => assert MapRectBack(rect, o, w, h) == Rect(rect.x, h - rect.Bottom(), rect.width, rect.height);
    }
  }

  lemma PreimageSwapped(rect: Rect, o: Orientation, w: int, h: int, p: Point)
    requires !rect.Empty() && SwapsAxes(o)
    ensures var m := MapRectBack(rect, o, w, h);
      && (m.Contains(p) <==> rect.Contains(MapPoint(o, w, h, p)))
      && m.width == rect.height && m.height == rect.width
  {
    match o {
      case LeftTop => assert MapRectBack(rect, o, w, h) == Rect(rect.y, rect.x, rect.height, rect.width);
      case RightTop => assert MapRectBack(rect, o, w, h) == Rect(rect.y, h - rect.Right(), rect.height, rect.width);
      case RightBottom =>
        assert MapRectBack(rect, o, w, h) == Rect(w - rect.Bottom(), h - rect.Right(), rect.height, rect.width);
      case LeftBottom => assert MapRectBack(rect, o, w, h) == Rect(w - rect.Bottom(), rect.x, rect.height, rect.width);
    }
  }

  /** Mapping back and clipping commute. */
  lemma MapRectBackIntersect(a: Rect, b: Rect, o: Orientation, w: int, h: int)
    requires !a.Empty() && !b.Empty()
    ensures MapRectBack(Intersect(a, b), o, w, h) == Intersect(MapRectBack(a, o, w, h), MapRectBack(b, o, w, h))
  {
    var both := Intersect(a, b);
    var ma, mb := MapRectBack(a, o, w, h), MapRectBack(b, o, w, h);
    forall p: Point ensures Intersect(ma, mb).Contains(p) <==> both.Contains(MapPoint(o, w, h, p)) {
      IntersectContains(a, b);
      IntersectContains(ma, mb);
      MapRectBackPreimage(a, o, w, h, p);
      MapRectBackPreimage(b, o, w, h, p);
    }
    IntersectContains(ma, mb);
    if both.Empty() {
      if !Intersect(ma, mb).Empty() {
        assert Intersect(ma, mb).Contains(Point(Intersect(ma, mb).x, Intersect(ma, mb).y));
      }
    } else {
      forall p: Point ensures MapRectBack(both, o, w, h).Contains(p) <==> Intersect(ma, mb).Contains(p) {
        MapRectBackPreimage(both, o, w, h, p);
      }
      var m := MapRectBack(both, o, w, h);
      MapRectBackPreimage(both, o, w, h, Point(m.x, m.y));
      assert m.Contains(Point(m.x, m.y));
      RectExtensional(m, Intersect(ma, mb));
    }
  }

  // ------------------------------------------------------------ straightening

  ghost predicate NoCrop(ops: seq<Operation>) {
    forall i | 0 <= i < |ops| :: !ops[i].Crop?
  }

  /** Two geometries that only differ in what a straighten sets. */
  ghost predicate SameButAngle(a: Geometry, b: Geometry) {
    && a.unrotatedRect == b.unrotatedRect && a.orientation == b.orientation
    && a.targetWidth == b.targetWidth && a.targetHeight == b.targetHeight
  }

  function FoldFrom(g: Geometry, ops: seq<Operation>, t: Trig): Geometry
    requires TrigOk(t)
  {
    if ops == [] then g else Step(FoldFrom(g, ops[..|ops| - 1], t), ops[|ops| - 1], t)
  }

  lemma {:induction false} FoldAppend(a: seq<Operation>, b: seq<Operation>, w: int, h: int, t: Trig)
    requires TrigOk(t)
    ensures Fold(a + b, w, h, t) == FoldFrom(Fold(a, w, h, t), b, t)
  {
    if b == [] {
      assert a + b == a;
    } else {
      assert (a + b)[..|a + b| - 1] == a + b[..|b| - 1];
      FoldAppend(a, b[..|b| - 1], w, h, t);
    }
  }

  lemma {:induction false} SameButAngleKept(a: Geometry, b: Geometry, ops: seq<Operation>, t: Trig)
    requires TrigOk(t) && SameButAngle(a, b) && NoCrop(ops)
    ensures SameButAngle(FoldFrom(a, ops, t), FoldFrom(b, ops, t))
  {
    if ops != [] {
      SameButAngleKept(a, b, ops[..|ops| - 1], t);
      assert !ops[|ops| - 1].Crop?;
    }
  }

  /** A straighten erases every earlier one that has no crop in between. */
  lemma StraightenErases(before: seq<Operation>, first: real, between: seq<Operation>, second: real,
                         w: int, h: int, t: Trig)
    requires TrigOk(t) && NoCrop(between)
    ensures Fold(before + [Straighten(first)] + between + [Straighten(second)], w, h, t)
         == Fold(before + between + [Straighten(second)], w, h, t)
  {
    var g := Fold(before, w, h, t);
    var long, short := before + [Straighten(first)], before;
    assert (before + [Straighten(first)])[..|before|] == before;
    FoldAppend(long, between, w, h, t);
    FoldAppend(short, between, w, h, t);
    SameButAngleKept(Fold(long, w, h, t), g, between, t);
    assert (long + between + [Straighten(second)])[..|long + between|] == long + between;
    assert (short + between + [Straighten(second)])[..|short + between|] == short + between;
  }

  /** Both spans of the shrunk, turned frame fit. */
  lemma ScaleFits(region: Rect, sin: real, cos: real)
    requires !region.Empty() && sin >= 0.0 && cos > 0.0
    ensures var w, h, scale := region.width as real, region.height as real, FrameScale(region, sin, cos);
      scale > 0.0 && w * scale * cos + h * scale * sin <= w && w * scale * sin + h * scale * cos <= h
  {
    var w, h, scale := region.width as real, region.height as real, FrameScale(region, sin, cos);
    PositiveSpan(w, h, sin, cos);
    Below(scale, w, w * cos + h * sin);
    Below(scale, h, w * sin + h * cos);
    assert w * scale * cos + h * scale * sin == scale * (w * cos + h * sin);
    assert w * scale * sin + h * scale * cos == scale * (w * sin + h * cos);
  }

  lemma Below(scale: real, a: real, b: real)
    requires a > 0.0 && b > 0.0 && scale <= a / b
    ensures scale * b <= a && a / b > 0.0
  {
    assert a / b * b == a;
  }

  /** How far a frame of sides `a`, `b` turned about its centre reaches along the axis of `a`. */
  function Reach(a: int, b: int, cos: real, sin: real): real {
    (a as real * cos + b as real * sin) / 2.0
  }

  /** The side kept, placed by a truncated half, leaves a turned frame within half a pixel of its region. */
  lemma CentreNear(start: int, size: int, kept: int, reach: real)
    requires reach <= size as real / 2.0
    ensures var centre := (start + Half(size - kept)) as real + kept as real / 2.0;
      start as real - 0.5 <= centre - reach && centre + reach <= (start + size) as real + 0.5
  {
    assert 2 * Half(size - kept) - 1 <= size - kept <= 2 * Half(size - kept) + 1;
  }

  /** How far a turned frame may reach out of a region, on any side, for it to count as inside. */
  ghost predicate WithinHalfPixel(frame: Rect, region: Rect, sin: real, cos: real) {
    var cx, cy := frame.x as real + frame.width as real / 2.0, frame.y as real + frame.height as real / 2.0;
    var rx, ry := Reach(frame.width, frame.height, cos, sin), Reach(frame.height, frame.width, cos, sin);
    && region.x as real - 0.5 <= cx - rx && cx + rx <= region.Right() as real + 0.5
    && region.y as real - 0.5 <= cy - ry && cy + ry <= region.Bottom() as real + 0.5
  }

  /** One axis: a side of `size`, kept to `kept` of its length, beside one kept to `keptOther`. */
  lemma AxisStaysInside(start: int, size: int, kept: real, keptOther: real, cos: real, sin: real)
    requires kept >= 1.0 && keptOther >= 1.0 && cos > 0.0 && sin >= 0.0
    requires kept * cos + keptOther * sin <= size as real
    ensures var k := Max(1, kept.Floor);
      var centre := (start + Half(size - k)) as real + k as real / 2.0;
      var reach := Reach(k, Max(1, keptOther.Floor), cos, sin);
      start as real - 0.5 <= centre - reach && centre + reach <= (start + size) as real + 0.5
  {
    SideFits(size, kept, keptOther, cos, sin);
    CentreNear(start, size, Max(1, kept.Floor), Reach(Max(1, kept.Floor), Max(1, keptOther.Floor), cos, sin));
  }

  lemma KeptStaysInside(region: Rect, kw: real, kh: real, sin: real, cos: real)
    requires !region.Empty() && sin >= 0.0 && cos > 0.0 && kw >= 1.0 && kh >= 1.0
    requires kw * cos + kh * sin <= region.width as real && kw * sin + kh * cos <= region.height as real
    ensures WithinHalfPixel(Kept(region, kw, kh), region, sin, cos)
  {
    AxisStaysInside(region.x, region.width, kw, kh, cos, sin);
    AxisStaysInside(region.y, region.height, kh, kw, cos, sin);
  }

  lemma KeptSides(region: Rect, sin: real, cos: real)
    requires !region.Empty() && sin >= 0.0 && cos > 0.0
    ensures var kw, kh := KeptWidth(region, sin, cos), KeptHeight(region, sin, cos);
      kw * cos + kh * sin <= region.width as real && kw * sin + kh * cos <= region.height as real
  {
    ScaleFits(region, sin, cos);
  }

  /**
   * The turned frame reaches at most half a pixel outside the region it was cut
   * from, on every side, unless a side had to be clamped up to one pixel.
   */
  lemma InscribedStaysInside(region: Rect, degrees: real, t: Trig)
    requires TrigOk(t) && -MAX_STRAIGHTEN <= degrees <= MAX_STRAIGHTEN && degrees != 0.0 && !region.Empty()
    requires var sin, cos := t.sin(Abs(degrees)), t.cos(Abs(degrees));
      KeptWidth(region, sin, cos) >= 1.0 && KeptHeight(region, sin, cos) >= 1.0
    ensures WithinHalfPixel(InscribedFrame(region, degrees, t), region, t.sin(Abs(degrees)), t.cos(Abs(degrees)))
  {
    hide FrameScale, KeptWidth, KeptHeight, Kept, Reach;
    var sin, cos := t.sin(Abs(degrees)), t.cos(Abs(degrees));
    KeptSides(region, sin, cos);
    KeptStaysInside(region, KeptWidth(region, sin, cos), KeptHeight(region, sin, cos), sin, cos);
  }

  lemma SideFits(size: int, kept: real, keptOther: real, cos: real, sin: real)
    requires kept >= 1.0 && keptOther >= 1.0 && cos > 0.0 && sin >= 0.0
    requires kept * cos + keptOther * sin <= size as real
    ensures Reach(Max(1, kept.Floor), Max(1, keptOther.Floor), cos, sin) <= size as real / 2.0
  {
    KeptBelow(kept);
    KeptBelow(keptOther);
    Shrinks(Max(1, kept.Floor) as real, kept, Max(1, keptOther.Floor) as real, keptOther, cos, sin);
  }

  lemma KeptBelow(kept: real)
    requires kept >= 1.0
    ensures Max(1, kept.Floor) as real <= kept
  {}

  lemma Shrinks(a: real, a': real, b: real, b': real, cos: real, sin: real)
    requires a <= a' && b <= b' && cos > 0.0 && sin >= 0.0
    ensures a * cos + b * sin <= a' * cos + b' * sin
  {
    assert a * cos <= a' * cos;
    assert b * sin <= b' * sin;
  }

  /** No larger frame of the same shape fits: one of the two spans is filled exactly. */
  lemma FrameIsLargest(region: Rect, sin: real, cos: real, scale: real)
    requires !region.Empty() && sin >= 0.0 && cos > 0.0 && scale > FrameScale(region, sin, cos)
    ensures var w, h := region.width as real, region.height as real;
      w * scale * cos + h * scale * sin > w || w * scale * sin + h * scale * cos > h
  {
    var w, h := region.width as real, region.height as real;
    PositiveSpan(w, h, sin, cos);
    Above(scale, w, w * cos + h * sin);
    Above(scale, h, w * sin + h * cos);
    assert w * scale * cos + h * scale * sin == scale * (w * cos + h * sin);
    assert w * scale * sin + h * scale * cos == scale * (w * sin + h * cos);
  }

  lemma Above(scale: real, a: real, b: real)
    requires b > 0.0
    ensures scale > a / b ==> scale * b > a
  {
    assert a / b * b == a;
    if scale > a / b { assert (scale - a / b) * b > 0.0; }
  }
}
