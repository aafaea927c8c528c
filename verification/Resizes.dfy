/**
 * Resizes in the fold: the size of what is rendered, and crops given in the pixels of a
 * resized picture.
 */
module Resizes {
  import opened Integers
  import opened Orientations
  import opened Operations
  import opened Geometries
  import opened Options
  import opened RealArithmetic
  import opened Replay

  // ------------------------------------------------------------ sizes

  /** Both target sides are set, or neither is. */
  ghost predicate Targeted(g: Geometry) {
    (g.targetWidth > 0 && g.targetHeight > 0) || (g.targetWidth == 0 && g.targetHeight == 0)
  }

  /** What each operation does to the size of the picture; a crop's is in CropNearest and ScaleKept. */
  lemma SizesFollow(g: Geometry, op: Operation, t: Trig)
    requires TrigOk(t) && Targeted(g) && !op.Crop?
    ensures var g' := Step(g, op, t); var (w, h) := (g'.OutputWidth(), g'.OutputHeight());
      match op
      case Resize(tw, th) => w == Max(1, tw) && h == Max(1, th)
      case Rotate(q) =>
        if q % 2 == 0 then w == g.OutputWidth() && h == g.OutputHeight()
        else w == g.OutputHeight() && h == g.OutputWidth()
      case Straighten(_) => g.targetWidth > 0 ==> w == g.OutputWidth() && h == g.OutputHeight()
      case _ => w == g.OutputWidth() && h == g.OutputHeight()
  {
    hide InscribedFrame, TrigOk, Compose;
    match op
    case Rotate(q) =>
      QuarterSwaps(q);
      TurnedSizes(g, RotateQuarters(q));
    case FlipHorizontal => TurnedSizes(g, TopRight);
    case FlipVertical => TurnedSizes(g, BottomLeft);
    case _ =>
  }

  lemma QuarterSwaps(q: int)
    ensures SwapsAxes(RotateQuarters(q)) == (q % 2 != 0)
  {}

  lemma TurnedSizes(g: Geometry, o: Orientation)
    ensures var g' := g.(orientation := Compose(o, g.orientation));
      && g'.NaturalWidth() == (if SwapsAxes(o) then g.NaturalHeight() else g.NaturalWidth())
      && g'.NaturalHeight() == (if SwapsAxes(o) then g.NaturalWidth() else g.NaturalHeight())
  {
    hide Compose;
    ComposeMaps(o, g.orientation, 0, 0, Point(0, 0));
  }

  /** Resamplers that give the size they are asked for. */
  ghost predicate GivesSize<P(!new)>(k: Kernels<P>) {
    && (forall i: Image<P>, r: Rect, w: int, h: int | w > 0 && h > 0 :: HasSize(k.resample(i, r, w, h), w, h))
    && (forall i: Image<P>, r: Rect, a: real, w: int, h: int | w > 0 && h > 0 ::
          HasSize(k.straighten(i, r, a, w, h), w, h))
  }

  ghost predicate HasSize<P>(i: Image<P>, w: int, h: int) {
    i.Valid() && i.width == w && i.height == h
  }

  /** Whatever the operations, a full render has the output size of their fold. */
  lemma RenderFullHasSize<P(!new)>(image: Image<P>, ops: seq<Operation>, t: Trig, k: Kernels<P>)
    requires image.Valid() && image.width > 0 && image.height > 0 && TrigOk(t) && GivesSize(k)
    requires RenderFull(image, ops, t, k).Some?
    ensures var g := Fold(ops, image.width, image.height, t);
      HasSize(RenderFull(image, ops, t, k).value, g.OutputWidth(), g.OutputHeight())
  {
    hide Fold, Cropped, Oriented;
    var g := Fold(ops, image.width, image.height, t);
    var swap := SwapsAxes(g.orientation);
    var w := if swap then g.OutputHeight() else g.OutputWidth();
    var h := if swap then g.OutputWidth() else g.OutputHeight();
    if g.angle != 0.0 {
      UprightSize(k.straighten(image, g.sourceRect, g.angle, w, h), g.orientation);
    } else if w != g.sourceRect.width || h != g.sourceRect.height {
      UprightSize(k.resample(image, g.sourceRect, w, h), g.orientation);
    } else if Within(image, g.sourceRect) {
      UprightSize(Cropped(image, g.sourceRect), g.orientation);
    }
  }

  lemma UprightSize<P>(i: Image<P>, o: Orientation)
    requires i.Valid() && i.width > 0 && i.height > 0
    ensures HasSize(Upright(i, o), TurnedWidth(o, i.width, i.height), TurnedHeight(o, i.width, i.height))
  {
    hide Oriented;
  }

  // ------------------------------------------------------------ crops of a resized picture

  /** No other whole number is nearer, and of two the one away from zero is taken. */
  predicate HalfNear(n: int, r: real) {
    var off := n as real - r;
    -0.5 <= off <= 0.5 && (off == 0.5 ==> r > 0.0) && (off == -0.5 ==> r < 0.0)
  }

  lemma Nearest(r: real)
    ensures HalfNear(LRound(r), r)
  {}

  lemma RoundsInt(n: int)
    ensures LRound(n as real) == n
  {}

  /** A place in the resized picture comes from the place as far along in the source, to half a pixel. */
  lemma CropNearest(g: Geometry, rect: Rect)
    requires g.targetWidth > 0 && g.targetHeight > 0
    ensures var c := NaturalCrop(g, rect);
      var (nw, nh) := (g.NaturalWidth() as real, g.NaturalHeight() as real);
      var (tw, th) := (g.targetWidth as real, g.targetHeight as real);
      && HalfNear(c.x, Scaled(rect.x, nw / tw)) && HalfNear(c.y, Scaled(rect.y, nh / th))
      && (c.width == 1 || HalfNear(c.width, Scaled(rect.width, nw / tw)))
      && (c.height == 1 || HalfNear(c.height, Scaled(rect.height, nh / th)))
  {
    hide LRound, HalfNear, Scaled;
    var scaleX := g.NaturalWidth() as real / g.targetWidth as real;
    var scaleY := g.NaturalHeight() as real / g.targetHeight as real;
    Nearest(Scaled(rect.x, scaleX));
    Nearest(Scaled(rect.y, scaleY));
    Nearest(Scaled(rect.width, scaleX));
    Nearest(Scaled(rect.height, scaleY));
  }

  /** A crop keeps the size of a pixel: each target side is what is left, at the scale before, to half a pixel. */
  lemma ScaleKept(g: Geometry, rect: Rect, t: Trig)
    requires TrigOk(t) && g.targetWidth > 0 && g.targetHeight > 0 && !g.sourceRect.Empty()
    ensures var g' := Step(g, Crop(rect), t);
      var (scaleX, scaleY) := (g.targetWidth as real / g.NaturalWidth() as real,
                               g.targetHeight as real / g.NaturalHeight() as real);
      && (g'.targetWidth == 1 || HalfNear(g'.targetWidth, g'.NaturalWidth() as real * scaleX))
      && (g'.targetHeight == 1 || HalfNear(g'.targetHeight, g'.NaturalHeight() as real * scaleY))
  {
    hide CroppedRect, TrigOk, Retarget, Ratio;
    var g' := Step(g, Crop(rect), t);
    Retargeted(g.NaturalWidth(), g.targetWidth, g'.NaturalWidth());
    Retargeted(g.NaturalHeight(), g.targetHeight, g'.NaturalHeight());
  }

  lemma Retargeted(natural: int, target: int, left: int)
    requires natural > 0 && target > 0
    ensures var now := Retarget(left, Ratio(natural, target));
      now == 1 || HalfNear(now, left as real * (target as real / natural as real))
  {
    var n, m := natural as real, target as real;
    DivideByRatio(left as real, n, m);
    Nearest(left as real / (n / m));
  }

  lemma DivideByRatio(a: real, n: real, m: real)
    requires n > 0.0 && m > 0.0
    ensures n / m > 0.0 && a / (n / m) == a * (m / n)
  {
    var q, r := n / m, m / n;
    Chain(q, r, n, m);
    Cancel(q * r, n);
    Associate(a, r, q);
    QuotientIs(a, q, a * r);
  }

  lemma Associate(a: real, b: real, c: real)
    ensures (a * b) * c == a * (b * c) == a * (c * b)
  {}

  lemma Chain(q: real, r: real, n: real, m: real)
    requires q * m == n && r * n == m
    ensures (q * r) * n == n
  {
    calc {
      (q * r) * n;
      q * (r * n);
      q * m;
      n;
    }
  }

  lemma Cancel(q: real, n: real)
    requires n > 0.0 && q * n == n
    ensures q == 1.0
  {
    if q > 1.0 { Positive(q - 1.0, n); }
    if q < 1.0 { Positive(1.0 - q, n); }
  }

  /**
   * Enlarging a picture `k` times across and `m` times down and then cropping the enlarged
   * rectangle keeps what cropping the plain rectangle keeps, enlarged; through any orientation.
   */
  lemma EnlargedCropIsCrop(g: Geometry, k: int, m: int, rect: Rect, t: Trig)
    requires TrigOk(t) && !g.sourceRect.Empty() && k > 0 && m > 0 && !rect.Empty()
    ensures var plain := Step(g.(targetWidth := 0, targetHeight := 0), Crop(rect), t);
      Step(Step(g, Resize(k * g.NaturalWidth(), m * g.NaturalHeight()), t),
           Crop(Rect(k * rect.x, m * rect.y, k * rect.width, m * rect.height)), t)
      == plain.(targetWidth := Max(1, k * plain.NaturalWidth()), targetHeight := Max(1, m * plain.NaturalHeight()))
  {
    hide CroppedRect, TrigOk, NaturalCrop, Retarget;
    var plain := g.(targetWidth := 0, targetHeight := 0);
    var (nw, nh) := (g.NaturalWidth(), g.NaturalHeight());
    Multiples(k, nw);
    Multiples(m, nh);
    var large := Step(g, Resize(k * nw, m * nh), t);
    var enlarged := Rect(k * rect.x, m * rect.y, k * rect.width, m * rect.height);
    assert large == g.(targetWidth := k * nw, targetHeight := m * nh);
    SameNaturalCrop(plain, large, k, m, rect, enlarged);
    SameCroppedRect(plain, large, rect, enlarged, t);
    var left := Step(plain, Crop(rect), t);
    RetargetMultiple(nw, k, left.NaturalWidth());
    RetargetMultiple(nh, m, left.NaturalHeight());
  }

  lemma Multiples(k: int, n: int)
    requires k > 0 && n > 0
    ensures k * n >= 1
  {}

  lemma SameCroppedRect(a: Geometry, b: Geometry, rect: Rect, enlarged: Rect, t: Trig)
    requires NaturalCrop(a, rect) == NaturalCrop(b, enlarged)
    requires a.sourceRect == b.sourceRect && a.orientation == b.orientation && a.angle == b.angle
    ensures CroppedRect(a, rect, t) == CroppedRect(b, enlarged, t)
  {
    hide MapRectBack, NaturalCrop, Intersect, CroppedTurned;
    assert CropInFrame(a, rect) == CropInFrame(b, enlarged);
  }

  lemma SameNaturalCrop(plain: Geometry, large: Geometry, k: int, m: int, rect: Rect, enlarged: Rect)
    requires k > 0 && m > 0 && !rect.Empty() && plain.NaturalWidth() > 0 && plain.NaturalHeight() > 0
    requires plain.targetWidth == 0 && plain.targetHeight == 0
    requires large == plain.(targetWidth := k * plain.NaturalWidth(), targetHeight := m * plain.NaturalHeight())
    requires enlarged == Rect(k * rect.x, m * rect.y, k * rect.width, m * rect.height)
    ensures NaturalCrop(large, enlarged) == rect == NaturalCrop(plain, rect)
  {
    hide LRound, Scaled, Ratio;
    var (nw, nh) := (plain.NaturalWidth(), plain.NaturalHeight());
    Multiples(k, nw);
    Multiples(m, nh);
    assert large.NaturalWidth() == nw && large.NaturalHeight() == nh;
    CameBack(nw, k, rect.x);
    CameBack(nh, m, rect.y);
    CameBack(nw, k, rect.width);
    CameBack(nh, m, rect.height);
  }

  lemma CameBack(n: int, k: int, x: int)
    requires n > 0 && k > 0 && k * n > 0
    ensures LRound(Scaled(k * x, Ratio(n, k * n))) == x
    ensures LRound(Scaled(x, Ratio(n, 0))) == x
  {
    hide LRound;
    Reduced(n, k, x);
    RoundsInt(x);
  }

  /** An enlarged length comes back through the ratio as it was. */
  lemma Reduced(n: int, k: int, x: int)
    requires n > 0 && k > 0 && k * n > 0
    ensures Scaled(k * x, Ratio(n, k * n)) == x as real
  {
    var q := n as real / (k * n) as real;
    Products(k, n);
    Products(k, x);
    QuotientTimes(n as real, (k * n) as real, q);
    Chain(q, k as real, n as real, (k * n) as real);
    Cancel(q * k as real, n as real);
    Associate(q, k as real, x as real);
  }

  lemma Products(k: int, n: int)
    ensures (k * n) as real == k as real * n as real
  {}

  lemma QuotientTimes(a: real, b: real, q: real)
    requires b != 0.0 && q == a / b
    ensures q * b == a
  {}

  lemma RetargetMultiple(n: int, k: int, left: int)
    requires n > 0 && k > 0 && k * n > 0
    ensures Retarget(left, Ratio(n, k * n)) == Max(1, k * left)
  {
    hide LRound;
    var q := Ratio(n, k * n);
    Reduced(n, k, left);
    DivideByRatio(1.0, n as real, (k * n) as real);
    assert q > 0.0;
    assert Scaled(k * left, q) == left as real;
    QuotientIs(left as real, q, (k * left) as real);
    RoundsInt(k * left);
  }

  lemma QuotientIs(a: real, q: real, b: real)
    requires q > 0.0 && b * q == a
    ensures a / q == b
  {}

  // ------------------------------------------------------------ crops of a turned frame

  /** An offset as long as another and at the angle with this sine and cosine from it. */
  predicate GoneRound(sin: real, cos: real, dx: real, dy: real, ex: real, ey: real) {
    var square := dx * dx + dy * dy;
    ex * ex + ey * ey == square && ex * dx + ey * dy == cos * square && ey * dx - ex * dy == sin * square
  }

  /**
   * A crop of a straightened frame keeps its size, and its middle goes round the middle of
   * the frame by the angle: as far off as before, and turned by that sine and cosine.
   */
  lemma TurnedCropGoesRound(s: Rect, angle: real, frame: Rect, t: Trig) returns (ex: real, ey: real)
    requires t.sin(angle) * t.sin(angle) + t.cos(angle) * t.cos(angle) == 1.0
    ensures GoneRound(t.sin(angle), t.cos(angle), OffMiddle(frame.x, frame.width, s.width),
                      OffMiddle(frame.y, frame.height, s.height), ex, ey)
    ensures var r := CroppedTurned(s, angle, frame, t);
      && r.width == frame.width && r.height == frame.height
      && HalfNear(r.x, Middle(s.x, s.width) + ex - frame.width as real / 2.0)
      && HalfNear(r.y, Middle(s.y, s.height) + ey - frame.height as real / 2.0)
  {
    hide LRound, HalfNear, GoneRound, TurnedX, TurnedY, Middle, OffMiddle;
    var sin, cos := t.sin(angle), t.cos(angle);
    var dx, dy := OffMiddle(frame.x, frame.width, s.width), OffMiddle(frame.y, frame.height, s.height);
    ex, ey := TurnedX(dx, dy, sin, cos), TurnedY(dx, dy, sin, cos);
    TurnGoesRound(sin, cos, dx, dy);
    Nearest(Middle(s.x, s.width) + ex - frame.width as real / 2.0);
    Nearest(Middle(s.y, s.height) + ey - frame.height as real / 2.0);
  }

  lemma TurnGoesRound(sin: real, cos: real, dx: real, dy: real)
    requires sin * sin + cos * cos == 1.0
    ensures GoneRound(sin, cos, dx, dy, TurnedX(dx, dy, sin, cos), TurnedY(dx, dy, sin, cos))
  {
    GoesRound(sin, cos, dx, dy, TurnedX(dx, dy, sin, cos), TurnedY(dx, dy, sin, cos));
  }

  lemma GoesRound(sin: real, cos: real, dx: real, dy: real, ex: real, ey: real)
    requires sin * sin + cos * cos == 1.0 && ex == dx * cos - dy * sin && ey == dx * sin + dy * cos
    ensures GoneRound(sin, cos, dx, dy, ex, ey)
  {
    assert ex * ex == (dx * dx) * (cos * cos) - 2.0 * ((dx * dy) * (sin * cos)) + (dy * dy) * (sin * sin);
    assert ey * ey == (dx * dx) * (sin * sin) + 2.0 * ((dx * dy) * (sin * cos)) + (dy * dy) * (cos * cos);
    assert (dx * dx) * (sin * sin + cos * cos) == dx * dx && (dy * dy) * (sin * sin + cos * cos) == dy * dy;
  }

  /** A straightened frame is about the middle of its region, and as large as it may be to a whole pixel. */
  lemma FrameToAPixel(region: Rect, degrees: real, t: Trig)
    requires TrigOk(t) && -MAX_STRAIGHTEN <= degrees <= MAX_STRAIGHTEN && degrees != 0.0 && !region.Empty()
    ensures var (sin, cos) := (t.sin(Abs(degrees)), t.cos(Abs(degrees)));
      var f := InscribedFrame(region, degrees, t);
      && sin >= 0.0 && cos > 0.0
      && (f.width == 1 || f.width as real <= KeptWidth(region, sin, cos) < (f.width + 1) as real)
      && (f.height == 1 || f.height as real <= KeptHeight(region, sin, cos) < (f.height + 1) as real)
      && -1 <= (2 * f.x + f.width) - (2 * region.x + region.width) <= 1
      && -1 <= (2 * f.y + f.height) - (2 * region.y + region.height) <= 1
  {
    hide KeptWidth, KeptHeight;
    assert 0.0 <= Abs(degrees) <= MAX_STRAIGHTEN;
    assert t.sin(Abs(degrees)) >= 0.0 && t.cos(Abs(degrees)) > 0.0;
  }
}
