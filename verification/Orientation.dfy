/**
 * The eight EXIF orientations, and what they do to points and to images.
 */
module Orientations {
  import opened Grids

  datatype Orientation = TopLeft | TopRight | BottomRight | BottomLeft | LeftTop | RightTop | RightBottom | LeftBottom

  /** A mirror followed by clockwise quarter turns. */
  datatype Symmetry = Symmetry(quarters: int, mirrored: bool)

  function ToSymmetry(o: Orientation): Symmetry {
    match o
    case TopLeft => Symmetry(0, false)
    case TopRight => Symmetry(0, true)
    case BottomRight => Symmetry(2, false)
    case BottomLeft => Symmetry(2, true)
    case LeftTop => Symmetry(3, true)
    case RightTop => Symmetry(1, false)
    case RightBottom => Symmetry(1, true)
    case LeftBottom => Symmetry(3, false)
  }

  /** The remainder is never negative here, as in the source after its correction. */
  function FromSymmetry(s: Symmetry): Orientation {
    var quarters := s.quarters % 4;
    if !s.mirrored then
      if quarters == 0 then TopLeft else if quarters == 1 then RightTop
      else if quarters == 2 then BottomRight else LeftBottom
    else
      if quarters == 0 then TopRight else if quarters == 1 then RightBottom
      else if quarters == 2 then BottomLeft else LeftTop
  }

  function FromInt(value: int): Orientation {
    if value == 2 then TopRight else if value == 3 then BottomRight else if value == 4 then BottomLeft
    else if value == 5 then LeftTop else if value == 6 then RightTop else if value == 7 then RightBottom
    else if value == 8 then LeftBottom else TopLeft
  }

  predicate SwapsAxes(o: Orientation) {
    o.LeftTop? || o.RightTop? || o.RightBottom? || o.LeftBottom?
  }

  function Compose(second: Orientation, first: Orientation): Orientation {
    var a := ToSymmetry(first);
    var b := ToSymmetry(second);
    FromSymmetry(Symmetry(b.quarters + (if b.mirrored then -a.quarters else a.quarters), a.mirrored != b.mirrored))
  }

  function Inverse(o: Orientation): Orientation {
    var s := ToSymmetry(o);
    if s.mirrored then FromSymmetry(Symmetry(s.quarters, true)) else FromSymmetry(Symmetry(-s.quarters, false))
  }

  function RotateQuarters(quarters: int): Orientation {
    FromSymmetry(Symmetry(quarters, false))
  }

  datatype Point = Point(x: int, y: int)

  /** The size an orientation turns `w` by `h` into. */
  function TurnedWidth(o: Orientation, w: int, h: int): int { if SwapsAxes(o) then h else w }
  function TurnedHeight(o: Orientation, w: int, h: int): int { if SwapsAxes(o) then w else h }

  /** Where a point of a `w` by `h` image lands. */
  function MapPoint(o: Orientation, w: int, h: int, p: Point): Point {
    match o
    case TopLeft => p
    case TopRight => Point(w - 1 - p.x, p.y)
    case BottomRight => Point(w - 1 - p.x, h - 1 - p.y)
    case BottomLeft => Point(p.x, h - 1 - p.y)
    case LeftTop => Point(p.y, p.x)
    case RightTop => Point(h - 1 - p.y, p.x)
    case RightBottom => Point(h - 1 - p.y, w - 1 - p.x)
    case LeftBottom => Point(p.y, w - 1 - p.x)
  }

  predicate Inside(p: Point, w: int, h: int) { 0 <= p.x < w && 0 <= p.y < h }

  // ------------------------------------------------------------- the group

  /** The same orientation as a transpose followed by mirrors of the two axes. */
  datatype Axes = Axes(swap: bool, flipX: bool, flipY: bool)

  function AxesOf(o: Orientation): Axes {
    match o
    case TopLeft => Axes(false, false, false)
    case TopRight => Axes(false, true, false)
    case BottomRight => Axes(false, true, true)
    case BottomLeft => Axes(false, false, true)
    case LeftTop => Axes(true, false, false)
    case RightTop => Axes(true, true, false)
    case RightBottom => Axes(true, true, true)
    case LeftBottom => Axes(true, false, true)
  }

  function ComposeAxes(b: Axes, a: Axes): Axes {
    Axes(b.swap != a.swap,
         b.flipX != (if b.swap then a.flipY else a.flipX),
         b.flipY != (if b.swap then a.flipX else a.flipY))
  }

  function MapAxes(a: Axes, w: int, h: int, p: Point): Point {
    var q := if a.swap then Point(p.y, p.x) else p;
    var (tw, th) := if a.swap then (h, w) else (w, h);
    Point(if a.flipX then tw - 1 - q.x else q.x, if a.flipY then th - 1 - q.y else q.y)
  }

  lemma MapByAxes(o: Orientation, w: int, h: int, p: Point)
    ensures MapPoint(o, w, h, p) == MapAxes(AxesOf(o), w, h, p) && SwapsAxes(o) == AxesOf(o).swap
  {}

  lemma AxesDecide(a: Orientation, b: Orientation)
    requires AxesOf(a) == AxesOf(b)
    ensures a == b
  {}

  /** The turn count and the mirror agree with the transpose and the two mirrors. */
  function AxesOfSymmetry(s: Symmetry): Axes {
    var q := s.quarters % 4;
    Axes(q == 1 || q == 3, (q == 1 || q == 2) != (s.mirrored && q % 2 == 0), (q >= 2) != (s.mirrored && q % 2 == 1))
  }

  lemma AxesOfFrom(s: Symmetry)
    ensures AxesOf(FromSymmetry(s)) == AxesOfSymmetry(s)
  {}

  lemma AxesOfTo(o: Orientation)
    ensures AxesOf(o) == AxesOfSymmetry(ToSymmetry(o)) && 0 <= ToSymmetry(o).quarters < 4
  {}

  lemma ComposeSymmetries(b: Symmetry, a: Symmetry)
    requires 0 <= a.quarters < 4 && 0 <= b.quarters < 4
    ensures AxesOfSymmetry(
              Symmetry(b.quarters + (if b.mirrored then -a.quarters else a.quarters), a.mirrored != b.mirrored))
         == ComposeAxes(AxesOfSymmetry(b), AxesOfSymmetry(a))
  {}

  lemma ComposeByAxes(second: Orientation, first: Orientation)
    ensures AxesOf(Compose(second, first)) == ComposeAxes(AxesOf(second), AxesOf(first))
  {
    AxesOfTo(first);
    AxesOfTo(second);
    ComposeSymmetries(ToSymmetry(second), ToSymmetry(first));
    var a, b := ToSymmetry(first), ToSymmetry(second);
    AxesOfFrom(Symmetry(b.quarters + (if b.mirrored then -a.quarters else a.quarters), a.mirrored != b.mirrored));
  }

  /** Composition is what doing one after the other does to every point. */
  lemma ComposeMaps(second: Orientation, first: Orientation, w: int, h: int, p: Point)
    ensures MapPoint(Compose(second, first), w, h, p)
         == MapPoint(second, TurnedWidth(first, w, h), TurnedHeight(first, w, h), MapPoint(first, w, h, p))
    ensures SwapsAxes(Compose(second, first)) == (SwapsAxes(second) != SwapsAxes(first))
  {
    MapByAxes(Compose(second, first), w, h, p);
    ComposeByAxes(second, first);
    MapByAxes(first, w, h, p);
    MapByAxes(second, TurnedWidth(first, w, h), TurnedHeight(first, w, h), MapPoint(first, w, h, p));
  }

  lemma InverseMaps(o: Orientation, w: int, h: int, p: Point)
    ensures MapPoint(Inverse(o), TurnedWidth(o, w, h), TurnedHeight(o, w, h), MapPoint(o, w, h, p)) == p
    ensures MapPoint(o, w, h, MapPoint(Inverse(o), TurnedWidth(o, w, h), TurnedHeight(o, w, h), p)) == p
    ensures SwapsAxes(Inverse(o)) == SwapsAxes(o)
    ensures Inside(p, w, h) <==> Inside(MapPoint(o, w, h, p), TurnedWidth(o, w, h), TurnedHeight(o, w, h))
  {}

  /** The orientations are a group under composition. */
  lemma Group(a: Orientation, b: Orientation, c: Orientation)
    ensures Compose(a, Compose(b, c)) == Compose(Compose(a, b), c)
    ensures Compose(TopLeft, a) == a == Compose(a, TopLeft)
    ensures Compose(Inverse(a), a) == TopLeft == Compose(a, Inverse(a))
  {
    ComposeByAxes(a, Compose(b, c));
    ComposeByAxes(b, c);
    ComposeByAxes(Compose(a, b), c);
    ComposeByAxes(a, b);
    AxesDecide(Compose(a, Compose(b, c)), Compose(Compose(a, b), c));
    Inverses(a);
  }

  lemma Inverses(a: Orientation)
    ensures Compose(TopLeft, a) == a == Compose(a, TopLeft)
    ensures Compose(Inverse(a), a) == TopLeft == Compose(a, Inverse(a))
  {}

  // ------------------------------------------------------------------ images

  /** Pixels by row. Unlike a bare grid, an image without rows still has a width. */
  datatype Image<P> = Image(width: nat, height: nat, rows: Grid<P>) {
    ghost predicate Valid() {
      |rows| == height && forall y | 0 <= y < height :: |rows[y]| == width
    }

    function At(p: Point): P
      requires Valid() && Inside(p, width, height)
    {
      rows[p.y][p.x]
    }
  }

  /** Images of the same size with the same pixels are equal. */
  lemma SameImage<P>(a: Image<P>, b: Image<P>)
    requires a.Valid() && b.Valid() && a.width == b.width && a.height == b.height
    requires forall p: Point | Inside(p, a.width, a.height) :: a.At(p) == b.At(p)
    ensures a == b
  {
    forall y | 0 <= y < a.height ensures a.rows[y] == b.rows[y] {
      forall x | 0 <= x < a.width ensures a.rows[y][x] == b.rows[y][x] {
        assert a.At(Point(x, y)) == b.At(Point(x, y));
      }
    }
  }

  /** Build an image from a rule for its pixels. */
  ghost function Painted<P>(w: nat, h: nat, pixel: Point -> P): (r: Image<P>)
    ensures r.Valid() && r.width == w && r.height == h
    ensures forall p: Point | Inside(p, w, h) :: r.At(p) == pixel(p)
  {
    Image(w, h, seq(h, y => seq(w, x => pixel(Point(x, y)))))
  }

  ghost function PixelAt<P>(image: Image<P>, p: Point): P
    requires image.Valid() && image.width > 0 && image.height > 0
  {
    if Inside(p, image.width, image.height) then image.At(p) else image.At(Point(0, 0))
  }

  /**
   * The upright image: each target pixel reads the source pixel that the inverse
   * orientation sends it to.
   */
  ghost function Oriented<P>(image: Image<P>, o: Orientation): (r: Image<P>)
    requires image.Valid() && image.width > 0 && image.height > 0
    ensures r.Valid()
    ensures r.width == TurnedWidth(o, image.width, image.height)
    ensures r.height == TurnedHeight(o, image.width, image.height)
  {
    var w, h := TurnedWidth(o, image.width, image.height), TurnedHeight(o, image.width, image.height);
    Painted(w, h, p => PixelAt(image, MapPoint(Inverse(o), w, h, p)))
  }

  lemma OrientedAt<P>(image: Image<P>, o: Orientation, p: Point)
    requires image.Valid() && Inside(p, image.width, image.height)
    ensures var r := Oriented(image, o);
      Inside(MapPoint(o, image.width, image.height, p), r.width, r.height)
      && r.At(MapPoint(o, image.width, image.height, p)) == image.At(p)
  {
    InverseMaps(o, image.width, image.height, p);
  }

  /** `r` has the right size, and every pixel of `image` is where `o` sends it. */
  ghost predicate IsOriented<P>(image: Image<P>, o: Orientation, r: Image<P>)
    requires image.Valid()
  {
    && r.Valid()
    && r.width == TurnedWidth(o, image.width, image.height)
    && r.height == TurnedHeight(o, image.width, image.height)
    && forall p: Point | Inside(p, image.width, image.height) :: Moved(image, o, r, p)
  }

  ghost predicate Moved<P>(image: Image<P>, o: Orientation, r: Image<P>, p: Point)
    requires image.Valid() && Inside(p, image.width, image.height) && r.Valid()
  {
    var q := MapPoint(o, image.width, image.height, p);
    Inside(q, r.width, r.height) && r.At(q) == image.At(p)
  }

  lemma OrientedIs<P>(image: Image<P>, o: Orientation)
    requires image.Valid() && image.width > 0 && image.height > 0
    ensures IsOriented(image, o, Oriented(image, o))
  {
    forall p: Point | Inside(p, image.width, image.height) ensures Moved(image, o, Oriented(image, o), p) {
      OrientedAt(image, o, p);
    }
  }

  /** An orientation is onto, so where the source pixels went settles every target pixel. */
  lemma OrientedUnique<P>(image: Image<P>, o: Orientation, r: Image<P>)
    requires image.Valid() && image.width > 0 && image.height > 0 && IsOriented(image, o, r)
    ensures r == Oriented(image, o)
  {
    forall q: Point | Inside(q, r.width, r.height) ensures r.At(q) == Oriented(image, o).At(q) {
      var p := MapPoint(Inverse(o), r.width, r.height, q);
      InverseMaps(o, image.width, image.height, p);
      InverseMaps(o, image.width, image.height, q);
      assert Moved(image, o, r, p);
      OrientedAt(image, o, p);
    }
    SameImage(r, Oriented(image, o));
  }

  lemma MovedTwice<P>(image: Image<P>, first: Orientation, once: Image<P>, second: Orientation,
                     twice: Image<P>, p: Point)
    requires image.Valid() && IsOriented(image, first, once) && IsOriented(once, second, twice)
    requires Inside(p, image.width, image.height)
    ensures Moved(image, Compose(second, first), twice, p)
  {
    var q := MapPoint(first, image.width, image.height, p);
    assert Moved(image, first, once, p);
    assert Moved(once, second, twice, q);
    ComposeMaps(second, first, image.width, image.height, p);
  }

  lemma TwiceIs<P>(image: Image<P>, first: Orientation, once: Image<P>, second: Orientation, twice: Image<P>)
    requires image.Valid() && IsOriented(image, first, once) && IsOriented(once, second, twice)
    ensures IsOriented(image, Compose(second, first), twice)
  {
    ComposeMaps(second, first, image.width, image.height, Point(0, 0));
    forall p: Point | Inside(p, image.width, image.height) ensures Moved(image, Compose(second, first), twice, p) {
      MovedTwice(image, first, once, second, twice, p);
    }
  }

  /** Orienting twice is orienting once by the composition. */
  lemma OrientedTwice<P>(image: Image<P>, first: Orientation, second: Orientation)
    requires image.Valid() && image.width > 0 && image.height > 0
    ensures Oriented(Oriented(image, first), second) == Oriented(image, Compose(second, first))
  {
    var once := Oriented(image, first);
    OrientedIs(image, first);
    OrientedIs(once, second);
    TwiceIs(image, first, once, second, Oriented(once, second));
    OrientedUnique(image, Compose(second, first), Oriented(once, second));
  }

  lemma OrientedUpright<P>(image: Image<P>)
    requires image.Valid() && image.width > 0 && image.height > 0
    ensures Oriented(image, TopLeft) == image
  {
    forall p: Point | Inside(p, image.width, image.height)
      ensures Oriented(image, TopLeft).At(p) == image.At(p)
    {
      OrientedAt(image, TopLeft, p);
    }
    SameImage(Oriented(image, TopLeft), image);
  }

  lemma OrientedBack<P>(image: Image<P>, o: Orientation)
    requires image.Valid() && image.width > 0 && image.height > 0
    ensures Oriented(Oriented(image, o), Inverse(o)) == image
  {
    OrientedTwice(image, o, Inverse(o));
    Group(o, o, o);
    OrientedUpright(image);
  }

  /** The picture a buffer holds. */
  ghost function Contents<P>(buffer: array2<P>): (r: Image<P>)
    reads buffer
    ensures r.Valid() && r.width == buffer.Length1 && r.height == buffer.Length0
  {
    Image(buffer.Length1, buffer.Length0, Held(buffer))
  }

  /**
   * Walks the source and writes each pixel where it lands. The orientation is a
   * bijection, so every target pixel is written, and by one source pixel only.
   */
  method ApplyOrientation<P(0)>(image: array2<P>, o: Orientation) returns (result: array2<P>)
    requires image.Length0 > 0 && image.Length1 > 0
    ensures fresh(result)
    ensures Contents(result) == Oriented(Contents(image), o)
  {
    var h, w := image.Length0, image.Length1;
    result := new P[if SwapsAxes(o) then w else h, if SwapsAxes(o) then h else w];
    for y := 0 to h
      invariant forall v, u | 0 <= v < y && 0 <= u < w :: Landed(image, result, o, u, v)
    {
      for x := 0 to w
        invariant forall v, u | 0 <= v < y && 0 <= u < w :: Landed(image, result, o, u, v)
        invariant forall u | 0 <= u < x :: Landed(image, result, o, u, y)
      {
        var target := MapPoint(o, w, h, Point(x, y));
        InverseMaps(o, w, h, Point(x, y));
        label before:
        result[target.y, target.x] := image[y, x];
        forall v, u | 0 <= v < h && 0 <= u < w && (u != x || v != y)
          ensures old@before(Landed(image, result, o, u, v)) ==> Landed(image, result, o, u, v)
        {
          InverseMaps(o, w, h, Point(u, v));
        }
      }
    }
    forall p: Point | Inside(p, w, h) ensures Moved(Contents(image), o, Contents(result), p) {
      assert Landed(image, result, o, p.x, p.y);
    }
    OrientedUnique(Contents(image), o, Contents(result));
  }

  /** The pixel at (x, y) of `image` is where it should be in `result`. */
  ghost predicate Landed<P>(image: array2<P>, result: array2<P>, o: Orientation, x: int, y: int)
    reads image, result
    requires 0 <= y < image.Length0 && 0 <= x < image.Length1
  {
    var q := MapPoint(o, image.Length1, image.Length0, Point(x, y));
    Inside(q, result.Length1, result.Length0) && result[q.y, q.x] == image[y, x]
  }
}
