/**
 * What the orientations mean, said without them: by the sides of the picture, as the
 * Orientation field in section 8 of TIFF 6.0 numbers them, and by mirrors and turns of pixels.
 */
module Turns {
  import opened Orientations

  // ------------------------------------------------------------- the tag

  datatype Side = AtTop | AtBottom | AtLeft | AtRight

  /** Where the picture's first stored row is to be seen, by the value of the tag. */
  function FirstRow(value: int): Side
    requires 1 <= value <= 8
  {
    [AtTop, AtTop, AtBottom, AtBottom, AtLeft, AtRight, AtRight, AtLeft][value - 1]
  }

  /** Where its first stored column is to be seen. */
  function FirstColumn(value: int): Side
    requires 1 <= value <= 8
  {
    [AtLeft, AtRight, AtRight, AtLeft, AtTop, AtTop, AtBottom, AtBottom][value - 1]
  }

  function DistanceFrom(side: Side, w: int, h: int, p: Point): int {
    match side
    case AtTop => p.y
    case AtBottom => h - 1 - p.y
    case AtLeft => p.x
    case AtRight => w - 1 - p.x
  }

  /**
   * A stored point lands as far from the side its first row is shown at as its row is from
   * the first, and likewise for columns. Any value that is no tag leaves the picture alone.
   */
  lemma TagMeans(value: int, w: int, h: int, p: Point)
    ensures 1 <= value <= 8 ==>
      var o := FromInt(value);
      var tw, th, q := TurnedWidth(o, w, h), TurnedHeight(o, w, h), MapPoint(o, w, h, p);
      && (tw, th) == (if FirstRow(value) in {AtLeft, AtRight} then (h, w) else (w, h))
      && DistanceFrom(FirstRow(value), tw, th, q) == p.y
      && DistanceFrom(FirstColumn(value), tw, th, q) == p.x
    ensures !(1 <= value <= 8) ==> MapPoint(FromInt(value), w, h, p) == p && !SwapsAxes(FromInt(value))
  {
    if 1 <= value <= 8 {
      assert value == 1 || value == 2 || value == 3 || value == 4
          || value == 5 || value == 6 || value == 7 || value == 8;
    }
  }

  // ------------------------------------------------------------- quarter turns

  /** One quarter is clockwise, none is nothing, and quarters add up, counted backwards too. */
  lemma QuartersTurn(a: int, b: int, w: int, h: int, p: Point)
    ensures MapPoint(RotateQuarters(1), w, h, p) == Point(h - 1 - p.y, p.x)
    ensures RotateQuarters(0) == TopLeft
    ensures RotateQuarters(a + b) == Compose(RotateQuarters(a), RotateQuarters(b))
  {
    var m, n := a % 4, b % 4;
    assert RotateQuarters(a) == RotateQuarters(m) && RotateQuarters(b) == RotateQuarters(n);
    assert (a + b) % 4 == (m + n) % 4;
    assert RotateQuarters(a + b) == RotateQuarters(m + n);
    SmallQuartersAdd(m, n);
  }

  lemma SmallQuartersAdd(m: int, n: int)
    requires 0 <= m < 4 && 0 <= n < 4
    ensures RotateQuarters(m + n) == Compose(RotateQuarters(m), RotateQuarters(n))
  {
    TurnsBack(m);
    TurnsBack(n);
  }

  lemma TurnsBack(m: int)
    requires 0 <= m < 4
    ensures ToSymmetry(RotateQuarters(m)) == Symmetry(m, false)
  {}

  /** A picture of the size asked for, each pixel read from where `from` says. */
  ghost function Read<P>(image: Image<P>, w: nat, h: nat, from: Point -> Point): (r: Image<P>)
    requires image.Valid() && image.width > 0 && image.height > 0
    requires forall p: Point {:trigger from(p)} | Inside(p, w, h) :: Inside(from(p), image.width, image.height)
    ensures r.Valid() && r.width == w && r.height == h
    ensures forall p: Point {:trigger r.At(p)} | Inside(p, w, h) :: r.At(p) == image.At(from(p))
  {
    Painted(w, h, (p: Point) => PixelAt(image, from(p)))
  }

  /** The picture turned once clockwise: its left column, read upwards, is the new top row. */
  ghost function Clockwise<P>(image: Image<P>): (r: Image<P>)
    requires image.Valid() && image.width > 0 && image.height > 0
    ensures r.Valid() && r.width == image.height && r.height == image.width
    ensures forall p: Point {:trigger r.At(p)} | Inside(p, r.width, r.height) ::
      r.At(p) == image.At(Point(p.y, image.height - 1 - p.x))
  {
    Read(image, image.height, image.width, (p: Point) => Point(p.y, image.height - 1 - p.x))
  }

  ghost function Clockwises<P>(image: Image<P>, n: nat): (r: Image<P>)
    requires image.Valid() && image.width > 0 && image.height > 0
    ensures r.Valid() && r.width > 0 && r.height > 0
  {
    if n == 0 then image else Clockwise(Clockwises(image, n - 1))
  }

  /** Every row the other way round. */
  ghost function Mirrored<P>(image: Image<P>): (r: Image<P>)
    requires image.Valid() && image.width > 0 && image.height > 0
    ensures r.Valid() && r.width == image.width && r.height == image.height
    ensures forall p: Point {:trigger r.At(p)} | Inside(p, r.width, r.height) ::
      r.At(p) == image.At(Point(image.width - 1 - p.x, p.y))
  {
    Read(image, image.width, image.height, (p: Point) => Point(image.width - 1 - p.x, p.y))
  }

  /** The rows from the bottom up. */
  ghost function Upended<P>(image: Image<P>): (r: Image<P>)
    requires image.Valid() && image.width > 0 && image.height > 0
    ensures r.Valid() && r.width == image.width && r.height == image.height
    ensures forall p: Point {:trigger r.At(p)} | Inside(p, r.width, r.height) ::
      r.At(p) == image.At(Point(p.x, image.height - 1 - p.y))
  {
    Read(image, image.width, image.height, (p: Point) => Point(p.x, image.height - 1 - p.y))
  }

  lemma ClockwiseIs<P>(image: Image<P>)
    requires image.Valid() && image.width > 0 && image.height > 0
    ensures Clockwise(image) == Oriented(image, RotateQuarters(1))
  {
    forall p: Point | Inside(p, image.width, image.height)
      ensures Moved(image, RotateQuarters(1), Clockwise(image), p)
    {
      QuartersTurn(0, 0, image.width, image.height, p);
    }
    OrientedUnique(image, RotateQuarters(1), Clockwise(image));
  }

  lemma {:induction false} ClockwisesAre<P>(image: Image<P>, n: nat)
    requires image.Valid() && image.width > 0 && image.height > 0
    ensures Clockwises(image, n) == Oriented(image, RotateQuarters(n))
  {
    QuartersTurn(1, n - 1, 0, 0, Point(0, 0));
    if n == 0 {
      OrientedUpright(image);
    } else {
      ClockwisesAre(image, n - 1);
      ClockwiseIs(Clockwises(image, n - 1));
      OrientedTwice(image, RotateQuarters(n - 1), RotateQuarters(1));
    }
  }

  /** Turning by any number of quarters is turning clockwise as often as is left over from whole turns. */
  lemma RotateIsClockwise<P>(image: Image<P>, quarters: int)
    requires image.Valid() && image.width > 0 && image.height > 0
    ensures Oriented(image, RotateQuarters(quarters)) == Clockwises(image, quarters % 4)
  {
    ClockwisesAre(image, quarters % 4);
    assert RotateQuarters(quarters) == RotateQuarters(quarters % 4);
  }

  /** The two flips are the two mirrors. */
  lemma FlipIsMirror<P>(image: Image<P>)
    requires image.Valid() && image.width > 0 && image.height > 0
    ensures Oriented(image, TopRight) == Mirrored(image)
  {
    hide Oriented, Mirrored, Inverse;
    forall p: Point | Inside(p, image.width, image.height) ensures Moved(image, TopRight, Mirrored(image), p) {}
    OrientedUnique(image, TopRight, Mirrored(image));
  }

  lemma FlipIsUpended<P>(image: Image<P>)
    requires image.Valid() && image.width > 0 && image.height > 0
    ensures Oriented(image, BottomLeft) == Upended(image)
  {
    hide Oriented, Upended, Inverse;
    forall p: Point | Inside(p, image.width, image.height) ensures Moved(image, BottomLeft, Upended(image), p) {}
    OrientedUnique(image, BottomLeft, Upended(image));
  }
}
