/**
 * Rendering at full resolution reads each pixel once through the folded geometry.
 * That is the same picture as running the operations one after another.
 */
module Replay {
  import opened Integers
  import opened Orientations
  import opened Operations
  import opened Geometries
  import opened Options
  import opened Turns

  /** The resamplers, which are not modelled: crop-and-scale, and crop-turn-and-scale. */
  datatype Kernels<!P> = Kernels(
    resample: (Image<P>, Rect, int, int) -> Image<P>,
    straighten: (Image<P>, Rect, real, int, int) -> Image<P>)

  /** A copy of a rectangle that lies inside the image. */
  ghost function Cropped<P>(image: Image<P>, r: Rect): (c: Image<P>)
    requires image.Valid() && Within(image, r)
    ensures c.Valid() && c.width == r.width && c.height == r.height
    ensures forall p: Point | Inside(p, r.width, r.height) :: c.At(p) == image.At(Point(p.x + r.x, p.y + r.y))
  {
    Image(r.width, r.height, seq(r.height, y requires 0 <= y < r.height => image.rows[r.y + y][r.x..r.x + r.width]))
  }

  predicate Within<P>(image: Image<P>, r: Rect) {
    !r.Empty() && 0 <= r.x && 0 <= r.y && r.Right() <= image.width && r.Bottom() <= image.height
  }

  /** Copies rows of `region` out of a buffer. */
  method CopyRegion<P(0)>(source: array2<P>, region: Rect) returns (result: array2<P>)
    requires Within(Contents(source), region)
    ensures fresh(result) && Contents(result) == Cropped(Contents(source), region)
  {
    result := new P[region.height, region.width];
    for y := 0 to region.height
      invariant forall v, u | 0 <= v < y && 0 <= u < region.width :: result[v, u] == source[region.y + v, region.x + u]
    {
      forall x | 0 <= x < region.width {
        result[y, x] := source[region.y + y, region.x + x];
      }
    }
    CopiedIs(source, region, result);
  }

  lemma CopiedIs<P>(source: array2<P>, region: Rect, result: array2<P>)
    requires Within(Contents(source), region) && result.Length0 == region.height && result.Length1 == region.width
    requires forall v, u | 0 <= v < region.height && 0 <= u < region.width ::
               result[v, u] == source[region.y + v, region.x + u]
    ensures Contents(result) == Cropped(Contents(source), region)
  {
    SameImage(Contents(result), Cropped(Contents(source), region));
  }

  /** The source's full-resolution render; nothing is left when the stack crops everything away. */
  ghost function RenderFull<P>(image: Image<P>, ops: seq<Operation>, t: Trig, k: Kernels<P>): Option<Image<P>>
    requires image.Valid() && image.width > 0 && image.height > 0 && TrigOk(t)
  {
    var g := Fold(ops, image.width, image.height, t);
    if g.sourceRect.Empty() then None else
    var swap := SwapsAxes(g.orientation);
    var w := if swap then g.OutputHeight() else g.OutputWidth();
    var h := if swap then g.OutputWidth() else g.OutputHeight();
    var needsResize := w != g.sourceRect.width || h != g.sourceRect.height;
    if !needsResize && g.angle == 0.0 && g.orientation == TopLeft
       && g.sourceRect == Rect(0, 0, image.width, image.height)
    then Some(image)
    else if g.angle != 0.0 then Some(Upright(k.straighten(image, g.sourceRect, g.angle, w, h), g.orientation))
    else if needsResize then Some(Upright(k.resample(image, g.sourceRect, w, h), g.orientation))
    else if Within(image, g.sourceRect) then Some(Upright(Cropped(image, g.sourceRect), g.orientation))
    else None
  }

  ghost function Upright<P>(image: Image<P>, o: Orientation): Image<P> {
    if o == TopLeft || !image.Valid() || image.width == 0 || image.height == 0 then image else Oriented(image, o)
  }

  /** One operation, run on pixels: clockwise turns, mirrors, cuts. A crop that misses the picture leaves nothing. */
  ghost function ApplyOne<P>(image: Image<P>, op: Operation): (r: Option<Image<P>>)
    requires image.Valid() && image.width > 0 && image.height > 0
    ensures r.Some? ==> r.value.Valid() && r.value.width > 0 && r.value.height > 0
  {
    match op
    case Rotate(quarters) => Some(Clockwises(image, quarters % 4))
    case FlipHorizontal => Some(Mirrored(image))
    case FlipVertical => Some(Upended(image))
    case Crop(rect) =>
      var asked := Rect(rect.x, rect.y, Max(1, rect.width), Max(1, rect.height));
      var kept := Intersect(asked, Rect(0, 0, image.width, image.height));
      if kept.Empty() then None else Some(Cropped(image, kept))
    case _ => Some(image)
  }

  ghost function ApplyAll<P>(image: Image<P>, ops: seq<Operation>): (r: Option<Image<P>>)
    requires image.Valid() && image.width > 0 && image.height > 0
    ensures r.Some? ==> r.value.Valid() && r.value.width > 0 && r.value.height > 0
  {
    if ops == [] then Some(image) else
    var before := ApplyAll(image, ops[..|ops| - 1]);
    if before.None? then None else ApplyOne(before.value, ops[|ops| - 1])
  }

  /** No resampling: neither a resize nor a straighten away from zero. */
  predicate PixelExact(op: Operation) {
    !op.Resize? && (op.Straighten? ==> op.angle == 0.0)
  }

  /** The state of the fold and the picture the operations have made so far. */
  ghost predicate Tracks<P>(image: Image<P>, g: Geometry, made: Option<Image<P>>)
    requires image.Valid() && image.width > 0 && image.height > 0
  {
    && g.angle == 0.0 && g.targetWidth == 0 && g.targetHeight == 0 && g.unrotatedRect == g.sourceRect
    && (if made.None? then g.sourceRect == NO_RECT
        else Within(image, g.sourceRect) && made.value == Oriented(Cropped(image, g.sourceRect), g.orientation))
  }

  // ------------------------------------------------------------ crop lemmas

  lemma CroppedTwice<P>(image: Image<P>, outer: Rect, inner: Rect)
    requires image.Valid() && Within(image, outer) && Within(Cropped(image, outer), inner)
    ensures var both := Rect(outer.x + inner.x, outer.y + inner.y, inner.width, inner.height);
      Within(image, both) && Cropped(Cropped(image, outer), inner) == Cropped(image, both)
  {
    var both := Rect(outer.x + inner.x, outer.y + inner.y, inner.width, inner.height);
    SameImage(Cropped(Cropped(image, outer), inner), Cropped(image, both));
  }

  /** Cropping the turned picture is turning the picture cropped by the rectangle mapped back. */
  lemma CropThroughOrientation<P>(image: Image<P>, o: Orientation, r: Rect)
    requires image.Valid() && image.width > 0 && image.height > 0 && Within(Oriented(image, o), r)
    ensures var m := MapRectBack(r, o, image.width, image.height);
      Within(image, m) && Cropped(Oriented(image, o), r) == Oriented(Cropped(image, m), o)
  {
    var m := MapRectBack(r, o, image.width, image.height);
    MappedWithin(image, o, r);
    MapRectBackPreimage(r, o, image.width, image.height, Point(0, 0));
    OrientedIs(image, o);
    PartMoved(image, o, Oriented(image, o), r, m);
    OrientedUnique(Cropped(image, m), o, Cropped(Oriented(image, o), r));
  }

  lemma PartMoved<P>(image: Image<P>, o: Orientation, whole: Image<P>, r: Rect, m: Rect)
    requires image.Valid() && IsOriented(image, o, whole) && Within(whole, r) && Within(image, m)
    requires m == MapRectBack(r, o, image.width, image.height)
    requires m.width == TurnedWidth(o, r.width, r.height) && m.height == TurnedHeight(o, r.width, r.height)
    ensures IsOriented(Cropped(image, m), o, Cropped(whole, r))
  {
    forall p: Point | Inside(p, m.width, m.height) ensures Moved(Cropped(image, m), o, Cropped(whole, r), p) {
      PartMovedAt(image, o, whole, r, m, p);
    }
  }

  lemma PartMovedAt<P>(image: Image<P>, o: Orientation, whole: Image<P>, r: Rect, m: Rect, p: Point)
    requires image.Valid() && IsOriented(image, o, whole) && Within(whole, r) && Within(image, m)
    requires m == MapRectBack(r, o, image.width, image.height) && Inside(p, m.width, m.height)
    requires m.width == TurnedWidth(o, r.width, r.height) && m.height == TurnedHeight(o, r.width, r.height)
    ensures Moved(Cropped(image, m), o, Cropped(whole, r), p)
  {
    var p', q, q' := ShiftedPoints(r, o, image.width, image.height, m, p);
    assert Moved(image, o, whole, p');
    SamePixel(image, whole, r, m, p, p', q, q');
  }

  lemma ShiftedPoints(r: Rect, o: Orientation, w: int, h: int, m: Rect, p: Point)
    returns (p': Point, q: Point, q': Point)
    requires !r.Empty() && m == MapRectBack(r, o, w, h) && Inside(p, m.width, m.height)
    requires m.width == TurnedWidth(o, r.width, r.height) && m.height == TurnedHeight(o, r.width, r.height)
    ensures p' == Point(p.x + m.x, p.y + m.y) && q' == Point(q.x + r.x, q.y + r.y)
    ensures q == MapPoint(o, m.width, m.height, p) && q' == MapPoint(o, w, h, p') && Inside(q, r.width, r.height)
  {
    hide MapRectBack, MapPoint, Inverse;
    MapShift(r, o, w, h, p);
    InverseMaps(o, m.width, m.height, p);
    p', q := Point(p.x + m.x, p.y + m.y), MapPoint(o, m.width, m.height, p);
    q' := Point(q.x + r.x, q.y + r.y);
  }

  /** The pixel `p` of the part and `q` of the cut are the pixel `p'` of the image and `q'` of the whole. */
  lemma SamePixel<P>(image: Image<P>, whole: Image<P>, r: Rect, m: Rect, p: Point, p': Point, q: Point, q': Point)
    requires image.Valid() && whole.Valid() && Within(whole, r) && Within(image, m)
    requires Inside(p, m.width, m.height) && Inside(q, r.width, r.height)
    requires p' == Point(p.x + m.x, p.y + m.y) && q' == Point(q.x + r.x, q.y + r.y)
    requires whole.At(q') == image.At(p')
    ensures Cropped(whole, r).At(q) == Cropped(image, m).At(p)
  {}

  /** A point of the part lands where the same point of the whole lands, measured from the crop. */
  lemma MapShift(r: Rect, o: Orientation, w: int, h: int, p: Point)
    requires !r.Empty()
    ensures var m := MapRectBack(r, o, w, h);
      var q := MapPoint(o, m.width, m.height, p);
      MapPoint(o, w, h, Point(p.x + m.x, p.y + m.y)) == Point(q.x + r.x, q.y + r.y)
  {
    if SwapsAxes(o) { MapShiftSwapped(r, o, w, h, p); } else { MapShiftStraight(r, o, w, h, p); }
  }

  lemma MapShiftStraight(r: Rect, o: Orientation, w: int, h: int, p: Point)
    requires !r.Empty() && !SwapsAxes(o)
    ensures var m := MapRectBack(r, o, w, h);
      var q := MapPoint(o, m.width, m.height, p);
      MapPoint(o, w, h, Point(p.x + m.x, p.y + m.y)) == Point(q.x + r.x, q.y + r.y)
  {
    match o {
      case TopLeft =>
      case TopRight =>
      case BottomRight =>
      case BottomLeft =>
    }
  }

  lemma MapShiftSwapped(r: Rect, o: Orientation, w: int, h: int, p: Point)
    requires !r.Empty() && SwapsAxes(o)
    ensures var m := MapRectBack(r, o, w, h);
      var q := MapPoint(o, m.width, m.height, p);
      MapPoint(o, w, h, Point(p.x + m.x, p.y + m.y)) == Point(q.x + r.x, q.y + r.y)
  {
    match o {
      case LeftTop =>
      case RightTop =>
      case RightBottom =>
      case LeftBottom =>
    }
  }

  lemma MappedWithin<P>(image: Image<P>, o: Orientation, r: Rect)
    requires image.Valid() && image.width > 0 && image.height > 0 && Within(Oriented(image, o), r)
    ensures Within(image, MapRectBack(r, o, image.width, image.height))
  {
    hide MapRectBack, MapPoint, Oriented, Inverse;
    var m := MapRectBack(r, o, image.width, image.height);
    var first, last := Point(m.x, m.y), Point(m.Right() - 1, m.Bottom() - 1);
    MapRectBackPreimage(r, o, image.width, image.height, first);
    MapRectBackPreimage(r, o, image.width, image.height, last);
    InverseMaps(o, image.width, image.height, first);
    InverseMaps(o, image.width, image.height, last);
  }

  /** The whole turned picture maps back to the whole picture. */
  lemma WholeMapsBack(o: Orientation, w: int, h: int)
    requires w > 0 && h > 0
    ensures MapRectBack(Rect(0, 0, TurnedWidth(o, w, h), TurnedHeight(o, w, h)), o, w, h) == Rect(0, 0, w, h)
  {
    var whole := Rect(0, 0, TurnedWidth(o, w, h), TurnedHeight(o, w, h));
    forall p: Point ensures MapRectBack(whole, o, w, h).Contains(p) <==> Rect(0, 0, w, h).Contains(p) {
      MapRectBackPreimage(whole, o, w, h, p);
      InverseMaps(o, w, h, p);
    }
    MapRectBackPreimage(whole, o, w, h, Point(0, 0));
    RectExtensional(MapRectBack(whole, o, w, h), Rect(0, 0, w, h));
  }

  // ------------------------------------------------------------ the main result

  lemma LRoundInt(n: int)
    ensures LRound(n as real * 1.0) == n
  {}

  /** Without a resize, a crop is mapped back as it stands. */
  lemma CropUnscaled(g: Geometry, rect: Rect)
    requires g.targetWidth == 0 && g.targetHeight == 0
    ensures CropInFrame(g, rect) == MapRectBack(Rect(rect.x, rect.y, Max(1, rect.width), Max(1, rect.height)),
                                                g.orientation, g.sourceRect.width, g.sourceRect.height)
  {
    LRoundInt(rect.x);
    LRoundInt(rect.y);
    LRoundInt(rect.width);
    LRoundInt(rect.height);
  }

  lemma ShiftedIntersect(r: Rect, s: Rect)
    requires !r.Empty() && !s.Empty()
    ensures var i := Intersect(r, Rect(0, 0, s.width, s.height));
      Intersect(Shifted(r, s), s) == if i.Empty() then NO_RECT else Shifted(i, s)
  {}

  function Visible(rect: Rect, o: Orientation, w: int, h: int): Rect {
    Intersect(Rect(rect.x, rect.y, Max(1, rect.width), Max(1, rect.height)),
              Rect(0, 0, TurnedWidth(o, w, h), TurnedHeight(o, w, h)))
  }

  /** Mapping back and then clipping to the frame is mapping back what is visible. */
  lemma MapBackVisible(rect: Rect, o: Orientation, w: int, h: int)
    requires w > 0 && h > 0
    ensures var asked := Rect(rect.x, rect.y, Max(1, rect.width), Max(1, rect.height));
      Intersect(MapRectBack(asked, o, w, h), Rect(0, 0, w, h)) == MapRectBack(Visible(rect, o, w, h), o, w, h)
    ensures MapRectBack(Visible(rect, o, w, h), o, w, h).Empty() <==> Visible(rect, o, w, h).Empty()
  {
    var asked := Rect(rect.x, rect.y, Max(1, rect.width), Max(1, rect.height));
    var whole := Rect(0, 0, TurnedWidth(o, w, h), TurnedHeight(o, w, h));
    MapRectBackIntersect(asked, whole, o, w, h);
    WholeMapsBack(o, w, h);
    if !Visible(rect, o, w, h).Empty() {
      MapRectBackPreimage(Visible(rect, o, w, h), o, w, h, Point(0, 0));
    }
  }

  /** The rectangle a crop leaves is the visible one mapped back, or nothing. */
  lemma CropRectIs(g: Geometry, rect: Rect, t: Trig)
    requires g.angle == 0.0 && g.targetWidth == 0 && g.targetHeight == 0 && !g.sourceRect.Empty()
    ensures var s := g.sourceRect;
      var kept := Visible(rect, g.orientation, s.width, s.height);
      CroppedRect(g, rect, t)
        == if kept.Empty() then NO_RECT else Shifted(MapRectBack(kept, g.orientation, s.width, s.height), s)
  {
    var frame := CropInFrame(g, rect);
    assert !frame.Empty() && frame == MapRectBack(Rect(rect.x, rect.y, Max(1, rect.width), Max(1, rect.height)),
                                                  g.orientation, g.sourceRect.width, g.sourceRect.height) by {
      CropUnscaled(g, rect);
      MapRectBackPreimage(Rect(rect.x, rect.y, Max(1, rect.width), Max(1, rect.height)),
                          g.orientation, g.sourceRect.width, g.sourceRect.height, Point(0, 0));
    }
    CropRectFrom(g.sourceRect, frame, rect, g.orientation);
  }

  lemma CropRectFrom(s: Rect, frame: Rect, rect: Rect, o: Orientation)
    requires !s.Empty() && !frame.Empty()
    requires frame == MapRectBack(Rect(rect.x, rect.y, Max(1, rect.width), Max(1, rect.height)), o, s.width, s.height)
    ensures var kept := Visible(rect, o, s.width, s.height);
      Intersect(Shifted(frame, s), s)
        == if kept.Empty() then NO_RECT else Shifted(MapRectBack(kept, o, s.width, s.height), s)
  {
    ShiftedIntersect(frame, s);
    MapBackVisible(rect, o, s.width, s.height);
  }

  lemma TracksCrop<P>(image: Image<P>, g: Geometry, made: Image<P>, rect: Rect, t: Trig)
    requires image.Valid() && image.width > 0 && image.height > 0 && TrigOk(t) && Tracks(image, g, Some(made))
    requires made.Valid() && made.width > 0 && made.height > 0
    ensures Tracks(image, Step(g, Crop(rect), t), ApplyOne(made, Crop(rect)))
  {
    hide Oriented, Cropped, MapPoint, MapRectBack, Inverse, Compose;
    var s, o := g.sourceRect, g.orientation;
    var kept := Visible(rect, o, s.width, s.height);
    CropRectIs(g, rect, t);
    if !kept.Empty() {
      CutPicture(image, s, o, made, kept);
    }
  }

  lemma CutPicture<P>(image: Image<P>, s: Rect, o: Orientation, made: Image<P>, kept: Rect)
    requires image.Valid() && Within(image, s) && made == Oriented(Cropped(image, s), o) && Within(made, kept)
    ensures var back := Shifted(MapRectBack(kept, o, s.width, s.height), s);
      Within(image, back) && Cropped(made, kept) == Oriented(Cropped(image, back), o)
  {
    hide Oriented, Cropped, MapRectBack, MapPoint, Inverse;
    CropThroughOrientation(Cropped(image, s), o, kept);
    CroppedTwice(image, s, MapRectBack(kept, o, s.width, s.height));
  }

  lemma TracksStep<P>(image: Image<P>, g: Geometry, made: Image<P>, op: Operation, t: Trig)
    requires image.Valid() && image.width > 0 && image.height > 0 && TrigOk(t) && Tracks(image, g, Some(made))
    requires made.Valid() && made.width > 0 && made.height > 0 && PixelExact(op)
    ensures Tracks(image, Step(g, op, t), ApplyOne(made, op))
  {
    hide Oriented, Cropped, MapPoint, MapRectBack, Inverse, Clockwises, Mirrored, Upended;
    var part := Cropped(image, g.sourceRect);
    match op
    case Rotate(quarters) =>
      OrientedTwice(part, g.orientation, RotateQuarters(quarters));
      RotateIsClockwise(made, quarters);
    case FlipHorizontal =>
      OrientedTwice(part, g.orientation, TopRight);
      FlipIsMirror(made);
    case FlipVertical =>
      OrientedTwice(part, g.orientation, BottomLeft);
      FlipIsUpended(made);
    case Crop(rect) => TracksCrop(image, g, made, rect, t);
    case _ =>
  }

  lemma NothingCropped(g: Geometry, rect: Rect, t: Trig)
    requires g.sourceRect == NO_RECT && g.angle == 0.0
    ensures CroppedRect(g, rect, t) == NO_RECT
  {
    hide CropInFrame, CroppedTurned;
  }

  /** Once nothing is left, nothing comes back. */
  lemma TracksNothing<P>(image: Image<P>, g: Geometry, op: Operation, t: Trig)
    requires image.Valid() && image.width > 0 && image.height > 0 && TrigOk(t) && Tracks(image, g, None)
    requires PixelExact(op)
    ensures Tracks(image, Step(g, op, t), None)
  {
    hide Oriented, Cropped, CroppedRect, MapPoint, Inverse, Compose, RotateQuarters;
    if op.Crop? { NothingCropped(g, op.rect, t); }
  }

  lemma {:induction false} TracksAll<P>(image: Image<P>, ops: seq<Operation>, t: Trig)
    requires image.Valid() && image.width > 0 && image.height > 0 && TrigOk(t)
    requires forall i | 0 <= i < |ops| :: PixelExact(ops[i])
    ensures Tracks(image, Fold(ops, image.width, image.height, t), ApplyAll(image, ops))
  {
    if ops == [] {
      var whole := Rect(0, 0, image.width, image.height);
      SameImage(Cropped(image, whole), image);
      OrientedUpright(image);
    } else {
      var first := ops[..|ops| - 1];
      TracksAll(image, first, t);
      var g := Fold(first, image.width, image.height, t);
      if ApplyAll(image, first).None? {
        TracksNothing(image, g, ops[|ops| - 1], t);
      } else {
        TracksStep(image, g, ApplyAll(image, first).value, ops[|ops| - 1], t);
      }
    }
  }

  /**
   * For every image and every list of rotations, flips and crops, with any colour
   * and layer operations in between, reading each pixel once through the folded
   * geometry gives the picture the operations make one at a time; it gives nothing
   * exactly when some crop on the way left nothing.
   */
  lemma RenderFullIsReplay<P>(image: Image<P>, ops: seq<Operation>, t: Trig, k: Kernels<P>)
    requires image.Valid() && image.width > 0 && image.height > 0 && TrigOk(t)
    requires forall i | 0 <= i < |ops| :: PixelExact(ops[i])
    ensures RenderFull(image, ops, t, k) == ApplyAll(image, ops)
  {
    TracksAll(image, ops, t);
    var g := Fold(ops, image.width, image.height, t);
    if !g.sourceRect.Empty() {
      RenderBranches(image, g, ApplyAll(image, ops));
    }
  }

  lemma RenderBranches<P>(image: Image<P>, g: Geometry, made: Option<Image<P>>)
    requires image.Valid() && image.width > 0 && image.height > 0 && Tracks(image, g, made) && !g.sourceRect.Empty()
    ensures made.Some? && Within(image, g.sourceRect)
    ensures var swap := SwapsAxes(g.orientation);
      && (if swap then g.OutputHeight() else g.OutputWidth()) == g.sourceRect.width
      && (if swap then g.OutputWidth() else g.OutputHeight()) == g.sourceRect.height
    ensures made.value == Upright(Cropped(image, g.sourceRect), g.orientation)
    ensures g.orientation == TopLeft && g.sourceRect == Rect(0, 0, image.width, image.height) ==> made.value == image
  {
    hide Oriented, MapPoint;
    var part := Cropped(image, g.sourceRect);
    OrientedUpright(part);
    if g.sourceRect == Rect(0, 0, image.width, image.height) {
      SameImage(part, image);
    }
  }
}
