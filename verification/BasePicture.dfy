/**
 * What the base of a preview looks like: it has the size it was planned at, and where
 * nothing is resampled it is the picture the operations make one at a time.
 */
module BasePictures {
  import opened Orientations
  import opened Operations
  import opened Geometries
  import opened Options
  import opened RenderCaches
  import D = Downscaling
  import E = EditStacks
  import L = Layers
  import P = Previews
  import R = Replay

  /** Passes whose results have the size they are asked for, as `size` measures pictures. */
  ghost predicate KeepsSizes<I(!new)>(k: Kernels<I>, size: I -> (int, int)) {
    && (forall i: I, r: Rect :: size(k.copy(i, r)) == (r.width, r.height))
    && (forall i: I, r: Rect, w: int, h: int :: size(k.resample(i, r, w, h)) == (w, h))
    && (forall i: I, r: Rect, a: real, w: int, h: int :: size(k.straighten(i, r, a, w, h)) == (w, h))
    && (forall i: I, o: Orientation ::
          size(k.turn(i, o)) == (TurnedWidth(o, size(i).0, size(i).1), TurnedHeight(o, size(i).0, size(i).1)))
  }

  /** For every plan the base is exactly as wide and as high as planned. */
  lemma BaseHasSize<I(!new)>(source: I, plan: Plan, k: Kernels<I>, size: I -> (int, int))
    requires KeepsSizes(k, size)
    ensures size(RenderGeometry(source, plan, k)) == (plan.width, plan.height)
  {
    var g := plan.geometry;
    var swap := SwapsAxes(g.orientation);
    var w, h := if swap then plan.height else plan.width, if swap then plan.width else plan.height;
    if g.angle != 0.0 {
      PassSize(k.straighten(source, g.sourceRect, g.angle, w, h), g.orientation, k, size);
    } else if w != g.sourceRect.width || h != g.sourceRect.height {
      PassSize(k.resample(source, g.sourceRect, w, h), g.orientation, k, size);
    } else {
      PassSize(k.copy(source, g.sourceRect), g.orientation, k, size);
    }
  }

  lemma PassSize<I(!new)>(region: I, o: Orientation, k: Kernels<I>, size: I -> (int, int))
    requires KeepsSizes(k, size)
    ensures size(if o == TopLeft then region else k.turn(region, o))
         == (TurnedWidth(o, size(region).0, size(region).1), TurnedHeight(o, size(region).0, size(region).1))
  {}

  /** Copies and turns that do to pixels what they say; the resamplers may be anything. */
  ghost predicate Pixelwise<X(!new)>(k: Kernels<Image<X>>) {
    && (forall i: Image<X>, r: Rect | i.Valid() && R.Within(i, r) :: k.copy(i, r) == R.Cropped(i, r))
    && (forall i: Image<X>, o: Orientation | i.Valid() && i.width > 0 && i.height > 0 :: k.turn(i, o) == Oriented(i, o))
  }

  /** The viewport is not asked to shrink the picture. */
  predicate Roomy(g: Geometry, maxWidth: int, maxHeight: int) {
    maxWidth <= 0 || maxHeight <= 0 || (g.OutputWidth() <= maxWidth && g.OutputHeight() <= maxHeight)
  }

  lemma FitsWhole(w: int, h: int, maxWidth: int, maxHeight: int)
    requires w > 0 && h > 0 && (maxWidth <= 0 || maxHeight <= 0 || (w <= maxWidth && h <= maxHeight))
    ensures D.FitInside(w, h, maxWidth, maxHeight) == D.Fitted(w, h, 1.0)
  {
    if maxWidth > 0 && maxHeight > 0 {
      AtLeastOne(w, maxWidth);
      AtLeastOne(h, maxHeight);
      assert D.ScaleOf(w, h, maxWidth, maxHeight) == 1.0;
    }
  }

  lemma AtLeastOne(side: int, room: int)
    requires 0 < side <= room
    ensures room as real / side as real >= 1.0
  {}

  /**
   * Turned, flipped and cropped, with any colour and layers, and shown in a viewport with
   * room for it: the plan is there exactly when the operations leave something, and its base
   * is the picture they make, one at a time, of what the raw development gives.
   */
  lemma BaseIsReplay<X(!new)>(o: Original<Image<X>>, ops: seq<Operation>, p: E.Photo, maxWidth: int, maxHeight: int,
                              k: Kernels<Image<X>>)
    requires p.Valid() && Pixelwise(k) && forall i | 0 <= i < |ops| :: R.PixelExact(ops[i])
    requires var image := Developed(o, E.RawOf(ops));
      image.Valid() && image.width == p.width && image.height == p.height
    requires Roomy(E.GeometryOf(ops, p), maxWidth, maxHeight)
    ensures var image := Developed(o, E.RawOf(ops));
      var plan, made := P.PlanPreview(ops, p, maxWidth, maxHeight), R.ApplyAll(image, ops);
      && (plan.None? <==> made.None?)
      && (plan.Some? ==> FreshBase(o, plan.value, E.RawOf(ops), k) == made.value)
  {
    hide Fold, R.ApplyAll, Developed, D.FitInside, R.Cropped, Oriented;
    var image := Developed(o, E.RawOf(ops));
    var g := E.GeometryOf(ops, p);
    R.TracksAll(image, ops, p.trig);
    if !g.sourceRect.Empty() {
      R.RenderBranches(image, g, R.ApplyAll(image, ops));
      assert g.OutputWidth() > 0 && g.OutputHeight() > 0;
      FitsWhole(g.OutputWidth(), g.OutputHeight(), maxWidth, maxHeight);
      var part := R.Cropped(image, g.sourceRect);
      assert k.copy(image, g.sourceRect) == part;
    }
  }

  /** The pixels shown are those of the development asked for last, if it asks for one and the file allows it. */
  lemma LatestDevelopmentShows<X(!new)>(o: Original<Image<X>>, ops: seq<Operation>, s: RawSettings, p: E.Photo,
                                        maxWidth: int, maxHeight: int, k: Kernels<Image<X>>)
    requires p.Valid() && Pixelwise(k) && forall i | 0 <= i < |ops| :: R.PixelExact(ops[i])
    requires var image := if s.custom && o.adjustable then o.decode(s) else o.source;
      image.Valid() && image.width == p.width && image.height == p.height
    requires Roomy(E.GeometryOf(ops, p), maxWidth, maxHeight)
    ensures var image := if s.custom && o.adjustable then o.decode(s) else o.source;
      var all := ops + [DevelopRaw(s)];
      var plan, made := P.PlanPreview(all, p, maxWidth, maxHeight), R.ApplyAll(image, ops);
      && (plan.None? <==> made.None?)
      && (plan.Some? ==> FreshBase(o, plan.value, E.RawOf(all), k) == made.value)
  {
    hide R.Cropped, Oriented, FreshBase;
    var image, all := if s.custom && o.adjustable then o.decode(s) else o.source, ops + [DevelopRaw(s)];
    E.RawLast(ops, DevelopRaw(s));
    E.FoldLast(ops, DevelopRaw(s), p);
    assert all[..|all| - 1] == ops;
    assert R.ApplyAll(image, all) == R.ApplyAll(image, ops);
    BaseIsReplay(o, all, p, maxWidth, maxHeight, k);
  }

  /** Of masks and patches, those are used that were made for a picture as large as the one the crops leave. */
  lemma RastersFollowCrop<X>(image: Image<X>, ops: seq<Operation>, p: E.Photo, maxWidth: int, maxHeight: int,
                             l: L.Layer)
    requires p.Valid() && forall i | 0 <= i < |ops| :: R.PixelExact(ops[i])
    requires image.Valid() && image.width == p.width && image.height == p.height
    requires P.PlanPreview(ops, p, maxWidth, maxHeight).Some?
    ensures R.ApplyAll(image, ops).Some?
    ensures var plan, made := P.PlanPreview(ops, p, maxWidth, maxHeight).value, R.ApplyAll(image, ops).value;
      && WantedMask(l, plan) == (if l.mask.kind == Raster && l.mask.raster != 0
                                 && (l.mask.rasterWidth, l.mask.rasterHeight) == (made.width, made.height)
                                 then Some(l.mask.raster) else None)
      && WantedPatch(l, plan) == (if (l.kind == PatchLayer || l.fill == ImageFill) && l.patch != 0
                                  && (l.patchWidth, l.patchHeight) == (made.width, made.height)
                                  then Some(l.patch) else None)
  {
    hide Fold, R.ApplyAll, R.Cropped, Oriented, D.FitInside;
    R.TracksAll(image, ops, p.trig);
    R.RenderBranches(image, E.GeometryOf(ops, p), R.ApplyAll(image, ops));
  }
}
