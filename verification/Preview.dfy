/**
 * A preview: the plan an operation list and a viewport make, and the base it is composed over.
 */
module Previews {
  import opened Orientations
  import opened Operations
  import opened Geometries
  import opened Options
  import opened RenderCaches
  import D = Downscaling
  import E = EditStacks
  import L = Layers

  /** Nothing to plan when the operations crop the image away. */
  function PlanPreview(ops: seq<Operation>, p: E.Photo, maxWidth: int, maxHeight: int): Option<Plan>
    requires TrigOk(p.trig)
  {
    var g := E.GeometryOf(ops, p);
    if g.sourceRect.Empty() then None else
    var w, h := g.OutputWidth(), g.OutputHeight();
    var fit := D.FitInside(w, h, maxWidth, maxHeight);
    Some(Plan(g, fit.width, fit.height, w, h, fit.scale))
  }

  /** The base of a preview, and whether it was there already. */
  method PreviewBase<I>(document: Document<I>, ops: seq<Operation>, p: E.Photo, maxWidth: int, maxHeight: int,
                        k: Kernels<I>)
    returns (image: Option<I>, reused: bool)
    requires TrigOk(p.trig) && BasesOk(document.State(), document.original, k)
    modifies document
    ensures BasesOk(document.State(), document.original, k)
    ensures match PlanPreview(ops, p, maxWidth, maxHeight)
      case None => image == None && document.State() == old(document.State())
      case Some(plan) =>
        && image == Some(FreshBase(document.original, plan, E.RawOf(ops), k))
        && reused == CachedBaseOf(old(document.State()), plan, E.RawOf(ops)).Some?
        && CachedBaseOf(document.State(), plan, E.RawOf(ops)) == image
  {
    hide CachedBaseOf, FreshBase, BasesOk;
    var plan := PlanPreview(ops, p, maxWidth, maxHeight);
    if plan.None? { return None, false; }
    var settings := E.FoldRawSettings(ops);
    var cached := document.CachedBase(plan.value, settings);
    reused := cached.Some?;
    var made := document.Base(plan.value, settings, k);
    image := Some(made);
  }

  /** Operations of colour and compositing, which leave the shape and the development alone. */
  predicate OnlyColour(op: Operation) {
    L.IsSetter(op) || op.AddLayer? || op.RemoveLayer? || op.ReorderLayer?
  }

  lemma {:induction false} ColourKeepsShape(ops: seq<Operation>, more: seq<Operation>, p: E.Photo)
    requires TrigOk(p.trig) && forall op | op in more :: OnlyColour(op)
    ensures E.GeometryOf(ops + more, p) == E.GeometryOf(ops, p) && E.RawOf(ops + more) == E.RawOf(ops)
  {
    hide Step;
    if more == [] {
      assert ops + more == ops;
    } else {
      var first, last := more[..|more| - 1], more[|more| - 1];
      assert ops + more == (ops + first) + [last] && last in more;
      ColourKeepsShape(ops, first, p);
      E.FoldLast(ops + first, last, p);
      E.RawLast(ops + first, last);
      ColourStep(E.GeometryOf(ops + first, p), last, p.trig);
    }
  }

  lemma ColourStep(g: Geometry, op: Operation, t: Trig)
    requires TrigOk(t) && OnlyColour(op)
    ensures Step(g, op, t) == g && !op.DevelopRaw?
  {}

  /** A moving slider is rendered over the base that is already there, however often it moves. */
  lemma SliderReusesBase<I>(b: Bases<I>, ops: seq<Operation>, more: seq<Operation>, p: E.Photo,
                             maxWidth: int, maxHeight: int)
    requires TrigOk(p.trig) && forall op | op in more :: OnlyColour(op)
    requires PlanPreview(ops, p, maxWidth, maxHeight).Some?
    requires CachedBaseOf(b, PlanPreview(ops, p, maxWidth, maxHeight).value, E.RawOf(ops)).Some?
    ensures PlanPreview(ops + more, p, maxWidth, maxHeight).Some?
    ensures CachedBaseOf(b, PlanPreview(ops + more, p, maxWidth, maxHeight).value, E.RawOf(ops + more))
         == CachedBaseOf(b, PlanPreview(ops, p, maxWidth, maxHeight).value, E.RawOf(ops))
  {
    hide CachedBaseOf;
    ColourKeepsShape(ops, more, p);
  }

  /** A preview is never larger than the document, nor than the viewport it is asked for. */
  lemma PreviewFits(ops: seq<Operation>, p: E.Photo, maxWidth: int, maxHeight: int)
    requires p.Valid() && PlanPreview(ops, p, maxWidth, maxHeight).Some?
    ensures var plan := PlanPreview(ops, p, maxWidth, maxHeight).value;
      && 1 <= plan.width <= plan.documentWidth && 1 <= plan.height <= plan.documentHeight
      && (maxWidth > 0 && maxHeight > 0 ==> plan.width <= maxWidth && plan.height <= maxHeight)
  {
    hide D.FitInside, Fold;
    E.CoherentFold(ops, p);
    var g := E.GeometryOf(ops, p);
    D.FitFits(g.OutputWidth(), g.OutputHeight(), maxWidth, maxHeight);
  }
}
