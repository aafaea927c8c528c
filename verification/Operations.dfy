/**
 * Rectangles, edit operations and what a layer holds: parameters, never pixels.
 */
module Operations {
  import opened Integers
  import opened Orientations

  /** A rectangle in pixels, half-open on the right and at the bottom. */
  datatype Rect = Rect(x: int, y: int, width: int, height: int) {
    predicate Empty() { width <= 0 || height <= 0 }
    function Right(): int { x + width }
    function Bottom(): int { y + height }
    predicate Contains(p: Point) { x <= p.x < x + width && y <= p.y < y + height }
  }

  const NO_RECT := Rect(0, 0, 0, 0)

  function Clamp(r: real, low: real, high: real): real { if r < low then low else if r > high then high else r }

  function Intersect(a: Rect, b: Rect): Rect {
    var left, top := Max(a.x, b.x), Max(a.y, b.y);
    var right, bottom := Min(a.Right(), b.Right()), Min(a.Bottom(), b.Bottom());
    if right <= left || bottom <= top then NO_RECT else Rect(left, top, right - left, bottom - top)
  }

  lemma IntersectContains(a: Rect, b: Rect)
    ensures forall p: Point :: Intersect(a, b).Contains(p) <==> a.Contains(p) && b.Contains(p)
    ensures Intersect(a, b).Empty() ==> Intersect(a, b) == NO_RECT
  {}

  /** Two non-empty rectangles that hold the same points are the same. */
  lemma RectExtensional(a: Rect, b: Rect)
    requires !a.Empty() && !b.Empty() && forall p: Point :: a.Contains(p) <==> b.Contains(p)
    ensures a == b
  {
    assert a.Contains(Point(a.x, a.y)) && a.Contains(Point(a.Right() - 1, a.Bottom() - 1));
    assert b.Contains(Point(b.x, b.y)) && b.Contains(Point(b.Right() - 1, b.Bottom() - 1));
  }

  datatype CurvePoint = CurvePoint(x: real, y: real)
  type Curve = seq<CurvePoint>
  datatype Curves = Curves(rgb: Curve, red: Curve, green: Curve, blue: Curve)

  datatype Adjustments = Adjustments(
    exposure: real, brightness: real, contrast: real, highlights: real, shadows: real,
    saturation: real, vibrance: real, hue: real, vignette: real, grain: real,
    sharpen: real, clarity: real, denoise: real, denoiseDetail: real, temperature: real,
    curves: Curves)

  const NEUTRAL := Adjustments(0.0, 0.0, 0.0, 0.0, 0.0, 0.0, 0.0, 0.0, 0.0, 0.0, 0.0, 0.0, 0.0, 50.0, 0.0,
                               Curves([], [], [], []))

  datatype LayerKind = Background | Adjustment | Matte | PatchLayer
  datatype FillKind = Transparent | Color | Blur | ImageFill
  datatype BlendMode = Normal | Multiply | Screen | Overlay | SoftLight
  datatype MaskKind = NoMask | Linear | Radial | Raster
  datatype FillColor = FillColor(r: real, g: real, b: real)

  datatype Mask = Mask(
    kind: MaskKind, x: real, y: real, angle: real, radius: real, feather: real, invert: bool,
    low: real, high: real, raster: nat, rasterWidth: int, rasterHeight: int)

  const OPEN_MASK := Mask(NoMask, 0.5, 0.5, 0.0, 0.35, 0.25, false, 0.0, 1.0, 0, 0, 0)

  /** How a raw file is developed. Two settings that leave the camera's balance alone are the same. */
  datatype RawSettings = RawSettings(custom: bool, kelvin: real, tint: real) {
    predicate Same(other: RawSettings) {
      custom == other.custom && (!custom || (kelvin == other.kelvin && tint == other.tint))
    }
  }

  datatype Operation =
    | Rotate(quarters: int)
    | Straighten(angle: real)
    | FlipHorizontal
    | FlipVertical
    | Crop(rect: Rect)
    | Resize(width: int, height: int)
    | Adjust(target: nat, adjustments: Adjustments, name: string)
    | AddLayer(name: string, kind: LayerKind)
    | RemoveLayer(target: nat)
    | ReorderLayer(target: nat, index: int)
    | SetVisible(target: nat, visible: bool)
    | SetOpacity(target: nat, opacity: real)
    | SetBlend(target: nat, blend: BlendMode)
    | SetMask(target: nat, mask: Mask)
    | SetFill(target: nat, fill: FillKind, color: FillColor, blur: real)
    | SetDecontaminate(target: nat, amount: real)
    | SetPatch(target: nat, patch: nat, width: int, height: int)
    | DevelopRaw(settings: RawSettings)
}
