/**
 * Edit operations written to and read from JSON, with the clamps and refusals of reading.
 */
module Serialization {
  import opened Operations
  import opened ToneCurves
  import opened Geometries
  import L = Layers
  import S = Splines

  /** The names of object members; any other name is one the reader never asks for. */
  datatype Key =
    | KKind | KQuarters | KAngle | KRect | KX | KY | KWidth | KHeight | KAdjustments | KLayerId | KName | KLayerKind
    | KIndex | KVisible | KOpacity | KBlend | KMask | KFill | KColor | KBlur | KPatch | KPatchWidth | KPatchHeight
    | KCustom | KTemperature | KTint | KDecontaminate | KExposure | KBrightness | KContrast | KHighlights | KShadows
    | KSaturation | KVibrance | KHue | KVignette | KGrain | KSharpen | KClarity | KDenoise | KDenoiseDetail | KCurves
    | KRgb | KRed | KGreen | KBlue | KR | KG | KB | KRadius | KFeather | KInvert | KLow | KHigh | KRaster
    | KRasterWidth | KRasterHeight | KOther(name: string)

  /** A whole number without a sign is the only kind an id is read from. */
  datatype Json =
    | Null
    | Bool(flag: bool)
    | Int(n: int)
    | Real(r: real)
    | Text(s: string)
    | List(items: seq<Json>)
    | Object(fields: map<Key, Json>)

  datatype Error = MissingParameter | RotationDoesNothing | CropIsEmpty | UnknownOperation | WrongType
  datatype Result<T> = Ok(value: T) | Err(error: Error)

  const MAX_RESIZE := 30000
  const MIN_KELVIN: real := 2000.0
  const MAX_KELVIN: real := 25000.0
  const MAX_TINT: real := 150.0

  // --------------------------------------------------------------- reading

  predicate Has(o: Json, k: Key) { o.Object? && k in o.fields }

  predicate HasNumber(o: Json, k: Key) { Has(o, k) && (o.fields[k].Int? || o.fields[k].Real?) }

  function Wrap32(n: int): int {
    var low := n % 0x1_0000_0000;
    if low >= 0x8000_0000 then low - 0x1_0000_0000 else low
  }

  function Truncated(r: real): int { if r >= 0.0 then r.Floor else -((-r).Floor) }

  function OptionalReal(o: Json, k: Key, fallback: real): real {
    if !HasNumber(o, k) then fallback else if o.fields[k].Int? then o.fields[k].n as real else o.fields[k].r
  }

  function OptionalInt(o: Json, k: Key, fallback: int): int {
    if !HasNumber(o, k) then fallback else if o.fields[k].Int? then Wrap32(o.fields[k].n) else Truncated(o.fields[k].r)
  }

  function RequireInt(o: Json, k: Key): Result<int> {
    if Has(o, k) && o.fields[k].Int? then Ok(Wrap32(o.fields[k].n)) else Err(MissingParameter)
  }

  function OptionalText(o: Json, k: Key, fallback: string): Result<string> {
    if !Has(o, k) then Ok(fallback) else if o.fields[k].Text? then Ok(o.fields[k].s) else Err(WrongType)
  }

  function OptionalBool(o: Json, k: Key, fallback: bool): Result<bool> {
    if !Has(o, k) then Ok(fallback) else if o.fields[k].Bool? then Ok(o.fields[k].flag) else Err(WrongType)
  }

  function OptionalId(o: Json, k: Key): nat {
    if Has(o, k) && o.fields[k].Int? && o.fields[k].n >= 0 then o.fields[k].n else 0
  }

  function Number(o: Json, k: Key, fallback: real, low: real, high: real): real {
    Clamp(OptionalReal(o, k, fallback), low, high)
  }

  function Member(o: Json, k: Key, fallback: Json): Json { if Has(o, k) then o.fields[k] else fallback }

  const EMPTY_OBJECT := Object(map[])

  function AsObject(j: Json): Json { if j.Object? then j else EMPTY_OBJECT }

  // ----------------------------------------------------------------- curves

  function CurveToJson(c: Curve): Json { List(PointsToJson(c)) }

  function PointsToJson(c: Curve): (r: seq<Json>)
    ensures |r| == |c|
  {
    if c == [] then []
    else PointsToJson(c[..|c| - 1]) + [Object(map[KX := Real(c[|c| - 1].x), KY := Real(c[|c| - 1].y)])]
  }

  function PointFromJson(j: Json): RawPoint {
    RawPoint(Finite(OptionalReal(j, KX, 0.0)), Finite(OptionalReal(j, KY, 0.0)))
  }

  /** Members that are not objects are passed over. */
  function PointsFromJson(items: seq<Json>): seq<RawPoint> {
    if items == [] then [] else
    var rest, last := PointsFromJson(items[..|items| - 1]), items[|items| - 1];
    if last.Object? then rest + [PointFromJson(last)] else rest
  }

  function CurveOf(j: Json): Curve { if j.List? then Clean(PointsFromJson(j.items)) else [] }

  method CurveFromJson(j: Json) returns (c: Curve)
    ensures c == CurveOf(j)
  {
    if !j.List? { return []; }
    var points := [];
    for k := 0 to |j.items|
      invariant points == PointsFromJson(j.items[..k])
    {
      assert j.items[..k + 1][..k] == j.items[..k];
      if j.items[k].Object? { points := points + [PointFromJson(j.items[k])]; }
    }
    assert j.items[..|j.items|] == j.items;
    c := ToneCurves.Sanitise(points);
  }

  function CurvesToJson(c: Curves): Json {
    Object(map[KRgb := CurveToJson(c.rgb), KRed := CurveToJson(c.red), KGreen := CurveToJson(c.green),
               KBlue := CurveToJson(c.blue)])
  }

  function CurvesFromJson(j: Json): Curves {
    var v := AsObject(j);
    Curves(CurveOf(Member(v, KRgb, List([]))), CurveOf(Member(v, KRed, List([]))),
           CurveOf(Member(v, KGreen, List([]))), CurveOf(Member(v, KBlue, List([]))))
  }

  // ----------------------------------------------------- adjustments, masks

  function AdjustmentsToJson(a: Adjustments): Json {
    Object(map[
      KExposure := Real(a.exposure), KBrightness := Real(a.brightness), KContrast := Real(a.contrast),
      KHighlights := Real(a.highlights), KShadows := Real(a.shadows), KSaturation := Real(a.saturation),
      KVibrance := Real(a.vibrance), KHue := Real(a.hue), KVignette := Real(a.vignette), KGrain := Real(a.grain),
      KSharpen := Real(a.sharpen), KClarity := Real(a.clarity), KDenoise := Real(a.denoise),
      KDenoiseDetail := Real(a.denoiseDetail), KTemperature := Real(a.temperature), KCurves := CurvesToJson(a.curves)])
  }

  function AdjustmentsFromJson(j: Json): Adjustments {
    var v := AsObject(j);
    Adjustments(
      Number(v, KExposure, 0.0, -5.0, 5.0), Number(v, KBrightness, 0.0, -100.0, 100.0),
      Number(v, KContrast, 0.0, -100.0, 100.0), Number(v, KHighlights, 0.0, -100.0, 100.0),
      Number(v, KShadows, 0.0, -100.0, 100.0), Number(v, KSaturation, 0.0, -100.0, 100.0),
      Number(v, KVibrance, 0.0, -100.0, 100.0), Number(v, KHue, 0.0, -180.0, 180.0),
      Number(v, KVignette, 0.0, -100.0, 100.0), Number(v, KGrain, 0.0, 0.0, 100.0),
      Number(v, KSharpen, 0.0, 0.0, 100.0), Number(v, KClarity, 0.0, -100.0, 100.0),
      Number(v, KDenoise, 0.0, 0.0, 100.0), Number(v, KDenoiseDetail, 50.0, 0.0, 100.0),
      Number(v, KTemperature, 0.0, -100.0, 100.0), CurvesFromJson(Member(v, KCurves, EMPTY_OBJECT)))
  }

  function MaskKindName(k: MaskKind): string {
    match k
    case NoMask => "none"
    case Linear => "linear"
    case Radial => "radial"
    case Raster => "raster"
  }

  function MaskKindNamed(s: string): MaskKind {
    if s == "linear" then Linear else if s == "radial" then Radial else if s == "raster" then Raster else NoMask
  }

  function MaskToJson(m: Mask): Json {
    Object(map[
      KKind := Text(MaskKindName(m.kind)), KX := Real(m.x), KY := Real(m.y), KAngle := Real(m.angle),
      KRadius := Real(m.radius), KFeather := Real(m.feather), KInvert := Bool(m.invert), KLow := Real(m.low),
      KHigh := Real(m.high), KRaster := Int(m.raster), KRasterWidth := Int(m.rasterWidth),
      KRasterHeight := Int(m.rasterHeight)])
  }

  function MaskFromJson(j: Json): Result<Mask> {
    var v := AsObject(j);
    var kind := OptionalText(v, KKind, "none");
    if kind.Err? then Err(kind.error) else
    var invert := OptionalBool(v, KInvert, false);
    if invert.Err? then Err(invert.error) else
    Ok(Mask(MaskKindNamed(kind.value), Number(v, KX, 0.5, -1.0, 2.0), Number(v, KY, 0.5, -1.0, 2.0),
            OptionalReal(v, KAngle, 0.0), Number(v, KRadius, 0.35, 0.0, 4.0), Number(v, KFeather, 0.25, 0.0, 4.0),
            invert.value, Number(v, KLow, 0.0, 0.0, 1.0), Number(v, KHigh, 1.0, 0.0, 1.0), OptionalId(v, KRaster),
            OptionalInt(v, KRasterWidth, 0), OptionalInt(v, KRasterHeight, 0)))
  }

  // -------------------------------------------------------------- operations

  function LayerKindName(k: LayerKind): string {
    match k
    case Background => "background"
    case Adjustment => "adjustment"
    case Matte => "matte"
    case PatchLayer => "patch"
  }

  function LayerKindNamed(s: string): LayerKind {
    if s == "matte" then Matte else if s == "patch" then PatchLayer else if s == "background" then Background
    else Adjustment
  }

  function FillKindName(k: FillKind): string {
    match k
    case Transparent => "transparent"
    case Color => "color"
    case Blur => "blur"
    case ImageFill => "image"
  }

  function FillKindNamed(s: string): FillKind {
    if s == "color" then Color else if s == "blur" then Blur else if s == "image" then ImageFill else Transparent
  }

  function BlendModeName(b: BlendMode): string {
    match b
    case Normal => "normal"
    case Multiply => "multiply"
    case Screen => "screen"
    case Overlay => "overlay"
    case SoftLight => "soft-light"
  }

  function BlendModeNamed(s: string): BlendMode {
    if s == "multiply" then Multiply else if s == "screen" then Screen else if s == "overlay" then Overlay
    else if s == "soft-light" then SoftLight else Normal
  }

  /** The name of an operation's kind, and back. */
  datatype Kind =
    | RotateK | FlipHorizontalK | FlipVerticalK | StraightenK | CropK | AdjustK | AddLayerK | DevelopRawK | SetPatchK
    | SetFillK | ResizeK | SetDecontaminateK | RemoveLayerK | ReorderLayerK | SetVisibleK | SetOpacityK | SetMaskK
    | SetBlendK

  function KindName(k: Kind): string {
    match k
    case RotateK => "rotate"
    case FlipHorizontalK => "flipHorizontal"
    case FlipVerticalK => "flipVertical"
    case StraightenK => "straighten"
    case CropK => "crop"
    case AdjustK => "adjust"
    case AddLayerK => "addLayer"
    case DevelopRawK => "developRaw"
    case SetPatchK => "setLayerPatch"
    case SetFillK => "setLayerFill"
    case ResizeK => "resize"
    case SetDecontaminateK => "setLayerDecontaminate"
    case RemoveLayerK => "removeLayer"
    case ReorderLayerK => "reorderLayer"
    case SetVisibleK => "setLayerVisible"
    case SetOpacityK => "setLayerOpacity"
    case SetMaskK => "setLayerMask"
    case SetBlendK => "setLayerBlend"
  }

  const ALL_KINDS := [RotateK, FlipHorizontalK, FlipVerticalK, StraightenK, CropK, AdjustK, AddLayerK, DevelopRawK,
                     SetPatchK, SetFillK, ResizeK, SetDecontaminateK, RemoveLayerK, ReorderLayerK, SetVisibleK,
                     SetOpacityK, SetMaskK, SetBlendK]

  /** The kinds are tried in turn. */
  function KindNamed(s: string, from: nat): Result<Kind>
    requires from <= |ALL_KINDS|
    decreases |ALL_KINDS| - from
  {
    if from == |ALL_KINDS| then Err(UnknownOperation)
    else if s == KindName(ALL_KINDS[from]) then Ok(ALL_KINDS[from])
    else KindNamed(s, from + 1)
  }

  function KindOf(op: Operation): Kind {
    match op
    case Rotate(_) => RotateK
    case Straighten(_) => StraightenK
    case FlipHorizontal => FlipHorizontalK
    case FlipVertical => FlipVerticalK
    case Crop(_) => CropK
    case Resize(_, _) => ResizeK
    case Adjust(_, _, _) => AdjustK
    case AddLayer(_, _) => AddLayerK
    case RemoveLayer(_) => RemoveLayerK
    case ReorderLayer(_, _) => ReorderLayerK
    case SetVisible(_, _) => SetVisibleK
    case SetOpacity(_, _) => SetOpacityK
    case SetBlend(_, _) => SetBlendK
    case SetMask(_, _) => SetMaskK
    case SetFill(_, _, _, _) => SetFillK
    case SetDecontaminate(_, _) => SetDecontaminateK
    case SetPatch(_, _, _, _) => SetPatchK
    case DevelopRaw(_) => DevelopRawK
  }

  function RectToJson(r: Rect): Json {
    Object(map[KX := Int(r.x), KY := Int(r.y), KWidth := Int(r.width), KHeight := Int(r.height)])
  }

  function ColorToJson(c: FillColor): Json {
    Object(map[KR := Real(c.r), KG := Real(c.g), KB := Real(c.b)])
  }

  /** The members that go with the kind. */
  function Parameters(op: Operation): map<Key, Json> {
    match op
    case Rotate(quarters) => map[KQuarters := Int(quarters)]
    case Straighten(angle) => map[KAngle := Real(angle)]
    case FlipHorizontal => map[]
    case FlipVertical => map[]
    case Crop(rect) => map[KRect := RectToJson(rect)]
    case Resize(w, h) => map[KWidth := Int(w), KHeight := Int(h)]
    case Adjust(target, adjustments, name) =>
      var fields := map[KAdjustments := AdjustmentsToJson(adjustments), KLayerId := Int(target)];
      if name == "" then fields else fields[KName := Text(name)]
    case AddLayer(name, kind) => map[KName := Text(name), KLayerKind := Text(LayerKindName(kind))]
    case RemoveLayer(target) => map[KLayerId := Int(target)]
    case ReorderLayer(target, index) => map[KLayerId := Int(target), KIndex := Int(index)]
    case SetVisible(target, visible) => map[KLayerId := Int(target), KVisible := Bool(visible)]
    case SetOpacity(target, opacity) => map[KLayerId := Int(target), KOpacity := Real(opacity)]
    case SetBlend(target, blend) => map[KLayerId := Int(target), KBlend := Text(BlendModeName(blend))]
    case SetMask(target, mask) => map[KLayerId := Int(target), KMask := MaskToJson(mask)]
    case SetFill(target, fill, color, blur) =>
      map[KLayerId := Int(target), KFill := Text(FillKindName(fill)), KColor := ColorToJson(color), KBlur := Real(blur)]
    case SetDecontaminate(target, amount) => map[KLayerId := Int(target), KDecontaminate := Real(amount)]
    case SetPatch(target, patch, w, h) =>
      map[KLayerId := Int(target), KPatch := Int(patch), KPatchWidth := Int(w), KPatchHeight := Int(h)]
    case DevelopRaw(settings) =>
      map[KCustom := Bool(settings.custom), KTemperature := Real(settings.kelvin), KTint := Real(settings.tint)]
  }

  function ToJson(op: Operation): Json {
    Object(Parameters(op)[KKind := Text(KindName(KindOf(op)))])
  }

  function CropFromJson(v: Json): Result<Operation> {
    if !Has(v, KRect) || !v.fields[KRect].Object? then Err(MissingParameter) else
    var r := v.fields[KRect];
    var x, y, w, h := RequireInt(r, KX), RequireInt(r, KY), RequireInt(r, KWidth), RequireInt(r, KHeight);
    if x.Err? || y.Err? || w.Err? || h.Err? then Err(MissingParameter)
    else if w.value <= 0 || h.value <= 0 then Err(CropIsEmpty)
    else Ok(Crop(Rect(x.value, y.value, w.value, h.value)))
  }

  function AddLayerFromJson(v: Json): Result<Operation> {
    var name := OptionalText(v, KName, "");
    if name.Err? then Err(name.error) else
    var kind := OptionalText(v, KLayerKind, "adjustment");
    if kind.Err? then Err(kind.error) else
    var layer := LayerKindNamed(kind.value);
    Ok(AddLayer(name.value, if layer.Background? then Adjustment else layer))
  }

  function FillFromJson(v: Json): Result<Operation> {
    var fill := OptionalText(v, KFill, "transparent");
    if fill.Err? then Err(fill.error) else
    var c := AsObject(Member(v, KColor, EMPTY_OBJECT));
    Ok(SetFill(OptionalId(v, KLayerId), FillKindNamed(fill.value),
               FillColor(Number(c, KR, 1.0, 0.0, 1.0), Number(c, KG, 1.0, 0.0, 1.0), Number(c, KB, 1.0, 0.0, 1.0)),
               Number(v, KBlur, 40.0, 0.0, 100.0)))
  }

  function ClampInt(n: int, low: int, high: int): int { if n < low then low else if n > high then high else n }

  /** Reading the members a kind asks for. */
  function Read(kind: Kind, v: Json): Result<Operation> {
    match kind
    case RotateK =>
      var quarters := OptionalInt(v, KQuarters, 1) % 4;
      if quarters == 0 then Err(RotationDoesNothing) else Ok(Rotate(quarters))
    case FlipHorizontalK => Ok(FlipHorizontal)
    case FlipVerticalK => Ok(FlipVertical)
    case StraightenK => Ok(Straighten(Number(v, KAngle, 0.0, -MAX_STRAIGHTEN, MAX_STRAIGHTEN)))
    case CropK => CropFromJson(v)
    case AdjustK =>
      var name := OptionalText(v, KName, "");
      if name.Err? then Err(name.error)
      else Ok(Adjust(OptionalId(v, KLayerId), AdjustmentsFromJson(Member(v, KAdjustments, EMPTY_OBJECT)), name.value))
    case AddLayerK => AddLayerFromJson(v)
    case DevelopRawK =>
      var custom := OptionalBool(v, KCustom, true);
      if custom.Err? then Err(custom.error)
      else Ok(DevelopRaw(RawSettings(custom.value, Number(v, KTemperature, 6500.0, MIN_KELVIN, MAX_KELVIN),
                                     Number(v, KTint, 0.0, -MAX_TINT, MAX_TINT))))
    case SetPatchK =>
      Ok(SetPatch(OptionalId(v, KLayerId), OptionalId(v, KPatch), OptionalInt(v, KPatchWidth, 0),
                  OptionalInt(v, KPatchHeight, 0)))
    case SetFillK => FillFromJson(v)
    case ResizeK =>
      Ok(Resize(ClampInt(OptionalInt(v, KWidth, 0), 1, MAX_RESIZE),
                ClampInt(OptionalInt(v, KHeight, 0), 1, MAX_RESIZE)))
    case SetDecontaminateK => Ok(SetDecontaminate(OptionalId(v, KLayerId), Number(v, KDecontaminate, 1.0, 0.0, 1.0)))
    case RemoveLayerK => Ok(RemoveLayer(OptionalId(v, KLayerId)))
    case ReorderLayerK => Ok(ReorderLayer(OptionalId(v, KLayerId), OptionalInt(v, KIndex, 1)))
    case SetVisibleK =>
      var visible := OptionalBool(v, KVisible, true);
      if visible.Err? then Err(visible.error) else Ok(SetVisible(OptionalId(v, KLayerId), visible.value))
    case SetOpacityK => Ok(SetOpacity(OptionalId(v, KLayerId), Number(v, KOpacity, 1.0, 0.0, 1.0)))
    case SetMaskK =>
      var mask := MaskFromJson(Member(v, KMask, EMPTY_OBJECT));
      if mask.Err? then Err(mask.error) else Ok(SetMask(OptionalId(v, KLayerId), mask.value))
    case SetBlendK =>
      var blend := OptionalText(v, KBlend, "normal");
      if blend.Err? then Err(blend.error) else Ok(SetBlend(OptionalId(v, KLayerId), BlendModeNamed(blend.value)))
  }

  function FromJson(v: Json): Result<Operation> {
    if !Has(v, KKind) || !v.fields[KKind].Text? then Err(MissingParameter) else
    var kind := KindNamed(v.fields[KKind].s, 0);
    if kind.Err? then Err(kind.error) else Read(kind.value, v)
  }

  function AllToJson(ops: seq<Operation>): (r: seq<Json>)
    ensures |r| == |ops| && forall k | 0 <= k < |r| :: r[k] == ToJson(ops[k])
  {
    if ops == [] then [] else AllToJson(ops[..|ops| - 1]) + [ToJson(ops[|ops| - 1])]
  }

  /** The first operation that cannot be read refuses the list. */
  function AllFromJson(items: seq<Json>): Result<seq<Operation>> {
    if items == [] then Ok([]) else
    var before := AllFromJson(items[..|items| - 1]);
    if before.Err? then before else
    var op := FromJson(items[|items| - 1]);
    if op.Err? then Err(op.error) else Ok(before.value + [op.value])
  }

  function OperationsOf(j: Json): Result<seq<Operation>> {
    if j.List? then AllFromJson(j.items) else Ok([])
  }

  method OperationsFromJson(j: Json) returns (r: Result<seq<Operation>>)
    ensures r == OperationsOf(j)
  {
    if !j.List? { return Ok([]); }
    var ops := [];
    for k := 0 to |j.items|
      invariant AllFromJson(j.items[..k]) == Ok(ops)
    {
      assert j.items[..k + 1][..k] == j.items[..k];
      var op := FromJson(j.items[k]);
      if op.Err? {
        Refused(j.items, k + 1);
        return Err(op.error);
      }
      ops := ops + [op.value];
    }
    assert j.items[..|j.items|] == j.items;
    r := Ok(ops);
  }

  lemma {:induction false} Refused(items: seq<Json>, k: nat)
    requires k <= |items| && AllFromJson(items[..k]).Err?
    ensures AllFromJson(items) == AllFromJson(items[..k])
  {
    if k == |items| {
      assert items[..k] == items;
    } else {
      assert items[..|items| - 1][..k] == items[..k];
      Refused(items[..|items| - 1], k);
    }
  }

  // ------------------------------------------------------------- round trips

  lemma NamesApart(a: Kind, b: Kind)
    ensures KindName(a) == KindName(b) ==> a == b
  {
    var s, t := KindName(a), KindName(b);
    if s == t {
      assert |s| == |t| && s[0] == t[0] && s[3] == t[3] && s[|s| - 1] == t[|t| - 1];
      if |s| >= 10 { assert s[8] == t[8]; }
    }
  }

  lemma {:induction false} KindNamedFrom(k: Kind, i: nat, from: nat)
    requires from <= i < |ALL_KINDS| && ALL_KINDS[i] == k
    ensures KindNamed(KindName(k), from) == Ok(k)
    decreases i - from
  {
    hide KindName;
    if KindName(k) == KindName(ALL_KINDS[from]) {
      NamesApart(k, ALL_KINDS[from]);
    } else {
      KindNamedFrom(k, i, from + 1);
    }
  }

  lemma KindIsListed(k: Kind) returns (i: nat)
    ensures i < |ALL_KINDS| && ALL_KINDS[i] == k
  {
    i := match k
      case RotateK => 0 case FlipHorizontalK => 1 case FlipVerticalK => 2 case StraightenK => 3 case CropK => 4
      case AdjustK => 5 case AddLayerK => 6 case DevelopRawK => 7 case SetPatchK => 8 case SetFillK => 9
      case ResizeK => 10 case SetDecontaminateK => 11 case RemoveLayerK => 12 case ReorderLayerK => 13
      case SetVisibleK => 14 case SetOpacityK => 15 case SetMaskK => 16 case SetBlendK => 17;
  }

  lemma KindRoundTrip(k: Kind)
    ensures KindNamed(KindName(k), 0) == Ok(k)
  {
    var i := KindIsListed(k);
    KindNamedFrom(k, i, 0);
  }

  /** A 32-bit integer. */
  predicate Int32(n: int) { -0x8000_0000 <= n < 0x8000_0000 }

  predicate Within(r: real, low: real, high: real) { low <= r <= high }

  ghost predicate LoadableAdjustments(a: Adjustments) {
    && Within(a.exposure, -5.0, 5.0) && Within(a.brightness, -100.0, 100.0) && Within(a.contrast, -100.0, 100.0)
    && Within(a.highlights, -100.0, 100.0) && Within(a.shadows, -100.0, 100.0) && Within(a.saturation, -100.0, 100.0)
    && Within(a.vibrance, -100.0, 100.0) && Within(a.hue, -180.0, 180.0) && Within(a.vignette, -100.0, 100.0)
    && Within(a.grain, 0.0, 100.0) && Within(a.sharpen, 0.0, 100.0) && Within(a.clarity, -100.0, 100.0)
    && Within(a.denoise, 0.0, 100.0) && Within(a.denoiseDetail, 0.0, 100.0) && Within(a.temperature, -100.0, 100.0)
    && Shaped(a.curves.rgb) && Shaped(a.curves.red) && Shaped(a.curves.green) && Shaped(a.curves.blue)
  }

  ghost predicate LoadableMask(m: Mask) {
    && Within(m.x, -1.0, 2.0) && Within(m.y, -1.0, 2.0) && Within(m.radius, 0.0, 4.0) && Within(m.feather, 0.0, 4.0)
    && Within(m.low, 0.0, 1.0) && Within(m.high, 0.0, 1.0) && Int32(m.rasterWidth) && Int32(m.rasterHeight)
  }

  /** What reading promises of an operation. */
  ghost predicate Loadable(op: Operation) {
    match op
    case Rotate(quarters) => 1 <= quarters <= 3
    case Straighten(angle) => Within(angle, -MAX_STRAIGHTEN, MAX_STRAIGHTEN)
    case FlipHorizontal => true
    case FlipVertical => true
    case Crop(r) => Int32(r.x) && Int32(r.y) && Int32(r.width) && Int32(r.height) && r.width > 0 && r.height > 0
    case Resize(w, h) => 1 <= w <= MAX_RESIZE && 1 <= h <= MAX_RESIZE
    case Adjust(_, adjustments, _) => LoadableAdjustments(adjustments)
    case AddLayer(_, kind) => kind != Background
    case RemoveLayer(_) => true
    case ReorderLayer(_, index) => Int32(index)
    case SetVisible(_, _) => true
    case SetOpacity(_, opacity) => Within(opacity, 0.0, 1.0)
    case SetBlend(_, _) => true
    case SetMask(_, mask) => LoadableMask(mask)
    case SetFill(_, _, c, blur) =>
      Within(c.r, 0.0, 1.0) && Within(c.g, 0.0, 1.0) && Within(c.b, 0.0, 1.0) && Within(blur, 0.0, 100.0)
    case SetDecontaminate(_, amount) => Within(amount, 0.0, 1.0)
    case SetPatch(_, _, w, h) => Int32(w) && Int32(h)
    case DevelopRaw(s) => Within(s.kelvin, MIN_KELVIN, MAX_KELVIN) && Within(s.tint, -MAX_TINT, MAX_TINT)
  }

  function CleanedCurves(c: Curves): Curves {
    Curves(Cleaned(c.rgb), Cleaned(c.red), Cleaned(c.green), Cleaned(c.blue))
  }

  /** What one save and reopen does to an operation: its curves are cleaned once more. */
  function Resaved(op: Operation): Operation {
    if op.Adjust? then op.(adjustments := op.adjustments.(curves := CleanedCurves(op.adjustments.curves))) else op
  }

  lemma {:induction false} PointsBack(c: Curve)
    ensures PointsFromJson(PointsToJson(c)) == AsRaw(c)
  {
    if c != [] {
      PointsBack(c[..|c| - 1]);
      assert PointsToJson(c)[..|c| - 1] == PointsToJson(c[..|c| - 1]);
    }
  }

  lemma CurveBack(c: Curve)
    ensures CurveOf(CurveToJson(c)) == Cleaned(c)
  {
    hide Clean, PointsToJson, PointsFromJson;
    PointsBack(c);
  }

  lemma CurvesBack(c: Curves)
    ensures CurvesFromJson(CurvesToJson(c)) == CleanedCurves(c)
  {
    hide CurveToJson, CurveOf, Cleaned;
    CurveBack(c.rgb);
    CurveBack(c.red);
    CurveBack(c.green);
    CurveBack(c.blue);
  }

  lemma NumberBack(o: Json, k: Key, v: real, fallback: real, low: real, high: real)
    requires Has(o, k) && o.fields[k] == Real(v) && Within(v, low, high)
    ensures Number(o, k, fallback, low, high) == v
  {}

  lemma AdjustmentsBack(a: Adjustments)
    requires LoadableAdjustments(a)
    ensures AdjustmentsFromJson(AdjustmentsToJson(a)) == a.(curves := CleanedCurves(a.curves))
  {
    hide CurvesFromJson, CurvesToJson, CleanedCurves, Shaped, Number;
    var v := AdjustmentsToJson(a);
    CurvesBack(a.curves);
    NumberBack(v, KExposure, a.exposure, 0.0, -5.0, 5.0);
    NumberBack(v, KBrightness, a.brightness, 0.0, -100.0, 100.0);
    NumberBack(v, KContrast, a.contrast, 0.0, -100.0, 100.0);
    NumberBack(v, KHighlights, a.highlights, 0.0, -100.0, 100.0);
    NumberBack(v, KShadows, a.shadows, 0.0, -100.0, 100.0);
    NumberBack(v, KSaturation, a.saturation, 0.0, -100.0, 100.0);
    NumberBack(v, KVibrance, a.vibrance, 0.0, -100.0, 100.0);
    NumberBack(v, KHue, a.hue, 0.0, -180.0, 180.0);
    NumberBack(v, KVignette, a.vignette, 0.0, -100.0, 100.0);
    NumberBack(v, KGrain, a.grain, 0.0, 0.0, 100.0);
    NumberBack(v, KSharpen, a.sharpen, 0.0, 0.0, 100.0);
    NumberBack(v, KClarity, a.clarity, 0.0, -100.0, 100.0);
    NumberBack(v, KDenoise, a.denoise, 0.0, 0.0, 100.0);
    NumberBack(v, KDenoiseDetail, a.denoiseDetail, 50.0, 0.0, 100.0);
    NumberBack(v, KTemperature, a.temperature, 0.0, -100.0, 100.0);
  }

  lemma MaskKindBack(k: MaskKind)
    ensures MaskKindNamed(MaskKindName(k)) == k
  {}

  lemma MaskBack(m: Mask)
    requires LoadableMask(m)
    ensures MaskFromJson(MaskToJson(m)) == Ok(m)
  {
    hide MaskKindNamed, MaskKindName, Number;
    var v := MaskToJson(m);
    MaskKindBack(m.kind);
    NumberBack(v, KX, m.x, 0.5, -1.0, 2.0);
    NumberBack(v, KY, m.y, 0.5, -1.0, 2.0);
    NumberBack(v, KRadius, m.radius, 0.35, 0.0, 4.0);
    NumberBack(v, KFeather, m.feather, 0.25, 0.0, 4.0);
    NumberBack(v, KLow, m.low, 0.0, 0.0, 1.0);
    NumberBack(v, KHigh, m.high, 1.0, 0.0, 1.0);
  }

  lemma LayerKindBack(k: LayerKind)
    ensures LayerKindNamed(LayerKindName(k)) == k
  {}

  lemma FillKindBack(k: FillKind)
    ensures FillKindNamed(FillKindName(k)) == k
  {}

  lemma BlendModeBack(b: BlendMode)
    ensures BlendModeNamed(BlendModeName(b)) == b
  {}

  lemma Wrap32Keeps(n: int)
    ensures Int32(n) ==> Wrap32(n) == n
  {}

  lemma ReadShapeBack(op: Operation)
    requires Loadable(op) && (op.Rotate? || op.Straighten? || op.FlipHorizontal? || op.FlipVertical? || op.DevelopRaw?)
    ensures Read(KindOf(op), ToJson(op)) == Ok(op)
  {
    hide KindName;
  }

  lemma ReadSizeBack(op: Operation)
    requires Loadable(op) && (op.Resize? || op.SetPatch?)
    ensures Read(KindOf(op), ToJson(op)) == Ok(op)
  {
    hide KindName, Wrap32;
    Wrap32Keeps(op.width);
    Wrap32Keeps(op.height);
  }

  lemma ReadCropBack(op: Operation)
    requires Loadable(op) && op.Crop?
    ensures Read(KindOf(op), ToJson(op)) == Ok(op)
  {
    hide KindName;
  }

  lemma ReadStackBack(op: Operation)
    requires Loadable(op) && (op.AddLayer? || op.RemoveLayer? || op.ReorderLayer?)
    ensures Read(KindOf(op), ToJson(op)) == Ok(op)
  {
    hide KindName, LayerKindName, LayerKindNamed, Wrap32;
    if op.ReorderLayer? { Wrap32Keeps(op.index); }
    if op.AddLayer? { LayerKindBack(op.kind); }
  }

  lemma ReadLayerBack(op: Operation)
    requires Loadable(op) && (op.SetVisible? || op.SetOpacity? || op.SetBlend? || op.SetDecontaminate?)
    ensures Read(KindOf(op), ToJson(op)) == Ok(op)
  {
    hide KindName, BlendModeName, BlendModeNamed;
    if op.SetBlend? { BlendModeBack(op.blend); }
  }

  lemma ReadFillBack(op: Operation)
    requires Loadable(op) && (op.SetFill? || op.SetMask?)
    ensures Read(KindOf(op), ToJson(op)) == Ok(op)
  {
    hide KindName, FillKindName, FillKindNamed, MaskToJson, MaskFromJson, LoadableMask;
    if op.SetFill? { FillKindBack(op.fill); } else { MaskBack(op.mask); }
  }

  lemma ReadAdjustBack(op: Operation)
    requires Loadable(op) && op.Adjust?
    ensures Read(KindOf(op), ToJson(op)) == Ok(Resaved(op))
  {
    hide KindName, AdjustmentsToJson, AdjustmentsFromJson, CleanedCurves, LoadableAdjustments;
    AdjustmentsBack(op.adjustments);
  }

  lemma ReadBack(op: Operation)
    requires Loadable(op)
    ensures Read(KindOf(op), ToJson(op)) == Ok(Resaved(op))
  {
    hide Read, ToJson, Loadable, CleanedCurves, KindOf;
    if op.Adjust? {
      ReadAdjustBack(op);
    } else if op.SetFill? || op.SetMask? {
      ReadFillBack(op);
    } else if op.Crop? {
      ReadCropBack(op);
    } else if op.Resize? || op.SetPatch? {
      ReadSizeBack(op);
    } else if op.Rotate? || op.Straighten? || op.FlipHorizontal? || op.FlipVertical? || op.DevelopRaw? {
      ReadShapeBack(op);
    } else if op.AddLayer? || op.RemoveLayer? || op.ReorderLayer? {
      ReadStackBack(op);
    } else {
      ReadLayerBack(op);
    }
  }

  /** What was saved reads back, its curves cleaned once more and everything else the same. */
  lemma RoundTrip(op: Operation)
    requires Loadable(op)
    ensures FromJson(ToJson(op)) == Ok(Resaved(op))
  {
    hide Read, Parameters, KindName, KindNamed, Loadable, Resaved;
    KindRoundTrip(KindOf(op));
    ReadBack(op);
  }

  // ------------------------------------------------------- what reading gives

  lemma CurveOfShaped(j: Json)
    ensures Shaped(CurveOf(j))
  {
    hide Clean, PointsFromJson;
    if j.List? { CleanShaped(PointsFromJson(j.items)); }
  }

  lemma AdjustmentsLoadable(j: Json)
    ensures LoadableAdjustments(AdjustmentsFromJson(j))
  {
    hide Shaped, CurveOf, Clamp, OptionalReal;
    var v := AsObject(j);
    NumbersWithin(v);
    var c := AsObject(Member(v, KCurves, EMPTY_OBJECT));
    CurveOfShaped(Member(c, KRgb, List([])));
    CurveOfShaped(Member(c, KRed, List([])));
    CurveOfShaped(Member(c, KGreen, List([])));
    CurveOfShaped(Member(c, KBlue, List([])));
  }

  lemma NumbersWithin(v: Json)
    ensures forall k: Key, fallback: real, low: real, high: real | low <= high ::
              Within(Number(v, k, fallback, low, high), low, high)
  {}

  /** A real number outside the 32-bit range has no value as a whole number. */
  ghost predicate IntsFit(o: Json, k: Key) {
    HasNumber(o, k) && o.fields[k].Real? ==> Int32(Truncated(o.fields[k].r))
  }

  lemma OptionalIntFits(o: Json, k: Key, fallback: int)
    requires Int32(fallback)
    ensures Int32(OptionalInt(o, k, fallback)) <==> IntsFit(o, k)
  {}

  /** The whole numbers an operation keeps as they are read do have a value. */
  ghost predicate KeptIntsFit(kind: Kind, v: Json) {
    match kind
    case SetPatchK => IntsFit(v, KPatchWidth) && IntsFit(v, KPatchHeight)
    case ReorderLayerK => IntsFit(v, KIndex)
    case SetMaskK =>
      var mask := AsObject(Member(v, KMask, EMPTY_OBJECT));
      IntsFit(mask, KRasterWidth) && IntsFit(mask, KRasterHeight)
    case _ => true
  }

  lemma ReadLoadable(kind: Kind, v: Json)
    requires Read(kind, v).Ok?
    ensures Loadable(Read(kind, v).value) <==> KeptIntsFit(kind, v)
  {
    hide AdjustmentsFromJson, LoadableAdjustments, Number, MaskFromJson, LoadableMask, FillKindNamed, BlendModeNamed,
         LayerKindNamed, OptionalText, OptionalBool, OptionalInt, IntsFit;
    NumbersWithin(v);
    NumbersWithin(AsObject(Member(v, KColor, EMPTY_OBJECT)));
    AdjustmentsLoadable(Member(v, KAdjustments, EMPTY_OBJECT));
    if kind.SetMaskK? { MaskLoadable(Member(v, KMask, EMPTY_OBJECT)); }
    OptionalIntFits(v, KPatchWidth, 0);
    OptionalIntFits(v, KPatchHeight, 0);
    OptionalIntFits(v, KIndex, 1);
  }

  lemma MaskLoadable(j: Json)
    ensures MaskFromJson(j).Ok? ==>
      (LoadableMask(MaskFromJson(j).value)
       <==> IntsFit(AsObject(j), KRasterWidth) && IntsFit(AsObject(j), KRasterHeight))
  {
    hide Number, MaskKindNamed, OptionalText, OptionalBool, OptionalInt, IntsFit;
    var v := AsObject(j);
    NumbersWithin(v);
    OptionalIntFits(v, KRasterWidth, 0);
    OptionalIntFits(v, KRasterHeight, 0);
  }

  /**
   * Whatever the JSON, what is read from it is in range, in shape and adds no background,
   * if and only if the whole numbers it keeps have a value.
   */
  lemma FromJsonLoadable(v: Json)
    requires FromJson(v).Ok?
    ensures Loadable(FromJson(v).value) <==> KeptIntsFit(KindNamed(v.fields[KKind].s, 0).value, v)
  {
    hide Read, KindNamed, Loadable, KeptIntsFit;
    ReadLoadable(KindNamed(v.fields[KKind].s, 0).value, v);
  }

  // ------------------------------------------------------ save after save

  lemma ShapedSettles(c: Curve)
    requires Shaped(c)
    ensures Cleaned(Cleaned(c)) == Cleaned(c) && Shaped(Cleaned(c))
  {
    hide Clean, Thinned, WithEnds;
    CleanShaped(AsRaw(c));
    CleanedShaped(c);
    ThinnedIs(c);
    SomeInSquare(Thinned(c), c);
    if c == [] { NothingCleaned(); }
    FromZeroSettled(Thinned(c));
  }

  lemma ResavedSettles(op: Operation)
    requires Loadable(op)
    ensures Resaved(Resaved(op)) == Resaved(op) && Loadable(Resaved(op))
  {
    hide Cleaned, Shaped;
    if op.Adjust? {
      var c := op.adjustments.curves;
      ShapedSettles(c.rgb);
      ShapedSettles(c.red);
      ShapedSettles(c.green);
      ShapedSettles(c.blue);
    }
  }

  function ResavedAll(ops: seq<Operation>): (r: seq<Operation>)
    ensures |r| == |ops| && forall k | 0 <= k < |r| :: r[k] == Resaved(ops[k])
  {
    if ops == [] then [] else ResavedAll(ops[..|ops| - 1]) + [Resaved(ops[|ops| - 1])]
  }

  ghost predicate AllLoadable(ops: seq<Operation>) { forall op | op in ops :: Loadable(op) }

  lemma {:induction false} ListRoundTrip(ops: seq<Operation>)
    requires AllLoadable(ops)
    ensures OperationsOf(List(AllToJson(ops))) == Ok(ResavedAll(ops))
  {
    hide Loadable, FromJson, ToJson;
    if ops != [] {
      var n := |ops| - 1;
      ListRoundTrip(ops[..n]);
      assert AllToJson(ops)[..n] == AllToJson(ops[..n]);
      assert ops[n] in ops;
      RoundTrip(ops[n]);
    }
  }

  /** A document saved and reopened `n` times. */
  function Reopened(ops: seq<Operation>, n: nat): Result<seq<Operation>> {
    if n == 0 then Ok(ops) else
    var before := Reopened(ops, n - 1);
    if before.Err? then before else OperationsOf(List(AllToJson(before.value)))
  }

  lemma AllResavedLoadable(ops: seq<Operation>)
    requires AllLoadable(ops)
    ensures ResavedAll(ResavedAll(ops)) == ResavedAll(ops) && AllLoadable(ResavedAll(ops))
  {
    hide Loadable, Resaved;
    forall k | 0 <= k < |ops| ensures Resaved(Resaved(ops[k])) == Resaved(ops[k]) && Loadable(Resaved(ops[k])) {
      assert ops[k] in ops;
      ResavedSettles(ops[k]);
    }
  }

  /** The first save and reopen may thin a curve again; no later one changes anything. */
  lemma {:induction false} ReopenedSettles(ops: seq<Operation>, n: nat)
    requires AllLoadable(ops)
    ensures Reopened(ops, n) == Ok(if n == 0 then ops else ResavedAll(ops))
  {
    hide AllLoadable, OperationsOf, ResavedAll, AllToJson;
    if n > 0 {
      ReopenedSettles(ops, n - 1);
      if n == 1 {
        ListRoundTrip(ops);
      } else {
        AllResavedLoadable(ops);
        ListRoundTrip(ResavedAll(ops));
      }
    }
  }

  /** The spline an adjustment is rendered with is the same after any number of saves. */
  lemma SplinesUnchanged(op: Operation, root: real -> real)
    requires Loadable(op) && op.Adjust? && S.RootOk(root)
    ensures var c, d := op.adjustments.curves, Resaved(op).adjustments.curves;
      && S.Build(AsRaw(d.rgb), root) == S.Build(AsRaw(c.rgb), root)
      && S.Build(AsRaw(d.red), root) == S.Build(AsRaw(c.red), root)
      && S.Build(AsRaw(d.green), root) == S.Build(AsRaw(c.green), root)
      && S.Build(AsRaw(d.blue), root) == S.Build(AsRaw(c.blue), root)
  {
    hide S.Build, Cleaned, Shaped, S.RootOk;
    var c := op.adjustments.curves;
    SameSpline(c.rgb, root);
    SameSpline(c.red, root);
    SameSpline(c.green, root);
    SameSpline(c.blue, root);
  }

  lemma SameSpline(c: Curve, root: real -> real)
    requires Shaped(c) && S.RootOk(root)
    ensures S.Build(AsRaw(Cleaned(c)), root) == S.Build(AsRaw(c), root)
  {
    hide Clean, Shaped, S.Limited;
    ShapedSettles(c);
  }

  /** Saving changes neither the geometry nor which layers there are. */
  lemma {:induction false} ResavedFoldsAlike(ops: seq<Operation>, w: int, h: int, t: Trig)
    requires TrigOk(t)
    ensures Fold(ResavedAll(ops), w, h, t) == Fold(ops, w, h, t)
  {
    hide Step, Resaved;
    if ops != [] {
      var n := |ops| - 1;
      assert ResavedAll(ops)[..n] == ResavedAll(ops[..n]);
      ResavedFoldsAlike(ops[..n], w, h, t);
      ResavedStep(Fold(ops[..n], w, h, t), ops[n], t);
    }
  }

  lemma ResavedStep(g: Geometry, op: Operation, t: Trig)
    requires TrigOk(t)
    ensures Step(g, Resaved(op), t) == Step(g, op, t)
  {
    hide CleanedCurves, CroppedRect, InscribedFrame;
  }

  /** A loaded list adds no background, so its stack has the one at the bottom and no other. */
  lemma LoadedOneBackground(ops: seq<Operation>)
    requires AllLoadable(ops)
    ensures !L.ExtraBackground(L.Replay(ops))
  {
    L.OneBackground(ops);
    forall k | 0 <= k < |ops| && ops[k].AddLayer? ensures ops[k].kind != Background {
      assert ops[k] in ops;
    }
  }
}
