/**
 * What a saved operation says to a reader that finds only part of it, and when two
 * operations are saved as the same kind.
 */
module SavedForms {
  import opened Operations
  import opened Serialization
  import opened ToneCurves
  import L = Layers

  /** A gesture rewrites the last entry exactly when the two are saved under one name. */
  lemma SameKindIff(a: Operation, b: Operation)
    ensures L.SameKind(a, b) <==> KindName(KindOf(a)) == KindName(KindOf(b))
  {
    hide KindName;
    if KindName(KindOf(a)) == KindName(KindOf(b)) { NamesApart(KindOf(a), KindOf(b)); }
  }

  /** What is left of a saved object when the members `gone` are taken out. */
  function Left(o: Json, gone: set<Key>): Json
    requires o.Object?
  {
    Object(o.fields - gone)
  }

  /** A saved object with the members of another put in wherever `gone` says. */
  function Filled(o: Json, other: Json, gone: set<Key>): Json
    requires o.Object? && other.Object?
  {
    Object(other.fields + (o.fields - gone))
  }

  function Either(k: Key, gone: set<Key>, missing: real, kept: real): real { if k in gone then missing else kept }

  lemma NumberLeft(o: Json, gone: set<Key>, k: Key, v: real, fallback: real, low: real, high: real)
    requires o.Object? && k in o.fields && o.fields[k] == Real(v) && Within(v, low, high) && Within(fallback, low, high)
    ensures Number(Left(o, gone), k, fallback, low, high) == Either(k, gone, fallback, v)
  {}

  lemma CurvesLeft(o: Json, gone: set<Key>, c: Curves)
    requires o.Object? && KCurves in o.fields && o.fields[KCurves] == CurvesToJson(c)
    ensures CurvesFromJson(Member(Left(o, gone), KCurves, EMPTY_OBJECT))
         == if KCurves in gone then NEUTRAL.curves else CleanedCurves(c)
  {
    hide CurveToJson, CleanedCurves, Cleaned;
    CurvesBack(c);
  }

  /** Neutral where `gone` says so. */
  ghost function Patched(a: Adjustments, gone: set<Key>): Adjustments {
    var n := NEUTRAL;
    Adjustments(
      Either(KExposure, gone, n.exposure, a.exposure), Either(KBrightness, gone, n.brightness, a.brightness),
      Either(KContrast, gone, n.contrast, a.contrast), Either(KHighlights, gone, n.highlights, a.highlights),
      Either(KShadows, gone, n.shadows, a.shadows), Either(KSaturation, gone, n.saturation, a.saturation),
      Either(KVibrance, gone, n.vibrance, a.vibrance), Either(KHue, gone, n.hue, a.hue),
      Either(KVignette, gone, n.vignette, a.vignette), Either(KGrain, gone, n.grain, a.grain),
      Either(KSharpen, gone, n.sharpen, a.sharpen), Either(KClarity, gone, n.clarity, a.clarity),
      Either(KDenoise, gone, n.denoise, a.denoise), Either(KDenoiseDetail, gone, n.denoiseDetail, a.denoiseDetail),
      Either(KTemperature, gone, n.temperature, a.temperature), if KCurves in gone then n.curves else a.curves)
  }

  lemma LightLeft(a: Adjustments, v: Json, gone: set<Key>)
    requires LoadableAdjustments(a) && v == Left(AdjustmentsToJson(a), gone)
    ensures Number(v, KExposure, 0.0, -5.0, 5.0) == Either(KExposure, gone, NEUTRAL.exposure, a.exposure)
    ensures Number(v, KBrightness, 0.0, -100.0, 100.0) == Either(KBrightness, gone, NEUTRAL.brightness, a.brightness)
    ensures Number(v, KContrast, 0.0, -100.0, 100.0) == Either(KContrast, gone, NEUTRAL.contrast, a.contrast)
    ensures Number(v, KHighlights, 0.0, -100.0, 100.0) == Either(KHighlights, gone, NEUTRAL.highlights, a.highlights)
    ensures Number(v, KShadows, 0.0, -100.0, 100.0) == Either(KShadows, gone, NEUTRAL.shadows, a.shadows)
    ensures Number(v, KSaturation, 0.0, -100.0, 100.0) == Either(KSaturation, gone, NEUTRAL.saturation, a.saturation)
    ensures Number(v, KVibrance, 0.0, -100.0, 100.0) == Either(KVibrance, gone, NEUTRAL.vibrance, a.vibrance)
    ensures Number(v, KHue, 0.0, -180.0, 180.0) == Either(KHue, gone, NEUTRAL.hue, a.hue)
  {
    hide CurvesToJson, Shaped, Number, Left, Either;
    var o := AdjustmentsToJson(a);
    NumberLeft(o, gone, KExposure, a.exposure, 0.0, -5.0, 5.0);
    NumberLeft(o, gone, KBrightness, a.brightness, 0.0, -100.0, 100.0);
    NumberLeft(o, gone, KContrast, a.contrast, 0.0, -100.0, 100.0);
    NumberLeft(o, gone, KHighlights, a.highlights, 0.0, -100.0, 100.0);
    NumberLeft(o, gone, KShadows, a.shadows, 0.0, -100.0, 100.0);
    NumberLeft(o, gone, KSaturation, a.saturation, 0.0, -100.0, 100.0);
    NumberLeft(o, gone, KVibrance, a.vibrance, 0.0, -100.0, 100.0);
    NumberLeft(o, gone, KHue, a.hue, 0.0, -180.0, 180.0);
  }

  lemma RestLeft(a: Adjustments, v: Json, gone: set<Key>)
    requires LoadableAdjustments(a) && v == Left(AdjustmentsToJson(a), gone)
    ensures Number(v, KVignette, 0.0, -100.0, 100.0) == Either(KVignette, gone, NEUTRAL.vignette, a.vignette)
    ensures Number(v, KGrain, 0.0, 0.0, 100.0) == Either(KGrain, gone, NEUTRAL.grain, a.grain)
    ensures Number(v, KSharpen, 0.0, 0.0, 100.0) == Either(KSharpen, gone, NEUTRAL.sharpen, a.sharpen)
    ensures Number(v, KClarity, 0.0, -100.0, 100.0) == Either(KClarity, gone, NEUTRAL.clarity, a.clarity)
    ensures Number(v, KDenoise, 0.0, 0.0, 100.0) == Either(KDenoise, gone, NEUTRAL.denoise, a.denoise)
    ensures Number(v, KDenoiseDetail, 50.0, 0.0, 100.0)
         == Either(KDenoiseDetail, gone, NEUTRAL.denoiseDetail, a.denoiseDetail)
    ensures Number(v, KTemperature, 0.0, -100.0, 100.0)
         == Either(KTemperature, gone, NEUTRAL.temperature, a.temperature)
  {
    hide CurvesToJson, Shaped, Number, Left, Either;
    var o := AdjustmentsToJson(a);
    NumberLeft(o, gone, KVignette, a.vignette, 0.0, -100.0, 100.0);
    NumberLeft(o, gone, KGrain, a.grain, 0.0, 0.0, 100.0);
    NumberLeft(o, gone, KSharpen, a.sharpen, 0.0, 0.0, 100.0);
    NumberLeft(o, gone, KClarity, a.clarity, 0.0, -100.0, 100.0);
    NumberLeft(o, gone, KDenoise, a.denoise, 0.0, 0.0, 100.0);
    NumberLeft(o, gone, KDenoiseDetail, a.denoiseDetail, 50.0, 0.0, 100.0);
    NumberLeft(o, gone, KTemperature, a.temperature, 0.0, -100.0, 100.0);
  }

  lemma AdjustmentsLeft(a: Adjustments, gone: set<Key>)
    requires LoadableAdjustments(a)
    ensures AdjustmentsFromJson(Left(AdjustmentsToJson(a), gone))
         == Patched(a.(curves := CleanedCurves(a.curves)), gone)
  {
    var o := AdjustmentsToJson(a);
    assert o.Object?;
    hide CurvesFromJson, CleanedCurves, LoadableAdjustments, Number, Left, Member, Either, AdjustmentsToJson;
    LightLeft(a, Left(o, gone), gone);
    RestLeft(a, Left(o, gone), gone);
    SavedCurves(a, gone);
    LeftObject(o, gone);
  }

  lemma SavedCurves(a: Adjustments, gone: set<Key>)
    ensures CurvesFromJson(Member(Left(AdjustmentsToJson(a), gone), KCurves, EMPTY_OBJECT))
         == if KCurves in gone then NEUTRAL.curves else CleanedCurves(a.curves)
  {
    hide CurvesFromJson, CurvesToJson, CleanedCurves, Left, Member;
    CurvesLeft(AdjustmentsToJson(a), gone, a.curves);
  }

  lemma LeftObject(o: Json, gone: set<Key>)
    requires o.Object?
    ensures Left(o, gone).Object? && AsObject(Left(o, gone)) == Left(o, gone)
  {}

  /**
   * Adjustments saved by a version that knew fewer of them: whatever members are missing,
   * what is read saves as the members that are there and the neutral ones for the rest.
   */
  lemma MissingIsNeutral(a: Adjustments, gone: set<Key>)
    requires LoadableAdjustments(a)
    ensures var clean := a.(curves := CleanedCurves(a.curves));
      AdjustmentsToJson(AdjustmentsFromJson(Left(AdjustmentsToJson(a), gone)))
      == Filled(AdjustmentsToJson(clean), AdjustmentsToJson(NEUTRAL), gone)
  {
    hide AdjustmentsFromJson, AdjustmentsToJson, CleanedCurves, LoadableAdjustments, Left, Filled, Patched;
    AdjustmentsLeft(a, gone);
    PatchedSaved(a.(curves := CleanedCurves(a.curves)), gone);
  }

  lemma PatchedSaved(a: Adjustments, gone: set<Key>)
    ensures AdjustmentsToJson(Patched(a, gone)) == Filled(AdjustmentsToJson(a), AdjustmentsToJson(NEUTRAL), gone)
  {
    hide CurvesToJson, Patched;
    var o, n, m := AdjustmentsToJson(a).fields, AdjustmentsToJson(NEUTRAL).fields,
                   AdjustmentsToJson(Patched(a, gone)).fields;
    assert o.Keys == n.Keys == m.Keys;
    forall k | k in m ensures m[k] == if k in gone then n[k] else o[k] { PatchedAt(a, gone, k); }
    assert m == n + (o - gone);
  }

  lemma PatchedAt(a: Adjustments, gone: set<Key>, k: Key)
    requires k in AdjustmentsToJson(a).fields
    ensures AdjustmentsToJson(Patched(a, gone)).fields[k]
         == (if k in gone then AdjustmentsToJson(NEUTRAL) else AdjustmentsToJson(a)).fields[k]
  {
    hide CurvesToJson;
  }
}
