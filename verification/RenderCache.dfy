/**
 * What a document keeps between renders: the last geometry result, masks and patches
 * fitted to a render's size, and the last development of a raw file. What is kept is
 * always what working it out again would give.
 */
module RenderCaches {
  import opened Integers
  import opened Orientations
  import opened Operations
  import opened Geometries
  import opened Options
  import L = Layers

  datatype Plan = Plan(
    geometry: Geometry, width: int, height: int, documentWidth: int, documentHeight: int, scale: real)

  const NO_PLAN := Plan(Geometry(NO_RECT, 0.0, NO_RECT, TopLeft, 0, 0), 0, 0, 0, 0, 1.0)

  predicate Matches(a: Plan, b: Plan) {
    && a.width == b.width && a.height == b.height
    && a.geometry.orientation == b.geometry.orientation && a.geometry.angle == b.geometry.angle
    && a.geometry.sourceRect == b.geometry.sourceRect
  }

  // --------------------------------------------------------- the geometry half

  /** The passes over pixels, which are not modelled here. */
  datatype Kernels<!I> = Kernels(
    straighten: (I, Rect, real, int, int) -> I,
    resample: (I, Rect, int, int) -> I,
    copy: (I, Rect) -> I,
    turn: (I, Orientation) -> I)

  function RenderGeometry<I>(source: I, plan: Plan, k: Kernels<I>): I {
    var g := plan.geometry;
    var swap := SwapsAxes(g.orientation);
    var w, h := if swap then plan.height else plan.width, if swap then plan.width else plan.height;
    var needsResize := w != g.sourceRect.width || h != g.sourceRect.height;
    var region :=
      if g.angle != 0.0 then k.straighten(source, g.sourceRect, g.angle, w, h)
      else if needsResize then k.resample(source, g.sourceRect, w, h)
      else k.copy(source, g.sourceRect);
    if g.orientation == TopLeft then region else k.turn(region, g.orientation)
  }

  /** A picture that remembers every pass that made it. */
  datatype Trace =
    | Source
    | Straightened(from: Trace, rect: Rect, angle: real, w: int, h: int)
    | Resampled(from: Trace, rect: Rect, w: int, h: int)
    | Copied(from: Trace, rect: Rect)
    | Turned(from: Trace, o: Orientation)

  const RECORDED: Kernels<Trace> := Kernels(
    (s, r, a, w, h) => Straightened(s, r, a, w, h), (s, r, w, h) => Resampled(s, r, w, h), (s, r) => Copied(s, r),
    (s, o) => Turned(s, o))

  /**
   * Plans that match make the same passes over the source, and only those: the
   * comparison leaves out nothing the passes depend on and asks for nothing else.
   */
  lemma MatchesIff(a: Plan, b: Plan)
    ensures Matches(a, b) <==> RenderGeometry(Source, a, RECORDED) == RenderGeometry(Source, b, RECORDED)
  {
    var x, y := RenderGeometry(Source, a, RECORDED), RenderGeometry(Source, b, RECORDED);
    if x == y {
      assert (a.geometry.orientation == TopLeft) == !x.Turned? && (b.geometry.orientation == TopLeft) == !y.Turned?;
    }
  }

  lemma MatchesRendersAlike<I>(source: I, a: Plan, b: Plan, k: Kernels<I>)
    requires Matches(a, b)
    ensures RenderGeometry(source, a, k) == RenderGeometry(source, b, k)
  {}

  // ------------------------------------------------------- buffers and fits

  /**
   * Buffers by id, and copies of them fitted to the size of one plan. Masks and
   * patches are kept by the same steps; this stands for either.
   */
  datatype Shelf<B, F> = Shelf(buffers: map<nat, B>, next: nat, plan: Plan, fitted: map<nat, F>)

  type Fit<!B, !F> = (B, int, int) -> F

  function Stored<B, F>(s: Shelf<B, F>, buffer: B): Shelf<B, F> {
    s.(buffers := s.buffers[s.next := buffer], next := s.next + 1, fitted := map[])
  }

  function Restored<B, F>(s: Shelf<B, F>, id: nat, buffer: B): Shelf<B, F> {
    s.(buffers := s.buffers[id := buffer], next := Max(s.next, id + 1), fitted := map[])
  }

  function Found<B, F>(s: Shelf<B, F>, id: nat): Option<B> {
    if id in s.buffers then Some(s.buffers[id]) else None
  }

  function CachedFit<B, F>(s: Shelf<B, F>, plan: Plan, id: nat): Option<F> {
    if Matches(plan, s.plan) && id in s.fitted then Some(s.fitted[id]) else None
  }

  function WithFit<B, F>(s: Shelf<B, F>, plan: Plan, id: nat, fitted: F): Shelf<B, F> {
    if Matches(plan, s.plan) then s.(fitted := s.fitted[id := fitted])
    else s.(plan := plan, fitted := map[id := fitted])
  }

  /** What fitting a buffer from scratch gives. */
  function Fresh<B, F>(buffers: map<nat, B>, plan: Plan, id: nat, fit: Fit<B, F>): Option<F> {
    if id in buffers then Some(fit(buffers[id], plan.width, plan.height)) else None
  }

  ghost predicate ShelfOk<B, F>(s: Shelf<B, F>, fit: Fit<B, F>) {
    && (forall id | id in s.buffers :: id < s.next)
    && forall id | id in s.fitted :: Fresh(s.buffers, s.plan, id, fit) == Some(s.fitted[id])
  }

  class Store<B, F> {
    var buffers: map<nat, B>
    var next: nat
    var plan: Plan
    var fitted: map<nat, F>

    function State(): Shelf<B, F> reads this { Shelf(buffers, next, plan, fitted) }

    constructor ()
      ensures State() == Shelf(map[], 1, NO_PLAN, map[])
    {
      buffers, next, plan, fitted := map[], 1, NO_PLAN, map[];
    }

    method Put(buffer: B) returns (id: nat)
      modifies this
      ensures State() == Stored(old(State()), buffer) && id == old(next)
    {
      id := next;
      next := next + 1;
      buffers := buffers[id := buffer];
      fitted := map[];
    }

    method Restore(id: nat, buffer: B)
      modifies this
      ensures State() == Restored(old(State()), id, buffer)
    {
      buffers := buffers[id := buffer];
      next := Max(next, id + 1);
      fitted := map[];
    }

    method Find(id: nat) returns (b: Option<B>)
      ensures b == Found(State(), id)
    {
      b := if id in buffers then Some(buffers[id]) else None;
    }

    method Cached(p: Plan, id: nat) returns (f: Option<F>)
      ensures f == CachedFit(State(), p, id)
    {
      if !Matches(p, plan) { return None; }
      f := if id in fitted then Some(fitted[id]) else None;
    }

    method Cache(p: Plan, id: nat, f: F)
      modifies this`plan, this`fitted
      ensures State() == WithFit(old(State()), p, id, f)
    {
      if !Matches(p, plan) {
        fitted := map[];
        plan := p;
      }
      fitted := fitted[id := f];
    }

    /** One buffer fitted to a render: kept from before, or fitted now and kept. */
    method FitOne(p: Plan, id: nat, fit: Fit<B, F>) returns (f: Option<F>)
      requires ShelfOk(State(), fit)
      modifies this`plan, this`fitted
      ensures ShelfOk(State(), fit) && f == Fresh(buffers, p, id, fit) && buffers == old(buffers)
      ensures f.Some? ==> CachedFit(State(), p, id) == f
    {
      var before := State();
      f := Cached(p, id);
      if f.Some? {
        CachedIsFresh(before, p, id, fit);
        return;
      }
      var full := Find(id);
      if full.None? { return None; }
      var made := fit(full.value, p.width, p.height);
      Cache(p, id, made);
      FitKeptOk(before, p, id, fit);
      f := Some(made);
    }
  }

  lemma CachedIsFresh<B, F>(s: Shelf<B, F>, plan: Plan, id: nat, fit: Fit<B, F>)
    requires ShelfOk(s, fit)
    ensures CachedFit(s, plan, id).Some? ==> CachedFit(s, plan, id) == Fresh(s.buffers, plan, id, fit)
  {
    if CachedFit(s, plan, id).Some? { assert Fresh(s.buffers, s.plan, id, fit) == Some(s.fitted[id]); }
  }

  lemma FitKeptOk<B, F>(s: Shelf<B, F>, plan: Plan, id: nat, fit: Fit<B, F>)
    requires ShelfOk(s, fit) && id in s.buffers
    ensures ShelfOk(WithFit(s, plan, id, fit(s.buffers[id], plan.width, plan.height)), fit)
  {
    forall i | i in s.fitted ensures Fresh(s.buffers, s.plan, i, fit) == Some(s.fitted[i]) {}
  }

  lemma StoredOk<B, F>(s: Shelf<B, F>, buffer: B, fit: Fit<B, F>)
    requires ShelfOk(s, fit)
    ensures ShelfOk(Stored(s, buffer), fit) && s.next !in s.buffers
  {}

  lemma RestoredOk<B, F>(s: Shelf<B, F>, id: nat, buffer: B, fit: Fit<B, F>)
    requires ShelfOk(s, fit)
    ensures ShelfOk(Restored(s, id, buffer), fit)
  {}

  // --------------------------------------------- what the layers ask for

  /** The raster a layer's mask shows, if it was made for this crop and orientation. */
  function WantedMask(l: L.Layer, plan: Plan): Option<nat> {
    if l.mask.kind != Raster || l.mask.raster == 0 then None
    else if l.mask.rasterWidth != plan.geometry.NaturalWidth() || l.mask.rasterHeight != plan.geometry.NaturalHeight()
    then None
    else Some(l.mask.raster)
  }

  function WantedPatch(l: L.Layer, plan: Plan): Option<nat> {
    if !(l.kind == PatchLayer || l.fill == ImageFill) || l.patch == 0 then None
    else if l.patchWidth != plan.geometry.NaturalWidth() || l.patchHeight != plan.geometry.NaturalHeight() then None
    else Some(l.patch)
  }

  function Wanted(layers: seq<L.Layer>, plan: Plan, ask: (L.Layer, Plan) -> Option<nat>): set<nat> {
    set l | l in layers && ask(l, plan).Some? :: ask(l, plan).value
  }

  /** Every raster the layers ask for and the document has, fitted from scratch. */
  function AllFresh<B, F>(buffers: map<nat, B>, plan: Plan, wanted: set<nat>, fit: Fit<B, F>): map<nat, F> {
    map id | id in wanted && id in buffers :: fit(buffers[id], plan.width, plan.height)
  }

  lemma FreshAdded<B, F>(buffers: map<nat, B>, plan: Plan, wanted: set<nat>, id: nat, fit: Fit<B, F>)
    ensures var before, one := AllFresh(buffers, plan, wanted, fit), Fresh(buffers, plan, id, fit);
      AllFresh(buffers, plan, wanted + {id}, fit) == if one.Some? then before[id := one.value] else before
    ensures id in AllFresh(buffers, plan, wanted, fit) ==>
              AllFresh(buffers, plan, wanted + {id}, fit) == AllFresh(buffers, plan, wanted, fit)
  {}

  lemma FreshNone<B, F>(buffers: map<nat, B>, plan: Plan, fit: Fit<B, F>)
    ensures AllFresh(buffers, plan, {}, fit) == map[]
  {}

  method FitMasks<B>(masks: Store<B, B>, plan: Plan, layers: seq<L.Layer>, fit: Fit<B, B>) returns (fitted: map<nat, B>)
    requires ShelfOk(masks.State(), fit)
    modifies masks
    ensures ShelfOk(masks.State(), fit) && masks.buffers == old(masks.buffers)
    ensures fitted == AllFresh(masks.buffers, plan, Wanted(layers, plan, WantedMask), fit)
  {
    hide ShelfOk, Fresh, AllFresh, Wanted, WantedMask;
    fitted := map[];
    WantedNone(plan, WantedMask);
    FreshNone(masks.buffers, plan, fit);
    for k := 0 to |layers|
      invariant ShelfOk(masks.State(), fit) && masks.buffers == old(masks.buffers)
      invariant fitted == AllFresh(masks.buffers, plan, Wanted(layers[..k], plan, WantedMask), fit)
    {
      var id := WantedMask(layers[k], plan);
      WantedNext(layers, k, plan, WantedMask);
      if id.None? { continue; }
      FreshAdded(masks.buffers, plan, Wanted(layers[..k], plan, WantedMask), id.value, fit);
      if id.value in fitted { continue; }
      var ready := masks.FitOne(plan, id.value, fit);
      if ready.None? { continue; }
      fitted := fitted[id.value := ready.value];
    }
    assert layers[..|layers|] == layers;
  }

  method FitPatches<Q, F>(patches: Store<Q, F>, plan: Plan, layers: seq<L.Layer>, fit: Fit<Q, F>)
    returns (fitted: map<nat, F>)
    requires ShelfOk(patches.State(), fit)
    modifies patches
    ensures ShelfOk(patches.State(), fit) && patches.buffers == old(patches.buffers)
    ensures fitted == AllFresh(patches.buffers, plan, Wanted(layers, plan, WantedPatch), fit)
  {
    hide ShelfOk, Fresh, AllFresh, Wanted, WantedPatch;
    fitted := map[];
    WantedNone(plan, WantedPatch);
    FreshNone(patches.buffers, plan, fit);
    for k := 0 to |layers|
      invariant ShelfOk(patches.State(), fit) && patches.buffers == old(patches.buffers)
      invariant fitted == AllFresh(patches.buffers, plan, Wanted(layers[..k], plan, WantedPatch), fit)
    {
      var id := WantedPatch(layers[k], plan);
      WantedNext(layers, k, plan, WantedPatch);
      if id.None? { continue; }
      FreshAdded(patches.buffers, plan, Wanted(layers[..k], plan, WantedPatch), id.value, fit);
      if id.value in fitted { continue; }
      var ready := patches.FitOne(plan, id.value, fit);
      if ready.None? { continue; }
      fitted := fitted[id.value := ready.value];
    }
    assert layers[..|layers|] == layers;
  }

  lemma WantedNone(plan: Plan, ask: (L.Layer, Plan) -> Option<nat>)
    ensures Wanted([], plan, ask) == {}
  {}

  lemma WantedNext(layers: seq<L.Layer>, k: nat, plan: Plan, ask: (L.Layer, Plan) -> Option<nat>)
    requires k < |layers|
    ensures Wanted(layers[..k + 1], plan, ask)
         == if ask(layers[k], plan).Some? then Wanted(layers[..k], plan, ask) + {ask(layers[k], plan).value}
            else Wanted(layers[..k], plan, ask)
  {
    assert layers[..k + 1] == layers[..k] + [layers[k]];
  }

  // ------------------------------------------------------------ the base

  /** A raw file's own pixels and its decoder; any other file has only its pixels. */
  datatype Original<!I> = Original(source: I, adjustable: bool, decode: RawSettings -> I)

  /** The pixels a render starts from. */
  function Developed<I>(o: Original<I>, settings: RawSettings): I {
    if !settings.custom || !o.adjustable then o.source else o.decode(settings)
  }

  /** What working the base out from scratch gives. */
  function FreshBase<I>(o: Original<I>, plan: Plan, settings: RawSettings, k: Kernels<I>): I {
    RenderGeometry(Developed(o, settings), plan, k)
  }

  lemma SameSettingsDevelopAlike<I>(o: Original<I>, a: RawSettings, b: RawSettings)
    requires a.Same(b)
    ensures Developed(o, a) == Developed(o, b)
  {
    if a.custom { assert a == b; }
  }

  /** The two buffers a document keeps beside its shelves. */
  datatype Bases<I> = Bases(
    base: Option<I>, basePlan: Plan, baseSettings: RawSettings, developed: Option<I>, developedSettings: RawSettings)

  function CachedBaseOf<I>(b: Bases<I>, plan: Plan, settings: RawSettings): Option<I> {
    if b.base.None? || !Matches(plan, b.basePlan) || !b.baseSettings.Same(settings) then None else b.base
  }

  function WithBase<I>(b: Bases<I>, plan: Plan, settings: RawSettings, base: I): Bases<I> {
    b.(base := Some(base), basePlan := plan, baseSettings := settings)
  }

  /** Developing decodes again unless the last decode was for the same settings. */
  function AfterDevelop<I>(b: Bases<I>, o: Original<I>, settings: RawSettings): (Bases<I>, I) {
    if !settings.custom || !o.adjustable then (b, o.source)
    else if b.developed.Some? && b.developedSettings.Same(settings) then (b, b.developed.value)
    else var d := o.decode(settings); (b.(developed := Some(d), developedSettings := settings), d)
  }

  ghost predicate BasesOk<I>(b: Bases<I>, o: Original<I>, k: Kernels<I>) {
    && (b.base.Some? ==> b.base.value == FreshBase(o, b.basePlan, b.baseSettings, k))
    && (b.developed.Some? ==> b.developedSettings.custom && o.adjustable
                              && b.developed.value == o.decode(b.developedSettings))
  }

  class Document<I> {
    const original: Original<I>
    var base: Option<I>
    var basePlan: Plan
    var baseSettings: RawSettings
    var developed: Option<I>
    var developedSettings: RawSettings

    function State(): Bases<I> reads this { Bases(base, basePlan, baseSettings, developed, developedSettings) }

    constructor (original: Original<I>, settings: RawSettings)
      ensures this.original == original && State() == Bases(None, NO_PLAN, settings, None, settings)
    {
      this.original := original;
      base, basePlan, baseSettings, developed, developedSettings := None, NO_PLAN, settings, None, settings;
    }

    method CachedBase(plan: Plan, settings: RawSettings) returns (b: Option<I>)
      ensures b == CachedBaseOf(State(), plan, settings)
    {
      if base.None? || !Matches(plan, basePlan) || !baseSettings.Same(settings) { return None; }
      b := base;
    }

    method CacheBase(plan: Plan, settings: RawSettings, made: I)
      modifies this`base, this`basePlan, this`baseSettings
      ensures State() == WithBase(old(State()), plan, settings, made)
    {
      basePlan, baseSettings, base := plan, settings, Some(made);
    }

    method DevelopedSource(settings: RawSettings) returns (image: I)
      modifies this`developed, this`developedSettings
      ensures (State(), image) == AfterDevelop(old(State()), original, settings)
    {
      if !settings.custom || !original.adjustable { return original.source; }
      if developed.Some? && developedSettings.Same(settings) { return developed.value; }
      image := original.decode(settings);
      developed, developedSettings := Some(image), settings;
    }

    /** The base a preview is composed over, kept from before or made now. */
    method Base(plan: Plan, settings: RawSettings, k: Kernels<I>) returns (image: I)
      requires BasesOk(State(), original, k)
      modifies this
      ensures BasesOk(State(), original, k) && image == FreshBase(original, plan, settings, k)
      ensures CachedBaseOf(State(), plan, settings) == Some(image)
    {
      var before := State();
      var cached := CachedBase(plan, settings);
      if cached.Some? {
        CachedBaseIsFresh(before, original, plan, settings, k);
        return cached.value;
      }
      var source := DevelopedSource(settings);
      DevelopOk(before, original, settings, k);
      image := RenderGeometry(source, plan, k);
      CacheBase(plan, settings, image);
    }
  }

  lemma CachedBaseIsFresh<I>(b: Bases<I>, o: Original<I>, plan: Plan, settings: RawSettings, k: Kernels<I>)
    requires BasesOk(b, o, k)
    ensures CachedBaseOf(b, plan, settings).Some? ==>
              CachedBaseOf(b, plan, settings).value == FreshBase(o, plan, settings, k)
  {
    if CachedBaseOf(b, plan, settings).Some? {
      SameSettingsDevelopAlike(o, b.baseSettings, settings);
      MatchesRendersAlike(Developed(o, settings), plan, b.basePlan, k);
    }
  }

  lemma DevelopOk<I>(b: Bases<I>, o: Original<I>, settings: RawSettings, k: Kernels<I>)
    requires BasesOk(b, o, k)
    ensures var (b', image) := AfterDevelop(b, o, settings);
      BasesOk(b', o, k) && image == Developed(o, settings)
  {
    if b.developed.Some? && b.developedSettings.Same(settings) {
      assert settings.custom ==> b.developedSettings == settings;
    }
  }

  // -------------------------------------------------------- interleavings

  /** A render between two locked steps, with what it carries. */
  datatype Flight<I, B> =
    | BaseMissed(plan: Plan, settings: RawSettings)
    | BaseDeveloped(plan: Plan, settings: RawSettings, source: I)
    | FitMissed(plan: Plan, id: nat)
    | FitFound(plan: Plan, id: nat, buffer: B)

  /** What a render went on with; `had` is the buffer the document had under that id at the time. */
  datatype Delivery<I, B, F> =
    | BaseUsed(plan: Plan, settings: RawSettings, image: I)
    | FitUsed(plan: Plan, id: nat, fitted: F, had: Option<B>)

  datatype Sys<I, B, F> = Sys(
    bases: Bases<I>, shelf: Shelf<B, F>, flights: map<nat, Flight<I, B>>, used: seq<Delivery<I, B, F>>)

  datatype Setting<!I, !B, !F> = Setting(original: Original<I>, kernels: Kernels<I>, fit: Fit<B, F>)

  datatype Move<B> =
    | AskBase(worker: nat, plan: Plan, settings: RawSettings)
    | Develop(worker: nat)
    | KeepBase(worker: nat)
    | AskFit(worker: nat, plan: Plan, id: nat)
    | FindFull(worker: nat)
    | KeepFit(worker: nat)
    | Put(buffer: B)
    | Restore(id: nat, buffer: B)
    | Cancel(worker: nat)

  ghost predicate Enabled<I, B, F>(s: Sys<I, B, F>, m: Move<B>) {
    match m
    case AskBase(w, _, _) => w !in s.flights
    case AskFit(w, _, _) => w !in s.flights
    case Develop(w) => w in s.flights && s.flights[w].BaseMissed?
    case KeepBase(w) => w in s.flights && s.flights[w].BaseDeveloped?
    case FindFull(w) => w in s.flights && s.flights[w].FitMissed?
    case KeepFit(w) => w in s.flights && s.flights[w].FitFound?
    case Put(_) => true
    case Restore(_, _) => true
    case Cancel(w) => w in s.flights
  }

  function Landed<I, B, F>(s: Sys<I, B, F>, w: nat): Sys<I, B, F> { s.(flights := s.flights - {w}) }

  ghost function Apply<I, B, F>(s: Sys<I, B, F>, m: Move<B>, e: Setting<I, B, F>): Sys<I, B, F>
    requires Enabled(s, m)
  {
    match m
    case AskBase(w, plan, settings) =>
      var cached := CachedBaseOf(s.bases, plan, settings);
      if cached.Some? then s.(used := s.used + [BaseUsed(plan, settings, cached.value)])
      else s.(flights := s.flights[w := BaseMissed(plan, settings)])
    case Develop(w) =>
      var f := s.flights[w];
      var (bases, source) := AfterDevelop(s.bases, e.original, f.settings);
      s.(bases := bases, flights := s.flights[w := BaseDeveloped(f.plan, f.settings, source)])
    case KeepBase(w) =>
      var f := s.flights[w];
      var image := RenderGeometry(f.source, f.plan, e.kernels);
      Landed(s, w).(bases := WithBase(s.bases, f.plan, f.settings, image),
                    used := s.used + [BaseUsed(f.plan, f.settings, image)])
    case AskFit(w, plan, id) =>
      var cached := CachedFit(s.shelf, plan, id);
      if cached.Some? then s.(used := s.used + [FitUsed(plan, id, cached.value, Found(s.shelf, id))])
      else s.(flights := s.flights[w := FitMissed(plan, id)])
    case FindFull(w) =>
      var f := s.flights[w];
      var full := Found(s.shelf, f.id);
      if full.None? then Landed(s, w) else s.(flights := s.flights[w := FitFound(f.plan, f.id, full.value)])
    case KeepFit(w) =>
      var f := s.flights[w];
      var fitted := e.fit(f.buffer, f.plan.width, f.plan.height);
      Landed(s, w).(shelf := WithFit(s.shelf, f.plan, f.id, fitted),
                    used := s.used + [FitUsed(f.plan, f.id, fitted, Found(s.shelf, f.id))])
    case Put(buffer) => s.(shelf := Stored(s.shelf, buffer))
    case Restore(id, buffer) => s.(shelf := Restored(s.shelf, id, buffer))
    case Cancel(w) => Landed(s, w)
  }

  ghost predicate Runs<I, B, F>(start: Sys<I, B, F>, moves: seq<Move<B>>, e: Setting<I, B, F>)
    decreases |moves|, 0
  {
    moves == [] || (Runs(start, moves[..|moves| - 1], e)
      && Enabled(After(start, moves[..|moves| - 1], e), moves[|moves| - 1]))
  }

  ghost function After<I, B, F>(start: Sys<I, B, F>, moves: seq<Move<B>>, e: Setting<I, B, F>): Sys<I, B, F>
    requires Runs(start, moves, e)
    decreases |moves|, 1
  {
    if moves == [] then start else Apply(After(start, moves[..|moves| - 1], e), moves[|moves| - 1], e)
  }

  /** Whatever buffer for `id` a render carries, fitting it gives what fitting `newer` would. */
  ghost predicate NoneCarriesOld<I, B, F>(s: Sys<I, B, F>, id: nat, newer: B, e: Setting<I, B, F>) {
    forall w | w in s.flights && s.flights[w].FitFound? && s.flights[w].id == id :: FitsAs(s.flights[w], newer, e)
  }

  ghost predicate FitsAs<I, B, F>(f: Flight<I, B>, buffer: B, e: Setting<I, B, F>)
    requires f.FitFound?
  {
    e.fit(f.buffer, f.plan.width, f.plan.height) == e.fit(buffer, f.plan.width, f.plan.height)
  }

  /** Each buffer that is restored is restored when no render carries another one under its id. */
  ghost predicate Careful<I, B, F>(start: Sys<I, B, F>, moves: seq<Move<B>>, e: Setting<I, B, F>)
    requires Runs(start, moves, e)
    decreases |moves|
  {
    moves == [] || (Careful(start, moves[..|moves| - 1], e)
      && var m := moves[|moves| - 1];
         m.Restore? ==> NoneCarriesOld(After(start, moves[..|moves| - 1], e), m.id, m.buffer, e))
  }

  ghost predicate FlightOk<I, B, F>(f: Flight<I, B>, shelf: Shelf<B, F>, e: Setting<I, B, F>) {
    match f
    case BaseMissed(_, _) => true
    case BaseDeveloped(_, settings, source) => source == Developed(e.original, settings)
    case FitMissed(_, _) => true
    case FitFound(_, id, _) => id in shelf.buffers && FitsAs(f, shelf.buffers[id], e)
  }

  ghost predicate DeliveryOk<I, B, F>(d: Delivery<I, B, F>, e: Setting<I, B, F>) {
    match d
    case BaseUsed(plan, settings, image) => image == FreshBase(e.original, plan, settings, e.kernels)
    case FitUsed(plan, id, fitted, had) => had.Some? && fitted == e.fit(had.value, plan.width, plan.height)
  }

  ghost predicate Inv<I, B, F>(s: Sys<I, B, F>, e: Setting<I, B, F>) {
    && BasesOk(s.bases, e.original, e.kernels)
    && ShelfOk(s.shelf, e.fit)
    && (forall w | w in s.flights :: FlightOk(s.flights[w], s.shelf, e))
    && (forall k | 0 <= k < |s.used| :: DeliveryOk(s.used[k], e))
  }

  /** Buffers are only added. */
  ghost predicate Grows<B, F>(a: Shelf<B, F>, b: Shelf<B, F>) {
    forall id | id in a.buffers :: id in b.buffers && b.buffers[id] == a.buffers[id]
  }

  lemma StillOk<I, B, F>(s: Sys<I, B, F>, shelf: Shelf<B, F>, e: Setting<I, B, F>)
    requires Inv(s, e) && ShelfOk(shelf, e.fit) && Grows(s.shelf, shelf)
    ensures Inv(s.(shelf := shelf), e)
  {
    hide BasesOk, ShelfOk, FreshBase, DeliveryOk;
    forall w | w in s.flights ensures FlightOk(s.flights[w], shelf, e) {}
  }

  lemma UsedOk<I, B, F>(s: Sys<I, B, F>, d: Delivery<I, B, F>, e: Setting<I, B, F>)
    requires Inv(s, e) && DeliveryOk(d, e)
    ensures Inv(s.(used := s.used + [d]), e)
  {
    hide BasesOk, ShelfOk, FlightOk, DeliveryOk;
  }

  lemma FlightAdded<I, B, F>(s: Sys<I, B, F>, w: nat, f: Flight<I, B>, e: Setting<I, B, F>)
    requires Inv(s, e) && FlightOk(f, s.shelf, e)
    ensures Inv(s.(flights := s.flights[w := f]), e)
  {
    hide BasesOk, ShelfOk, FlightOk, DeliveryOk;
  }

  lemma FlightLanded<I, B, F>(s: Sys<I, B, F>, w: nat, e: Setting<I, B, F>)
    requires Inv(s, e)
    ensures Inv(Landed(s, w), e)
  {
    hide BasesOk, ShelfOk, FlightOk, DeliveryOk;
  }

  lemma InvBaseMove<I, B, F>(s: Sys<I, B, F>, m: Move<B>, e: Setting<I, B, F>)
    requires Inv(s, e) && Enabled(s, m) && (m.AskBase? || m.Develop? || m.KeepBase?)
    ensures Inv(Apply(s, m, e), e)
  {
    hide ShelfOk, Developed, RenderGeometry, Matches;
    match m
    case AskBase(w, plan, settings) =>
      CachedBaseIsFresh(s.bases, e.original, plan, settings, e.kernels);
      var cached := CachedBaseOf(s.bases, plan, settings);
      if cached.Some? { UsedOk(s, BaseUsed(plan, settings, cached.value), e); }
      else { FlightAdded(s, w, BaseMissed(plan, settings), e); }
    case Develop(w) =>
      var f := s.flights[w];
      DevelopOk(s.bases, e.original, f.settings, e.kernels);
      var (bases, source) := AfterDevelop(s.bases, e.original, f.settings);
      FlightAdded(s.(bases := bases), w, BaseDeveloped(f.plan, f.settings, source), e);
    case KeepBase(w) =>
      var f := s.flights[w];
      assert FlightOk(f, s.shelf, e);
      var image := RenderGeometry(f.source, f.plan, e.kernels);
      FlightLanded(s, w, e);
      UsedOk(Landed(s, w).(bases := WithBase(s.bases, f.plan, f.settings, image)),
             BaseUsed(f.plan, f.settings, image), e);
  }

  lemma InvFitMove<I, B, F>(s: Sys<I, B, F>, m: Move<B>, e: Setting<I, B, F>)
    requires Inv(s, e) && Enabled(s, m) && (m.AskFit? || m.FindFull? || m.KeepFit?)
    ensures Inv(Apply(s, m, e), e)
  {
    hide BasesOk, Matches;
    match m
    case AskFit(w, plan, id) =>
      CachedIsFresh(s.shelf, plan, id, e.fit);
      var cached := CachedFit(s.shelf, plan, id);
      if cached.Some? { UsedOk(s, FitUsed(plan, id, cached.value, Found(s.shelf, id)), e); }
      else { FlightAdded(s, w, FitMissed(plan, id), e); }
    case FindFull(w) =>
      var f := s.flights[w];
      var full := Found(s.shelf, f.id);
      if full.Some? { FlightAdded(s, w, FitFound(f.plan, f.id, full.value), e); } else { FlightLanded(s, w, e); }
    case KeepFit(w) =>
      var f := s.flights[w];
      assert FlightOk(f, s.shelf, e);
      var fitted := e.fit(f.buffer, f.plan.width, f.plan.height);
      FlightLanded(s, w, e);
      FitKeptOk(s.shelf, f.plan, f.id, e.fit);
      var shelf := WithFit(s.shelf, f.plan, f.id, fitted);
      StillOk(Landed(s, w), shelf, e);
      UsedOk(Landed(s, w).(shelf := shelf), FitUsed(f.plan, f.id, fitted, Found(s.shelf, f.id)), e);
  }

  lemma InvMove<I, B, F>(s: Sys<I, B, F>, m: Move<B>, e: Setting<I, B, F>)
    requires Inv(s, e) && Enabled(s, m) && (m.Restore? ==> NoneCarriesOld(s, m.id, m.buffer, e))
    ensures Inv(Apply(s, m, e), e)
  {
    hide BasesOk, FlightOk, DeliveryOk, Inv;
    match m
    case Put(buffer) =>
      InvShelf(s, e);
      StoredOk(s.shelf, buffer, e.fit);
      StillOk(s, Stored(s.shelf, buffer), e);
    case Restore(id, buffer) =>
      RestoreIff(s, id, buffer, e);
    case Cancel(w) => FlightLanded(s, w, e);
    case AskBase(_, _, _) => InvBaseMove(s, m, e);
    case Develop(_) => InvBaseMove(s, m, e);
    case KeepBase(_) => InvBaseMove(s, m, e);
    case AskFit(_, _, _) => InvFitMove(s, m, e);
    case FindFull(_) => InvFitMove(s, m, e);
    case KeepFit(_) => InvFitMove(s, m, e);
  }

  lemma InvShelf<I, B, F>(s: Sys<I, B, F>, e: Setting<I, B, F>)
    requires Inv(s, e)
    ensures ShelfOk(s.shelf, e.fit)
  {}

  /**
   * Restoring a buffer, under a new id or one in use, keeps everything right if and only
   * if no render carries a buffer for that id that would fit differently.
   */
  lemma RestoreIff<I, B, F>(s: Sys<I, B, F>, id: nat, newer: B, e: Setting<I, B, F>)
    requires Inv(s, e)
    ensures Inv(Apply(s, Restore(id, newer), e), e) <==> NoneCarriesOld(s, id, newer, e)
  {
    hide BasesOk, DeliveryOk, FitsAs;
    RestoredOk(s.shelf, id, newer, e.fit);
    var s' := Apply(s, Restore(id, newer), e);
    assert forall w | w in s.flights :: FlightOk(s.flights[w], s.shelf, e);
    if NoneCarriesOld(s, id, newer, e) {
      forall w | w in s'.flights ensures FlightOk(s'.flights[w], s'.shelf, e) {
        assert FlightOk(s.flights[w], s.shelf, e);
      }
    } else {
      var w :| w in s.flights && s.flights[w].FitFound? && s.flights[w].id == id && !FitsAs(s.flights[w], newer, e);
      assert !FlightOk(s'.flights[w], s'.shelf, e);
    }
  }

  /** The last render used a fit of a buffer the document no longer had, and that fit is what is kept. */
  ghost predicate EndsStale<I, B, F>(s: Sys<I, B, F>, plan: Plan, id: nat, e: Setting<I, B, F>) {
    && s.used != [] && !DeliveryOk(s.used[|s.used| - 1], e)
    && CachedFit(s.shelf, plan, id).Some? && CachedFit(s.shelf, plan, id) != Fresh(s.shelf.buffers, plan, id, e.fit)
  }

  /**
   * And when one does, it may go on to use its fit of the old buffer, and to leave it
   * behind under the id of the new one.
   */
  lemma CarriedGoesStale<I, B, F>(s: Sys<I, B, F>, w: nat, newer: B, e: Setting<I, B, F>)
    requires Inv(s, e) && w in s.flights && s.flights[w].FitFound? && !FitsAs(s.flights[w], newer, e)
    ensures var f := s.flights[w];
      var s1 := Apply(s, Restore(f.id, newer), e);
      Enabled(s1, KeepFit(w)) && var s2 := Apply(s1, KeepFit(w), e);
      EndsStale(s2, f.plan, f.id, e)
  {
    hide Inv, CachedBaseOf, AfterDevelop, RenderGeometry;
  }

  /**
   * In every interleaving of renders, stores and careful restores what is kept is what
   * working it out from the document would give, and what every render went on with is
   * what that would have given at the time.
   */
  lemma {:induction false} EveryRunFresh<I, B, F>(start: Sys<I, B, F>, moves: seq<Move<B>>, e: Setting<I, B, F>)
    requires Inv(start, e) && Runs(start, moves, e) && Careful(start, moves, e)
    ensures Inv(After(start, moves, e), e)
  {
    hide Inv, Enabled, Apply, NoneCarriesOld;
    if moves != [] {
      EveryRunFresh(start, moves[..|moves| - 1], e);
      InvMove(After(start, moves[..|moves| - 1], e), moves[|moves| - 1], e);
    }
  }

  /** A document nobody has rendered yet. */
  function NewDocument<I, B, F>(settings: RawSettings): Sys<I, B, F> {
    Sys(Bases(None, NO_PLAN, settings, None, settings), Shelf(map[], 1, NO_PLAN, map[]), map[], [])
  }

  lemma NewDocumentOk<I, B, F>(settings: RawSettings, e: Setting<I, B, F>)
    ensures Inv(NewDocument(settings), e)
  {}

  lemma {:induction false} RestoresOnly<I, B, F>(start: Sys<I, B, F>, moves: seq<Move<B>>, e: Setting<I, B, F>)
    requires start.flights == map[] && forall k | 0 <= k < |moves| :: moves[k].Restore?
    ensures Runs(start, moves, e) && Careful(start, moves, e) && After(start, moves, e).flights == map[]
  {
    if moves != [] { RestoresOnly(start, moves[..|moves| - 1], e); }
  }

  /** Opening a project restores its buffers before anybody can render: that is careful, whatever the ids. */
  lemma OpeningIsCareful<I, B, F>(settings: RawSettings, moves: seq<Move<B>>, e: Setting<I, B, F>)
    requires forall k | 0 <= k < |moves| :: moves[k].Restore?
    ensures var start: Sys<I, B, F> := NewDocument(settings);
      Runs(start, moves, e) && Careful(start, moves, e) && Inv(After(start, moves, e), e)
  {
    hide Runs, Careful, After, Inv;
    NewDocumentOk(settings, e);
    RestoresOnly(NewDocument(settings), moves, e);
    EveryRunFresh(NewDocument(settings), moves, e);
  }

  /** Giving an id a second buffer while a render carries the first. */
  function Rebinding<B>(plan: Plan, older: B, newer: B): seq<Move<B>> {
    [Put(older), AskFit(0, plan, 1), FindFull(0), Restore(1, newer), KeepFit(0)]
  }

  lemma RebindingSteps<I, B, F>(s: Sys<I, B, F>, plan: Plan, older: B, newer: B, e: Setting<I, B, F>)
    requires e.fit(newer, plan.width, plan.height) != e.fit(older, plan.width, plan.height)
    requires s.flights == map[] && s.shelf == Shelf(map[], 1, NO_PLAN, map[])
    ensures Enabled(s, Put(older)) && var s1 := Apply(s, Put(older), e);
      Enabled(s1, AskFit(0, plan, 1)) && var s2 := Apply(s1, AskFit(0, plan, 1), e);
      Enabled(s2, FindFull(0)) && var s3 := Apply(s2, FindFull(0), e);
      Enabled(s3, Restore(1, newer)) && var s4 := Apply(s3, Restore(1, newer), e);
      Enabled(s4, KeepFit(0)) && var s5 := Apply(s4, KeepFit(0), e);
      EndsStale(s5, plan, 1, e)
  {
    hide CachedBaseOf, AfterDevelop, RenderGeometry;
    var s3 := Apply(Apply(Apply(s, Put(older), e), AskFit(0, plan, 1), e), FindFull(0), e);
    assert s3.flights[0] == FitFound(plan, 1, older) && 0 in s3.flights;
  }

  /** A run from a new document that ends with a fit of the old buffer kept, and used, for the new one. */
  lemma RebindingGoesStale<I, B, F>(settings: RawSettings, plan: Plan, older: B, newer: B, e: Setting<I, B, F>)
    requires e.fit(newer, plan.width, plan.height) != e.fit(older, plan.width, plan.height)
    ensures var start: Sys<I, B, F> := NewDocument(settings);
      Runs(start, Rebinding(plan, older, newer), e) &&
      var s := After(start, Rebinding(plan, older, newer), e);
      EndsStale(s, plan, 1, e)
  {
    var start: Sys<I, B, F> := NewDocument(settings);
    RebindingSteps(start, plan, older, newer, e);
    hide Apply, Enabled, EndsStale, Runs, After, NewDocument;
    RunOfFive(start, Put(older), AskFit(0, plan, 1), FindFull(0), Restore(1, newer), KeepFit(0), e);
  }

  lemma RunOfFive<I, B, F>(
    s: Sys<I, B, F>, a: Move<B>, b: Move<B>, c: Move<B>, d: Move<B>, f: Move<B>, e: Setting<I, B, F>)
    requires Enabled(s, a) && Enabled(Apply(s, a, e), b) && Enabled(Apply(Apply(s, a, e), b, e), c)
    requires var s3 := Apply(Apply(Apply(s, a, e), b, e), c, e); Enabled(s3, d) && Enabled(Apply(s3, d, e), f)
    ensures Runs(s, [a, b, c, d, f], e)
    ensures After(s, [a, b, c, d, f], e) == Apply(Apply(Apply(Apply(Apply(s, a, e), b, e), c, e), d, e), f, e)
  {
    hide Apply, Enabled, Runs, After;
    NoMoves(s, e);
    assert [] + [a] == [a] && [a] + [b] == [a, b] && [a, b] + [c] == [a, b, c];
    assert [a, b, c] + [d] == [a, b, c, d] && [a, b, c, d] + [f] == [a, b, c, d, f];
    OneMore(s, [], a, e);
    OneMore(s, [a], b, e);
    OneMore(s, [a, b], c, e);
    OneMore(s, [a, b, c], d, e);
    OneMore(s, [a, b, c, d], f, e);
  }

  lemma NoMoves<I, B, F>(start: Sys<I, B, F>, e: Setting<I, B, F>)
    ensures Runs(start, [], e) && After(start, [], e) == start
  {}

  lemma OneMore<I, B, F>(start: Sys<I, B, F>, moves: seq<Move<B>>, m: Move<B>, e: Setting<I, B, F>)
    requires Runs(start, moves, e) && Enabled(After(start, moves, e), m)
    ensures Runs(start, moves + [m], e) && After(start, moves + [m], e) == Apply(After(start, moves, e), m, e)
  {
    assert (moves + [m])[..|moves|] == moves;
  }
}
