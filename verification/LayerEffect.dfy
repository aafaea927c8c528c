/**
 * What each operation does to the layers it finds, said of layers and their places: which
 * one it reaches, what it changes there, and that it leaves all else alone.
 */
module LayerEffects {
  import opened Operations
  import opened Layers

  /** The stack after one more operation. */
  lemma OneMore(ops: seq<Operation>, op: Operation)
    ensures Replay(ops + [op]) == Step(Replay(ops), op)
  {
    assert (ops + [op])[..|ops|] == ops;
  }

  /** The layer reads back what the setter gave, kept within its range, and nothing else of it has changed. */
  ghost predicate IsSet(before: Layer, op: Operation, after: Layer)
    requires IsSetter(op)
  {
    match op
    case Adjust(_, a, _) => after.adjustments == a && after.(adjustments := before.adjustments) == before
    case SetVisible(_, v) => after.visible == v && after.(visible := before.visible) == before
    case SetOpacity(_, o) => Nearest(after.opacity, o, 0.0, 1.0) && after.(opacity := before.opacity) == before
    case SetBlend(_, b) => after.blend == b && after.(blend := before.blend) == before
    case SetMask(_, m) => after.mask == m && after.(mask := before.mask) == before
    case SetFill(_, f, c, b) =>
      && after.fill == f && after.color == c && Nearest(after.blur, b, 0.0, 100.0)
      && after.(fill := before.fill, color := before.color, blur := before.blur) == before
    case SetDecontaminate(_, d) =>
      Nearest(after.decontaminate, d, 0.0, 1.0) && after.(decontaminate := before.decontaminate) == before
    case SetPatch(_, p, w, h) =>
      && after.patch == p && after.patchWidth == w && after.patchHeight == h
      && after.(patch := before.patch, patchWidth := before.patchWidth, patchHeight := before.patchHeight) == before
  }

  /** In range, and the value asked for unless that is out of range; then the end it is beyond. */
  predicate Nearest(got: real, asked: real, low: real, high: real) {
    && low <= got <= high && (low <= asked <= high ==> got == asked)
    && (asked < low ==> got == low) && (asked > high ==> got == high)
  }

  /** The layer an operation is aimed at: the first with its id, or for none the topmost adjustment layer. */
  ghost predicate Aimed(layers: seq<Layer>, id: nat, i: int) {
    && 0 <= i < |layers|
    && (id != 0 ==> layers[i].id == id && forall j | 0 <= j < i :: layers[j].id != id)
    && (id == 0 ==> layers[i].kind == Adjustment && forall j | i < j < |layers| :: layers[j].kind != Adjustment)
  }

  /** Nobody to aim at. */
  ghost predicate Unaimed(layers: seq<Layer>, id: nat) {
    forall l | l in layers :: if id != 0 then l.id != id else l.kind != Adjustment
  }

  lemma ResolveAims(layers: seq<Layer>, id: nat)
    ensures var i := Resolve(layers, id); if i >= 0 then Aimed(layers, id, i) else Unaimed(layers, id)
  {}

  lemma AimIsOne(layers: seq<Layer>, id: nat, i: int)
    ensures Aimed(layers, id, i) ==> Resolve(layers, id) == i
    ensures Unaimed(layers, id) ==> Resolve(layers, id) == -1
  {
    ResolveAims(layers, id);
  }

  /**
   * A setter changes the one layer it is aimed at, and of that only what it sets. Aimed at
   * nobody it does nothing, but for an adjustment, which then gets a layer of its own on top.
   */
  lemma SetterSets(ops: seq<Operation>, op: Operation, i: int)
    requires IsSetter(op)
    ensures var before, after := Replay(ops), Replay(ops + [op]);
      && (Aimed(before.layers, op.target, i) ==>
            && |after.layers| == |before.layers| && after.nextId == before.nextId
            && IsSet(before.layers[i], op, after.layers[i])
            && forall j | 0 <= j < |before.layers| && j != i :: after.layers[j] == before.layers[j])
      && (Unaimed(before.layers, op.target) && !op.Adjust? ==> after == before)
      && (Unaimed(before.layers, op.target) && op.Adjust? ==>
            && |after.layers| == |before.layers| + 1 && after.layers[..|before.layers|] == before.layers
            && after.nextId == before.nextId + 1
            && var top := after.layers[|before.layers|];
               IsNew(top.(adjustments := NEUTRAL), before.nextId, Adjustment, "") && top.adjustments == op.adjustments)
  {
    hide Replay, Resolve;
    OneMore(ops, op);
    AimIsOne(Replay(ops).layers, op.target, i);
  }

  /** What a layer is before anything is set on it. */
  ghost predicate IsNew(l: Layer, id: nat, kind: LayerKind, name: string) {
    && l.id == id && l.kind == kind && l.name == name && l.visible && l.opacity == 1.0 && l.blend == Normal
    && l.adjustments == NEUTRAL && l.mask == OPEN_MASK && l.fill == Transparent
    && l.color == FillColor(1.0, 1.0, 1.0) && l.decontaminate == 1.0 && l.blur == 40.0
    && l.patch == 0 && l.patchWidth == 0 && l.patchHeight == 0
  }

  /** A layer that is added comes on top, as nobody has changed it, under the next id. */
  lemma AddedOnTop(ops: seq<Operation>, name: string, kind: LayerKind)
    ensures var before, after := Replay(ops), Replay(ops + [AddLayer(name, kind)]);
      && |after.layers| == |before.layers| + 1 && after.layers[..|before.layers|] == before.layers
      && IsNew(after.layers[|before.layers|], before.nextId, kind, name) && after.nextId == before.nextId + 1
  {
    hide Replay;
    OneMore(ops, AddLayer(name, kind));
  }

  /** The layer that removing or moving is aimed at: the first with the id that is no background. */
  ghost predicate Held(layers: seq<Layer>, id: nat, i: int) {
    && 0 <= i < |layers| && layers[i].id == id && layers[i].kind != Background
    && forall j | 0 <= j < i :: layers[j].id != id || layers[j].kind == Background
  }

  lemma {:induction false} MovableHolds(layers: seq<Layer>, id: nat, from: nat, i: int)
    requires from <= i && Held(layers, id, i)
    ensures Movable(layers, id, from) == i
    decreases |layers| - from
  {
    if from < i { MovableHolds(layers, id, from + 1, i); }
  }

  lemma {:induction false} MovableNone(layers: seq<Layer>, id: nat, from: nat)
    requires from <= |layers| && forall j | from <= j < |layers| :: layers[j].id != id || layers[j].kind == Background
    ensures Movable(layers, id, from) == -1
    decreases |layers| - from
  {
    if from < |layers| { MovableNone(layers, id, from + 1); }
  }

  /** Removing takes out that layer and closes the gap; there is none, nothing happens. */
  lemma RemoveTakesOut(ops: seq<Operation>, id: nat, i: int)
    ensures var before, after := Replay(ops), Replay(ops + [RemoveLayer(id)]);
      && after.nextId == before.nextId
      && (Held(before.layers, id, i) ==> after.layers == before.layers[..i] + before.layers[i + 1..])
      && ((forall l | l in before.layers :: l.id != id || l.kind == Background) ==> after == before)
  {
    hide Replay;
    OneMore(ops, RemoveLayer(id));
    var layers := Replay(ops).layers;
    if Held(layers, id, i) { MovableHolds(layers, id, 0, i); }
    if forall l | l in layers :: l.id != id || l.kind == Background { MovableNone(layers, id, 0); }
  }

  /** One layer moved to a place, but never below the background nor past the top; the others in order as before. */
  ghost predicate MovedTo(before: seq<Layer>, i: int, index: int, after: seq<Layer>) {
    && 0 < i < |before| && |after| == |before|
    && var at := if index < 1 then 1 else if index >= |before| then |before| - 1 else index;
       after[at] == before[i] && after[..at] + after[at + 1..] == before[..i] + before[i + 1..]
  }

  /** Moving puts the layer that is held at the place asked for; if none is held nothing happens. */
  lemma MoveLands(ops: seq<Operation>, id: nat, index: int, i: int)
    ensures var before, after := Replay(ops), Replay(ops + [ReorderLayer(id, index)]);
      && after.nextId == before.nextId
      && (Held(before.layers, id, i) ==> MovedTo(before.layers, i, index, after.layers))
      && ((forall l | l in before.layers :: l.id != id || l.kind == Background) ==> after == before)
  {
    hide Replay, Moved, MovedTo, Held;
    OneMore(ops, ReorderLayer(id, index));
    var layers := Replay(ops).layers;
    if Held(layers, id, i) {
      HeldAbove(ops, id, i);
      MovableHolds(layers, id, 0, i);
      MovedIs(layers, i, index);
    }
    if forall l | l in layers :: l.id != id || l.kind == Background { MovableNone(layers, id, 0); }
  }

  /** The background at the bottom is never held. */
  lemma HeldAbove(ops: seq<Operation>, id: nat, i: int)
    requires Held(Replay(ops).layers, id, i)
    ensures 0 < i < |Replay(ops).layers|
  {
    ReplayWellFormed(ops);
  }

  lemma MovedIs(layers: seq<Layer>, i: nat, index: int)
    requires 0 < i < |layers|
    ensures MovedTo(layers, i, index, Moved(layers, i, index))
  {
    var rest := Removed(layers, i);
    var at := Position(index, |rest|);
    var after := Moved(layers, i, index);
    assert after[..at] == rest[..at] && after[at + 1..] == rest[at..];
    assert rest[..at] + rest[at..] == rest;
  }
}
