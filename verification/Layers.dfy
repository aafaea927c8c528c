/**
 * The layer stack an operation list describes, bottom first, replayed from scratch.
 */
module Layers {
  import opened Operations

  datatype Layer = Layer(
    id: nat, kind: LayerKind, name: string, visible: bool, opacity: real, blend: BlendMode,
    adjustments: Adjustments, mask: Mask, fill: FillKind, color: FillColor, decontaminate: real, blur: real,
    patch: nat, patchWidth: int, patchHeight: int)

  function NewLayer(id: nat, kind: LayerKind, name: string): Layer {
    Layer(id, kind, name, true, 1.0, Normal, NEUTRAL, OPEN_MASK, Transparent, FillColor(1.0, 1.0, 1.0),
          1.0, 40.0, 0, 0, 0)
  }

  const BASE := NewLayer(0, Background, "")

  datatype Stack = Stack(layers: seq<Layer>, nextId: nat)

  const START_STACK := Stack([BASE], 1)

  /** Position of the layer with this id; with id zero, of the topmost adjustment layer; -1 if there is none. */
  function Resolve(layers: seq<Layer>, id: nat): (i: int)
    ensures -1 <= i < |layers|
    ensures i >= 0 && id != 0 ==> layers[i].id == id && forall j | 0 <= j < i :: layers[j].id != id
    ensures i >= 0 && id == 0 ==>
      layers[i].kind == Adjustment && forall j | i < j < |layers| :: layers[j].kind != Adjustment
    ensures i == -1 && id != 0 ==> forall j | 0 <= j < |layers| :: layers[j].id != id
    ensures i == -1 && id == 0 ==> forall j | 0 <= j < |layers| :: layers[j].kind != Adjustment
  {
    if id != 0 then FirstWithId(layers, id, 0) else LastAdjustment(layers, |layers|)
  }

  function FirstWithId(layers: seq<Layer>, id: nat, from: nat): (i: int)
    requires from <= |layers|
    ensures i == -1 || from <= i < |layers|
    ensures i >= 0 ==> layers[i].id == id && forall j | from <= j < i :: layers[j].id != id
    ensures i == -1 ==> forall j | from <= j < |layers| :: layers[j].id != id
    decreases |layers| - from
  {
    if from == |layers| then -1 else if layers[from].id == id then from else FirstWithId(layers, id, from + 1)
  }

  function LastAdjustment(layers: seq<Layer>, end: nat): (i: int)
    requires end <= |layers|
    ensures -1 <= i < end
    ensures i >= 0 ==> layers[i].kind == Adjustment && forall j | i < j < end :: layers[j].kind != Adjustment
    ensures i == -1 ==> forall j | 0 <= j < end :: layers[j].kind != Adjustment
  {
    if end == 0 then -1 else if layers[end - 1].kind == Adjustment then end - 1 else LastAdjustment(layers, end - 1)
  }

  /** Position of the first layer with this id that is not a background, or -1. */
  function Movable(layers: seq<Layer>, id: nat, from: nat): (i: int)
    requires from <= |layers|
    ensures i == -1 || from <= i < |layers|
    ensures i >= 0 ==> layers[i].id == id && layers[i].kind != Background
    ensures i == -1 ==> forall j | from <= j < |layers| :: layers[j].id != id || layers[j].kind == Background
    decreases |layers| - from
  {
    if from == |layers| then -1
    else if layers[from].id == id && layers[from].kind != Background then from
    else Movable(layers, id, from + 1)
  }

  /** Operations that overwrite fields of one layer. */
  predicate IsSetter(op: Operation) {
    op.Adjust? || op.SetVisible? || op.SetOpacity? || op.SetBlend? || op.SetMask? || op.SetFill?
    || op.SetDecontaminate? || op.SetPatch?
  }

  function SetOn(layer: Layer, op: Operation): Layer {
    match op
    case Adjust(_, adjustments, _) => layer.(adjustments := adjustments)
    case SetVisible(_, visible) => layer.(visible := visible)
    case SetOpacity(_, opacity) => layer.(opacity := Clamp(opacity, 0.0, 1.0))
    case SetBlend(_, blend) => layer.(blend := blend)
    case SetMask(_, mask) => layer.(mask := mask)
    case SetFill(_, fill, color, blur) => layer.(fill := fill, color := color, blur := Clamp(blur, 0.0, 100.0))
    case SetDecontaminate(_, amount) => layer.(decontaminate := Clamp(amount, 0.0, 1.0))
    case SetPatch(_, patch, w, h) => layer.(patch := patch, patchWidth := w, patchHeight := h)
    case _ => layer
  }

  function Removed(layers: seq<Layer>, i: nat): seq<Layer>
    requires i < |layers|
  {
    layers[..i] + layers[i + 1..]
  }

  /** Where a moved layer ends up: above the background, and at most on top. */
  function Position(index: int, count: nat): nat {
    var at := if index < 1 then 1 else index;
    if at > count then count else at
  }

  function Moved(layers: seq<Layer>, i: nat, index: int): seq<Layer>
    requires i < |layers|
  {
    var rest := Removed(layers, i);
    var at := Position(index, |rest|);
    rest[..at] + [layers[i]] + rest[at..]
  }

  function Set(s: Stack, op: Operation): Stack
    requires IsSetter(op)
  {
    var i := Resolve(s.layers, op.target);
    if i >= 0 then s.(layers := s.layers[i := SetOn(s.layers[i], op)])
    else if op.Adjust? then Stack(s.layers + [SetOn(NewLayer(s.nextId, Adjustment, ""), op)], s.nextId + 1)
    else s
  }

  function Step(s: Stack, op: Operation): Stack {
    if IsSetter(op) then Set(s, op) else
    match op
    case AddLayer(name, kind) => Stack(s.layers + [NewLayer(s.nextId, kind, name)], s.nextId + 1)
    case RemoveLayer(target) =>
      var i := Movable(s.layers, target, 0);
      if i < 0 then s else s.(layers := Removed(s.layers, i))
    case ReorderLayer(target, index) =>
      var i := Movable(s.layers, target, 0);
      if i < 0 then s else s.(layers := Moved(s.layers, i, index))
    case _ => s
  }

  function Replay(ops: seq<Operation>): Stack {
    if ops == [] then START_STACK else Step(Replay(ops[..|ops| - 1]), ops[|ops| - 1])
  }

  method FoldLayers(ops: seq<Operation>) returns (layers: seq<Layer>)
    ensures layers == Replay(ops).layers
  {
    hide SetOn, Resolve, Movable, NewLayer;
    var nextId := 1;
    layers := [BASE];
    for k := 0 to |ops|
      invariant Stack(layers, nextId) == Replay(ops[..k])
    {
      var op := ops[k];
      assert ops[..k + 1][..k] == ops[..k];
      if IsSetter(op) {
        var i := Resolve(layers, op.target);
        if i >= 0 {
          layers := layers[i := SetOn(layers[i], op)];
        } else if op.Adjust? {
          layers, nextId := layers + [SetOn(NewLayer(nextId, Adjustment, ""), op)], nextId + 1;
        }
      } else if op.AddLayer? {
        layers, nextId := layers + [NewLayer(nextId, op.kind, op.name)], nextId + 1;
      } else if op.RemoveLayer? || op.ReorderLayer? {
        var i := Movable(layers, op.target, 0);
        if i >= 0 {
          var moved := layers[i];
          layers := layers[..i] + layers[i + 1..];
          if op.ReorderLayer? {
            var at := Position(op.index, |layers|);
            layers := layers[..at] + [moved] + layers[at..];
          }
        }
      }
    }
    assert ops[..|ops|] == ops;
  }

  // --------------------------------------------------------------- invariants

  /** The decoded original at the bottom, untouched; above it distinct ids that have been handed out. */
  ghost predicate WellFormed(s: Stack) {
    && |s.layers| > 0 && s.layers[0] == BASE
    && (forall i | 0 < i < |s.layers| :: 0 < s.layers[i].id < s.nextId)
    && (forall i, j | 0 <= i < j < |s.layers| :: s.layers[i].id != s.layers[j].id)
  }

  lemma WellFormedStep(s: Stack, op: Operation)
    requires WellFormed(s) && s.nextId > 0
    ensures WellFormed(Step(s, op)) && Step(s, op).nextId >= s.nextId
  {
    hide SetOn, Removed, Moved, Resolve, Movable, Set;
    if IsSetter(op) {
      WellFormedSet(s, op);
    } else if op.RemoveLayer? || op.ReorderLayer? {
      var i := Movable(s.layers, op.target, 0);
      if i >= 0 {
        assert i != 0;
        WellFormedRemoved(s, i);
        if op.ReorderLayer? { WellFormedMoved(s, i, op.index); }
      }
    }
  }

  lemma SetOnKeeps(layer: Layer, op: Operation)
    requires IsSetter(op)
    ensures SetOn(layer, op).id == layer.id && SetOn(layer, op).kind == layer.kind
  {}

  lemma WellFormedSet(s: Stack, op: Operation)
    requires WellFormed(s) && s.nextId > 0 && IsSetter(op)
    ensures WellFormed(Set(s, op)) && Set(s, op).nextId >= s.nextId
  {
    hide SetOn;
    var i := Resolve(s.layers, op.target);
    if i >= 0 { SetOnKeeps(s.layers[i], op); }
    SetOnKeeps(NewLayer(s.nextId, Adjustment, ""), op);
  }

  /** Where the layers of a shortened, or of a reordered, stack were before. */
  function RemovedFrom(i: int, k: int): int { if k < i then k else k + 1 }
  function MovedFrom(i: int, at: int, k: int): int {
    if k == at then i else RemovedFrom(i, if k < at then k else k - 1)
  }

  lemma RemovedAt(layers: seq<Layer>, i: nat, k: nat)
    requires i < |layers| && k < |layers| - 1
    ensures Removed(layers, i)[k] == layers[RemovedFrom(i, k)]
  {}

  lemma MovedAt(layers: seq<Layer>, i: nat, index: int, k: nat)
    requires i < |layers| && k < |layers|
    ensures |Moved(layers, i, index)| == |layers|
    ensures Moved(layers, i, index)[k] == layers[MovedFrom(i, Position(index, |layers| - 1), k)]
  {
    var at := Position(index, |layers| - 1);
    if k < at { RemovedAt(layers, i, k); } else if k > at { RemovedAt(layers, i, k - 1); }
  }

  lemma WellFormedRemoved(s: Stack, i: nat)
    requires WellFormed(s) && 0 < i < |s.layers|
    ensures WellFormed(s.(layers := Removed(s.layers, i)))
  {
    forall k: nat | k < |s.layers| - 1 ensures Removed(s.layers, i)[k] == s.layers[RemovedFrom(i, k)] {
      RemovedAt(s.layers, i, k);
    }
  }

  lemma WellFormedMoved(s: Stack, i: nat, index: int)
    requires WellFormed(s) && 0 < i < |s.layers|
    ensures WellFormed(s.(layers := Moved(s.layers, i, index)))
  {
    hide Moved, BASE;
    var at := Position(index, |s.layers| - 1);
    forall k: nat | k < |s.layers|
      ensures |Moved(s.layers, i, index)| == |s.layers| && Moved(s.layers, i, index)[k] == s.layers[MovedFrom(i, at, k)]
    {
      MovedAt(s.layers, i, index, k);
    }
  }

  /** True of every operation list, whatever it holds. */
  lemma {:induction false} ReplayWellFormed(ops: seq<Operation>)
    ensures WellFormed(Replay(ops)) && Replay(ops).nextId > 0
  {
    if ops != [] {
      ReplayWellFormed(ops[..|ops| - 1]);
      WellFormedStep(Replay(ops[..|ops| - 1]), ops[|ops| - 1]);
    }
  }

  ghost predicate HasId(s: Stack, id: nat) {
    exists i :: 0 <= i < |s.layers| && s.layers[i].id == id
  }

  /** What a layer after a step was before it: the layer at `o`, or new when `o` is -1. */
  ghost predicate CameFrom(s: Stack, op: Operation, k: nat, o: int) {
    && k < |Step(s, op).layers| && -1 <= o < |s.layers|
    && var l := Step(s, op).layers[k];
       if o >= 0 then l.id == s.layers[o].id && l.kind == s.layers[o].kind
       else l.id == s.nextId && Step(s, op).nextId == s.nextId + 1
            && l.kind == (if op.AddLayer? then op.kind else Adjustment)
  }

  /** A step keeps the id and the kind of every layer, and only the last may be new. */
  lemma OriginIs(s: Stack, op: Operation, k: nat) returns (o: int)
    requires k < |Step(s, op).layers|
    ensures CameFrom(s, op, k, o)
  {
    hide SetOn, Resolve, Movable, Removed, Moved, NewLayer;
    o := if k < |s.layers| then k else -1;
    if IsSetter(op) {
      SetKeeps(s, op, k);
    } else if op.RemoveLayer? || op.ReorderLayer? {
      var i := Movable(s.layers, op.target, 0);
      if i >= 0 {
        MovedSizes(s.layers, i, if op.ReorderLayer? then op.index else 0);
        if op.RemoveLayer? {
          RemovedAt(s.layers, i, k);
          o := RemovedFrom(i, k);
        } else {
          MovedAt(s.layers, i, op.index, k);
          o := MovedFrom(i, Position(op.index, |s.layers| - 1), k);
        }
      }
    } else {
      NewLayerIs(s.nextId, if op.AddLayer? then op.kind else Adjustment, if op.AddLayer? then op.name else "");
    }
  }

  lemma NewLayerIs(id: nat, kind: LayerKind, name: string)
    ensures NewLayer(id, kind, name).id == id && NewLayer(id, kind, name).kind == kind
  {}

  lemma SetKeeps(s: Stack, op: Operation, k: nat)
    requires IsSetter(op) && k < |Set(s, op).layers|
    ensures CameFrom(s, op, k, if k < |s.layers| then k else -1)
  {
    hide SetOn, Resolve, NewLayer;
    var i := Resolve(s.layers, op.target);
    if i >= 0 { SetOnKeeps(s.layers[i], op); }
    SetOnKeeps(NewLayer(s.nextId, Adjustment, ""), op);
    NewLayerIs(s.nextId, Adjustment, "");
  }

  lemma MovedSizes(layers: seq<Layer>, i: nat, index: int)
    requires i < |layers|
    ensures |Removed(layers, i)| == |layers| - 1 && |Moved(layers, i, index)| == |layers|
  {}

  /** A step brings in no id except the next one. */
  lemma StepIds(s: Stack, op: Operation, id: nat)
    requires HasId(Step(s, op), id)
    ensures HasId(s, id) || (id == s.nextId && Step(s, op).nextId == s.nextId + 1)
  {
    hide Step;
    var i: nat :| i < |Step(s, op).layers| && Step(s, op).layers[i].id == id;
    var o := OriginIs(s, op, i);
  }

  /** A layer id that has been removed never comes back. */
  lemma {:induction false} NeverReused(ops: seq<Operation>, more: seq<Operation>, id: nat)
    requires id < Replay(ops).nextId && !HasId(Replay(ops), id)
    ensures !HasId(Replay(ops + more), id) && id < Replay(ops + more).nextId
  {
    hide Step, WellFormed, HasId;
    if more == [] {
      assert ops + more == ops;
    } else {
      var first := more[..|more| - 1];
      NeverReused(ops, first, id);
      assert (ops + more)[..|ops + more| - 1] == ops + first && (ops + more)[|ops + more| - 1] == more[|more| - 1];
      ReplayWellFormed(ops + first);
      WellFormedStep(Replay(ops + first), more[|more| - 1]);
      if HasId(Replay(ops + more), id) { StepIds(Replay(ops + first), more[|more| - 1], id); }
    }
  }

  /** Backgrounds above the bottom. */
  ghost predicate ExtraBackground(s: Stack) {
    exists i :: 0 < i < |s.layers| && s.layers[i].kind == Background
  }

  lemma ExtraBackgroundStep(s: Stack, op: Operation)
    requires WellFormed(s) && s.nextId > 0
    ensures ExtraBackground(Step(s, op)) <==> ExtraBackground(s) || (op.AddLayer? && op.kind == Background)
  {
    if ExtraBackground(s) {
      var i :| 0 < i < |s.layers| && s.layers[i].kind == Background;
      var k := BackgroundStays(s, op, i);
    } else if op.AddLayer? {
      assert Step(s, op).layers[|s.layers|].kind == op.kind;
    }
    if ExtraBackground(Step(s, op)) { NoNewBackground(s, op); }
  }

  lemma NoNewBackground(s: Stack, op: Operation)
    requires WellFormed(s) && s.nextId > 0 && ExtraBackground(Step(s, op))
    ensures ExtraBackground(s) || (op.AddLayer? && op.kind == Background)
  {
    hide Step;
    var k: nat :| 0 < k < |Step(s, op).layers| && Step(s, op).layers[k].kind == Background;
    var o := OriginIs(s, op, k);
    WellFormedStep(s, op);
  }

  /** Nothing removes a background that is not the bottom one. */
  lemma BackgroundStays(s: Stack, op: Operation, i: nat) returns (k: nat)
    requires WellFormed(s) && 0 < i < |s.layers| && s.layers[i].kind == Background
    ensures 0 < k < |Step(s, op).layers| && Step(s, op).layers[k].kind == Background
  {
    hide SetOn, Resolve, Movable, Removed, Moved;
    k := i;
    if op.RemoveLayer? || op.ReorderLayer? {
      var m := Movable(s.layers, op.target, 0);
      if m >= 0 {
        assert m != 0 && m != i;
        MovedSizes(s.layers, m, if op.ReorderLayer? then op.index else 0);
        k := if m < i then i - 1 else i;
        if op.RemoveLayer? {
          RemovedAt(s.layers, m, k);
        } else {
          if Position(op.index, |s.layers| - 1) <= k { k := k + 1; }
          MovedAt(s.layers, m, op.index, k);
        }
      }
    } else if IsSetter(op) {
      var m := Resolve(s.layers, op.target);
      if m >= 0 { SetOnKeeps(s.layers[m], op); }
    }
  }

  /** There is one background exactly when the list adds none. */
  lemma {:induction false} OneBackground(ops: seq<Operation>)
    ensures ExtraBackground(Replay(ops))
       <==> exists k :: 0 <= k < |ops| && ops[k].AddLayer? && ops[k].kind == Background
  {
    if ops != [] {
      var first, last := ops[..|ops| - 1], ops[|ops| - 1];
      OneBackground(first);
      ReplayWellFormed(first);
      ExtraBackgroundStep(Replay(first), last);
      if exists k :: 0 <= k < |first| && first[k].AddLayer? && first[k].kind == Background {
        var k :| 0 <= k < |first| && first[k].AddLayer? && first[k].kind == Background;
        assert ops[k] == first[k];
      }
      if exists k :: 0 <= k < |ops| && ops[k].AddLayer? && ops[k].kind == Background {
        var k :| 0 <= k < |ops| && ops[k].AddLayer? && ops[k].kind == Background;
        if k < |first| { assert first[k] == ops[k]; }
      }
    }
  }

  // ------------------------------------------------------- replacing the top

  predicate SameKind(a: Operation, b: Operation) {
    match a
    case Rotate(_) => b.Rotate?
    case Straighten(_) => b.Straighten?
    case FlipHorizontal => b.FlipHorizontal?
    case FlipVertical => b.FlipVertical?
    case Crop(_) => b.Crop?
    case Resize(_, _) => b.Resize?
    case Adjust(_, _, _) => b.Adjust?
    case AddLayer(_, _) => b.AddLayer?
    case RemoveLayer(_) => b.RemoveLayer?
    case ReorderLayer(_, _) => b.ReorderLayer?
    case SetVisible(_, _) => b.SetVisible?
    case SetOpacity(_, _) => b.SetOpacity?
    case SetBlend(_, _) => b.SetBlend?
    case SetMask(_, _) => b.SetMask?
    case SetFill(_, _, _, _) => b.SetFill?
    case SetDecontaminate(_, _) => b.SetDecontaminate?
    case SetPatch(_, _, _, _) => b.SetPatch?
    case DevelopRaw(_) => b.DevelopRaw?
  }

  /**
   * When dropping `first` under a following `second` of the same kind changes
   * nothing: both reach the same layer, or the first had nothing to change.
   */
  predicate Replaceable(s: Stack, first: Operation, second: Operation)
    requires IsSetter(first) && SameKind(first, second)
  {
    var i, j := Resolve(s.layers, first.target), Resolve(s.layers, second.target);
    if i >= 0 then j == i || SetOn(s.layers[i], first) == s.layers[i]
    else if first.Adjust? then second.target == s.nextId || (second.target == 0 && j < 0)
    else true
  }

  lemma SetOnTwice(layer: Layer, first: Operation, second: Operation)
    requires IsSetter(first) && SameKind(first, second)
    ensures IsSetter(second) && SetOn(SetOn(layer, first), second) == SetOn(layer, second)
    ensures SetOn(layer, first).id == layer.id && SetOn(layer, first).kind == layer.kind
  {}

  /** What decides which layer an id means: the ids and the kinds. */
  lemma ResolveUnique(layers: seq<Layer>, other: seq<Layer>, id: nat)
    requires |layers| == |other|
    requires forall k | 0 <= k < |layers| :: layers[k].id == other[k].id && layers[k].kind == other[k].kind
    ensures Resolve(layers, id) == Resolve(other, id)
  {
    hide FirstWithId, LastAdjustment;
    var i, j := Resolve(layers, id), Resolve(other, id);
    if i >= 0 { assert other[i].id == layers[i].id && other[i].kind == layers[i].kind; }
    if j >= 0 { assert other[j].id == layers[j].id && other[j].kind == layers[j].kind; }
  }

  /** A setter replayed after another of its kind: exactly when the first can be dropped. */
  lemma ReplaceTopLayers(s: Stack, first: Operation, second: Operation)
    requires WellFormed(s) && s.nextId > 0 && IsSetter(first) && SameKind(first, second)
    ensures Step(Step(s, first), second) == Step(s, second) <==> Replaceable(s, first, second)
  {
    var i := Resolve(s.layers, first.target);
    if i >= 0 {
      ReplaceOnLayer(s, i, first, second);
    } else if first.Adjust? {
      ReplaceCreated(s, first, second);
    }
  }

  lemma ReplaceOnLayer(s: Stack, i: nat, first: Operation, second: Operation)
    requires IsSetter(first) && SameKind(first, second) && i == Resolve(s.layers, first.target)
    ensures Step(Step(s, first), second) == Step(s, second) <==> Replaceable(s, first, second)
  {
    hide SetOn, Resolve;
    var layer := SetOn(s.layers[i], first);
    SetOnTwice(s.layers[i], first, second);
    ResolveUnique(s.layers[i := layer], s.layers, second.target);
    var j := Resolve(s.layers, second.target);
    var both, one := Step(Step(s, first), second), Step(s, second);
    if j == i {
      assert both.layers == one.layers;
    } else {
      assert both.layers[i] == layer && one.layers[i] == s.layers[i];
      if layer == s.layers[i] { assert s.layers[i := layer] == s.layers; }
    }
  }

  /** A new adjustment layer on top is what its own id, and zero, now mean. */
  lemma ResolveAppended(layers: seq<Layer>, made: Layer, id: nat)
    requires made.kind == Adjustment && made.id != 0 && forall k | 0 <= k < |layers| :: layers[k].id != made.id
    ensures Resolve(layers + [made], id) == if id == 0 || id == made.id then |layers| else Resolve(layers, id)
  {
    hide FirstWithId, LastAdjustment;
    var more := layers + [made];
    var i, j := Resolve(more, id), Resolve(layers, id);
    assert more[|layers|] == made && forall k | 0 <= k < |layers| :: more[k] == layers[k];
    if id != 0 && id != made.id && j >= 0 { assert more[j].id == id; }
  }

  lemma ReplaceCreated(s: Stack, first: Operation, second: Operation)
    requires WellFormed(s) && s.nextId > 0 && first.Adjust? && second.Adjust? && Resolve(s.layers, first.target) < 0
    ensures Step(Step(s, first), second) == Step(s, second) <==> Replaceable(s, first, second)
  {
    hide Resolve;
    var made := SetOn(NewLayer(s.nextId, Adjustment, ""), first);
    var j := Resolve(s.layers, second.target);
    assert forall k | 0 <= k < |s.layers| :: s.layers[k].id != made.id;
    ResolveAppended(s.layers, made, second.target);
    SetOnTwice(NewLayer(s.nextId, Adjustment, ""), first, second);
    var both, one := Step(Step(s, first), second), Step(s, second);
    if second.target == s.nextId || second.target == 0 {
      assert (s.layers + [made])[|s.layers| := SetOn(made, second)] == s.layers + [SetOn(made, second)];
      if second.target == s.nextId { assert j < 0; }
    } else {
      assert |both.layers| != |one.layers|;
    }
  }
}
