/**
 * A document's history: a list of operations, a cursor into it, and what every
 * run of edits, undos, redos and seeks keeps true of it.
 */
module EditStacks {
  import opened Integers
  import opened Orientations
  import opened Operations
  import opened Geometries
  import L = Layers
  import R = Replay

  datatype Entry = Entry(id: nat, op: Operation)
  datatype History = History(entries: seq<Entry>, cursor: nat, nextId: nat)

  const NEW_HISTORY := History([], 0, 1)

  predicate InRange(h: History) { h.cursor <= |h.entries| }

  function Ops(entries: seq<Entry>): (r: seq<Operation>)
    ensures |r| == |entries| && forall k | 0 <= k < |r| :: r[k] == entries[k].op
  {
    if entries == [] then [] else Ops(entries[..|entries| - 1]) + [entries[|entries| - 1].op]
  }

  function Numbered(ops: seq<Operation>): (r: seq<Entry>)
    ensures |r| == |ops| && forall k | 0 <= k < |r| :: r[k] == Entry(k + 1, ops[k])
  {
    if ops == [] then [] else Numbered(ops[..|ops| - 1]) + [Entry(|ops|, ops[|ops| - 1])]
  }

  /** The operations in effect. */
  function Active(h: History): seq<Operation>
    requires InRange(h)
  {
    Ops(h.entries[..h.cursor])
  }

  /** Whether applying overwrites the entry on top instead of adding one. */
  predicate Replaces(h: History, op: Operation, replaceTop: bool)
    requires InRange(h)
  {
    replaceTop && h.cursor > 0 && L.SameKind(h.entries[h.cursor - 1].op, op)
  }

  function Applied(h: History, op: Operation, replaceTop: bool): History
    requires InRange(h)
  {
    if Replaces(h, op, replaceTop)
    then h.(entries := h.entries[..h.cursor - 1] + [Entry(h.entries[h.cursor - 1].id, op)])
    else History(h.entries[..h.cursor] + [Entry(h.nextId, op)], h.cursor + 1, h.nextId + 1)
  }

  function Undone(h: History): History { if h.cursor > 0 then h.(cursor := h.cursor - 1) else h }
  function Redone(h: History): History { if h.cursor < |h.entries| then h.(cursor := h.cursor + 1) else h }
  function Sought(h: History, cursor: nat): History { h.(cursor := Min(cursor, |h.entries|)) }
  function Cleared(h: History): History { History([], 0, h.nextId) }
  function Loaded(ops: seq<Operation>, cursor: nat): History {
    History(Numbered(ops), Min(cursor, |ops|), |ops| + 1)
  }

  class EditStack {
    var entries: seq<Entry>
    var cursor: nat
    var nextId: nat

    function State(): History reads this { History(entries, cursor, nextId) }

    constructor ()
      ensures State() == NEW_HISTORY
    {
      entries, cursor, nextId := [], 0, 1;
    }

    method Apply(op: Operation, replaceTop: bool) returns (made: Entry)
      requires InRange(State())
      modifies this
      ensures State() == Applied(old(State()), op, replaceTop)
      ensures cursor == |entries| > 0 && made == entries[cursor - 1] && made.op == op
    {
      entries := entries[..cursor];
      if replaceTop && cursor > 0 && L.SameKind(entries[cursor - 1].op, op) {
        made := Entry(entries[cursor - 1].id, op);
        entries := entries[..cursor - 1] + [made];
        return;
      }
      made := Entry(nextId, op);
      nextId := nextId + 1;
      entries := entries + [made];
      cursor := |entries|;
    }

    method Undo() returns (moved: bool)
      requires InRange(State())
      modifies this`cursor
      ensures State() == Undone(old(State())) && moved == (cursor != old(cursor))
    {
      if cursor == 0 { return false; }
      cursor := cursor - 1;
      return true;
    }

    method Redo() returns (moved: bool)
      requires InRange(State())
      modifies this`cursor
      ensures State() == Redone(old(State())) && moved == (cursor != old(cursor))
    {
      if cursor >= |entries| { return false; }
      cursor := cursor + 1;
      return true;
    }

    method Seek(to: nat)
      modifies this`cursor
      ensures State() == Sought(old(State()), to)
    {
      cursor := Min(to, |entries|);
    }

    method Clear()
      modifies this`entries, this`cursor
      ensures State() == Cleared(old(State()))
    {
      entries, cursor := [], 0;
    }

    method Load(ops: seq<Operation>, to: nat)
      modifies this
      ensures State() == Loaded(ops, to)
    {
      entries, nextId := [], 1;
      for k := 0 to |ops|
        invariant nextId == k + 1 && entries == Numbered(ops[..k])
      {
        assert ops[..k + 1][..k] == ops[..k];
        entries, nextId := entries + [Entry(nextId, ops[k])], nextId + 1;
      }
      assert ops[..|ops|] == ops;
      cursor := Min(to, |entries|);
    }
  }

  /** The photograph a stack edits: its size, and the library's sine and cosine. */
  datatype Photo = Photo(width: int, height: int, trig: Trig) {
    ghost predicate Valid() { width > 0 && height > 0 && TrigOk(trig) }
  }

  function GeometryOf(ops: seq<Operation>, p: Photo): Geometry
    requires TrigOk(p.trig)
  {
    Fold(ops, p.width, p.height, p.trig)
  }

  /** The check an edit passes before it reaches the stack. */
  predicate Accepted(h: History, op: Operation, p: Photo)
    requires InRange(h) && TrigOk(p.trig)
  {
    !GeometryOf(Active(h) + [op], p).sourceRect.Empty()
  }

  function Edited(h: History, op: Operation, replaceTop: bool, p: Photo): History
    requires InRange(h) && TrigOk(p.trig)
  {
    if Accepted(h, op, p) then Applied(h, op, replaceTop) else h
  }

  /** An edit request: refused, with the stack as it was, when nothing would be left to render. */
  method ApplyEdit(stack: EditStack, op: Operation, replaceTop: bool, p: Photo) returns (ok: bool)
    requires InRange(stack.State()) && TrigOk(p.trig)
    modifies stack
    ensures stack.State() == Edited(old(stack.State()), op, replaceTop, p)
    ensures ok == Accepted(old(stack.State()), op, p)
  {
    var g := FoldGeometry(Active(stack.State()) + [op], p.width, p.height, p.trig);
    ok := !g.sourceRect.Empty();
    if ok { var made := stack.Apply(op, replaceTop); }
  }

  // ---------------------------------------------------------------- runs

  datatype Command =
    | EditWith(op: Operation, replaceTop: bool)
    | UndoOne
    | RedoOne
    | SeekTo(cursor: nat)
    | ClearAll
    | LoadAll(ops: seq<Operation>, cursor: nat)

  function Perform(h: History, c: Command, p: Photo): (r: History)
    requires InRange(h) && TrigOk(p.trig)
    ensures InRange(r)
  {
    match c
    case EditWith(op, replaceTop) => Edited(h, op, replaceTop, p)
    case UndoOne => Undone(h)
    case RedoOne => Redone(h)
    case SeekTo(cursor) => Sought(h, cursor)
    case ClearAll => Cleared(h)
    case LoadAll(ops, cursor) => Loaded(ops, cursor)
  }

  function Run(cs: seq<Command>, p: Photo): (r: History)
    requires TrigOk(p.trig)
    ensures InRange(r)
  {
    if cs == [] then NEW_HISTORY else Perform(Run(cs[..|cs| - 1], p), cs[|cs| - 1], p)
  }

  ghost predicate Ordered(h: History) {
    && InRange(h) && h.nextId > 0
    && (forall i | 0 <= i < |h.entries| :: 0 < h.entries[i].id < h.nextId)
    && (forall i, j | 0 <= i < j < |h.entries| :: h.entries[i].id < h.entries[j].id)
  }

  lemma OrderedApplied(h: History, op: Operation, replaceTop: bool)
    requires Ordered(h)
    ensures Ordered(Applied(h, op, replaceTop))
  {}

  /** In every run the cursor is in range and the ids of the history increase. */
  lemma {:induction false} RunOrdered(cs: seq<Command>, p: Photo)
    requires TrigOk(p.trig)
    ensures Ordered(Run(cs, p))
  {
    hide Applied, Accepted;
    if cs != [] {
      RunOrdered(cs[..|cs| - 1], p);
      var c := cs[|cs| - 1];
      if c.EditWith? { OrderedApplied(Run(cs[..|cs| - 1], p), c.op, c.replaceTop); }
    }
  }

  // -------------------------------------------------------------- zipper

  /** What was done, oldest first, and what was undone, next first. */
  datatype Zipper = Zipper(past: seq<Entry>, future: seq<Entry>, nextId: nat)

  function ToZipper(h: History): Zipper
    requires InRange(h)
  {
    Zipper(h.entries[..h.cursor], h.entries[h.cursor..], h.nextId)
  }

  function Back(z: Zipper): Zipper {
    if z.past == [] then z else
    var n := |z.past| - 1;
    Zipper(z.past[..n], [z.past[n]] + z.future, z.nextId)
  }

  function Forward(z: Zipper): Zipper {
    if z.future == [] then z else Zipper(z.past + [z.future[0]], z.future[1..], z.nextId)
  }

  /** Seeking is undoing or redoing one step at a time. */
  function Walk(z: Zipper, to: nat): Zipper
    decreases |z.past| > to, if |z.past| > to then |z.past| - to else |z.future|
  {
    if |z.past| > to then Walk(Back(z), to)
    else if |z.past| < to && z.future != [] then Walk(Forward(z), to)
    else z
  }

  /** A new edit forgets the future; a gesture rewrites the last entry under its id. */
  function Push(z: Zipper, op: Operation, replaceTop: bool): Zipper {
    var n := |z.past| - 1;
    if replaceTop && n >= 0 && L.SameKind(z.past[n].op, op)
    then Zipper(z.past[..n] + [Entry(z.past[n].id, op)], [], z.nextId)
    else Zipper(z.past + [Entry(z.nextId, op)], [], z.nextId + 1)
  }

  function PerformZipper(z: Zipper, c: Command, p: Photo): Zipper
    requires TrigOk(p.trig)
  {
    match c
    case EditWith(op, replaceTop) =>
      if GeometryOf(Ops(z.past) + [op], p).sourceRect.Empty() then z else Push(z, op, replaceTop)
    case UndoOne => Back(z)
    case RedoOne => Forward(z)
    case SeekTo(cursor) => Walk(z, cursor)
    case ClearAll => Zipper([], [], z.nextId)
    case LoadAll(ops, cursor) => Walk(Zipper([], Numbered(ops), |ops| + 1), cursor)
  }

  function RunZipper(cs: seq<Command>, p: Photo): Zipper
    requires TrigOk(p.trig)
  {
    if cs == [] then Zipper([], [], 1) else PerformZipper(RunZipper(cs[..|cs| - 1], p), cs[|cs| - 1], p)
  }

  lemma BackIs(h: History)
    requires InRange(h) && h.cursor > 0
    ensures Back(ToZipper(h)) == ToZipper(h.(cursor := h.cursor - 1))
  {
    assert h.entries[..h.cursor][..h.cursor - 1] == h.entries[..h.cursor - 1];
    assert [h.entries[h.cursor - 1]] + h.entries[h.cursor..] == h.entries[h.cursor - 1..];
  }

  lemma ForwardIs(h: History)
    requires InRange(h) && h.cursor < |h.entries|
    ensures Forward(ToZipper(h)) == ToZipper(h.(cursor := h.cursor + 1))
  {
    assert h.entries[..h.cursor] + [h.entries[h.cursor]] == h.entries[..h.cursor + 1];
    assert h.entries[h.cursor..][1..] == h.entries[h.cursor + 1..];
  }

  lemma {:induction false} WalkIs(h: History, to: nat)
    requires InRange(h)
    ensures Walk(ToZipper(h), to) == ToZipper(Sought(h, to))
    decreases h.cursor > to, if h.cursor > to then h.cursor - to else |h.entries| - h.cursor
  {
    if h.cursor > to {
      BackIs(h);
      WalkIs(h.(cursor := h.cursor - 1), to);
    } else if h.cursor < to && h.cursor < |h.entries| {
      ForwardIs(h);
      WalkIs(h.(cursor := h.cursor + 1), to);
    } else {
      assert Sought(h, to) == h;
    }
  }

  lemma PushIs(h: History, op: Operation, replaceTop: bool)
    requires InRange(h)
    ensures Push(ToZipper(h), op, replaceTop) == ToZipper(Applied(h, op, replaceTop))
  {
    var past := h.entries[..h.cursor];
    if Replaces(h, op, replaceTop) {
      assert past[..h.cursor - 1] == h.entries[..h.cursor - 1];
    }
  }

  /** The list with a cursor behaves as a past and a future, in every run. */
  lemma {:induction false} RunIsZipper(cs: seq<Command>, p: Photo)
    requires TrigOk(p.trig)
    ensures ToZipper(Run(cs, p)) == RunZipper(cs, p)
  {
    if cs != [] {
      RunIsZipper(cs[..|cs| - 1], p);
      PerformIsZipper(Run(cs[..|cs| - 1], p), cs[|cs| - 1], p);
    }
  }

  lemma PerformIsZipper(h: History, c: Command, p: Photo)
    requires InRange(h) && TrigOk(p.trig)
    ensures ToZipper(Perform(h, c, p)) == PerformZipper(ToZipper(h), c, p)
  {
    hide Applied, Push, Back, Forward, Walk, Fold;
    match c
    case EditWith(op, replaceTop) => PushIs(h, op, replaceTop);
    case UndoOne => NothingBack(h); if h.cursor > 0 { BackIs(h); }
    case RedoOne => NothingForward(h); if h.cursor < |h.entries| { ForwardIs(h); }
    case SeekTo(cursor) => WalkIs(h, cursor);
    case ClearAll =>
    case LoadAll(ops, cursor) =>
      var start := History(Numbered(ops), 0, |ops| + 1);
      assert ToZipper(start) == Zipper([], Numbered(ops), |ops| + 1);
      WalkIs(start, cursor);
  }

  lemma NothingBack(h: History)
    requires InRange(h)
    ensures h.cursor == 0 ==> Back(ToZipper(h)) == ToZipper(h)
  {}

  lemma NothingForward(h: History)
    requires InRange(h)
    ensures h.cursor == |h.entries| ==> Forward(ToZipper(h)) == ToZipper(h)
  {}

  // ------------------------------------------------ nothing folds to nothing

  /** Every point an undo, a redo or a seek can reach leaves something to render. */
  ghost predicate Good(h: History, p: Photo)
    requires TrigOk(p.trig)
  {
    forall k | 0 <= k <= |h.entries| :: !GeometryOf(Ops(h.entries[..k]), p).sourceRect.Empty()
  }

  /** What a fold keeps true of its own fields. */
  ghost predicate Coherent(g: Geometry) {
    && (g.sourceRect.Empty() <==> g.unrotatedRect.Empty())
    && g.targetWidth >= 0 && g.targetHeight >= 0 && (g.targetWidth > 0 <==> g.targetHeight > 0)
  }

  lemma CoherentStep(g: Geometry, op: Operation, t: Trig)
    requires TrigOk(t) && Coherent(g)
    ensures Coherent(Step(g, op, t))
    ensures !op.Crop? && !g.sourceRect.Empty() ==> !Step(g, op, t).sourceRect.Empty()
  {
    hide CroppedRect, KeptWidth, KeptHeight, LRound, TrigOk;
  }

  lemma {:induction false} CoherentFold(ops: seq<Operation>, p: Photo)
    requires p.Valid()
    ensures Coherent(GeometryOf(ops, p))
  {
    hide Step;
    if ops != [] {
      CoherentFold(ops[..|ops| - 1], p);
      CoherentStep(GeometryOf(ops[..|ops| - 1], p), ops[|ops| - 1], p.trig);
    }
  }

  /** The crop, measured in source pixels, meets the frame it is taken from. */
  predicate Meets(g: Geometry, rect: Rect) {
    g.angle != 0.0 || !Intersect(NaturalCrop(g, rect), Rect(0, 0, g.NaturalWidth(), g.NaturalHeight())).Empty()
  }

  lemma CropEmptyIff(g: Geometry, rect: Rect, t: Trig)
    requires TrigOk(t) && !g.sourceRect.Empty()
    ensures Step(g, Crop(rect), t).sourceRect.Empty() <==> !Meets(g, rect)
  {
    hide NaturalCrop, MapRectBack, R.Visible, Intersect;
    var natural := NaturalCrop(g, rect);
    var s, o := g.sourceRect, g.orientation;
    NaturalIsWhole(natural);
    MapRectBackPreimage(natural, o, s.width, s.height, Point(0, 0));
    if g.angle == 0.0 {
      R.CropRectFrom(s, CropInFrame(g, rect), natural, o);
      R.MapBackVisible(natural, o, s.width, s.height);
      VisibleIs(natural, o, s.width, s.height);
    }
  }

  lemma NaturalIsWhole(natural: Rect)
    requires !natural.Empty()
    ensures Rect(natural.x, natural.y, Max(1, natural.width), Max(1, natural.height)) == natural
  {}

  lemma VisibleIs(natural: Rect, o: Orientation, w: int, h: int)
    requires !natural.Empty()
    ensures R.Visible(natural, o, w, h) == Intersect(natural, Rect(0, 0, TurnedWidth(o, w, h), TurnedHeight(o, w, h)))
  {
    NaturalIsWhole(natural);
  }

  /** What the entry on top, or the one a new edit would rewrite, is applied to. */
  function Under(h: History): seq<Operation>
    requires InRange(h) && h.cursor > 0
  {
    Ops(h.entries[..h.cursor - 1])
  }

  lemma OpsAppend(entries: seq<Entry>, e: Entry)
    ensures Ops(entries + [e]) == Ops(entries) + [e.op]
  {
    assert (entries + [e])[..|entries|] == entries;
  }

  lemma FoldLast(ops: seq<Operation>, op: Operation, p: Photo)
    requires TrigOk(p.trig)
    ensures GeometryOf(ops + [op], p) == Step(GeometryOf(ops, p), op, p.trig)
  {
    assert (ops + [op])[..|ops|] == ops;
  }

  /** Only the prefix that ends at the new entry is new. */
  lemma GoodApplied(h: History, op: Operation, replaceTop: bool, p: Photo)
    requires p.Valid() && InRange(h) && Good(h, p)
    ensures var before := if Replaces(h, op, replaceTop) then Under(h) else Active(h);
      Good(Applied(h, op, replaceTop), p) <==> !GeometryOf(before + [op], p).sourceRect.Empty()
  {
    hide GeometryOf, Ops;
    var keep := if Replaces(h, op, replaceTop) then h.cursor - 1 else h.cursor;
    var after := Applied(h, op, replaceTop).entries;
    var last := after[keep];
    assert after == h.entries[..keep] + [last];
    OpsAppend(h.entries[..keep], last);
    assert after[..keep + 1] == after;
    forall k | 0 <= k <= keep ensures after[..k] == h.entries[..k] {}
  }

  /**
   * An accepted edit keeps every reachable point renderable exactly when it does
   * not put a crop in the place of one and miss the frame under it.
   */
  lemma EditedGood(h: History, op: Operation, replaceTop: bool, p: Photo)
    requires p.Valid() && InRange(h) && Good(h, p) && Accepted(h, op, p)
    ensures Good(Edited(h, op, replaceTop, p), p)
       <==> (Replaces(h, op, replaceTop) && op.Crop? ==> Meets(GeometryOf(Under(h), p), op.rect))
  {
    hide Step, Meets, Ops, Good, Applied, Fold;
    GoodApplied(h, op, replaceTop, p);
    if Replaces(h, op, replaceTop) {
      GoodUnder(h, p);
      FoldLast(Under(h), op, p);
      if op.Crop? {
        CropEmptyIff(GeometryOf(Under(h), p), op.rect, p.trig);
      } else {
        CoherentFold(Under(h), p);
        CoherentStep(GeometryOf(Under(h), p), op, p.trig);
      }
    }
  }

  lemma GoodUnder(h: History, p: Photo)
    requires p.Valid() && InRange(h) && h.cursor > 0 && Good(h, p)
    ensures !GeometryOf(Under(h), p).sourceRect.Empty()
  {
    hide GeometryOf;
  }

  /** A crop put in the place of another meets the frame if no resize is in effect or the frame is turned. */
  lemma UnresizedMeets(g: Geometry, first: Rect, second: Rect, t: Trig)
    requires TrigOk(t) && Coherent(g) && !g.sourceRect.Empty() && (g.targetWidth == 0 || g.angle != 0.0)
    requires !Step(g, Crop(first), t).sourceRect.Empty()
    requires !Step(Step(g, Crop(first), t), Crop(second), t).sourceRect.Empty()
    ensures Meets(g, second)
  {
    hide NaturalCrop, MapRectBack, Step;
    if g.angle == 0.0 {
      var g' := Step(g, Crop(first), t);
      CropEmptyIff(g', second, t);
      StepCropUnsized(g, first, t);
      NaturalUnsized(g, g', second);
      var natural := NaturalCrop(g, second);
      InsideMeets(natural, g'.NaturalWidth(), g'.NaturalHeight(), g.NaturalWidth(), g.NaturalHeight());
    }
  }

  lemma StepCropUnsized(g: Geometry, rect: Rect, t: Trig)
    requires TrigOk(t) && g.targetWidth == 0 && g.angle == 0.0 && !g.sourceRect.Empty()
    ensures var g' := Step(g, Crop(rect), t);
      && g'.targetWidth == g.targetWidth && g'.targetHeight == g.targetHeight && g'.angle == 0.0
      && g'.orientation == g.orientation
      && (!g'.sourceRect.Empty() ==>
            g'.sourceRect.width <= g.sourceRect.width && g'.sourceRect.height <= g.sourceRect.height)
  {
    hide CropInFrame;
  }

  lemma NaturalUnsized(g: Geometry, g': Geometry, rect: Rect)
    requires g.targetWidth == g'.targetWidth == 0 && g.targetHeight == g'.targetHeight == 0
    ensures NaturalCrop(g, rect) == NaturalCrop(g', rect)
  {}

  lemma InsideMeets(natural: Rect, w: int, h: int, w': int, h': int)
    requires w <= w' && h <= h' && !Intersect(natural, Rect(0, 0, w, h)).Empty()
    ensures !Intersect(natural, Rect(0, 0, w', h')).Empty()
  {}

  /** A command that does not swap a crop under a resize, nor load a list with a hole in it. */
  ghost predicate Careful(h: History, c: Command, p: Photo)
    requires InRange(h) && TrigOk(p.trig)
  {
    && (c.EditWith? && c.op.Crop? && Replaces(h, c.op, c.replaceTop) ==>
          var g := GeometryOf(Under(h), p); g.targetWidth == 0 || g.angle != 0.0)
    && (c.LoadAll? ==> Good(Loaded(c.ops, c.cursor), p))
  }

  ghost predicate CarefulRun(cs: seq<Command>, p: Photo)
    requires TrigOk(p.trig)
  {
    forall k | 0 <= k < |cs| :: Careful(Run(cs[..k], p), cs[k], p)
  }

  /** In a careful run, every point an undo, a redo or a seek can reach leaves something to render. */
  lemma {:induction false} RunGood(cs: seq<Command>, p: Photo)
    requires p.Valid() && CarefulRun(cs, p)
    ensures Good(Run(cs, p), p)
  {
    hide Good, Perform, Careful;
    if cs == [] {
      EmptyIsGood(NEW_HISTORY, p);
    } else {
      var first, n := cs[..|cs| - 1], |cs| - 1;
      forall k | 0 <= k < n ensures Careful(Run(first[..k], p), first[k], p) {
        assert first[..k] == cs[..k];
      }
      RunGood(first, p);
      PerformGood(Run(first, p), cs[n], p);
    }
  }

  lemma EmptyIsGood(h: History, p: Photo)
    requires p.Valid() && h.entries == []
    ensures Good(h, p)
  {}

  lemma PerformGood(h: History, c: Command, p: Photo)
    requires p.Valid() && InRange(h) && Good(h, p) && Careful(h, c, p)
    ensures Good(Perform(h, c, p), p)
  {
    hide GeometryOf, Applied, Meets;
    EmptyIsGood(Cleared(h), p);
    if c.EditWith? && Accepted(h, c.op, p) {
      EditedGood(h, c.op, c.replaceTop, p);
      if Replaces(h, c.op, c.replaceTop) && c.op.Crop? {
        CarefulMeets(h, c.op, p);
      }
    }
  }

  lemma CarefulMeets(h: History, op: Operation, p: Photo)
    requires p.Valid() && InRange(h) && Good(h, p) && Replaces(h, op, true) && op.Crop? && Accepted(h, op, p)
    requires var g := GeometryOf(Under(h), p); g.targetWidth == 0 || g.angle != 0.0
    ensures Meets(GeometryOf(Under(h), p), op.rect)
  {
    hide Step, Meets, Ops, Fold;
    var top := h.entries[h.cursor - 1];
    assert h.entries[..h.cursor - 1] + [top] == h.entries[..h.cursor];
    OpsAppend(h.entries[..h.cursor - 1], top);
    GoodUnder(h, p);
    CoherentFold(Under(h), p);
    FoldLast(Under(h), top.op, p);
    FoldLast(Active(h), op, p);
    UnresizedMeets(GeometryOf(Under(h), p), top.op.rect, op.rect, p.trig);
  }

  /**
   * Under a resize the check can be passed and the document emptied: the crop is
   * checked after the one it replaces, where the picture has another scale.
   */
  lemma ReplacedCropEmpties(p: Photo)
    requires p.Valid() && p.width == 7 && p.height == 7
    ensures var h := Loaded([Resize(10, 10), Crop(Rect(0, 0, 1, 1))], 2);
      var op := Crop(Rect(-1, 0, 2, 1));
      Good(h, p) && Accepted(h, op, p) && !Good(Edited(h, op, true, p), p)
  {
    hide Step, GeometryOf, Meets, Good, Ops, Loaded, Edited, Under, Active, Replaces;
    var first, op := Crop(Rect(0, 0, 1, 1)), Crop(Rect(-1, 0, 2, 1));
    var ops := [Resize(10, 10), first];
    var h := Loaded(ops, 2);
    var g0, t := StartGeometry(7, 7), p.trig;
    var g1 := Step(g0, Resize(10, 10), t);
    SmallSteps(t);
    var g2, g3, g4 := Step(g1, first, t), Step(Step(g1, first, t), op, t), Step(g1, op, t);
    StartFold(p);
    FoldLast([], Resize(10, 10), p);
    FoldLast([Resize(10, 10)], first, p);
    FoldLast(ops, op, p);
    assert [] + [Resize(10, 10)] == [Resize(10, 10)] && [Resize(10, 10)] + [first] == ops;
    SmallOps(h, ops, op);
    GoodPair(h, p);
    EditedGood(h, op, true, p);
  }

  lemma GoodPair(h: History, p: Photo)
    requires p.Valid() && |h.entries| == 2
    requires !GeometryOf(Ops(h.entries[..0]), p).sourceRect.Empty()
    requires !GeometryOf(Ops(h.entries[..1]), p).sourceRect.Empty()
    requires !GeometryOf(Ops(h.entries[..2]), p).sourceRect.Empty()
    ensures Good(h, p)
  {
    hide GeometryOf, Ops;
  }

  lemma StartFold(p: Photo)
    requires TrigOk(p.trig)
    ensures GeometryOf([], p) == StartGeometry(p.width, p.height)
  {}

  lemma SmallOps(h: History, ops: seq<Operation>, op: Operation)
    requires |ops| == 2 && h == Loaded(ops, 2) && L.SameKind(ops[1], op)
    ensures InRange(h) && h.cursor == |h.entries| == 2 && Replaces(h, op, true)
    ensures Ops(h.entries[..0]) == [] && Ops(h.entries[..1]) == [ops[0]] && Ops(h.entries[..2]) == ops
    ensures Under(h) == [ops[0]] && Active(h) == ops
  {}

  lemma SmallSteps(t: Trig)
    requires TrigOk(t)
    ensures var g1 := Step(StartGeometry(7, 7), Resize(10, 10), t);
      var g2 := Step(g1, Crop(Rect(0, 0, 1, 1)), t);
      && !g1.sourceRect.Empty() && !g2.sourceRect.Empty() && !Step(g2, Crop(Rect(-1, 0, 2, 1)), t).sourceRect.Empty()
      && !Meets(g1, Rect(-1, 0, 2, 1))
  {
    hide NaturalCrop, CroppedRect, Retarget, Ratio;
    var seven, one := Rect(0, 0, 7, 7), Rect(0, 0, 1, 1);
    var g1, g2 := Geometry(seven, 0.0, seven, TopLeft, 10, 10), Geometry(one, 0.0, one, TopLeft, 1, 1);
    SmallCrops();
    SmallRetarget();
    SmallRects(t);
    assert Step(StartGeometry(7, 7), Resize(10, 10), t) == g1;
    assert Step(g1, Crop(one), t) == g2;
  }

  lemma SmallRects(t: Trig)
    ensures var seven, one := Rect(0, 0, 7, 7), Rect(0, 0, 1, 1);
      var g1, g2 := Geometry(seven, 0.0, seven, TopLeft, 10, 10), Geometry(one, 0.0, one, TopLeft, 1, 1);
      CroppedRect(g1, one, t) == one && CroppedRect(g2, Rect(-1, 0, 2, 1), t) == one
  {
    hide NaturalCrop, CroppedRect, Shifted, Intersect;
    SmallCrops();
    var seven, one := Rect(0, 0, 7, 7), Rect(0, 0, 1, 1);
    IntersectIs(one, seven, one);
    IntersectIs(Rect(-1, 0, 2, 1), one, one);
    UprightCrop(Geometry(seven, 0.0, seven, TopLeft, 10, 10), one, t);
    UprightCrop(Geometry(one, 0.0, one, TopLeft, 1, 1), Rect(-1, 0, 2, 1), t);
    ShiftedNowhere(one, seven);
    ShiftedNowhere(Rect(-1, 0, 2, 1), one);
  }

  lemma IntersectIs(a: Rect, b: Rect, r: Rect)
    requires !r.Empty() && r.x == Max(a.x, b.x) && r.y == Max(a.y, b.y)
    requires r.Right() == Min(a.Right(), b.Right()) && r.Bottom() == Min(a.Bottom(), b.Bottom())
    ensures Intersect(a, b) == r
  {}

  lemma ShiftedNowhere(r: Rect, origin: Rect)
    requires origin.x == 0 && origin.y == 0
    ensures Shifted(r, origin) == r
  {}

  lemma UprightCrop(g: Geometry, rect: Rect, t: Trig)
    requires g.angle == 0.0 && g.orientation == TopLeft
    ensures CroppedRect(g, rect, t) == Intersect(Shifted(NaturalCrop(g, rect), g.sourceRect), g.sourceRect)
  {
    hide NaturalCrop, MapRectBack;
    UprightBack(NaturalCrop(g, rect), g.sourceRect.width, g.sourceRect.height);
  }

  lemma UprightBack(r: Rect, w: int, h: int)
    requires !r.Empty()
    ensures MapRectBack(r, TopLeft, w, h) == r
  {}

  lemma SmallRetarget()
    ensures Retarget(1, Ratio(7, 10)) == 1
  {
    assert Ratio(7, 10) == 0.7;
  }

  lemma SmallCrops()
    ensures var seven, one := Rect(0, 0, 7, 7), Rect(0, 0, 1, 1);
      var g1, g2 := Geometry(seven, 0.0, seven, TopLeft, 10, 10), Geometry(one, 0.0, one, TopLeft, 1, 1);
      && NaturalCrop(g1, one) == one && NaturalCrop(g1, Rect(-1, 0, 2, 1)) == Rect(-1, 0, 1, 1)
      && NaturalCrop(g2, Rect(-1, 0, 2, 1)) == Rect(-1, 0, 2, 1)
  {
    assert Ratio(7, 10) == 0.7;
    assert Ratio(1, 1) == 1.0;
    assert LRound(0.0) == 0 && LRound(0.7) == 1 && LRound(-0.7) == -1 && LRound(1.4) == 1;
    assert LRound(-1.0) == -1 && LRound(2.0) == 2 && LRound(1.0) == 1;
  }

  // ------------------------------------------------------- replacing the top

  /** The raw development in effect: the last one asked for. */
  function RawOf(ops: seq<Operation>): RawSettings {
    if ops == [] then CAMERA_BALANCE
    else if ops[|ops| - 1].DevelopRaw? then ops[|ops| - 1].settings
    else RawOf(ops[..|ops| - 1])
  }

  const CAMERA_BALANCE := RawSettings(false, 6500.0, 0.0)

  method FoldRawSettings(ops: seq<Operation>) returns (settings: RawSettings)
    ensures settings == RawOf(ops)
  {
    settings := CAMERA_BALANCE;
    for k := 0 to |ops|
      invariant settings == RawOf(ops[..k])
    {
      assert ops[..k + 1][..k] == ops[..k];
      if ops[k].DevelopRaw? { settings := ops[k].settings; }
    }
    assert ops[..|ops|] == ops;
  }

  /** Operations that say what a value is, not how to change it. */
  predicate Absolute(op: Operation) {
    op.Straighten? || op.Resize? || op.DevelopRaw? || L.IsSetter(op)
  }

  /**
   * For the absolute kinds, a gesture that rewrites the entry on top means what
   * appending every frame of it would have meant; for a layer setting, exactly
   * when the rewritten entry can be dropped.
   */
  lemma ReplaceTopIsAppend(h: History, op: Operation, p: Photo)
    requires p.Valid() && InRange(h) && Replaces(h, op, true) && Absolute(op)
    ensures var replaced, appended := Active(Applied(h, op, true)), Active(Applied(h, op, false));
      && GeometryOf(replaced, p) == GeometryOf(appended, p)
      && RawOf(replaced) == RawOf(appended)
      && (L.Replay(replaced) == L.Replay(appended)
          <==> (L.IsSetter(op) ==> L.Replaceable(L.Replay(Under(h)), h.entries[h.cursor - 1].op, op)))
  {
    hide Step, GeometryOf, L.Step, L.Replay, L.Replaceable, Active, Applied, Under, RawOf, Absolute;
    var top := h.entries[h.cursor - 1].op;
    BothLists(h, op);
    FoldLast(Under(h), op, p);
    FoldLast(Under(h), top, p);
    FoldLast(Under(h) + [top], op, p);
    AbsoluteTwice(GeometryOf(Under(h), p), top, op, p.trig);
    RawLast(Under(h), op);
    RawLast(Under(h), top);
    RawLast(Under(h) + [top], op);
    ReplaceTopLayers(Under(h), top, op);
  }

  lemma BothLists(h: History, op: Operation)
    requires InRange(h) && Replaces(h, op, true)
    ensures Active(Applied(h, op, true)) == Under(h) + [op]
    ensures Active(Applied(h, op, false)) == Under(h) + [h.entries[h.cursor - 1].op] + [op]
  {
    hide Ops;
    var n, top := h.cursor - 1, h.entries[h.cursor - 1];
    var replaced, appended := Applied(h, op, true), Applied(h, op, false);
    assert replaced.entries[..replaced.cursor] == h.entries[..n] + [Entry(top.id, op)];
    assert appended.entries[..appended.cursor] == h.entries[..n] + [top] + [Entry(h.nextId, op)];
    OpsAppend(h.entries[..n], Entry(top.id, op));
    OpsAppend(h.entries[..n], top);
    OpsAppend(h.entries[..n] + [top], Entry(h.nextId, op));
  }

  lemma AbsoluteTwice(g: Geometry, first: Operation, second: Operation, t: Trig)
    requires TrigOk(t) && Absolute(second) && L.SameKind(first, second)
    ensures Step(Step(g, first, t), second, t) == Step(g, second, t)
  {
    hide InscribedFrame, CroppedRect;
  }

  lemma RawLast(ops: seq<Operation>, op: Operation)
    ensures RawOf(ops + [op]) == if op.DevelopRaw? then op.settings else RawOf(ops)
  {
    assert (ops + [op])[..|ops|] == ops;
  }

  lemma LayersLast(ops: seq<Operation>, op: Operation)
    ensures L.Replay(ops + [op]) == L.Step(L.Replay(ops), op)
  {
    assert (ops + [op])[..|ops|] == ops;
  }

  lemma ReplaceTopLayers(under: seq<Operation>, top: Operation, op: Operation)
    requires Absolute(op) && L.SameKind(top, op)
    ensures L.Replay(under + [op]) == L.Replay(under + [top] + [op])
       <==> (L.IsSetter(op) ==> L.Replaceable(L.Replay(under), top, op))
  {
    hide L.Step, L.Replay, L.Replaceable;
    LayersLast(under, op);
    LayersLast(under, top);
    LayersLast(under + [top], op);
    if L.IsSetter(op) {
      L.ReplayWellFormed(under);
      L.ReplaceTopLayers(L.Replay(under), top, op);
    } else {
      NotALayerStep(L.Replay(under), op);
      NotALayerStep(L.Replay(under), top);
    }
  }

  lemma NotALayerStep(s: L.Stack, op: Operation)
    requires Absolute(op) && !L.IsSetter(op)
    ensures L.Step(s, op) == s
  {}
}
