/**
 * Which points a cleaned curve keeps, said of the points that were given: everything in it
 * was given or is an end, and everything that was given is in it, crowded out, or too many.
 */
module KeptPoints {
  import opened Operations
  import opened ToneCurves

  /** On the nearest edge of the unit range when it is outside. */
  predicate Brought(got: real, given: real) {
    && 0.0 <= got <= 1.0 && (0.0 <= given <= 1.0 ==> got == given)
    && (given < 0.0 ==> got == 0.0) && (given > 1.0 ==> got == 1.0)
  }

  /** A finite point of the list, brought into the square. */
  ghost predicate Given(raw: seq<RawPoint>, p: CurvePoint) {
    exists k :: 0 <= k < |raw| && raw[k].x.Finite? && raw[k].y.Finite?
      && Brought(p.x, raw[k].x.value) && Brought(p.y, raw[k].y.value)
  }

  lemma {:induction false} ClampedIsGiven(raw: seq<RawPoint>, p: CurvePoint)
    ensures p in Clamped(raw) <==> Given(raw, p)
  {
    if raw != [] {
      var n := |raw| - 1;
      ClampedIsGiven(raw[..n], p);
      GivenGrows(raw, p);
      if IsFinite(raw[n]) { BroughtIs(p, raw[n]); }
    }
  }

  lemma GivenGrows(raw: seq<RawPoint>, p: CurvePoint)
    requires raw != []
    ensures var last := raw[|raw| - 1];
      Given(raw, p)
      <==> (Given(raw[..|raw| - 1], p)
            || (last.x.Finite? && last.y.Finite? && Brought(p.x, last.x.value) && Brought(p.y, last.y.value)))
  {
    var n := |raw| - 1;
    if Given(raw[..n], p) {
      var k :| 0 <= k < n && raw[..n][k].x.Finite? && raw[..n][k].y.Finite?
        && Brought(p.x, raw[..n][k].x.value) && Brought(p.y, raw[..n][k].y.value);
      assert raw[k] == raw[..n][k];
    }
    if Given(raw, p) {
      var k :| 0 <= k < |raw| && raw[k].x.Finite? && raw[k].y.Finite?
        && Brought(p.x, raw[k].x.value) && Brought(p.y, raw[k].y.value);
      if k < n { assert raw[..n][k] == raw[k]; }
    }
  }

  lemma BroughtIs(p: CurvePoint, r: RawPoint)
    requires IsFinite(r)
    ensures Brought(p.x, r.x.value) && Brought(p.y, r.y.value) <==> p == IntoSquare(r)
  {}

  lemma SortedHas(c: Curve, p: CurvePoint)
    ensures p in Sorted(c) <==> p in c
  {
    SortIsStable(c, 0.0);
    assert (p in Sorted(c)) == (p in multiset(Sorted(c))) && (p in c) == (p in multiset(c));
  }

  /** Kept, or close behind a kept point, or to the right of as many as there is room for. */
  ghost predicate Accounted(t: Curve, p: CurvePoint) {
    || p in t
    || (exists q :: q in t && 0.0 <= p.x - q.x < 1.0 / 255.0)
    || (|t| == 14 && forall q | q in t :: q.x <= p.x)
  }

  lemma {:induction false} ThinnedAccounts(c: Curve, p: CurvePoint)
    requires Ordered(c) && p in c
    ensures Accounted(Thinned(c), p)
  {
    hide Accounted, Ordered;
    var n := |c| - 1;
    var kept, last := Thinned(c[..n]), c[n];
    assert c == c[..n] + [last];
    assert Ordered(c[..n]) by { OrderedStart(c); }
    KeptToTheLeft(c);
    if p in c[..n] {
      ThinnedAccounts(c[..n], p);
      StillAccounted(kept, last, p);
    } else {
      LastAccounts(kept, last);
    }
  }

  lemma OrderedStart(c: Curve)
    requires Ordered(c) && c != []
    ensures Ordered(c[..|c| - 1])
  {}

  lemma KeptToTheLeft(c: Curve)
    requires Ordered(c) && c != []
    ensures forall q | q in Thinned(c[..|c| - 1]) :: q.x <= c[|c| - 1].x
    ensures |Thinned(c[..|c| - 1])| <= 14
  {
    hide Thinned;
    var n := |c| - 1;
    ThinnedIs(c[..n]);
    forall q | q in Thinned(c[..n]) ensures q.x <= c[n].x {
      assert q in c[..n];
      var k :| 0 <= k < n && c[..n][k] == q;
      assert c[k] == q;
    }
  }

  lemma LastAccounts(kept: Curve, last: CurvePoint)
    requires |kept| <= 14 && forall q | q in kept :: q.x <= last.x
    ensures Accounted(if |kept| == MAX_POINTS - 2 || TooClose(kept, last) then kept else kept + [last], last)
  {
    if |kept| < 14 && TooClose(kept, last) { assert kept[|kept| - 1] in kept; }
  }

  lemma StillAccounted(kept: Curve, next: CurvePoint, p: CurvePoint)
    requires Accounted(kept, p)
    ensures |kept| != 14 ==> Accounted(kept + [next], p)
  {
    if q :| q in kept && 0.0 <= p.x - q.x < 1.0 / 255.0 { assert q in kept + [next]; }
  }

  /**
   * A cleaned curve is the kept points `t`, with an end put on either side that lacks one.
   * They stand apart, every one of them was given, and every given point is accounted for.
   */
  lemma CleanKeeps(raw: seq<RawPoint>) returns (t: Curve)
    ensures |t| <= 14 && forall i, j | 0 <= i < j < |t| :: t[j].x - t[i].x >= 1.0 / 255.0
    ensures forall p | p in t :: Given(raw, p)
    ensures forall p: CurvePoint | Given(raw, p) :: Accounted(t, p)
    ensures Clean(raw) == if t == [] then [] else
      (if t[0].x > 0.0 then [CurvePoint(0.0, 0.0)] else []) + t
      + (if t[|t| - 1].x < 1.0 then [CurvePoint(1.0, 1.0)] else [])
  {
    hide Clamped, Sorted, Thinned, Accounted, Given;
    t := CleanIs(raw);
    var c := Sorted(Clamped(raw));
    SortIsStable(Clamped(raw), 0.0);
    ThinnedIs(c);
    forall p | p in t ensures Given(raw, p) {
      SortedHas(Clamped(raw), p);
      ClampedIsGiven(raw, p);
    }
    forall p: CurvePoint | Given(raw, p) ensures Accounted(t, p) {
      ClampedIsGiven(raw, p);
      SortedHas(Clamped(raw), p);
      ThinnedAccounts(c, p);
    }
    EndsAround(t);
  }

  lemma EndsAround(t: Curve)
    ensures WithEnds(t) == if t == [] then [] else
      (if t[0].x > 0.0 then [CurvePoint(0.0, 0.0)] else []) + t
      + (if t[|t| - 1].x < 1.0 then [CurvePoint(1.0, 1.0)] else [])
  {}
}
