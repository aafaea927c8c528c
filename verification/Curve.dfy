/**
 * Tone curves as control points, and the form everything downstream assumes.
 */
module ToneCurves {
  import opened Operations

  /** A coordinate as it arrives: a number, or one of the values that are not finite. */
  datatype Coordinate = Finite(value: real) | NotFinite
  datatype RawPoint = RawPoint(x: Coordinate, y: Coordinate)

  const MIN_SPACING: real := 1.0 / 255.0
  const MAX_POINTS: nat := 16

  function AsRaw(c: Curve): (r: seq<RawPoint>)
    ensures |r| == |c| && forall k | 0 <= k < |r| :: r[k] == RawPoint(Finite(c[k].x), Finite(c[k].y))
  {
    if c == [] then [] else AsRaw(c[..|c| - 1]) + [RawPoint(Finite(c[|c| - 1].x), Finite(c[|c| - 1].y))]
  }

  // ------------------------------------------------------------- the passes

  predicate IsFinite(p: RawPoint) { p.x.Finite? && p.y.Finite? }

  function IntoSquare(p: RawPoint): CurvePoint
    requires IsFinite(p)
  {
    CurvePoint(Clamp(p.x.value, 0.0, 1.0), Clamp(p.y.value, 0.0, 1.0))
  }

  function Clamped(raw: seq<RawPoint>): Curve {
    if raw == [] then [] else
    var rest, p := Clamped(raw[..|raw| - 1]), raw[|raw| - 1];
    if IsFinite(p) then rest + [IntoSquare(p)] else rest
  }

  /** Puts a point after every one that is not to its right. */
  function Inserted(c: Curve, p: CurvePoint): (r: Curve) {
    if c == [] then [p]
    else if c[|c| - 1].x <= p.x then c + [p]
    else Inserted(c[..|c| - 1], p) + [c[|c| - 1]]
  }

  /** The order a stable sort by x leaves; see SortIsStable. */
  function Sorted(c: Curve): Curve {
    if c == [] then [] else Inserted(Sorted(c[..|c| - 1]), c[|c| - 1])
  }

  predicate TooClose(kept: Curve, p: CurvePoint) {
    kept != [] && p.x - kept[|kept| - 1].x < MIN_SPACING
  }

  /** Drops points that crowd the last one kept, and stops when only the ends still fit. */
  function Thinned(c: Curve): Curve {
    if c == [] then [] else
    var kept, p := Thinned(c[..|c| - 1]), c[|c| - 1];
    if |kept| == MAX_POINTS - 2 || TooClose(kept, p) then kept else kept + [p]
  }

  const START := CurvePoint(0.0, 0.0)
  const END := CurvePoint(1.0, 1.0)

  /** The ends are filled in with the identity. */
  function WithStart(c: Curve): Curve { if c != [] && c[0].x > 0.0 then [START] + c else c }
  function WithEnd(c: Curve): Curve { if c != [] && c[|c| - 1].x < 1.0 then c + [END] else c }
  function WithEnds(c: Curve): Curve { WithEnd(WithStart(c)) }

  function Clean(raw: seq<RawPoint>): Curve {
    WithEnds(Thinned(Sorted(Clamped(raw))))
  }

  function Cleaned(c: Curve): Curve { Clean(AsRaw(c)) }

  method Sanitise(points: seq<RawPoint>) returns (result: Curve)
    ensures result == Clean(points)
  {
    hide Clamped, Thinned, Sorted, IntoSquare, IsFinite, TooClose;
    result := [];
    assert Clamped([]) == [] && Thinned([]) == [] by { NothingCleaned(); }
    for k := 0 to |points|
      invariant result == Clamped(points[..k])
    {
      ClampedNext(points, k);
      if IsFinite(points[k]) { result := result + [IntoSquare(points[k])]; }
    }
    assert points[..|points|] == points;
    var sorted := Sorted(result);
    result := [];
    for k := 0 to |sorted|
      invariant result == Thinned(sorted[..k]) && |result| < MAX_POINTS - 2
    {
      ThinnedNext(sorted, k);
      if TooClose(result, sorted[k]) { continue; }
      result := result + [sorted[k]];
      if |result| == MAX_POINTS - 2 {
        ThinnedFull(sorted, k + 1);
        break;
      }
    }
    assert sorted[..|sorted|] == sorted;
    if result == [] { return; }
    if result[0].x > 0.0 { result := [START] + result; }
    if result[|result| - 1].x < 1.0 { result := result + [END]; }
  }

  lemma NothingCleaned()
    ensures Clamped([]) == [] && Thinned([]) == [] && WithEnds([]) == []
  {}

  lemma ClampedNext(points: seq<RawPoint>, k: nat)
    requires k < |points|
    ensures Clamped(points[..k + 1])
         == Clamped(points[..k]) + (if IsFinite(points[k]) then [IntoSquare(points[k])] else [])
  {
    assert points[..k + 1][..k] == points[..k];
  }

  lemma ThinnedNext(c: Curve, k: nat)
    requires k < |c|
    ensures var kept := Thinned(c[..k]);
      Thinned(c[..k + 1]) == if |kept| == MAX_POINTS - 2 || TooClose(kept, c[k]) then kept else kept + [c[k]]
  {
    assert c[..k + 1][..k] == c[..k];
  }

  lemma {:induction false} ThinnedFull(c: Curve, k: nat)
    requires k <= |c| && |Thinned(c[..k])| == MAX_POINTS - 2
    ensures Thinned(c) == Thinned(c[..k])
  {
    if k < |c| {
      assert c[..|c| - 1][..k] == c[..k];
      ThinnedFull(c[..|c| - 1], k);
    } else {
      assert c[..k] == c;
    }
  }

  // ---------------------------------------------------------- what they keep

  ghost predicate InSquare(c: Curve) {
    forall k | 0 <= k < |c| :: 0.0 <= c[k].x <= 1.0 && 0.0 <= c[k].y <= 1.0
  }

  ghost predicate Ordered(c: Curve) {
    forall i, j | 0 <= i < j < |c| :: c[i].x <= c[j].x
  }

  ghost predicate Increasing(c: Curve) {
    forall i, j | 0 <= i < j < |c| :: c[i].x < c[j].x
  }

  ghost predicate Spaced(c: Curve) {
    forall i, j | 0 <= i < j < |c| :: c[j].x - c[i].x >= MIN_SPACING
  }

  lemma {:induction false} ClampedInSquare(raw: seq<RawPoint>)
    ensures InSquare(Clamped(raw))
  {
    if raw != [] { ClampedInSquare(raw[..|raw| - 1]); }
  }

  lemma {:induction false} ClampedKeeps(c: Curve)
    requires InSquare(c)
    ensures Clamped(AsRaw(c)) == c
  {
    if c != [] {
      ClampedKeeps(c[..|c| - 1]);
      assert AsRaw(c)[..|c| - 1] == AsRaw(c[..|c| - 1]);
    }
  }

  /** The points at one x, in the order they stand. */
  ghost function At(c: Curve, x: real): Curve {
    if c == [] then [] else At(c[..|c| - 1], x) + (if c[|c| - 1].x == x then [c[|c| - 1]] else [])
  }

  lemma {:induction false} InsertedOrdered(c: Curve, p: CurvePoint)
    requires Ordered(c)
    ensures Ordered(Inserted(c, p)) && multiset(Inserted(c, p)) == multiset(c) + multiset{p}
  {
    if c != [] {
      var n := |c| - 1;
      assert c == c[..n] + [c[n]];
      if c[n].x > p.x {
        InsertedOrdered(c[..n], p);
        InsertedMax(c, p);
      }
    }
  }

  lemma {:induction false} InsertedAt(c: Curve, p: CurvePoint, x: real)
    requires Ordered(c)
    ensures At(Inserted(c, p), x) == At(c, x) + (if p.x == x then [p] else [])
  {
    hide At;
    if c == [] || c[|c| - 1].x <= p.x {
      AtLast(c, p, x);
      if c == [] { assert [] + [p] == [p]; }
    } else {
      var n := |c| - 1;
      InsertedAt(c[..n], p, x);
      AtLast(Inserted(c[..n], p), c[n], x);
      assert c == c[..n] + [c[n]];
      AtLast(c[..n], c[n], x);
    }
  }

  lemma AtLast(c: Curve, p: CurvePoint, x: real)
    ensures At(c + [p], x) == At(c, x) + (if p.x == x then [p] else [])
  {
    assert (c + [p])[..|c|] == c;
  }

  lemma InsertedMax(c: Curve, p: CurvePoint)
    requires c != [] && Ordered(c) && c[|c| - 1].x > p.x
    requires var rest := Inserted(c[..|c| - 1], p);
      Ordered(rest) && multiset(rest) == multiset(c[..|c| - 1]) + multiset{p}
    ensures Ordered(Inserted(c, p)) && |Inserted(c, p)| == |c| + 1
  {
    var rest := Inserted(c[..|c| - 1], p);
    assert |multiset(rest)| == |c|;
    forall k | 0 <= k < |rest| ensures rest[k].x <= c[|c| - 1].x {
      assert rest[k] in multiset(rest);
    }
  }

  /** In order of x, the same points, and points at the same x as they were given. */
  lemma {:induction false} SortIsStable(c: Curve, x: real)
    ensures Ordered(Sorted(c)) && multiset(Sorted(c)) == multiset(c) && At(Sorted(c), x) == At(c, x)
  {
    if c != [] {
      assert c == c[..|c| - 1] + [c[|c| - 1]];
      SortIsStable(c[..|c| - 1], x);
      InsertedOrdered(Sorted(c[..|c| - 1]), c[|c| - 1]);
      InsertedAt(Sorted(c[..|c| - 1]), c[|c| - 1], x);
    }
  }

  lemma {:induction false} SortedKeeps(c: Curve)
    requires Ordered(c)
    ensures Sorted(c) == c
  {
    if c != [] { SortedKeeps(c[..|c| - 1]); }
  }

  lemma SortedInSquare(c: Curve)
    requires InSquare(c)
    ensures InSquare(Sorted(c)) && Ordered(Sorted(c)) && |Sorted(c)| == |c|
  {
    SortIsStable(c, 0.0);
    assert |multiset(Sorted(c))| == |c|;
    forall k | 0 <= k < |Sorted(c)| ensures Sorted(c)[k] in c {
      assert Sorted(c)[k] in multiset(Sorted(c));
    }
  }

  /** What is kept is spaced, starts where the points start, and leaves room for the ends. */
  lemma {:induction false} ThinnedIs(c: Curve)
    requires Ordered(c)
    ensures Spaced(Thinned(c)) && |Thinned(c)| <= MAX_POINTS - 2 && (forall p | p in Thinned(c) :: p in c)
    ensures c != [] ==> Thinned(c) != [] && Thinned(c)[0] == c[0]
  {
    if c != [] { ThinnedIs(c[..|c| - 1]); }
  }

  lemma {:induction false} ThinnedKeeps(c: Curve)
    requires Spaced(c) && |c| <= MAX_POINTS - 2
    ensures Thinned(c) == c
  {
    hide TooClose;
    if c != [] {
      var n := |c| - 1;
      ThinnedKeeps(c[..n]);
      FarEnough(c, n);
      ThinnedLast(c);
    }
  }

  lemma FarEnough(c: Curve, n: nat)
    requires Spaced(c) && n < |c|
    ensures !TooClose(c[..n], c[n])
  {
    if n > 0 { assert c[..n][n - 1] == c[n - 1]; }
  }

  /** The thinned points of a curve in the square, whatever they came from. */
  ghost predicate Thin(c: Curve) {
    InSquare(c) && Spaced(c) && |c| <= MAX_POINTS - 2
  }

  lemma CleanIs(raw: seq<RawPoint>) returns (t: Curve)
    ensures Thin(t) && Clean(raw) == WithEnds(t) && t == Thinned(Sorted(Clamped(raw)))
  {
    var c := Clamped(raw);
    t := Thinned(Sorted(c));
    ClampedInSquare(raw);
    SortedInSquare(c);
    ThinnedIs(Sorted(c));
    SomeInSquare(t, Sorted(c));
  }

  lemma SomeInSquare(some: Curve, c: Curve)
    requires InSquare(c) && forall p | p in some :: p in c
    ensures InSquare(some)
  {
    forall k | 0 <= k < |some| ensures 0.0 <= some[k].x <= 1.0 && 0.0 <= some[k].y <= 1.0 {
      assert some[k] in some;
    }
  }

  /** What a cleaned curve looks like: empty, or from end to end, strictly to the right, within the square. */
  ghost predicate Shaped(c: Curve) {
    c == [] || (2 <= |c| <= MAX_POINTS && Increasing(c) && InSquare(c) && c[0].x == 0.0 && c[|c| - 1].x == 1.0)
  }

  lemma EndsShaped(t: Curve)
    requires Thin(t)
    ensures Shaped(WithEnds(t))
  {
    if t != [] {
      StartShaped(t);
      EndShaped(WithStart(t));
    }
  }

  lemma StartShaped(t: Curve)
    requires Increasing(t) && InSquare(t) && t != []
    ensures var r := WithStart(t);
      Increasing(r) && InSquare(r) && |t| <= |r| <= |t| + 1 && r[0].x == 0.0 && r[|r| - 1] == t[|t| - 1]
      && (t[0].x == 0.0 ==> r == t) && (t[0].x > 0.0 ==> r == [START] + t)
  {}

  lemma EndShaped(t: Curve)
    requires Increasing(t) && InSquare(t) && t != [] && t[0].x == 0.0
    ensures var r := WithEnd(t);
      Increasing(r) && InSquare(r) && 2 <= |r| <= |t| + 1 && r[0] == t[0] && r[|r| - 1].x == 1.0
      && (t[|t| - 1].x < 1.0 ==> r == t + [END]) && (t[|t| - 1].x == 1.0 ==> r == t)
  {}

  /** Holds of every list of points, finite or not. */
  lemma CleanShaped(raw: seq<RawPoint>)
    ensures Shaped(Clean(raw))
  {
    hide Clean, WithEnds;
    var t := CleanIs(raw);
    EndsShaped(t);
  }

  /** A shaped curve is only thinned again, and given its ends again. */
  lemma CleanedShaped(c: Curve)
    requires Shaped(c)
    ensures Cleaned(c) == WithEnds(Thinned(c))
  {
    ClampedKeeps(c);
    SortedKeeps(c);
  }

  // ------------------------------------------------------- cleaning settles

  /** Thinned points that begin at zero come back as they are. */
  lemma FromZeroSettled(t: Curve)
    requires Thin(t) && (t == [] || t[0].x == 0.0)
    ensures Cleaned(WithEnds(t)) == WithEnds(t)
  {
    hide Cleaned, Thinned, WithEnd, TooClose;
    NothingCleaned();
    EndsShaped(t);
    CleanedShaped(WithEnds(t));
    ThinnedKeeps(t);
    if t != [] {
      EndShaped(t);
      if t[|t| - 1].x < 1.0 {
        assert (t + [END])[..|t|] == t;
        ThinnedLast(t + [END]);
        EndShaped(t + [END]);
      }
    }
  }

  lemma ThinnedLast(c: Curve)
    requires c != []
    ensures var kept, p := Thinned(c[..|c| - 1]), c[|c| - 1];
      Thinned(c) == if |kept| == MAX_POINTS - 2 || TooClose(kept, p) then kept else kept + [p]
  {}

  /** The first cleaning pass, and the next, of any points. */
  lemma SecondIs(raw: seq<RawPoint>) returns (u: Curve)
    ensures Thin(u) && (u == [] || u[0].x == 0.0) && Cleaned(Clean(raw)) == WithEnds(u) && u == Thinned(Clean(raw))
  {
    hide Cleaned, Clean, Thinned;
    var once := Clean(raw);
    CleanShaped(raw);
    CleanedShaped(once);
    u := Thinned(once);
    ThinnedIs(once);
    SomeInSquare(u, once);
    NothingCleaned();
  }

  /** A second cleaning settles every curve: a third changes nothing. */
  lemma CleaningSettles(raw: seq<RawPoint>)
    ensures Cleaned(Cleaned(Clean(raw))) == Cleaned(Clean(raw))
  {
    hide Cleaned, Clean, Thinned, WithEnds;
    var u := SecondIs(raw);
    FromZeroSettled(u);
  }

  function CleanedTimes(c: Curve, n: nat): Curve {
    if n == 0 then c else Cleaned(CleanedTimes(c, n - 1))
  }

  lemma {:induction false} CleanedForGood(raw: seq<RawPoint>, n: nat)
    ensures n > 0 ==> CleanedTimes(Clean(raw), n) == Cleaned(Clean(raw))
  {
    if n > 1 {
      CleanedForGood(raw, n - 1);
      CleaningSettles(raw);
    }
  }

  /** When one pass is enough: no end was put beside a point too close, and none beyond the room for points. */
  predicate SettledAtOnce(t: Curve) {
    t == [] || t[0].x == 0.0
    || (t[0].x >= MIN_SPACING && (|t| < MAX_POINTS - 2 || t[|t| - 1] == END))
  }

  /** Cleaning twice is cleaning once exactly then. */
  lemma SettledIff(raw: seq<RawPoint>)
    ensures Cleaned(Clean(raw)) == Clean(raw) <==> SettledAtOnce(Thinned(Sorted(Clamped(raw))))
  {
    hide Cleaned, Clean, Thinned, Sorted, Clamped, WithEnds, SettledAtOnce;
    var t := CleanIs(raw);
    ThinSettledIff(t);
  }

  lemma ThinSettledIff(t: Curve)
    requires Thin(t)
    ensures Cleaned(WithEnds(t)) == WithEnds(t) <==> SettledAtOnce(t)
  {
    hide Cleaned, Thinned, WithEnds;
    if t == [] || t[0].x == 0.0 {
      FromZeroSettled(t);
    } else if t[0].x < MIN_SPACING {
      CrowdedUnsettled(t);
    } else {
      ZeroPrepended(t);
      EndsShaped(t);
      CleanedShaped(WithEnds(t));
      var u := [START] + t;
      if |t| < MAX_POINTS - 2 {
        EndsFromZero(t);
        FromZeroSettled(u);
      } else {
        FullUnsettled(t);
      }
    }
  }

  lemma ZeroPrepended(t: Curve)
    requires Thin(t) && t != [] && t[0].x >= MIN_SPACING
    ensures var u := [START] + t; Spaced(u) && InSquare(u)
  {}

  lemma EndsFromZero(t: Curve)
    requires t != [] && t[0].x > 0.0
    ensures WithEnds(t) == WithEnds([START] + t)
  {
    hide WithEnd;
  }

  /** The first point is too close to the end put before it: the next pass drops it. */
  lemma CrowdedUnsettled(t: Curve)
    requires Thin(t) && t != [] && 0.0 < t[0].x < MIN_SPACING
    ensures Cleaned(WithEnds(t)) != WithEnds(t)
  {
    hide Cleaned, Thinned;
    var all := WithEnds(t);
    EndsShaped(t);
    CleanedShaped(all);
    ThinnedIs(all);
    assert all[1] == t[0];
    var kept := Thinned(all);
    assert kept[0] == all[0] && kept[0].x == 0.0;
    assert |kept| == 1 || kept[1].x >= MIN_SPACING;
    assert |WithEnds(kept)| > 1 && WithEnds(kept)[1].x != t[0].x;
  }

  /** Fourteen points and an end before them: the next pass has no room for the last. */
  lemma FullUnsettled(t: Curve)
    requires Thin(t) && |t| == MAX_POINTS - 2 && t[0].x >= MIN_SPACING
    requires var u := [START] + t; Spaced(u)
    requires Cleaned(WithEnds(t)) == WithEnds(Thinned(WithEnds(t)))
    ensures Cleaned(WithEnds(t)) == WithEnds(t) <==> t[|t| - 1] == END
  {
    hide Cleaned, Thinned, WithEnd, WithStart;
    var n := MAX_POINTS - 2;
    var u, all := [START] + t, WithEnds(t);
    var first := u[..n];
    StartShaped(t);
    EndShaped(u);
    assert all[..n] == first;
    ThinnedKeeps(first);
    ThinnedFull(all, n);
    StartShaped(first);
    EndShaped(first);
    assert first[n - 1] == t[n - 2] && t[n - 2].x < t[n - 1].x;
    assert u == first + [t[n - 1]];
  }

  /** One pass is not enough for a single point just right of zero. */
  lemma OnePassIsNotEnough()
    ensures var raw := [RawPoint(Finite(0.001), Finite(0.5))];
      Clean(raw) == [START, CurvePoint(0.001, 0.5), END] && Cleaned(Clean(raw)) == [START, END]
  {
    hide Cleaned, Thinned, Sorted, Clamped, WithEnds;
    var b := CurvePoint(0.001, 0.5);
    var raw := [RawPoint(Finite(0.001), Finite(0.5))];
    OnlyPoint(raw[0]);
    OnlyThinned(b);
    CleanShaped(raw);
    CleanedShaped([START, b, END]);
    ThreeThinned(b);
    EndsOf(b);
  }

  lemma OnlyPoint(p: RawPoint)
    requires IsFinite(p)
    ensures Sorted(Clamped([p])) == [IntoSquare(p)]
  {
    hide IntoSquare;
    assert [p][..0] == [];
    var c := [IntoSquare(p)];
    assert Clamped([p]) == c;
    assert c[..0] == [];
  }

  lemma OnlyThinned(b: CurvePoint)
    ensures Thinned([b]) == [b]
  {
    assert [b][..0] == [];
  }

  lemma ThreeThinned(b: CurvePoint)
    requires 0.0 < b.x < MIN_SPACING
    ensures Thinned([START, b, END]) == [START, END]
  {
    hide Thinned;
    var all := [START, b, END];
    assert all[..2] == [START, b] && [START, b][..1] == [START];
    OnlyThinned(START);
    ThinnedLast(all);
    ThinnedLast([START, b]);
  }

  lemma EndsOf(b: CurvePoint)
    requires 0.0 < b.x < 1.0
    ensures WithEnds([b]) == [START, b, END] && WithEnds([START, END]) == [START, END]
  {}
}
