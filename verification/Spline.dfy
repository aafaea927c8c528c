/**
 * The monotone cubic through a cleaned curve: how its slopes are limited, and what sampling it gives.
 */
module Splines {
  import opened Operations
  import opened RealArithmetic
  import opened ToneCurves

  const IDENTITY_TOLERANCE: real := 0.001

  /** The square root, a library function: only what it gives for numbers above nine is used. */
  ghost predicate RootOk(root: real -> real) {
    forall s: real :: s > 9.0 ==> root(s) > 0.0 && root(s) * root(s) == s
  }

  predicate IsIdentity(c: Curve) {
    forall k | 0 <= k < |c| :: Abs(c[k].y - c[k].x) <= IDENTITY_TOLERANCE
  }

  datatype Spline = Spline(identity: bool, points: Curve, tangents: seq<real>)

  // --------------------------------------------------------------- slopes

  function Secant(p: Curve, i: nat): real
    requires Increasing(p) && i + 1 < |p|
  {
    (p[i + 1].y - p[i].y) / (p[i + 1].x - p[i].x)
  }

  function FirstTangent(p: Curve, i: nat): real
    requires Increasing(p) && |p| > 1 && i < |p|
  {
    if i == 0 then Secant(p, 0)
    else if i == |p| - 1 then Secant(p, |p| - 2)
    else 0.5 * (Secant(p, i - 1) + Secant(p, i))
  }

  function FirstTangents(p: Curve, n: nat): (d: seq<real>)
    requires Increasing(p) && |p| > 1 && n <= |p|
    ensures |d| == n && forall i | 0 <= i < n :: d[i] == FirstTangent(p, i)
  {
    if n == 0 then [] else FirstTangents(p, n - 1) + [FirstTangent(p, n - 1)]
  }

  /** The two slopes at the ends of a segment of slope `secant`, pulled back into the circle. */
  function Pulled(secant: real, a: real, b: real, root: real -> real): (real, real)
    requires RootOk(root)
  {
    if secant == 0.0 then (0.0, 0.0)
    else if Squared(a / secant, b / secant) > 9.0 then OnCircle(secant, a / secant, b / secant, root)
    else (a, b)
  }

  function Squared(alpha: real, beta: real): real { alpha * alpha + beta * beta }

  function OnCircle(secant: real, alpha: real, beta: real, root: real -> real): (real, real)
    requires RootOk(root) && Squared(alpha, beta) > 9.0
  {
    var scale := ScaleOf(Squared(alpha, beta), root);
    (scale * alpha * secant, scale * beta * secant)
  }

  function ScaleOf(squared: real, root: real -> real): real
    requires RootOk(root) && squared > 9.0
  {
    3.0 / root(squared)
  }

  function LimitedAt(p: Curve, d: seq<real>, i: nat, root: real -> real): (r: seq<real>)
    requires Increasing(p) && |d| == |p| && i + 1 < |p| && RootOk(root)
    ensures |r| == |d|
  {
    var (a, b) := Pulled(Secant(p, i), d[i], d[i + 1], root);
    d[i := a][i + 1 := b]
  }

  /** The slopes after the limiter has passed the first `k` segments. */
  function Limited(p: Curve, k: nat, root: real -> real): (d: seq<real>)
    requires Increasing(p) && |p| > 1 && k < |p| && RootOk(root)
    ensures |d| == |p|
  {
    if k == 0 then FirstTangents(p, |p|) else LimitedAt(p, Limited(p, k - 1, root), k - 1, root)
  }

  function Build(raw: seq<RawPoint>, root: real -> real): Spline
    requires RootOk(root)
  {
    var c := Clean(raw);
    CleanShaped(raw);
    if IsIdentity(c) || |c| < 2 then Spline(IsIdentity(c), [], []) else Spline(false, c, Limited(c, |c| - 1, root))
  }

  /** What sampling relies on. */
  ghost predicate Ready(s: Spline) {
    s.points != [] ==> Shaped(s.points) && |s.tangents| == |s.points|
  }

  function Segment(p: Curve, x: real, from: nat): (i: nat)
    requires from + 1 < |p|
    ensures from <= i && i + 1 < |p| && (i + 2 < |p| ==> x <= p[i + 1].x) && (i > from ==> x > p[i].x)
    decreases |p| - from
  {
    if from + 2 < |p| && x > p[from + 1].x then Segment(p, x, from + 1) else from
  }

  function Hermite(low: CurvePoint, high: CurvePoint, m0: real, m1: real, x: real): real
    requires low.x < high.x
  {
    var span := high.x - low.x;
    Blend(low.y, high.y, span, m0, m1, (x - low.x) / span)
  }

  /** The four basis functions, at `t` of the way along. */
  function Blend(y0: real, y1: real, span: real, m0: real, m1: real, t: real): real {
    var t2 := t * t;
    var t3 := t2 * t;
    (2.0 * t3 - 3.0 * t2 + 1.0) * y0 + (t3 - 2.0 * t2 + t) * span * m0
    + (-2.0 * t3 + 3.0 * t2) * y1 + (t3 - t2) * span * m1
  }

  function Sample(s: Spline, x: real): real
    requires Ready(s)
  {
    var clamped := Clamp(x, 0.0, 1.0);
    if s.identity || |s.points| < 2 then clamped else
    var i := Segment(s.points, clamped, 0);
    Clamp(Hermite(s.points[i], s.points[i + 1], s.tangents[i], s.tangents[i + 1], clamped), 0.0, 1.0)
  }

  class CurveSpline {
    var identity: bool
    var points: Curve
    var tangents: seq<real>

    function State(): Spline reads this { Spline(identity, points, tangents) }

    constructor (raw: seq<RawPoint>, root: real -> real)
      requires RootOk(root)
      ensures State() == Build(raw, root) && Ready(State())
    {
      hide Clean, Limited, IsIdentity, Increasing, InSquare;
      var clean := ToneCurves.Sanitise(raw);
      CleanShaped(raw);
      var none := IsIdentity(clean) || |clean| < 2;
      var slopes: seq<real> := [];
      if !none { slopes := LimitedTangents(clean, root); }
      identity := IsIdentity(clean);
      points, tangents := if none then [] else clean, slopes;
    }

    static method LimitedTangents(p: Curve, root: real -> real) returns (d: seq<real>)
      requires Increasing(p) && |p| > 1 && RootOk(root)
      ensures d == Limited(p, |p| - 1, root) && |d| == |p|
    {
      hide Pulled, Increasing, RootOk;
      var count := |p|;
      var secants: seq<real> := [];
      for i := 0 to count - 1
        invariant |secants| == i && forall j | 0 <= j < i :: secants[j] == Secant(p, j)
      {
        NextIsRight(p, i);
        secants := secants + [(p[i + 1].y - p[i].y) / (p[i + 1].x - p[i].x)];
      }
      d := [secants[0]];
      for i := 1 to count - 1
        invariant d == FirstTangents(p, i)
      {
        d := d + [0.5 * (secants[i - 1] + secants[i])];
      }
      d := d + [secants[count - 2]];
      for i := 0 to count - 1
        invariant d == Limited(p, i, root)
      {
        var (a, b) := Pulled(secants[i], d[i], d[i + 1], root);
        d := d[i := a][i + 1 := b];
      }
    }

    method At(x: real) returns (y: real)
      requires Ready(State())
      ensures y == Sample(State(), x)
    {
      var clamped := Clamp(x, 0.0, 1.0);
      if identity || |points| < 2 { return clamped; }
      var segment := 0;
      while segment + 2 < |points| && clamped > points[segment + 1].x
        invariant segment + 1 < |points| && Segment(points, clamped, segment) == Segment(points, clamped, 0)
      {
        segment := segment + 1;
      }
      y := Clamp(
        Hermite(points[segment], points[segment + 1], tangents[segment], tangents[segment + 1], clamped), 0.0, 1.0);
    }
  }

  // ------------------------------------------------------- the limiter

  ghost predicate NonDecreasing(p: Curve) {
    forall i, j | 0 <= i < j < |p| :: p[i].y <= p[j].y
  }

  /** Slopes that do not turn the cubic back: the quarter circle of radius three times the secant. */
  predicate InCircle(secant: real, a: real, b: real) {
    a >= 0.0 && b >= 0.0 && a * a + b * b <= 9.0 * (secant * secant)
  }

  lemma SecantSign(p: Curve, i: nat)
    requires Increasing(p) && NonDecreasing(p) && i + 1 < |p|
    ensures Secant(p, i) >= 0.0
  {
    Quotient(p[i + 1].y - p[i].y, p[i + 1].x - p[i].x);
  }

  lemma Quotient(a: real, b: real)
    requires a >= 0.0 && b > 0.0
    ensures a / b >= 0.0
  {}

  lemma FirstTangentSign(p: Curve, i: nat)
    requires Increasing(p) && NonDecreasing(p) && |p| > 1 && i < |p|
    ensures FirstTangent(p, i) >= 0.0
  {
    hide Secant;
    if i > 0 { SecantSign(p, i - 1); }
    if i + 1 < |p| { SecantSign(p, i); }
  }

  lemma OnCircleIs(secant: real, alpha: real, beta: real, root: real -> real)
    requires RootOk(root) && secant > 0.0 && Squared(alpha, beta) > 9.0
    requires alpha * secant >= 0.0 && beta * secant >= 0.0
    ensures var (a, b) := OnCircle(secant, alpha, beta, root);
      InCircle(secant, a, b) && a <= alpha * secant && b <= beta * secant
  {
    hide InCircle, Squared, ScaleOf;
    var squared := Squared(alpha, beta);
    RootAboveThree(root, squared);
    ScaleIs(squared, root);
    var (a, b) := OnCircle(secant, alpha, beta, root);
    ScaledInCircle(secant, alpha, beta, root(squared), ScaleOf(squared, root), a, b);
  }

  lemma ScaledInCircle(secant: real, alpha: real, beta: real, r: real, scale: real, a: real, b: real)
    requires secant > 0.0 && alpha * secant >= 0.0 && beta * secant >= 0.0
    requires r * r == Squared(alpha, beta) && scale * r == 3.0 && 0.0 < scale < 1.0
    requires a == scale * alpha * secant && b == scale * beta * secant
    ensures InCircle(secant, a, b) && a <= alpha * secant && b <= beta * secant
  {
    Shrunk(scale, alpha, secant, a);
    Shrunk(scale, beta, secant, b);
    ScaledSquares(scale, secant, alpha, beta, r, a, b);
  }

  lemma Shrunk(scale: real, alpha: real, secant: real, a: real)
    requires 0.0 < scale < 1.0 && alpha * secant >= 0.0 && a == scale * alpha * secant
    ensures 0.0 <= a <= alpha * secant
  {
    NotNegative(scale, alpha * secant);
    NotNegative(1.0 - scale, alpha * secant);
  }

  lemma ScaleIs(squared: real, root: real -> real)
    requires RootOk(root) && squared > 9.0 && root(squared) > 3.0
    ensures ScaleOf(squared, root) * root(squared) == 3.0 && 0.0 < ScaleOf(squared, root) < 1.0
  {
    Fraction(3.0, root(squared));
  }

  lemma Fraction(a: real, r: real)
    requires 0.0 < a < r
    ensures a / r * r == a && 0.0 < a / r < 1.0
  {
    var q := a / r;
    assert q * r == a;
    if q >= 1.0 { NotNegative(q - 1.0, r); }
  }

  lemma ScaledSquares(scale: real, secant: real, alpha: real, beta: real, r: real, a: real, b: real)
    requires scale * r == 3.0 && r * r == Squared(alpha, beta)
    requires a == scale * alpha * secant && b == scale * beta * secant
    ensures a * a + b * b == 9.0 * (secant * secant)
  {
    assert a * a == (scale * scale) * (alpha * alpha) * (secant * secant);
    assert b * b == (scale * scale) * (beta * beta) * (secant * secant);
    assert a * a + b * b == (scale * scale) * (r * r) * (secant * secant);
    assert (scale * scale) * (r * r) == (scale * r) * (scale * r);
  }

  /** Pulling a pair back puts it in the circle, and only shrinks it. */
  lemma PulledInCircle(secant: real, a: real, b: real, root: real -> real)
    requires RootOk(root) && secant >= 0.0 && a >= 0.0 && b >= 0.0
    ensures var (a', b') := Pulled(secant, a, b, root);
      InCircle(secant, a', b') && a' <= a && b' <= b
  {
    hide InCircle, OnCircle, Squared;
    if secant > 0.0 {
      DividesBack(a, secant);
      DividesBack(b, secant);
      if Squared(a / secant, b / secant) > 9.0 {
        OnCircleIs(secant, a / secant, b / secant, root);
      } else {
        InsideAlready(secant, a, b);
      }
    } else {
      assert InCircle(0.0, 0.0, 0.0) by { ZeroInCircle(); }
    }
  }

  lemma ZeroInCircle()
    ensures InCircle(0.0, 0.0, 0.0)
  {}

  lemma DividesBack(a: real, b: real)
    requires b > 0.0
    ensures a / b * b == a
  {}

  lemma RootAboveThree(root: real -> real, s: real)
    requires RootOk(root) && s > 9.0
    ensures root(s) > 3.0 && root(s) * root(s) == s
  {
    AboveThree(root(s), s);
  }

  lemma AboveThree(r: real, s: real)
    requires r > 0.0 && r * r == s > 9.0
    ensures r > 3.0
  {
    if r <= 3.0 { NotNegative(3.0 - r, 3.0 + r); }
  }

  lemma InsideAlready(secant: real, a: real, b: real)
    requires secant > 0.0 && a >= 0.0 && b >= 0.0
    requires Squared(a / secant, b / secant) <= 9.0
    ensures InCircle(secant, a, b)
  {
    var alpha, beta := a / secant, b / secant;
    assert alpha * secant == a && beta * secant == b;
    assert a * a + b * b == (alpha * alpha + beta * beta) * (secant * secant);
    assert secant * secant > 0.0;
  }

  lemma ShrunkInCircle(secant: real, a: real, b: real, b': real)
    requires InCircle(secant, a, b) && 0.0 <= b' <= b
    ensures InCircle(secant, a, b')
  {
    assert b' * b' <= b * b;
  }

  /** After the limiter has passed a segment, later passes leave that segment inside its circle. */
  lemma {:induction false} LimiterHolds(p: Curve, k: nat, root: real -> real)
    requires Increasing(p) && NonDecreasing(p) && |p| > 1 && k < |p| && RootOk(root)
    ensures forall i | 0 <= i < |p| :: Limited(p, k, root)[i] >= 0.0
    ensures forall i | 0 <= i < k :: InCircle(Secant(p, i), Limited(p, k, root)[i], Limited(p, k, root)[i + 1])
  {
    hide Secant, FirstTangent, Pulled, InCircle;
    if k == 0 {
      forall i: nat | i < |p| ensures FirstTangent(p, i) >= 0.0 { FirstTangentSign(p, i); }
    } else {
      LimiterHolds(p, k - 1, root);
      LimiterStep(p, Limited(p, k - 1, root), k - 1, root);
    }
  }

  lemma LimiterStep(p: Curve, d: seq<real>, n: nat, root: real -> real)
    requires Increasing(p) && NonDecreasing(p) && |p| > 1 && n + 1 < |p| && |d| == |p| && RootOk(root)
    requires forall i | 0 <= i < |p| :: d[i] >= 0.0
    requires forall i | 0 <= i < n :: InCircle(Secant(p, i), d[i], d[i + 1])
    ensures var e := LimitedAt(p, d, n, root);
      && (forall i | 0 <= i < |p| :: e[i] >= 0.0)
      && (forall i | 0 <= i < n + 1 :: InCircle(Secant(p, i), e[i], e[i + 1]))
  {
    hide Secant, Pulled, InCircle;
    var s := Secant(p, n);
    var e := LimitedAt(p, d, n, root);
    SecantSign(p, n);
    PulledInCircle(s, d[n], d[n + 1], root);
    assert e[n] >= 0.0 && e[n + 1] >= 0.0 by { CircleSigns(s, e[n], e[n + 1]); }
    if n > 0 { ShrunkInCircle(Secant(p, n - 1), d[n - 1], d[n], e[n]); }
  }

  lemma NextIsRight(p: Curve, i: nat)
    requires Increasing(p) && i + 1 < |p|
    ensures p[i].x < p[i + 1].x
  {}

  lemma CircleSigns(s: real, a: real, b: real)
    requires InCircle(s, a, b)
    ensures a >= 0.0 && b >= 0.0
  {}

  // ------------------------------------------------------- one segment

  /**
   * A cubic from `y0` that rises by `d`, with end slopes `a` and `b` measured over
   * the whole segment, in powers of t.
   */
  function Cubic(y0: real, d: real, a: real, b: real, t: real): real {
    y0 + t * (a + t * ((3.0 * d - 2.0 * a - b) + t * (a + b - 2.0 * d)))
  }

  /** Its slope. */
  function Slope(d: real, a: real, b: real, t: real): real {
    a * ((1.0 - t) * (1.0 - t)) + b * (t * t) + (6.0 * d - 2.0 * a - 2.0 * b) * (t * (1.0 - t))
  }

  lemma HermiteIsCubic(low: CurvePoint, high: CurvePoint, m0: real, m1: real, x: real, a: real, b: real, t: real)
    requires low.x < high.x
    requires var span := high.x - low.x; a == span * m0 && b == span * m1 && t == (x - low.x) / span
    ensures Hermite(low, high, m0, m1, x) == Cubic(low.y, high.y - low.y, a, b, t)
  {
    hide Cubic, Blend;
    BlendIsCubic(low.y, high.y, high.x - low.x, m0, m1, a, b, t);
  }

  lemma BlendIsCubic(y0: real, y1: real, span: real, m0: real, m1: real, a: real, b: real, t: real)
    requires a == span * m0 && b == span * m1
    ensures Blend(y0, y1, span, m0, m1, t) == Cubic(y0, y1 - y0, a, b, t)
  {
    Powers(y0, y1, a, b, t);
    Threefold(t * t * t - 2.0 * (t * t) + t, span, m0, a);
    Threefold(t * t * t - t * t, span, m1, b);
  }

  lemma Threefold(h: real, span: real, m: real, a: real)
    requires a == span * m
    ensures h * span * m == h * a
  {}

  lemma Powers(y0: real, y1: real, a: real, b: real, t: real)
    ensures var t2 := t * t; var t3 := t2 * t;
      (2.0 * t3 - 3.0 * t2 + 1.0) * y0 + (t3 - 2.0 * t2 + t) * a + (-2.0 * t3 + 3.0 * t2) * y1 + (t3 - t2) * b
      == Cubic(y0, y1 - y0, a, b, t)
  {}

  /** In the circle the two slopes add up to at most six secants, and the cross term is dominated. */
  lemma CircleBounds(d: real, a: real, b: real)
    requires d >= 0.0 && InCircle(d, a, b)
    ensures var c := a + b - 3.0 * d; c <= 0.0 || c * c <= a * b
  {
    var c := a + b - 3.0 * d;
    if c > 0.0 {
      assert a <= 3.0 * d by { RootBound(a, 3.0 * d); }
      assert b <= 3.0 * d by { RootBound(b, 3.0 * d); }
      assert c <= 3.0 * d;
      assert c * c <= c * (3.0 * d);
      assert 2.0 * (a * b) == (a + b) * (a + b) - (a * a + b * b);
      assert (a + b) * (a + b) == c * c + 6.0 * (c * d) + 9.0 * (d * d);
    }
  }

  lemma RootBound(a: real, m: real)
    requires a >= 0.0 && m >= 0.0 && a * a <= m * m
    ensures a <= m
  {
    if a > m {
      assert (a - m) * (a + m) == a * a - m * m;
      Positive(a - m, a + m);
    }
  }

  /** a s^2 + b t^2 - 2 c s t is never negative when c is, or when c^2 is at most a b. */
  lemma FormSign(a: real, b: real, c: real, s: real, t: real)
    requires a >= 0.0 && b >= 0.0 && s >= 0.0 && t >= 0.0 && (c <= 0.0 || c * c <= a * b)
    ensures a * (s * s) + b * (t * t) - 2.0 * c * (t * s) >= 0.0
  {
    assert s * s >= 0.0 && t * t >= 0.0 && t * s >= 0.0;
    assert a * (s * s) >= 0.0 && b * (t * t) >= 0.0;
    if c <= 0.0 {
      assert c * (t * s) <= 0.0;
    } else {
      var f := a * (s * s) + b * (t * t) - 2.0 * c * (t * s);
      var u := a * s - c * t;
      Completed(a, b, c, s, t);
      assert u * u >= 0.0;
      NotNegative(a * b - c * c, t * t);
      Positive(c, c);
      if a == 0.0 { assert a * b == 0.0; }
      if f < 0.0 { Positive(a, -f); }
    }
  }

  lemma Completed(a: real, b: real, c: real, s: real, t: real)
    ensures a * (a * (s * s) + b * (t * t) - 2.0 * c * (t * s))
         == (a * s - c * t) * (a * s - c * t) + (a * b - c * c) * (t * t)
  {
    assert (a * s - c * t) * (a * s - c * t) == a * a * (s * s) - 2.0 * (a * c) * (t * s) + c * c * (t * t);
  }

  lemma SlopeSign(d: real, a: real, b: real, t: real)
    requires d >= 0.0 && InCircle(d, a, b) && 0.0 <= t <= 1.0
    ensures Slope(d, a, b, t) >= 0.0
  {
    CircleBounds(d, a, b);
    FormSign(a, b, a + b - 3.0 * d, 1.0 - t, t);
  }

  /** The rise of a cubic over an interval, from the slope at its ends and its middle. */
  lemma RiseIs(y0: real, d: real, a: real, b: real, t: real, u: real)
    ensures 6.0 * (Cubic(y0, d, a, b, u) - Cubic(y0, d, a, b, t))
         == (u - t) * (Slope(d, a, b, t) + 4.0 * Slope(d, a, b, (t + u) / 2.0) + Slope(d, a, b, u))
  {
    hide Cubic, Slope;
    var mean := Mean(d, a, b, t, u);
    Factored(y0, d, a, b, t, u);
    MeanIs(d, a, b, t, u);
    Six(u - t, mean);
  }

  /** The mean slope over an interval. */
  function Mean(d: real, a: real, b: real, t: real, u: real): real {
    a + (3.0 * d - 2.0 * a - b) * (t + u) + (a + b - 2.0 * d) * (t * t + t * u + u * u)
  }

  lemma Six(w: real, mean: real)
    ensures 6.0 * (w * mean) == w * (6.0 * mean)
  {}

  lemma Factored(y0: real, d: real, a: real, b: real, t: real, u: real)
    ensures Cubic(y0, d, a, b, u) - Cubic(y0, d, a, b, t) == (u - t) * Mean(d, a, b, t, u)
  {
    FactoredPowers(y0, a, 3.0 * d - 2.0 * a - b, a + b - 2.0 * d, t, u);
  }

  lemma FactoredPowers(y0: real, a: real, p: real, q: real, t: real, u: real)
    ensures (y0 + u * (a + u * (p + u * q))) - (y0 + t * (a + t * (p + t * q)))
         == (u - t) * (a + p * (t + u) + q * (t * t + t * u + u * u))
  {}

  lemma MeanIs(d: real, a: real, b: real, t: real, u: real)
    ensures Slope(d, a, b, t) + 4.0 * Slope(d, a, b, (t + u) / 2.0) + Slope(d, a, b, u) == 6.0 * Mean(d, a, b, t, u)
  {
    SlopePowers(d, a, b, t);
    SlopePowers(d, a, b, u);
    SlopePowers(d, a, b, (t + u) / 2.0);
    assert ((t + u) / 2.0) * ((t + u) / 2.0) == (t * t + 2.0 * (t * u) + u * u) / 4.0;
  }

  lemma SlopePowers(d: real, a: real, b: real, t: real)
    ensures Slope(d, a, b, t) == a + 2.0 * (3.0 * d - 2.0 * a - b) * t + 3.0 * (a + b - 2.0 * d) * (t * t)
  {}

  lemma CubicMonotone(y0: real, d: real, a: real, b: real, t: real, u: real)
    requires d >= 0.0 && InCircle(d, a, b) && 0.0 <= t <= u <= 1.0
    ensures Cubic(y0, d, a, b, t) <= Cubic(y0, d, a, b, u)
  {
    hide Cubic, Slope, InCircle;
    SlopeSign(d, a, b, t);
    SlopeSign(d, a, b, (t + u) / 2.0);
    SlopeSign(d, a, b, u);
    RiseIs(y0, d, a, b, t, u);
    NotNegative(u - t, Slope(d, a, b, t) + 4.0 * Slope(d, a, b, (t + u) / 2.0) + Slope(d, a, b, u));
  }

  // ------------------------------------------------------- the whole curve

  /** What building gives from points with rising values: a curve sampling can trust. */
  ghost predicate Rising(s: Spline) {
    && Ready(s) && |s.points| >= 2 && !s.identity && NonDecreasing(s.points)
    && forall i | 0 <= i && i + 1 < |s.points| :: InCircle(Secant(s.points, i), s.tangents[i], s.tangents[i + 1])
  }

  lemma BuiltLimited(raw: seq<RawPoint>, root: real -> real)
    requires RootOk(root) && NonDecreasing(Clean(raw)) && !Build(raw, root).identity
    ensures Rising(Build(raw, root))
  {
    hide Clean, Secant, InCircle, Limited;
    var c := Clean(raw);
    CleanShaped(raw);
    if c != [] { LimiterHolds(c, |c| - 1, root); }
  }

  /** The slopes over a whole segment, in terms of its rise. */
  lemma SpanCircle(p: Curve, i: nat, m0: real, m1: real, a: real, b: real)
    requires Increasing(p) && i + 1 < |p| && InCircle(Secant(p, i), m0, m1)
    requires var span := p[i + 1].x - p[i].x; a == span * m0 && b == span * m1
    ensures InCircle(p[i + 1].y - p[i].y, a, b)
  {
    var span, s, d := p[i + 1].x - p[i].x, Secant(p, i), p[i + 1].y - p[i].y;
    DividesBack(d, span);
    ScaleCircle(s, m0, m1, span, d, a, b);
  }

  lemma ScaleCircle(s: real, m0: real, m1: real, w: real, d: real, a: real, b: real)
    requires InCircle(s, m0, m1) && w > 0.0 && d == s * w && a == w * m0 && b == w * m1
    ensures InCircle(d, a, b)
  {
    NotNegative(w, m0);
    NotNegative(w, m1);
    NotNegative(w * w, 9.0 * (s * s) - (m0 * m0 + m1 * m1));
    assert a * a + b * b == (w * w) * (m0 * m0 + m1 * m1);
    assert 9.0 * (d * d) == (w * w) * (9.0 * (s * s));
  }

  /** How far along a segment, from zero to one. */
  lemma Along(low: real, high: real, x: real)
    requires low < high && low <= x <= high
    ensures 0.0 <= (x - low) / (high - low) <= 1.0
  {
    Whole(high - low);
    Divided(0.0, x - low, high - low);
    Divided(x - low, high - low, high - low);
  }

  lemma Divided(a: real, b: real, w: real)
    requires a <= b && w > 0.0
    ensures a / w <= b / w
  {
    assert b / w - a / w == (b - a) / w;
    Quotient(b - a, w);
  }

  /** The cubic of segment `i`. */
  function Piece(s: Spline, i: nat, x: real): real
    requires Ready(s) && i + 1 < |s.points|
  {
    Hermite(s.points[i], s.points[i + 1], s.tangents[i], s.tangents[i + 1], x)
  }

  /** A segment starts and ends at its points, whatever its slopes. */
  lemma PieceEnds(s: Spline, i: nat)
    requires Ready(s) && i + 1 < |s.points|
    ensures Piece(s, i, s.points[i].x) == s.points[i].y && Piece(s, i, s.points[i + 1].x) == s.points[i + 1].y
  {
    hide Cubic, Hermite;
    var low, high, m0, m1 := s.points[i], s.points[i + 1], s.tangents[i], s.tangents[i + 1];
    var span := high.x - low.x;
    var a, b := span * m0, span * m1;
    HermiteIsCubic(low, high, m0, m1, low.x, a, b, 0.0);
    HermiteIsCubic(low, high, m0, m1, high.x, a, b, 1.0);
    CubicEnds(low.y, high.y - low.y, a, b);
  }

  lemma CubicEnds(y0: real, d: real, a: real, b: real)
    ensures Cubic(y0, d, a, b, 0.0) == y0 && Cubic(y0, d, a, b, 1.0) == y0 + d
  {}

  lemma PieceMonotone(s: Spline, i: nat, x: real, u: real)
    requires Rising(s) && i + 1 < |s.points| && s.points[i].x <= x <= u <= s.points[i + 1].x
    ensures Piece(s, i, x) <= Piece(s, i, u)
  {
    hide Cubic, Hermite, InCircle, Secant;
    var p := s.points;
    var span := p[i + 1].x - p[i].x;
    var a, b := span * s.tangents[i], span * s.tangents[i + 1];
    SpanCircle(p, i, s.tangents[i], s.tangents[i + 1], a, b);
    HermiteMonotone(p[i], p[i + 1], s.tangents[i], s.tangents[i + 1], a, b, x, u);
  }

  lemma HermiteMonotone(low: CurvePoint, high: CurvePoint, m0: real, m1: real, a: real, b: real, x: real, u: real)
    requires low.x < high.x && low.y <= high.y && low.x <= x <= u <= high.x
    requires var span := high.x - low.x; a == span * m0 && b == span * m1
    requires InCircle(high.y - low.y, a, b)
    ensures Hermite(low, high, m0, m1, x) <= Hermite(low, high, m0, m1, u)
  {
    hide Cubic, Hermite, InCircle;
    var span := high.x - low.x;
    var t, v := (x - low.x) / span, (u - low.x) / span;
    HermiteIsCubic(low, high, m0, m1, x, a, b, t);
    HermiteIsCubic(low, high, m0, m1, u, a, b, v);
    Along(low.x, high.x, x);
    Along(low.x, high.x, u);
    Divided(x - low.x, u - low.x, span);
    CubicMonotone(low.y, high.y - low.y, a, b, t, v);
  }

  lemma PieceBounds(s: Spline, i: nat, x: real)
    requires Rising(s) && i + 1 < |s.points| && s.points[i].x <= x <= s.points[i + 1].x
    ensures s.points[i].y <= Piece(s, i, x) <= s.points[i + 1].y
  {
    hide Piece, InCircle, Secant;
    PieceEnds(s, i);
    PieceMonotone(s, i, s.points[i].x, x);
    PieceMonotone(s, i, x, s.points[i + 1].x);
  }

  lemma SegmentHolds(p: Curve, x: real)
    requires Shaped(p) && p != [] && 0.0 <= x <= 1.0
    ensures var i := Segment(p, x, 0); p[i].x <= x <= p[i + 1].x
  {}

  lemma SegmentsInOrder(p: Curve, x: real, u: real)
    requires Shaped(p) && p != [] && 0.0 <= x <= u <= 1.0
    ensures Segment(p, x, 0) <= Segment(p, u, 0)
  {
    hide Segment;
    SegmentHolds(p, x);
    SegmentHolds(p, u);
    var i, j := Segment(p, x, 0), Segment(p, u, 0);
    if j < i { assert p[j + 1].x <= p[i].x < x; }
  }

  /** Inside the range, sampling is the cubic of the segment, which needs no clamping. */
  lemma SampleIsPiece(s: Spline, x: real)
    requires Rising(s) && 0.0 <= x <= 1.0
    ensures var i := Segment(s.points, x, 0);
      Sample(s, x) == Piece(s, i, x) && s.points[i].y <= Sample(s, x) <= s.points[i + 1].y
  {
    hide Segment, Hermite, Secant, InCircle;
    var i := Segment(s.points, x, 0);
    SegmentHolds(s.points, x);
    PieceBounds(s, i, x);
    assert 0.0 <= s.points[i].y && s.points[i + 1].y <= 1.0;
  }

  lemma SampleMonotoneInside(s: Spline, x: real, u: real)
    requires Rising(s) && 0.0 <= x <= u <= 1.0
    ensures Sample(s, x) <= Sample(s, u)
  {
    hide Segment, Hermite, Secant, InCircle, Sample, Piece;
    var i, j := Segment(s.points, x, 0), Segment(s.points, u, 0);
    SegmentsInOrder(s.points, x, u);
    SampleIsPiece(s, x);
    SampleIsPiece(s, u);
    SegmentHolds(s.points, x);
    SegmentHolds(s.points, u);
    if i == j {
      PieceMonotone(s, i, x, u);
    } else if i + 1 < j {
      assert s.points[i + 1].y <= s.points[j].y;
    }
  }

  lemma SampleClamps(s: Spline, x: real)
    requires Ready(s)
    ensures Sample(s, x) == Sample(s, Clamp(x, 0.0, 1.0)) && 0.0 <= Sample(s, x) <= 1.0
  {
    hide Segment, Hermite;
  }

  /** A built curve passes through every point it was built from, rising or not. */
  lemma SampleInterpolates(s: Spline, k: nat)
    requires Ready(s) && !s.identity && |s.points| >= 2 && k < |s.points|
    ensures Sample(s, s.points[k].x) == s.points[k].y
  {
    hide Segment, Hermite;
    var x := s.points[k].x;
    var i := Segment(s.points, x, 0);
    SegmentHolds(s.points, x);
    assert i == k || i + 1 == k by { OnlyAtEnds(s.points, i, k); }
    PieceEnds(s, i);
    assert Clamp(x, 0.0, 1.0) == x;
  }

  lemma OnlyAtEnds(p: Curve, i: nat, k: nat)
    requires Increasing(p) && i + 1 < |p| && k < |p| && p[i].x <= p[k].x <= p[i + 1].x
    ensures k == i || k == i + 1
  {}

  ghost predicate NeverFalls(s: Spline)
    requires Ready(s)
  {
    forall x: real, u: real :: x <= u ==> Sample(s, x) <= Sample(s, u)
  }

  lemma BuiltReady(raw: seq<RawPoint>, root: real -> real)
    requires RootOk(root)
    ensures var s := Build(raw, root);
      Ready(s) && (!s.identity ==> s.points == Clean(raw) && |s.points| >= 2)
  {
    hide Clean, Limited;
    CleanShaped(raw);
  }

  /**
   * The curve built from any points never falls exactly when the cleaned points
   * never do, or lie so close to y = x that the curve is not used at all.
   */
  lemma NeverFallsIff(raw: seq<RawPoint>, root: real -> real)
    requires RootOk(root)
    ensures Ready(Build(raw, root))
    ensures NeverFalls(Build(raw, root)) <==> Build(raw, root).identity || NonDecreasing(Clean(raw))
  {
    hide Build, Clean, Sample, Rising;
    var s := Build(raw, root);
    BuiltReady(raw, root);
    if s.identity {
      IdentityNeverFalls(s);
    } else if NonDecreasing(Clean(raw)) {
      BuiltLimited(raw, root);
      forall x: real, u: real | x <= u ensures Sample(s, x) <= Sample(s, u) {
        SampleClamps(s, x);
        SampleClamps(s, u);
        SampleMonotoneInside(s, Clamp(x, 0.0, 1.0), Clamp(u, 0.0, 1.0));
      }
    } else {
      var p := s.points;
      var i, j :| 0 <= i < j < |p| && p[i].y > p[j].y;
      SampleInterpolates(s, i);
      SampleInterpolates(s, j);
      assert p[i].x < p[j].x;
    }
  }

  lemma IdentityNeverFalls(s: Spline)
    requires Ready(s) && s.identity
    ensures NeverFalls(s)
  {}

  /** Between two neighbouring points of a rising curve, sampling stays between their values. */
  lemma StaysInSegment(raw: seq<RawPoint>, root: real -> real, k: nat, x: real)
    requires RootOk(root) && NonDecreasing(Clean(raw)) && !Build(raw, root).identity
    requires k + 1 < |Clean(raw)| && Clean(raw)[k].x <= x <= Clean(raw)[k + 1].x
    ensures Ready(Build(raw, root)) && Clean(raw)[k].y <= Sample(Build(raw, root), x) <= Clean(raw)[k + 1].y
  {
    hide Build, Clean, Sample;
    var s := Build(raw, root);
    BuiltReady(raw, root);
    NeverFallsIff(raw, root);
    SampleInterpolates(s, k);
    SampleInterpolates(s, k + 1);
  }

  /** A curve left out as the identity misses each of its points by no more than the tolerance. */
  lemma IdentityIsNear(raw: seq<RawPoint>, root: real -> real, k: nat)
    requires RootOk(root) && Build(raw, root).identity && k < |Clean(raw)|
    ensures Ready(Build(raw, root))
    ensures Abs(Sample(Build(raw, root), Clean(raw)[k].x) - Clean(raw)[k].y) <= IDENTITY_TOLERANCE
  {
    hide Clean, Limited;
    CleanShaped(raw);
  }

  /** Leaving the identity out loses nothing: the cubic through points on y = x is y = x. */
  lemma LineIsIdentity(p: Curve, root: real -> real, i: nat, x: real)
    requires RootOk(root) && Increasing(p) && |p| > 1 && i + 1 < |p| && forall k | 0 <= k < |p| :: p[k].y == p[k].x
    ensures Hermite(p[i], p[i + 1], Limited(p, |p| - 1, root)[i], Limited(p, |p| - 1, root)[i + 1], x) == x
  {
    hide Limited, Hermite, Cubic;
    LineSlopes(p, |p| - 1, root);
    var low, high := p[i], p[i + 1];
    var span := high.x - low.x;
    HermiteIsCubic(low, high, 1.0, 1.0, x, span, span, (x - low.x) / span);
    LineCubic(low.y, span, (x - low.x) / span);
    DividesBack(x - low.x, span);
  }

  lemma LineCubic(y0: real, w: real, t: real)
    ensures Cubic(y0, w, w, w, t) == y0 + t * w
  {}

  lemma {:induction false} LineSlopes(p: Curve, k: nat, root: real -> real)
    requires RootOk(root) && Increasing(p) && |p| > 1 && k < |p| && forall j | 0 <= j < |p| :: p[j].y == p[j].x
    ensures forall j | 0 <= j < |p| :: Limited(p, k, root)[j] == 1.0
  {
    hide Secant;
    if k == 0 {
      forall j: nat | j + 1 < |p| ensures Secant(p, j) == 1.0 { LineSecant(p, j); }
    } else {
      LineSlopes(p, k - 1, root);
      LineSecant(p, k - 1);
    }
  }

  lemma LineSecant(p: Curve, j: nat)
    requires Increasing(p) && j + 1 < |p| && p[j].y == p[j].x && p[j + 1].y == p[j + 1].x
    ensures Secant(p, j) == 1.0
  {
    Whole(p[j + 1].x - p[j].x);
  }

  /**
   * A curve read from a file, saved and reopened any number of times, builds the
   * same spline every time.
   */
  lemma SplineSettled(raw: seq<RawPoint>, n: nat, root: real -> real)
    requires RootOk(root)
    ensures Build(AsRaw(CleanedTimes(Clean(raw), n)), root) == Build(AsRaw(Clean(raw)), root)
  {
    hide Clean, CleanedTimes, AsRaw;
    CleanedForGood(raw, n);
    CleaningSettles(raw);
    ZeroTimes(Clean(raw));
    assert Cleaned(CleanedTimes(Clean(raw), n)) == Cleaned(Clean(raw)) by {
      if n == 0 { ZeroTimes(Clean(raw)); }
    }
  }

  lemma ZeroTimes(c: Curve)
    ensures CleanedTimes(c, 0) == c
  {}
}
