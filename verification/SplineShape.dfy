/**
 * Which curve the spline draws: the slope it has at each point, what it reproduces
 * exactly, and what the limiter makes of slopes that are too steep.
 */
module SplineShapes {
  import opened Operations
  import opened RealArithmetic
  import opened Splines
  import opened ToneCurves

  // ------------------------------------------------------- slopes at the points

  /** Close to `t == 0`, within a multiple of its square. */
  predicate Within(r: real, bend: real, t: real) {
    -bend * (t * t) <= r <= bend * (t * t)
  }

  lemma CubicNearStart(y0: real, d: real, a: real, b: real, t: real, bend: real)
    requires 0.0 <= t <= 1.0 && bend >= Abs(3.0 * d - 2.0 * a - b) + Abs(a + b - 2.0 * d)
    ensures Within(Cubic(y0, d, a, b, t) - (y0 + t * a), bend, t)
  {
    hide Cubic, Within, Abs;
    var c, e := 3.0 * d - 2.0 * a - b, a + b - 2.0 * d;
    CubicRest(y0, d, a, b, t, c + t * e);
    RestBounded(c, e, t, bend);
    TimesSquare(c + t * e, bend, t, Cubic(y0, d, a, b, t) - (y0 + t * a));
  }

  lemma RestBounded(c: real, e: real, t: real, bend: real)
    requires 0.0 <= t <= 1.0 && bend >= Abs(c) + Abs(e)
    ensures -bend <= c + t * e <= bend
  {
    Portion(t, e, t * e);
  }

  lemma Portion(t: real, e: real, part: real)
    requires 0.0 <= t <= 1.0 && part == t * e
    ensures -Abs(e) <= part <= Abs(e)
  {
    NotNegative(t, Abs(e));
    NotNegative(1.0 - t, Abs(e));
  }

  lemma TimesSquare(r: real, bend: real, t: real, whole: real)
    requires -bend <= r <= bend && whole == (t * t) * r
    ensures Within(whole, bend, t)
  {
    SquareSign(t, t * t);
    AtMost(r, bend, t * t);
    AtMost(-bend, r, t * t);
  }

  lemma CubicRest(y0: real, d: real, a: real, b: real, t: real, r: real)
    requires r == (3.0 * d - 2.0 * a - b) + t * (a + b - 2.0 * d)
    ensures Cubic(y0, d, a, b, t) - (y0 + t * a) == (t * t) * r
  {}

  /** Walked from its end, a cubic is the cubic with rise and slopes turned round. */
  lemma CubicReversed(y0: real, d: real, a: real, b: real, t: real)
    ensures Cubic(y0, d, a, b, 1.0 - t) == Cubic(y0 + d, -d, -b, -a, t)
  {
    hide Cubic;
    var u := 1.0 - t;
    InPowers(y0, d, a, b, u);
    InPowers(y0 + d, -d, -b, -a, t);
    PowersReversed(t, u);
    Combine(y0, d, a, b, t, t * t, t * (t * t), u * u, u * (u * u));
  }

  lemma PowersReversed(t: real, u: real)
    requires u == 1.0 - t
    ensures u * u == 1.0 - 2.0 * t + t * t
    ensures u * (u * u) == 1.0 - 3.0 * t + 3.0 * (t * t) - t * (t * t)
  {}

  /** Turned upside down likewise. */
  lemma CubicUpended(y0: real, d: real, a: real, b: real, t: real)
    ensures 1.0 - Cubic(y0, d, a, b, t) == Cubic(1.0 - y0, -d, -a, -b, t)
  {
    hide Cubic;
    InPowers(y0, d, a, b, t);
    InPowers(1.0 - y0, -d, -a, -b, t);
    Negated(a, 3.0 * d - 2.0 * a - b, a + b - 2.0 * d, t, t * t, t * (t * t));
  }

  lemma Negated(a: real, c: real, e: real, t: real, t2: real, t3: real)
    ensures -(a * t + c * t2 + e * t3) == -a * t + -c * t2 + -e * t3
  {}

  lemma InPowers(y0: real, d: real, a: real, b: real, t: real)
    ensures Cubic(y0, d, a, b, t)
         == y0 + a * t + (3.0 * d - 2.0 * a - b) * (t * t) + (a + b - 2.0 * d) * (t * (t * t))
  {}

  lemma Combine(y0: real, d: real, a: real, b: real, t: real, t2: real, t3: real, u2: real, u3: real)
    requires u2 == 1.0 - 2.0 * t + t2 && u3 == 1.0 - 3.0 * t + 3.0 * t2 - t3
    ensures y0 + a * (1.0 - t) + (3.0 * d - 2.0 * a - b) * u2 + (a + b - 2.0 * d) * u3
         == (y0 + d) + (-b) * t + (3.0 * -d - 2.0 * -b - -a) * t2 + (-b + -a - 2.0 * -d) * t3
  {}

  /** Enough of a bound on how a cubic bends away from its slopes at either end. */
  function Bend(d: real, a: real, b: real): real {
    Abs(3.0 * d - 2.0 * a - b) + Abs(a + b - 2.0 * d) + Abs(3.0 * d - 2.0 * b - a)
  }

  /** From one point to the next: off along the first slope, in along the second, but for a bend of second order. */
  predicate Tangent(low: CurvePoint, high: CurvePoint, m0: real, m1: real, x: real, bend: real)
    requires low.x < high.x
  {
    var y, t := Hermite(low, high, m0, m1, x), (x - low.x) / (high.x - low.x);
    Within(Off(y, low.y, m0, x - low.x), bend, t) && Within(Off(y, high.y, m1, x - high.x), bend, 1.0 - t)
  }

  /** How far `y` is off the line of slope `m` through `base`. */
  function Off(y: real, base: real, m: real, dx: real): real { y - (base + m * dx) }

  /** A segment leaves its first point along the first of its slopes and reaches its last along the second. */
  lemma PieceSlopes(s: Spline, i: nat) returns (bend: real)
    requires Ready(s) && i + 1 < |s.points|
    ensures forall x: real | s.points[i].x <= x <= s.points[i + 1].x ::
      Tangent(s.points[i], s.points[i + 1], s.tangents[i], s.tangents[i + 1], x, bend)
      && Piece(s, i, x) == Hermite(s.points[i], s.points[i + 1], s.tangents[i], s.tangents[i + 1], x)
  {
    hide Tangent, Hermite, Bend;
    var low, high, m0, m1 := s.points[i], s.points[i + 1], s.tangents[i], s.tangents[i + 1];
    var d, a, b := high.y - low.y, (high.x - low.x) * m0, (high.x - low.x) * m1;
    bend := Bend(d, a, b);
    forall x: real | low.x <= x <= high.x ensures Tangent(low, high, m0, m1, x, bend) {
      IsTangent(low, high, m0, m1, d, a, b, x, bend);
    }
  }

  lemma IsTangent(low: CurvePoint, high: CurvePoint, m0: real, m1: real, d: real, a: real, b: real, x: real, bend: real)
    requires low.x < high.x && low.x <= x <= high.x
    requires d == high.y - low.y && a == (high.x - low.x) * m0 && b == (high.x - low.x) * m1 && bend == Bend(d, a, b)
    ensures Tangent(low, high, m0, m1, x, bend)
  {
    hide Within, Hermite, Bend, Off;
    LeavesAlong(low, high, m0, m1, d, a, b, x, bend);
    ArrivesAlong(low, high, m0, m1, d, a, b, x, bend);
  }

  lemma LeavesAlong(low: CurvePoint, high: CurvePoint, m0: real, m1: real, d: real, a: real, b: real,
                    x: real, bend: real)
    requires low.x < high.x && low.x <= x <= high.x
    requires d == high.y - low.y && a == (high.x - low.x) * m0 && b == (high.x - low.x) * m1 && bend == Bend(d, a, b)
    ensures Within(Off(Hermite(low, high, m0, m1, x), low.y, m0, x - low.x), bend, (x - low.x) / (high.x - low.x))
  {
    hide Within, Cubic, Hermite, Abs, Off;
    var dx, y := x - low.x, Hermite(low, high, m0, m1, x);
    var t, along := dx / (high.x - low.x), m0 * dx;
    Along(low.x, high.x, x);
    HermiteIsCubic(low, high, m0, m1, x, a, b, t);
    AbsSum(3.0 * d - 2.0 * a - b, a + b - 2.0 * d, 3.0 * d - 2.0 * b - a);
    OtherWay(dx, high.x - low.x, t);
    WayTimes(dx, high.x - low.x, m0, t, a, along);
    OffIs(y, low.y, m0, dx, along);
    NearStart(low.y, d, a, b, t, bend, along, y - (low.y + along));
  }

  lemma ArrivesAlong(low: CurvePoint, high: CurvePoint, m0: real, m1: real, d: real, a: real, b: real,
                     x: real, bend: real)
    requires low.x < high.x && low.x <= x <= high.x
    requires d == high.y - low.y && a == (high.x - low.x) * m0 && b == (high.x - low.x) * m1 && bend == Bend(d, a, b)
    ensures Within(Off(Hermite(low, high, m0, m1, x), high.y, m1, x - high.x), bend,
                   1.0 - (x - low.x) / (high.x - low.x))
  {
    hide Within, Cubic, Hermite, Abs, Off;
    var dx, y, t := x - high.x, Hermite(low, high, m0, m1, x), (x - low.x) / (high.x - low.x);
    var along := m1 * dx;
    Along(low.x, high.x, x);
    HermiteIsCubic(low, high, m0, m1, x, a, b, t);
    AbsSum(3.0 * d - 2.0 * a - b, a + b - 2.0 * d, 3.0 * d - 2.0 * b - a);
    OtherWay(x - low.x, high.x - low.x, t);
    BackTimes(dx, high.x - low.x, m1, 1.0 - t, b, along);
    OffIs(y, high.y, m1, dx, along);
    NearEnd(low.y, d, a, b, t, bend, along, y - (low.y + d + along));
  }

  lemma NearStart(y0: real, d: real, a: real, b: real, t: real, bend: real, along: real, r: real)
    requires 0.0 <= t <= 1.0 && bend >= Abs(3.0 * d - 2.0 * a - b) + Abs(a + b - 2.0 * d) && t * a == along
    requires r == Cubic(y0, d, a, b, t) - (y0 + along)
    ensures Within(r, bend, t)
  {
    hide Within, Cubic, Abs;
    CubicNearStart(y0, d, a, b, t, bend);
    assert r == Cubic(y0, d, a, b, t) - (y0 + t * a);
  }

  lemma NearEnd(y0: real, d: real, a: real, b: real, t: real, bend: real, along: real, r: real)
    requires 0.0 <= t <= 1.0 && bend >= Abs(-(3.0 * d - 2.0 * b - a)) + Abs(-(a + b - 2.0 * d))
    requires (1.0 - t) * -b == along && r == Cubic(y0, d, a, b, t) - (y0 + d + along)
    ensures Within(r, bend, 1.0 - t)
  {
    hide Within, Cubic, Abs;
    var u := 1.0 - t;
    CubicReversed(y0, d, a, b, u);
    assert 1.0 - u == t;
    assert -(3.0 * d - 2.0 * b - a) == 3.0 * -d - 2.0 * -b - -a && -(a + b - 2.0 * d) == -b + -a - 2.0 * -d;
    NearStart(y0 + d, -d, -b, -a, u, bend, along, r);
  }

  lemma AbsSum(c: real, e: real, f: real)
    ensures Abs(c) + Abs(e) + Abs(f) >= Abs(c) + Abs(e)
    ensures Abs(c) + Abs(e) + Abs(f) >= Abs(-f) + Abs(-e) && Abs(-f) == Abs(f)
  {}

  lemma WayTimes(dx: real, span: real, m: real, t: real, a: real, along: real)
    requires t * span == dx && a == span * m && along == m * dx
    ensures t * a == along
  {}

  lemma BackTimes(dx: real, span: real, m: real, u: real, b: real, along: real)
    requires u * span == -dx && b == span * m && along == m * dx
    ensures u * -b == along
  {
    WayTimes(-dx, span, m, u, b, m * -dx);
  }

  lemma OffIs(y: real, base: real, m: real, dx: real, along: real)
    requires along == m * dx
    ensures Off(y, base, m, dx) == y - (base + along)
  {}

  lemma OtherWay(dx: real, span: real, t: real)
    requires span > 0.0 && t == dx / span
    ensures (1.0 - t) * span == span - dx && t * span == dx
  {}

  // ------------------------------------------------------- which slopes those are

  /** The slope of the straight line through two points. */
  function Between(p: CurvePoint, q: CurvePoint): real
    requires p.x < q.x
  {
    (q.y - p.y) / (q.x - p.x)
  }

  /** The limiter has nothing to do. */
  ghost predicate Gentle(p: Curve, root: real -> real)
    requires Increasing(p) && |p| > 1 && RootOk(root)
  {
    forall i: nat | i + 1 < |p| ::
      LeftAlone(Secant(p, i), FirstTangent(p, i), FirstTangent(p, i + 1))
  }

  /** In the circle already, on either side of zero. */
  predicate LeftAlone(secant: real, a: real, b: real) {
    a * a + b * b <= 9.0 * (secant * secant)
  }

  /**
   * What one pass of the limiter does to the slopes at the two ends of a segment, whatever
   * their signs: in the circle they stay, outside they come straight in to its edge.
   */
  lemma PulledExactly(secant: real, a: real, b: real, root: real -> real)
    requires RootOk(root)
    ensures var (a', b') := Pulled(secant, a, b, root);
      && (LeftAlone(secant, a, b) ==> a' == a && b' == b)
      && (!LeftAlone(secant, a, b) ==>
            a' * a' + b' * b' == 9.0 * (secant * secant) && a' * b == b' * a && a' * a >= 0.0 && b' * b >= 0.0)
  {
    hide Squared, OnCircle;
    if secant == 0.0 {
      ZeroSlopes(a, b);
    } else {
      var alpha, beta := a / secant, b / secant;
      Undivided(a, secant);
      Undivided(b, secant);
      CircleTest(secant, a, b, alpha, beta);
      if Squared(alpha, beta) > 9.0 {
        PulledToEdge(secant, a, b, alpha, beta, root);
      }
    }
  }

  lemma Undivided(a: real, b: real)
    requires b != 0.0
    ensures a / b * b == a
  {}

  lemma ZeroSlopes(a: real, b: real)
    ensures LeftAlone(0.0, a, b) ==> a == 0.0 && b == 0.0
  {
    SquareSign(a, a * a);
    SquareSign(b, b * b);
  }

  lemma CircleTest(secant: real, a: real, b: real, alpha: real, beta: real)
    requires secant != 0.0 && a == alpha * secant && b == beta * secant
    ensures Squared(alpha, beta) <= 9.0 <==> LeftAlone(secant, a, b)
  {
    SquaresScale(a, alpha, secant);
    SquaresScale(b, beta, secant);
    Distribute(secant * secant, alpha * alpha, beta * beta);
    assert a * a + b * b == (secant * secant) * Squared(alpha, beta);
    CircleScaled(Squared(alpha, beta), secant, secant * secant);
  }

  lemma SquaresScale(a: real, alpha: real, secant: real)
    requires a == alpha * secant
    ensures a * a == (secant * secant) * (alpha * alpha)
  {}

  lemma CircleScaled(n: real, secant: real, q: real)
    requires secant != 0.0 && q == secant * secant
    ensures n <= 9.0 <==> q * n <= 9.0 * q
  {
    SquareSign(secant, q);
    if n <= 9.0 { AtMost(n, 9.0, q); } else { Less(9.0, n, q); }
  }

  lemma PulledToEdge(secant: real, a: real, b: real, alpha: real, beta: real, root: real -> real)
    requires RootOk(root) && secant != 0.0 && a == alpha * secant && b == beta * secant && Squared(alpha, beta) > 9.0
    ensures var (a', b') := OnCircle(secant, alpha, beta, root);
      a' * a' + b' * b' == 9.0 * (secant * secant) && a' * b == b' * a && a' * a >= 0.0 && b' * b >= 0.0
  {
    hide Squared, ScaleOf;
    var squared := Squared(alpha, beta);
    RootAboveThree(root, squared);
    ScaleIs(squared, root);
    var scale := ScaleOf(squared, root);
    var (a', b') := OnCircle(secant, alpha, beta, root);
    ScaledSquares(scale, secant, alpha, beta, root(squared), a', b');
    Associated(scale, alpha, secant, a);
    Associated(scale, beta, secant, b);
    SameWay(scale, a, b, a', b');
  }

  lemma Associated(scale: real, alpha: real, secant: real, a: real)
    requires a == alpha * secant
    ensures scale * alpha * secant == scale * a
  {}

  lemma SameWay(scale: real, a: real, b: real, a': real, b': real)
    requires scale > 0.0 && a' == scale * a && b' == scale * b
    ensures a' * b == b' * a && a' * a >= 0.0 && b' * b >= 0.0
  {
    SquareSign(a, a * a);
    SquareSign(b, b * b);
    NotNegative(scale, a * a);
    NotNegative(scale, b * b);
  }

  /** The limiter goes over the segments from the left, and each pass touches two slopes only. */
  lemma PassTouchesTwo(p: Curve, k: nat, root: real -> real)
    requires RootOk(root) && Increasing(p) && |p| > 1 && k + 1 < |p|
    ensures var d, e := Limited(p, k, root), Limited(p, k + 1, root);
      && (e[k], e[k + 1]) == Pulled(Between(p[k], p[k + 1]), d[k], d[k + 1], root)
      && forall j | 0 <= j < |p| && j != k && j != k + 1 :: e[j] == d[j]
  {
    hide Pulled;
  }

  /** Before any pass: at the ends the slope of the end segment, in between the mean of the two beside. */
  lemma StartsFromMeans(p: Curve, i: nat, root: real -> real)
    requires RootOk(root) && Increasing(p) && |p| > 1 && i < |p|
    ensures var d := Limited(p, 0, root)[i];
      && (i == 0 ==> d == Between(p[0], p[1])) && (i == |p| - 1 ==> d == Between(p[i - 1], p[i]))
      && (0 < i < |p| - 1 ==> 2.0 * d == Between(p[i - 1], p[i]) + Between(p[i], p[i + 1]))
  {
    hide FirstTangent, Between;
    FirstTangentIs(p, i);
  }

  lemma FirstTangentIs(p: Curve, i: nat)
    requires Increasing(p) && |p| > 1 && i < |p|
    ensures i == 0 ==> FirstTangent(p, i) == Between(p[0], p[1])
    ensures i == |p| - 1 ==> FirstTangent(p, i) == Between(p[i - 1], p[i])
    ensures 0 < i < |p| - 1 ==> 2.0 * FirstTangent(p, i) == Between(p[i - 1], p[i]) + Between(p[i], p[i + 1])
  {
    hide Secant, Between;
    if i > 0 { SecantIs(p, i - 1); }
    if i + 1 < |p| { SecantIs(p, i); }
  }

  lemma SecantIs(p: Curve, i: nat)
    requires Increasing(p) && i + 1 < |p|
    ensures Secant(p, i) == Between(p[i], p[i + 1])
  {}

  lemma {:induction false} GentleStays(p: Curve, k: nat, root: real -> real)
    requires RootOk(root) && Increasing(p) && |p| > 1 && k < |p| && Gentle(p, root)
    ensures Limited(p, k, root) == FirstTangents(p, |p|)
  {
    hide Pulled, Secant, FirstTangent, LeftAlone;
    if k > 0 {
      GentleStays(p, k - 1, root);
      var d := FirstTangents(p, |p|);
      assert LeftAlone(Secant(p, k - 1), d[k - 1], d[k]);
      PulledExactly(Secant(p, k - 1), d[k - 1], d[k], root);
    }
  }

  // ------------------------------------------------------- what is drawn exactly

  function Quadratic(a: real, b: real, c: real, x: real): real { a * (x * x) + b * x + c }

  ghost predicate OnQuadratic(p: CurvePoint, a: real, b: real, c: real) { p.y == Quadratic(a, b, c, p.x) }

  lemma ChordSlope(p: CurvePoint, q: CurvePoint, a: real, b: real, c: real)
    requires p.x < q.x && OnQuadratic(p, a, b, c) && OnQuadratic(q, a, b, c)
    ensures Between(p, q) == a * (p.x + q.x) + b
  {
    var w, m := q.x - p.x, a * (p.x + q.x) + b;
    ChordRise(p.x, q.x, a, b, c);
    TimesOver(m, w, q.y - p.y);
  }

  lemma ChordRise(u: real, v: real, a: real, b: real, c: real)
    ensures Quadratic(a, b, c, v) - Quadratic(a, b, c, u) == (a * (u + v) + b) * (v - u)
  {}

  lemma TimesOver(m: real, w: real, rise: real)
    requires w > 0.0 && rise == m * w
    ensures rise / w == m
  {}

  /** Where three points stand evenly, the mean of the two slopes is the quadratic's own. */
  lemma EvenSlope(p: Curve, j: nat, a: real, b: real, c: real)
    requires Increasing(p) && 0 < j && j + 1 < |p| && p[j].x - p[j - 1].x == p[j + 1].x - p[j].x
    requires OnQuadratic(p[j - 1], a, b, c) && OnQuadratic(p[j], a, b, c) && OnQuadratic(p[j + 1], a, b, c)
    ensures FirstTangent(p, j) == 2.0 * a * p[j].x + b
  {
    hide OnQuadratic;
    ChordSlope(p[j - 1], p[j], a, b, c);
    ChordSlope(p[j], p[j + 1], a, b, c);
    assert Secant(p, j - 1) == Between(p[j - 1], p[j]) && Secant(p, j) == Between(p[j], p[j + 1]);
    MeanOfChords(a, b, p[j - 1].x, p[j].x, p[j + 1].x);
  }

  lemma MeanOfChords(a: real, b: real, u: real, v: real, w: real)
    requires v - u == w - v
    ensures 0.5 * ((a * (u + v) + b) + (a * (v + w) + b)) == 2.0 * a * v + b
  {
    assert u + w == 2.0 * v;
    Distribute(a, u + v, v + w);
  }

  /** The cubic with a quadratic's values and slopes at both ends is the quadratic. */
  lemma HermiteOfQuadratic(low: CurvePoint, high: CurvePoint, m0: real, m1: real, a: real, b: real, c: real, x: real)
    requires low.x < high.x && OnQuadratic(low, a, b, c) && OnQuadratic(high, a, b, c)
    requires m0 == 2.0 * a * low.x + b && m1 == 2.0 * a * high.x + b
    ensures Hermite(low, high, m0, m1, x) == Quadratic(a, b, c, x)
  {
    hide Hermite, Cubic;
    var u, w, d := low.x, high.x - low.x, high.y - low.y;
    var t := (x - u) / w;
    OtherWay(x - u, w, t);
    HermiteIsCubic(low, high, m0, m1, x, w * m0, w * m1, t);
    ChordRise(low.x, high.x, a, b, c);
    RiseOf(u, w, a, b, m0, m1, d);
    InPowers(low.y, d, w * m0, w * m1, t);
    FromStart(u, w, a, b, c, m0, t, x);
  }

  lemma RiseOf(u: real, w: real, a: real, b: real, m0: real, m1: real, d: real)
    requires m0 == 2.0 * a * u + b && m1 == 2.0 * a * (u + w) + b && d == (a * (u + (u + w)) + b) * w
    ensures 3.0 * d - 2.0 * (w * m0) - w * m1 == a * (w * w) && w * m0 + w * m1 - 2.0 * d == 0.0
  {}

  lemma FromStart(u: real, w: real, a: real, b: real, c: real, m0: real, t: real, x: real)
    requires m0 == 2.0 * a * u + b && t * w == x - u
    ensures Quadratic(a, b, c, u) + (w * m0) * t + (a * (w * w)) * (t * t) == Quadratic(a, b, c, x)
  {
    var s := x - u;
    assert (w * m0) * t == m0 * s;
    assert (a * (w * w)) * (t * t) == a * (s * s);
    assert x == u + s;
  }

  /** Four points of a quadratic, evenly apart: between the inner two the curve is the quadratic. */
  lemma QuadraticKept(p: Curve, i: nat, a: real, b: real, c: real, x: real, root: real -> real)
    requires RootOk(root) && Increasing(p) && 0 < i && i + 2 < |p| && Gentle(p, root)
    requires p[i].x - p[i - 1].x == p[i + 1].x - p[i].x == p[i + 2].x - p[i + 1].x
    requires forall j | i - 1 <= j <= i + 2 :: OnQuadratic(p[j], a, b, c)
    ensures var d := Limited(p, |p| - 1, root);
      Hermite(p[i], p[i + 1], d[i], d[i + 1], x) == Quadratic(a, b, c, x)
  {
    hide Hermite, OnQuadratic, FirstTangent, Gentle, Limited;
    GentleStays(p, |p| - 1, root);
    EvenSlope(p, i, a, b, c);
    EvenSlope(p, i + 1, a, b, c);
    NextIsRight(p, i);
    HermiteOfQuadratic(p[i], p[i + 1], FirstTangent(p, i), FirstTangent(p, i + 1), a, b, c, x);
  }

  // ------------------------------------------------------- turned round

  /** The points turned half round the middle of the square. */
  ghost predicate TurnedRound(p: Curve, r: Curve) {
    && |r| == |p|
    && forall j | 0 <= j < |p| :: r[j] == CurvePoint(1.0 - p[|p| - 1 - j].x, 1.0 - p[|p| - 1 - j].y)
  }

  lemma TurnedSecant(p: Curve, r: Curve, i: nat)
    requires Increasing(p) && Increasing(r) && TurnedRound(p, r) && i + 1 < |p|
    ensures Secant(r, |p| - 2 - i) == Secant(p, i)
  {
    assert r[|p| - 2 - i] == CurvePoint(1.0 - p[i + 1].x, 1.0 - p[i + 1].y);
    assert r[|p| - 1 - i] == CurvePoint(1.0 - p[i].x, 1.0 - p[i].y);
  }

  lemma TurnedTangent(p: Curve, r: Curve, j: nat)
    requires Increasing(p) && Increasing(r) && TurnedRound(p, r) && |p| > 1 && j < |p|
    ensures FirstTangent(r, |p| - 1 - j) == FirstTangent(p, j)
  {
    hide Secant, TurnedRound;
    assert |r| == |p| by { TurnedLength(p, r); }
    if j > 0 { TurnedSecant(p, r, j - 1); }
    if j + 1 < |p| { TurnedSecant(p, r, j); }
  }

  lemma TurnedLength(p: Curve, r: Curve)
    requires TurnedRound(p, r)
    ensures |r| == |p|
  {}

  /** Turning the points half round turns the curve before the limiter half round. */
  lemma CurveTurnsRound(p: Curve, r: Curve, i: nat, x: real, root: real -> real)
    requires RootOk(root) && Increasing(p) && Increasing(r) && TurnedRound(p, r) && i + 1 < |p|
    ensures var (d, e, j) := (Limited(p, 0, root), Limited(r, 0, root), |p| - 2 - i);
      Hermite(r[j], r[j + 1], e[j], e[j + 1], 1.0 - x) == 1.0 - Hermite(p[i], p[i + 1], d[i], d[i + 1], x)
  {
    hide Hermite, FirstTangent, Limited, TurnedRound;
    var j := |p| - 2 - i;
    TurnedTangent(p, r, i);
    TurnedTangent(p, r, i + 1);
    TurnedPoints(p, r, i);
    BeforeLimiter(p, root);
    BeforeLimiter(r, root);
    NextIsRight(p, i);
    HermiteTurnsRound(p[i], p[i + 1], FirstTangent(p, i), FirstTangent(p, i + 1), x);
  }

  lemma TurnedPoints(p: Curve, r: Curve, i: nat)
    requires TurnedRound(p, r) && i + 1 < |p|
    ensures |r| == |p| && r[|p| - 2 - i] == CurvePoint(1.0 - p[i + 1].x, 1.0 - p[i + 1].y)
    ensures r[|p| - 1 - i] == CurvePoint(1.0 - p[i].x, 1.0 - p[i].y)
  {}

  lemma BeforeLimiter(p: Curve, root: real -> real)
    requires RootOk(root) && Increasing(p) && |p| > 1
    ensures |Limited(p, 0, root)| == |p| && forall i | 0 <= i < |p| :: Limited(p, 0, root)[i] == FirstTangent(p, i)
  {}

  lemma HermiteTurnsRound(low: CurvePoint, high: CurvePoint, m0: real, m1: real, x: real)
    requires low.x < high.x
    ensures Hermite(CurvePoint(1.0 - high.x, 1.0 - high.y), CurvePoint(1.0 - low.x, 1.0 - low.y), m1, m0, 1.0 - x)
         == 1.0 - Hermite(low, high, m0, m1, x)
  {
    hide Hermite, Cubic;
    var w, d := high.x - low.x, high.y - low.y;
    var t := (x - low.x) / w;
    var low', high' := CurvePoint(1.0 - high.x, 1.0 - high.y), CurvePoint(1.0 - low.x, 1.0 - low.y);
    HermiteIsCubic(low, high, m0, m1, x, w * m0, w * m1, t);
    assert high'.x - low'.x == w && high'.y - low'.y == d;
    RestOfWay(low.x, high.x, x, w, t);
    HermiteIsCubic(low', high', m1, m0, 1.0 - x, w * m1, w * m0, 1.0 - t);
    CubicReversed(1.0 - high.y, d, w * m1, w * m0, t);
    CubicUpended(low.y, d, w * m0, w * m1, t);
  }

  lemma RestOfWay(u: real, v: real, x: real, w: real, t: real)
    requires w == v - u > 0.0 && t == (x - u) / w
    ensures ((1.0 - x) - (1.0 - v)) / w == 1.0 - t
  {
    OtherWay(x - u, w, t);
    TimesOver(1.0 - t, w, v - x);
  }

  /** The curve is left out exactly when no point is more than a thousandth off y = x. */
  lemma IdentityIff(raw: seq<RawPoint>, root: real -> real)
    requires RootOk(root)
    ensures Build(raw, root).identity <==>
      forall p | p in Clean(raw) :: p.x - 0.001 <= p.y <= p.x + 0.001
  {
    hide Clean, Limited;
    CleanShaped(raw);
    var c := Clean(raw);
    if Build(raw, root).identity {
      forall p | p in c ensures p.x - 0.001 <= p.y <= p.x + 0.001 {
        var k :| 0 <= k < |c| && c[k] == p;
      }
    } else {
      var k :| 0 <= k < |c| && Abs(c[k].y - c[k].x) > IDENTITY_TOLERANCE;
      assert c[k] in c;
    }
  }
}
