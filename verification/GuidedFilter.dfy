/**
 * Smoothing that keeps edges: in every neighbourhood the line that best predicts the
 * value from the guide, from box averages alone.
 */
module GuidedFilters {
  import opened Grids
  import opened RealArithmetic
  import opened BoxFilters

  ghost function Cells(w: nat, h: nat, f: (int, int) -> real): (p: Plane)
    requires w > 0 && h > 0
    ensures Sized(p, w, h) && forall y, x | 0 <= y < h && 0 <= x < w :: p[y][x] == f(y, x)
  {
    seq(h, y => seq(w, x => f(y, x)))
  }

  ghost function Cell(p: Plane, y: int, x: int): real {
    if 0 <= y < |p| && 0 <= x < |p[y]| then p[y][x] else 0.0
  }

  function Times(a: real, b: real): real { a * b }
  function LineAt(slope: real, guide: real, offset: real): real { slope * guide + offset }

  ghost function Products(p: Plane, q: Plane, w: nat, h: nat): (r: Plane)
    requires Sized(p, w, h) && Sized(q, w, h)
    ensures Sized(r, w, h) && forall y, x | 0 <= y < h && 0 <= x < w :: r[y][x] == Times(p[y][x], q[y][x])
  {
    Cells(w, h, (y, x) => Times(Cell(p, y, x), Cell(q, y, x)))
  }

  /** The slope and the offset of the line through a neighbourhood with these moments. */
  function LineOf(meanGuide: real, meanValue: real, corrGuide: real, corrCross: real, epsilon: real): (real, real) {
    var variance, covariance := corrGuide - meanGuide * meanGuide, corrCross - meanGuide * meanValue;
    var slope := Divided(covariance, variance + epsilon);
    (slope, meanValue - slope * meanGuide)
  }

  /** The divisor is never zero here; see DivisorPositive. */
  function Divided(a: real, d: real): real { if d == 0.0 then 0.0 else a / d }

  /** The averages a neighbourhood's line is worked out from. */
  datatype Moments = Moments(meanGuide: Plane, meanValue: Plane, corrGuide: Plane, corrCross: Plane)

  ghost predicate MomentsSized(m: Moments, w: nat, h: nat) {
    Sized(m.meanGuide, w, h) && Sized(m.meanValue, w, h) && Sized(m.corrGuide, w, h) && Sized(m.corrCross, w, h)
  }

  ghost function MomentsOf(guide: Plane, value: Plane, w: nat, h: nat, r: nat): (m: Moments)
    requires Sized(guide, w, h) && Sized(value, w, h)
    ensures MomentsSized(m, w, h)
  {
    Moments(Box(guide, w, h, r), Box(value, w, h, r), Box(Products(guide, guide, w, h), w, h, r),
            Box(Products(guide, value, w, h), w, h, r))
  }

  ghost function LineIn(m: Moments, epsilon: real, y: int, x: int): (real, real) {
    LineOf(Cell(m.meanGuide, y, x), Cell(m.meanValue, y, x), Cell(m.corrGuide, y, x), Cell(m.corrCross, y, x), epsilon)
  }

  ghost function Slopes(m: Moments, epsilon: real, w: nat, h: nat): (a: Plane)
    requires w > 0 && h > 0
    ensures Sized(a, w, h) && forall y, x | 0 <= y < h && 0 <= x < w :: a[y][x] == LineIn(m, epsilon, y, x).0
  {
    Cells(w, h, (y, x) => LineIn(m, epsilon, y, x).0)
  }

  ghost function Offsets(m: Moments, epsilon: real, w: nat, h: nat): (b: Plane)
    requires w > 0 && h > 0
    ensures Sized(b, w, h) && forall y, x | 0 <= y < h && 0 <= x < w :: b[y][x] == LineIn(m, epsilon, y, x).1
  {
    Cells(w, h, (y, x) => LineIn(m, epsilon, y, x).1)
  }

  ghost function Lines(a: Plane, guide: Plane, b: Plane, w: nat, h: nat): (v: Plane)
    requires Sized(a, w, h) && Sized(b, w, h) && Sized(guide, w, h)
    ensures Sized(v, w, h)
    ensures forall y, x | 0 <= y < h && 0 <= x < w :: v[y][x] == LineAt(a[y][x], guide[y][x], b[y][x])
  {
    Cells(w, h, (y, x) => LineAt(Cell(a, y, x), Cell(guide, y, x), Cell(b, y, x)))
  }

  ghost function Guided(guide: Plane, value: Plane, w: nat, h: nat, r: nat, epsilon: real): (v: Plane)
    requires Sized(guide, w, h) && Sized(value, w, h)
    ensures Sized(v, w, h)
  {
    var m := MomentsOf(guide, value, w, h, r);
    Lines(Box(Slopes(m, epsilon, w, h), w, h, r), guide, Box(Offsets(m, epsilon, w, h), w, h, r), w, h)
  }

  // ------------------------------------------------------------- variance

  /** The square of a sum is at most the number of terms times the sum of their squares. */
  lemma {:induction false} SumSquares(row: Row, squares: Row, first: int, last: int)
    requires |row| == |squares| > 0 && first <= last && forall x | 0 <= x < |row| :: squares[x] >= row[x] * row[x]
    ensures Sum(row, first, last) * Sum(row, first, last) <= (last - first) as real * Sum(squares, first, last)
    ensures Sum(squares, first, last) >= 0.0
    decreases last - first
  {
    if first < last {
      SumSquares(row, squares, first, last - 1);
      var i := Edge(last - 1, |row|);
      SquareOne((last - 1 - first) as real, Sum(row, first, last - 1), Sum(squares, first, last - 1), row[i],
                squares[i]);
    }
  }

  /** From k S2 >= S^2, one more term a with q >= a^2. */
  lemma SquareOne(k: real, s: real, s2: real, a: real, q: real)
    requires k >= 0.0 && s * s <= k * s2 && q >= a * a && s2 >= 0.0 && (k == 0.0 ==> s == 0.0)
    ensures (s + a) * (s + a) <= (k + 1.0) * (s2 + q) && s2 + q >= 0.0
  {
    assert a * a >= 0.0;
    assert (k + 1.0) * (s2 + q) == k * s2 + s2 + k * q + q;
    assert (s + a) * (s + a) == s * s + 2.0 * (s * a) + a * a;
    NotNegative(k, q - a * a);
    assert s2 + k * (a * a) >= 2.0 * (s * a) by { Cross(k, s, s2, a); }
  }

  lemma Cross(k: real, s: real, s2: real, a: real)
    requires k >= 0.0 && s * s <= k * s2 && s2 >= 0.0
    ensures s2 + k * (a * a) >= 2.0 * (s * a)
  {
    if k == 0.0 {
      if s != 0.0 { SquarePositive(s); }
      assert s * a == 0.0;
    } else {
      var d := s2 + k * (a * a) - 2.0 * (s * a);
      var u := s - k * a;
      assert u * u == s * s - 2.0 * (k * (s * a)) + (k * k) * (a * a);
      assert k * d == k * s2 + (k * k) * (a * a) - 2.0 * (k * (s * a));
      assert k * d >= u * u;
      assert u * u >= 0.0;
      if d < 0.0 { Opposite(k, d); }
    }
  }

  lemma SquarePositive(s: real)
    requires s != 0.0
    ensures s * s > 0.0
  {}

  lemma Opposite(k: real, d: real)
    requires k > 0.0 && d < 0.0
    ensures k * d < 0.0
  {
    Positive(k, -d);
  }

  /** The average of the squares is at least the square of the average. */
  lemma MeanSquares(row: Row, squares: Row, x: int, r: nat)
    requires |row| == |squares| > 0 && forall x | 0 <= x < |row| :: squares[x] >= row[x] * row[x]
    ensures MeanAt(squares, x, r) >= MeanAt(row, x, r) * MeanAt(row, x, r)
  {
    hide Sum, Inverse;
    SumSquares(row, squares, x - r, x + r + 1);
    Weight(r);
    SquareScaled(WindowSum(row, x, r), WindowSum(squares, x, r), (2 * r + 1) as real, Inverse(r));
  }

  lemma SquareScaled(s: real, s2: real, n: real, i: real)
    requires s * s <= n * s2 && i * n == 1.0 && i > 0.0
    ensures (s * i) * (s * i) <= s2 * i
  {
    NotNegative(n * s2 - s * s, i * i);
    assert n * s2 * (i * i) == s2 * i * (i * n);
    assert (s * i) * (s * i) == s * s * (i * i);
  }

  ghost predicate Dominates(squares: Plane, p: Plane, w: nat, h: nat) {
    && Sized(p, w, h) && Sized(squares, w, h)
    && forall y, x | 0 <= y < h && 0 <= x < w :: squares[y][x] >= p[y][x] * p[y][x]
  }

  lemma HorizontalDominates(squares: Plane, p: Plane, w: nat, h: nat, r: nat)
    requires Dominates(squares, p, w, h)
    ensures Dominates(Horizontal(squares, w, h, r), Horizontal(p, w, h, r), w, h)
  {
    hide MeanAt;
    var s, q := Horizontal(squares, w, h, r), Horizontal(p, w, h, r);
    forall y, x | 0 <= y < h && 0 <= x < w ensures s[y][x] >= q[y][x] * q[y][x] {
      MeanSquares(p[y], squares[y], x, r);
    }
  }

  lemma TransposedDominates(squares: Plane, p: Plane, w: nat, h: nat)
    requires Dominates(squares, p, w, h)
    ensures Dominates(Transposed(squares, w, h), Transposed(p, w, h), h, w)
  {
    var s, q := Transposed(squares, w, h), Transposed(p, w, h);
    forall y, x | 0 <= y < w && 0 <= x < h ensures s[y][x] >= q[y][x] * q[y][x] {
      assert squares[x][y] >= p[x][y] * p[x][y];
    }
  }

  lemma BoxDominates(squares: Plane, p: Plane, w: nat, h: nat, r: nat)
    requires Sized(p, w, h) && Sized(squares, w, h) && Dominates(squares, p, w, h)
    ensures Dominates(Box(squares, w, h, r), Box(p, w, h, r), w, h)
  {
    hide Dominates, Horizontal, Transposed;
    var s1, p1 := Horizontal(squares, w, h, r), Horizontal(p, w, h, r);
    HorizontalDominates(squares, p, w, h, r);
    TransposedDominates(s1, p1, w, h);
    var s2, p2 := Transposed(s1, w, h), Transposed(p1, w, h);
    HorizontalDominates(s2, p2, h, w, r);
    TransposedDominates(Horizontal(s2, h, w, r), Horizontal(p2, h, w, r), h, w);
  }

  /** A neighbourhood's variance is never negative, so nothing is divided by zero. */
  lemma VarianceNotNegative(guide: Plane, value: Plane, w: nat, h: nat, r: nat, y: nat, x: nat)
    requires Sized(guide, w, h) && Sized(value, w, h) && y < h && x < w
    ensures var m := MomentsOf(guide, value, w, h, r);
      m.corrGuide[y][x] - m.meanGuide[y][x] * m.meanGuide[y][x] >= 0.0
  {
    hide Box, Horizontal, Transposed, Products;
    var squares := Products(guide, guide, w, h);
    assert Dominates(squares, guide, w, h);
    BoxDominates(squares, guide, w, h, r);
  }

  // ---------------------------------------------------------- the method

  method Clone(a: array2<real>) returns (b: array2<real>)
    ensures fresh(b) && b.Length0 == a.Length0 && b.Length1 == a.Length1 && Held(b) == Held(a)
  {
    b := new real[a.Length0, a.Length1];
    forall y, x | 0 <= y < a.Length0 && 0 <= x < a.Length1 { b[y, x] := a[y, x]; }
    if a.Length1 > 0 && a.Length0 > 0 { SameGrid(Held(a), Held(b), a.Length1, a.Length0); }
    assert forall y | 0 <= y < a.Length0 :: Held(b)[y] == Held(a)[y];
  }

  method Multiply(p: array2<real>, q: array2<real>) returns (r: array2<real>)
    requires p.Length0 == q.Length0 > 0 && p.Length1 == q.Length1 > 0
    ensures fresh(r) && r.Length0 == p.Length0 && r.Length1 == p.Length1
    ensures Held(r) == Products(Held(p), Held(q), p.Length1, p.Length0)
  {
    hide Products, Times;
    r := new real[p.Length0, p.Length1];
    forall y, x | 0 <= y < p.Length0 && 0 <= x < p.Length1 { r[y, x] := Times(p[y, x], q[y, x]); }
    SameGrid(Held(r), Products(Held(p), Held(q), p.Length1, p.Length0), p.Length1, p.Length0);
  }

  method GuidedFilter(guide: array2<real>, value: array2<real>, radius: nat, epsilon: real, scratch: array2<real>)
    requires guide.Length0 == value.Length0 == scratch.Length0 > 0
    requires guide.Length1 == value.Length1 == scratch.Length1 > 0
    requires guide != value && scratch != guide && scratch != value && epsilon > 0.0
    modifies value, scratch
    ensures Held(value)
         == Guided(Held(guide), old(Held(value)), guide.Length1, guide.Length0, radius, epsilon)
  {
    hide Box, Products, Slopes, Offsets, Lines, Held;
    var w, h := guide.Length1, guide.Length0;
    ghost var g, v := Held(guide), Held(value);
    assert Sized(g, w, h) && Sized(v, w, h);
    var meanGuide := Clone(guide);
    var meanValue := Clone(value);
    var corrGuide := Multiply(guide, guide);
    var corrCross := Multiply(guide, value);
    BoxBoth(meanGuide, scratch, radius);
    BoxBoth(meanValue, scratch, radius);
    BoxBoth(corrGuide, scratch, radius);
    BoxBoth(corrCross, scratch, radius);
    FitLines(meanGuide, meanValue, corrGuide, corrCross, epsilon);
    BoxBoth(corrGuide, scratch, radius);
    BoxBoth(corrCross, scratch, radius);
    Redraw(corrGuide, guide, corrCross, value);
  }

  /** A buffer holds a plane. */
  ghost predicate Holds(a: array2<real>, p: Plane)
    reads a
  {
    Sized(p, a.Length1, a.Length0) && forall y, x | 0 <= y < a.Length0 && 0 <= x < a.Length1 :: a[y, x] == Cell(p, y, x)
  }

  lemma HoldsContents(a: array2<real>)
    requires a.Length0 > 0 && a.Length1 > 0
    ensures Holds(a, Held(a))
  {}

  lemma HeldIs(a: array2<real>, p: Plane)
    requires Holds(a, p)
    ensures Held(a) == p
  {
    SameGrid(Held(a), p, a.Length1, a.Length0);
  }

  /** The slope and the offset of every neighbourhood's line, in place of its correlations. */
  method FitLines(meanGuide: array2<real>, meanValue: array2<real>, corrGuide: array2<real>, corrCross: array2<real>,
                  epsilon: real)
    requires meanGuide.Length0 == meanValue.Length0 == corrGuide.Length0 == corrCross.Length0 > 0
    requires meanGuide.Length1 == meanValue.Length1 == corrGuide.Length1 == corrCross.Length1 > 0
    requires corrGuide != corrCross && corrGuide != meanGuide && corrGuide != meanValue && corrCross != meanGuide
    requires corrCross != meanValue && epsilon > 0.0
    modifies corrGuide, corrCross
    ensures var m, w, h := old(Moments(Held(meanGuide), Held(meanValue), Held(corrGuide), Held(corrCross))),
                           meanGuide.Length1, meanGuide.Length0;
      Held(corrGuide) == Slopes(m, epsilon, w, h) && Held(corrCross) == Offsets(m, epsilon, w, h)
  {
    hide Slopes, Offsets, Held, LineIn;
    var w, h := meanGuide.Length1, meanGuide.Length0;
    ghost var m := Moments(Held(meanGuide), Held(meanValue), Held(corrGuide), Held(corrCross));
    ghost var a, b := Slopes(m, epsilon, w, h), Offsets(m, epsilon, w, h);
    HoldsContents(meanGuide);
    HoldsContents(meanValue);
    HoldsContents(corrGuide);
    HoldsContents(corrCross);
    for y := 0 to h
      invariant forall v, u | 0 <= v < y && 0 <= u < w ::
          corrGuide[v, u] == Cell(a, v, u) && corrCross[v, u] == Cell(b, v, u)
      invariant forall v, u | y <= v < h && 0 <= u < w ::
                  corrGuide[v, u] == Cell(m.corrGuide, v, u) && corrCross[v, u] == Cell(m.corrCross, v, u)
    {
      FitRow(meanGuide, meanValue, corrGuide, corrCross, epsilon, y, m);
    }
    HeldIs(corrGuide, a);
    HeldIs(corrCross, b);
  }

  method FitRow(meanGuide: array2<real>, meanValue: array2<real>, corrGuide: array2<real>, corrCross: array2<real>,
                epsilon: real, y: nat, ghost m: Moments)
    requires y < meanGuide.Length0 == meanValue.Length0 == corrGuide.Length0 == corrCross.Length0
    requires meanGuide.Length1 == meanValue.Length1 == corrGuide.Length1 == corrCross.Length1
    requires corrGuide != corrCross && corrGuide != meanGuide && corrGuide != meanValue && corrCross != meanGuide
    requires corrCross != meanValue
    requires forall x | 0 <= x < meanGuide.Length1 ::
               meanGuide[y, x] == Cell(m.meanGuide, y, x) && meanValue[y, x] == Cell(m.meanValue, y, x)
    requires forall x | 0 <= x < meanGuide.Length1 ::
               corrGuide[y, x] == Cell(m.corrGuide, y, x) && corrCross[y, x] == Cell(m.corrCross, y, x)
    modifies corrGuide, corrCross
    ensures forall x | 0 <= x < meanGuide.Length1 ::
              corrGuide[y, x] == LineIn(m, epsilon, y, x).0 && corrCross[y, x] == LineIn(m, epsilon, y, x).1
    ensures forall v, u | 0 <= v < meanGuide.Length0 && v != y && 0 <= u < meanGuide.Length1 ::
              corrGuide[v, u] == old(corrGuide[v, u]) && corrCross[v, u] == old(corrCross[v, u])
  {
    hide LineOf, Cell;
    var w := meanGuide.Length1;
    for x := 0 to w
      invariant forall u | 0 <= u < x ::
                  corrGuide[y, u] == LineIn(m, epsilon, y, u).0 && corrCross[y, u] == LineIn(m, epsilon, y, u).1
      invariant forall u | x <= u < w ::
          corrGuide[y, u] == Cell(m.corrGuide, y, u) && corrCross[y, u] == Cell(m.corrCross, y, u)
      invariant forall v, u | 0 <= v < meanGuide.Length0 && v != y && 0 <= u < w ::
                  corrGuide[v, u] == old(corrGuide[v, u]) && corrCross[v, u] == old(corrCross[v, u])
    {
      var (slope, offset) := LineOf(meanGuide[y, x], meanValue[y, x], corrGuide[y, x], corrCross[y, x], epsilon);
      corrGuide[y, x], corrCross[y, x] := slope, offset;
    }
  }

  method Redraw(a: array2<real>, guide: array2<real>, b: array2<real>, value: array2<real>)
    requires a.Length0 == b.Length0 == guide.Length0 == value.Length0 > 0
    requires a.Length1 == b.Length1 == guide.Length1 == value.Length1 > 0
    requires value != a && value != b && value != guide
    modifies value
    ensures Held(value) == Lines(Held(a), Held(guide), Held(b), a.Length1, a.Length0)
  {
    hide Lines, LineAt;
    forall y, x | 0 <= y < a.Length0 && 0 <= x < a.Length1 {
      value[y, x] := LineAt(a[y, x], guide[y, x], b[y, x]);
    }
    SameGrid(Held(value), Lines(Held(a), Held(guide), Held(b), a.Length1, a.Length0), a.Length1, a.Length0);
  }

  // --------------------------------------------------------- equivariance

  /** The divisor of every line is at least epsilon. */
  lemma DivisorPositive(guide: Plane, value: Plane, w: nat, h: nat, r: nat, epsilon: real, y: nat, x: nat)
    requires Sized(guide, w, h) && Sized(value, w, h) && y < h && x < w && epsilon > 0.0
    ensures var m := MomentsOf(guide, value, w, h, r);
      Cell(m.corrGuide, y, x) - Cell(m.meanGuide, y, x) * Cell(m.meanGuide, y, x) + epsilon >= epsilon
  {
    hide MomentsOf;
    VarianceNotNegative(guide, value, w, h, r, y, x);
  }

  lemma LineAffine(mg: real, mv: real, cg: real, cc: real, epsilon: real, p: real, q: real, mv': real, cc': real)
    requires mv' == p * mv + q && cc' == p * cc + q * mg
    ensures var (a, b), (a', b') := LineOf(mg, mv, cg, cc, epsilon), LineOf(mg, mv', cg, cc', epsilon);
      a' == p * a && b' == p * b + q
  {
    hide Divided;
    var d, v, v' := cg - mg * mg + epsilon, cc - mg * mv, cc' - mg * mv';
    Covariance(mg, mv, cc, p, q, mv', cc');
    DividedScales(p, v, v', d);
    Offset(p, q, mv, Divided(v, d), mg, mv', Divided(v', d));
  }

  lemma Covariance(mg: real, mv: real, cc: real, p: real, q: real, mv': real, cc': real)
    requires mv' == p * mv + q && cc' == p * cc + q * mg
    ensures cc' - mg * mv' == p * (cc - mg * mv)
  {
    assert mg * mv' == p * (mg * mv) + q * mg;
  }

  lemma DividedScales(p: real, v: real, v': real, d: real)
    requires v' == p * v
    ensures Divided(v', d) == p * Divided(v, d)
  {
    if d != 0.0 { Fraction(p, v, d); }
  }

  lemma Fraction(p: real, v: real, d: real)
    requires d != 0.0
    ensures (p * v) / d == p * (v / d)
  {}

  lemma Offset(p: real, q: real, mv: real, a: real, mg: real, mv': real, a': real)
    requires mv' == p * mv + q && a' == p * a
    ensures mv' - a' * mg == p * (mv - a * mg) + q
  {
    assert a' * mg == p * (a * mg);
  }

  /** The second moments are those of the first value, scaled and shifted. */
  lemma MomentsAffine(guide: Plane, value: Plane, other: Plane, p: real, q: real, w: nat, h: nat, r: nat)
    requires Sized(guide, w, h) && Sized(value, w, h) && Sized(other, w, h)
    requires forall y, x | 0 <= y < h && 0 <= x < w :: other[y][x] == p * value[y][x] + q
    ensures var m, n := MomentsOf(guide, value, w, h, r), MomentsOf(guide, other, w, h, r);
      && n.meanGuide == m.meanGuide && n.corrGuide == m.corrGuide
      && Combines(n.meanValue, m.meanValue, m.meanGuide, p, 0.0, q, w, h)
      && Combines(n.corrCross, m.corrCross, m.meanGuide, p, q, 0.0, w, h)
  {
    hide Box;
    assert Combines(other, value, guide, p, 0.0, q, w, h);
    BoxCombines(other, value, guide, p, 0.0, q, w, h, r);
    var cross, cross' := Products(guide, value, w, h), Products(guide, other, w, h);
    forall y, x | 0 <= y < h && 0 <= x < w ensures cross'[y][x] == p * cross[y][x] + q * guide[y][x] + 0.0 {
      CrossOne(p, q, guide[y][x], value[y][x], other[y][x]);
    }
    BoxCombines(cross', cross, guide, p, q, 0.0, w, h, r);
  }

  lemma CrossOne(p: real, q: real, g: real, v: real, o: real)
    requires o == p * v + q
    ensures Times(g, o) == p * Times(g, v) + q * g + 0.0
  {
    assert g * (p * v + q) == p * (g * v) + q * g;
  }

  lemma LinesAffine(m: Moments, n: Moments, epsilon: real, p: real, q: real, w: nat, h: nat)
    requires MomentsSized(m, w, h) && MomentsSized(n, w, h) && n.meanGuide == m.meanGuide && n.corrGuide == m.corrGuide
    requires Combines(n.meanValue, m.meanValue, m.meanGuide, p, 0.0, q, w, h)
    requires Combines(n.corrCross, m.corrCross, m.meanGuide, p, q, 0.0, w, h)
    ensures var a, b := Slopes(m, epsilon, w, h), Offsets(m, epsilon, w, h);
      && Combines(Slopes(n, epsilon, w, h), a, a, p, 0.0, 0.0, w, h)
      && Combines(Offsets(n, epsilon, w, h), b, b, p, 0.0, q, w, h)
  {
    hide LineOf, Slopes, Offsets;
    var a, b := Slopes(m, epsilon, w, h), Offsets(m, epsilon, w, h);
    var a', b' := Slopes(n, epsilon, w, h), Offsets(n, epsilon, w, h);
    forall y, x | 0 <= y < h && 0 <= x < w
      ensures a'[y][x] == p * a[y][x] + 0.0 * a[y][x] + 0.0 && b'[y][x] == p * b[y][x] + 0.0 * b[y][x] + q
    {
      LineAffine(m.meanGuide[y][x], m.meanValue[y][x], m.corrGuide[y][x], m.corrCross[y][x], epsilon, p, q,
                 n.meanValue[y][x], n.corrCross[y][x]);
    }
  }

  /**
   * Scaling and shifting what is filtered scales and shifts what comes out, so the
   * filter works the same at every brightness and contrast of the value plane.
   */
  lemma GuidedAffine(guide: Plane, value: Plane, other: Plane, p: real, q: real, w: nat, h: nat, r: nat, epsilon: real)
    requires Sized(guide, w, h) && Sized(value, w, h) && Sized(other, w, h)
    requires forall y, x | 0 <= y < h && 0 <= x < w :: other[y][x] == p * value[y][x] + q
    ensures var v, v' := Guided(guide, value, w, h, r, epsilon), Guided(guide, other, w, h, r, epsilon);
      forall y, x | 0 <= y < h && 0 <= x < w :: v'[y][x] == p * v[y][x] + q
  {
    hide Box, Slopes, Offsets, Lines, MomentsOf, LineAt;
    var m, n := MomentsOf(guide, value, w, h, r), MomentsOf(guide, other, w, h, r);
    MomentsAffine(guide, value, other, p, q, w, h, r);
    LinesAffine(m, n, epsilon, p, q, w, h);
    var a, b := Slopes(m, epsilon, w, h), Offsets(m, epsilon, w, h);
    var a', b' := Slopes(n, epsilon, w, h), Offsets(n, epsilon, w, h);
    BoxCombines(a', a, a, p, 0.0, 0.0, w, h, r);
    BoxCombines(b', b, b, p, 0.0, q, w, h, r);
    var A, B, A', B' := Box(a, w, h, r), Box(b, w, h, r), Box(a', w, h, r), Box(b', w, h, r);
    var v, v' := Lines(A, guide, B, w, h), Lines(A', guide, B', w, h);
    forall y, x | 0 <= y < h && 0 <= x < w ensures v'[y][x] == p * v[y][x] + q {
      RedrawOne(p, q, A[y][x], B[y][x], A'[y][x], B'[y][x], guide[y][x]);
    }
  }

  lemma RedrawOne(p: real, q: real, a: real, b: real, a': real, b': real, g: real)
    requires a' == p * a + 0.0 * a + 0.0 && b' == p * b + 0.0 * b + q
    ensures LineAt(a', g, b') == p * LineAt(a, g, b) + q
  {
    assert a' == p * a && b' == p * b + q;
    assert p * a * g + (p * b + q) == p * (a * g + b) + q;
  }

  /** A flat value plane comes out as it went in, whatever the guide. */
  lemma GuidedConstant(guide: Plane, value: Plane, level: real, w: nat, h: nat, r: nat, epsilon: real)
    requires Sized(guide, w, h) && Sized(value, w, h)
    requires forall y, x | 0 <= y < h && 0 <= x < w :: value[y][x] == level
    ensures Guided(guide, value, w, h, r, epsilon) == value
  {
    hide Guided;
    GuidedAffine(guide, value, value, 0.0, level, w, h, r, epsilon);
    var v := Guided(guide, value, w, h, r, epsilon);
    forall y, x | 0 <= y < h && 0 <= x < w ensures v[y][x] == value[y][x] {
      assert v[y][x] == 0.0 * v[y][x] + level;
      assert 0.0 * v[y][x] == 0.0;
    }
    SameGrid(v, value, w, h);
  }
}
