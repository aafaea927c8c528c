/**
 * What the guided filter's lines are for: each is the best a neighbourhood has, and each
 * pixel gets the mean of what the lines around it predict.
 */
module GuidedLines {
  import opened Grids
  import opened RealArithmetic
  import opened BoxFilters
  import opened GuidedFilters

  /** The square of how far the line of slope `a` and offset `b` misses `v` at `g`. */
  function Miss(a: real, b: real, g: real, v: real): real {
    (a * g + b - v) * (a * g + b - v)
  }

  ghost function Misses(a: real, b: real, guide: Plane, value: Plane, w: nat, h: nat): (e: Plane)
    requires Sized(guide, w, h) && Sized(value, w, h)
    ensures Sized(e, w, h) && forall y, x | 0 <= y < h && 0 <= x < w :: e[y][x] == Miss(a, b, guide[y][x], value[y][x])
  {
    Cells(w, h, (y, x) => Miss(a, b, Cell(guide, y, x), Cell(value, y, x)))
  }

  /** The mean miss of a line in the neighbourhood of a pixel, and a price on its slope. */
  ghost function Cost(a: real, b: real, guide: Plane, value: Plane, w: nat, h: nat, r: nat, epsilon: real,
                      y: nat, x: nat): real
    requires Sized(guide, w, h) && Sized(value, w, h) && y < h && x < w
  {
    Box(Misses(a, b, guide, value, w, h), w, h, r)[y][x] + epsilon * (a * a)
  }

  /** The mean miss in terms of the six moments. */
  function MeanMiss(a: real, b: real, mg: real, mv: real, gg: real, gv: real, vv: real): real {
    (a * a) * gg + (2.0 * a * b) * mg + b * b + (-2.0 * a) * gv + (-2.0 * b) * mv + vv
  }

  lemma MissOpened(a: real, b: real, g: real, v: real)
    ensures Miss(a, b, g, v)
         == (a * a) * Times(g, g) + (2.0 * a * b) * g + b * b + (-2.0 * a) * Times(g, v) + (-2.0 * b) * v + Times(v, v)
  {
    var p := a * g;
    assert p * p == (a * a) * (g * g) && p * b == (a * b) * g && p * v == a * (g * v);
    assert (p + b - v) * (p + b - v) == p * p + b * b + v * v + 2.0 * (p * b) - 2.0 * (p * v) - 2.0 * (b * v);
  }

  /** A plane made of two others, cell by cell. */
  ghost function Mixed(a: Plane, b: Plane, s: real, t: real, k: real, w: nat, h: nat): (c: Plane)
    requires Sized(a, w, h) && Sized(b, w, h)
    ensures Sized(c, w, h) && Combines(c, a, b, s, t, k, w, h)
  {
    var c := Cells(w, h, (y, x) => s * Cell(a, y, x) + t * Cell(b, y, x) + k);
    c
  }

  lemma MixedBox(a: Plane, b: Plane, s: real, t: real, k: real, w: nat, h: nat, r: nat, y: nat, x: nat)
    requires Sized(a, w, h) && Sized(b, w, h) && y < h && x < w
    ensures Box(Mixed(a, b, s, t, k, w, h), w, h, r)[y][x] == s * Box(a, w, h, r)[y][x] + t * Box(b, w, h, r)[y][x] + k
  {
    hide Box, Mixed;
    BoxCombines(Mixed(a, b, s, t, k, w, h), a, b, s, t, k, w, h, r);
  }

  lemma MissesMixed(a: real, b: real, guide: Plane, value: Plane, w: nat, h: nat)
    requires Sized(guide, w, h) && Sized(value, w, h)
    ensures var squares, cross, own :=
              Products(guide, guide, w, h), Products(guide, value, w, h), Products(value, value, w, h);
      Misses(a, b, guide, value, w, h)
        == Mixed(Mixed(Mixed(Mixed(squares, guide, a * a, 2.0 * a * b, b * b, w, h), cross, 1.0, -2.0 * a, 0.0, w, h),
                       value, 1.0, -2.0 * b, 0.0, w, h), own, 1.0, 1.0, 0.0, w, h)
  {
    hide Products, Mixed, Miss, Times;
    var squares, cross, own := Products(guide, guide, w, h), Products(guide, value, w, h), Products(value, value, w, h);
    var first := Mixed(squares, guide, a * a, 2.0 * a * b, b * b, w, h);
    var second := Mixed(first, cross, 1.0, -2.0 * a, 0.0, w, h);
    var third := Mixed(second, value, 1.0, -2.0 * b, 0.0, w, h);
    var whole := Mixed(third, own, 1.0, 1.0, 0.0, w, h);
    forall y, x | 0 <= y < h && 0 <= x < w ensures Misses(a, b, guide, value, w, h)[y][x] == whole[y][x] {
      MissOpened(a, b, guide[y][x], value[y][x]);
      assert first[y][x] == (a * a) * squares[y][x] + (2.0 * a * b) * guide[y][x] + b * b;
      assert second[y][x] == 1.0 * first[y][x] + (-2.0 * a) * cross[y][x] + 0.0;
      assert third[y][x] == 1.0 * second[y][x] + (-2.0 * b) * value[y][x] + 0.0;
      assert whole[y][x] == 1.0 * third[y][x] + 1.0 * own[y][x] + 0.0;
    }
    SameGrid(Misses(a, b, guide, value, w, h), whole, w, h);
  }

  lemma MissIs(a: real, b: real, guide: Plane, value: Plane, w: nat, h: nat, r: nat, y: nat, x: nat)
    requires Sized(guide, w, h) && Sized(value, w, h) && y < h && x < w
    ensures var m := MomentsOf(guide, value, w, h, r);
      Box(Misses(a, b, guide, value, w, h), w, h, r)[y][x]
      == MeanMiss(a, b, m.meanGuide[y][x], m.meanValue[y][x], m.corrGuide[y][x], m.corrCross[y][x],
                  Box(Products(value, value, w, h), w, h, r)[y][x])
  {
    hide Box, Products, Mixed, Misses;
    MissesMixed(a, b, guide, value, w, h);
    var squares, cross, own := Products(guide, guide, w, h), Products(guide, value, w, h), Products(value, value, w, h);
    var first := Mixed(squares, guide, a * a, 2.0 * a * b, b * b, w, h);
    var second := Mixed(first, cross, 1.0, -2.0 * a, 0.0, w, h);
    var third := Mixed(second, value, 1.0, -2.0 * b, 0.0, w, h);
    MixedBox(squares, guide, a * a, 2.0 * a * b, b * b, w, h, r, y, x);
    MixedBox(first, cross, 1.0, -2.0 * a, 0.0, w, h, r, y, x);
    MixedBox(second, value, 1.0, -2.0 * b, 0.0, w, h, r, y, x);
    MixedBox(third, own, 1.0, 1.0, 0.0, w, h, r, y, x);
  }

  /** What another slope and offset cost over the best: a sum of two squares. */
  function Excess(da: real, db: real, mg: real, d: real): real {
    d * (da * da) + (db + mg * da) * (db + mg * da)
  }

  lemma CostOver(a: real, b: real, a': real, b': real, mg: real, mv: real, gg: real, gv: real, vv: real, epsilon: real)
    requires var d := gg - mg * mg + epsilon; a * d == gv - mg * mv && b == mv - a * mg
    ensures MeanMiss(a', b', mg, mv, gg, gv, vv) + epsilon * (a' * a')
         == MeanMiss(a, b, mg, mv, gg, gv, vv) + epsilon * (a * a) + Excess(a' - a, b' - b, mg, gg - mg * mg + epsilon)
  {
    CompletedSquares(a', b', mg, mv, gg, gv, vv, epsilon, a);
    CompletedSquares(a, b, mg, mv, gg, gv, vv, epsilon, a);
    assert b + a * mg - mv == 0.0;
    assert b' + a' * mg - mv == (b' - b) + mg * (a' - a);
  }

  lemma CompletedSquares(a: real, b: real, mg: real, mv: real, gg: real, gv: real, vv: real, epsilon: real, best: real)
    requires var d := gg - mg * mg + epsilon; best * d == gv - mg * mv
    ensures var d := gg - mg * mg + epsilon; var off := b + a * mg - mv;
      MeanMiss(a, b, mg, mv, gg, gv, vv) + epsilon * (a * a)
      == off * off + d * ((a - best) * (a - best)) - d * (best * best) + vv - mv * mv
  {
    var d, off := gg - mg * mg + epsilon, b + a * mg - mv;
    OffSquared(a, b, mg, mv, off);
    FromBest(a, best, mg, mv, gg, gv, epsilon, d);
  }

  lemma OffSquared(a: real, b: real, mg: real, mv: real, off: real)
    requires off == b + a * mg - mv
    ensures off * off == b * b + (a * a) * (mg * mg) + mv * mv + 2.0 * ((a * b) * mg) - 2.0 * (b * mv)
                         - 2.0 * (a * (mg * mv))
  {
    var p := a * mg;
    assert off * off == b * b + p * p + mv * mv + 2.0 * (b * p) - 2.0 * (b * mv) - 2.0 * (p * mv);
    assert p * p == (a * a) * (mg * mg) && b * p == (a * b) * mg && p * mv == a * (mg * mv);
  }

  lemma FromBest(a: real, best: real, mg: real, mv: real, gg: real, gv: real, epsilon: real, d: real)
    requires d == gg - mg * mg + epsilon && best * d == gv - mg * mv
    ensures d * ((a - best) * (a - best)) - d * (best * best)
         == (a * a) * gg - (a * a) * (mg * mg) + epsilon * (a * a) - 2.0 * (a * gv) + 2.0 * (a * (mg * mv))
  {
    assert d * ((a - best) * (a - best)) == d * (a * a) - 2.0 * (a * (best * d)) + d * (best * best);
    assert d * (a * a) == (a * a) * gg - (a * a) * (mg * mg) + epsilon * (a * a);
    assert a * (best * d) == a * gv - a * (mg * mv);
  }

  lemma ExcessSign(da: real, db: real, mg: real, d: real)
    requires d > 0.0
    ensures Excess(da, db, mg, d) >= 0.0 && (Excess(da, db, mg, d) == 0.0 ==> da == 0.0 && db == 0.0)
  {
    var off := db + mg * da;
    SumSign(d, da, off, da * da, off * off, d * (da * da));
    if da == 0.0 { assert mg * da == 0.0; }
  }

  lemma SumSign(d: real, da: real, off: real, p: real, o: real, dp: real)
    requires d > 0.0 && p == da * da && o == off * off && dp == d * p
    ensures dp + o >= 0.0 && (dp + o == 0.0 ==> da == 0.0 && off == 0.0)
  {
    SquareSign(da, p);
    SquareSign(off, o);
    if da != 0.0 { ProductPositive(d, p, dp); }
  }

  /** The line fitted in a neighbourhood costs less than any other. */
  lemma LineIsBest(guide: Plane, value: Plane, w: nat, h: nat, r: nat, epsilon: real, y: nat, x: nat,
                   a': real, b': real)
    requires Sized(guide, w, h) && Sized(value, w, h) && y < h && x < w && epsilon > 0.0
    ensures var (a, b) := LineIn(MomentsOf(guide, value, w, h, r), epsilon, y, x);
      var best := Cost(a, b, guide, value, w, h, r, epsilon, y, x);
      var other := Cost(a', b', guide, value, w, h, r, epsilon, y, x);
      best <= other && (best == other ==> a == a' && b == b')
  {
    hide Box, Misses, MeanMiss, Excess, MomentsOf, Products;
    var m := MomentsOf(guide, value, w, h, r);
    var (a, b) := LineIn(m, epsilon, y, x);
    MissIs(a, b, guide, value, w, h, r, y, x);
    MissIs(a', b', guide, value, w, h, r, y, x);
    DivisorPositive(guide, value, w, h, r, epsilon, y, x);
    var (mg, mv, gg, gv) := (m.meanGuide[y][x], m.meanValue[y][x], m.corrGuide[y][x], m.corrCross[y][x]);
    var vv := Box(Products(value, value, w, h), w, h, r)[y][x];
    LineSolves(mg, mv, gg, gv, epsilon);
    CostOver(a, b, a', b', mg, mv, gg, gv, vv, epsilon);
    ExcessSign(a' - a, b' - b, mg, gg - mg * mg + epsilon);
  }

  lemma LineSolves(mg: real, mv: real, gg: real, gv: real, epsilon: real)
    requires gg - mg * mg + epsilon > 0.0
    ensures var (a, b) := LineOf(mg, mv, gg, gv, epsilon);
      a * (gg - mg * mg + epsilon) == gv - mg * mv && b == mv - a * mg
  {}

  /** What the lines of all neighbourhoods predict where the guide is `g`. */
  ghost function Predictions(m: Moments, epsilon: real, g: real, w: nat, h: nat): (p: Plane)
    requires w > 0 && h > 0
    ensures Sized(p, w, h)
    ensures forall y, x | 0 <= y < h && 0 <= x < w ::
      p[y][x] == LineAt(LineIn(m, epsilon, y, x).0, g, LineIn(m, epsilon, y, x).1)
  {
    Cells(w, h, (y, x) => LineAt(LineIn(m, epsilon, y, x).0, g, LineIn(m, epsilon, y, x).1))
  }

  /** Each pixel of the result is the mean, over its neighbourhood, of what the lines there predict for it. */
  lemma GuidedIsMeanPrediction(guide: Plane, value: Plane, w: nat, h: nat, r: nat, epsilon: real, y: nat, x: nat)
    requires Sized(guide, w, h) && Sized(value, w, h) && y < h && x < w
    ensures Guided(guide, value, w, h, r, epsilon)[y][x]
         == Box(Predictions(MomentsOf(guide, value, w, h, r), epsilon, guide[y][x], w, h), w, h, r)[y][x]
  {
    hide Box, MomentsOf, LineIn, Slopes, Offsets, Predictions;
    var m, g := MomentsOf(guide, value, w, h, r), guide[y][x];
    var a, b, p := Slopes(m, epsilon, w, h), Offsets(m, epsilon, w, h), Predictions(m, epsilon, g, w, h);
    forall v, u | 0 <= v < h && 0 <= u < w ensures p[v][u] == g * a[v][u] + 1.0 * b[v][u] + 0.0 {}
    BoxCombines(p, a, b, g, 1.0, 0.0, w, h, r);
  }
}
