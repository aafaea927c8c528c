/**
 * Moving averages by running sums, across and down, and the guided filter built from them.
 */
module BoxFilters {
  import opened Grids
  import opened RealArithmetic

  type Row = seq<real>
  type Plane = Grid<real>

  // --------------------------------------------------------------- one row

  /** The sum of a row over [first, last), the row going on as its end values past its ends. */
  function Sum(row: Row, first: int, last: int): real
    requires |row| > 0 && first <= last
    decreases last - first
  {
    if first == last then 0.0 else Sum(row, first, last - 1) + row[Edge(last - 1, |row|)]
  }

  function WindowSum(row: Row, x: int, r: nat): real
    requires |row| > 0
  {
    Sum(row, x - r, x + r + 1)
  }

  function Inverse(r: nat): real { 1.0 / (2 * r + 1) as real }

  function MeanAt(row: Row, x: int, r: nat): real
    requires |row| > 0
  {
    WindowSum(row, x, r) * Inverse(r)
  }

  lemma {:induction false} SumFirst(row: Row, first: int, last: int)
    requires |row| > 0 && first < last
    ensures Sum(row, first, last) == row[Edge(first, |row|)] + Sum(row, first + 1, last)
    decreases last - first
  {
    if first + 1 < last { SumFirst(row, first, last - 1); }
  }

  lemma WindowSlides(row: Row, x: nat, r: nat)
    requires |row| > 0 && x < |row|
    ensures WindowSum(row, x + 1, r)
         == WindowSum(row, x, r) + row[if |row| - 1 < x + r + 1 then |row| - 1 else x + r + 1]
            - row[if x - r > 0 then x - r else 0]
  {
    SumFirst(row, x - r, x + r + 1);
    assert WindowSum(row, x + 1, r) == Sum(row, x - r + 1, x + r + 1) + row[Edge(x + r + 1, |row|)];
  }

  /** To the left of the row there is only its first value. */
  lemma {:induction false} SumBefore(row: Row, r: nat)
    requires |row| > 0
    ensures Sum(row, 0 - r, 1) == row[0] * (r + 1) as real
  {
    if r == 0 {
      assert Sum(row, 0, 1) == Sum(row, 0, 0) + row[0];
    } else {
      SumBefore(row, r - 1);
      SumFirst(row, 0 - r, 1);
      assert row[0] * (r + 1) as real == row[0] * r as real + row[0];
    }
  }

  // ------------------------------------------------------------- the passes

  function Smoothed(row: Row, r: nat): (s: Row)
    requires |row| > 0
    ensures |s| == |row| && forall x | 0 <= x < |s| :: s[x] == MeanAt(row, x, r)
  {
    seq(|row|, x requires 0 <= x < |row| => MeanAt(row, x, r))
  }

  ghost function Horizontal(p: Plane, w: nat, h: nat, r: nat): (q: Plane)
    requires Sized(p, w, h)
    ensures Sized(q, w, h) && forall y | 0 <= y < h :: q[y] == Smoothed(p[y], r)
  {
    seq(h, y requires 0 <= y < h => Smoothed(p[y], r))
  }

  ghost function Transposed(p: Plane, w: nat, h: nat): (q: Plane)
    requires Sized(p, w, h)
    ensures Sized(q, h, w) && forall y, x | 0 <= y < h && 0 <= x < w :: q[x][y] == p[y][x]
  {
    seq(w, x requires 0 <= x < w => seq(h, y requires 0 <= y < h => p[y][x]))
  }

  /** The pass downwards is the pass across, of the plane turned over. */
  ghost function Vertical(p: Plane, w: nat, h: nat, r: nat): (q: Plane)
    requires Sized(p, w, h)
    ensures Sized(q, w, h)
    ensures forall y, x | 0 <= y < h && 0 <= x < w :: q[y][x] == MeanAt(Transposed(p, w, h)[x], y, r)
  {
    Transposed(Horizontal(Transposed(p, w, h), h, w, r), h, w)
  }

  ghost function Box(p: Plane, w: nat, h: nat, r: nat): (q: Plane)
    requires Sized(p, w, h)
    ensures Sized(q, w, h)
  {
    Vertical(Horizontal(p, w, h, r), w, h, r)
  }

  method BoxHorizontal(source: array2<real>, target: array2<real>, radius: nat)
    requires source.Length0 == target.Length0 > 0 && source.Length1 == target.Length1 > 0 && source != target
    modifies target
    ensures Held(target) == Horizontal(Held(source), source.Length1, source.Length0, radius)
  {
    hide MeanAt, WindowSum, Sum;
    var w, h := source.Length1, source.Length0;
    ghost var p := Held(source);
    for y := 0 to h
      invariant forall v, u | 0 <= v < y && 0 <= u < w :: target[v, u] == MeanAt(p[v], u, radius)
    {
      RowAcross(source, target, radius, y);
    }
    SameGrid(Held(target), Horizontal(p, w, h, radius), w, h);
  }

  /** One row of the pass across. */
  method RowAcross(source: array2<real>, target: array2<real>, radius: nat, y: nat)
    requires source.Length0 == target.Length0 > y && source.Length1 == target.Length1 > 0 && source != target
    modifies target
    ensures var row := Held(source)[y]; forall u | 0 <= u < target.Length1 :: target[y, u] == MeanAt(row, u, radius)
    ensures forall v, u | 0 <= v < target.Length0 && v != y && 0 <= u < target.Length1 ::
              target[v, u] == old(target[v, u])
  {
    hide MeanAt, WindowSum;
    var w := source.Length1;
    ghost var row := Held(source)[y];
    var inverse := 1.0 / (2 * radius + 1) as real;
    var sum := source[y, 0] * (radius + 1) as real;
    SumBefore(row, radius);
    for i := 1 to radius + 1
      invariant sum == Sum(row, 0 - radius, i)
    {
      sum := sum + source[y, if i < w - 1 then i else w - 1];
    }
    WindowIs(row, 0, radius);
    for x := 0 to w
      invariant forall v, u | 0 <= v < target.Length0 && v != y && 0 <= u < w :: target[v, u] == old(target[v, u])
      invariant forall u | 0 <= u < x :: target[y, u] == MeanAt(row, u, radius)
      invariant sum == WindowSum(row, x, radius)
    {
      MeanIs(row, x, radius);
      target[y, x] := sum * inverse;
      WindowSlides(row, x, radius);
      sum := sum + source[y, if w - 1 < x + radius + 1 then w - 1 else x + radius + 1]
                 - source[y, if x - radius > 0 then x - radius else 0];
    }
  }

  lemma WindowIs(row: Row, x: int, r: nat)
    requires |row| > 0
    ensures WindowSum(row, x, r) == Sum(row, x - r, x + r + 1)
  {}

  lemma MeanIs(row: Row, x: int, r: nat)
    requires |row| > 0
    ensures MeanAt(row, x, r) == WindowSum(row, x, r) * (1.0 / (2 * r + 1) as real)
  {}

  method BoxVertical(source: array2<real>, target: array2<real>, radius: nat)
    requires source.Length0 == target.Length0 > 0 && source.Length1 == target.Length1 > 0 && source != target
    modifies target
    ensures Held(target) == Vertical(Held(source), source.Length1, source.Length0, radius)
  {
    hide MeanAt, WindowSum, Sum;
    var w, h := source.Length1, source.Length0;
    ghost var t := Transposed(Held(source), w, h);
    var sums := FirstSums(source, radius, t);
    for y := 0 to h
      invariant forall v, u | 0 <= v < y && 0 <= u < w :: target[v, u] == MeanAt(t[u], v, radius)
      invariant forall u | 0 <= u < w :: sums[u] == WindowSum(t[u], y, radius)
    {
      RowDown(source, target, sums, radius, y, t);
    }
    SameGrid(Held(target), Vertical(Held(source), w, h, radius), w, h);
  }

  /** A plane turned over holds what the buffer holds. */
  ghost predicate Columns(source: array2<real>, t: Plane)
    reads source
  {
    && |t| == source.Length1 && (forall u | 0 <= u < |t| :: |t[u]| == source.Length0)
    && forall u, v | 0 <= u < |t| && 0 <= v < |t[u]| :: t[u][v] == source[v, u]
  }

  /** The sums of every column's first window. */
  method FirstSums(source: array2<real>, radius: nat, ghost t: Plane) returns (sums: array<real>)
    requires source.Length0 > 0 && source.Length1 > 0 && Columns(source, t)
    ensures fresh(sums) && sums.Length == source.Length1
    ensures forall u | 0 <= u < sums.Length :: sums[u] == WindowSum(t[u], 0, radius)
  {
    hide WindowSum, Sum;
    var w, h := source.Length1, source.Length0;
    sums := new real[w];
    for x := 0 to w
      invariant forall u | 0 <= u < x :: sums[u] == Sum(t[u], 0 - radius, 1)
    {
      SumBefore(t[x], radius);
      sums[x] := source[0, x] * (radius + 1) as real;
    }
    for i := 1 to radius + 1
      invariant forall u | 0 <= u < w :: sums[u] == Sum(t[u], 0 - radius, i)
    {
      AddRow(source, sums, radius, i, t);
    }
    forall u | 0 <= u < w ensures sums[u] == WindowSum(t[u], 0, radius) { WindowIs(t[u], 0, radius); }
  }

  method AddRow(source: array2<real>, sums: array<real>, radius: nat, i: nat, ghost t: Plane)
    requires source.Length0 > 0 && source.Length1 == sums.Length && Columns(source, t)
    requires forall u | 0 <= u < sums.Length :: sums[u] == Sum(t[u], 0 - radius, i)
    modifies sums
    ensures forall u | 0 <= u < sums.Length :: sums[u] == Sum(t[u], 0 - radius, i + 1)
  {
    hide Sum;
    var row := if i < source.Length0 - 1 then i else source.Length0 - 1;
    for x := 0 to sums.Length
      invariant forall u | 0 <= u < x :: sums[u] == Sum(t[u], 0 - radius, i + 1)
      invariant forall u | x <= u < sums.Length :: sums[u] == Sum(t[u], 0 - radius, i)
    {
      SumLast(t[x], 0 - radius, i + 1);
      sums[x] := sums[x] + source[row, x];
    }
  }

  lemma SumLast(row: Row, first: int, last: int)
    requires |row| > 0 && first < last
    ensures Sum(row, first, last) == Sum(row, first, last - 1) + row[Edge(last - 1, |row|)]
  {}

  /** One row of the pass downwards, moving every column's window on. */
  method RowDown(source: array2<real>, target: array2<real>, sums: array<real>, radius: nat, y: nat, ghost t: Plane)
    requires source.Length0 == target.Length0 > y && source.Length1 == target.Length1 == sums.Length
    requires source != target && Columns(source, t)
    requires forall u | 0 <= u < sums.Length :: sums[u] == WindowSum(t[u], y, radius)
    modifies target, sums
    ensures forall u | 0 <= u < sums.Length :: sums[u] == WindowSum(t[u], y + 1, radius)
    ensures forall u | 0 <= u < sums.Length :: target[y, u] == MeanAt(t[u], y, radius)
    ensures forall v, u | 0 <= v < target.Length0 && v != y && 0 <= u < target.Length1 ::
              target[v, u] == old(target[v, u])
  {
    hide MeanAt, WindowSum;
    var w, h := source.Length1, source.Length0;
    var inverse := 1.0 / (2 * radius + 1) as real;
    var entering := if h - 1 < y + radius + 1 then h - 1 else y + radius + 1;
    var leaving := if y - radius > 0 then y - radius else 0;
    for x := 0 to w
      invariant forall v, u | 0 <= v < h && v != y && 0 <= u < w :: target[v, u] == old(target[v, u])
      invariant forall u | 0 <= u < x :: target[y, u] == MeanAt(t[u], y, radius)
      invariant forall u | 0 <= u < x :: sums[u] == WindowSum(t[u], y + 1, radius)
      invariant forall u | x <= u < w :: sums[u] == WindowSum(t[u], y, radius)
    {
      MeanIs(t[x], y, radius);
      WindowSlides(t[x], y, radius);
      target[y, x] := sums[x] * inverse;
      sums[x] := sums[x] + (source[entering, x] - source[leaving, x]);
    }
  }

  // ------------------------------------------------------- averages behave

  /** Every average is the same combination of the planes it is taken of, and keeps constants. */
  lemma {:induction false} SumCombines(c: Row, a: Row, b: Row, s: real, t: real, k: real, first: int, last: int)
    requires |a| == |b| == |c| > 0 && first <= last
    requires forall x | 0 <= x < |c| :: c[x] == s * a[x] + t * b[x] + k
    ensures Sum(c, first, last) == s * Sum(a, first, last) + t * Sum(b, first, last) + k * (last - first) as real
    decreases last - first
  {
    hide Sum;
    if first == last {
      SumNone(a, first);
      SumNone(b, first);
      SumNone(c, first);
    } else {
      SumCombines(c, a, b, s, t, k, first, last - 1);
      SumLast(a, first, last);
      SumLast(b, first, last);
      SumLast(c, first, last);
      var i := Edge(last - 1, |c|);
      CombineOne(s, t, k, Sum(a, first, last - 1), Sum(b, first, last - 1), (last - 1 - first) as real, a[i], b[i]);
    }
  }

  lemma SumNone(row: Row, at: int)
    requires |row| > 0
    ensures Sum(row, at, at) == 0.0
  {}

  lemma CombineOne(s: real, t: real, k: real, a: real, b: real, n: real, a': real, b': real)
    ensures s * a + t * b + k * n + (s * a' + t * b' + k) == s * (a + a') + t * (b + b') + k * (n + 1.0)
  {}

  lemma Weight(r: nat)
    ensures Inverse(r) > 0.0 && Inverse(r) * (2 * r + 1) as real == 1.0
  {}

  lemma MeanCombines(c: Row, a: Row, b: Row, s: real, t: real, k: real, x: int, r: nat)
    requires |a| == |b| == |c| > 0
    requires forall x | 0 <= x < |c| :: c[x] == s * a[x] + t * b[x] + k
    ensures MeanAt(c, x, r) == s * MeanAt(a, x, r) + t * MeanAt(b, x, r) + k
  {
    hide Sum, Inverse;
    SumCombines(c, a, b, s, t, k, x - r, x + r + 1);
    Weight(r);
    Scaled(s, t, k, WindowSum(a, x, r), WindowSum(b, x, r), (2 * r + 1) as real, Inverse(r));
  }

  lemma Scaled(s: real, t: real, k: real, a: real, b: real, n: real, i: real)
    requires i * n == 1.0
    ensures (s * a + t * b + k * n) * i == s * (a * i) + t * (b * i) + k
  {
    assert k * n * i == k * (i * n);
  }

  /** One plane is a fixed combination of two others, cell by cell. */
  ghost predicate Combines(c: Plane, a: Plane, b: Plane, s: real, t: real, k: real, w: nat, h: nat) {
    && Sized(a, w, h) && Sized(b, w, h) && Sized(c, w, h)
    && forall y, x | 0 <= y < h && 0 <= x < w :: c[y][x] == s * a[y][x] + t * b[y][x] + k
  }

  lemma HorizontalCombines(c: Plane, a: Plane, b: Plane, s: real, t: real, k: real, w: nat, h: nat, r: nat)
    requires Combines(c, a, b, s, t, k, w, h)
    ensures Combines(Horizontal(c, w, h, r), Horizontal(a, w, h, r), Horizontal(b, w, h, r), s, t, k, w, h)
  {
    hide MeanAt;
    var hc, ha, hb := Horizontal(c, w, h, r), Horizontal(a, w, h, r), Horizontal(b, w, h, r);
    forall y, x | 0 <= y < h && 0 <= x < w ensures hc[y][x] == s * ha[y][x] + t * hb[y][x] + k {
      MeanCombines(c[y], a[y], b[y], s, t, k, x, r);
    }
  }

  lemma TransposedCombines(c: Plane, a: Plane, b: Plane, s: real, t: real, k: real, w: nat, h: nat)
    requires Combines(c, a, b, s, t, k, w, h)
    ensures Combines(Transposed(c, w, h), Transposed(a, w, h), Transposed(b, w, h), s, t, k, h, w)
  {
    var tc, ta, tb := Transposed(c, w, h), Transposed(a, w, h), Transposed(b, w, h);
    hide Transposed;
    forall y, x | 0 <= y < w && 0 <= x < h ensures tc[y][x] == s * ta[y][x] + t * tb[y][x] + k {
      assert tc[y][x] == c[x][y] && ta[y][x] == a[x][y] && tb[y][x] == b[x][y];
    }
  }

  lemma BoxCombines(c: Plane, a: Plane, b: Plane, s: real, t: real, k: real, w: nat, h: nat, r: nat)
    requires Sized(a, w, h) && Sized(b, w, h) && Sized(c, w, h) && Combines(c, a, b, s, t, k, w, h)
    ensures Combines(Box(c, w, h, r), Box(a, w, h, r), Box(b, w, h, r), s, t, k, w, h)
  {
    hide Combines, Horizontal, Transposed;
    HorizontalCombines(c, a, b, s, t, k, w, h, r);
    var c1, a1, b1 := Horizontal(c, w, h, r), Horizontal(a, w, h, r), Horizontal(b, w, h, r);
    TransposedCombines(c1, a1, b1, s, t, k, w, h);
    var c2, a2, b2 := Transposed(c1, w, h), Transposed(a1, w, h), Transposed(b1, w, h);
    HorizontalCombines(c2, a2, b2, s, t, k, h, w, r);
    TransposedCombines(Horizontal(c2, h, w, r), Horizontal(a2, h, w, r), Horizontal(b2, h, w, r), s, t, k, h, w);
  }

  /** One bright place in a dark row, away from its ends. */
  ghost predicate Impulse(row: Row, at: nat) {
    0 < at < |row| - 1 && forall i | 0 <= i < |row| :: row[i] == if i == at then 1.0 else 0.0
  }

  lemma {:induction false} ImpulseSum(row: Row, at: nat, first: int, last: int)
    requires Impulse(row, at) && first <= last
    ensures Sum(row, first, last) == if first <= at < last then 1.0 else 0.0
    decreases last - first
  {
    if first < last { ImpulseSum(row, at, first, last - 1); }
  }

  /** It is spread evenly over the places within the radius, and no further. */
  lemma ImpulseSpreads(row: Row, at: nat, x: int, r: nat)
    requires Impulse(row, at)
    ensures MeanAt(row, x, r) == if at - r <= x <= at + r then 1.0 / (2 * r + 1) as real else 0.0
  {
    ImpulseSum(row, at, x - r, x + r + 1);
  }

  // ----------------------------------------------------------- bounds

  lemma {:induction false} SumBounds(row: Row, low: real, high: real, first: int, last: int)
    requires |row| > 0 && first <= last && forall x | 0 <= x < |row| :: low <= row[x] <= high
    ensures low * (last - first) as real <= Sum(row, first, last) <= high * (last - first) as real
    decreases last - first
  {
    if first < last {
      SumBounds(row, low, high, first, last - 1);
      Distribute(low, (last - 1 - first) as real, 1.0);
      Distribute(high, (last - 1 - first) as real, 1.0);
    }
  }

  lemma MeanBounds(row: Row, low: real, high: real, x: int, r: nat)
    requires |row| > 0 && forall x | 0 <= x < |row| :: low <= row[x] <= high
    ensures low <= MeanAt(row, x, r) <= high
  {
    hide Sum, Inverse;
    SumBounds(row, low, high, x - r, x + r + 1);
    Weight(r);
    ScaledBounds(low, WindowSum(row, x, r), high, (2 * r + 1) as real, Inverse(r));
  }

  lemma ScaledBounds(low: real, s: real, high: real, n: real, i: real)
    requires low * n <= s <= high * n && i * n == 1.0 && i > 0.0
    ensures low <= s * i <= high
  {
    AtMost(low * n, s, i);
    AtMost(s, high * n, i);
    assert low * n * i == low * (i * n) && high * n * i == high * (i * n);
  }

  ghost predicate Between(p: Plane, low: real, high: real) {
    forall y, x | 0 <= y < |p| && 0 <= x < |p[y]| :: low <= p[y][x] <= high
  }

  lemma HorizontalBetween(p: Plane, low: real, high: real, w: nat, h: nat, r: nat)
    requires Sized(p, w, h) && Between(p, low, high)
    ensures Between(Horizontal(p, w, h, r), low, high)
  {
    hide MeanAt;
    var q := Horizontal(p, w, h, r);
    forall y, x | 0 <= y < |q| && 0 <= x < |q[y]| ensures low <= q[y][x] <= high {
      MeanBounds(p[y], low, high, x, r);
    }
  }

  lemma TransposedBetween(p: Plane, low: real, high: real, w: nat, h: nat)
    requires Sized(p, w, h) && Between(p, low, high)
    ensures Between(Transposed(p, w, h), low, high)
  {}

  /** Averaging never leaves the range of what is averaged. */
  lemma BoxBetween(p: Plane, low: real, high: real, w: nat, h: nat, r: nat)
    requires Sized(p, w, h) && Between(p, low, high)
    ensures Between(Box(p, w, h, r), low, high)
  {
    hide Between, Horizontal, Transposed;
    HorizontalBetween(p, low, high, w, h, r);
    TransposedBetween(Horizontal(p, w, h, r), low, high, w, h);
    var t := Transposed(Horizontal(p, w, h, r), w, h);
    HorizontalBetween(t, low, high, h, w, r);
    TransposedBetween(Horizontal(t, h, w, r), low, high, h, w);
  }

  ghost function Blurred(p: Plane, w: nat, h: nat, r: nat, passes: nat): (q: Plane)
    requires Sized(p, w, h)
    ensures Sized(q, w, h)
  {
    if passes == 0 then p else Box(Blurred(p, w, h, r, passes - 1), w, h, r)
  }

  method Blur(values: array2<real>, scratch: array2<real>, radius: nat)
    requires values.Length0 == scratch.Length0 > 0 && values.Length1 == scratch.Length1 > 0 && values != scratch
    modifies values, scratch
    ensures var p, w, h := old(Held(values)), values.Length1, values.Length0;
      Held(values) == if radius < 1 then p else Blurred(p, w, h, radius, 3)
  {
    hide Horizontal, Vertical, Transposed, Smoothed;
    if radius < 1 { return; }
    ghost var p := Held(values);
    for pass := 0 to 3
      invariant Held(values) == Blurred(p, values.Length1, values.Length0, radius, pass)
    {
      BoxBoth(values, scratch, radius);
    }
  }

  /** One pass each way, in place by way of a scratch buffer. */
  method BoxBoth(values: array2<real>, scratch: array2<real>, radius: nat)
    requires values.Length0 == scratch.Length0 > 0 && values.Length1 == scratch.Length1 > 0 && values != scratch
    modifies values, scratch
    ensures Held(values) == Box(old(Held(values)), values.Length1, values.Length0, radius)
  {
    hide Horizontal, Vertical, Transposed, Smoothed;
    BoxHorizontal(values, scratch, radius);
    BoxVertical(scratch, values, radius);
  }

  lemma {:induction false} BlurredBetween(p: Plane, low: real, high: real, w: nat, h: nat, r: nat, passes: nat)
    requires Sized(p, w, h) && Between(p, low, high)
    ensures Between(Blurred(p, w, h, r, passes), low, high)
  {
    if passes > 0 {
      BlurredBetween(p, low, high, w, h, r, passes - 1);
      BoxBetween(Blurred(p, w, h, r, passes - 1), low, high, w, h, r);
    }
  }
}
