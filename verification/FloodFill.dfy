/**
 * The background behind a subject, on a coarse grid: cells that have seen background
 * spread into those that have not, and the grid is smoothed.
 */
module Backgrounds {
  import opened Grids
  import opened Integers
  import opened Options
  import opened RealArithmetic

  datatype Colour = Colour(r: real, g: real, b: real) {
    function Plus(o: Colour): Colour { Colour(r + o.r, g + o.g, b + o.b) }
    function Over(n: nat): Colour
      requires n > 0
    {
      Colour(r / n as real, g / n as real, b / n as real)
    }
  }

  const BLACK := Colour(0.0, 0.0, 0.0)

  datatype Cell = Cell(colour: Colour, weight: real)
  type Cells = Grid<Cell>

  const KNOWN_WEIGHT: real := 0.0001

  predicate IsKnown(c: Cell) { c.weight > KNOWN_WEIGHT }

  // ---------------------------------------------------------------- one pass

  /** The known ones of the first `k` of a cell's nine neighbours, added up. */
  function Tally(g: Cells, w: nat, h: nat, y: int, x: int, k: nat): (Colour, nat)
    requires Sized(g, w, h) && k <= 9
  {
    if k == 0 then (BLACK, 0) else
    var (sum, count) := Tally(g, w, h, y, x, k - 1);
    var ny, nx := y + (k - 1) / 3 - 1, x + (k - 1) % 3 - 1;
    if 0 <= ny < h && 0 <= nx < w && IsKnown(g[ny][nx]) then (sum.Plus(g[ny][nx].colour), count + 1) else (sum, count)
  }

  /** A known cell stays; an unknown one becomes the average of its known neighbours, if it has any. */
  function SpreadCell(g: Cells, w: nat, h: nat, y: int, x: int): Cell
    requires Sized(g, w, h) && 0 <= y < h && 0 <= x < w
  {
    if IsKnown(g[y][x]) then g[y][x] else
    var (sum, count) := Tally(g, w, h, y, x, 9);
    if count == 0 then g[y][x] else Cell(sum.Over(count), 1.0)
  }

  ghost function Spread(g: Cells, w: nat, h: nat): (r: Cells)
    requires Sized(g, w, h)
    ensures Sized(r, w, h) && forall y, x | 0 <= y < h && 0 <= x < w :: r[y][x] == SpreadCell(g, w, h, y, x)
  {
    seq(h, y requires 0 <= y < h => seq(w, x requires 0 <= x < w => SpreadCell(g, w, h, y, x)))
  }

  ghost function Passes(g: Cells, w: nat, h: nat, n: nat): (r: Cells)
    requires Sized(g, w, h)
    ensures Sized(r, w, h)
  {
    if n == 0 then g else Spread(Passes(g, w, h, n - 1), w, h)
  }

  ghost predicate AllKnown(g: Cells, w: nat, h: nat)
    requires Sized(g, w, h)
  {
    forall y, x | 0 <= y < h && 0 <= x < w :: IsKnown(g[y][x])
  }

  lemma TallyNone(g: Cells, w: nat, h: nat, y: int, x: int)
    requires Sized(g, w, h)
    ensures Tally(g, w, h, y, x, 0) == (BLACK, 0)
  {}

  lemma TallyAt(g: Cells, w: nat, h: nat, y: int, x: int, dy: int, dx: int)
    requires Sized(g, w, h) && -1 <= dy <= 1 && -1 <= dx <= 1
    ensures var k := 3 * (dy + 1) + dx + 1;
      var (sum, count) := Tally(g, w, h, y, x, k);
      Tally(g, w, h, y, x, k + 1)
      == if 0 <= y + dy < h && 0 <= x + dx < w && IsKnown(g[y + dy][x + dx])
         then (sum.Plus(g[y + dy][x + dx].colour), count + 1) else (sum, count)
  {
    var k := 3 * (dy + 1) + dx + 1;
    assert k / 3 - 1 == dy && k % 3 - 1 == dx;
  }

  method CellAfter(grid: array2<Cell>, y: nat, x: nat) returns (cell: Cell)
    requires y < grid.Length0 && x < grid.Length1
    ensures cell == SpreadCell(Held(grid), grid.Length1, grid.Length0, y, x)
  {
    hide Held, Tally, IsKnown;
    var w, h := grid.Length1, grid.Length0;
    ghost var g := Held(grid);
    if IsKnown(grid[y, x]) { return grid[y, x]; }
    TallyNone(g, w, h, y, x);
    var sum, count := BLACK, 0;
    for dy := -1 to 2
      invariant (sum, count) == Tally(g, w, h, y, x, 3 * (dy + 1))
    {
      for dx := -1 to 2
        invariant (sum, count) == Tally(g, w, h, y, x, 3 * (dy + 1) + dx + 1)
      {
        var nx, ny := x + dx, y + dy;
        TallyAt(g, w, h, y, x, dy, dx);
        if nx < 0 || ny < 0 || nx >= w || ny >= h { continue; }
        if !IsKnown(grid[ny, nx]) { continue; }
        sum, count := sum.Plus(grid[ny, nx].colour), count + 1;
      }
    }
    cell := if count == 0 then grid[y, x] else Cell(sum.Over(count), 1.0);
  }

  method Pass(grid: array2<Cell>) returns (next: array2<Cell>, missing: bool)
    requires grid.Length0 > 0 && grid.Length1 > 0
    ensures fresh(next) && next.Length0 == grid.Length0 && next.Length1 == grid.Length1
    ensures Held(next) == Spread(Held(grid), grid.Length1, grid.Length0)
    ensures missing == !AllKnown(Held(next), grid.Length1, grid.Length0)
  {
    hide Held, SpreadCell, Spread;
    var w, h := grid.Length1, grid.Length0;
    ghost var g := Held(grid);
    next := new Cell[h, w];
    missing := false;
    for y := 0 to h
      invariant forall v, u | 0 <= v < y && 0 <= u < w :: next[v, u] == SpreadCell(g, w, h, v, u)
      invariant missing == exists v, u :: 0 <= v < y && 0 <= u < w && !IsKnown(next[v, u])
    {
      for x := 0 to w
        invariant forall v, u | 0 <= v < y && 0 <= u < w :: next[v, u] == SpreadCell(g, w, h, v, u)
        invariant forall u | 0 <= u < x :: next[y, u] == SpreadCell(g, w, h, y, u)
        invariant missing == ((exists v, u :: 0 <= v < y && 0 <= u < w && !IsKnown(next[v, u]))
                              || exists u :: 0 <= u < x && !IsKnown(next[y, u]))
      {
        var cell := CellAfter(grid, y, x);
        label before:
        next[y, x] := cell;
        assert forall v, u | 0 <= v < y && 0 <= u < w :: next[v, u] == old@before(next[v, u]);
        assert forall u | 0 <= u < x :: next[y, u] == old@before(next[y, u]);
        if !IsKnown(cell) { missing := true; }
      }
    }
    SameGrid(Held(next), Spread(g, w, h), w, h);
    if !missing {
      assert AllKnown(Held(next), w, h);
    } else {
      var v, u :| 0 <= v < h && 0 <= u < w && !IsKnown(next[v, u]);
      assert !IsKnown(Held(next)[v][u]);
    }
  }

  method FloodFill(start: array2<Cell>) returns (grid: array2<Cell>)
    requires start.Length0 > 0 && start.Length1 > 0
    ensures grid.Length0 == start.Length0 && grid.Length1 == start.Length1
    ensures Held(grid) == Passes(Held(start), start.Length1, start.Length0, start.Length1 + start.Length0)
  {
    hide Held, Spread, AllKnown;
    var w, h := start.Length1, start.Length0;
    ghost var g := Held(start);
    grid := start;
    for pass := 0 to w + h
      invariant grid.Length0 == h && grid.Length1 == w && Held(grid) == Passes(g, w, h, pass)
    {
      var missing;
      grid, missing := Pass(grid);
      if !missing {
        FullStays(g, w, h, pass + 1, w + h);
        return;
      }
    }
  }

  lemma {:induction false} FullStays(g: Cells, w: nat, h: nat, n: nat, m: nat)
    requires Sized(g, w, h) && n <= m && AllKnown(Passes(g, w, h, n), w, h)
    ensures Passes(g, w, h, m) == Passes(g, w, h, n)
  {
    hide SpreadCell;
    if n < m {
      FullStays(g, w, h, n, m - 1);
      KnownStays(Passes(g, w, h, n), w, h);
    }
  }

  /** Nothing is left to spread into. */
  lemma KnownStays(g: Cells, w: nat, h: nat)
    requires Sized(g, w, h) && AllKnown(g, w, h)
    ensures Spread(g, w, h) == g
  {
    SameGrid(Spread(g, w, h), g, w, h);
  }

  // ------------------------------------------------------------ how far it gets

  function Abs(n: int): int { if n < 0 then -n else n }

  /** Steps to a neighbour, sideways or diagonally. */
  function Distance(y: int, x: int, v: int, u: int): nat {
    if Abs(y - v) > Abs(x - u) then Abs(y - v) else Abs(x - u)
  }

  /** A known cell no further than `n` away. */
  ghost predicate KnownWithin(g: Cells, w: nat, h: nat, y: int, x: int, n: nat)
    requires Sized(g, w, h)
  {
    exists v, u :: 0 <= v < h && 0 <= u < w && IsKnown(g[v][u]) && Distance(y, x, v, u) <= n
  }

  /** The `j`-th of a cell's nine neighbours is there and known. */
  predicate Counts(g: Cells, w: nat, h: nat, y: int, x: int, j: nat)
    requires Sized(g, w, h)
  {
    var ny, nx := y + j / 3 - 1, x + j % 3 - 1;
    0 <= ny < h && 0 <= nx < w && IsKnown(g[ny][nx])
  }

  lemma TallyNext(g: Cells, w: nat, h: nat, y: int, x: int, k: nat)
    requires Sized(g, w, h) && k < 9
    ensures Tally(g, w, h, y, x, k + 1).1 == Tally(g, w, h, y, x, k).1 + (if Counts(g, w, h, y, x, k) then 1 else 0)
  {}

  /** Some neighbour counts exactly when one is known. */
  lemma {:induction false} TallyCount(g: Cells, w: nat, h: nat, y: int, x: int, k: nat)
    requires Sized(g, w, h) && k <= 9
    ensures Tally(g, w, h, y, x, k).1 > 0 <==> exists j: nat :: j < k && Counts(g, w, h, y, x, j)
  {
    hide Counts;
    if k > 0 {
      TallyNext(g, w, h, y, x, k - 1);
      TallyCount(g, w, h, y, x, k - 1);
    }
  }

  lemma SpreadKnown(g: Cells, w: nat, h: nat, y: int, x: int)
    requires Sized(g, w, h) && 0 <= y < h && 0 <= x < w
    ensures IsKnown(Spread(g, w, h)[y][x]) <==> KnownWithin(g, w, h, y, x, 1)
  {
    hide Tally;
    TallyCount(g, w, h, y, x, 9);
    if IsKnown(g[y][x]) { assert Distance(y, x, y, x) <= 1; }
    if j: nat :| j < 9 && Counts(g, w, h, y, x, j) {
      assert Distance(y, x, y + j / 3 - 1, x + j % 3 - 1) <= 1;
    }
    if v, u :| 0 <= v < h && 0 <= u < w && IsKnown(g[v][u]) && Distance(y, x, v, u) <= 1 {
      var j := 3 * (v - y + 1) + (u - x + 1);
      assert j / 3 == v - y + 1 && j % 3 == u - x + 1;
      assert Counts(g, w, h, y, x, j);
    }
  }

  /** A cell is known after `n` passes exactly when a cell known at the start is within `n` steps of it. */
  lemma {:induction false} PassesReach(g: Cells, w: nat, h: nat, n: nat, y: int, x: int)
    requires Sized(g, w, h) && 0 <= y < h && 0 <= x < w
    ensures IsKnown(Passes(g, w, h, n)[y][x]) <==> KnownWithin(g, w, h, y, x, n)
  {
    hide SpreadCell, Spread, Distance, Towards;
    if n == 0 {
      Apart(y, x);
    } else {
      var p := Passes(g, w, h, n - 1);
      SpreadKnown(p, w, h, y, x);
      if v, u :| 0 <= v < h && 0 <= u < w && IsKnown(p[v][u]) && Distance(y, x, v, u) <= 1 {
        PassesReach(g, w, h, n - 1, v, u);
        var b, a :| 0 <= b < h && 0 <= a < w && IsKnown(g[b][a]) && Distance(v, u, b, a) <= n - 1;
        Triangle(y, x, v, u, b, a);
      }
      if b, a :| 0 <= b < h && 0 <= a < w && IsKnown(g[b][a]) && Distance(y, x, b, a) <= n {
        var v, u := Towards(y, b), Towards(x, a);
        OneStep(y, x, b, a);
        PassesReach(g, w, h, n - 1, v, u);
      }
    }
  }

  function Towards(y: int, b: int): int { if y < b then y + 1 else if y > b then y - 1 else y }

  lemma Apart(y: int, x: int)
    ensures forall v, u :: Distance(y, x, v, u) == 0 <==> y == v && x == u
  {}

  lemma Triangle(y: int, x: int, v: int, u: int, b: int, a: int)
    ensures Distance(y, x, b, a) <= Distance(y, x, v, u) + Distance(v, u, b, a)
  {}

  lemma OneStep(y: int, x: int, b: int, a: int)
    ensures var v, u := Towards(y, b), Towards(x, a);
      && Distance(y, x, v, u) <= 1 && Distance(v, u, b, a) <= Max(0, Distance(y, x, b, a) - 1)
      && (y <= v <= b || b <= v <= y) && (x <= u <= a || a <= u <= x)
  {}

  /** One known cell is enough: within width plus height passes there is no unknown one. */
  lemma FillsTheGrid(g: Cells, w: nat, h: nat, v: int, u: int)
    requires Sized(g, w, h) && 0 <= v < h && 0 <= u < w && IsKnown(g[v][u])
    ensures AllKnown(Passes(g, w, h, w + h), w, h)
  {
    hide Passes;
    var p := Passes(g, w, h, w + h);
    forall y, x | 0 <= y < h && 0 <= x < w ensures IsKnown(p[y][x]) {
      PassesReach(g, w, h, w + h, y, x);
      assert Distance(y, x, v, u) <= w + h;
    }
  }

  // ------------------------------------------------------------------ bounds

  predicate Between(c: Colour, low: Colour, high: Colour) {
    low.r <= c.r <= high.r && low.g <= c.g <= high.g && low.b <= c.b <= high.b
  }

  /** Every known cell's colour lies between two, channel by channel. */
  ghost predicate KnownBetween(g: Cells, w: nat, h: nat, low: Colour, high: Colour)
    requires Sized(g, w, h)
  {
    forall y, x | 0 <= y < h && 0 <= x < w && IsKnown(g[y][x]) :: Between(g[y][x].colour, low, high)
  }

  /** A sum of `n` colours that lie between two. */
  predicate SumBetween(s: Colour, n: nat, low: Colour, high: Colour) {
    Times(low.r, n, s.r, high.r) && Times(low.g, n, s.g, high.g) && Times(low.b, n, s.b, high.b)
  }

  predicate Times(low: real, n: nat, s: real, high: real) { low * n as real <= s <= high * n as real }

  lemma SumGrows(s: Colour, n: nat, c: Colour, low: Colour, high: Colour)
    requires SumBetween(s, n, low, high) && Between(c, low, high)
    ensures SumBetween(s.Plus(c), n + 1, low, high)
  {
    hide SumBetween;
    OneColour(c, low, high);
    SumsAdd(s, n, c, 1, low, high);
  }

  lemma OneColour(c: Colour, low: Colour, high: Colour)
    requires Between(c, low, high)
    ensures SumBetween(c, 1, low, high)
  {}

  lemma SumsAdd(s: Colour, n: nat, t: Colour, m: nat, low: Colour, high: Colour)
    requires SumBetween(s, n, low, high) && SumBetween(t, m, low, high)
    ensures SumBetween(s.Plus(t), n + m, low, high)
  {
    hide Times;
    TimesAdd(low.r, n, s.r, m, t.r, high.r);
    TimesAdd(low.g, n, s.g, m, t.g, high.g);
    TimesAdd(low.b, n, s.b, m, t.b, high.b);
  }

  lemma TimesAdd(low: real, n: nat, s: real, m: nat, t: real, high: real)
    requires Times(low, n, s, high) && Times(low, m, t, high)
    ensures Times(low, n + m, s + t, high)
  {
    var k, i := n as real, m as real;
    assert (n + m) as real == k + i;
    assert low * (k + i) == low * k + low * i && high * (k + i) == high * k + high * i;
  }

  lemma AverageBetween(s: Colour, n: nat, low: Colour, high: Colour)
    requires SumBetween(s, n, low, high) && n > 0
    ensures Between(s.Over(n), low, high)
  {
    hide Times;
    QuotientBetween(s.r, n, low.r, high.r);
    QuotientBetween(s.g, n, low.g, high.g);
    QuotientBetween(s.b, n, low.b, high.b);
  }

  lemma QuotientBetween(s: real, n: nat, low: real, high: real)
    requires n > 0 && Times(low, n, s, high)
    ensures low <= s / n as real <= high
  {
    ShareBetween(s, n as real, low, high);
  }

  lemma {:induction false} TallyBetween(g: Cells, w: nat, h: nat, y: int, x: int, k: nat, low: Colour, high: Colour)
    requires Sized(g, w, h) && k <= 9 && KnownBetween(g, w, h, low, high)
    ensures var (s, n) := Tally(g, w, h, y, x, k); SumBetween(s, n, low, high)
  {
    hide SumBetween, Between;
    if k == 0 {
      EmptySum(low, high);
    } else {
      TallyBetween(g, w, h, y, x, k - 1, low, high);
      var (s, n) := Tally(g, w, h, y, x, k - 1);
      var ny, nx := y + (k - 1) / 3 - 1, x + (k - 1) % 3 - 1;
      if 0 <= ny < h && 0 <= nx < w && IsKnown(g[ny][nx]) { SumGrows(s, n, g[ny][nx].colour, low, high); }
    }
  }

  lemma EmptySum(low: Colour, high: Colour)
    ensures SumBetween(BLACK, 0, low, high)
  {}

  lemma SpreadBetween(g: Cells, w: nat, h: nat, low: Colour, high: Colour)
    requires Sized(g, w, h) && KnownBetween(g, w, h, low, high)
    ensures KnownBetween(Spread(g, w, h), w, h, low, high)
  {
    hide Tally, SumBetween, Between;
    var r := Spread(g, w, h);
    forall y, x | 0 <= y < h && 0 <= x < w && IsKnown(r[y][x]) ensures Between(r[y][x].colour, low, high) {
      var (s, n) := Tally(g, w, h, y, x, 9);
      TallyBetween(g, w, h, y, x, 9, low, high);
      if !IsKnown(g[y][x]) && n > 0 { AverageBetween(s, n, low, high); }
    }
  }

  lemma {:induction false} PassesBetween(g: Cells, w: nat, h: nat, n: nat, low: Colour, high: Colour)
    requires Sized(g, w, h) && KnownBetween(g, w, h, low, high)
    ensures KnownBetween(Passes(g, w, h, n), w, h, low, high)
  {
    hide KnownBetween;
    if n > 0 {
      PassesBetween(g, w, h, n - 1, low, high);
      SpreadBetween(Passes(g, w, h, n - 1), w, h, low, high);
    }
  }

  // --------------------------------------------------------------- smoothing

  type Colours = Grid<Colour>

  function Side(r: nat): nat { 2 * r + 1 }

  /** The first `k` columns of a window in one row, the row going on as its ends. */
  function Across(row: seq<Colour>, x: int, r: nat, k: nat): Colour
    requires |row| > 0
  {
    if k == 0 then BLACK else Across(row, x, r, k - 1).Plus(row[Edge(x - r + k - 1, |row|)])
  }

  /** The first `j` rows of a window, and `k` columns of the row after them. */
  function Window(p: Colours, w: nat, h: nat, y: int, x: int, r: nat, j: nat): Colour
    requires Sized(p, w, h)
  {
    if j == 0 then BLACK
    else Window(p, w, h, y, x, r, j - 1).Plus(Across(p[Edge(y - r + j - 1, h)], x, r, Side(r)))
  }

  lemma SideSquared(r: nat)
    ensures Side(r) * Side(r) > 0
  {}

  function SmoothedCell(p: Colours, w: nat, h: nat, y: int, x: int, r: nat): Colour
    requires Sized(p, w, h)
  {
    SideSquared(r);
    Window(p, w, h, y, x, r, Side(r)).Over(Side(r) * Side(r))
  }

  ghost function Smoothed(p: Colours, w: nat, h: nat, r: nat): (q: Colours)
    requires Sized(p, w, h)
    ensures Sized(q, w, h) && forall y, x | 0 <= y < h && 0 <= x < w :: q[y][x] == SmoothedCell(p, w, h, y, x, r)
  {
    seq(h, y requires 0 <= y < h => seq(w, x requires 0 <= x < w => SmoothedCell(p, w, h, y, x, r)))
  }

  method SmoothCell(rgb: array2<Colour>, y: nat, x: nat, radius: nat) returns (c: Colour)
    requires y < rgb.Length0 && x < rgb.Length1
    ensures c == SmoothedCell(Held(rgb), rgb.Length1, rgb.Length0, y, x, radius)
  {
    hide Held;
    var w, h := rgb.Length1, rgb.Length0;
    ghost var p := Held(rgb);
    var sum, count := BLACK, 0;
    for dy := 0 - radius to radius + 1
      invariant sum == Window(p, w, h, y, x, radius, dy + radius) && count == (dy + radius) * Side(radius)
    {
      var ny := Edge(y + dy, h);
      ghost var above, before := sum, count;
      ghost var j := dy + radius;
      assert ny == Edge(y - radius + j, h);
      for dx := 0 - radius to radius + 1
        invariant sum == above.Plus(Across(p[ny], x, radius, dx + radius)) && count == before + (dx + radius)
      {
        assert Edge(x + dx, w) == Edge(x - radius + (dx + radius + 1) - 1, w);
        sum, count := sum.Plus(rgb[ny, Edge(x + dx, w)]), count + 1;
      }
      assert count == (j + 1) * Side(radius) by { OneRow(j, Side(radius)); }
    }
    SideSquared(radius);
    c := sum.Over(count);
  }

  lemma OneRow(j: int, s: int)
    ensures j * s + s == (j + 1) * s
  {}

  method Smooth(rgb: array2<Colour>, radius: nat) returns (out: array2<Colour>)
    requires rgb.Length0 > 0 && rgb.Length1 > 0
    ensures out.Length0 == rgb.Length0 && out.Length1 == rgb.Length1
    ensures Held(out) == if radius < 1 then Held(rgb) else Smoothed(Held(rgb), rgb.Length1, rgb.Length0, radius)
  {
    hide Held, SmoothedCell;
    if radius < 1 { return rgb; }
    var w, h := rgb.Length1, rgb.Length0;
    ghost var p := Held(rgb);
    out := new Colour[h, w];
    for y := 0 to h
      invariant forall v, u | 0 <= v < y && 0 <= u < w :: out[v, u] == SmoothedCell(p, w, h, v, u, radius)
    {
      for x := 0 to w
        invariant forall v, u | 0 <= v < y && 0 <= u < w :: out[v, u] == SmoothedCell(p, w, h, v, u, radius)
        invariant forall u | 0 <= u < x :: out[y, u] == SmoothedCell(p, w, h, y, u, radius)
      {
        out[y, x] := SmoothCell(rgb, y, x, radius);
      }
    }
    SameGrid(Held(out), Smoothed(p, w, h, radius), w, h);
  }

  ghost predicate AllBetween(p: Colours, w: nat, h: nat, low: Colour, high: Colour)
    requires Sized(p, w, h)
  {
    forall y, x | 0 <= y < h && 0 <= x < w :: Between(p[y][x], low, high)
  }

  lemma {:induction false} AcrossBetween(row: seq<Colour>, x: int, r: nat, k: nat, low: Colour, high: Colour)
    requires |row| > 0 && forall i | 0 <= i < |row| :: Between(row[i], low, high)
    ensures SumBetween(Across(row, x, r, k), k, low, high)
  {
    hide SumBetween, Between;
    if k == 0 {
      EmptySum(low, high);
    } else {
      AcrossBetween(row, x, r, k - 1, low, high);
      SumGrows(Across(row, x, r, k - 1), k - 1, row[Edge(x - r + k - 1, |row|)], low, high);
    }
  }

  /** The cells of `j` rows of a window. */
  function Rows(j: nat, r: nat): nat {
    if j == 0 then 0 else Rows(j - 1, r) + Side(r)
  }

  lemma {:induction false} RowsIs(j: nat, r: nat)
    ensures Rows(j, r) == j * Side(r)
  {
    if j > 0 {
      RowsIs(j - 1, r);
      OneRow(j - 1, Side(r));
    }
  }

  lemma {:induction false} WindowBetween(p: Colours, w: nat, h: nat, y: int, x: int, r: nat, j: nat,
                                         low: Colour, high: Colour)
    requires Sized(p, w, h) && AllBetween(p, w, h, low, high)
    ensures SumBetween(Window(p, w, h, y, x, r, j), Rows(j, r), low, high)
  {
    hide SumBetween, Between, Across, Edge, Side;
    if j == 0 {
      EmptySum(low, high);
    } else {
      WindowBetween(p, w, h, y, x, r, j - 1, low, high);
      var row := p[Edge(y - r + j - 1, h)];
      AcrossBetween(row, x, r, Side(r), low, high);
      SumsAdd(Window(p, w, h, y, x, r, j - 1), Rows(j - 1, r), Across(row, x, r, Side(r)), Side(r), low, high);
    }
  }

  lemma SmoothedBetween(p: Colours, w: nat, h: nat, r: nat, low: Colour, high: Colour)
    requires Sized(p, w, h) && AllBetween(p, w, h, low, high)
    ensures AllBetween(Smoothed(p, w, h, r), w, h, low, high)
  {
    hide SumBetween, Between, Window;
    var q := Smoothed(p, w, h, r);
    forall y, x | 0 <= y < h && 0 <= x < w ensures Between(q[y][x], low, high) {
      WindowBetween(p, w, h, y, x, r, Side(r), low, high);
      RowsIs(Side(r), r);
      SideSquared(r);
      AverageBetween(Window(p, w, h, y, x, r, Side(r)), Side(r) * Side(r), low, high);
    }
  }

  // --------------------------------------------------------------- the estimate

  ghost function ColoursOf(g: Cells, w: nat, h: nat): (p: Colours)
    requires Sized(g, w, h)
    ensures Sized(p, w, h) && forall y, x | 0 <= y < h && 0 <= x < w :: p[y][x] == g[y][x].colour
  {
    seq(h, y requires 0 <= y < h => seq(w, x requires 0 <= x < w => g[y][x].colour))
  }

  /** A cell that has seen enough background holds the weighted average of what it has seen. */
  function Normalized(c: Cell): Cell {
    if IsKnown(c) then Cell(Colour(c.colour.r / c.weight, c.colour.g / c.weight, c.colour.b / c.weight), c.weight)
    else c
  }

  ghost function NormalizedAll(g: Cells, w: nat, h: nat): (r: Cells)
    requires Sized(g, w, h)
    ensures Sized(r, w, h) && forall y, x | 0 <= y < h && 0 <= x < w :: r[y][x] == Normalized(g[y][x])
  {
    seq(h, y requires 0 <= y < h => seq(w, x requires 0 <= x < w => Normalized(g[y][x])))
  }

  ghost predicate NoneKnown(g: Cells, w: nat, h: nat)
    requires Sized(g, w, h)
  {
    forall y, x | 0 <= y < h && 0 <= x < w :: !IsKnown(g[y][x])
  }

  /** From the sums gathered in each cell to the estimate, or to none when no cell has seen background. */
  method Estimate(sums: array2<Cell>, smoothing: int) returns (estimate: Option<array2<Colour>>)
    requires sums.Length0 > 0 && sums.Length1 > 0
    ensures var g, w, h := Held(sums), sums.Length1, sums.Length0;
      match estimate
      case None => NoneKnown(g, w, h)
      case Some(e) =>
        && !NoneKnown(g, w, h) && e.Length0 == h && e.Length1 == w
        && Held(e) == Smoothed(ColoursOf(Passes(NormalizedAll(g, w, h), w, h, w + h), w, h), w, h, Max(1, smoothing))
  {
    hide Held, Normalized, Passes, Smoothed, ColoursOf, NormalizedAll;
    var w, h := sums.Length1, sums.Length0;
    ghost var g := Held(sums);
    var cells := new Cell[h, w];
    var any := false;
    for y := 0 to h
      invariant forall v, u | 0 <= v < y && 0 <= u < w :: cells[v, u] == Normalized(g[v][u])
      invariant any == exists v, u :: 0 <= v < y && 0 <= u < w && IsKnown(g[v][u])
    {
      for x := 0 to w
        invariant forall v, u | 0 <= v < y && 0 <= u < w :: cells[v, u] == Normalized(g[v][u])
        invariant forall u | 0 <= u < x :: cells[y, u] == Normalized(g[y][u])
        invariant any == ((exists v, u :: 0 <= v < y && 0 <= u < w && IsKnown(g[v][u]))
                          || exists u :: 0 <= u < x && IsKnown(g[y][u]))
      {
        cells[y, x] := Normalized(sums[y, x]);
        if IsKnown(sums[y, x]) { any := true; }
      }
    }
    if !any { return None; }
    SameGrid(Held(cells), NormalizedAll(g, w, h), w, h);
    var filled := FloodFill(cells);
    var rgb := ColoursIn(filled);
    var smooth := Smooth(rgb, Max(1, smoothing));
    estimate := Some(smooth);
  }

  method ColoursIn(cells: array2<Cell>) returns (rgb: array2<Colour>)
    requires cells.Length0 > 0 && cells.Length1 > 0
    ensures rgb.Length0 == cells.Length0 && rgb.Length1 == cells.Length1
    ensures Held(rgb) == ColoursOf(Held(cells), cells.Length1, cells.Length0)
  {
    rgb := new Colour[cells.Length0, cells.Length1];
    forall y, x | 0 <= y < cells.Length0 && 0 <= x < cells.Length1 { rgb[y, x] := cells[y, x].colour; }
    SameGrid(Held(rgb), ColoursOf(Held(cells), cells.Length1, cells.Length0), cells.Length1, cells.Length0);
  }

  /** What a cell has gathered: colours between two, each by its weight. */
  ghost predicate Gathered(c: Cell, low: Colour, high: Colour) {
    && low.r * c.weight <= c.colour.r <= high.r * c.weight
    && low.g * c.weight <= c.colour.g <= high.g * c.weight
    && low.b * c.weight <= c.colour.b <= high.b * c.weight
  }

  lemma NormalizedBetween(c: Cell, low: Colour, high: Colour)
    requires IsKnown(c) && Gathered(c, low, high)
    ensures IsKnown(Normalized(c)) && Between(Normalized(c).colour, low, high)
  {
    ShareBetween(c.colour.r, c.weight, low.r, high.r);
    ShareBetween(c.colour.g, c.weight, low.g, high.g);
    ShareBetween(c.colour.b, c.weight, low.b, high.b);
  }

  lemma ShareBetween(s: real, k: real, low: real, high: real)
    requires k > 0.0 && low * k <= s <= high * k
    ensures low <= s / k <= high
  {
    var q := s / k;
    assert q * k == s;
    if q < low { Less(q, low, k); }
    if q > high { Less(high, q, k); }
  }

  /**
   * When some cell has seen background, the estimate has a colour everywhere, and
   * each lies between the extremes of the background that was seen.
   */
  lemma EstimateBetween(g: Cells, w: nat, h: nat, smoothing: int, low: Colour, high: Colour)
    requires Sized(g, w, h) && !NoneKnown(g, w, h)
    requires forall y, x | 0 <= y < h && 0 <= x < w && IsKnown(g[y][x]) :: Gathered(g[y][x], low, high)
    ensures var filled := Passes(NormalizedAll(g, w, h), w, h, w + h);
      && AllKnown(filled, w, h)
      && AllBetween(Smoothed(ColoursOf(filled, w, h), w, h, Max(1, smoothing)), w, h, low, high)
  {
    hide Passes, Smoothed, Between, Normalized, Gathered;
    var n := NormalizedAll(g, w, h);
    var v, u :| 0 <= v < h && 0 <= u < w && IsKnown(g[v][u]);
    NormalizedBetween(g[v][u], low, high);
    forall y, x | 0 <= y < h && 0 <= x < w && IsKnown(n[y][x]) ensures Between(n[y][x].colour, low, high) {
      UnknownStays(g[y][x]);
      NormalizedBetween(g[y][x], low, high);
    }
    var filled := Passes(n, w, h, w + h);
    FillsTheGrid(n, w, h, v, u);
    PassesBetween(n, w, h, w + h, low, high);
    SmoothedBetween(ColoursOf(filled, w, h), w, h, Max(1, smoothing), low, high);
  }

  lemma UnknownStays(c: Cell)
    ensures IsKnown(Normalized(c)) <==> IsKnown(c)
  {}

  /** Where a pixel falls on the grid, and the four cells it is read between. */
  function Lower(position: real, n: nat): int
    requires n > 0
  {
    Edge(position.Floor, n)
  }

  function Fraction(position: real, cell: int): real {
    var f := position - cell as real;
    if f < 0.0 then 0.0 else if f > 1.0 then 1.0 else f
  }

  function Mixed(a: real, b: real, f: real): real { a + (b - a) * f }

  function MixedColour(a: Colour, b: Colour, f: real): Colour {
    Colour(Mixed(a.r, b.r, f), Mixed(a.g, b.g, f), Mixed(a.b, b.b, f))
  }

  function SampleAt(p: Colours, w: nat, h: nat, x: int, y: int, scaleX: real, scaleY: real): Colour
    requires Sized(p, w, h)
  {
    SampleOn(p, w, h, (x as real + 0.5) * scaleX - 0.5, (y as real + 0.5) * scaleY - 0.5)
  }

  function SampleOn(p: Colours, w: nat, h: nat, gx: real, gy: real): Colour
    requires Sized(p, w, h)
  {
    var x0, y0 := Lower(gx, w), Lower(gy, h);
    var x1, y1 := if x0 + 1 < w - 1 then x0 + 1 else w - 1, if y0 + 1 < h - 1 then y0 + 1 else h - 1;
    var fx, fy := Fraction(gx, x0), Fraction(gy, y0);
    MixedColour(MixedColour(p[y0][x0], p[y0][x1], fx), MixedColour(p[y1][x0], p[y1][x1], fx), fy)
  }

  /** Reading the grid at any pixel, inside the picture or out, stays between the extremes of its cells. */
  lemma SampleBetween(p: Colours, w: nat, h: nat, x: int, y: int, scaleX: real, scaleY: real, low: Colour, high: Colour)
    requires Sized(p, w, h) && AllBetween(p, w, h, low, high)
    ensures Between(SampleAt(p, w, h, x, y, scaleX, scaleY), low, high)
  {
    hide Between, MixedColour;
    var gx, gy := (x as real + 0.5) * scaleX - 0.5, (y as real + 0.5) * scaleY - 0.5;
    var x0, y0 := Lower(gx, w), Lower(gy, h);
    var x1, y1 := if x0 + 1 < w - 1 then x0 + 1 else w - 1, if y0 + 1 < h - 1 then y0 + 1 else h - 1;
    var fx, fy := Fraction(gx, x0), Fraction(gy, y0);
    MixedBetween(p[y0][x0], p[y0][x1], fx, low, high);
    MixedBetween(p[y1][x0], p[y1][x1], fx, low, high);
    MixedBetween(MixedColour(p[y0][x0], p[y0][x1], fx), MixedColour(p[y1][x0], p[y1][x1], fx), fy, low, high);
  }

  lemma MixedBetween(a: Colour, b: Colour, f: real, low: Colour, high: Colour)
    requires Between(a, low, high) && Between(b, low, high) && 0.0 <= f <= 1.0
    ensures Between(MixedColour(a, b, f), low, high)
  {
    MixBetween(a.r, b.r, f, low.r, high.r);
    MixBetween(a.g, b.g, f, low.g, high.g);
    MixBetween(a.b, b.b, f, low.b, high.b);
  }

  lemma MixBetween(a: real, b: real, f: real, low: real, high: real)
    requires low <= a <= high && low <= b <= high && 0.0 <= f <= 1.0
    ensures low <= Mixed(a, b, f) <= high
  {
    Convex(a - low, b - low, f);
    Convex(high - a, high - b, f);
    assert Mixed(a, b, f) - low == (a - low) + ((b - low) - (a - low)) * f;
    assert high - Mixed(a, b, f) == (high - a) + ((high - b) - (high - a)) * f;
  }

  lemma Convex(a: real, b: real, f: real)
    requires a >= 0.0 && b >= 0.0 && 0.0 <= f <= 1.0
    ensures a + (b - a) * f >= 0.0
  {
    assert a + (b - a) * f == a * (1.0 - f) + b * f;
    NotNegative(a, 1.0 - f);
    NotNegative(b, f);
  }

}
