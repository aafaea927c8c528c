/**
 * Which colours the background estimate comes to: the balance of what a cell is made
 * from, the box average of the smoothing, and the ramp that is read back between cells.
 */
module BackgroundMeans {
  import opened Grids
  import opened RealArithmetic
  import opened Backgrounds
  import B = BoxFilters

  datatype Channel = Red | Green | Blue

  function Of(c: Colour, ch: Channel): real {
    match ch
    case Red => c.r
    case Green => c.g
    case Blue => c.b
  }

  // ------------------------------------------------------------ spreading

  /** What the neighbour in one direction pulls, if it is there and known. */
  function Pull(g: Cells, w: nat, h: nat, y: int, x: int, dy: int, dx: int, c: Colour, ch: Channel): real
    requires Sized(g, w, h)
  {
    var ny, nx := y + dy, x + dx;
    if 0 <= ny < h && 0 <= nx < w && IsKnown(g[ny][nx]) then Of(g[ny][nx].colour, ch) - Of(c, ch) else 0.0
  }

  /** The nine directions together. */
  function Pulls(g: Cells, w: nat, h: nat, y: int, x: int, c: Colour, ch: Channel): real
    requires Sized(g, w, h)
  {
    Pull(g, w, h, y, x, -1, -1, c, ch) + Pull(g, w, h, y, x, -1, 0, c, ch) + Pull(g, w, h, y, x, -1, 1, c, ch)
    + Pull(g, w, h, y, x, 0, -1, c, ch) + Pull(g, w, h, y, x, 0, 0, c, ch) + Pull(g, w, h, y, x, 0, 1, c, ch)
    + Pull(g, w, h, y, x, 1, -1, c, ch) + Pull(g, w, h, y, x, 1, 0, c, ch) + Pull(g, w, h, y, x, 1, 1, c, ch)
  }

  /** Some neighbour, in one of the nine directions, is known. */
  ghost predicate Reached(g: Cells, w: nat, h: nat, y: int, x: int)
    requires Sized(g, w, h)
  {
    exists ny, nx :: y - 1 <= ny <= y + 1 && x - 1 <= nx <= x + 1 && 0 <= ny < h && 0 <= nx < w && IsKnown(g[ny][nx])
  }

  /** The tally of the first `k` directions pulls as the directions do. */
  lemma TallyPulls(g: Cells, w: nat, h: nat, y: int, x: int, dy: int, dx: int, c: Colour, ch: Channel)
    requires Sized(g, w, h) && -1 <= dy <= 1 && -1 <= dx <= 1
    ensures var k := 3 * (dy + 1) + dx + 1;
      var before, after := Tally(g, w, h, y, x, k), Tally(g, w, h, y, x, k + 1);
      && Lean(after, c, ch) == Lean(before, c, ch) + Pull(g, w, h, y, x, dy, dx, c, ch)
      && (after.1 > 0 <==> before.1 > 0 || (0 <= y + dy < h && 0 <= x + dx < w && IsKnown(g[y + dy][x + dx])))
  {
    hide Tally, IsKnown;
    TallyAt(g, w, h, y, x, dy, dx);
    var k := 3 * (dy + 1) + dx + 1;
    var (sum, count) := Tally(g, w, h, y, x, k);
    OneMore(count, Of(c, ch));
  }

  /** How far a sum of colours leans away from as many of `c`. */
  function Lean(t: (Colour, nat), c: Colour, ch: Channel): real { Of(t.0, ch) - t.1 as real * Of(c, ch) }

  lemma OneMore(n: nat, v: real)
    ensures (n + 1) as real * v == n as real * v + v
  {}

  lemma AllPulls(g: Cells, w: nat, h: nat, y: int, x: int, c: Colour, ch: Channel)
    requires Sized(g, w, h)
    ensures Lean(Tally(g, w, h, y, x, 9), c, ch) == Pulls(g, w, h, y, x, c, ch)
    ensures Tally(g, w, h, y, x, 9).1 > 0 <==> Reached(g, w, h, y, x)
  {
    hide Tally, IsKnown, Pull;
    TallyNone(g, w, h, y, x);
    TallyPulls(g, w, h, y, x, -1, -1, c, ch);
    TallyPulls(g, w, h, y, x, -1, 0, c, ch);
    TallyPulls(g, w, h, y, x, -1, 1, c, ch);
    TallyPulls(g, w, h, y, x, 0, -1, c, ch);
    TallyPulls(g, w, h, y, x, 0, 0, c, ch);
    TallyPulls(g, w, h, y, x, 0, 1, c, ch);
    TallyPulls(g, w, h, y, x, 1, -1, c, ch);
    TallyPulls(g, w, h, y, x, 1, 0, c, ch);
    TallyPulls(g, w, h, y, x, 1, 1, c, ch);
  }

  /**
   * A pass leaves a known cell, and one that no known neighbour reaches; any other becomes
   * known, and its colour is where the known neighbours balance, in every channel.
   */
  lemma SpreadBalances(g: Cells, w: nat, h: nat, y: nat, x: nat, ch: Channel)
    requires Sized(g, w, h) && y < h && x < w
    ensures var next := Spread(g, w, h)[y][x];
      if IsKnown(g[y][x]) || !Reached(g, w, h, y, x) then next == g[y][x]
      else IsKnown(next) && Pulls(g, w, h, y, x, next.colour, ch) == 0.0
  {
    hide Tally, Pulls, Reached;
    var next := SpreadCell(g, w, h, y, x);
    AllPulls(g, w, h, y, x, next.colour, ch);
    var (sum, count) := Tally(g, w, h, y, x, 9);
    if !IsKnown(g[y][x]) && count > 0 { Balanced(sum, count, ch); }
  }

  lemma Balanced(sum: Colour, count: nat, ch: Channel)
    requires count > 0
    ensures Lean((sum, count), sum.Over(count), ch) == 0.0
  {
    TimesBack(Of(sum, ch), count as real);
  }

  lemma TimesBack(a: real, n: real)
    requires n > 0.0
    ensures n * (a / n) == a
  {}

  /** A cell that has seen background starts from the mean of it: its weight of that is what it gathered. */
  lemma StartsFromMean(c: Cell, ch: Channel)
    ensures IsKnown(c) ==> Normalized(c).weight == c.weight
    ensures IsKnown(c) ==> c.weight * Of(Normalized(c).colour, ch) == Of(c.colour, ch)
    ensures !IsKnown(c) ==> Normalized(c) == c
  {
    if IsKnown(c) { TimesBack(Of(c.colour, ch), c.weight); }
  }

  // ------------------------------------------------------------ smoothing

  ghost function PlaneOf(p: Colours, w: nat, h: nat, ch: Channel): (q: B.Plane)
    requires Sized(p, w, h)
    ensures Sized(q, w, h) && forall y, x | 0 <= y < h && 0 <= x < w :: q[y][x] == Of(p[y][x], ch)
  {
    seq(h, y requires 0 <= y < h => seq(w, x requires 0 <= x < w => Of(p[y][x], ch)))
  }

  lemma {:induction false} AcrossIsSum(row: seq<Colour>, plain: B.Row, x: int, r: nat, k: nat, ch: Channel)
    requires |row| > 0 && |plain| == |row| && forall i | 0 <= i < |row| :: plain[i] == Of(row[i], ch)
    ensures Of(Across(row, x, r, k), ch) == B.Sum(plain, x - r, x - r + k)
  {
    if k > 0 { AcrossIsSum(row, plain, x, r, k - 1, ch); }
  }

  /** The window's rows, summed down a column of row sums. */
  lemma {:induction false} WindowIsSum(p: Colours, w: nat, h: nat, y: int, x: int, r: nat, j: nat, ch: Channel,
                                       column: B.Row)
    requires Sized(p, w, h) && |column| == h
    requires forall v | 0 <= v < h :: column[v] == B.Sum(PlaneOf(p, w, h, ch)[v], x - r, x + r + 1)
    ensures Of(Window(p, w, h, y, x, r, j), ch) == B.Sum(column, y - r, y - r + j)
  {
    hide Across;
    if j > 0 {
      WindowIsSum(p, w, h, y, x, r, j - 1, ch, column);
      var v := Edge(y - r + j - 1, h);
      AcrossIsSum(p[v], PlaneOf(p, w, h, ch)[v], x, r, Side(r), ch);
    }
  }

  lemma {:induction false} SumScaled(a: B.Row, b: B.Row, k: real, first: int, last: int)
    requires |a| == |b| > 0 && first <= last && forall i | 0 <= i < |a| :: b[i] == a[i] * k
    ensures B.Sum(b, first, last) == B.Sum(a, first, last) * k
    decreases last - first
  {
    if first < last {
      SumScaled(a, b, k, first, last - 1);
      Distribute(k, B.Sum(a, first, last - 1), a[Edge(last - 1, |a|)]);
    }
  }

  /** Smoothing a channel over square windows in one go is the two passes of the box over that channel. */
  lemma SmoothIsBox(p: Colours, w: nat, h: nat, y: nat, x: nat, r: nat, ch: Channel)
    requires Sized(p, w, h) && y < h && x < w
    ensures Of(Smoothed(p, w, h, r)[y][x], ch) == B.Box(PlaneOf(p, w, h, ch), w, h, r)[y][x]
  {
    hide Window, PlaneOf, B.Sum;
    var plane := PlaneOf(p, w, h, ch);
    var sums: B.Row := seq(h, v requires 0 <= v < h => B.Sum(plane[v], x - r, x + r + 1));
    WindowIsSum(p, w, h, y, x, r, Side(r), ch, sums);
    var across := B.Horizontal(plane, w, h, r);
    var column := B.Transposed(across, w, h)[x];
    assert forall v | 0 <= v < h :: column[v] == across[v][x] == sums[v] * B.Inverse(r);
    SumScaled(sums, column, B.Inverse(r), y - r, y + r + 1);
    SideSquared(r);
    TwiceInverse(B.Sum(sums, y - r, y + r + 1), r);
  }

  lemma TwiceInverse(s: real, r: nat)
    ensures s / (Side(r) * Side(r)) as real == (s * B.Inverse(r)) * B.Inverse(r)
  {
    var n := Side(r) as real;
    assert (Side(r) * Side(r)) as real == n * n;
    Halves(s, n);
  }

  lemma Halves(s: real, n: real)
    requires n > 0.0
    ensures s / (n * n) == (s * (1.0 / n)) * (1.0 / n)
  {
    var i := 1.0 / n;
    assert i * n == 1.0;
    var q := (s * i) * i;
    assert q * (n * n) == s * ((i * n) * (i * n));
    assert n * n > 0.0;
  }

  // ------------------------------------------------------------ reading back

  /** A colour that changes evenly over the grid. */
  function Ramp(base: Colour, across: Colour, down: Colour, x: real, y: real, ch: Channel): real {
    Of(base, ch) + Of(across, ch) * x + Of(down, ch) * y
  }

  function Kept(position: real, n: nat): real
    requires n > 0
  {
    if position < 0.0 then 0.0 else if position > (n - 1) as real then (n - 1) as real else position
  }

  /** The two cells and the way between them give the position back, kept on the grid. */
  lemma PositionBack(position: real, n: nat)
    requires n > 0
    ensures var low := Lower(position, n); var high := if low + 1 < n - 1 then low + 1 else n - 1;
      0 <= low <= high < n && Mixed(low as real, high as real, Fraction(position, low)) == Kept(position, n)
  {
    var low := Lower(position, n);
    var high := if low + 1 < n - 1 then low + 1 else n - 1;
    var f := Fraction(position, low);
    if high == low {
      assert Mixed(low as real, high as real, f) == low as real;
    } else {
      assert high == low + 1;
      assert Mixed(low as real, high as real, f) == low as real + f;
    }
  }

  /** Mixing two values of a ramp mixes their places. */
  lemma MixOn(low: real, high: real, b: real, a: real, x0: real, x1: real, f: real, x: real)
    requires low == b + a * x0 && high == b + a * x1 && x == Mixed(x0, x1, f)
    ensures Mixed(low, high, f) == b + a * x
  {
    assert high - low == a * (x1 - x0);
    assert (a * (x1 - x0)) * f == a * ((x1 - x0) * f);
  }

  /** The grid's cells lie on a ramp. */
  ghost predicate OnRamp(p: Colours, w: nat, h: nat, base: Colour, across: Colour, down: Colour, ch: Channel)
    requires Sized(p, w, h)
  {
    forall v, u | 0 <= v < h && 0 <= u < w :: Of(p[v][u], ch) == Ramp(base, across, down, u as real, v as real, ch)
  }

  lemma SampleOnRamp(p: Colours, w: nat, h: nat, gx: real, gy: real,
                     base: Colour, across: Colour, down: Colour, ch: Channel)
    requires Sized(p, w, h) && OnRamp(p, w, h, base, across, down, ch)
    ensures Of(SampleOn(p, w, h, gx, gy), ch) == Ramp(base, across, down, Kept(gx, w), Kept(gy, h), ch)
  {
    hide Mixed, Kept, Lower, Fraction, MixedColour, Ramp;
    PositionBack(gx, w);
    PositionBack(gy, h);
    var x0, y0 := Lower(gx, w), Lower(gy, h);
    var x1, y1 := if x0 + 1 < w - 1 then x0 + 1 else w - 1, if y0 + 1 < h - 1 then y0 + 1 else h - 1;
    var fx, fy := Fraction(gx, x0), Fraction(gy, y0);
    var top, bottom := MixedColour(p[y0][x0], p[y0][x1], fx), MixedColour(p[y1][x0], p[y1][x1], fx);
    MixedOf(p[y0][x0], p[y0][x1], fx, ch);
    MixedOf(p[y1][x0], p[y1][x1], fx, ch);
    MixedOf(top, bottom, fy, ch);
    MixAcross(base, across, down, ch, x0 as real, x1 as real, y0 as real, fx, Kept(gx, w));
    MixAcross(base, across, down, ch, x0 as real, x1 as real, y1 as real, fx, Kept(gx, w));
    MixDown(base, across, down, ch, Kept(gx, w), y0 as real, y1 as real, fy, Kept(gy, h));
  }

  lemma MixAcross(base: Colour, across: Colour, down: Colour, ch: Channel,
                  x0: real, x1: real, y: real, f: real, x: real)
    requires x == Mixed(x0, x1, f)
    ensures Mixed(Ramp(base, across, down, x0, y, ch), Ramp(base, across, down, x1, y, ch), f)
         == Ramp(base, across, down, x, y, ch)
  {
    hide Mixed;
    var (b, a, d) := (Of(base, ch), Of(across, ch), Of(down, ch));
    MixOn(Ramp(base, across, down, x0, y, ch), Ramp(base, across, down, x1, y, ch), b + d * y, a, x0, x1, f, x);
  }

  lemma MixDown(base: Colour, across: Colour, down: Colour, ch: Channel, x: real, y0: real, y1: real, f: real, y: real)
    requires y == Mixed(y0, y1, f)
    ensures Mixed(Ramp(base, across, down, x, y0, ch), Ramp(base, across, down, x, y1, ch), f)
         == Ramp(base, across, down, x, y, ch)
  {
    hide Mixed;
    var (b, a, d) := (Of(base, ch), Of(across, ch), Of(down, ch));
    MixOn(Ramp(base, across, down, x, y0, ch), Ramp(base, across, down, x, y1, ch), b + a * x, d, y0, y1, f, y);
  }

  /**
   * Where the cells of the grid lie on a ramp, any pixel is read off that ramp at its own
   * place on the grid, measured from the middle of the first cell; beyond the outer cells
   * it is read at the edge.
   */
  lemma SampleReadsRamp(p: Colours, w: nat, h: nat, x: int, y: int, scaleX: real, scaleY: real,
                        base: Colour, across: Colour, down: Colour, ch: Channel)
    requires Sized(p, w, h) && OnRamp(p, w, h, base, across, down, ch)
    ensures var gx, gy := (x as real + 0.5) * scaleX - 0.5, (y as real + 0.5) * scaleY - 0.5;
      Of(SampleAt(p, w, h, x, y, scaleX, scaleY), ch) == Ramp(base, across, down, Kept(gx, w), Kept(gy, h), ch)
  {
    hide SampleOn, Ramp, Kept, OnRamp;
    SampleOnRamp(p, w, h, (x as real + 0.5) * scaleX - 0.5, (y as real + 0.5) * scaleY - 0.5, base, across, down, ch);
  }

  lemma MixedOf(a: Colour, b: Colour, f: real, ch: Channel)
    ensures Of(MixedColour(a, b, f), ch) == Mixed(Of(a, ch), Of(b, ch), f)
  {}
}
