/**
 * Area-averaged reductions: how the source is cut into one box for each target pixel,
 * and what an average of a box can be.
 */
module Downscaling {
  import opened Integers
  import opened Operations
  import opened Grids
  import opened RealArithmetic

  // ------------------------------------------------------------- one axis

  /** Where box `k` of `t` boxes over `n` pixels starts. */
  function Start(k: nat, n: nat, t: nat): nat
    requires t > 0
  {
    k * n / t
  }

  function End(k: nat, n: nat, t: nat): nat
    requires t > 0
  {
    var next := Start(k + 1, n, t);
    if next <= Start(k, n, t) then Start(k, n, t) + 1 else next
  }

  predicate InBox(i: nat, k: nat, n: nat, t: nat)
    requires t > 0
  {
    Start(k, n, t) <= i < End(k, n, t)
  }

  lemma DivideMonotone(a: nat, b: nat, t: nat)
    requires a <= b && t > 0
    ensures a / t <= b / t
  {
    if a / t > b / t {
      assert a >= t * (a / t) && b < t * (b / t) + t;
      assert t * (a / t) >= t * (b / t + 1) by { TimesMonotone(b / t + 1, a / t, t); }
    }
  }

  lemma TimesMonotone(a: nat, b: nat, t: nat)
    requires a <= b
    ensures t * a <= t * b
  {}

  lemma DivideExact(n: nat, t: nat)
    requires t > 0
    ensures t * n / t == n
  {
    Quotient(t * n, t, n);
  }

  lemma DividePlus(a: nat, t: nat)
    requires t > 0
    ensures (a + t) / t == a / t + 1
  {
    var q := a / t;
    assert t * q <= a < t * q + t;
    Quotient(a + t, t, q + 1);
  }

  lemma Quotient(a: nat, t: nat, q: nat)
    requires t > 0 && t * q <= a < t * q + t
    ensures a / t == q
  {
    var r := a / t;
    assert t * r <= a < t * r + t;
    if r < q { TimesMonotone(r + 1, q, t); }
    if q < r { TimesMonotone(q + 1, r, t); }
  }

  lemma StartsInOrder(j: nat, k: nat, n: nat, t: nat)
    requires j <= k && t > 0
    ensures Start(j, n, t) <= Start(k, n, t)
  {
    TimesMonotone(j, k, n);
    DivideMonotone(j * n, k * n, t);
  }

  lemma StartEnds(n: nat, t: nat)
    requires t > 0
    ensures Start(0, n, t) == 0 && Start(t, n, t) == n
  {
    assert Start(0, n, t) == 0 / t;
    DivideExact(n, t);
  }

  /** Every box is inside the pixels and holds at least one, whatever the two sizes. */
  lemma BoxInRange(k: nat, n: nat, t: nat)
    requires n > 0 && k < t
    ensures Start(k, n, t) < End(k, n, t) <= n
  {
    StartEnds(n, t);
    StartsInOrder(k + 1, t, n, t);
    StartBelow(k, n, t);
  }

  lemma StartBelow(k: nat, n: nat, t: nat)
    requires n > 0 && k < t
    ensures Start(k, n, t) < n
  {
    StartsInOrder(k, t - 1, n, t);
    assert (t - 1) * n < t * n;
    QuotientBelow((t - 1) * n, n, t);
  }

  lemma QuotientBelow(a: nat, n: nat, t: nat)
    requires t > 0 && a < t * n
    ensures a / t < n
  {
    var q := a / t;
    assert t * q <= a;
    if n <= q { TimesMonotone(n, q, t); }
  }

  /** With no more boxes than pixels every box starts past the one before it. */
  lemma StartsApart(k: nat, n: nat, t: nat)
    requires 0 < t <= n
    ensures Start(k + 1, n, t) >= Start(k, n, t) + 1
  {
    DividePlus(k * n, t);
    assert (k + 1) * n == k * n + n;
    DivideMonotone(k * n + t, k * n + n, t);
  }

  /** Some box holds each pixel, whatever the two sizes. */
  lemma {:induction false} BoxOf(i: nat, n: nat, t: nat, below: nat) returns (k: nat)
    requires i < n && below < t && Start(below, n, t) <= i
    ensures below <= k < t && InBox(i, k, n, t)
    decreases t - below
  {
    hide Start;
    if i < Start(below + 1, n, t) {
      k := below;
    } else if below + 1 < t {
      k := BoxOf(i, n, t, below + 1);
    } else {
      StartEnds(n, t);
      k := below;
    }
  }

  /** Every pixel is in one box and no other. */
  ghost predicate Tiles(n: nat, t: nat)
    requires t > 0
  {
    forall i: nat, j: nat, k: nat :: j < k < t ==> !(InBox(i, j, n, t) && InBox(i, k, n, t))
  }

  lemma NoOverlap(i: nat, j: nat, k: nat, n: nat, t: nat)
    requires 0 < t <= n && j < k < t
    ensures !(InBox(i, j, n, t) && InBox(i, k, n, t))
  {
    hide Start;
    StartsApart(j, n, t);
    StartsInOrder(j + 1, k, n, t);
  }

  ghost predicate Covered(i: nat, n: nat, t: nat)
    requires t > 0
  {
    exists k: nat :: k < t && InBox(i, k, n, t)
  }

  /** With more boxes than pixels the starts cannot all be apart. */
  lemma {:induction false} StartRepeats(n: nat, t: nat, k: nat) returns (j: nat)
    requires n > 0 && t > 0 && Start(k, n, t) < k
    ensures j < k && Start(j + 1, n, t) == Start(j, n, t)
  {
    hide Start;
    if k == 0 {
      assert false;
    } else if Start(k - 1, n, t) < k - 1 {
      j := StartRepeats(n, t, k - 1);
    } else {
      StartsInOrder(k - 1, k, n, t);
      j := k - 1;
    }
  }

  /** The boxes tile the pixels, without overlap, exactly when there are no more boxes than pixels. */
  lemma TilesIff(n: nat, t: nat)
    requires n > 0 && t > 0
    ensures Tiles(n, t) <==> t <= n
    ensures forall i: nat | i < n :: Covered(i, n, t)
  {
    hide Start;
    forall i: nat | i < n ensures Covered(i, n, t) {
      StartEnds(n, t);
      var k := BoxOf(i, n, t, 0);
    }
    if t <= n {
      forall i: nat, j: nat, k: nat | j < k < t ensures !(InBox(i, j, n, t) && InBox(i, k, n, t)) {
        NoOverlap(i, j, k, n, t);
      }
    } else {
      StartBelow(t - 1, n, t);
      var j := StartRepeats(n, t, t - 1);
      assert InBox(Start(j, n, t), j, n, t) && InBox(Start(j, n, t), j + 1, n, t);
    }
  }

  // --------------------------------------------------------------- the pixels

  const MAX_SAMPLE := 65535

  /** Sixteen bits a channel. */
  datatype Pixel = Pixel(r: int, g: int, b: int, a: int)

  predicate Valid16(p: Pixel) {
    0 <= p.r <= MAX_SAMPLE && 0 <= p.g <= MAX_SAMPLE && 0 <= p.b <= MAX_SAMPLE && 0 <= p.a <= MAX_SAMPLE
  }

  const CLEAR := Pixel(0, 0, 0, 0)

  type Picture = Grid<Pixel>

  /** Colour summed premultiplied by alpha; alpha as it is. */
  datatype Sums = Sums(r: real, g: real, b: real, a: real, samples: nat)

  const NO_SUMS := Sums(0.0, 0.0, 0.0, 0.0, 0)

  function Premultiplied(c: int, alpha: int): real { c as real * (alpha as real / MAX_SAMPLE as real) }

  function Added(s: Sums, p: Pixel): Sums {
    Sums(s.r + Premultiplied(p.r, p.a), s.g + Premultiplied(p.g, p.a), s.b + Premultiplied(p.b, p.a), s.a + p.a as real,
         s.samples + 1)
  }

  /** The sums so far, and then one row of a box. */
  function AlongRow(s: Sums, row: seq<Pixel>, left: nat, right: nat): Sums
    requires left <= right <= |row|
    decreases right - left
  {
    if left == right then s else Added(AlongRow(s, row, left, right - 1), row[right - 1])
  }

  function OverBox(p: Picture, w: nat, h: nat, left: nat, right: nat, top: nat, bottom: nat): Sums
    requires Sized(p, w, h) && left <= right <= w && top <= bottom <= h
    decreases bottom - top
  {
    if top == bottom then NO_SUMS
    else AlongRow(OverBox(p, w, h, left, right, top, bottom - 1), p[bottom - 1], left, right)
  }

  function ToSample(v: real): int {
    if v <= 0.0 then 0 else if v >= MAX_SAMPLE as real then MAX_SAMPLE else (v + 0.5).Floor
  }

  /** A box whose pixels are all clear stays clear; otherwise colour is averaged by alpha. */
  function Averaged(s: Sums): Pixel {
    if s.samples == 0 || s.a <= 0.0 then CLEAR else
    Pixel(ToSample(Unpremultiplied(s.r, s.a)), ToSample(Unpremultiplied(s.g, s.a)), ToSample(Unpremultiplied(s.b, s.a)),
          ToSample(s.a / s.samples as real))
  }

  function Unpremultiplied(sum: real, alpha: real): real
    requires alpha > 0.0
  {
    sum * (MAX_SAMPLE as real / alpha)
  }

  function BoxPixel(p: Picture, w: nat, h: nat, area: Rect, tw: nat, th: nat, x: nat, y: nat): Pixel
    requires Sized(p, w, h) && InPicture(area, w, h) && x < tw && y < th
  {
    BoxInRange(x, area.width, tw);
    BoxInRange(y, area.height, th);
    Averaged(OverBox(p, w, h, area.x + Start(x, area.width, tw), area.x + End(x, area.width, tw),
                     area.y + Start(y, area.height, th), area.y + End(y, area.height, th)))
  }

  predicate InPicture(area: Rect, w: nat, h: nat) {
    !area.Empty() && 0 <= area.x && 0 <= area.y && area.Right() <= w && area.Bottom() <= h
  }

  datatype Outcome<T> = Made(value: T) | BadTarget | NothingLeft

  lemma AreaInPicture(region: Rect, w: nat, h: nat)
    ensures var area := Intersect(region, Rect(0, 0, w, h)); area.Empty() || InPicture(area, w, h)
  {}

  method DownscaleBox(source: array2<Pixel>, region: Rect, tw: int, th: int) returns (result: Outcome<array2<Pixel>>)
    ensures var w, h := source.Length1, source.Length0;
      var area := Intersect(region, Rect(0, 0, w, h));
      match result
      case BadTarget => tw <= 0 || th <= 0
      case NothingLeft => tw > 0 && th > 0 && area.Empty()
      case Made(out) =>
        && tw > 0 && th > 0 && InPicture(area, w, h) && out.Length0 == th && out.Length1 == tw
        && forall y: nat, x: nat | y < th && x < tw :: out[y, x] == BoxPixel(Held(source), w, h, area, tw, th, x, y)
  {
    hide Held, Intersect, BoxPixel;
    var w, h := source.Length1, source.Length0;
    if tw <= 0 || th <= 0 { return BadTarget; }
    var area := Intersect(region, Rect(0, 0, w, h));
    AreaInPicture(region, w, h);
    if area.Empty() { return NothingLeft; }
    ghost var p := Held(source);
    var out := new Pixel[th, tw];
    var columnStart := Columns(area.width, tw);
    for y := 0 to th
      invariant forall v: nat, u: nat | v < y && u < tw :: out[v, u] == BoxPixel(p, w, h, area, tw, th, u, v)
    {
      OneRow(source, area, tw, th, y, columnStart, out);
    }
    result := Made(out);
  }

  /** The source span of every target column, worked out once. */
  method Columns(width: nat, tw: nat) returns (starts: seq<nat>)
    requires tw > 0
    ensures |starts| == tw + 1 && forall x | 0 <= x <= tw :: starts[x] == Start(x, width, tw)
  {
    hide Start;
    starts := [];
    for x := 0 to tw + 1
      invariant |starts| == x && forall u | 0 <= u < x :: starts[u] == Start(u, width, tw)
    {
      starts := starts + [Start(x, width, tw)];
    }
  }

  method OneRow(source: array2<Pixel>, area: Rect, tw: nat, th: nat, y: nat, columnStart: seq<nat>, out: array2<Pixel>)
    requires InPicture(area, source.Length1, source.Length0) && y < th == out.Length0 && tw == out.Length1 > 0
    requires source != out && |columnStart| == tw + 1
    requires forall x | 0 <= x <= tw :: columnStart[x] == Start(x, area.width, tw)
    modifies out
    ensures forall x: nat | x < tw ::
              out[y, x] == BoxPixel(Held(source), source.Length1, source.Length0, area, tw, th, x, y)
    ensures forall v, u | 0 <= v < th && v != y && 0 <= u < tw :: out[v, u] == old(out[v, u])
  {
    hide Held, Start, OverBox, AlongRow;
    var w, h := source.Length1, source.Length0;
    ghost var p := Held(source);
    BoxInRange(y, area.height, th);
    var rowBegin, rowEnd := area.y + Start(y, area.height, th), area.y + Start(y + 1, area.height, th);
    if rowEnd <= rowBegin { rowEnd := rowBegin + 1; }
    for x := 0 to tw
      invariant forall u: nat | u < x :: out[y, u] == BoxPixel(p, w, h, area, tw, th, u, y)
      invariant forall v, u | 0 <= v < th && v != y && 0 <= u < tw :: out[v, u] == old(out[v, u])
    {
      BoxInRange(x, area.width, tw);
      var colBegin, colEnd := area.x + columnStart[x], area.x + columnStart[x + 1];
      if colEnd <= colBegin { colEnd := colBegin + 1; }
      var sums := SumBox(source, colBegin, colEnd, rowBegin, rowEnd);
      out[y, x] := Averaged(sums);
    }
  }

  method SumBox(source: array2<Pixel>, left: nat, right: nat, top: nat, bottom: nat) returns (s: Sums)
    requires left < right <= source.Length1 && top < bottom <= source.Length0
    ensures s == OverBox(Held(source), source.Length1, source.Length0, left, right, top, bottom)
  {
    hide Held, Added;
    var w, h := source.Length1, source.Length0;
    ghost var p := Held(source);
    s := NO_SUMS;
    for sy := top to bottom
      invariant s == OverBox(p, w, h, left, right, top, sy)
    {
      ghost var before := s;
      for sx := left to right
        invariant s == AlongRow(before, p[sy], left, sx)
      {
        s := Added(s, source[sy, sx]);
      }
    }
  }

  // ----------------------------------------------------------------- bounds

  /** The pixels of a box. */
  ghost predicate Holds(p: Picture, w: nat, h: nat, left: nat, right: nat, top: nat, bottom: nat,
                        low: Pixel, high: Pixel)
    requires Sized(p, w, h) && left <= right <= w && top <= bottom <= h
  {
    forall y, x | top <= y < bottom && left <= x < right :: Valid16(p[y][x]) && Between(p[y][x], low, high)
  }

  /** A pixel's alpha lies between two, and, if it can be seen at all, so does its colour. */
  predicate Between(p: Pixel, low: Pixel, high: Pixel) {
    low.a <= p.a <= high.a
    && (p.a > 0 ==> low.r <= p.r <= high.r && low.g <= p.g <= high.g && low.b <= p.b <= high.b)
  }

  /** A premultiplied sum of colours between `low` and `high`, with alpha `a` in all. */
  predicate Weighed(low: int, s: real, high: int, a: real) {
    low as real * a <= s * MAX_SAMPLE as real <= high as real * a
  }

  /** A sum of `n` values between `low` and `high`. */
  predicate Counted(low: int, n: nat, s: real, high: int) {
    low as real * n as real <= s <= high as real * n as real
  }

  predicate SumsBetween(s: Sums, low: Pixel, high: Pixel) {
    && s.a >= 0.0 && Counted(low.a, s.samples, s.a, high.a)
    && Weighed(low.r, s.r, high.r, s.a) && Weighed(low.g, s.g, high.g, s.a) && Weighed(low.b, s.b, high.b, s.a)
  }

  lemma WeighedAdd(low: int, s: real, high: int, a: real, c: int, alpha: int, s': real, a': real)
    requires Weighed(low, s, high, a) && 0 <= alpha <= MAX_SAMPLE && (alpha > 0 ==> low <= c <= high)
    requires s' == s + Premultiplied(c, alpha) && a' == a + alpha as real
    ensures Weighed(low, s', high, a')
  {
    var m, t := MAX_SAMPLE as real, alpha as real;
    assert c as real * (t / m) * m == c as real * t;
    Distribute(low as real, a, t);
    Distribute(high as real, a, t);
    if alpha > 0 {
      AtMost(low as real, c as real, t);
      AtMost(c as real, high as real, t);
    }
  }

  lemma SumsAdd(s: Sums, p: Pixel, low: Pixel, high: Pixel)
    requires SumsBetween(s, low, high) && Valid16(p) && Between(p, low, high)
    ensures SumsBetween(Added(s, p), low, high)
  {
    hide Weighed, Counted, Premultiplied;
    var next := Added(s, p);
    WeighedAdd(low.r, s.r, high.r, s.a, p.r, p.a, next.r, next.a);
    WeighedAdd(low.g, s.g, high.g, s.a, p.g, p.a, next.g, next.a);
    WeighedAdd(low.b, s.b, high.b, s.a, p.b, p.a, next.b, next.a);
    AlphaAdd(low.a, s.a, high.a, s.samples, p.a);
  }

  lemma AlphaAdd(low: int, a: real, high: int, n: nat, alpha: int)
    requires Counted(low, n, a, high) && low <= alpha <= high
    ensures Counted(low, n + 1, a + alpha as real, high)
  {
    assert (n + 1) as real == n as real + 1.0;
    Distribute(low as real, n as real, 1.0);
    Distribute(high as real, n as real, 1.0);
  }

  lemma {:induction false} RowBetween(s: Sums, row: seq<Pixel>, left: nat, right: nat, low: Pixel, high: Pixel)
    requires left <= right <= |row| && SumsBetween(s, low, high)
    requires forall x | left <= x < right :: Valid16(row[x]) && Between(row[x], low, high)
    ensures SumsBetween(AlongRow(s, row, left, right), low, high)
    ensures AlongRow(s, row, left, right).samples == s.samples + (right - left)
    decreases right - left
  {
    hide SumsBetween, Between;
    if left < right {
      RowBetween(s, row, left, right - 1, low, high);
      SumsAdd(AlongRow(s, row, left, right - 1), row[right - 1], low, high);
    }
  }

  lemma {:induction false} BoxBetween(p: Picture, w: nat, h: nat, left: nat, right: nat, top: nat, bottom: nat,
                                      low: Pixel, high: Pixel)
    requires Sized(p, w, h) && left < right <= w && top <= bottom <= h
    requires Holds(p, w, h, left, right, top, bottom, low, high)
    ensures SumsBetween(OverBox(p, w, h, left, right, top, bottom), low, high)
    ensures OverBox(p, w, h, left, right, top, bottom).samples >= bottom - top
    decreases bottom - top
  {
    hide SumsBetween, Between;
    if top == bottom {
      NothingBetween(low, high);
    } else {
      BoxBetween(p, w, h, left, right, top, bottom - 1, low, high);
      RowBetween(OverBox(p, w, h, left, right, top, bottom - 1), p[bottom - 1], left, right, low, high);
    }
  }

  lemma NothingBetween(low: Pixel, high: Pixel)
    ensures SumsBetween(NO_SUMS, low, high)
  {}

  lemma UnpremultipliedBetween(low: int, s: real, high: int, a: real)
    requires Weighed(low, s, high, a) && a > 0.0
    ensures low as real <= Unpremultiplied(s, a) <= high as real
  {
    var m := MAX_SAMPLE as real;
    var v := Unpremultiplied(s, a);
    assert v * a == s * m by { Shuffle(s, m, a); }
    if v < low as real { Less(v, low as real, a); }
    if v > high as real { Less(high as real, v, a); }
  }

  lemma Shuffle(s: real, m: real, a: real)
    requires a > 0.0
    ensures s * (m / a) * a == s * m
  {
    assert m / a * a == m;
    assert s * (m / a) * a == s * (m / a * a);
  }

  lemma SampleBetween(low: int, v: real, high: int)
    requires low as real <= v <= high as real && 0 <= low && high <= MAX_SAMPLE
    ensures low <= ToSample(v) <= high
  {}

  lemma MeanBetween(low: int, s: real, high: int, n: nat)
    requires n > 0 && Counted(low, n, s, high)
    ensures low as real <= s / n as real <= high as real
  {
    var k, v := n as real, s / n as real;
    assert v * k == s;
    if v < low as real { Less(v, low as real, k); }
    if v > high as real { Less(high as real, v, k); }
  }

  lemma AveragedBetween(s: Sums, low: Pixel, high: Pixel)
    requires SumsBetween(s, low, high) && s.samples > 0 && Valid16(low) && Valid16(high)
    ensures Between(Averaged(s), low, high)
  {
    hide ToSample, Weighed, Unpremultiplied;
    if s.a > 0.0 {
      UnpremultipliedBetween(low.r, s.r, high.r, s.a);
      UnpremultipliedBetween(low.g, s.g, high.g, s.a);
      UnpremultipliedBetween(low.b, s.b, high.b, s.a);
      MeanBetween(low.a, s.a, high.a, s.samples);
      SampleBetween(low.r, Unpremultiplied(s.r, s.a), high.r);
      SampleBetween(low.g, Unpremultiplied(s.g, s.a), high.g);
      SampleBetween(low.b, Unpremultiplied(s.b, s.a), high.b);
      SampleBetween(low.a, s.a / s.samples as real, high.a);
    } else {
      ClearBetween(s, low, high);
    }
  }

  lemma ClearBetween(s: Sums, low: Pixel, high: Pixel)
    requires SumsBetween(s, low, high) && s.samples > 0 && s.a <= 0.0 && Valid16(low) && Valid16(high)
    ensures low.a == 0
  {
    if low.a > 0 { Positive(low.a as real, s.samples as real); }
  }

  /**
   * Each channel of a reduced pixel lies between the least and the greatest that can
   * be seen in its box: a clear pixel's colour does not count.
   */
  lemma BoxPixelBetween(p: Picture, w: nat, h: nat, area: Rect, tw: nat, th: nat, x: nat, y: nat,
                        low: Pixel, high: Pixel)
    requires Sized(p, w, h) && InPicture(area, w, h) && x < tw && y < th && Valid16(low) && Valid16(high)
    requires Start(x, area.width, tw) < End(x, area.width, tw) <= area.width
    requires Start(y, area.height, th) < End(y, area.height, th) <= area.height
    requires Holds(p, w, h, area.x + Start(x, area.width, tw), area.x + End(x, area.width, tw),
                   area.y + Start(y, area.height, th), area.y + End(y, area.height, th), low, high)
    ensures Between(BoxPixel(p, w, h, area, tw, th, x, y), low, high)
  {
    hide SumsBetween, Start, Between, Holds, OverBox, Averaged;
    BoxBetween(p, w, h, area.x + Start(x, area.width, tw), area.x + End(x, area.width, tw),
               area.y + Start(y, area.height, th), area.y + End(y, area.height, th), low, high);
    AveragedBetween(OverBox(p, w, h, area.x + Start(x, area.width, tw), area.x + End(x, area.width, tw),
                            area.y + Start(y, area.height, th), area.y + End(y, area.height, th)), low, high);
  }

  // ------------------------------------------------------------- fitting

  datatype Fitted = Fitted(width: int, height: int, scale: real)

  function FitSide(side: int, scale: real): int { Max(1, (side as real * scale + 0.5).Floor) }

  function ScaleOf(sw: int, sh: int, mw: int, mh: int): real
    requires sw > 0 && sh > 0
  {
    var across, down := mw as real / sw as real, mh as real / sh as real;
    var least := if down < across then down else across;
    if least < 1.0 then least else 1.0
  }

  function FitInside(sw: int, sh: int, mw: int, mh: int): Fitted {
    if sw <= 0 || sh <= 0 then Fitted(0, 0, 1.0)
    else if mw <= 0 || mh <= 0 then Fitted(sw, sh, 1.0)
    else var scale := ScaleOf(sw, sh, mw, mh); Fitted(FitSide(sw, scale), FitSide(sh, scale), scale)
  }

  lemma ScaleIs(sw: int, sh: int, mw: int, mh: int)
    requires sw > 0 && sh > 0 && mw > 0 && mh > 0
    ensures 0.0 < ScaleOf(sw, sh, mw, mh) <= 1.0
    ensures ScaleOf(sw, sh, mw, mh) <= mw as real / sw as real && ScaleOf(sw, sh, mw, mh) <= mh as real / sh as real
  {}

  lemma FitOne(s: int, m: int, scale: real)
    requires s > 0 && m > 0 && 0.0 < scale <= 1.0 && scale <= m as real / s as real
    ensures 1 <= FitSide(s, scale) <= s && FitSide(s, scale) <= m
  {
    var n, q := s as real, m as real / s as real;
    Shrunk(n, q, scale, m as real);
  }

  lemma Shrunk(n: real, q: real, scale: real, m: real)
    requires n > 0.0 && q * n == m && scale <= q && scale <= 1.0
    ensures n * scale <= m && n * scale <= n
  {
    AtMost(scale, q, n);
    AtMost(scale, 1.0, n);
  }

  function Part(scale: real, side: int): real { scale * side as real }

  /** A fit keeps the shape of the source, to half a pixel, and is as large as the box and the source allow. */
  lemma FitLargest(sw: int, sh: int, mw: int, mh: int)
    requires sw > 0 && sh > 0 && mw > 0 && mh > 0
    ensures var f := FitInside(sw, sh, mw, mh);
      var w, h := Part(f.scale, sw), Part(f.scale, sh);
      && w <= mw as real && h <= mh as real && f.scale <= 1.0
      && (f.scale == 1.0 || w == mw as real || h == mh as real)
      && (f.width == 1 || -0.5 <= f.width as real - w <= 0.5)
      && (f.height == 1 || -0.5 <= f.height as real - h <= 0.5)
  {
    hide FitSide, ScaleOf, Part;
    var scale := ScaleOf(sw, sh, mw, mh);
    ScaleLargest(sw, sh, mw, mh);
    Reach(sw, mw, mw as real / sw as real, scale);
    Reach(sh, mh, mh as real / sh as real, scale);
    SideNear(sw, scale);
    SideNear(sh, scale);
  }

  lemma ScaleLargest(sw: int, sh: int, mw: int, mh: int)
    requires sw > 0 && sh > 0
    ensures var scale, across, down := ScaleOf(sw, sh, mw, mh), mw as real / sw as real, mh as real / sh as real;
      scale <= 1.0 && scale <= across && scale <= down && (scale == 1.0 || scale == across || scale == down)
  {}

  lemma Reach(side: int, most: int, q: real, scale: real)
    requires side > 0 && q == most as real / side as real && scale <= q
    ensures Part(scale, side) <= most as real && (scale == q ==> Part(scale, side) == most as real)
  {
    assert q * side as real == most as real;
    AtMost(scale, q, side as real);
  }

  lemma SideNear(side: int, scale: real)
    ensures FitSide(side, scale) == 1 || -0.5 <= FitSide(side, scale) as real - Part(scale, side) <= 0.5
  {}

  /** A fit is inside its box and never larger than the source, so its reduction tiles the source exactly. */
  lemma FitFits(sw: int, sh: int, mw: int, mh: int)
    requires sw > 0 && sh > 0
    ensures var f := FitInside(sw, sh, mw, mh);
      && 1 <= f.width <= sw && 1 <= f.height <= sh && 0.0 < f.scale <= 1.0
      && (mw > 0 && mh > 0 ==> f.width <= mw && f.height <= mh)
      && Tiles(sw, f.width) && Tiles(sh, f.height)
  {
    hide Tiles, FitSide, ScaleOf;
    if mw > 0 && mh > 0 {
      ScaleIs(sw, sh, mw, mh);
      FitOne(sw, mw, ScaleOf(sw, sh, mw, mh));
      FitOne(sh, mh, ScaleOf(sw, sh, mw, mh));
    }
    TilesIff(sw, FitInside(sw, sh, mw, mh).width);
    TilesIff(sh, FitInside(sw, sh, mw, mh).height);
  }
}
