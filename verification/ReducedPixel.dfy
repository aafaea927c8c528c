/**
 * The pixel a box is reduced to: the colour about which the box balances, each pixel
 * weighing as much as it can be seen, and the mean of what can be seen of them.
 */
module ReducedPixels {
  import opened Grids
  import opened RealArithmetic
  import opened Operations
  import opened Downscaling

  datatype Channel = Red | Green | Blue

  function Of(p: Pixel, ch: Channel): int {
    match ch
    case Red => p.r
    case Green => p.g
    case Blue => p.b
  }

  function SumOf(s: Sums, ch: Channel): real {
    match ch
    case Red => s.r
    case Green => s.g
    case Blue => s.b
  }

  /** How hard a pixel pulls away from colour `v`, by its alpha. */
  function Pull(p: Pixel, v: real, ch: Channel): real { p.a as real * (Of(p, ch) as real - v) }

  /** How hard the pixels of a row lean away from colour `v`, on top of `before`. */
  function RowLean(before: real, row: seq<Pixel>, left: nat, right: nat, v: real, ch: Channel): real
    requires left <= right <= |row|
    decreases right - left
  {
    if left == right then before
    else RowLean(before, row, left, right - 1, v, ch)
         + Pull(row[right - 1], v, ch)
  }

  function BoxLean(p: Picture, w: nat, h: nat, left: nat, right: nat, top: nat, bottom: nat, v: real, ch: Channel): real
    requires Sized(p, w, h) && left <= right <= w && top <= bottom <= h
    decreases bottom - top
  {
    if top == bottom then 0.0
    else RowLean(BoxLean(p, w, h, left, right, top, bottom - 1, v, ch), p[bottom - 1], left, right, v, ch)
  }

  /** How much of the box can be seen, over and above `v` a pixel. */
  function RowAlpha(before: real, row: seq<Pixel>, left: nat, right: nat, v: real): real
    requires left <= right <= |row|
    decreases right - left
  {
    if left == right then before else RowAlpha(before, row, left, right - 1, v) + (row[right - 1].a as real - v)
  }

  function BoxAlpha(p: Picture, w: nat, h: nat, left: nat, right: nat, top: nat, bottom: nat, v: real): real
    requires Sized(p, w, h) && left <= right <= w && top <= bottom <= h
    decreases bottom - top
  {
    if top == bottom then 0.0
    else RowAlpha(BoxAlpha(p, w, h, left, right, top, bottom - 1, v), p[bottom - 1], left, right, v)
  }

  /** What sums say of the leaning: the premultiplied colour against the alpha. */
  function Against(s: Sums, v: real, ch: Channel): real { SumOf(s, ch) * MAX_SAMPLE as real - v * s.a }

  /** And of what can be seen against `v` a pixel. */
  function Beyond(s: Sums, v: real): real { s.a - s.samples as real * v }

  lemma OneAgainst(s: Sums, p: Pixel, v: real, ch: Channel)
    ensures Against(Added(s, p), v, ch) == Against(s, v, ch) + Pull(p, v, ch)
  {
    hide Premultiplied;
    PremultipliedBack(Of(p, ch), p.a);
    LeanAdds(SumOf(s, ch), s.a, Premultiplied(Of(p, ch), p.a), p.a as real, Of(p, ch) as real, v);
  }

  lemma PremultipliedBack(c: int, alpha: int)
    ensures Premultiplied(c, alpha) * MAX_SAMPLE as real == c as real * alpha as real
  {
    var q := alpha as real / MAX_SAMPLE as real;
    assert q * MAX_SAMPLE as real == alpha as real;
    assert (c as real * q) * MAX_SAMPLE as real == c as real * (q * MAX_SAMPLE as real);
  }

  lemma LeanAdds(sum: real, alpha: real, pre: real, a: real, c: real, v: real)
    requires pre * MAX_SAMPLE as real == c * a
    ensures (sum + pre) * MAX_SAMPLE as real - v * (alpha + a) == (sum * MAX_SAMPLE as real - v * alpha) + a * (c - v)
  {
    Distribute(v, alpha, a);
    assert a * (c - v) == c * a - v * a;
  }

  lemma {:induction false} RowAgainst(s: Sums, row: seq<Pixel>, left: nat, right: nat, v: real, ch: Channel)
    requires left <= right <= |row|
    ensures Against(AlongRow(s, row, left, right), v, ch) == RowLean(Against(s, v, ch), row, left, right, v, ch)
    decreases right - left
  {
    hide Against, Added, Pull;
    if left < right {
      RowAgainst(s, row, left, right - 1, v, ch);
      OneAgainst(AlongRow(s, row, left, right - 1), row[right - 1], v, ch);
    }
  }

  lemma {:induction false} BoxAgainst(p: Picture, w: nat, h: nat, left: nat, right: nat, top: nat, bottom: nat,
                                      v: real, ch: Channel)
    requires Sized(p, w, h) && left <= right <= w && top <= bottom <= h
    ensures Against(OverBox(p, w, h, left, right, top, bottom), v, ch)
         == BoxLean(p, w, h, left, right, top, bottom, v, ch)
    decreases bottom - top
  {
    hide AlongRow, RowLean;
    if top < bottom {
      BoxAgainst(p, w, h, left, right, top, bottom - 1, v, ch);
      RowAgainst(OverBox(p, w, h, left, right, top, bottom - 1), p[bottom - 1], left, right, v, ch);
    }
  }

  lemma {:induction false} RowCounts(s: Sums, row: seq<Pixel>, left: nat, right: nat, v: real)
    requires left <= right <= |row|
    ensures Beyond(AlongRow(s, row, left, right), v) == RowAlpha(Beyond(s, v), row, left, right, v)
    ensures AlongRow(s, row, left, right).samples == s.samples + (right - left)
    decreases right - left
  {
    hide Added, Beyond;
    if left < right {
      RowCounts(s, row, left, right - 1, v);
      OneBeyond(AlongRow(s, row, left, right - 1), row[right - 1], v);
    }
  }

  lemma OneBeyond(s: Sums, p: Pixel, v: real)
    ensures Beyond(Added(s, p), v) == Beyond(s, v) + (p.a as real - v) && Added(s, p).samples == s.samples + 1
  {
    hide Premultiplied;
    var n := s.samples as real;
    assert (n + 1.0) * v == n * v + v;
  }

  lemma NothingBeyond(v: real)
    ensures Beyond(NO_SUMS, v) == 0.0
  {}

  lemma {:induction false} BoxCounts(p: Picture, w: nat, h: nat, left: nat, right: nat, top: nat, bottom: nat, v: real)
    requires Sized(p, w, h) && left <= right <= w && top <= bottom <= h
    ensures Beyond(OverBox(p, w, h, left, right, top, bottom), v) == BoxAlpha(p, w, h, left, right, top, bottom, v)
    ensures left < right && top < bottom ==> OverBox(p, w, h, left, right, top, bottom).samples > 0
    decreases bottom - top
  {
    hide AlongRow, RowAlpha, Beyond;
    NothingBeyond(v);
    if top < bottom {
      BoxCounts(p, w, h, left, right, top, bottom - 1, v);
      RowCounts(OverBox(p, w, h, left, right, top, bottom - 1), p[bottom - 1], left, right, v);
    }
  }

  /** Within half a step, or at the end of the range the value lies beyond. */
  predicate Rounded(n: int, v: real) {
    && 0 <= n <= MAX_SAMPLE
    && (0.0 <= v <= MAX_SAMPLE as real ==> -0.5 <= n as real - v <= 0.5)
    && (v < 0.0 ==> n == 0) && (v > MAX_SAMPLE as real ==> n == MAX_SAMPLE)
  }

  lemma ToSampleRounds(v: real)
    ensures Rounded(ToSample(v), v)
  {}

  /** Colours, and an amount to be seen, before they are rounded. */
  datatype Mean = Mean(r: real, g: real, b: real, a: real)

  /**
   * A box nothing of which can be seen is reduced to a clear pixel. Any other to the rounded
   * colour about which its pixels balance, by their alphas, and to their mean alpha.
   */
  lemma BoxBalances(p: Picture, w: nat, h: nat, area: Rect, tw: nat, th: nat, x: nat, y: nat) returns (m: Mean)
    requires Sized(p, w, h) && InPicture(area, w, h) && x < tw && y < th
    ensures Start(x, area.width, tw) < End(x, area.width, tw) <= area.width
    ensures Start(y, area.height, th) < End(y, area.height, th) <= area.height
    ensures var left, right := area.x + Start(x, area.width, tw), area.x + End(x, area.width, tw);
      var top, bottom := area.y + Start(y, area.height, th), area.y + End(y, area.height, th);
      var q := BoxPixel(p, w, h, area, tw, th, x, y);
      if BoxAlpha(p, w, h, left, right, top, bottom, 0.0) <= 0.0 then q == CLEAR
      else
        && Rounded(q.r, m.r) && BoxLean(p, w, h, left, right, top, bottom, m.r, Red) == 0.0
        && Rounded(q.g, m.g) && BoxLean(p, w, h, left, right, top, bottom, m.g, Green) == 0.0
        && Rounded(q.b, m.b) && BoxLean(p, w, h, left, right, top, bottom, m.b, Blue) == 0.0
        && Rounded(q.a, m.a) && BoxAlpha(p, w, h, left, right, top, bottom, m.a) == 0.0
  {
    hide Start, End, OverBox, BoxLean, BoxAlpha, Against, ToSample, Rounded, Unpremultiplied;
    BoxInRange(x, area.width, tw);
    BoxInRange(y, area.height, th);
    var left, right := area.x + Start(x, area.width, tw), area.x + End(x, area.width, tw);
    var top, bottom := area.y + Start(y, area.height, th), area.y + End(y, area.height, th);
    var s := OverBox(p, w, h, left, right, top, bottom);
    BoxCounts(p, w, h, left, right, top, bottom, 0.0);
    m := Mean(0.0, 0.0, 0.0, 0.0);
    if s.a > 0.0 {
      m := Mean(Unpremultiplied(s.r, s.a), Unpremultiplied(s.g, s.a), Unpremultiplied(s.b, s.a),
                s.a / s.samples as real);
      ChannelBalances(p, w, h, left, right, top, bottom, Red);
      ChannelBalances(p, w, h, left, right, top, bottom, Green);
      ChannelBalances(p, w, h, left, right, top, bottom, Blue);
      BoxCounts(p, w, h, left, right, top, bottom, m.a);
      MeanBack(s.a, s.samples as real);
      ToSampleRounds(m.r);
      ToSampleRounds(m.g);
      ToSampleRounds(m.b);
      ToSampleRounds(m.a);
    }
  }

  lemma ChannelBalances(p: Picture, w: nat, h: nat, left: nat, right: nat, top: nat, bottom: nat, ch: Channel)
    requires Sized(p, w, h) && left <= right <= w && top <= bottom <= h
    requires OverBox(p, w, h, left, right, top, bottom).a > 0.0
    ensures var s := OverBox(p, w, h, left, right, top, bottom);
      BoxLean(p, w, h, left, right, top, bottom, Unpremultiplied(SumOf(s, ch), s.a), ch) == 0.0
  {
    hide OverBox, BoxLean;
    var s := OverBox(p, w, h, left, right, top, bottom);
    BoxAgainst(p, w, h, left, right, top, bottom, Unpremultiplied(SumOf(s, ch), s.a), ch);
    UnpremultipliedBack(SumOf(s, ch), s.a);
  }

  lemma UnpremultipliedBack(sum: real, alpha: real)
    requires alpha > 0.0
    ensures Unpremultiplied(sum, alpha) * alpha == sum * MAX_SAMPLE as real
  {
    var q := MAX_SAMPLE as real / alpha;
    assert q * alpha == MAX_SAMPLE as real;
    assert (sum * q) * alpha == sum * (q * alpha);
  }

  lemma MeanBack(a: real, n: real)
    requires n > 0.0
    ensures a - n * (a / n) == 0.0
  {}
}
