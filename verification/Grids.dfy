/** Values in rows and columns, and the buffers that hold them. */
module Grids {
  type Grid<T> = seq<seq<T>>

  ghost predicate Sized<T>(g: Grid<T>, w: nat, h: nat) {
    w > 0 && h > 0 && |g| == h && forall y | 0 <= y < h :: |g[y]| == w
  }

  ghost function Held<T>(a: array2<T>): (g: Grid<T>)
    reads a
    ensures |g| == a.Length0 && forall y | 0 <= y < |g| :: |g[y]| == a.Length1
    ensures forall y, x | 0 <= y < a.Length0 && 0 <= x < a.Length1 :: g[y][x] == a[y, x]
  {
    seq(a.Length0, y requires 0 <= y < a.Length0 reads a =>
      seq(a.Length1, x requires 0 <= x < a.Length1 reads a => a[y, x]))
  }

  lemma SameGrid<T>(p: Grid<T>, q: Grid<T>, w: nat, h: nat)
    requires Sized(p, w, h) && Sized(q, w, h)
    requires forall y, x | 0 <= y < h && 0 <= x < w :: p[y][x] == q[y][x]
    ensures p == q
  {
    forall y | 0 <= y < h ensures p[y] == q[y] {}
  }

  /** The nearest place inside a row of `n`. */
  function Edge(i: int, n: nat): (e: int)
    requires n > 0
    ensures 0 <= e < n
  {
    if i < 0 then 0 else if i >= n then n - 1 else i
  }
}
