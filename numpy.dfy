/** The handful of numpy and Python semantics the Kinect utilities rely on:
    `astype(int)` / int32 conversion of a float, `np.clip`, and Python's
    negative-index wrap when a 2-D array is indexed. */
module Numpy {

  /** `astype(int)` on a float: truncation toward zero (not floor). */
  function Trunc(x: real): (r: int)
    ensures 0.0 <= x ==> r as real <= x < r as real + 1.0
    ensures x < 0.0 ==> r as real - 1.0 < x <= r as real
  {
    if x >= 0.0 then x.Floor else -((-x).Floor)
  }

  /** Truncation gives 0 exactly on the open interval (-1, 1). */
  lemma TruncZero(x: real)
    ensures Trunc(x) == 0 <==> -1.0 < x < 1.0
  {
  }

  /** Distance between two integers. */
  function Dist(a: int, b: int): nat
  {
    if a < b then b - a else a - b
  }

  /** `np.clip(a, lo, hi)`: the value of [lo, hi] closest to `a`. */
  function Clip(a: int, lo: int, hi: int): (r: int)
    requires lo <= hi
    ensures lo <= r <= hi
    ensures forall k :: lo <= k <= hi ==> Dist(r, a) <= Dist(k, a)
  {
    if a < lo then lo else if a > hi then hi else a
  }

  /** A Python index `i` into an axis of length `n` does not raise IndexError. */
  predicate ValidIndex(i: int, n: nat)
  {
    -(n as int) <= i < n
  }

  /** The position Python reads for index `i`: negative indices count from the end. */
  function WrapIndex(i: int, n: nat): (k: nat)
    requires ValidIndex(i, n)
    ensures k < n && (k == i || k == i + n)
  {
    if i < 0 then i + n else i
  }

  /** Width of a 2-D array given as rows (0 when it has no rows). */
  function Width<T>(g: seq<seq<T>>): nat
  {
    if |g| == 0 then 0 else |g[0]|
  }

  /** Every row has the same length, as in a numpy 2-D array. */
  predicate Rectangular<T>(g: seq<seq<T>>)
  {
    forall i :: 0 <= i < |g| ==> |g[i]| == Width(g)
  }

  /** `g[v, u]` with Python index semantics on both axes. */
  function At<T>(g: seq<seq<T>>, v: int, u: int): (x: T)
    requires Rectangular(g) && ValidIndex(v, |g|) && ValidIndex(u, Width(g))
    ensures 0 <= v && 0 <= u ==> x == g[v][u]
    ensures v < 0 && 0 <= u ==> x == g[|g| + v][u]
    ensures 0 <= v && u < 0 ==> x == g[v][Width(g) + u]
    ensures v < 0 && u < 0 ==> x == g[|g| + v][Width(g) + u]
  {
    g[WrapIndex(v, |g|)][WrapIndex(u, Width(g))]
  }
}
