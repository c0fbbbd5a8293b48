/** The pixel enumerations of the batch queries: the values a counting loop
    visits, and the column-by-column walk of a rectangle. */
module Scan {

  /** The values x takes in `for (x = from; x < to; x += step)`. The loop
      ends only when it starts past `to` or moves forward. */
  function Sweep(from: int, to: int, step: int): seq<int>
    requires from < to ==> step > 0
    decreases if from < to then to - from else 0
  {
    if from >= to then [] else [from] + Sweep(from + step, to, step)
  }

  /** The least number of steps of size `step` that cover n: the ceiling of
      n / step, and 0 for a non-positive n. `CeilDivIsCeiling` proves it is
      the ceiling: k steps reach n and k - 1 fall short. */
  function CeilDiv(n: int, step: int): nat
    requires step > 0
  {
    if n <= 0 then 0 else (n + step - 1) / step
  }

  /** Euclidean division has one quotient: a == q * s + r with 0 <= r < s
      fixes q. */
  lemma DivUnique(a: int, s: int, q: int, r: int)
    requires s > 0 && 0 <= r < s && a == q * s + r
    ensures a / s == q
  {
    var q0, r0 := a / s, a % s;
    var m := q - q0;
    assert m * s == r0 - r by {
      assert q * s - q0 * s == m * s;
    }
    if m > 0 {
      MulAtLeast(m, s);
    } else if m < 0 {
      MulAtLeast(-m, s);
    }
  }

  lemma MulAtLeast(m: int, s: int)
    requires m >= 1 && s > 0
    ensures m * s >= s
  {
    assert m * s == (m - 1) * s + s;
    assert (m - 1) * s >= 0;
  }

  lemma DivShift(a: int, s: int)
    requires s > 0
    ensures (a + s) / s == a / s + 1
  {
    var q, r := a / s, a % s;
    assert a + s == (q + 1) * s + r by {
      assert a == q * s + r;
      assert (q + 1) * s == q * s + s;
    }
    DivUnique(a + s, s, q + 1, r);
  }

  lemma CeilDivStep(n: int, step: int)
    requires step > 0 && n > 0
    ensures CeilDiv(n, step) == 1 + CeilDiv(n - step, step)
  {
    DivShift(n - 1, step);
    if n - step <= 0 {
      assert 0 <= n - 1 < step;
      assert (n - 1) / step == 0;
    }
  }

  /** CeilDiv is the ceiling: k steps reach n, and k - 1 steps fall short. */
  lemma CeilDivIsCeiling(n: int, step: int)
    requires step > 0 && n > 0
    ensures CeilDiv(n, step) * step >= n
    ensures (CeilDiv(n, step) - 1) * step < n
  {
    var k := (n - 1) / step;
    DivShift(n - 1, step);
    assert CeilDiv(n, step) == k + 1;
    assert n - 1 == k * step + (n - 1) % step;
  }

  /** A counting loop runs ceil((to - from) / step) times. */
  lemma {:induction false} SweepLength(from: int, to: int, step: int)
    requires step > 0
    decreases if from < to then to - from else 0
    ensures |Sweep(from, to, step)| == CeilDiv(to - from, step)
  {
    if from < to {
      SweepLength(from + step, to, step);
      CeilDivStep(to - from, step);
    }
  }

  /** The k-th value of a counting loop is from + k * step. */
  lemma {:induction false} SweepAt(from: int, to: int, step: int, k: int)
    requires step > 0 && 0 <= k < |Sweep(from, to, step)|
    decreases k
    ensures Sweep(from, to, step)[k] == from + k * step
  {
    if k > 0 {
      SweepAt(from + step, to, step, k - 1);
      assert (from + step) + (k - 1) * step == from + k * step;
    }
  }

  /** The pixels of one column u, in the order of the rows vs. */
  function Column(u: int, vs: seq<int>): seq<(int, int)>
  {
    if vs == [] then [] else [(u, vs[0])] + Column(u, vs[1..])
  }

  /** The pixels of the grid us x vs, column after column: u outer, v inner. */
  function Grid(us: seq<int>, vs: seq<int>): seq<(int, int)>
  {
    if us == [] then [] else Column(us[0], vs) + Grid(us[1..], vs)
  }

  lemma {:induction false} ColumnShape(u: int, vs: seq<int>)
    ensures |Column(u, vs)| == |vs|
    ensures forall j :: 0 <= j < |vs| ==> Column(u, vs)[j] == (u, vs[j])
  {
    if vs != [] {
      ColumnShape(u, vs[1..]);
    }
  }

  /** The grid holds |us| * |vs| pixels. */
  lemma {:induction false} GridLength(us: seq<int>, vs: seq<int>)
    ensures |Grid(us, vs)| == |us| * |vs|
  {
    if us != [] {
      ColumnShape(us[0], vs);
      GridLength(us[1..], vs);
      assert |us| * |vs| == |vs| + (|us| - 1) * |vs|;
    }
  }

  lemma CellIndexBound(i: int, j: int, m: int, n: int)
    requires 0 <= i < m && 0 <= j < n
    ensures i * n + j < m * n
  {
    var rest := m - i - 1;
    assert rest * n >= 0;
    assert m * n == i * n + n + rest * n;
  }

  /** (us[i], vs[j]) is the pixel at i * |vs| + j: every row of a column
      comes before the next column. */
  lemma {:induction false} GridAt(us: seq<int>, vs: seq<int>, i: int, j: int)
    requires 0 <= i < |us| && 0 <= j < |vs|
    ensures i * |vs| + j < |Grid(us, vs)|
    ensures Grid(us, vs)[i * |vs| + j] == (us[i], vs[j])
  {
    var n := |vs|;
    ColumnShape(us[0], vs);
    GridLength(us, vs);
    CellIndexBound(i, j, |us|, n);
    if i > 0 {
      GridAt(us[1..], vs, i - 1, j);
      var k := (i - 1) * n + j;
      assert i * n + j == n + k;
      assert Grid(us, vs)[n + k] == Grid(us[1..], vs)[k];
    }
  }
}
