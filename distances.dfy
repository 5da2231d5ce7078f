/**
 * The distance computations CCA asks of SciPy and scikit-learn: the
 * distances from one point to every row (`cdist`), the full pairwise
 * matrix (`pairwise_distances`), and the strictly upper triangle of a
 * square matrix in the row-major order of `np.triu_indices(n, 1)`.
 *
 * The Euclidean norm itself needs a square root, which real arithmetic
 * here does not have, so the distance is a supplied function `dist`.
 */
module Distances {
  import opened NdArray

  /** A distance between two points. */
  type Metric = (Point, Point) -> real

  /** What a Euclidean distance guarantees: non-negative, symmetric, zero on equal points. */
  ghost predicate IsDistance(dist: Metric)
  {
    && (forall a, b :: dist(a, b) >= 0.0 && dist(a, b) == dist(b, a))
    && (forall a :: dist(a, a) == 0.0)
  }

  /** `cdist(x.reshape(1, -1), points)[0]`: the distance from `x` to every row. */
  function FromPoint(x: Point, points: Matrix, dist: Metric): (r: seq<real>)
    ensures |r| == |points|
  {
    seq(|points|, j requires 0 <= j < |points| => dist(x, points[j]))
  }

  /** `pairwise_distances(points)`: the n x n matrix of distances between rows. */
  function Pairwise(points: Matrix, dist: Metric): (r: Matrix)
    ensures IsShape(r, |points|, |points|)
  {
    seq(|points|, i requires 0 <= i < |points| => FromPoint(points[i], points, dist))
  }

  /** For a distance, the pairwise matrix is symmetric, non-negative and has a zero diagonal. */
  lemma PairwiseIsDistanceMatrix(points: Matrix, dist: Metric)
    requires IsDistance(dist)
    ensures var m := Pairwise(points, dist);
      forall i, j :: 0 <= i < |points| && 0 <= j < |points| ==>
        m[i][j] == m[j][i] && m[i][j] >= 0.0 && (i == j ==> m[i][j] == 0.0)
  {
  }

  /** The entries of rows `i..n-1` of `m` that lie right of the diagonal, row by row. */
  function TriuFrom(m: Matrix, n: nat, i: nat): (r: seq<real>)
    requires IsShape(m, n, n) && i <= n
    ensures 2 * |r| == (n - i) * (n - i - 1)
    decreases n - i
  {
    if i == n then [] else m[i][i + 1..] + TriuFrom(m, n, i + 1)
  }

  /** `m[np.triu_indices(n, 1)]`: every pair `i < j` once, n(n-1)/2 entries. */
  function Triu(m: Matrix, n: nat): (r: seq<real>)
    requires IsShape(m, n, n)
    ensures 2 * |r| == n * (n - 1)
  {
    TriuFrom(m, n, 0)
  }

  /** Index in `Triu(m, n)` at which row `i` starts: rows `0..i-1` hold n-1, n-2, ... entries. */
  function RowStart(n: nat, i: nat): nat
    requires i <= n
  {
    if i == 0 then 0 else RowStart(n, i - 1) + (n - i)
  }

  lemma {:induction false} RowStartMonotone(n: nat, r: nat, i: nat)
    requires r <= i <= n
    ensures RowStart(n, r) <= RowStart(n, i)
    decreases i - r
  {
    if r < i {
      RowStartMonotone(n, r, i - 1);
    }
  }

  lemma {:induction false} TriuFromAt(m: Matrix, n: nat, r: nat, i: nat, j: nat)
    requires IsShape(m, n, n) && r <= i < j < n
    ensures RowStart(n, r) <= RowStart(n, i)
    ensures RowStart(n, i) - RowStart(n, r) + (j - i - 1) < |TriuFrom(m, n, r)|
    ensures TriuFrom(m, n, r)[RowStart(n, i) - RowStart(n, r) + (j - i - 1)] == m[i][j]
    decreases i - r
  {
    RowStartMonotone(n, r, i);
    if r < i {
      TriuFromAt(m, n, r + 1, i, j);
      RowStartMonotone(n, r + 1, i);
      assert RowStart(n, r + 1) == RowStart(n, r) + (n - r - 1);
      assert |m[r][r + 1..]| == n - r - 1;
    }
  }

  /** The pair `i < j` sits at index `RowStart(n, i) + (j - i - 1)` of the upper triangle. */
  lemma TriuAt(m: Matrix, n: nat, i: nat, j: nat)
    requires IsShape(m, n, n) && 0 <= i < j < n
    ensures RowStart(n, i) + (j - i - 1) < |Triu(m, n)|
    ensures Triu(m, n)[RowStart(n, i) + (j - i - 1)] == m[i][j]
  {
    TriuFromAt(m, n, 0, i, j);
  }

  lemma {:induction false} TriuFromAgree(m1: Matrix, m2: Matrix, n: nat, r: nat)
    requires IsShape(m1, n, n) && IsShape(m2, n, n) && r <= n
    requires forall i, j :: 0 <= i < j < n ==> m1[i][j] == m2[i][j]
    ensures TriuFrom(m1, n, r) == TriuFrom(m2, n, r)
    decreases n - r
  {
    if r < n {
      TriuFromAgree(m1, m2, n, r + 1);
      assert m1[r][r + 1..] == m2[r][r + 1..];
    }
  }

  /** The upper triangle reads only the entries above the diagonal. */
  lemma TriuAgree(m1: Matrix, m2: Matrix, n: nat)
    requires IsShape(m1, n, n) && IsShape(m2, n, n)
    requires forall i, j :: 0 <= i < j < n ==> m1[i][j] == m2[i][j]
    ensures Triu(m1, n) == Triu(m2, n)
  {
    TriuFromAgree(m1, m2, n, 0);
  }
}
