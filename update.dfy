/**
 * One sub-step and one sweep of `CCA.run`. In the sub-step for point `i`
 * every other point `j` moves along the line through `x_i` and `x_j` to
 * `x_j - factor_j * (x_i - x_j)`, where
 * `factor_j = alpha * int(lmbda > dx_j) * (dy_j - dx_j) / dx_j`; point
 * `i` itself gets a zero displacement. A sweep runs the sub-steps for
 * `i = 0, 1, ..., n-1` in that order, each on the embedding left by the
 * previous one.
 */
module Update {
  import opened NdArray
  import opened Distances

  /**
   * `alpha * (lmbda > dx) * (dy - dx) / dx` for one neighbour: the
   * relative discrepancy scaled by the rate, or zero at or beyond the radius.
   */
  function Factor(rate: real, radius: real, dy: real, dx: real): real
    requires dx != 0.0
  {
    if radius > dx then rate * (dy - dx) / dx else 0.0
  }

  /**
   * No other point coincides with point `i` in reduced space, so the
   * division by `dx` in the sub-step for `i` is defined.
   */
  predicate Separated(x: Matrix, i: nat, dist: Metric)
    requires i < |x|
  {
    forall j {:trigger dist(x[i], x[j])} :: 0 <= j < |x| && j != i ==> dist(x[i], x[j]) != 0.0
  }

  /** Separation is exactly "no zero among the distances to the other points". */
  lemma SeparatedIff(x: Matrix, i: nat, dist: Metric)
    requires i < |x|
    ensures Separated(x, i, dist) <==> 0.0 !in Delete(FromPoint(x[i], x, dist), i)
  {
    var dx := Delete(FromPoint(x[i], x, dist), i);
    if !Separated(x, i, dist) {
      var j :| 0 <= j < |x| && j != i && dist(x[i], x[j]) == 0.0;
      var k := if j < i then j else j - 1;
      DeleteAt(FromPoint(x[i], x, dist), i, k);
      assert dx[k] == 0.0;
    } else {
      forall k | 0 <= k < |dx|
        ensures dx[k] != 0.0
      {
        DeleteAt(FromPoint(x[i], x, dist), i, k);
      }
    }
  }

  /**
   * The displacements of the n-1 other points (cca.py line 90), indexed
   * as after `np.delete(_, i, 0)`: `dy`, `dx` and the other rows all
   * skip index `i`. Row `k` is `Factor(dy_k, dx_k) * (x_i - others_k)`.
   */
  function Displacements(x: Matrix, i: nat, dy: seq<real>, dx: seq<real>, rate: real, radius: real): (d: Matrix)
    requires i < |x| && IsShape(x, |x|, |x[i]|)
    requires |dy| == |dx| == |x| - 1 && 0.0 !in dx
    ensures IsShape(d, |x| - 1, |x[i]|)
  {
    DisplacementRows(x, i, dy, dx, rate, radius, 0)
  }

  /** Rows `k, k+1, ..., n-2` of the displacements. */
  function DisplacementRows(x: Matrix, i: nat, dy: seq<real>, dx: seq<real>, rate: real, radius: real, k: nat): (d: Matrix)
    requires i < |x| && IsShape(x, |x|, |x[i]|)
    requires |dy| == |dx| == |x| - 1 && 0.0 !in dx && k <= |x| - 1
    ensures IsShape(d, |x| - 1 - k, |x[i]|)
    decreases |x| - 1 - k
  {
    if k == |x| - 1 then []
    else
      var row := Scale(Factor(rate, radius, dy[k], dx[k]), Sub(x[i], Delete(x, i)[k]));
      [row] + DisplacementRows(x, i, dy, dx, rate, radius, k + 1)
  }

  lemma {:induction false} DisplacementRowsAt(x: Matrix, i: nat, dy: seq<real>, dx: seq<real>, rate: real, radius: real, k: nat, m: nat)
    requires i < |x| && IsShape(x, |x|, |x[i]|)
    requires |dy| == |dx| == |x| - 1 && 0.0 !in dx && k <= m < |x| - 1
    ensures DisplacementRows(x, i, dy, dx, rate, radius, k)[m - k] ==
      Scale(Factor(rate, radius, dy[m], dx[m]), Sub(x[i], Delete(x, i)[m]))
    decreases m - k
  {
    if k < m {
      DisplacementRowsAt(x, i, dy, dx, rate, radius, k + 1, m);
    }
  }

  /**
   * `delta_x` of the sub-step for point `i` (cca.py lines 87-91):
   * distances from `x_i` to every row, row `i` of the original-space
   * matrix and the rows other than `i`, each with index `i` deleted; the
   * displacements, with a zero row re-inserted at `i`.
   */
  function Delta(x: Matrix, i: nat, dyRow: seq<real>, rate: real, radius: real, dist: Metric): (d: Matrix)
    requires i < |x| && IsShape(x, |x|, |x[i]|) && |dyRow| == |x|
    requires Separated(x, i, dist)
    ensures IsShape(d, |x|, |x[i]|) && d[i] == Zero(|x[i]|)
  {
    SeparatedIff(x, i, dist);
    var dx := Delete(FromPoint(x[i], x, dist), i);
    var dy := Delete(dyRow, i);
    Insert(Displacements(x, i, dy, dx, rate, radius), i, Zero(|x[i]|))
  }

  /**
   * Where the sub-step for `i` puts row `j`: row `i` stays; every other
   * row moves to `x_j - Factor(rate, radius, dy_j, dx_j) * (x_i - x_j)`
   * with `dx_j = dist(x_i, x_j)` and `dy_j = dyRow[j]`.
   */
  function Moved(x: Matrix, i: nat, dyRow: seq<real>, rate: real, radius: real, dist: Metric, j: nat): Point
    requires i < |x| && IsShape(x, |x|, |x[i]|) && |dyRow| == |x|
    requires Separated(x, i, dist) && j < |x|
  {
    if j == i then x[i]
    else Sub(x[j], Scale(Factor(rate, radius, dyRow[j], dist(x[i], x[j])), Sub(x[i], x[j])))
  }

  /** Rows `j, j+1, ..., n-1` after the sub-step for `i`. */
  function SubStepRows(x: Matrix, i: nat, dyRow: seq<real>, rate: real, radius: real, dist: Metric, j: nat): (r: Matrix)
    requires i < |x| && IsShape(x, |x|, |x[i]|) && |dyRow| == |x|
    requires Separated(x, i, dist) && j <= |x|
    ensures IsShape(r, |x| - j, |x[i]|)
    decreases |x| - j
  {
    if j == |x| then []
    else [Moved(x, i, dyRow, rate, radius, dist, j)] + SubStepRows(x, i, dyRow, rate, radius, dist, j + 1)
  }

  /** The sub-step for point `i`: every row moved as `Moved` says. */
  function SubStep(x: Matrix, i: nat, dyRow: seq<real>, rate: real, radius: real, dist: Metric): (r: Matrix)
    requires i < |x| && IsShape(x, |x|, |x[i]|) && |dyRow| == |x|
    requires Separated(x, i, dist)
    ensures IsShape(r, |x|, |x[i]|)
  {
    SubStepRows(x, i, dyRow, rate, radius, dist, 0)
  }

  lemma {:induction false} SubStepRowsAt(x: Matrix, i: nat, dyRow: seq<real>, rate: real, radius: real, dist: Metric, j: nat, k: nat)
    requires i < |x| && IsShape(x, |x|, |x[i]|) && |dyRow| == |x|
    requires Separated(x, i, dist) && j <= k < |x|
    ensures SubStepRows(x, i, dyRow, rate, radius, dist, j)[k - j] == Moved(x, i, dyRow, rate, radius, dist, k)
    decreases k - j
  {
    if j < k {
      SubStepRowsAt(x, i, dyRow, rate, radius, dist, j + 1, k);
    }
  }

  /**
   * `data_x -= delta_x` is the sub-step: deleting index `i` from the
   * distance rows and the embedding, and re-inserting a zero displacement
   * at `i`, lines every displacement up with the row it belongs to.
   */
  lemma SubtractDelta(x: Matrix, i: nat, dyRow: seq<real>, rate: real, radius: real, dist: Metric)
    requires i < |x| && IsShape(x, |x|, |x[i]|) && |dyRow| == |x|
    requires Separated(x, i, dist)
    ensures SubRows(x, Delta(x, i, dyRow, rate, radius, dist)) == SubStep(x, i, dyRow, rate, radius, dist)
  {
    SeparatedIff(x, i, dist);
    var dx := Delete(FromPoint(x[i], x, dist), i);
    var dy := Delete(dyRow, i);
    var d := Displacements(x, i, dy, dx, rate, radius);
    var full := Insert(d, i, Zero(|x[i]|));
    assert full == Delta(x, i, dyRow, rate, radius, dist);
    var lhs, rhs := SubRows(x, full), SubStep(x, i, dyRow, rate, radius, dist);
    forall j | 0 <= j < |x|
      ensures lhs[j] == rhs[j]
    {
      SubStepRowsAt(x, i, dyRow, rate, radius, dist, 0, j);
      if j == i {
        SubZero(x[i]);
      } else {
        var k := if j < i then j else j - 1;
        DisplacementRowsAt(x, i, dy, dx, rate, radius, 0, k);
        InsertAt(d, i, Zero(|x[i]|), j);
        DeleteAt(x, i, k);
        DeleteAt(dyRow, i, k);
        DeleteAt(FromPoint(x[i], x, dist), i, k);
        assert full[j] == d[k];
      }
    }
  }

  /** A neighbour already at its original-space distance gets factor zero. */
  lemma FactorOfMatched(rate: real, radius: real, d: real)
    requires d != 0.0
    ensures Factor(rate, radius, d, d) == 0.0
  {
    if radius > d {
      calc { Factor(rate, radius, d, d); == rate * (d - d) / d; == rate * 0.0 / d; == 0.0; }
    }
  }

  /**
   * The direction of the move: with a positive rate, a neighbour inside
   * the radius that is closer than in the original space (`dy > dx`) gets
   * a positive factor, so `x_j - factor * (x_i - x_j)` pushes it away from
   * `x_i`; one that is farther (`dy < dx`) gets a negative factor and is
   * pulled towards `x_i`.
   */
  lemma FactorSign(rate: real, radius: real, dy: real, dx: real)
    requires 0.0 < dx < radius && rate > 0.0
    ensures Factor(rate, radius, dy, dx) > 0.0 <==> dy > dx
    ensures Factor(rate, radius, dy, dx) < 0.0 <==> dy < dx
  {
    var m := rate * (dy - dx);
    assert Factor(rate, radius, dy, dx) == m / dx;
    if dy > dx {
      assert m > 0.0;
    } else if dy < dx {
      assert m < 0.0;
    } else {
      assert m == 0.0;
    }
  }

  /**
   * What the sub-step for `i` does to row `j`: row `i` is unchanged; a
   * row at or beyond the radius is unchanged; any other row `j` becomes
   * `x_j - Factor(rate, radius, dy_j, dx_j) * (x_i - x_j)` with
   * `dx_j = dist(x_i, x_j)` and `dy_j = dyRow[j]`.
   */
  lemma SubStepAt(x: Matrix, i: nat, dyRow: seq<real>, rate: real, radius: real, dist: Metric, j: nat)
    requires i < |x| && IsShape(x, |x|, |x[i]|) && |dyRow| == |x|
    requires Separated(x, i, dist) && j < |x|
    ensures SubStep(x, i, dyRow, rate, radius, dist)[i] == x[i]
    ensures j != i ==>
      SubStep(x, i, dyRow, rate, radius, dist)[j] ==
        Sub(x[j], Scale(Factor(rate, radius, dyRow[j], dist(x[i], x[j])), Sub(x[i], x[j])))
    ensures j != i && radius <= dist(x[i], x[j]) ==>
      SubStep(x, i, dyRow, rate, radius, dist)[j] == x[j]
  {
    SubStepRowsAt(x, i, dyRow, rate, radius, dist, 0, i);
    SubStepRowsAt(x, i, dyRow, rate, radius, dist, 0, j);
    if j != i && radius <= dist(x[i], x[j]) {
      SubScaledByZero(x[j], Sub(x[i], x[j]));
    }
  }

  /**
   * A point whose every neighbour is at or beyond the radius, or already
   * at its original-space distance, leaves the embedding unchanged.
   */
  lemma SubStepFixed(x: Matrix, i: nat, dyRow: seq<real>, rate: real, radius: real, dist: Metric)
    requires i < |x| && IsShape(x, |x|, |x[i]|) && |dyRow| == |x|
    requires Separated(x, i, dist)
    requires forall j :: 0 <= j < |x| && j != i ==>
      radius <= dist(x[i], x[j]) || dyRow[j] == dist(x[i], x[j])
    ensures SubStep(x, i, dyRow, rate, radius, dist) == x
  {
    var r := SubStep(x, i, dyRow, rate, radius, dist);
    forall j | 0 <= j < |x|
      ensures r[j] == x[j]
    {
      SubStepAt(x, i, dyRow, rate, radius, dist, j);
      if j != i && radius > dist(x[i], x[j]) {
        FactorOfMatched(rate, radius, dist(x[i], x[j]));
        SubScaledByZero(x[j], Sub(x[i], x[j]));
      }
    }
  }

  /** How a sweep ends: all n sub-steps done, or halted before the sub-step of `point`. */
  datatype Swept = Complete(x: Matrix) | Halted(x: Matrix, point: nat)

  /**
   * Sub-steps `i, i+1, ..., n-1` in ascending order, each applied to the
   * embedding the previous ones left. A sub-step whose point coincides
   * with another point halts the sweep before it divides by zero.
   */
  function SweepFrom(x: Matrix, i: nat, distY: Matrix, rate: real, radius: real, dist: Metric): (r: Swept)
    requires |x| > 0 && IsShape(x, |x|, |x[0]|) && IsShape(distY, |x|, |x|) && i <= |x|
    ensures IsShape(r.x, |x|, |x[0]|)
    ensures r.Halted? ==> i <= r.point < |x| && !Separated(r.x, r.point, dist)
    decreases |x| - i
  {
    if i == |x| then Complete(x)
    else if !Separated(x, i, dist) then Halted(x, i)
    else SweepFrom(SubStep(x, i, distY[i], rate, radius, dist), i + 1, distY, rate, radius, dist)
  }

  /** A sweep that reaches a point no other point coincides with takes its sub-step and goes on. */
  lemma SweepStep(x: Matrix, i: nat, distY: Matrix, rate: real, radius: real, dist: Metric)
    requires |x| > 0 && IsShape(x, |x|, |x[0]|) && IsShape(distY, |x|, |x|) && i < |x|
    requires Separated(x, i, dist)
    ensures SweepFrom(x, i, distY, rate, radius, dist) ==
      SweepFrom(SubStep(x, i, distY[i], rate, radius, dist), i + 1, distY, rate, radius, dist)
  {
  }

  /**
   * The reduced distance of every pair of distinct points equals its
   * original-space distance, and none is zero.
   */
  predicate Perfect(x: Matrix, distY: Matrix, dist: Metric)
    requires IsShape(distY, |x|, |x|)
  {
    forall a, b :: 0 <= a < |x| && 0 <= b < |x| && a != b ==>
      dist(x[a], x[b]) == distY[a][b] && distY[a][b] != 0.0
  }

  /**
   * An embedding whose reduced distances already equal the original-space
   * distances for every pair of distinct points, none of them zero, is
   * left unchanged by a sweep.
   */
  lemma {:induction false} SweepFixed(x: Matrix, i: nat, distY: Matrix, rate: real, radius: real, dist: Metric)
    requires |x| > 0 && IsShape(x, |x|, |x[0]|) && IsShape(distY, |x|, |x|) && i <= |x|
    requires Perfect(x, distY, dist)
    ensures SweepFrom(x, i, distY, rate, radius, dist) == Complete(x)
    decreases |x| - i
  {
    if i < |x| {
      SweepFixed(x, i + 1, distY, rate, radius, dist);
      assert Separated(x, i, dist);
      SubStepFixed(x, i, distY[i], rate, radius, dist);
    }
  }
}
