/**
 * The `CCA` object: its parameters `p`, `lmbd` and `alpha`, and the
 * fields `data_y` and `data_x` that `run` sets. `run` keeps the embedding
 * in an array of rows that every sub-step updates in place, and the
 * stress trace in an array of `q_max` entries filled by index.
 */
module Cca {
  import opened NdArray
  import opened Distances
  import opened Schedule
  import opened StressFunction
  import opened Update
  import opened Iteration

  /** `data_x -= delta_x`: subtracts `delta[j]` from row `j`, row by row, in place. */
  method SubtractInPlace(x: array<Point>, delta: Matrix)
    requires x.Length == |delta|
    requires forall j :: 0 <= j < x.Length ==> |x[j]| == |delta[j]|
    modifies x
    ensures x[..] == SubRows(old(x[..]), delta)
  {
    for j := 0 to x.Length
      invariant forall k :: 0 <= k < j ==> x[k] == Sub(old(x[k]), delta[k])
      invariant forall k :: j <= k < x.Length ==> x[k] == old(x[k])
    {
      x[j] := Sub(x[j], delta[j]);
    }
  }

  /**
   * The sub-step for point `i` of `run`, in place (cca.py lines 87-92):
   * the distances from `x_i` to the other points; if one is zero, report
   * it and leave the rows alone; otherwise `data_x -= delta_x`.
   */
  method SubStepInPlace(xs: array<Point>, i: nat, dyRow: seq<real>, rate: real, radius: real, dist: Metric)
      returns (halted: bool)
    requires i < xs.Length && IsShape(xs[..], xs.Length, |xs[i]|) && |dyRow| == xs.Length
    modifies xs
    ensures halted <==> !Separated(old(xs[..]), i, dist)
    ensures halted ==> xs[..] == old(xs[..])
    ensures !halted ==> xs[..] == SubStep(old(xs[..]), i, dyRow, rate, radius, dist)
  {
    var dx := Delete(FromPoint(xs[i], xs[..], dist), i);
    SeparatedIff(xs[..], i, dist);
    if 0.0 in dx {
      return true;
    }
    var delta := Delta(xs[..], i, dyRow, rate, radius, dist);
    SubtractDelta(xs[..], i, dyRow, rate, radius, dist);
    SubtractInPlace(xs, delta);
    return false;
  }

  /**
   * One sweep of `run`, in place: the sub-steps for `i = 0, ..., n-1` in
   * order, each on the rows the previous one left, stopping at the first
   * point that coincides with another and reporting it.
   */
  method Sweep(xs: array<Point>, distY: Matrix, rate: real, radius: real, dist: Metric)
      returns (halted: bool, point: nat)
    requires xs.Length > 0 && IsShape(xs[..], xs.Length, |xs[0]|)
    requires IsShape(distY, xs.Length, xs.Length)
    modifies xs
    ensures IsShape(xs[..], xs.Length, old(|xs[0]|))
    ensures SweepFrom(old(xs[..]), 0, distY, rate, radius, dist) ==
      if halted then Halted(xs[..], point) else Complete(xs[..])
  {
    var n, p := xs.Length, |xs[0]|;
    ghost var target := SweepFrom(xs[..], 0, distY, rate, radius, dist);
    var i := 0;
    while i < n
      invariant i <= n && IsShape(xs[..], n, p)
      invariant SweepFrom(xs[..], i, distY, rate, radius, dist) == target
    {
      ghost var cur := xs[..];
      var stop := SubStepInPlace(xs, i, distY[i], rate, radius, dist);
      if stop {
        return true, i;
      }
      SweepStep(cur, i, distY, rate, radius, dist);
      i := i + 1;
    }
    return false, 0;
  }

  /**
   * Iteration `q` of `run`, in place: the sweep with that iteration's
   * rate and radius, then the stress of the new embedding over the
   * upper-triangle pairs.
   */
  method IterateInPlace(xs: array<Point>, q: nat, distY: Matrix, dist: Metric, cfg: Config)
      returns (halted: bool, point: nat, s: real)
    requires xs.Length >= 2 && IsShape(xs[..], xs.Length, |xs[0]|)
    requires IsShape(distY, xs.Length, xs.Length)
    modifies xs
    ensures IsShape(xs[..], xs.Length, old(|xs[0]|))
    ensures Iterate(old(xs[..]), q, distY, dist, cfg) ==
      if halted then Stuck(xs[..], point) else Swept(xs[..], s)
  {
    var n := xs.Length;
    var radius := Radius(cfg.lmbd, q);
    halted, point := Sweep(xs, distY, Rate(cfg.alpha, q), radius, dist);
    s := 0.0;
    if !halted {
      var distX := Pairwise(xs[..], dist);
      s := Stress(Triu(distY, n), Triu(distX, n), radius);
    }
  }

  /**
   * The `for q in range(q_max)` loop of `run`, in place on the embedding
   * `xs` and the trace `trace`: iterations `0, 1, ...` until a stress falls
   * below `tol`, a sweep halts, or `q_max` iterations are done.
   */
  method Iterations(xs: array<Point>, trace: array<real>, distY: Matrix, dist: Metric, cfg: Config)
      returns (outcome: Outcome)
    requires xs != trace as object
    requires xs.Length >= 2 && IsShape(xs[..], xs.Length, |xs[0]|)
    requires IsShape(distY, xs.Length, xs.Length) && trace.Length == cfg.qMax
    modifies xs, trace
    ensures RunResult(xs[..], trace[..], outcome) ==
      RunFrom(old(xs[..]), 0, old(trace[..]), distY, dist, cfg)
  {
    ghost var spec := RunFrom(xs[..], 0, trace[..], distY, dist, cfg);
    ghost var p := |xs[0]|;
    var q := 0;
    while q < cfg.qMax
      invariant q <= cfg.qMax && IsShape(xs[..], xs.Length, p)
      invariant RunFrom(xs[..], q, trace[..], distY, dist, cfg) == spec
    {
      ghost var start := xs[..];
      var halted, point, s := IterateInPlace(xs, q, distY, dist, cfg);
      if halted {
        RunFromStuck(start, q, trace[..], distY, dist, cfg);
        return Degenerate(q, point);
      }
      RunFromSwept(start, q, trace[..], distY, dist, cfg);
      trace[q] := s;
      if s < cfg.tol {
        return Converged(q);
      }
      q := q + 1;
    }
    return Exhausted;
  }

  class Cca {
    /** The dimension of the reduced space. */
    const p: nat
    /** The initial neighbourhood radius. */
    const lmbd: real
    /** The initial learning rate. */
    const alpha: real
    /** The data of the last run, in the original space. */
    var dataY: Matrix
    /** The embedding the last run produced. */
    var dataX: Matrix

    /** A CCA object with its parameters; no run yet, so no data. */
    constructor (p: nat, lmbd: real, alpha: real)
      ensures this.p == p && this.lmbd == lmbd && this.alpha == alpha
      ensures dataY == [] && dataX == []
    {
      this.p := p;
      this.lmbd := lmbd;
      this.alpha := alpha;
      dataY := [];
      dataX := [];
    }

    /**
     * Reduces `dataY` to `p` dimensions, starting from the embedding
     * `init` (the PCA projection of `dataY`). Returns the embedding, also
     * stored in `dataX`, the stress trace and how the run ended; the
     * three are what the run function of the model prescribes, and the
     * trace and the outcome agree in the way the lemmas about it state.
     */
    method Run(dataY: Matrix, init: Matrix, dist: Metric, qMax: nat, tol: real)
      returns (x: Matrix, stress: seq<real>, outcome: Outcome)
      requires |dataY| >= 2 && IsShape(init, |dataY|, p)
      modifies this
      ensures this.dataY == dataY && this.dataX == x
      ensures RunResult(x, stress, outcome) ==
        RunAll(init, Pairwise(dataY, dist), dist, Config(lmbd, alpha, qMax, tol))
      ensures IsShape(x, |dataY|, p) && |stress| == qMax
      ensures forall k :: 0 <= k < qMax ==> stress[k] >= 0.0
      ensures outcome.Converged? ==>
        var c := outcome.iteration;
        c < qMax && stress[c] < tol &&
        (forall k :: 0 <= k < c ==> stress[k] >= tol) &&
        (forall k :: c < k < qMax ==> stress[k] == 0.0)
      ensures outcome.Exhausted? ==> forall k :: 0 <= k < qMax ==> stress[k] >= tol
      ensures outcome.Degenerate? ==>
        var c := outcome.iteration;
        c < qMax && outcome.point < |x| && !Separated(x, outcome.point, dist) &&
        (forall k :: 0 <= k < c ==> stress[k] >= tol) &&
        (forall k :: c <= k < qMax ==> stress[k] == 0.0)
    {
      this.dataY := dataY;
      var n := |dataY|;
      var distY := Pairwise(dataY, dist);
      var cfg := Config(lmbd, alpha, qMax, tol);
      var xs := new Point[n](j requires 0 <= j < n => init[j]);
      var trace := new real[qMax](_ => 0.0);
      assert trace[..] == Zeros(qMax);
      assert xs[..] == init;
      outcome := Iterations(xs, trace, distY, dist, cfg);
      x := xs[..];
      stress := trace[..];
      this.dataX := x;
      RunAllOutcome(init, distY, dist, cfg);
    }
  }
}
