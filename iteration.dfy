/**
 * The outer loop of `CCA.run` as a function: iterations `q` from 0 to
 * `q_max - 1`, each a sweep with that iteration's rate and radius,
 * followed by the stress of the new embedding over the upper-triangle
 * pairs, stored at index `q` of a trace of `q_max` entries that starts
 * all zero; the loop stops as soon as a stress falls below `tol`.
 */
module Iteration {
  import opened NdArray
  import opened Distances
  import opened Schedule
  import opened StressFunction
  import opened Update

  /** The parameters of a run: those of the `CCA` object and those of `run`. */
  datatype Config = Config(lmbd: real, alpha: real, qMax: nat, tol: real)

  /**
   * How a run ended: stress below `tol` after sweep `iteration`; all
   * `q_max` sweeps done; or halted in sweep `iteration` before the
   * sub-step of `point`, whose reduced position coincides with another
   * point's (where the source divides by zero).
   */
  datatype Outcome = Converged(iteration: nat) | Exhausted | Degenerate(iteration: nat, point: nat)

  /** What a run leaves: the embedding, the stress trace and the outcome. */
  datatype RunResult = RunResult(embedding: Matrix, stress: seq<real>, outcome: Outcome)

  /** A trace of `q_max` zeros, as `np.zeros(q_max)`. */
  function Zeros(qMax: nat): (t: seq<real>)
    ensures |t| == qMax && forall k :: 0 <= k < qMax ==> t[k] == 0.0
  {
    seq(qMax, _ => 0.0)
  }

  /**
   * `self._stress(dist_y[triu], dist_x[triu], lmbda)` with
   * `dist_x = pairwise_distances(x)`.
   */
  function SweepStress(x: Matrix, distY: Matrix, radius: real, dist: Metric): (s: real)
    requires |x| >= 2 && IsShape(distY, |x|, |x|)
    ensures s >= 0.0
  {
    Stress(Triu(distY, |x|), Triu(Pairwise(x, dist), |x|), radius)
  }

  /** What one iteration leaves: a halted sweep, or a complete sweep and its stress. */
  datatype Step = Stuck(x: Matrix, point: nat) | Swept(x: Matrix, stress: real)

  /**
   * Iteration `q`: the sweep with rate `max(0.001, alpha/(1+q))` and
   * radius `max(0.1, lmbd/(1+q))`, then the stress of the new embedding
   * under that radius.
   */
  function Iterate(x: Matrix, q: nat, distY: Matrix, dist: Metric, cfg: Config): (r: Step)
    requires |x| >= 2 && IsShape(x, |x|, |x[0]|) && IsShape(distY, |x|, |x|)
    ensures IsShape(r.x, |x|, |x[0]|)
    ensures r.Swept? ==> r.stress >= 0.0
    ensures r.Stuck? ==> r.point < |x| && !Separated(r.x, r.point, dist)
  {
    var radius := Radius(cfg.lmbd, q);
    match SweepFrom(x, 0, distY, Rate(cfg.alpha, q), radius, dist)
    case Halted(x', i) => Stuck(x', i)
    case Complete(x') => Swept(x', SweepStress(x', distY, radius, dist))
  }

  /** The rest of the run from iteration `q`, with embedding `x` and trace `trace` so far. */
  function RunFrom(x: Matrix, q: nat, trace: seq<real>, distY: Matrix, dist: Metric, cfg: Config): (r: RunResult)
    requires |x| >= 2 && IsShape(x, |x|, |x[0]|) && IsShape(distY, |x|, |x|)
    requires q <= cfg.qMax && |trace| == cfg.qMax
    ensures IsShape(r.embedding, |x|, |x[0]|) && |r.stress| == cfg.qMax
    decreases cfg.qMax - q
  {
    if q == cfg.qMax then RunResult(x, trace, Exhausted)
    else
      match Iterate(x, q, distY, dist, cfg)
      case Stuck(x', i) => RunResult(x', trace, Degenerate(q, i))
      case Swept(x', s) =>
        if s < cfg.tol then RunResult(x', trace[q := s], Converged(q))
        else RunFrom(x', q + 1, trace[q := s], distY, dist, cfg)
  }

  /** A run whose iteration `q` halts ends there, with the trace as it was. */
  lemma RunFromStuck(x: Matrix, q: nat, trace: seq<real>, distY: Matrix, dist: Metric, cfg: Config)
    requires |x| >= 2 && IsShape(x, |x|, |x[0]|) && IsShape(distY, |x|, |x|)
    requires q < cfg.qMax && |trace| == cfg.qMax
    requires Iterate(x, q, distY, dist, cfg).Stuck?
    ensures var st := Iterate(x, q, distY, dist, cfg);
      RunFrom(x, q, trace, distY, dist, cfg) == RunResult(st.x, trace, Degenerate(q, st.point))
  {
  }

  /**
   * A run whose iteration `q` completes records its stress at index `q`,
   * then stops if it is below `tol` and goes on to iteration `q + 1` otherwise.
   */
  lemma RunFromSwept(x: Matrix, q: nat, trace: seq<real>, distY: Matrix, dist: Metric, cfg: Config)
    requires |x| >= 2 && IsShape(x, |x|, |x[0]|) && IsShape(distY, |x|, |x|)
    requires q < cfg.qMax && |trace| == cfg.qMax
    requires Iterate(x, q, distY, dist, cfg).Swept?
    ensures var st := Iterate(x, q, distY, dist, cfg);
      RunFrom(x, q, trace, distY, dist, cfg) ==
        if st.stress < cfg.tol then RunResult(st.x, trace[q := st.stress], Converged(q))
        else RunFrom(st.x, q + 1, trace[q := st.stress], distY, dist, cfg)
  {
  }

  /** The whole run: from iteration 0 with the initial embedding and an all-zero trace. */
  function RunAll(init: Matrix, distY: Matrix, dist: Metric, cfg: Config): (r: RunResult)
    requires |init| >= 2 && IsShape(init, |init|, |init[0]|) && IsShape(distY, |init|, |init|)
    ensures IsShape(r.embedding, |init|, |init[0]|) && |r.stress| == cfg.qMax
  {
    RunFrom(init, 0, Zeros(cfg.qMax), distY, dist, cfg)
  }

  /** Entries of the trace before `q` are kept: iteration `q` writes index `q` only. */
  lemma {:induction false} RunKeepsPrefix(x: Matrix, q: nat, trace: seq<real>, distY: Matrix, dist: Metric, cfg: Config)
    requires |x| >= 2 && IsShape(x, |x|, |x[0]|) && IsShape(distY, |x|, |x|)
    requires q <= cfg.qMax && |trace| == cfg.qMax
    ensures forall k :: 0 <= k < q ==> RunFrom(x, q, trace, distY, dist, cfg).stress[k] == trace[k]
    decreases cfg.qMax - q
  {
    if q < cfg.qMax {
      var st := Iterate(x, q, distY, dist, cfg);
      if st.Swept? && st.stress >= cfg.tol {
        RunKeepsPrefix(st.x, q + 1, trace[q := st.stress], distY, dist, cfg);
      }
    }
  }

  /** Entries from `q` on are stresses or untouched zeros: never negative. */
  lemma {:induction false} RunStressNonNegative(x: Matrix, q: nat, trace: seq<real>, distY: Matrix, dist: Metric, cfg: Config)
    requires |x| >= 2 && IsShape(x, |x|, |x[0]|) && IsShape(distY, |x|, |x|)
    requires q <= cfg.qMax && |trace| == cfg.qMax
    requires forall k :: q <= k < cfg.qMax ==> trace[k] == 0.0
    ensures forall k :: q <= k < cfg.qMax ==> RunFrom(x, q, trace, distY, dist, cfg).stress[k] >= 0.0
    decreases cfg.qMax - q
  {
    if q < cfg.qMax {
      var st := Iterate(x, q, distY, dist, cfg);
      if st.Swept? && st.stress >= cfg.tol {
        var t := trace[q := st.stress];
        RunStressNonNegative(st.x, q + 1, t, distY, dist, cfg);
        RunKeepsPrefix(st.x, q + 1, t, distY, dist, cfg);
      }
    }
  }

  /**
   * A run that converges in iteration `c` ran sweeps `q..c` only: every
   * earlier stress was at least `tol`, the stress of sweep `c` is below it,
   * and every later entry of the trace is still zero.
   */
  lemma {:induction false} RunConverged(x: Matrix, q: nat, trace: seq<real>, distY: Matrix, dist: Metric, cfg: Config)
    requires |x| >= 2 && IsShape(x, |x|, |x[0]|) && IsShape(distY, |x|, |x|)
    requires q <= cfg.qMax && |trace| == cfg.qMax
    requires forall k :: q <= k < cfg.qMax ==> trace[k] == 0.0
    ensures var r := RunFrom(x, q, trace, distY, dist, cfg);
      r.outcome.Converged? ==>
        var c := r.outcome.iteration;
        q <= c < cfg.qMax && r.stress[c] < cfg.tol &&
        (forall k :: q <= k < c ==> r.stress[k] >= cfg.tol) &&
        (forall k :: c < k < cfg.qMax ==> r.stress[k] == 0.0)
    decreases cfg.qMax - q
  {
    if q < cfg.qMax {
      var st := Iterate(x, q, distY, dist, cfg);
      if st.Swept? && st.stress >= cfg.tol {
        var t := trace[q := st.stress];
        RunConverged(st.x, q + 1, t, distY, dist, cfg);
        RunKeepsPrefix(st.x, q + 1, t, distY, dist, cfg);
      }
    }
  }

  /** A run that exhausts its budget ran all sweeps, none with stress below `tol`. */
  lemma {:induction false} RunExhausted(x: Matrix, q: nat, trace: seq<real>, distY: Matrix, dist: Metric, cfg: Config)
    requires |x| >= 2 && IsShape(x, |x|, |x[0]|) && IsShape(distY, |x|, |x|)
    requires q <= cfg.qMax && |trace| == cfg.qMax
    ensures var r := RunFrom(x, q, trace, distY, dist, cfg);
      r.outcome.Exhausted? ==> forall k :: q <= k < cfg.qMax ==> r.stress[k] >= cfg.tol
    decreases cfg.qMax - q
  {
    if q < cfg.qMax {
      var st := Iterate(x, q, distY, dist, cfg);
      if st.Swept? && st.stress >= cfg.tol {
        var t := trace[q := st.stress];
        RunExhausted(st.x, q + 1, t, distY, dist, cfg);
        RunKeepsPrefix(st.x, q + 1, t, distY, dist, cfg);
      }
    }
  }

  /**
   * A run halted in sweep `c` completed sweeps `q..c-1`, each with stress
   * at least `tol`, and left the trace zero from `c` on; the halting point
   * coincides with another point of the embedding it returns.
   */
  lemma {:induction false} RunDegenerate(x: Matrix, q: nat, trace: seq<real>, distY: Matrix, dist: Metric, cfg: Config)
    requires |x| >= 2 && IsShape(x, |x|, |x[0]|) && IsShape(distY, |x|, |x|)
    requires q <= cfg.qMax && |trace| == cfg.qMax
    requires forall k :: q <= k < cfg.qMax ==> trace[k] == 0.0
    ensures var r := RunFrom(x, q, trace, distY, dist, cfg);
      r.outcome.Degenerate? ==>
        var c := r.outcome.iteration;
        q <= c < cfg.qMax && r.outcome.point < |x| &&
        !Separated(r.embedding, r.outcome.point, dist) &&
        (forall k :: q <= k < c ==> r.stress[k] >= cfg.tol) &&
        (forall k :: c <= k < cfg.qMax ==> r.stress[k] == 0.0)
    decreases cfg.qMax - q
  {
    if q < cfg.qMax {
      var st := Iterate(x, q, distY, dist, cfg);
      if st.Swept? && st.stress >= cfg.tol {
        var t := trace[q := st.stress];
        RunDegenerate(st.x, q + 1, t, distY, dist, cfg);
        RunKeepsPrefix(st.x, q + 1, t, distY, dist, cfg);
      }
    }
  }

  /**
   * What a whole run promises: a non-negative trace whose entries agree
   * with the way the run ended.
   */
  lemma RunAllOutcome(init: Matrix, distY: Matrix, dist: Metric, cfg: Config)
    requires |init| >= 2 && IsShape(init, |init|, |init[0]|) && IsShape(distY, |init|, |init|)
    ensures var r := RunAll(init, distY, dist, cfg);
      && IsShape(r.embedding, |init|, |init[0]|) && |r.stress| == cfg.qMax
      && (forall k :: 0 <= k < cfg.qMax ==> r.stress[k] >= 0.0)
      && (r.outcome.Converged? ==>
        var c := r.outcome.iteration;
        c < cfg.qMax && r.stress[c] < cfg.tol &&
        (forall k :: 0 <= k < c ==> r.stress[k] >= cfg.tol) &&
        (forall k :: c < k < cfg.qMax ==> r.stress[k] == 0.0))
      && (r.outcome.Exhausted? ==> forall k :: 0 <= k < cfg.qMax ==> r.stress[k] >= cfg.tol)
      && (r.outcome.Degenerate? ==>
        var c := r.outcome.iteration;
        c < cfg.qMax && r.outcome.point < |init| && !Separated(r.embedding, r.outcome.point, dist) &&
        (forall k :: 0 <= k < c ==> r.stress[k] >= cfg.tol) &&
        (forall k :: c <= k < cfg.qMax ==> r.stress[k] == 0.0))
  {
    var z := Zeros(cfg.qMax);
    RunStressNonNegative(init, 0, z, distY, dist, cfg);
    RunConverged(init, 0, z, distY, dist, cfg);
    RunExhausted(init, 0, z, distY, dist, cfg);
    RunDegenerate(init, 0, z, distY, dist, cfg);
  }

  /**
   * An embedding that already reproduces every original-space distance
   * (none zero) is a fixed point: with a positive tolerance the run stops
   * after one sweep, in the iteration it starts from, with stress zero and
   * the embedding unchanged.
   */
  lemma PerfectEmbeddingConverges(x: Matrix, q: nat, trace: seq<real>, distY: Matrix, dist: Metric, cfg: Config)
    requires |x| >= 2 && IsShape(x, |x|, |x[0]|) && IsShape(distY, |x|, |x|)
    requires q < cfg.qMax && |trace| == cfg.qMax && cfg.tol > 0.0
    requires Perfect(x, distY, dist)
    ensures RunFrom(x, q, trace, distY, dist, cfg) == RunResult(x, trace[q := 0.0], Converged(q))
  {
    var rate, radius := Rate(cfg.alpha, q), Radius(cfg.lmbd, q);
    SweepFixed(x, 0, distY, rate, radius, dist);
    assert SweepFrom(x, 0, distY, rate, radius, dist) == Complete(x);
    var n := |x|;
    var dx := Pairwise(x, dist);
    TriuAgree(distY, dx, n);
    var t := Triu(distY, n);
    StressZeroIff(t, t, radius);
    assert SweepStress(x, distY, radius, dist) == 0.0;
  }
}
