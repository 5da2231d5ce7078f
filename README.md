# Curvilinear Component Analysis in Dafny

This project models the core of `cca.py`: the `CCA` class, which reduces
a point set to `p` dimensions by Curvilinear Component Analysis. It
covers:

- the constructor, which stores `p`, `lmbd` and `alpha`;
- the stress function `_stress`;
- the iteration `run`.

`run` starts from an initial embedding of the `n` points. On each
iteration `q` it does the following:

1. It derives a learning rate `max(0.001, alpha/(1+q))` and a
   neighbourhood radius `max(0.1, lmbd/(1+q))`.
2. It sweeps over the points in ascending order. In the sub-step for
   point `i`, every other point `j` moves along the line through `x_i`
   and `x_j`, to `x_j - factor_j * (x_i - x_j)` with
   `factor_j = alpha*(dy_j - dx_j)/dx_j`. A point that is too close
   (`dy_j > dx_j`) is pushed away from `x_i`, one that is too far is
   pulled towards it. This applies only to points currently closer than
   the radius. Each
   sub-step works on the embedding the previous one left.
3. It records the stress of the new embedding in a trace of `q_max`
   entries. The stress is the thresholded mean squared discrepancy over
   the `n(n-1)/2` upper-triangle pairs.
4. It stops early once a stress falls below `tol`.

The model works over `real`. The modules follow the program's
structure:

- `NdArray` (ndarray.dfy): rows, matrices and the NumPy operations the
  update uses: element-wise subtraction and scaling, and
  `np.delete`/`np.insert` along axis 0.
- `Distances` (distances.dfy): the distances from one point to every row
  (`cdist`), the pairwise matrix (`pairwise_distances`), and the upper
  triangle in `np.triu_indices(n, 1)` order.
- `Schedule` (schedule.dfy): the decaying learning rate and radius.
- `StressFunction` (stress.dfy): `_stress`.
- `Update` (update.dfy): one sub-step, written two ways and proved
  equal:
  - the vectorised computation of the source (`Delta`: delete index
    `i`, displace, re-insert a zero row);
  - a row-by-row definition (`SubStep`/`Moved`).

  It also holds the sweep `SweepFrom`.
- `Iteration` (iteration.dfy): the outer loop as a function `RunFrom`,
  together with the lemmas about the stress trace and about how a run
  ends.
- `Cca` (cca.dfy): the class `Cca` with fields `dataY`/`dataX` and the
  method `Run`. The embedding is an `array` of rows that every sub-step
  updates in place (`SubtractInPlace`, `SubStepInPlace`, `Sweep`). The
  trace is an `array<real>` filled by index, and the loop over the
  iterations stops on the tolerance. Each in-place method is proved
  against the functions of `Update`/`Iteration`.

### Coincident points and the `Degenerate` outcome

The source divides by `dx`, a reduced-space distance, without a guard
(cca.py:90). Two points that coincide in the reduced space make this a
division by zero. NumPy then produces `inf`/`nan` that spread through
the embedding.

The model checks before each sub-step that no other point coincides
with point `i` (`Update.Separated`). If one does, it ends the run with
the outcome `Degenerate(q, i)`, before the division. The embedding and
the trace are returned as they stood at that moment.

### How a run ends

`Outcome` has three cases:

- `Converged(q)`, where the source prints "Tol achieved in iteration q";
- `Exhausted`: all `q_max` iterations ran;
- `Degenerate(q, i)`, described above.

The trace always has `q_max` entries (`np.zeros(q_max)`, cca.py:81).
Entries after the stopping iteration stay zero (`Iteration.RunConverged`,
`Iteration.RunDegenerate`).

## Model

| member | source | states |
|---|---|---|
| Schedule.Decay | cca.py:84-85 | `max(floor, init/(1+q))`: at least the floor and at least the decayed value, and equal to one of the two |
| Schedule.Rate | cca.py:84 | the learning rate of iteration `q` is at least 0.001 and at least `alpha/(1+q)`, and is one of the two |
| Schedule.Radius | cca.py:85 | the radius of iteration `q` is at least 0.1 and at least `lmbd/(1+q)`, and is one of the two |
| Schedule.DecayNonIncreasing | cca.py:84-85 | for a non-negative initial value, the rate and the radius never grow from iteration `q` to `q+1` |
| Schedule.DecayReachesFloor | cca.py:84-85 | once `(1+q)*floor` reaches the initial value, the schedule sits on its floor |
| StressFunction.Term | cca.py:52 | one pair's contribution `(dy - dx)**2 * int(lmbda > dx)`: the squared discrepancy for a pair inside the radius, zero for one at or beyond it |
| StressFunction.TermZeroIff | cca.py:52 | one pair contributes a non-negative amount, and zero exactly when it is beyond the radius or its two distances match |
| StressFunction.TermSum | cca.py:52 | the sum of the per-pair contributions is non-negative |
| StressFunction.Stress | cca.py:52 | the mean of the contributions is non-negative |
| StressFunction.StressZeroIff | cca.py:52 | the stress is zero if and only if every pair with reduced distance below the radius has `dy == dx` |
| StressFunction.StressIgnoresFarPairs | cca.py:52 | pairs at or beyond the radius contribute nothing: changing their `dy` leaves the stress unchanged |
| Distances.FromPoint | cca.py:87 | `cdist` of one point against the embedding has one entry per row |
| Distances.Pairwise | cca.py:79 | `pairwise_distances` of `n` rows is an `n x n` matrix |
| Distances.PairwiseIsDistanceMatrix | cca.py:79 | for a distance (non-negative, symmetric, zero on equal points) the pairwise matrix is symmetric and non-negative, with a zero diagonal |
| Distances.Triu | cca.py:78 | the upper triangle of an `n x n` matrix holds `n(n-1)/2` entries |
| Distances.TriuAt | cca.py:78 | pair `i < j` sits at index `RowStart(n, i) + (j-i-1)` of the upper triangle, in row-major order |
| Distances.TriuAgree | cca.py:94 | the upper triangle depends only on the entries above the diagonal |
| NdArray.Delete | cca.py:88-89 | `np.delete` along axis 0 drops one entry |
| NdArray.DeleteAt | cca.py:88-89 | after deleting index `i`, position `k` holds original entry `k` below `i` and `k+1` from `i` on |
| NdArray.Insert | cca.py:91 | `np.insert` adds one entry and puts the new value at index `i` |
| NdArray.InsertAt | cca.py:91 | after inserting at `i`, every other position `k` holds original entry `k` below `i` and `k-1` above it |
| NdArray.InsertDeleted | cca.py:88-91 | inserting back the deleted entry at its index restores the sequence |
| NdArray.DeleteInserted | cca.py:88-91 | deleting the entry just inserted restores the sequence |
| NdArray.SubRows | cca.py:92 | row-wise subtraction keeps the number of rows |
| Update.Separated | cca.py:90 | the guard of the `Degenerate` outcome: no other point is at reduced distance zero from point `i`, so every divisor `dx` of its sub-step is non-zero |
| Update.SeparatedIff | cca.py:87-90 | point `i` is separated from all others exactly when the distances it divides by, the `cdist` row with index `i` deleted, contain no zero |
| Update.Factor | cca.py:90 | the factor `alpha*(lmbda > dx)*(dy - dx)/dx` of one neighbour: the rate times the relative discrepancy inside the radius, zero at or beyond it |
| Update.FactorSign | cca.py:90 | with a positive rate, a neighbour inside the radius gets a positive factor (it is pushed away from `x_i`) exactly when `dy > dx`, and a negative one (pulled towards `x_i`) exactly when `dy < dx` |
| Update.Displacements | cca.py:90 | the displacement array has `n-1` rows of length `p` |
| Update.DisplacementRowsAt | cca.py:90 | displacement row `k` is `factor_k * (x_i - others_k)` with `factor_k = alpha*[lmbda > dx_k]*(dy_k - dx_k)/dx_k` |
| Update.Delta | cca.py:87-91 | `delta_x` has `n` rows of length `p`, and row `i` is zero |
| Update.Moved | cca.py:90-92 | what `data_x -= delta_x` leaves in row `j`: row `i` itself, or `x_j - factor_j * (x_i - x_j)` |
| Update.SubStepRows | cca.py:90-92 | rows `j..n-1` after the sub-step, each the moved row, `n - j` rows of length `p` |
| Update.SubStep | cca.py:87-92 | the sub-step keeps the embedding's shape: `n` rows of length `p` |
| Update.SubtractDelta | cca.py:88-92 | subtracting the vectorised `delta_x` (delete at `i`, displace, insert a zero row at `i`) moves each row exactly as the row-by-row sub-step says, so the displacements line up with their rows |
| Update.SubStepAt | cca.py:90-92 | in sub-step `i`, row `i` is unchanged; a row at or beyond the radius is unchanged; every other row `j` becomes `x_j - factor_j * (x_i - x_j)` |
| Update.FactorOfMatched | cca.py:90 | a neighbour already at its original-space distance gets factor zero |
| Update.SubStepFixed | cca.py:90-92 | if every neighbour of `i` is beyond the radius or already at its original-space distance, the sub-step changes nothing |
| Update.SweepFrom | cca.py:86-92 | a sweep keeps the shape; if it halts, it does so at a point of the remaining range that coincides with another point |
| Update.SweepStep | cca.py:86-92 | sub-steps run in ascending order, each on the embedding the previous ones left: the sweep from `i` is the sub-step for `i` followed by the sweep from `i+1` |
| Update.SweepFixed | cca.py:86-92 | an embedding whose reduced distances already equal the original ones (none zero) is left unchanged by a whole sweep |
| Iteration.Outcome | cca.py:83-98 | how a run ends: `Converged(q)` when stress `q` falls below `tol`, `Exhausted` after `q_max` iterations, `Degenerate(q, i)` when point `i` coincides with another in iteration `q` |
| Iteration.Zeros | cca.py:81 | the initial trace has `q_max` entries, all zero |
| Iteration.SweepStress | cca.py:93-94 | the stress after a sweep, over the upper-triangle pairs, is non-negative |
| Iteration.Iterate | cca.py:84-94 | one iteration keeps the shape, gives a non-negative stress, and halts only at a point that coincides with another |
| Iteration.RunFrom | cca.py:83-98 | the rest of a run keeps the embedding's shape and a trace of `q_max` entries |
| Iteration.RunFromStuck | cca.py:90 | a run whose iteration `q` halts ends there as `Degenerate(q, i)`, with the trace as it was |
| Iteration.RunFromSwept | cca.py:94-98 | after a complete sweep `q`, the run stores the stress at index `q`, then stops if it is below `tol` and goes on to `q+1` otherwise |
| Iteration.RunAll | cca.py:81-98 | the whole loop from the initial embedding and `np.zeros(q_max)`, starting at iteration 0: it keeps the embedding's shape and a trace of `q_max` entries |
| Iteration.RunKeepsPrefix | cca.py:94 | iteration `q` and those after it never change trace entries before `q` |
| Iteration.RunStressNonNegative | cca.py:81 | every trace entry a run leaves is non-negative, whether it holds a stress or an untouched zero |
| Iteration.RunConverged | cca.py:95-98 | a run that converges in iteration `c` has every earlier stress at least `tol` and stress `c` below it, and every later entry still zero; that the run stops right after that sweep is `Iteration.RunFromSwept` |
| Iteration.RunExhausted | cca.py:83 | a run that uses its whole budget of `q_max` sweeps had no stress below `tol` |
| Iteration.RunDegenerate | cca.py:90 | a run halted in iteration `c` returns an embedding in which the halting point coincides with another; earlier stresses are at least `tol`, and entries from `c` on are zero |
| Iteration.RunAllOutcome | cca.py:81-98 | a whole run from the zero trace keeps the embedding's shape and gives a non-negative trace of `q_max` entries, consistent with its outcome as the three lemmas above state |
| Iteration.PerfectEmbeddingConverges | cca.py:83-98 | an embedding that already reproduces every original distance (none zero) is a fixed point: with `tol > 0` the run converges in the iteration it starts in, with stress zero and the embedding unchanged |
| Cca.SubtractInPlace | cca.py:92 | `data_x -= delta_x` in place: each row loses its displacement |
| Cca.SubStepInPlace | cca.py:87-92 | one sub-step in place: it reports a coincident point without touching the rows, or otherwise leaves the rows the sub-step prescribes |
| Cca.Sweep | cca.py:86-92 | the in-place sweep leaves the array holding exactly what `SweepFrom` prescribes, and reports where it halted |
| Cca.IterateInPlace | cca.py:84-94 | one iteration in place, with its stress, as `Iterate` prescribes |
| Cca.Iterations | cca.py:83-98 | the loop over `q`, in place on the embedding and the trace, ends with the embedding, trace and outcome of `RunFrom` |
| Cca.Cca.constructor | cca.py:21-36 | the object stores `p`, `lmbd` and `alpha` |
| Cca.Cca.Run | cca.py:55-107 | `run` stores `data_y` and `data_x`. It returns the embedding, the trace and the outcome of the run function, so the trace holds `q_max` non-negative entries consistent with how the run ended |

## Left out

- The PCA initialisation at cca.py:80 calls scikit-learn, so the initial `n x p` embedding is an input of `Cca.Cca.Run`.
- `cdist`/`pairwise_distances` need a square root, which real arithmetic here lacks. The distance is a supplied function `dist`, used for both spaces. Only `Distances.PairwiseIsDistanceMatrix` assumes the properties of a distance, because nothing else needs them.
- Floating point is not modelled: all arithmetic is exact over `real`, and neither overflow nor rounding appears.
- Cca.Cca.Run, Update.SweepFrom: on a zero reduced distance (cca.py:90) the source divides by zero and goes on with `inf`/`nan`. The model instead stops with `Degenerate(q, i)` before that sub-step, so it does not follow non-finite values. The stop is decided in `Update.SweepFrom` and carried through `Iteration.Iterate`, `Iteration.RunFrom`, `Cca.SubStepInPlace`, `Cca.Sweep` and `Cca.Iterations`.
- Cca.Cca.Run: requires at least two points. With fewer, the source's `np.mean` over an empty upper triangle gives `nan`, or PCA fails.
- Cca.Cca.Run: takes `q_max` and `tol` without the defaults 10 and 1e-4. Its `Outcome` and the trace are returned; the source only prints and plots them.
- The `show` plot (cca.py:100-104) and the progress messages (cca.py:82, 96-97, 99, 105) are console and UI output.
- `plotYX` (cca.py:109-136) is visualisation only.
- The demonstration script at the end of `cca.py` (synthetic data, rotations, plots) is not part of this model.
- `dist_y` is computed once (cca.py:79). The model passes it on as an immutable value, so "never modified" holds by construction and needs no lemma.
