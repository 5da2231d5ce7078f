/**
 * The handful of NumPy array operations that the CCA update uses: row
 * vectors of reals, matrices as sequences of rows, element-wise
 * arithmetic on rows, and `np.delete` / `np.insert` along axis 0.
 */
module NdArray {

  /** One point (one row of an n x p array). */
  type Point = seq<real>

  /** An array of rows; in CCA an embedding or a distance matrix. */
  type Matrix = seq<seq<real>>

  /** `m` has `n` rows, each of length `p` (NumPy's `m.shape == (n, p)`). */
  predicate IsShape(m: Matrix, n: nat, p: nat)
  {
    |m| == n && forall j :: 0 <= j < n ==> |m[j]| == p
  }

  /** A row of `p` zeros. */
  function Zero(p: nat): Point
  {
    seq(p, _ => 0.0)
  }

  /** Element-wise `a - b`. */
  function Sub(a: Point, b: Point): Point
    requires |a| == |b|
  {
    seq(|a|, k requires 0 <= k < |a| => a[k] - b[k])
  }

  /** Element-wise `c * a`. */
  function Scale(c: real, a: Point): Point
  {
    seq(|a|, k requires 0 <= k < |a| => c * a[k])
  }

  /** Row-wise `m - d` for two arrays of the same shape. */
  function SubRows(m: Matrix, d: Matrix): (r: Matrix)
    requires |m| == |d|
    requires forall j :: 0 <= j < |m| ==> |m[j]| == |d[j]|
    ensures |r| == |m|
  {
    seq(|m|, j requires 0 <= j < |m| => Sub(m[j], d[j]))
  }

  /**
   * `np.delete(s, i, 0)`: drops entry `i`; entry `k` of the result is
   * entry `k` of `s` below `i` and entry `k + 1` from `i` on.
   */
  function Delete<T>(s: seq<T>, i: nat): (r: seq<T>)
    requires i < |s|
    ensures |r| == |s| - 1
  {
    s[..i] + s[i + 1..]
  }

  /** Entry `k` after deleting entry `i` is the original entry `k`, or `k + 1` from `i` on. */
  lemma DeleteAt<T>(s: seq<T>, i: nat, k: nat)
    requires i < |s| && k < |s| - 1
    ensures Delete(s, i)[k] == s[if k < i then k else k + 1]
  {
  }

  /**
   * `np.insert(s, i, v, axis=0)`: puts `v` at index `i` and shifts the
   * entries from `i` on one place up.
   */
  function Insert<T>(s: seq<T>, i: nat, v: T): (r: seq<T>)
    requires i <= |s|
    ensures |r| == |s| + 1 && r[i] == v
  {
    s[..i] + [v] + s[i..]
  }

  /** Entry `k != i` after inserting at `i` is the original entry `k`, or `k - 1` above `i`. */
  lemma InsertAt<T>(s: seq<T>, i: nat, v: T, k: nat)
    requires i <= |s| && k <= |s| && k != i
    ensures Insert(s, i, v)[k] == s[if k < i then k else k - 1]
  {
  }

  /** Inserting back the entry that was deleted restores the sequence. */
  lemma InsertDeleted<T>(s: seq<T>, i: nat)
    requires i < |s|
    ensures Insert(Delete(s, i), i, s[i]) == s
  {
  }

  /** Deleting the entry just inserted restores the sequence. */
  lemma DeleteInserted<T>(s: seq<T>, i: nat, v: T)
    requires i <= |s|
    ensures Delete(Insert(s, i, v), i) == s
  {
  }

  /** Subtracting a zero row leaves a row unchanged. */
  lemma SubZero(a: Point)
    ensures Sub(a, Zero(|a|)) == a
  {
  }

  /** Subtracting a row scaled by zero leaves a row unchanged. */
  lemma SubScaledByZero(a: Point, b: Point)
    requires |a| == |b|
    ensures Sub(a, Scale(0.0, b)) == a
  {
  }
}
