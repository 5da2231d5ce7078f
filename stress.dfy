/**
 * `CCA._stress`: the mean, over a list of pairs, of the squared
 * discrepancy between original-space distance `dy` and reduced-space
 * distance `dx`, counting only pairs whose reduced distance is below the
 * radius (`(lmbda > dist_x).astype(int)`).
 */
module StressFunction {

  /**
   * The contribution of one pair, `(dy - dx)**2 * int(lmbda > dx)`: the
   * squared discrepancy times an indicator that is 1 or 0.
   */
  function Term(dy: real, dx: real, lmbda: real): real
  {
    if lmbda > dx then Square(dy - dx) else 0.0
  }

  /** `d**2`. */
  function Square(d: real): real
  {
    d * d
  }

  lemma SquarePositive(d: real)
    requires d != 0.0
    ensures Square(d) > 0.0
  {
    if d > 0.0 {
      calc { Square(d); == d * d; > 0.0 * d; == 0.0; }
    } else {
      // d is negative, so its square is that of the positive -d
      calc { Square(d); == (-d) * (-d); > 0.0 * (-d); == 0.0; }
    }
  }

  /** One pair contributes, never negatively, and nothing unless it is near and mismatched. */
  lemma TermZeroIff(dy: real, dx: real, lmbda: real)
    ensures Term(dy, dx, lmbda) >= 0.0
    ensures Term(dy, dx, lmbda) == 0.0 <==> (lmbda > dx ==> dy == dx)
  {
    if dy != dx {
      SquarePositive(dy - dx);
    }
  }

  /** The sum of the contributions of all pairs; never negative. */
  function TermSum(dy: seq<real>, dx: seq<real>, lmbda: real): (r: real)
    requires |dy| == |dx|
    ensures r >= 0.0
  {
    if |dy| == 0 then 0.0 else Term(dy[0], dx[0], lmbda) + TermSum(dy[1..], dx[1..], lmbda)
  }

  /** `np.mean` of the contributions: the stress, never negative. */
  function Stress(dy: seq<real>, dx: seq<real>, lmbda: real): (r: real)
    requires |dy| == |dx| > 0
    ensures r >= 0.0
  {
    TermSum(dy, dx, lmbda) / |dy| as real
  }

  /** The pairs that count: reduced distance below the radius. */
  predicate Near(dx: seq<real>, lmbda: real, k: int)
    requires 0 <= k < |dx|
  {
    lmbda > dx[k]
  }

  lemma {:induction false} TermSumZeroIff(dy: seq<real>, dx: seq<real>, lmbda: real)
    requires |dy| == |dx|
    ensures TermSum(dy, dx, lmbda) == 0.0 <==>
      forall k :: 0 <= k < |dx| && Near(dx, lmbda, k) ==> dy[k] == dx[k]
  {
    if |dy| > 0 {
      TermSumZeroIff(dy[1..], dx[1..], lmbda);
      TermZeroIff(dy[0], dx[0], lmbda);
      if forall k :: 0 <= k < |dx| && Near(dx, lmbda, k) ==> dy[k] == dx[k] {
        forall k | 0 <= k < |dx| - 1 && Near(dx[1..], lmbda, k)
          ensures dy[1..][k] == dx[1..][k]
        {
          assert Near(dx, lmbda, k + 1);
        }
      } else {
        var k :| 0 <= k < |dx| && Near(dx, lmbda, k) && dy[k] != dx[k];
        if k > 0 {
          assert Near(dx[1..], lmbda, k - 1) && dy[1..][k - 1] != dx[1..][k - 1];
        }
      }
    }
  }

  /** The stress is zero exactly when every near pair has matching distances. */
  lemma StressZeroIff(dy: seq<real>, dx: seq<real>, lmbda: real)
    requires |dy| == |dx| > 0
    ensures Stress(dy, dx, lmbda) == 0.0 <==>
      forall k :: 0 <= k < |dx| && Near(dx, lmbda, k) ==> dy[k] == dx[k]
  {
    TermSumZeroIff(dy, dx, lmbda);
  }

  lemma {:induction false} TermSumIgnoresFarPairs(dy: seq<real>, dy': seq<real>, dx: seq<real>, lmbda: real)
    requires |dy| == |dy'| == |dx|
    requires forall k :: 0 <= k < |dx| && Near(dx, lmbda, k) ==> dy[k] == dy'[k]
    ensures TermSum(dy, dx, lmbda) == TermSum(dy', dx, lmbda)
  {
    if |dy| > 0 {
      forall k | 0 <= k < |dx| - 1 && Near(dx[1..], lmbda, k)
        ensures dy[1..][k] == dy'[1..][k]
      {
        assert Near(dx, lmbda, k + 1);
      }
      TermSumIgnoresFarPairs(dy[1..], dy'[1..], dx[1..], lmbda);
      assert Near(dx, lmbda, 0) ==> dy[0] == dy'[0];
    }
  }

  /**
   * Pairs at or beyond the radius contribute nothing: changing their
   * original-space distance leaves the stress unchanged.
   */
  lemma StressIgnoresFarPairs(dy: seq<real>, dy': seq<real>, dx: seq<real>, lmbda: real)
    requires |dy| == |dy'| == |dx| > 0
    requires forall k :: 0 <= k < |dx| && Near(dx, lmbda, k) ==> dy[k] == dy'[k]
    ensures Stress(dy, dx, lmbda) == Stress(dy', dx, lmbda)
  {
    TermSumIgnoresFarPairs(dy, dy', dx, lmbda);
  }
}
