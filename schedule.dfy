/**
 * The decaying schedule of `CCA.run`: in iteration `q` (counted from 0)
 * the learning rate is `max(0.001, alpha / (1 + q))` and the
 * neighbourhood radius is `max(0.1, lmbd / (1 + q))`.
 */
module Schedule {

  /** Floor of the learning rate. */
  const RateFloor: real := 0.001

  /** Floor of the neighbourhood radius. */
  const RadiusFloor: real := 0.1

  /**
   * `max(floor, init / (1 + q))`: the larger of the floor and the initial
   * value decayed as 1/(1+q).
   */
  function Decay(floor: real, init: real, q: nat): (r: real)
    ensures r >= floor && r >= init / (1 + q) as real
    ensures r == floor || r == init / (1 + q) as real
  {
    var decayed := init / (1 + q) as real;
    if decayed > floor then decayed else floor
  }

  /** The learning rate of iteration `q`. */
  function Rate(alpha: real, q: nat): (r: real)
    ensures r >= RateFloor && r >= alpha / (1 + q) as real
    ensures r == RateFloor || r == alpha / (1 + q) as real
  {
    Decay(RateFloor, alpha, q)
  }

  /** The neighbourhood radius of iteration `q`. */
  function Radius(lmbd: real, q: nat): (r: real)
    ensures r >= RadiusFloor && r >= lmbd / (1 + q) as real
    ensures r == RadiusFloor || r == lmbd / (1 + q) as real
  {
    Decay(RadiusFloor, lmbd, q)
  }

  /** For a non-negative initial value, the schedule never grows from one iteration to the next. */
  lemma DecayNonIncreasing(floor: real, init: real, q: nat)
    requires init >= 0.0
    ensures Decay(floor, init, q + 1) <= Decay(floor, init, q)
  {
    var a, b := (1 + q) as real, (2 + q) as real;
    assert init / b * b == init;
    assert init / a * a == init;
    assert init / b * a <= init / b * b;
  }

  /** Once `(1 + q) * floor` reaches the initial value the schedule sits on its floor. */
  lemma DecayReachesFloor(floor: real, init: real, q: nat)
    requires init <= floor * (1 + q) as real
    ensures Decay(floor, init, q) == floor
  {
    var a := (1 + q) as real;
    assert init / a * a == init;
    assert init / a <= floor;
  }
}
