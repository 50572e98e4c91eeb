/**
  The reward shaping of one environment step: an in-band bonus or a penalty
  quadratic in the normalised altitude error, plus a fixed fuel penalty when
  the thruster was fired.
 */
module RewardPolicy {
  import opened Configuration

  function Abs(x: real): (r: real)
    ensures r >= 0.0 && (r == x || r == -x)
  {
    if x < 0.0 then -x else x
  }

  /** Reward offset for the fuel spent on this step: a penalty, and a
      non-zero one exactly when the thruster fired. */
  function FuelPenalty(thrusted: bool): (p: real)
    ensures p <= 0.0
    ensures p == 0.0 <==> !thrusted
  {
    if thrusted then FuelPenaltyPerThrust else 0.0
  }

  /** Reward before the fuel penalty: +1 inside the band, otherwise minus the
      square of the error measured in band widths. It never exceeds the
      bonus, and only an in-band error earns a positive base reward. */
  function BaseReward(altitudeError: real): (r: real)
    ensures r <= 1.0
    ensures r > 0.0 <==> Abs(altitudeError) <= AllowedBand
  {
    if Abs(altitudeError) <= AllowedBand then 1.0
    else -((altitudeError / AllowedBand) * (altitudeError / AllowedBand))
  }

  /** The reward of a step that did not fail. It is at most 1.0, and at
      least 0.9 exactly when the error is inside the band, so every in-band
      step earns more than every out-of-band step. */
  function ShapedReward(altitudeError: real, thrusted: bool): (r: real)
    ensures r <= 1.0
    ensures r >= 0.9 <==> Abs(altitudeError) <= AllowedBand
  {
    BaseReward(altitudeError) + FuelPenalty(thrusted)
  }

  /** A product of two non-negative reals is non-negative. */
  lemma ProductNonNegative(x: real, y: real)
    requires x >= 0.0 && y >= 0.0
    ensures x * y >= 0.0
  {
  }

  /** Squares grow with the absolute value. */
  lemma SquareMonotone(x: real, y: real)
    requires Abs(x) <= Abs(y)
    ensures x * x <= y * y
  {
    var a, b := Abs(x), Abs(y);
    assert x * x == a * a by {
      if x < 0.0 { assert a * a == (-x) * (-x); }
    }
    assert y * y == b * b by {
      if y < 0.0 { assert b * b == (-y) * (-y); }
    }
    ProductNonNegative(b - a, b + a);
    assert b * b - a * a == (b - a) * (b + a);
  }

  /** The fuel penalty is -0.1 exactly when the thruster fired, and 0 otherwise. */
  lemma FuelPenaltyExact(thrusted: bool)
    ensures FuelPenalty(thrusted) == -0.1 <==> thrusted
    ensures !thrusted <==> FuelPenalty(thrusted) == 0.0
  {
  }

  /** Inside the band the shaped reward is the bonus 1.0 plus the fuel penalty,
      so exactly 1.0 on a coast step. */
  lemma InBandReward(altitudeError: real, thrusted: bool)
    requires Abs(altitudeError) <= AllowedBand
    ensures ShapedReward(altitudeError, thrusted) == 1.0 + FuelPenalty(thrusted)
    ensures !thrusted ==> ShapedReward(altitudeError, thrusted) == 1.0
  {
  }

  /** Outside the band the reward is minus the squared normalised error plus
      the fuel penalty, and it is strictly below every in-band reward. */
  lemma OutOfBandReward(altitudeError: real, thrusted: bool)
    requires Abs(altitudeError) > AllowedBand
    ensures ShapedReward(altitudeError, thrusted)
      == -(altitudeError / AllowedBand) * (altitudeError / AllowedBand) + FuelPenalty(thrusted)
    ensures ShapedReward(altitudeError, thrusted) < -1.0 + FuelPenalty(thrusted)
  {
    var q := altitudeError / AllowedBand;
    SquareMonotone(1.0, q);
    assert q * q != 1.0 by {
      assert q * q - 1.0 == (q - 1.0) * (q + 1.0);
      assert q - 1.0 != 0.0 && q + 1.0 != 0.0;
    }
  }

  /** The base reward is 1.0 exactly inside the band and never larger. */
  lemma BaseRewardCharacterised(altitudeError: real)
    ensures BaseReward(altitudeError) <= 1.0
    ensures BaseReward(altitudeError) == 1.0 <==> Abs(altitudeError) <= AllowedBand
  {
    if Abs(altitudeError) > AllowedBand {
      OutOfBandReward(altitudeError, false);
    }
  }

  /** For the same action, a smaller absolute error never earns less: the
      shaped reward is a gradient towards the band. */
  lemma RewardMonotone(e1: real, e2: real, thrusted: bool)
    requires Abs(e1) <= Abs(e2)
    ensures ShapedReward(e1, thrusted) >= ShapedReward(e2, thrusted)
  {
    if Abs(e2) > AllowedBand {
      OutOfBandReward(e2, thrusted);
      if Abs(e1) > AllowedBand {
        SquareMonotone(e1 / AllowedBand, e2 / AllowedBand);
      }
    }
  }

  /** An altitude error that puts the satellite below the critical altitude
      has a shaped reward below the failure penalty: the override to -100
      raises the reward of a failing step rather than lowering it. */
  lemma ShapedRewardBelowFailurePenalty(altitudeError: real, thrusted: bool)
    requires altitudeError < CriticalAltitude - TargetAltitude
    ensures ShapedReward(altitudeError, thrusted) < FailurePenalty
  {
    var q := altitudeError / AllowedBand;
    assert Abs(q) >= 30.0;
    SquareMonotone(30.0, q);
  }
}
