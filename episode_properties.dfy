/**
  Properties of the station-keeping state machine: what one step does to the
  state, the observation and the reward, and what a whole episode of steps
  does to the altitude and the step counter.
 */
module EpisodeProperties {
  import opened Configuration
  import opened RewardPolicy
  import opened StationKeeping

  /** Number of coast steps after which the altitude has decayed from the
      target exactly to the critical altitude. */
  const CoastStepsToCritical: int := 15000

  /** One step advances the counter by exactly one, leaves a non-negative
      altitude, and reports the error of that altitude from the target. */
  lemma StepEffects(s: Episode, action: int, thrust: real -> real)
    ensures Next(s, action, thrust).step == s.step + 1
    ensures Next(s, action, thrust).altitude >= 0.0
    ensures Outcome(s, action, thrust).observation.altitudeError
      == Next(s, action, thrust).altitude - TargetAltitude
  {
  }

  /** The reported decay rate never exceeds the configured decay, and equals
      it whenever the orbit after the burn is at least that high. */
  lemma DecayRateBound(s: Episode, action: int, thrust: real -> real)
    ensures Outcome(s, action, thrust).observation.decayRate <= DecayPerStep
    ensures RadiusBefore(s, action, thrust) - EarthRadius >= DecayPerStep
      ==> Outcome(s, action, thrust).observation.decayRate == DecayPerStep
  {
  }

  /** A coast step lowers a non-negative altitude by the decay, floored at
      zero, so the altitude never rises, and the reported decay rate lies
      between zero and the configured decay. */
  lemma CoastStep(s: Episode, action: int, thrust: real -> real)
    requires action != ThrustAction && s.altitude >= 0.0
    ensures Next(s, action, thrust).altitude == Max(0.0, s.altitude - DecayPerStep)
    ensures Next(s, action, thrust).altitude <= s.altitude
    ensures 0.0 <= Outcome(s, action, thrust).observation.decayRate <= DecayPerStep
  {
  }

  /** The reward of a step: exactly the failure penalty when the new altitude
      is below the critical altitude (and only then is the step terminated),
      otherwise the shaped reward of the reported error. */
  lemma StepReward(s: Episode, action: int, thrust: real -> real)
    ensures Outcome(s, action, thrust).terminated <==> Next(s, action, thrust).altitude < CriticalAltitude
    ensures Outcome(s, action, thrust).terminated ==> Outcome(s, action, thrust).reward == FailurePenalty
    ensures !Outcome(s, action, thrust).terminated ==>
      Outcome(s, action, thrust).reward
        == ShapedReward(Outcome(s, action, thrust).observation.altitudeError, action == ThrustAction)
    ensures !Outcome(s, action, thrust).terminated && action != ThrustAction
      && Abs(Outcome(s, action, thrust).observation.altitudeError) <= AllowedBand
      ==> Outcome(s, action, thrust).reward == 1.0
  {
  }

  /** On a failing step the override replaces a shaped reward that was lower
      still: the failure penalty does not lower the reward of that step. */
  lemma FailureOverrideRaisesReward(s: Episode, action: int, thrust: real -> real)
    requires Outcome(s, action, thrust).terminated
    ensures ShapedReward(Outcome(s, action, thrust).observation.altitudeError, action == ThrustAction)
      < Outcome(s, action, thrust).reward
  {
    ShapedRewardBelowFailurePenalty(Outcome(s, action, thrust).observation.altitudeError, action == ThrustAction);
  }

  /** Running a sequence of actions advances the counter by its length. */
  lemma {:induction false} RunStepCount(s: Episode, actions: seq<int>, thrust: real -> real)
    ensures Run(s, actions, thrust).step == s.step + |actions|
    decreases |actions|
  {
    if |actions| > 0 {
      RunStepCount(Next(s, actions[0], thrust), actions[1..], thrust);
    }
  }

  /** The floor invariant holds over any number of steps with any actions. */
  lemma {:induction false} RunAltitudeNonNegative(s: Episode, actions: seq<int>, thrust: real -> real)
    requires s.altitude >= 0.0
    ensures Run(s, actions, thrust).altitude >= 0.0
    decreases |actions|
  {
    if |actions| > 0 {
      RunAltitudeNonNegative(Next(s, actions[0], thrust), actions[1..], thrust);
    }
  }

  /** Taking one more action after a run is one more step from its end state. */
  lemma {:induction false} RunSnoc(s: Episode, actions: seq<int>, action: int, thrust: real -> real)
    ensures Run(s, actions + [action], thrust) == Next(Run(s, actions, thrust), action, thrust)
    decreases |actions|
  {
    if |actions| == 0 {
      assert actions + [action] == [action];
    } else {
      assert (actions + [action])[1..] == actions[1..] + [action];
      RunSnoc(Next(s, actions[0], thrust), actions[1..], action, thrust);
    }
  }

  /** After k coast steps the altitude is the start altitude less k decays,
      floored at zero. */
  lemma {:induction false} RunCoastAltitude(s: Episode, actions: seq<int>, thrust: real -> real)
    requires s.altitude >= 0.0 && AllCoast(actions)
    ensures Run(s, actions, thrust).altitude == Max(0.0, s.altitude - (|actions| as real) * DecayPerStep)
    decreases |actions|
  {
    if |actions| > 0 {
      var s' := Next(s, actions[0], thrust);
      assert AllCoast(actions[1..]) by {
        forall i | 0 <= i < |actions[1..]|
          ensures actions[1..][i] != ThrustAction
        {
          assert actions[1..][i] == actions[i + 1];
        }
      }
      CoastStep(s, actions[0], thrust);
      RunCoastAltitude(s', actions[1..], thrust);
    }
  }

  /** After k coast steps from a reset the altitude is max(0, 400 - 0.01 k) km
      and the counter is k. */
  lemma CoastFromReset(actions: seq<int>, thrust: real -> real)
    requires AllCoast(actions)
    ensures Run(ResetState, actions, thrust).altitude
      == Max(0.0, TargetAltitude - (|actions| as real) * DecayPerStep)
    ensures Run(ResetState, actions, thrust).step == |actions|
  {
    RunCoastAltitude(ResetState, actions, thrust);
    RunStepCount(ResetState, actions, thrust);
  }

  /** The step taken after `actions` from a reset is truncated exactly when it
      is step number MaxSteps or later, whatever the actions and whether or
      not it terminates. */
  lemma TruncatedOnStep(actions: seq<int>, action: int, thrust: real -> real)
    ensures Outcome(Run(ResetState, actions, thrust), action, thrust).truncated
      <==> |actions| + 1 >= MaxSteps
  {
    RunStepCount(ResetState, actions, thrust);
  }

  /** Coasting from a reset, the step that terminates is exactly every step
      after number 15000, and it earns the failure penalty; so no step of a
      pure-coast episode terminates before truncation at MaxSteps. */
  lemma CoastTermination(actions: seq<int>, action: int, thrust: real -> real)
    requires AllCoast(actions) && action != ThrustAction
    ensures Outcome(Run(ResetState, actions, thrust), action, thrust).terminated
      <==> |actions| + 1 > CoastStepsToCritical
    ensures Outcome(Run(ResetState, actions, thrust), action, thrust).terminated
      ==> Outcome(Run(ResetState, actions, thrust), action, thrust).reward == FailurePenalty
    ensures |actions| < MaxSteps
      ==> !Outcome(Run(ResetState, actions, thrust), action, thrust).terminated
  {
    var k := |actions| + 1;
    RunSnoc(ResetState, actions, action, thrust);
    assert AllCoast(actions + [action]) by {
      forall i | 0 <= i < |actions + [action]|
        ensures (actions + [action])[i] != ThrustAction
      {
        if i < |actions| {
          assert (actions + [action])[i] == actions[i];
        }
      }
    }
    CoastFromReset(actions + [action], thrust);
    assert Next(Run(ResetState, actions, thrust), action, thrust).altitude
      == Max(0.0, TargetAltitude - (k as real) * DecayPerStep);
    StepReward(Run(ResetState, actions, thrust), action, thrust);
  }

  /** The impulse exactly cancels one step's decay: it raises the periapsis
      by the decay per step. */
  ghost predicate MatchesDecay(thrust: real -> real)
  {
    forall r :: thrust(r) == r + DecayPerStep
  }

  /** With an impulse that exactly cancels the decay, thrusting on every step
      keeps the altitude where it started. */
  lemma {:induction false} RunMatchedThrustAltitude(s: Episode, actions: seq<int>, thrust: real -> real)
    requires MatchesDecay(thrust) && AllThrust(actions) && s.altitude >= 0.0
    ensures Run(s, actions, thrust).altitude == s.altitude
    decreases |actions|
  {
    if |actions| > 0 {
      assert thrust(EarthRadius + s.altitude) == EarthRadius + s.altitude + DecayPerStep;
      assert AllThrust(actions[1..]) by {
        forall i | 0 <= i < |actions[1..]|
          ensures actions[1..][i] == ThrustAction
        {
          assert actions[1..][i] == actions[i + 1];
        }
      }
      RunMatchedThrustAltitude(Next(s, actions[0], thrust), actions[1..], thrust);
    }
  }

  /** Zero net decay, constant thrust: with an impulse that exactly cancels the
      decay and the thruster fired on every step from a reset, the altitude
      stays at 400 km, every step reports zero error and earns 0.9, no step
      terminates, and the episode is truncated exactly from step MaxSteps on. */
  lemma MatchedThrustEpisode(actions: seq<int>, action: int, thrust: real -> real)
    requires MatchesDecay(thrust) && AllThrust(actions) && action == ThrustAction
    ensures Next(Run(ResetState, actions, thrust), action, thrust).altitude == TargetAltitude
    ensures Outcome(Run(ResetState, actions, thrust), action, thrust).observation.altitudeError == 0.0
    ensures Outcome(Run(ResetState, actions, thrust), action, thrust).reward == 0.9
    ensures !Outcome(Run(ResetState, actions, thrust), action, thrust).terminated
    ensures Outcome(Run(ResetState, actions, thrust), action, thrust).truncated
      <==> |actions| + 1 >= MaxSteps
  {
    RunMatchedThrustAltitude(ResetState, actions, thrust);
    RunStepCount(ResetState, actions, thrust);
    assert thrust(EarthRadius + TargetAltitude) == EarthRadius + TargetAltitude + DecayPerStep;
  }
}
