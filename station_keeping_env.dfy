/**
  The station-keeping environment: an episodic state machine over one
  circular orbit. Every step optionally fires a 1 m/s impulse along the fixed
  inertial +y axis, removes a fixed decay from the altitude (floored at zero), rebuilds a circular orbit at
  that altitude, propagates it, and reports an observation, a shaped reward and
  the independent `terminated` and `truncated` flags.

  Because the orbit is rebuilt as circular on every step, the whole episode
  state is its altitude and the step counter. The orbit library is abstract:
  propagating a circular orbit keeps its radius, and the impulse is a function
  `thrust` from the radius of the circular orbit to the periapsis radius of the
  orbit after the burn, about which nothing is assumed.
 */
module StationKeeping {
  import opened Configuration
  import opened RewardPolicy

  /** What the agent sees: the signed altitude error and the radius lost on
      the last step, both in km. */
  datatype Observation = Observation(altitudeError: real, decayRate: real)

  /** What one step reports to the agent. */
  datatype StepResult = StepResult(
    observation: Observation,
    reward: real,
    terminated: bool,
    truncated: bool)

  /** The state of a running episode: the altitude of the circular orbit and
      the number of steps taken since the last reset. */
  datatype Episode = Episode(altitude: real, step: int)

  /** The state right after a reset. */
  const ResetState: Episode := Episode(TargetAltitude, 0)

  /** The observation returned by a reset. */
  const ResetObservation: Observation := Observation(0.0, DecayPerStep)

  /** Radius of the orbit after the optional burn, read back as the
      periapsis radius; a circular orbit's periapsis is its radius. */
  function RadiusBefore(s: Episode, action: int, thrust: real -> real): real
  {
    if action == ThrustAction then thrust(EarthRadius + s.altitude)
    else EarthRadius + s.altitude
  }

  /** The altitude of the rebuilt circular orbit: the decayed altitude,
      floored at zero. */
  function NextAltitude(radiusBefore: real): (alt: real)
    ensures alt >= 0.0
    ensures alt >= radiusBefore - EarthRadius - DecayPerStep
    ensures alt == 0.0 || alt == radiusBefore - EarthRadius - DecayPerStep
  {
    var decayed := (radiusBefore - EarthRadius) - DecayPerStep;
    if decayed < 0.0 then 0.0 else decayed
  }

  /** A step fails when the altitude falls strictly below the critical
      altitude; a failing altitude is always below the target and outside the
      band. */
  predicate Failed(altitude: real): (b: bool)
    ensures b ==> altitude < TargetAltitude
    ensures b ==> Abs(altitude - TargetAltitude) > AllowedBand
  {
    altitude < CriticalAltitude
  }

  /** The episode is truncated once the step counter reaches the limit,
      that is once the steps taken cover the 30-day mission. */
  predicate Truncated(step: int): (b: bool)
    ensures b <==> step * TimeStep >= MissionDuration
  {
    step >= MaxSteps
  }

  /** The episode state after one step with `action`: one more step, a
      non-negative altitude, and no rise in altitude on a coast step. */
  function Next(s: Episode, action: int, thrust: real -> real): (n: Episode)
    ensures n.step == s.step + 1
    ensures n.altitude >= 0.0
    ensures action != ThrustAction && s.altitude >= 0.0 ==> n.altitude <= s.altitude
  {
    Episode(NextAltitude(RadiusBefore(s, action, thrust)), s.step + 1)
  }

  /** What one step with `action` reports: terminated exactly when the
      reported error puts the altitude below the critical altitude, and then
      the failure penalty; never more than the in-band bonus; a decay rate no
      larger than the configured decay. */
  function Outcome(s: Episode, action: int, thrust: real -> real): (r: StepResult)
    ensures r.terminated <==> r.observation.altitudeError < CriticalAltitude - TargetAltitude
    ensures r.terminated ==> r.reward == FailurePenalty
    ensures r.reward <= 1.0
    ensures r.observation.decayRate <= DecayPerStep
  {
    var radiusBefore := RadiusBefore(s, action, thrust);
    var currentRadius := EarthRadius + NextAltitude(radiusBefore);
    var altitudeError := currentRadius - TargetRadius;
    var terminated := Failed(currentRadius - EarthRadius);
    StepResult(
      Observation(altitudeError, radiusBefore - currentRadius),
      if terminated then FailurePenalty else ShapedReward(altitudeError, action == ThrustAction),
      terminated,
      Truncated(s.step + 1))
  }

  /** The state reached from `s` by taking `actions` in order. */
  function Run(s: Episode, actions: seq<int>, thrust: real -> real): (e: Episode)
    decreases |actions|
  {
    if |actions| == 0 then s
    else Run(Next(s, actions[0], thrust), actions[1..], thrust)
  }

  /** No action in `actions` fires the thruster. */
  predicate AllCoast(actions: seq<int>)
  {
    forall i :: 0 <= i < |actions| ==> actions[i] != ThrustAction
  }

  /** Every action in `actions` fires the thruster. */
  predicate AllThrust(actions: seq<int>)
  {
    forall i :: 0 <= i < |actions| ==> actions[i] == ThrustAction
  }

  function Max(a: real, b: real): (m: real)
  {
    if a < b then b else a
  }

  /** The environment object. `altitude` is the altitude of `current_orbit`;
      `initialized` says that `current_orbit` is set, which only a reset does. */
  class StationKeepingEnv {
    var altitude: real
    var currentStep: int
    var initialized: bool
    const thrust: real -> real

    ghost predicate Valid()
      reads this
    {
      altitude >= 0.0 && currentStep >= 0
    }

    function State(): Episode
      reads this
    {
      Episode(altitude, currentStep)
    }

    /** A fresh environment has no orbit yet and a zero step counter. */
    constructor (thrust: real -> real)
      ensures Valid() && !initialized
      ensures currentStep == 0 && this.thrust == thrust
    {
      this.thrust := thrust;
      altitude := 0.0;
      currentStep := 0;
      initialized := false;
    }

    /** Starts an episode on the circular orbit at the target altitude. */
    method Reset() returns (observation: Observation)
      modifies this
      ensures Valid() && initialized
      ensures State() == ResetState
      ensures observation == ResetObservation
    {
      altitude := TargetAltitude;
      initialized := true;
      currentStep := 0;
      var altitudeError := 0.0;
      var decayRate := DecayPerStep;
      observation := Observation(altitudeError, decayRate);
    }

    /** Advances the episode by one step of `TimeStep` minutes. */
    method Step(action: int) returns (r: StepResult)
      requires Valid() && initialized
      modifies this
      ensures Valid() && initialized
      ensures State() == Next(old(State()), action, thrust)
      ensures r == Outcome(old(State()), action, thrust)
      ensures currentStep == old(currentStep) + 1
      ensures r.terminated <==> Failed(altitude)
      ensures r.terminated ==> r.reward == FailurePenalty
      ensures !r.terminated ==> r.reward == ShapedReward(r.observation.altitudeError, action == ThrustAction)
      ensures r.truncated <==> Truncated(currentStep)
    {
      currentStep := currentStep + 1;

      var radiusBefore := EarthRadius + altitude;
      if action == ThrustAction {
        radiusBefore := thrust(radiusBefore);
      }

      // rebuilding the circular orbit and propagating it keep this altitude
      altitude := NextAltitude(radiusBefore);

      var currentRadius := EarthRadius + altitude;
      var altitudeError := currentRadius - TargetRadius;
      var decayRate := radiusBefore - currentRadius;

      var reward := ShapedReward(altitudeError, action == ThrustAction);

      var terminated := false;
      if currentRadius - EarthRadius < CriticalAltitude {
        reward := FailurePenalty;
        terminated := true;
      }

      var truncated := false;
      if currentStep >= MaxSteps {
        truncated := true;
      }

      r := StepResult(Observation(altitudeError, decayRate), reward, terminated, truncated);
    }
  }
}
