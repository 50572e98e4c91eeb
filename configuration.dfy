/**
  The fixed parameters of the station-keeping environment, set once when the
  environment is constructed and never changed afterwards.

  One unit throughout: lengths are exact reals in kilometres, durations are
  whole minutes. The observation and reward arithmetic of the environment is
  therefore exact (no float32 rounding).
 */
module Configuration {

  /** Equatorial radius of the Earth used by the orbit library, in km. */
  const EarthRadius: real := 6378.1366

  /** Altitude the controller should hold, in km. */
  const TargetAltitude: real := 400.0

  /** Orbital radius of the target circular orbit, in km. */
  const TargetRadius: real := EarthRadius + TargetAltitude

  /** Half-width of the tolerance band around the target altitude, in km. */
  const AllowedBand: real := 5.0

  /** Altitude below which the episode is a failure, in km. */
  const CriticalAltitude: real := 250.0

  /** Magnitude of the impulse of one thrust action, in m/s, applied along
      the fixed inertial +y axis. */
  const ThrustMagnitude: real := 1.0

  /** Coast duration of one step, in minutes. */
  const TimeStep: int := 10

  /** Altitude lost per step before the orbit is rebuilt, in km. */
  const DecayPerStep: real := 0.01

  /** Length of the simulated mission, in minutes (30 days). */
  const MissionDuration: int := 30 * 24 * 60

  /** Number of steps after which an episode is truncated. */
  const MaxSteps: int := MissionDuration / TimeStep

  /** The action code that fires the thruster; every other code coasts. */
  const ThrustAction: int := 1

  /** Reward offset for a step on which the thruster was fired. */
  const FuelPenaltyPerThrust: real := -0.1

  /** Reward that replaces the shaped reward on a failing step. */
  const FailurePenalty: real := -100.0

  /** The configuration is consistent: the critical altitude lies below the
      target, the band fits between them, the impulse and the time step are
      positive, and a 30-day episode has 4320 steps. */
  lemma ConfigurationConsistent()
    ensures CriticalAltitude < TargetAltitude
    ensures 0.0 < AllowedBand < TargetAltitude - CriticalAltitude
    ensures ThrustMagnitude > 0.0 && TimeStep > 0
    ensures 0.0 < DecayPerStep
    ensures MaxSteps == 4320
  {
  }
}
