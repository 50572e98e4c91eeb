# Station-keeping environment

A model of `StationKeepingEnv`, the reinforcement-learning environment in which
an agent keeps a satellite in low Earth orbit near 400 km by deciding, every
10 minutes, whether to fire a 1 m/s impulse along the fixed inertial +y axis. The environment is an
episodic state machine:

- `reset` puts the satellite on a circular orbit at the target altitude.
- `reset` sets the step counter to 0.
- `reset` returns the observation `(0, decay_per_step)`.
- Each `step` increments the counter.
- Each `step` fires the thruster if the action is 1.
- Each `step` lowers the altitude by 0.01 km, floored at zero.
- Each `step` rebuilds a circular orbit at that altitude and propagates it.
- Each `step` returns the altitude error and the radius lost.
- Each `step` returns a shaped reward: +1 in the ±5 km band, else minus the
  squared error in band widths, minus 0.1 when the thruster fired.
- The reward is replaced by -100 when the altitude is below 250 km. The
  step is then `terminated`.
- The step is `truncated` once the counter reaches 4320 (30 days).

Because the orbit is rebuilt as circular on every step, the model's episode
state is one altitude and the step counter (but see "## Left out" on the
burn). All lengths are exact reals in kilometres.

Files and modules:

- `configuration.dfy` (`Configuration`): the constants fixed by the constructor.
- `reward.dfy` (`RewardPolicy`): the fuel penalty, the in-band bonus and the
  quadratic penalty, and their properties.
- `station_keeping_env.dfy` (`StationKeeping`): the episode state as a value.
  `Next` and `Outcome` specify one step and `Run` a sequence of steps. The
  class `StationKeepingEnv` has mutable fields `altitude`, `currentStep` and
  `initialized`; its `Reset` and `Step` methods are proved equal to those
  functions.
- `episode_properties.dfy` (`EpisodeProperties`): lemmas about single steps
  and about whole episodes.

The orbit library is abstract:

- Propagating a circular orbit keeps its radius.
- The impulse is the class constant `thrust: real -> real`. It maps the radius
  of the circular orbit to the periapsis radius after the burn, the only value
  the code reads back. Nothing is assumed about it; in particular it need not
  raise the orbit.

Behaviour worth knowing, stated for the model's exact arithmetic:

- Coasting from a reset, the first terminating step is step 15001. After
  15000 steps the altitude is exactly 250 km, and the failure test is a
  strict `<`, so that step does not fail
  (`EpisodeProperties.CoastTermination`). Since 15001 > 4320, a pure-coast
  episode is truncated before it can fail.
- The −100 failure reward does not dominate the shaped reward in value. A
  failing step has an error below −150 km, so its shaped reward is below
  −900. Replacing it by −100 raises that step's reward
  (`RewardPolicy.ShapedRewardBelowFailurePenalty`,
  `EpisodeProperties.FailureOverrideRaisesReward`).
- `step` is not refused on a terminated or truncated episode. Only a `step`
  before any `reset` fails, because the orbit is still unset. So `Step`
  requires `initialized` and nothing more.
- Actions are not validated. Every action code other than 1 is a coast.
- If the impulse raised the periapsis by exactly the decay, thrusting on every
  step would hold 400 km, earn 0.9 per step, never fail, and truncate at step
  4320 (`EpisodeProperties.MatchedThrustEpisode`).

## Model

| member | source | states |
|---|---|---|
| Configuration.ConfigurationConsistent | project_drl.py:19-36 | critical altitude below the target, band narrower than the gap, positive impulse, time step and decay, and 30 days / 10 min = 4320 steps |
| RewardPolicy.FuelPenaltyExact | project_drl.py:53-59 | the fuel penalty is −0.1 exactly when the thruster fired and 0.0 exactly when it did not |
| RewardPolicy.InBandReward | project_drl.py:76-82 | with abs(error) ≤ band the reward is 1.0 plus the fuel penalty, so exactly 1.0 on a coast step |
| RewardPolicy.OutOfBandReward | project_drl.py:76-82 | with abs(error) > band the reward is −(error/band)² plus the fuel penalty, strictly below every in-band reward for the same action |
| RewardPolicy.BaseRewardCharacterised | project_drl.py:76-80 | the reward before the fuel penalty is at most 1.0, and equals 1.0 if and only if the error is within the band |
| RewardPolicy.RewardMonotone | project_drl.py:76-82 | for the same action, a smaller absolute error never earns a smaller reward |
| RewardPolicy.ShapedRewardBelowFailurePenalty | project_drl.py:76-88 | any error that puts the altitude below 250 km has a shaped reward strictly below −100 |
| RewardPolicy.FuelPenalty | project_drl.py:53-59 | the fuel offset is never positive, and is non-zero exactly on a thrust step |
| RewardPolicy.BaseReward | project_drl.py:76-80 | the reward before the fuel offset is at most the 1.0 bonus, and positive exactly when the error is within the band |
| RewardPolicy.ShapedReward | project_drl.py:76-82 | the reward of a non-failing step is at most 1.0, and at least 0.9 exactly when the error is within the band, so every in-band step beats every out-of-band step |
| StationKeeping.Failed | project_drl.py:86 | a failing altitude is below the target and outside the ±5 km band |
| StationKeeping.Truncated | project_drl.py:91 | truncated exactly when the steps taken cover the 30-day mission (steps × 10 min ≥ 43200 min) |
| StationKeeping.Next | project_drl.py:49-68 | one step adds exactly one to the counter, leaves a non-negative altitude, and never raises the altitude on a coast step; its helper `RadiusBefore` is the optional burn and the `r_p` read-back |
| StationKeeping.Outcome | project_drl.py:62-92 | terminated exactly when the reported error is below 250 − 400 km, with reward −100 then; the reward never exceeds 1.0; the reported decay rate is at most 0.01 km |
| StationKeeping.NextAltitude | project_drl.py:62-66 | the rebuilt altitude is never negative, is at least the decayed altitude, and is either 0 or the decayed altitude (the floor at zero) |
| StationKeeping.StationKeepingEnv.constructor | project_drl.py:34-36 | a new environment has no orbit yet (`initialized` false) and a zero step counter |
| StationKeeping.StationKeepingEnv.Reset | project_drl.py:38-47 | after a reset the orbit is at the target altitude, the counter is 0, the orbit is set, and the observation is (0.0, 0.01) |
| StationKeeping.StationKeepingEnv.Step | project_drl.py:49-96 | the new state and the result equal `Next` and `Outcome` of the old state; the counter grows by exactly 1; terminated iff the new altitude is below 250 km, with reward −100 then and the shaped reward otherwise; truncated iff the counter is at least 4320 |
| EpisodeProperties.StepEffects | project_drl.py:50-72 | one step advances the counter by exactly one, leaves a non-negative altitude, and reports its error from the target |
| EpisodeProperties.DecayRateBound | project_drl.py:62-73 | the reported decay rate is at most 0.01 km, and exactly 0.01 km when the orbit after the burn is at least 0.01 km high |
| EpisodeProperties.CoastStep | project_drl.py:53-73 | a coast step from a non-negative altitude gives max(0, altitude − 0.01), never raises the altitude, and reports a decay rate in [0, 0.01] |
| EpisodeProperties.StepReward | project_drl.py:76-88 | terminated iff the new altitude is below 250 km; then reward −100 whatever the shaped value; otherwise the shaped reward, which is exactly 1.0 for an in-band coast step |
| EpisodeProperties.FailureOverrideRaisesReward | project_drl.py:85-88 | on a terminated step the reward −100 is strictly above the shaped reward it replaces |
| EpisodeProperties.RunStepCount | project_drl.py:50 | any sequence of k steps advances the counter by exactly k |
| EpisodeProperties.RunAltitudeNonNegative | project_drl.py:62-66 | the altitude stays non-negative over any number of steps with any actions and any thrust outcome |
| EpisodeProperties.RunCoastAltitude | project_drl.py:53-68 | after k coast steps the altitude is max(0, start − 0.01·k) |
| EpisodeProperties.CoastFromReset | project_drl.py:38-68 | k coast steps after a reset leave altitude max(0, 400 − 0.01·k) and counter k |
| EpisodeProperties.TruncatedOnStep | project_drl.py:90-92 | the step after k steps from a reset is truncated iff k + 1 ≥ 4320, whatever the actions, so truncation first holds on step 4320 |
| EpisodeProperties.RunMatchedThrustAltitude | project_drl.py:53-68 | with an impulse that raises the periapsis by exactly the decay, thrusting on every step keeps the altitude unchanged |
| EpisodeProperties.MatchedThrustEpisode | project_drl.py:49-92 | with such an impulse and thrust on every step from a reset, each step keeps 400 km, reports error 0, earns 0.9, never terminates, and is truncated iff it is step 4320 or later |
| EpisodeProperties.CoastTermination | project_drl.py:85-88 | coasting from a reset, a step terminates iff it is step 15001 or later, with reward −100; no step up to 4320 terminates |

## Left out

- The orbit library (`Orbit.circular`, `Maneuver.impulse`, `apply_maneuver`, `propagate`, `r_p`) is not modelled. A circular orbit is its radius. Propagation keeps the radius. The impulse is the uninterpreted `thrust` function.
- The value of the Earth's radius (6378.1366 km here) only matters as the input of `thrust`. Every other property holds for any value.
- The physical units and the float32 conversion of the observation are not modelled. The model computes exactly, in km.
- The declared action and observation spaces (2 actions, box [−200, 200] × [−1, 1]) are not modelled. They are metadata and nothing clamps to them.
- The `seed` and `options` arguments of `reset`, the base-class reset and the empty `info` dictionaries are not modelled. They do not affect the state.
- The training, evaluation and plotting script that drives the environment is not part of this model.
- The genetic-algorithm transfer-search scripts are not part of this model. They are one-shot calls into the orbit library and an optimiser library.
- The lesson scripts are not part of this model. They are one-shot orbit computations followed by printing and plotting.
- The model computes in exact reals; the program computes in float64 through the unit and orbit libraries. Rounding can move a boundary step by one: the step at which a coasting orbit leaves the band (step 500, where the exact error is −5.0 km) and the step at which it fails (15000 or 15001). `EpisodeProperties.CoastTermination` and `EpisodeProperties.CoastFromReset` state the exact-arithmetic boundaries.
- One `thrust` function stands for two different burns. The impulse vector `[0, 1 m/s, 0]` is fixed in the inertial frame. On the first step after a reset the orbit has not been propagated, so that burn is purely prograde. On every later step the orbit has been propagated 10 minutes, so the burn also has a radial part. The program's post-burn periapsis can thus differ between the first step and later ones at the same altitude. Every lemma holds for any `thrust`, so none depends on this merge.
