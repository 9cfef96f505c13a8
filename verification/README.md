# Thruster actuator arithmetic

A Dafny model of the actuator arithmetic of the thruster plugin in
`hippo_gz_plugins` (`src/thruster/thruster_private.cpp`). This plugin simulates
a propeller thruster inside a Gazebo simulation. The model covers:

- the mapping of the `turning_direction` and `propeller_direction` option
  strings (`cw` or anything else) to the +1/-1 signs (module `Config`,
  `config.dfy`);
- the thrust curve `ThrusterForce` and the reaction torque `Torque`, both
  computed in the thruster link's frame from the filtered rotor velocity
  (module `Thrust`, `thrust.dfy`);
- the rpm scaling between the plugin's rotor velocity and the host joint's
  velocity components (`SetRotorVelocity` and `RotorVelocity`, module
  `JointVelocity`, `joint.dfy`);
- the setpoint and "command updated" flag as changed by `OnThrottleCmd` and
  `ThrottleCmdTimedOut` (module `Setpoint`, `setpoint.dfy`).

All quantities are exact `real`s. The filtered rotor velocity is an input to
the model. The throttle-to-velocity mapping is a function parameter. A joint
velocity component is `Missing` or `Present(data)`.

Where the documentation and the code disagree, the model follows the code:

- The code divides the rotor velocity by the literal `6.28`, not by 2π, to get
  revolutions per second. The model uses `6.28`.
- The doc comment of `ThrusterForce` gives `a·x² + b·x`. The code also adds
  `constant_coeff`, so the model does too.
- A zero rotor velocity does not give zero thrust. It gives
  `propeller_sign · max(0, constant_coeff)` (`Thrust.ForceAtRest`). For that
  reason, oddness of the force (`Thrust.ForceIsOdd`) is stated only for
  nonzero velocity.

## Model

| member | source | states |
|---|---|---|
| Config.ParseRotation | src/thruster/thruster_private.cpp:36-46 | a direction string selects clockwise exactly when it is the lower-case string `cw`; every other string selects counter-clockwise |
| Config.MotorSign | src/thruster/thruster_private.cpp:12-15 | the motor direction is +1 for clockwise and -1 for counter-clockwise |
| Config.PropellerSign | src/thruster/thruster_private.cpp:16-19 | the propeller direction is -1 for clockwise and +1 for counter-clockwise |
| Config.TurningDirection | src/thruster/thruster_private.cpp:36-40 | the turning sign is +1 if and only if the option is `cw`, and -1 if and only if it is not |
| Config.PropellerDirection | src/thruster/thruster_private.cpp:41-46 | the propeller sign is -1 if and only if the option is `cw`, and +1 if and only if it is not |
| Config.OppositeConventions | src/thruster/thruster_private.cpp:12-19 | for the same string, the motor and propeller conventions give opposite signs, so their product is -1 |
| Config.ParseSdf | src/thruster/thruster_private.cpp:21-49 | the configuration keeps the coefficients and rpm scaler as read, and its direction signs are those of the two option strings |
| Thrust.RevolutionsPerSecond | src/thruster/thruster_private.cpp:103-104 | the speed is non-negative, and the speed times 6.28 equals the rotor velocity up to sign |
| Thrust.ThrustMagnitude | src/thruster/thruster_private.cpp:104-107 | the unsigned thrust is the maximum of zero and `q·s² + l·s + c`: it is non-negative, at least the curve, and equal to zero or to the curve |
| Thrust.ThrusterForce | src/thruster/thruster_private.cpp:101-113 | the force has zero Y and Z; its magnitude is the unsigned thrust; it points with the propeller sign for non-negative velocity and against it for negative velocity |
| Thrust.Torque | src/thruster/thruster_private.cpp:115-118 | the torque has zero Y and Z; the propeller sign cancels, so its X component is `torque_coeff · motor_sign · signed thrust` |
| Thrust.TorqueMagnitude | src/thruster/thruster_private.cpp:115-118 | the torque's magnitude is `|torque_coeff|` times the force's magnitude |
| Thrust.TorqueIgnoresPropellerDirection | src/thruster/thruster_private.cpp:115-118 | changing only the propeller direction never changes the torque |
| Thrust.ForceIsOdd | src/thruster/thruster_private.cpp:104-112 | for nonzero rotor velocity, negating the velocity negates the force |
| Thrust.ForceAtRest | src/thruster/thruster_private.cpp:104-112 | at zero velocity the force is the propeller sign times `max(0, constant_coeff)` |
| Thrust.ThrustMonotoneInSpeed | src/thruster/thruster_private.cpp:104-107 | with non-negative quadratic and linear coefficients, a faster rotor never gives less unsigned thrust |
| Thrust.UnitCurveAtOneRevolution | src/thruster/thruster_private.cpp:104-107 | with the curve `s²`, a rotor at 6.28 rad/s (one revolution per second) gives unsigned thrust 1 |
| Thrust.OneRevolutionForce | src/thruster/thruster_private.cpp:101-113 | with the curve `s²` and propeller direction `ccw`, a rotor at 6.28 rad/s gives force (1, 0, 0) |
| Thrust.OneRevolutionTorque | src/thruster/thruster_private.cpp:101-118 | with the curve `s²`, torque coefficient 0.1 and turning direction `ccw`, a rotor at 6.28 rad/s gives torque (-0.1, 0, 0) |
| JointVelocity.SetRotorVelocity | src/thruster/thruster_private.cpp:120-131 | a missing or empty command is left unchanged; otherwise axis 0 times the rpm scaler equals the velocity, and the length and every other axis stay the same |
| JointVelocity.RotorVelocity | src/thruster/thruster_private.cpp:133-146 | a missing or empty joint velocity reads as 0; otherwise the result is axis 0 times the rpm scaler, so dividing it by a nonzero scaler gives axis 0 back |
| JointVelocity.ReadAfterWrite | src/thruster/thruster_private.cpp:129-142 | reading axis 0 back after writing a velocity returns that velocity, for a nonzero rpm scaler |
| JointVelocity.WriteAfterRead | src/thruster/thruster_private.cpp:120-146 | writing back the velocity just read leaves any component unchanged, including missing and empty ones |
| JointVelocity.LastWriteWins | src/thruster/thruster_private.cpp:120-131 | of two writes in a row, only the second one has an effect |
| Setpoint.OnThrottleCmd | src/thruster/thruster_private.cpp:166-170 | after a command, the setpoint is the velocity the throttle maps to and the flag is set |
| Setpoint.ThrottleCmdTimedOut | src/thruster/thruster_private.cpp:161-164 | after a timeout, the setpoint is zero and the flag is unchanged |
| Setpoint.ReplayOutcome | src/thruster/thruster_private.cpp:161-170 | after any sequence of commands and timeouts, the setpoint is fixed by the last event alone; the flag is set exactly when it was set before or some command arrived |
| Setpoint.TimeoutIsIdempotent | src/thruster/thruster_private.cpp:161-164 | a second timeout changes nothing |

## Left out

- Floating point: the model uses exact reals. IEEE rounding, infinities and NaN are not modelled.
- JointVelocity.SetRotorVelocity: when the command has an axis 0, the model requires a nonzero rpm scaler. There the source divides by the scaler, and a zero scaler writes an IEEE infinity or NaN, which reals cannot represent. A missing or empty command needs no condition on the scaler.
- JointVelocity.ReadAfterWrite: `SetRotorVelocity` writes the joint velocity command component, and `RotorVelocity` reads the joint velocity component. The host's physics step carries one into the other and is not modelled. The lemma relates the two conversions on the same data vector.
- `ApplyWrench` (lines 65-83): rotating the force and torque into world and parent frames, and adding them to the parent's pending wrench, uses quaternion and pose types of the host library. That library is not part of this model.
- `InitModel` and `InitComponents` (lines 51-63, 172-219): entity lookup and component creation in the host simulator.
- `UpdateRotorVelocity` (lines 85-93) and the first-order lag filter: the filter is defined in `common.hpp`, which is not part of this model. The filtered rotor velocity is an input to the force, torque and scaling functions.
- `ThrottleToVelocity`: its definition is not part of this model. It is the `toVelocity` parameter of `Setpoint.OnThrottleCmd`.
- The `AssignSdfParam` calls in `ParseSdf`: SDF parsing and defaults come from `common.hpp` and the plugin header, which are not part of this model. Only the direction-string mapping is modelled.
- `PublishRpm` and `PublishThrust` (lines 148-159): message transport.
- The mutex around the setpoint (lines 88, 162, 167): commands and timeouts are modelled as sequential state transitions.
- The range sensor (`src/range_sensor/range_sensor_private.hpp`): the header declares the sensor's methods, its configuration defaults and its random-number members. The method bodies are in a file that is not part of this model.
