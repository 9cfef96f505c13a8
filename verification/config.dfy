/**
  Thruster configuration: the part of the plugin's SDF parameters that the
  actuator arithmetic reads, and the mapping of the `turning_direction` and
  `propeller_direction` option strings to the +1/-1 signs used in the force
  and torque formulas.
 */
module Config {

  /** Sense of rotation as named in the configuration (`cw` or anything else). */
  datatype Rotation = CW | CCW

  /* Motor (turning) direction signs. */
  const MotorCW: int := 1
  const MotorCCW: int := -1

  /* Propeller (blade pitch) direction signs: the reverse of the motor's. */
  const PropellerCW: int := -1
  const PropellerCCW: int := 1

  /** A sign used as a multiplier in the force and torque formulas. */
  predicate IsUnitSign(k: int) {
    k == 1 || k == -1
  }

  /** Only the exact, lower-case string "cw" selects clockwise; every other
      string, including an absent option, selects counter-clockwise. */
  function ParseRotation(s: string): (r: Rotation)
    ensures r == CW <==> s == "cw"
  {
    if s == "cw" then CW else CCW
  }

  function MotorSign(r: Rotation): (k: int)
    ensures IsUnitSign(k)
    ensures k == 1 <==> r == CW
  {
    match r
    case CW => MotorCW
    case CCW => MotorCCW
  }

  function PropellerSign(r: Rotation): (k: int)
    ensures IsUnitSign(k)
    ensures k == -1 <==> r == CW
  {
    match r
    case CW => PropellerCW
    case CCW => PropellerCCW
  }

  /** The sign stored for the `turning_direction` option. */
  function TurningDirection(s: string): (k: int)
    ensures IsUnitSign(k)
    ensures k == 1 <==> s == "cw"
    ensures k == -1 <==> s != "cw"
  {
    MotorSign(ParseRotation(s))
  }

  /** The sign stored for the `propeller_direction` option. */
  function PropellerDirection(s: string): (k: int)
    ensures IsUnitSign(k)
    ensures k == -1 <==> s == "cw"
    ensures k == 1 <==> s != "cw"
  {
    PropellerSign(ParseRotation(s))
  }

  /** For the same option string the two conventions always disagree. */
  lemma OppositeConventions(s: string)
    ensures TurningDirection(s) == -PropellerDirection(s)
    ensures TurningDirection(s) * PropellerDirection(s) == -1
  {
    match ParseRotation(s)
    case CW =>
    case CCW =>
  }

  /** Option values as read from the SDF element (after default filling). */
  datatype SdfParams = SdfParams(
    constantCoeff: real,
    linearCoeff: real,
    quadraticCoeff: real,
    torqueCoeff: real,
    rpmScaler: real,
    turningDirection: string,
    propellerDirection: string)

  /** Coefficients of the thrust curve c + l*s + q*s^2 over revolutions per second. */
  datatype ThrustCurve = ThrustCurve(constantCoeff: real, linearCoeff: real, quadraticCoeff: real)

  /** The configuration the actuator arithmetic works with. */
  datatype ThrusterConfig = ThrusterConfig(
    curve: ThrustCurve,
    torqueCoeff: real,
    rpmScaler: real,
    turning: Rotation,
    propeller: Rotation)

  /** The direction-string handling of `ParseSdf`: coefficients are kept as
      read, and the two direction strings become rotations whose signs are
      the ones `TurningDirection` and `PropellerDirection` give. */
  function ParseSdf(p: SdfParams): (c: ThrusterConfig)
    ensures MotorSign(c.turning) == TurningDirection(p.turningDirection)
    ensures PropellerSign(c.propeller) == PropellerDirection(p.propellerDirection)
    ensures c.curve.constantCoeff == p.constantCoeff && c.curve.linearCoeff == p.linearCoeff
    ensures c.curve.quadraticCoeff == p.quadraticCoeff && c.torqueCoeff == p.torqueCoeff
    ensures c.rpmScaler == p.rpmScaler
  {
    ThrusterConfig(
      ThrustCurve(p.constantCoeff, p.linearCoeff, p.quadraticCoeff), p.torqueCoeff, p.rpmScaler,
      ParseRotation(p.turningDirection), ParseRotation(p.propellerDirection))
  }
}
