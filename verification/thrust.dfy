/**
  The thrust curve and the reaction torque of one thruster, in the thruster
  link's local frame. The rotor velocity (rad/s, already lag-filtered) is an
  input; the results are vectors along local X.
 */
module Thrust {
  import opened Config

  datatype Vector3 = Vector3(x: real, y: real, z: real)

  function Scale(k: real, v: Vector3): Vector3 {
    Vector3(k * v.x, k * v.y, k * v.z)
  }

  /** The divisor that turns rad/s into revolutions per second (the literal
      used by the plugin, not 2*pi). */
  const RadiansPerRevolution: real := 6.28

  function Abs(x: real): (a: real)
    ensures a >= 0.0
    ensures a == x || a == -x
  {
    if x < 0.0 then -x else x
  }

  /** Revolutions per second for a rotor velocity: a non-negative speed
      that covers the velocity in whole `RadiansPerRevolution` units. */
  function RevolutionsPerSecond(v: real): (s: real)
    ensures s >= 0.0
    ensures s * RadiansPerRevolution == v || s * RadiansPerRevolution == -v
  {
    Abs(v / RadiansPerRevolution)
  }

  /** The unclamped curve q*s^2 + l*s + c, including the constant term. */
  function ThrustPolynomial(curve: ThrustCurve, s: real): real {
    s * s * curve.quadraticCoeff + s * curve.linearCoeff + curve.constantCoeff
  }

  /** Unsigned thrust: the curve at |v / 6.28| clamped from below at zero,
      i.e. the maximum of zero and the curve. */
  function ThrustMagnitude(curve: ThrustCurve, v: real): (t: real)
    ensures t >= 0.0
    ensures t >= ThrustPolynomial(curve, RevolutionsPerSecond(v))
    ensures t == 0.0 || t == ThrustPolynomial(curve, RevolutionsPerSecond(v))
  {
    var p := ThrustPolynomial(curve, RevolutionsPerSecond(v));
    if p < 0.0 then 0.0 else p
  }

  /** The thrust with the sign of the rotor velocity (zero counts as positive). */
  function SignedThrust(curve: ThrustCurve, v: real): real {
    var t := ThrustMagnitude(curve, v);
    if v < 0.0 then -t else t
  }

  /** Multiplication by a +1/-1 direction sign. */
  function Signed(k: int, x: real): (r: real)
    requires IsUnitSign(k)
    ensures r == if k == 1 then x else -x
  {
    (k as real) * x
  }

  function SignedVector(k: int, v: Vector3): Vector3
    requires IsUnitSign(k)
  {
    Vector3(Signed(k, v.x), Signed(k, v.y), Signed(k, v.z))
  }

  /** Force on the thruster link: along local X, of magnitude
      `ThrustMagnitude`, pointing with the propeller sign for non-negative
      rotor velocity and against it for negative rotor velocity. */
  function ThrusterForce(c: ThrusterConfig, v: real): (f: Vector3)
    ensures f.y == 0.0 && f.z == 0.0
    ensures Abs(f.x) == ThrustMagnitude(c.curve, v)
    ensures v >= 0.0 ==> Signed(PropellerSign(c.propeller), f.x) >= 0.0
    ensures v < 0.0 ==> Signed(PropellerSign(c.propeller), f.x) <= 0.0
  {
    Vector3(Signed(PropellerSign(c.propeller), SignedThrust(c.curve, v)), 0.0, 0.0)
  }

  lemma AbsOfProduct(a: real, b: real)
    ensures Abs(a * b) == Abs(a) * Abs(b)
  {
    if a < 0.0 {
      if b < 0.0 { assert a * b == (-a) * (-b); } else { assert Abs(a * b) == (-a) * b; }
    } else {
      if b < 0.0 { assert Abs(a * b) == a * (-b); } else { assert a * b >= 0.0; }
    }
  }

  /** Multiplying by the product of two signs after the second one leaves
      only the first. */
  lemma SignsCompose(m: int, p: int, x: real)
    requires IsUnitSign(m) && IsUnitSign(p)
    ensures IsUnitSign(m * p)
    ensures Signed(m * p, Signed(p, x)) == Signed(m, x)
  {
    if m == 1 {
      assert m * p == p;
    } else {
      assert m * p == -p;
    }
  }

  /** Reaction torque about local X. The propeller sign cancels out of it:
      only the torque coefficient, the motor sign and the signed thrust
      remain. */
  function Torque(c: ThrusterConfig, v: real): (t: Vector3)
    ensures t.y == 0.0 && t.z == 0.0
    ensures t.x == c.torqueCoeff * Signed(MotorSign(c.turning), SignedThrust(c.curve, v))
  {
    var m := MotorSign(c.turning);
    var p := PropellerSign(c.propeller);
    SignsCompose(m, p, SignedThrust(c.curve, v));
    Scale(c.torqueCoeff, SignedVector(m * p, ThrusterForce(c, v)))
  }

  /** The torque's magnitude is |torque_coeff| times the force's. */
  lemma TorqueMagnitude(c: ThrusterConfig, v: real)
    ensures Abs(Torque(c, v).x) == Abs(c.torqueCoeff) * Abs(ThrusterForce(c, v).x)
  {
    var st := SignedThrust(c.curve, v);
    var u := Signed(MotorSign(c.turning), st);
    assert Abs(u) == Abs(st);
    assert Abs(ThrusterForce(c, v).x) == Abs(st);
    AbsOfProduct(c.torqueCoeff, u);
  }

  /** The thrust force is odd in the rotor velocity away from zero. */
  lemma ForceIsOdd(c: ThrusterConfig, v: real)
    requires v != 0.0
    ensures ThrusterForce(c, -v) == Scale(-1.0, ThrusterForce(c, v))
  {
    assert (-v) / RadiansPerRevolution == -(v / RadiansPerRevolution);
    assert RevolutionsPerSecond(-v) == RevolutionsPerSecond(v);
    assert ThrustMagnitude(c.curve, -v) == ThrustMagnitude(c.curve, v);
    assert SignedThrust(c.curve, -v) == -SignedThrust(c.curve, v);
  }

  /** At rest the force is the clamped constant term times the propeller
      sign, so a positive constant term makes the curve jump at zero. */
  lemma ForceAtRest(c: ThrusterConfig)
    ensures ThrusterForce(c, 0.0).x
         == Signed(PropellerSign(c.propeller), if c.curve.constantCoeff < 0.0 then 0.0 else c.curve.constantCoeff)
  {
    assert RevolutionsPerSecond(0.0) == 0.0;
  }

  lemma MulMonotone(a: real, b: real, k: real)
    requires a <= b && k >= 0.0
    ensures a * k <= b * k
  {
  }

  lemma SquareMonotone(a: real, b: real)
    requires 0.0 <= a <= b
    ensures a * a <= b * b
  {
    MulMonotone(a, b, a);
    MulMonotone(a, b, b);
  }

  /** The curve itself is monotone over non-negative speeds. */
  lemma PolynomialMonotone(curve: ThrustCurve, s1: real, s2: real)
    requires curve.quadraticCoeff >= 0.0 && curve.linearCoeff >= 0.0
    requires 0.0 <= s1 <= s2
    ensures ThrustPolynomial(curve, s1) <= ThrustPolynomial(curve, s2)
  {
    SquareMonotone(s1, s2);
    MulMonotone(s1 * s1, s2 * s2, curve.quadraticCoeff);
    MulMonotone(s1, s2, curve.linearCoeff);
  }

  /** With a non-negative quadratic and linear coefficient, a faster rotor
      never yields less unsigned thrust. */
  lemma ThrustMonotoneInSpeed(curve: ThrustCurve, v1: real, v2: real)
    requires curve.quadraticCoeff >= 0.0 && curve.linearCoeff >= 0.0
    requires Abs(v1) <= Abs(v2)
    ensures ThrustMagnitude(curve, v1) <= ThrustMagnitude(curve, v2)
  {
    var s1 := RevolutionsPerSecond(v1);
    var s2 := RevolutionsPerSecond(v2);
    assert s1 == Abs(v1) / RadiansPerRevolution;
    assert s2 == Abs(v2) / RadiansPerRevolution;
    PolynomialMonotone(curve, s1, s2);
  }

  lemma UnitCurveAtOneRevolution(curve: ThrustCurve)
    requires curve == ThrustCurve(0.0, 0.0, 1.0)
    ensures ThrustMagnitude(curve, 6.28) == 1.0
  {
    assert RevolutionsPerSecond(6.28) == 1.0;
    assert ThrustPolynomial(curve, 1.0) == 1.0;
  }

  /** A pure quadratic curve with unit coefficient at one revolution per
      second (6.28 rad/s), propeller counter-clockwise: unit force along X. */
  lemma OneRevolutionForce(c: ThrusterConfig)
    requires c.curve == ThrustCurve(0.0, 0.0, 1.0)
    requires c.propeller == CCW
    ensures ThrusterForce(c, 6.28) == Vector3(1.0, 0.0, 0.0)
  {
    UnitCurveAtOneRevolution(c.curve);
    assert SignedThrust(c.curve, 6.28) == 1.0;
  }

  /** The same curve and speed with torque coefficient 0.1 and the motor
      counter-clockwise: a torque of 0.1 against X. */
  lemma OneRevolutionTorque(c: ThrusterConfig)
    requires c.curve == ThrustCurve(0.0, 0.0, 1.0)
    requires c.torqueCoeff == 0.1 && c.turning == CCW
    ensures Torque(c, 6.28) == Vector3(-0.1, 0.0, 0.0)
  {
    UnitCurveAtOneRevolution(c.curve);
    assert SignedThrust(c.curve, 6.28) == 1.0;
  }

  /** Changing only the propeller direction leaves the torque unchanged. */
  lemma TorqueIgnoresPropellerDirection(c: ThrusterConfig, r: Rotation, v: real)
    ensures Torque(c.(propeller := r), v) == Torque(c, v)
  {
    var c' := c.(propeller := r);
    assert c'.curve == c.curve && c'.turning == c.turning && c'.torqueCoeff == c.torqueCoeff;
  }
}
