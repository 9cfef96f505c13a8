/**
  Conversion of rotor velocity between the plugin's units and the host
  joint's units. A joint velocity component (the commanded one that the
  plugin writes, or the measured one it reads) is either missing from the
  joint or present with a vector of per-axis values; only axis 0 is used.
 */
module JointVelocity {

  /** A joint velocity component as the host stores it. */
  datatype Component = Missing | Present(data: seq<real>)

  /** True when the component exists and has a value for axis 0. */
  predicate HasAxis0(comp: Component) {
    comp.Present? && |comp.data| > 0
  }

  /** Writes the rotor velocity, divided by the rpm scaler, into axis 0 of
      the commanded joint velocity. A missing or empty component is left as
      it is, and no other axis ever changes. */
  function SetRotorVelocity(cmd: Component, velocity: real, rpmScaler: real): (r: Component)
    requires HasAxis0(cmd) ==> rpmScaler != 0.0
    ensures !HasAxis0(cmd) ==> r == cmd
    ensures r.Present? <==> cmd.Present?
    ensures r.Present? ==> |r.data| == |cmd.data|
    ensures r.Present? ==> forall i :: 1 <= i < |r.data| ==> r.data[i] == cmd.data[i]
    ensures HasAxis0(cmd) ==> r.data[0] * rpmScaler == velocity
  {
    match cmd
    case Missing => cmd
    case Present(data) =>
      if |data| == 0 then cmd
      else Present(data[0 := velocity / rpmScaler])
  }

  /** The rotor velocity in the plugin's units: axis 0 of the joint
      velocity times the rpm scaler, or 0 when there is no such value. */
  function RotorVelocity(state: Component, rpmScaler: real): (v: real)
    ensures !HasAxis0(state) ==> v == 0.0
    ensures HasAxis0(state) ==> v == state.data[0] * rpmScaler
    ensures rpmScaler != 0.0 && HasAxis0(state) ==> v / rpmScaler == state.data[0]
  {
    match state
    case Missing => 0.0
    case Present(data) =>
      if |data| == 0 then 0.0
      else data[0] * rpmScaler
  }

  /** Reading back what was written returns the original rotor velocity,
      provided the component has an axis 0 to hold it. */
  lemma ReadAfterWrite(cmd: Component, velocity: real, rpmScaler: real)
    requires rpmScaler != 0.0
    requires HasAxis0(cmd)
    ensures RotorVelocity(SetRotorVelocity(cmd, velocity, rpmScaler), rpmScaler) == velocity
  {
    var r := SetRotorVelocity(cmd, velocity, rpmScaler);
    assert HasAxis0(r);
    assert r.data[0] * rpmScaler == velocity;
  }

  /** Writing back what was read leaves every component unchanged,
      including missing and empty ones. */
  lemma WriteAfterRead(state: Component, rpmScaler: real)
    requires HasAxis0(state) ==> rpmScaler != 0.0
    ensures SetRotorVelocity(state, RotorVelocity(state, rpmScaler), rpmScaler) == state
  {
    if HasAxis0(state) {
      var r := SetRotorVelocity(state, RotorVelocity(state, rpmScaler), rpmScaler);
      assert r.data[0] == state.data[0];
      assert r.data == state.data;
    }
  }

  /** Two writes in a row: the second one wins. */
  lemma LastWriteWins(cmd: Component, v1: real, v2: real, rpmScaler: real)
    requires HasAxis0(cmd) ==> rpmScaler != 0.0
    ensures SetRotorVelocity(SetRotorVelocity(cmd, v1, rpmScaler), v2, rpmScaler)
         == SetRotorVelocity(cmd, v2, rpmScaler)
  {
  }
}
