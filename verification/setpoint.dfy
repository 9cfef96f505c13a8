/**
  The rotor velocity setpoint and the "throttle command updated" flag, as
  changed by the throttle command handler and by the command timeout. The
  mapping from a throttle value to a rotor velocity is a parameter.
 */
module Setpoint {

  datatype ThrottleState = ThrottleState(setpoint: real, cmdUpdated: bool)

  /** A throttle command arrives: the setpoint becomes the velocity the
      throttle maps to, and the command is marked as received. */
  function OnThrottleCmd(s: ThrottleState, throttle: real, toVelocity: real -> real): (s': ThrottleState)
    ensures s'.setpoint == toVelocity(throttle)
    ensures s'.cmdUpdated
  {
    s.(setpoint := toVelocity(throttle), cmdUpdated := true)
  }

  /** No command arrived in time: the rotor is commanded to stop. The flag
      is left as it was. */
  function ThrottleCmdTimedOut(s: ThrottleState): (s': ThrottleState)
    ensures s'.setpoint == 0.0
    ensures s'.cmdUpdated == s.cmdUpdated
  {
    s.(setpoint := 0.0)
  }

  /** The events that change the setpoint, in the order they are handled. */
  datatype Event = ThrottleCmd(throttle: real) | TimedOut

  function Step(s: ThrottleState, e: Event, toVelocity: real -> real): ThrottleState {
    match e
    case ThrottleCmd(x) => OnThrottleCmd(s, x, toVelocity)
    case TimedOut => ThrottleCmdTimedOut(s)
  }

  /** Handles the events one after the other, first to last. */
  function Replay(s: ThrottleState, events: seq<Event>, toVelocity: real -> real): ThrottleState
    decreases |events|
  {
    if |events| == 0 then s
    else Replay(Step(s, events[0], toVelocity), events[1..], toVelocity)
  }

  /** The setpoint an event leaves behind, whatever came before it. */
  function SetpointAfter(e: Event, toVelocity: real -> real): real {
    match e
    case ThrottleCmd(x) => toVelocity(x)
    case TimedOut => 0.0
  }

  predicate HasCommand(events: seq<Event>) {
    exists i :: 0 <= i < |events| && events[i].ThrottleCmd?
  }

  /** After any non-empty run of events, only the last one decides the
      setpoint; the flag is set exactly when it was set before or some
      command arrived, since a timeout never clears it. */
  lemma {:induction false} ReplayOutcome(s: ThrottleState, events: seq<Event>, toVelocity: real -> real)
    ensures |events| > 0 ==> Replay(s, events, toVelocity).setpoint == SetpointAfter(events[|events| - 1], toVelocity)
    ensures |events| == 0 ==> Replay(s, events, toVelocity) == s
    ensures Replay(s, events, toVelocity).cmdUpdated <==> s.cmdUpdated || HasCommand(events)
    decreases |events|
  {
    if |events| > 0 {
      var s1 := Step(s, events[0], toVelocity);
      var rest := events[1..];
      ReplayOutcome(s1, rest, toVelocity);
      if |rest| > 0 {
        assert rest[|rest| - 1] == events[|events| - 1];
      }
      if HasCommand(rest) {
        var i :| 0 <= i < |rest| && rest[i].ThrottleCmd?;
        assert events[i + 1].ThrottleCmd?;
      }
      if HasCommand(events) && !events[0].ThrottleCmd? {
        var i :| 0 <= i < |events| && events[i].ThrottleCmd?;
        assert rest[i - 1].ThrottleCmd?;
      }
      if events[0].ThrottleCmd? {
        assert HasCommand(events);
      }
    }
  }

  /** Timing out twice is the same as timing out once. */
  lemma TimeoutIsIdempotent(s: ThrottleState)
    ensures ThrottleCmdTimedOut(ThrottleCmdTimedOut(s)) == ThrottleCmdTimedOut(s)
  {
  }
}
