/** The message dispatch of server.cpp: each payload becomes calls on the
    controller (drive percents, the relay output, actuator motions), a one-byte
    macro packet changes nothing, and every other payload, the stop-listening
    sentinel and a disconnect all fall back to `stopMovement`. */
module Dispatch {

  import opened Protocol
  import opened Motor

  /** What the dispatch path drives: the global controller, the relay output
      and whether the server still accepts connections. */
  datatype Robot = Robot(motors: MotorController, relay: bool, listening: bool)

  /** The process at startup: a fresh controller, the relay taken to be low,
      and the server listening. */
  function NewRobot(): (s: Robot)
    ensures AllStopped(s.motors) && !s.relay && s.listening
  {
    Robot(NewMotorController(), false, true)
  }

  /** The bytes of an ASCII string. */
  function AsciiBytes(s: string): (p: seq<Byte>)
    ensures |p| == |s|
  {
    seq(|s|, i requires 0 <= i < |s| => ((s[i] as int) % 256) as bv8)
  }

  /** The payload that asks the server to stop listening. */
  const STOP_LISTENING: seq<Byte> := AsciiBytes("stop-listening")

  /** A motion payload as server.cpp tests it. */
  predicate IsMotion(p: seq<Byte>) {
    |p| == 2 && p[0] & SHAPE_MASK == 0
  }

  /** A macro payload as server.cpp tests it: one byte only. */
  predicate IsMacro(p: seq<Byte>) {
    |p| == 1 && p[0] & SHAPE_MASK != 0
  }

  /** The relay output is driven high exactly when some trigger bit is set. */
  function RelayLevel(t: seq<bool>): (high: bool)
    requires |t| == 4
    ensures high <==> exists i :: 0 <= i < 4 && t[i]
  {
    t[2] || t[0] || t[3] || t[1]
  }

  /** The motion branch: set both drive percents, write the relay, then set
      both actuators from (t[2], t[0]) and (t[3], t[1]). */
  function ApplyMotion(s: Robot, f: MotionFields): (t: Robot)
    requires ValidMotionFields(f)
    ensures t.listening == s.listening
    ensures t.relay <==> exists i :: 0 <= i < 4 && f.triggers[i]
    ensures SameFlags(t.motors, s.motors)
    ensures !s.motors.disableDriveMotors ==>
              t.motors.leftDrive.duty == DutyCycle(LeftPercent(f.left)) &&
              t.motors.rightDrive.duty == DutyCycle(RightPercent(f.right))
    ensures s.motors.disableDriveMotors ==>
              t.motors.leftDrive == s.motors.leftDrive && t.motors.rightDrive == s.motors.rightDrive
    ensures !s.motors.disableActuators ==>
              t.motors.actuator1 == SetMotion(s.motors.actuator1, f.triggers[2], f.triggers[0]).act &&
              t.motors.actuator2 == SetMotion(s.motors.actuator2, f.triggers[3], f.triggers[1]).act
    ensures s.motors.disableActuators ==>
              t.motors.actuator1 == s.motors.actuator1 && t.motors.actuator2 == s.motors.actuator2
  {
    var driven := SetDrivePercent(s.motors, LeftPercent(f.left), RightPercent(f.right)).motors;
    var moved := SetActuators(driven, f.triggers[2], f.triggers[0], f.triggers[3], f.triggers[1]).motors;
    Robot(moved, RelayLevel(f.triggers), s.listening)
  }

  /** `onMessage`. A payload that is neither a motion packet nor a one-byte
      macro packet stops the robot; the stop-listening payload is such a
      payload, and it also stops listening and stops the robot again. */
  function OnMessage(s: Robot, p: seq<Byte>): (t: Robot)
    ensures SameFlags(t.motors, s.motors)
    ensures t.listening <==> s.listening && p != STOP_LISTENING
    ensures IsMacro(p) ==> t == s
    ensures !IsMotion(p) && !IsMacro(p) ==>
              t.motors == StopMovement(s.motors).motors && t.relay == s.relay
  {
    var handled :=
      if IsMotion(p) then ApplyMotion(s, MotionFieldsOf(p[0], p[1]))
      else if IsMacro(p) then s
      else s.(motors := StopMovement(s.motors).motors);
    if p == STOP_LISTENING then
      handled.(listening := false, motors := StopMovement(handled.motors).motors)
    else handled
  }

  /** `on_disconnect`, also installed for interrupt and fail events. */
  function OnDisconnect(s: Robot): (t: Robot)
    ensures t.relay == s.relay && t.listening == s.listening
    ensures SameFlags(t.motors, s.motors)
    ensures !s.motors.disableDriveMotors && !s.motors.disableActuators ==> AllStopped(t.motors)
    ensures t.motors == StopMovement(s.motors).motors
  {
    s.(motors := StopMovement(s.motors).motors)
  }

  /** The payloads of a connection, handled in arrival order. */
  function Run(s: Robot, ps: seq<seq<Byte>>): (t: Robot)
    ensures SameFlags(t.motors, s.motors)
    ensures !s.listening ==> !t.listening
    decreases |ps|
  {
    if |ps| == 0 then s else Run(OnMessage(s, ps[0]), ps[1..])
  }

  /** What the server sees over its lifetime: a payload from the current
      client, or a close, fail or interrupt event, which all run
      `on_disconnect`. The controller is a global, so a later client's
      payloads act on the state the earlier events left. */
  datatype Event = Payload(p: seq<Byte>) | Disconnect

  /** A history of events, handled in order on the one global controller. */
  function RunEvents(s: Robot, es: seq<Event>): (t: Robot)
    ensures SameFlags(t.motors, s.motors)
    ensures !s.listening ==> !t.listening
    decreases |es|
  {
    if |es| == 0 then s
    else
      var next := match es[0]
        case Payload(p) => OnMessage(s, p)
        case Disconnect => OnDisconnect(s);
      RunEvents(next, es[1..])
  }

  // ---------------------------------------------------------------------------
  // Properties of the dispatch path
  // ---------------------------------------------------------------------------

  /** A motion payload's relay level is its trigger bits, 6..3 of the first
      byte. */
  lemma RelayFollowsTriggerBits(s: Robot, p: seq<Byte>)
    requires IsMotion(p)
    ensures OnMessage(s, p).relay <==> p[0] & 0x78 != 0
  {
    var t := Triggers(p[0]);
    assert p != STOP_LISTENING;
    assert t[0] == Bit(p[0], 6) && t[1] == Bit(p[0], 5) && t[2] == Bit(p[0], 4) && t[3] == Bit(p[0], 3);
  }

  /** Dispatch and the decoder agree on motion payloads: the drive channels
      get the duty cycles of the decoded percents, each actuator receives
      `setMotion` with its trigger pair, and an actuator whose command was
      accepted takes the output pattern of the decoded motion. */
  lemma DispatchAgreesWithDecoder(s: Robot, p: seq<Byte>)
    requires IsMotion(p)
    ensures Decode(p).Motion?
    ensures var d := Decode(p).motion;
            var c := OnMessage(s, p).motors;
            var t := Triggers(p[0]);
            (!s.motors.disableDriveMotors ==>
               c.leftDrive.duty == DutyCycle(d.leftDrivePercent) &&
               c.rightDrive.duty == DutyCycle(d.rightDrivePercent)) &&
            (s.motors.disableDriveMotors ==>
               c.leftDrive == s.motors.leftDrive && c.rightDrive == s.motors.rightDrive) &&
            (s.motors.disableActuators ==>
               c.actuator1 == s.motors.actuator1 && c.actuator2 == s.motors.actuator2) &&
            (!s.motors.disableActuators ==>
               c.actuator1 == SetMotion(s.motors.actuator1, t[2], t[0]).act &&
               c.actuator2 == SetMotion(s.motors.actuator2, t[3], t[1]).act) &&
            (!s.motors.disableActuators && SetMotion(s.motors.actuator1, t[2], t[0]).ok ==>
               Safe(c.actuator1) && Direction(c.actuator1) == d.actuator1) &&
            (!s.motors.disableActuators && SetMotion(s.motors.actuator2, t[3], t[1]).ok ==>
               Safe(c.actuator2) && Direction(c.actuator2) == d.actuator2)
  {
    assert p != STOP_LISTENING;
    var f := MotionFieldsOf(p[0], p[1]);
    SetMotionFollowsDecodedMotion(s.motors.actuator1, f.triggers[2], f.triggers[0]);
    SetMotionFollowsDecodedMotion(s.motors.actuator2, f.triggers[3], f.triggers[1]);
  }

  /** Whenever `setMotion` accepts a trigger pair, the actuator's output
      pattern is the one `getActuatorMotion` names for the same pair. */
  lemma SetMotionFollowsDecodedMotion(x: Actuator, a: bool, b: bool)
    ensures SetMotion(x, a, b).ok ==>
              Safe(SetMotion(x, a, b).act) && Direction(SetMotion(x, a, b).act) == GetActuatorMotion(a, b)
  {
  }

  /** A two-byte payload with bit 7 set is a macro packet to the decoder, but
      server.cpp only takes one-byte macro packets and stops the robot. */
  lemma TwoByteMacroStops(s: Robot, b0: Byte, b1: Byte)
    requires b0 & SHAPE_MASK != 0
    ensures Decode([b0, b1]).Macro?
    ensures OnMessage(s, [b0, b1]).motors == StopMovement(s.motors).motors
  {
    assert [b0, b1] != STOP_LISTENING;
  }

  /** The stop-listening payload is fourteen bytes long, so it first takes the
      invalid-packet branch and is then stopped again; since stopping is
      idempotent, the motors end exactly as after one `stopMovement`. */
  lemma StopListeningStopsOnce(s: Robot)
    ensures |STOP_LISTENING| == 14
    ensures !IsMotion(STOP_LISTENING) && !IsMacro(STOP_LISTENING)
    ensures OnMessage(s, STOP_LISTENING) ==
              Robot(StopMovement(s.motors).motors, s.relay, false)
  {
    StopMovementIdempotent(s.motors);
  }

  /** With both disable flags clear, as in this build where nothing sets them,
      an invalid payload and a disconnect both leave the robot fully stopped. */
  lemma FailSafe(s: Robot, p: seq<Byte>)
    requires !s.motors.disableDriveMotors && !s.motors.disableActuators
    requires !IsMotion(p) && !IsMacro(p)
    ensures AllStopped(OnMessage(s, p).motors)
    ensures AllStopped(OnDisconnect(s).motors)
  {
  }

  /** The state reached by manual control in this build: both disable flags
      clear, the drive channels inside the band the motion scaling allows, and
      both actuators as constructed (flags false, pins low). */
  ghost predicate ManualControl(s: Robot) {
    && !s.motors.disableDriveMotors && !s.motors.disableActuators
    && 53 <= s.motors.leftDrive.duty <= 61
    && 43 <= s.motors.rightDrive.duty <= 71
    && s.motors.actuator1 == NewActuator()
    && s.motors.actuator2 == NewActuator()
  }

  /** The duty cycles the two scaled drive fields can produce. */
  lemma DriveDutyBands(f: DriveField)
    requires ValidField(f)
    ensures 53 <= DutyCycle(LeftPercent(f)) <= 61
    ensures 43 <= DutyCycle(RightPercent(f)) <= 71
  {
    PercentBounds(f);
    DutyCycleMonotone(-24, LeftPercent(f));
    DutyCycleMonotone(LeftPercent(f), 24);
    DutyCycleMonotone(-74, RightPercent(f));
    DutyCycleMonotone(RightPercent(f), 74);
  }

  /** One message keeps the manual-control state. */
  lemma OnMessageKeepsManualControl(s: Robot, p: seq<Byte>)
    requires ManualControl(s)
    ensures ManualControl(OnMessage(s, p))
  {
    if IsMotion(p) {
      var f := MotionFieldsOf(p[0], p[1]);
      DriveDutyBands(f.left);
      DriveDutyBands(f.right);
    }
  }

  /** Whatever one client sends, in this build the actuators are never
      energised, because their permission flags are never raised, and the
      drive channels never leave [53, 61] on the left and [43, 71] on the
      right. */
  lemma {:induction false} ManualControlInvariant(s: Robot, ps: seq<seq<Byte>>)
    requires ManualControl(s)
    ensures ManualControl(Run(s, ps))
    decreases |ps|
  {
    if |ps| > 0 {
      OnMessageKeepsManualControl(s, ps[0]);
      ManualControlInvariant(OnMessage(s, ps[0]), ps[1..]);
    }
  }

  /** Manual control also survives disconnects, so it holds across any
      interleaving of connections, payloads and close, fail or interrupt
      events on the global controller. */
  lemma {:induction false} ManualControlAcrossConnections(s: Robot, es: seq<Event>)
    requires ManualControl(s)
    ensures ManualControl(RunEvents(s, es))
    decreases |es|
  {
    if |es| > 0 {
      var next := match es[0]
        case Payload(p) => OnMessage(s, p)
        case Disconnect => OnDisconnect(s);
      if es[0].Payload? {
        OnMessageKeepsManualControl(s, es[0].p);
      }
      ManualControlAcrossConnections(next, es[1..]);
    }
  }

  /** From startup, whatever the clients send and however often they
      disconnect and reconnect, every reachable state is a manual-control
      state; a disconnect at any point then leaves everything stopped. */
  lemma ActuatorsNeverEnergised(es: seq<Event>)
    ensures var t := RunEvents(NewRobot(), es);
            t.motors.actuator1 == NewActuator() && t.motors.actuator2 == NewActuator() &&
            53 <= t.motors.leftDrive.duty <= 61 && 43 <= t.motors.rightDrive.duty <= 71 &&
            AllStopped(OnDisconnect(t).motors)
  {
    ManualControlAcrossConnections(NewRobot(), es);
  }

}
