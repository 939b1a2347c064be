/** The motor abstraction of motor.hpp: PWM drive motors, two-pin linear
    actuators gated by limit-switch flags, the aggregate controller with its two
    disable flags, and the simulated controller used when GPIO initialisation
    fails. Hardware writes become updates of immutable state records. */
module Motor {

  import opened Arith
  import opened Types

  // ---------------------------------------------------------------------------
  // PWM drive motor
  // ---------------------------------------------------------------------------

  /** PWM frequency in Hz. */
  const FREQUENCY: int := 150

  /** Stop pulse width: the source computes 0.0015 * FREQUENCY * 256 = 57.6 in
      double and stores it in an int, which truncates to 57. */
  const STOP_PWM: int := 15 * FREQUENCY * 256 / 10000

  /** Distance from the stop value to full forward or full reverse: the source
      computes 0.0005 * FREQUENCY * 256 = 19.2 in double, stored as 19. */
  const NUM_PARTITIONS: int := 5 * FREQUENCY * 256 / 10000

  /** One PWM output channel; `duty` is the last value written to it. The
      source's `prevPWM` member is never read or written, so it has no field. */
  datatype DriveMotor = DriveMotor(duty: int)

  /** Duty cycle written for a percent: STOP_PWM plus percent * NUM_PARTITIONS
      / 100 with C++ truncating division, and no clamping. */
  function DutyCycle(percent: int): (duty: int)
    ensures STOP_PWM == 57 && NUM_PARTITIONS == 19
    ensures percent >= 0 ==> STOP_PWM <= duty && (duty - STOP_PWM) * 100 <= percent * 19 < (duty - STOP_PWM + 1) * 100
    ensures percent <= 0 ==> duty <= STOP_PWM && (STOP_PWM - duty) * 100 <= -percent * 19 < (STOP_PWM - duty + 1) * 100
  {
    STOP_PWM + TruncDiv(percent * NUM_PARTITIONS, 100)
  }

  /** The constructor writes the stop value to the channel. */
  function NewDriveMotor(): (m: DriveMotor)
    ensures m.duty == DutyCycle(0)
  {
    DriveMotor(STOP_PWM)
  }

  /** The destructor writes the stop value again, whatever was running. */
  function ReleaseDriveMotor(m: DriveMotor): (m': DriveMotor)
    ensures m' == NewDriveMotor()
  {
    DriveMotor(STOP_PWM)
  }

  /** `setPercent`: writes the duty cycle for `percent`. Percents within 5 of
      zero fall inside the truncation's dead band and write the stop value. */
  function SetPercent(m: DriveMotor, percent: int): (m': DriveMotor)
    ensures m'.duty == DutyCycle(percent)
    ensures m' == NewDriveMotor() <==> -5 <= percent <= 5
  {
    DriveMotor(DutyCycle(percent))
  }

  /** No debounce: the write happens on every call and the new state does not
      depend on the previous one, so repeating a percent changes nothing. */
  lemma SetPercentForgetsHistory(m: DriveMotor, n: DriveMotor, percent: int)
    ensures SetPercent(m, percent) == SetPercent(n, percent)
    ensures SetPercent(SetPercent(m, percent), percent) == SetPercent(m, percent)
  {
  }

  /** The duty cycle is monotone non-decreasing in the percent. */
  lemma DutyCycleMonotone(p: int, q: int)
    requires p <= q
    ensures DutyCycle(p) <= DutyCycle(q)
  {
    TruncDivMonotone(p * NUM_PARTITIONS, q * NUM_PARTITIONS, 100);
  }

  /** The duty cycle is antisymmetric about the stop value. */
  lemma DutyCycleAntisymmetric(p: int)
    ensures DutyCycle(-p) - STOP_PWM == -(DutyCycle(p) - STOP_PWM)
  {
    TruncDivNegate(p * NUM_PARTITIONS, 100);
  }

  /** Over the documented range [-100, 100] the duty cycle lies in [38, 76],
      reaching both ends. */
  lemma DutyCycleRange(p: int)
    requires -100 <= p <= 100
    ensures 38 <= DutyCycle(p) <= 76
    ensures DutyCycle(-100) == 38 && DutyCycle(100) == 76
  {
    DutyCycleMonotone(-100, p);
    DutyCycleMonotone(p, 100);
  }

  /** No clamping: a percent outside [-100, 100] drives the channel past the
      full-scale values. */
  lemma NoClamping()
    ensures DutyCycle(150) == 85 != DutyCycle(100)
    ensures DutyCycle(-150) == 29 != DutyCycle(-100)
  {
  }

  // ---------------------------------------------------------------------------
  // Actuator
  // ---------------------------------------------------------------------------

  /** A linear actuator: the levels of output pins A and B (true is high) and
      the two permission flags refreshed from the limit switches. */
  datatype Actuator = Actuator(aHigh: bool, bHigh: bool, canExtend: bool, canRetract: bool)

  /** The result of an actuator command: the new state and the returned flag. */
  datatype Attempt = Attempt(act: Actuator, ok: bool)

  /** The safety invariant: the two outputs are not both high. Every actuator
      operation keeps it once all of its writes are done; `retract` can break
      it between its two writes (`RetractPassesThroughBothHigh`). */
  predicate Safe(x: Actuator) {
    !(x.aHigh && x.bHigh)
  }

  /** The motion the output levels stand for, named after the operation that
      writes them: A low and B high is the pattern `extend` writes, A high and
      B low the one `retract` writes, both low no motion. */
  function Direction(x: Actuator): ActuatorMotion
    requires Safe(x)
  {
    if !x.aHigh && x.bHigh then Extending
    else if x.aHigh && !x.bHigh then Retracting
    else None
  }

  /** Two states with the same permission flags. */
  predicate SameLimits(x: Actuator, y: Actuator) {
    x.canExtend == y.canExtend && x.canRetract == y.canRetract
  }

  /** A freshly constructed actuator: both flags start false, and the pins are
      taken to be low (the constructor never writes them). */
  function NewActuator(): (x: Actuator)
    ensures Safe(x) && Direction(x) == None
    ensures !x.canExtend && !x.canRetract
  {
    Actuator(false, false, false, false)
  }

  /** `extend`: drives the extend pattern only when `canExtend` holds, and
      otherwise refuses without touching the pins. */
  function Extend(x: Actuator): (r: Attempt)
    ensures r.ok <==> x.canExtend
    ensures r.ok ==> Safe(r.act) && Direction(r.act) == Extending
    ensures !r.ok ==> r.act == x
    ensures SameLimits(r.act, x)
  {
    if x.canExtend then Attempt(x.(aHigh := false, bHigh := true), true)
    else Attempt(x, false)
  }

  /** `retract`: the mirror image of `extend`, gated by `canRetract`. */
  function Retract(x: Actuator): (r: Attempt)
    ensures r.ok <==> x.canRetract
    ensures r.ok ==> Safe(r.act) && Direction(r.act) == Retracting
    ensures !r.ok ==> r.act == x
    ensures SameLimits(r.act, x)
  {
    if x.canRetract then Attempt(x.(aHigh := true, bHigh := false), true)
    else Attempt(x, false)
  }

  /** `stopMovement`: both outputs low, whatever the flags say. */
  function Stop(x: Actuator): (y: Actuator)
    ensures Safe(y) && Direction(y) == None
    ensures SameLimits(y, x)
  {
    x.(aHigh := false, bHigh := false)
  }

  /** `setMotion(a, b)`: (1,0) extends, (0,1) retracts, and (0,0) and (1,1)
      stop and report success. */
  function SetMotion(x: Actuator, a: bool, b: bool): (r: Attempt)
    ensures r.ok <==> (a && !b ==> x.canExtend) && (!a && b ==> x.canRetract)
    ensures r.ok ==> Safe(r.act)
    ensures r.ok && a && !b ==> Direction(r.act) == Extending
    ensures r.ok && !a && b ==> Direction(r.act) == Retracting
    ensures a == b ==> r.ok && Direction(r.act) == None
    ensures !r.ok ==> r.act == x
    ensures SameLimits(r.act, x)
  {
    if a && !b then Extend(x)
    else if !a && b then Retract(x)
    else Attempt(Stop(x), true)
  }

  /** No actuator operation ends with both outputs high when started from a
      state where they were not. */
  lemma ActuatorOpsPreserveSafe(x: Actuator, a: bool, b: bool)
    requires Safe(x)
    ensures Safe(Extend(x).act) && Safe(Retract(x).act) && Safe(Stop(x))
    ensures Safe(SetMotion(x, a, b).act)
  {
  }

  /** One `gpioWrite` to an actuator output: pin A or pin B, high or low. */
  datatype PinWrite = WriteA(high: bool) | WriteB(high: bool)

  /** The writes of `extend`, `retract` and `stopMovement`, in source order:
      each writes pin A first and pin B second. */
  const EXTEND_WRITES: seq<PinWrite> := [WriteA(false), WriteB(true)]
  const RETRACT_WRITES: seq<PinWrite> := [WriteA(true), WriteB(false)]
  const STOP_WRITES: seq<PinWrite> := [WriteA(false), WriteB(false)]

  function ApplyWrite(x: Actuator, w: PinWrite): Actuator {
    match w
    case WriteA(h) => x.(aHigh := h)
    case WriteB(h) => x.(bHigh := h)
  }

  /** The state after each write of a sequence, in order. Writes touch only
      the pins, never the permission flags. */
  function Trace(x: Actuator, ws: seq<PinWrite>): (states: seq<Actuator>)
    ensures |states| == |ws|
    ensures forall k :: 0 <= k < |states| ==> SameLimits(states[k], x)
    decreases |ws|
  {
    if |ws| == 0 then []
    else
      var y := ApplyWrite(x, ws[0]);
      [y] + Trace(y, ws[1..])
  }

  /** The write sequences end in the states `Extend`, `Retract` and `Stop`
      produce when the operation goes ahead. */
  lemma WritesReachResult(x: Actuator)
    ensures x.canExtend ==> Trace(x, EXTEND_WRITES)[1] == Extend(x).act
    ensures x.canRetract ==> Trace(x, RETRACT_WRITES)[1] == Retract(x).act
    ensures Trace(x, STOP_WRITES)[1] == Stop(x)
  {
  }

  /** `extend` and `stopMovement` clear pin A first, so from a safe state no
      intermediate state has both outputs high. */
  lemma ExtendAndStopPassSafely(x: Actuator)
    requires Safe(x)
    ensures forall k :: 0 <= k < 2 ==> Safe(Trace(x, EXTEND_WRITES)[k])
    ensures forall k :: 0 <= k < 2 ==> Safe(Trace(x, STOP_WRITES)[k])
  {
  }

  /** `retract` raises pin A before it lowers pin B, so it passes through the
      state with both outputs high exactly when pin B was high beforehand, as
      when an extending actuator is reversed. */
  lemma RetractPassesThroughBothHigh(x: Actuator)
    ensures (exists k :: 0 <= k < 2 && !Safe(Trace(x, RETRACT_WRITES)[k])) <==> x.bHigh
    ensures var moving := Extend(x.(canExtend := true)).act;
            !Safe(Trace(moving, RETRACT_WRITES)[0])
  {
    var states := Trace(x, RETRACT_WRITES);
    assert states[0] == x.(aHigh := true);
    assert states[1] == x.(aHigh := true, bHigh := false);
  }

  /** One iteration of the limit-switch loop. A read returns the pin level or a
      negative error code, and the source negates it as a C integer, so a flag
      is set exactly when its read returned 0. If either flag is then false the
      actuator is stopped. */
  function SwitchStep(x: Actuator, extendRead: int, retractRead: int): (y: Actuator)
    ensures y.canExtend <==> extendRead == 0
    ensures y.canRetract <==> retractRead == 0
    ensures extendRead != 0 || retractRead != 0 ==> Safe(y) && Direction(y) == None
    ensures extendRead == 0 && retractRead == 0 ==> y.aHigh == x.aHigh && y.bHigh == x.bHigh
  {
    var y := x.(canExtend := extendRead == 0, canRetract := retractRead == 0);
    if !y.canExtend || !y.canRetract then Stop(y) else y
  }

  /** After a switch step that saw the extend limit, no command can produce
      the pattern `extend` writes until a later step clears it; likewise for
      `retract`. */
  lemma LimitPreemptsCommand(x: Actuator, extendRead: int, retractRead: int, a: bool, b: bool)
    ensures var y := SwitchStep(x, extendRead, retractRead);
            var r := SetMotion(y, a, b);
            Safe(r.act) &&
            (extendRead != 0 ==> Direction(r.act) != Extending) &&
            (retractRead != 0 ==> Direction(r.act) != Retracting)
  {
  }

  /** Without a switch step the flags keep their initial false values, so in
      this build, whose switch thread is commented out, every extend or retract
      request is refused and the actuator never leaves the stopped state. */
  lemma FreshActuatorRefuses(a: bool, b: bool)
    ensures !Extend(NewActuator()).ok && !Retract(NewActuator()).ok
    ensures var r := SetMotion(NewActuator(), a, b);
            r.ok <==> a == b
    ensures Direction(SetMotion(NewActuator(), a, b).act) == None
  {
  }

  // ---------------------------------------------------------------------------
  // Motor controller
  // ---------------------------------------------------------------------------

  /** The hardware controller: two drive channels, two actuators and the two
      manual-control disable flags. */
  datatype MotorController = MotorController(
    leftDrive: DriveMotor,
    rightDrive: DriveMotor,
    actuator1: Actuator,
    actuator2: Actuator,
    disableDriveMotors: bool,
    disableActuators: bool)

  /** The result of a controller call: the new state and the returned flag. */
  datatype Reply = Reply(motors: MotorController, ok: bool)

  /** Both drive channels at the stop value and both actuators stopped. */
  predicate AllStopped(c: MotorController) {
    c.leftDrive == NewDriveMotor() && c.rightDrive == NewDriveMotor() &&
    Safe(c.actuator1) && Direction(c.actuator1) == None &&
    Safe(c.actuator2) && Direction(c.actuator2) == None
  }

  /** Two controllers with the same disable flags. */
  predicate SameFlags(c: MotorController, d: MotorController) {
    c.disableDriveMotors == d.disableDriveMotors && c.disableActuators == d.disableActuators
  }

  /** The controller as constructed: drives at the stop value, fresh actuators,
      and neither disable flag set. */
  function NewMotorController(): (c: MotorController)
    ensures AllStopped(c)
    ensures !c.disableDriveMotors && !c.disableActuators
  {
    MotorController(NewDriveMotor(), NewDriveMotor(), NewActuator(), NewActuator(), false, false)
  }

  /** `setDrivePercent`: refused and nothing changes while drive is disabled;
      otherwise both channels take their new duty cycles. */
  function SetDrivePercent(c: MotorController, leftPercent: int, rightPercent: int): (r: Reply)
    ensures r.ok <==> !c.disableDriveMotors
    ensures !r.ok ==> r.motors == c
    ensures r.ok ==> (r.motors.leftDrive.duty == DutyCycle(leftPercent) &&
                      r.motors.rightDrive.duty == DutyCycle(rightPercent))
    ensures r.motors.actuator1 == c.actuator1 && r.motors.actuator2 == c.actuator2
    ensures SameFlags(r.motors, c)
  {
    if c.disableDriveMotors then Reply(c, false)
    else Reply(c.(leftDrive := SetPercent(c.leftDrive, leftPercent),
                  rightDrive := SetPercent(c.rightDrive, rightPercent)), true)
  }

  /** `setActuators`: refused and nothing changes while actuators are disabled;
      otherwise each actuator gets `setMotion` and the call reports success even
      when an actuator refused. */
  function SetActuators(c: MotorController, a1: bool, b1: bool, a2: bool, b2: bool): (r: Reply)
    ensures r.ok <==> !c.disableActuators
    ensures !r.ok ==> r.motors == c
    ensures r.ok ==> (r.motors.actuator1 == SetMotion(c.actuator1, a1, b1).act &&
                      r.motors.actuator2 == SetMotion(c.actuator2, a2, b2).act)
    ensures r.motors.leftDrive == c.leftDrive && r.motors.rightDrive == c.rightDrive
    ensures SameFlags(r.motors, c)
  {
    if c.disableActuators then Reply(c, false)
    else Reply(c.(actuator1 := SetMotion(c.actuator1, a1, b1).act,
                  actuator2 := SetMotion(c.actuator2, a2, b2).act), true)
  }

  /** A refused actuator command does not make `setActuators` fail. */
  lemma SetActuatorsIgnoresRefusal()
    ensures !SetMotion(NewMotorController().actuator1, true, false).ok
    ensures SetActuators(NewMotorController(), true, false, false, true).ok
  {
  }

  /** `stopMovement`: with drive disabled it returns false at once and nothing
      changes, not even the actuators. Otherwise the drives go to the stop value;
      with actuators disabled it then returns false, and otherwise it also stops
      both actuators and returns true. */
  function StopMovement(c: MotorController): (r: Reply)
    ensures r.ok <==> !c.disableDriveMotors && !c.disableActuators
    ensures c.disableDriveMotors ==> r.motors == c
    ensures !c.disableDriveMotors ==>
              r.motors.leftDrive == NewDriveMotor() && r.motors.rightDrive == NewDriveMotor()
    ensures !c.disableDriveMotors && c.disableActuators ==>
              r.motors.actuator1 == c.actuator1 && r.motors.actuator2 == c.actuator2
    ensures r.ok ==> AllStopped(r.motors)
    ensures SameLimits(r.motors.actuator1, c.actuator1) && SameLimits(r.motors.actuator2, c.actuator2)
    ensures SameFlags(r.motors, c)
  {
    if c.disableDriveMotors then Reply(c, false)
    else
      var driven := SetDrivePercent(c, 0, 0).motors;
      if c.disableActuators then Reply(driven, false)
      else Reply(SetActuators(driven, false, false, false, false).motors, true)
  }

  /** Stopping twice is the same as stopping once. */
  lemma StopMovementIdempotent(c: MotorController)
    ensures StopMovement(StopMovement(c).motors) == StopMovement(c)
  {
  }

  // ---------------------------------------------------------------------------
  // Motor interface: hardware or simulated controller
  // ---------------------------------------------------------------------------

  /** The calls of the motor interface that the manual-control path uses. */
  datatype Command =
    | DrivePercent(leftPercent: int, rightPercent: int)
    | Actuators(a1: bool, b1: bool, a2: bool, b2: bool)
    | StopAll

  /** The two implementations of the motor interface. The simulated one has no
      state. */
  datatype MotorInterface = Hardware(motors: MotorController) | Simulated

  /** The result of an interface call. */
  datatype InterfaceReply = InterfaceReply(device: MotorInterface, ok: bool)

  /** One interface call, dispatched on the implementation. The simulated
      controller answers false to every call and has nothing to change. */
  function Call(i: MotorInterface, cmd: Command): (r: InterfaceReply)
    ensures i.Simulated? ==> r == InterfaceReply(Simulated, false)
    ensures i.Hardware? ==> r.device.Hardware?
    ensures i.Hardware? && cmd.DrivePercent? ==>
              r.ok == !i.motors.disableDriveMotors
    ensures i.Hardware? && cmd.Actuators? ==>
              r.ok == !i.motors.disableActuators
    ensures i.Hardware? && cmd.StopAll? ==>
              r.ok == (!i.motors.disableDriveMotors && !i.motors.disableActuators)
    ensures i.Hardware? && cmd.DrivePercent? ==>
              r.device.motors == SetDrivePercent(i.motors, cmd.leftPercent, cmd.rightPercent).motors
    ensures i.Hardware? && cmd.Actuators? ==>
              r.device.motors == SetActuators(i.motors, cmd.a1, cmd.b1, cmd.a2, cmd.b2).motors
    ensures i.Hardware? && cmd.StopAll? ==>
              r.device.motors == StopMovement(i.motors).motors
  {
    match i
    case Simulated => InterfaceReply(Simulated, false)
    case Hardware(c) =>
      var reply := match cmd
        case DrivePercent(l, r) => SetDrivePercent(c, l, r)
        case Actuators(a1, b1, a2, b2) => SetActuators(c, a1, b1, a2, b2)
        case StopAll => StopMovement(c);
      InterfaceReply(Hardware(reply.motors), reply.ok)
  }

  /** The controller chosen at startup: the simulated one when GPIO
      initialisation returned a negative code, the hardware one otherwise. */
  function SelectController(initResult: int): (i: MotorInterface)
    ensures i.Simulated? <==> initResult < 0
    ensures i.Hardware? ==> i.motors == NewMotorController()
  {
    if initResult < 0 then Simulated else Hardware(NewMotorController())
  }

  /** A run of interface calls: the final device and the flag each call
      returned, in order. */
  function CallAll(i: MotorInterface, cmds: seq<Command>): (r: (MotorInterface, seq<bool>))
    ensures |r.1| == |cmds|
    decreases |cmds|
  {
    if |cmds| == 0 then (i, [])
    else
      var first := Call(i, cmds[0]);
      var rest := CallAll(first.device, cmds[1..]);
      (rest.0, [first.ok] + rest.1)
  }

  /** However many calls it receives, the simulated controller stays simulated
      and never reports success. */
  lemma {:induction false} SimulatedNeverSucceeds(cmds: seq<Command>)
    ensures CallAll(Simulated, cmds).0 == Simulated
    ensures forall k :: 0 <= k < |cmds| ==> !CallAll(Simulated, cmds).1[k]
    decreases |cmds|
  {
    if |cmds| > 0 {
      SimulatedNeverSucceeds(cmds[1..]);
    }
  }

}
