/** The earlier motor variant of motor.h. Its drive constants live at namespace
    level, and its limit-switch loop only refreshes the permission flags. Its
    `extend`, `retract`, `stopMovement` and `setMotion` are the same code as in
    motor.hpp and are modelled by the `Motor` functions of those names. */
module MotorLegacy {

  import opened Arith
  import opened Types
  import Motor

  /** PWM frequency in Hz. */
  const FREQUENCY: int := 150

  /** 0.0015 * FREQUENCY * 256 = 57.6, stored in an int as 57. */
  const STOP_PWM: int := 15 * FREQUENCY * 256 / 10000

  /** 0.0005 * FREQUENCY * 256 = 19.2, stored in an int as 19. */
  const NUM_PARTITIONS: int := 5 * FREQUENCY * 256 / 10000

  /** The constructor and the destructor of `DriveMotor` write the stop value. */
  function NewDriveMotor(): (m: Motor.DriveMotor)
    ensures m.duty == 57
  {
    Motor.DriveMotor(STOP_PWM)
  }

  /** `DriveMotor::setPercent`: STOP_PWM plus percent * NUM_PARTITIONS / 100,
      truncated toward zero. */
  function SetPercent(m: Motor.DriveMotor, percent: int): (m': Motor.DriveMotor)
    ensures percent >= 0 ==> 57 <= m'.duty && (m'.duty - 57) * 100 <= percent * 19 < (m'.duty - 57 + 1) * 100
    ensures percent <= 0 ==> m'.duty <= 57 && (57 - m'.duty) * 100 <= -percent * 19 < (57 - m'.duty + 1) * 100
  {
    Motor.DriveMotor(STOP_PWM + TruncDiv(percent * NUM_PARTITIONS, 100))
  }

  /** The two variants write the same duty cycle for every percent, and start
      and stop their channels at the same value. */
  lemma SetPercentAgrees(m: Motor.DriveMotor, percent: int)
    ensures SetPercent(m, percent) == Motor.SetPercent(m, percent)
    ensures NewDriveMotor() == Motor.NewDriveMotor()
  {
  }

  /** One iteration of this variant's limit-switch loop: the flags are
      refreshed from the reads (a flag is set exactly when its read returned 0)
      and the output pins are left alone. */
  function SwitchStep(x: Motor.Actuator, extendRead: int, retractRead: int): (y: Motor.Actuator)
    ensures y.canExtend <==> extendRead == 0
    ensures y.canRetract <==> retractRead == 0
    ensures y.aHigh == x.aHigh && y.bHigh == x.bHigh
  {
    x.(canExtend := extendRead == 0, canRetract := retractRead == 0)
  }

  /** Unlike the motor.hpp loop, reaching a limit does not clear the outputs:
      an actuator showing the `extend` pattern keeps it after a switch read
      that clears `canExtend`, while the motor.hpp step clears both outputs. */
  lemma LimitDoesNotStop()
    ensures var moving := Motor.Extend(Motor.NewActuator().(canExtend := true)).act;
            var legacy := SwitchStep(moving, 1, 0);
            var current := Motor.SwitchStep(moving, 1, 0);
            Motor.Safe(legacy) && Motor.Direction(legacy) == Extending &&
            Motor.Safe(current) && Motor.Direction(current) == None
  {
  }

  /** Once a step has run, the flags agree with the motor.hpp step; only the
      pins differ, and only when a limit was seen. */
  lemma SwitchStepsAgreeOnFlags(x: Motor.Actuator, extendRead: int, retractRead: int)
    ensures Motor.SameLimits(SwitchStep(x, extendRead, retractRead), Motor.SwitchStep(x, extendRead, retractRead))
    ensures extendRead == 0 && retractRead == 0 ==>
              SwitchStep(x, extendRead, retractRead) == Motor.SwitchStep(x, extendRead, retractRead)
  {
  }

  /** Both flags start false, so before the first switch update both
      directions are refused; a step that reads both switches open permits
      both. */
  lemma RefusedUntilFirstUpdate()
    ensures !Motor.Extend(Motor.NewActuator()).ok && !Motor.Retract(Motor.NewActuator()).ok
    ensures Motor.Extend(SwitchStep(Motor.NewActuator(), 0, 0)).ok
    ensures Motor.Retract(SwitchStep(Motor.NewActuator(), 0, 0)).ok
  {
  }

}
