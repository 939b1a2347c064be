# Manual-control path of the Jetson Nano robot server, in Dafny

This project models the manual-control path of a robot controlled over a websocket. A remote client streams one- and two-byte packets:

- **Decoder** (server.hpp). It classifies each payload as a motion packet, a macro packet or neither. It reads four trigger bits, two sign/magnitude drive fields, a five-bit macro code, a pressed bit and an optional data byte. It scales the magnitudes into drive percents and turns pairs of trigger bits into actuator motions.
- **Dispatch** (server.cpp). It turns each payload into calls on the global motor controller: set the drive percents, write the relay output and set the actuators. A one-byte macro packet changes nothing. Every other payload, the `"stop-listening"` sentinel and a disconnect all call `stopMovement`.
- **Motor abstraction** (motor.hpp, and the earlier motor.h):
  - A PWM drive motor maps a percent to a duty cycle with integer arithmetic.
  - An actuator is a two-pin state machine. Extend and retract are gated by limit-switch flags, and `setMotion` follows a 2-bit truth table.
  - The controller gates manual commands on two disable flags and has an early-return `stopMovement`.
  - A simulated controller answers false to every call.

All state is immutable and every operation is a pure function. Hardware writes are modelled as updates to records:

- the pin levels A/B of each actuator and its two permission flags;
- the last duty cycle written to each drive channel;
- the relay level and whether the server still listens;
- the two disable flags.

Modules:

| file | module | models |
|---|---|---|
| types.dfy | `Types` | the `ActuatorMotion` enumeration (NONE, EXTENDING, RETRACTING); its header types.hpp is not part of this model |
| arith.dfy | `Arith` | C++ truncating integer division |
| motor.dfy | `Motor` | src/motor.hpp: `PWMDriveMotor`, `Actuator`, `MotorController`, `SimulatedMotorController`, the startup choice between them |
| motor_legacy.dfy | `MotorLegacy` | src/motor.h: namespace-level constants, `DriveMotor::setPercent`, the flag-only limit-switch step |
| protocol.dfy | `Protocol` | src/server.hpp: `getActuatorMotion` and the decoding part of `TCPServerHandler::onMessage`, plus encoders for both packet shapes |
| dispatch.dfy | `Dispatch` | src/server.cpp: `onMessage` and `on_disconnect` |

Some constants and scales are computed in `double` in the source. The model uses exact integers for them:

- `STOP_PWM = 0.0015 * 150 * 256 = 57.6` is stored in an `int` as 57.
- `NUM_PARTITIONS = 0.0005 * 150 * 256 = 19.2` is stored as 19.
- The drive scales are 14.28 · 0.25 = 3.57 and 14.28 · 0.75 = 10.71. They become `trunc(signed * 357 / 100)` and `trunc(signed * 1071 / 100)`. This is exact for magnitudes 0..7: 357 and 1071 are coprime to 100, so no non-zero product lies on an integer, and the rounding error of the doubles cannot change the truncation.

Points where the code does less than its own comments and names suggest:

- **No clamping or smoothing.** `setPercent` takes any `int`, although the interface comment gives the range as `[-100, 100]` (src/motor.hpp:225). The field commented "Previous PWM value" (src/motor.hpp:43) is never read, so a new percent replaces the old one outright (`Motor.NoClamping`, `Motor.SetPercentForgetsHistory`).
- **Early-return `stopMovement`.** The controller's `stopMovement` returns false at once while drive is disabled, leaving the actuators alone too (`Motor.StopMovement`).
- **Macro codes 0..31.** The comment at src/server.hpp:175 reads `0 < macroCode < 23`, but the code extracts five bits, so any code from 0 to 31 arrives (`Protocol.MacroCode`).
- **Two different macro-packet rules.** server.cpp accepts only one-byte macro packets. A two-byte payload with bit 7 set is a macro to the decoder of server.hpp, but server.cpp stops the robot on it (`Dispatch.TwoByteMacroStops`).
- **One-byte payloads with bit 7 clear.** Besides empty payloads and payloads of three or more bytes, a one-byte payload with bit 7 clear also reaches no callback in the decoder (`Protocol.Classification`).

Two results hold in this build. The limit-switch thread of motor.hpp is commented out, so both actuator permission flags keep their initial `false`. Every extend and retract request is therefore refused, and from startup no history of payloads, disconnects and reconnecting clients on the global controller ever energises an actuator (`Dispatch.ActuatorsNeverEnergised`). The drive channels stay in [53, 61] on the left and [43, 71] on the right.

## Model

| member | source | states |
|---|---|---|
| Arith.TruncDiv | src/motor.hpp:77 | C++ `/` truncates toward zero: for a non-negative dividend the quotient q satisfies q·d ≤ a < (q+1)·d, and symmetrically for a negative one |
| Arith.TruncDivNegate | src/motor.hpp:77 | truncating division is odd: trunc(-a/d) = -trunc(a/d) |
| Arith.TruncDivMonotone | src/motor.hpp:77 | truncating division by a positive divisor is monotone |
| Motor.DutyCycle | src/motor.hpp:77-78 | with STOP_PWM = 57 and NUM_PARTITIONS = 19 (lines 39-41), the duty cycle is 57 plus percent·19/100 truncated toward zero, stated by its bounds on each side of zero |
| Motor.NewDriveMotor | src/motor.hpp:46-63 | the constructor writes the same duty cycle as setPercent(0) |
| Motor.ReleaseDriveMotor | src/motor.hpp:65-73 | the destructor writes the stop value again, whatever was running |
| Motor.SetPercent | src/motor.hpp:75-85 | setPercent writes DutyCycle(percent); the channel returns to the stop value exactly for percents in [-5, 5] (the truncation's dead band) |
| Motor.SetPercentForgetsHistory | src/motor.hpp:43 | no debounce: the new state does not depend on the previous one (`prevPWM` is never read), so repeating a percent is a no-op on the state |
| Motor.DutyCycleMonotone | src/motor.hpp:75-78 | the duty cycle is monotone non-decreasing in the percent |
| Motor.DutyCycleAntisymmetric | src/motor.hpp:75-78 | the duty cycle is antisymmetric about 57 |
| Motor.DutyCycleRange | src/motor.hpp:225 | over the documented range [-100, 100] the duty cycle lies in [38, 76] and reaches both ends |
| Motor.NoClamping | src/motor.hpp:75-85 | percents outside [-100, 100] are not clamped: 150 writes 85 and -150 writes 29 |
| Motor.NewActuator | src/motor.hpp:96-100 | a new actuator has both permission flags false and its outputs stopped |
| Motor.Extend | src/motor.hpp:161-173 | extend succeeds iff canExtend holds, then drives (A,B) = (0,1) (direction Extending); otherwise it returns false with the state unchanged; the flags never change |
| Motor.Retract | src/motor.hpp:176-188 | retract succeeds iff canRetract holds, then ends at (1,0) (direction Retracting); otherwise false with the state unchanged; the intermediate state after the first write is stated by Motor.RetractPassesThroughBothHigh |
| Motor.Stop | src/motor.hpp:190-194 | stopMovement sets both outputs low (no motion) whatever the flags, and keeps the flags |
| Motor.SetMotion | src/motor.hpp:196-219 | truth table: (1,0) extends iff canExtend, (0,1) retracts iff canRetract, (0,0) and (1,1) stop and return true; a refusal leaves the state unchanged |
| Motor.ActuatorOpsPreserveSafe | src/motor.hpp:161-219 | no actuator operation ends with both outputs high when they were not both high before |
| Motor.Trace | src/motor.hpp:161-194 | writes issued one by one to the actuator outputs never change the permission flags |
| Motor.WritesReachResult | src/motor.hpp:161-194 | the two writes of extend, retract and stopMovement, in source order, end in the states Motor.Extend, Motor.Retract and Motor.Stop give |
| Motor.ExtendAndStopPassSafely | src/motor.hpp:161-173 | extend and stopMovement write pin A low first, so from a safe state no intermediate state has both outputs high |
| Motor.RetractPassesThroughBothHigh | src/motor.hpp:176-188 | retract writes pin A high before pin B low, so it passes through both-high exactly when pin B was high before, as when reversing an extending actuator |
| Motor.SwitchStep | src/motor.hpp:106-118 | one limit-switch iteration: each flag is set iff its read returned 0; if either flag ends false the actuator is stopped, otherwise the pins are kept |
| Motor.LimitPreemptsCommand | src/motor.hpp:106-118 | after a step that saw the extend (retract) limit, no setMotion can produce the output pattern extend (retract) writes |
| Motor.FreshActuatorRefuses | src/motor.hpp:99-100 | with the flags at their initial false (the switch thread is commented out), extend and retract refuse, setMotion succeeds only for (0,0) and (1,1), and the actuator stays stopped |
| Motor.NewMotorController | src/motor.hpp:263-274 | the constructed controller has everything stopped and neither disable flag set |
| Motor.SetDrivePercent | src/motor.hpp:297-309 | returns true iff drive is enabled; then both channels take DutyCycle of their percent, otherwise nothing changes; actuators and flags are untouched |
| Motor.SetActuators | src/motor.hpp:318-330 | returns true iff actuators are enabled; then each actuator gets setMotion of its pair, otherwise nothing changes; drives and flags untouched |
| Motor.SetActuatorsIgnoresRefusal | src/motor.hpp:318-330 | setActuators reports success even when an actuator's setMotion refused |
| Motor.StopMovement | src/motor.hpp:332-353 | with drive disabled: false and nothing changes, not even the actuators; otherwise the drives stop, and with actuators disabled it returns false with the actuators untouched; with neither disabled it stops everything and returns true |
| Motor.StopMovementIdempotent | src/motor.hpp:332-353 | stopping twice is the same as stopping once (state and result) |
| Motor.Call | src/motor.hpp:387-413 | the simulated controller answers false to setDrivePercent, setActuators and stopMovement and has no state; the hardware controller becomes what its own setDrivePercent, setActuators or stopMovement makes of it, and answers by its disable flags |
| Motor.SelectController | src/motor.hpp:447-461 | the simulated controller is chosen iff GPIO initialisation returned a negative code, otherwise a freshly constructed hardware controller |
| Motor.SimulatedNeverSucceeds | src/motor.hpp:387-445 | across any sequence of calls the simulated controller stays simulated and never returns true |
| MotorLegacy.NewDriveMotor | src/motor.h:38-65 | the constructor and destructor write STOP_PWM = 57 |
| MotorLegacy.SetPercent | src/motor.h:67-77 | setPercent writes 57 plus percent·19/100 truncated toward zero |
| MotorLegacy.SetPercentAgrees | src/motor.h:8-10 | the namespace-level constants give the same duty cycle as motor.hpp for every percent, and the same stop value |
| MotorLegacy.SwitchStep | src/motor.h:98-105 | one iteration only refreshes the flags (set iff the read returned 0) and never touches the pins |
| MotorLegacy.LimitDoesNotStop | src/motor.h:98-105 | an actuator showing the extend pattern keeps it after a read that clears canExtend, where the motor.hpp step clears both outputs |
| MotorLegacy.SwitchStepsAgreeOnFlags | src/motor.h:98-105 | the two variants' steps set the same flags and differ in the pins only when a limit was seen |
| MotorLegacy.RefusedUntilFirstUpdate | src/motor.h:91-92 | both flags start false, so both directions are refused before the first switch update; a step reading both switches open permits both |
| Protocol.GetActuatorMotion | src/server.hpp:107-122 | NONE iff a == b, EXTENDING iff (1,0), RETRACTING iff (0,1) |
| Protocol.MotionBitsRoundTrip | src/server.hpp:107-122 | every motion has a trigger pair that decodes back to it |
| Protocol.Triggers | src/server.hpp:139-146 | triggers[i] is bit 6-i of the first byte, for i = 0..3 |
| Protocol.LeftField | src/server.hpp:148-150 | left sign is bit 7 of the second byte, left magnitude is bits 6..4 read as an unsigned number |
| Protocol.RightField | src/server.hpp:149-151 | right sign is bit 3, right magnitude is bits 2..0 |
| Protocol.DrivePercent | src/server.hpp:153-157 | a percent is the signed magnitude times scale/100 truncated toward zero; magnitude 0 gives 0 whatever the sign |
| Protocol.PercentBounds | src/server.hpp:156-157 | left percents lie in [-24, 24] and right percents in [-74, 74]; a percent is negative iff the sign bit is set and the magnitude is non-zero |
| Protocol.PercentDeterminesField | src/server.hpp:153-157 | on each side two fields give the same percent iff they have the same signed magnitude |
| Protocol.MacroCode | src/server.hpp:175 | the macro code (byte0 & 0b01111100) >> 2 lies in [0, 31] and equals (byte0 mod 128) div 4 |
| Protocol.MaskShiftValue | src/server.hpp:175 | masking bits 6..2 of a byte and shifting right by two gives the byte modulo 128, divided by 4 |
| Protocol.MacroFieldsOf | src/server.hpp:175-183 | pressed is bit 1 of the first byte (bit 0 ignored); data is the second byte when there is one, else 0 |
| Protocol.Decode | src/server.hpp:136-189 | a motion result comes from a two-byte payload and carries the decoded percents and the actuator motions (getActuatorMotion(t[2], t[0]), getActuatorMotion(t[3], t[1])); a macro result comes from a one- or two-byte payload |
| Protocol.Classification | src/server.hpp:136-172 | motion iff length 2 and bit 7 clear; macro iff length 1 or 2 and bit 7 set; no callback iff empty, three bytes or more, or one byte with bit 7 clear |
| Protocol.MotionRoundTrip | src/server.hpp:136-165 | encoding any triggers and drive fields and reading them back gives the same fields, classified as a motion packet |
| Protocol.TriggersRoundTrip | src/server.hpp:139-146 | encoding four triggers and reading them back gives them unchanged, with bit 7 clear |
| Protocol.DriveRoundTrip | src/server.hpp:148-151 | encoding two drive fields and reading the second byte back gives them unchanged |
| Protocol.DriveByteCovered | src/server.hpp:148-151 | the four fields of the second byte cover all eight bits: re-encoding what was read gives the byte back |
| Protocol.TriggerByteLosesLowBits | src/server.hpp:139-146 | re-encoding the triggers of a motion byte gives the byte with bits 2..0 cleared |
| Protocol.LowBitsIgnored | src/server.hpp:136-165 | a motion packet's decoded command does not depend on bits 2..0 of its first byte |
| Protocol.MacroRoundTrip | src/server.hpp:172-183 | encoding a macro code, pressed bit and optional data byte and decoding gives them back, with 0 for a missing data byte |
| Protocol.ExampleMotion | src/server.hpp:136-165 | [0x00, 0x05] decodes to left 0, right 53, both actuators NONE |
| Protocol.ExampleMacro | src/server.hpp:172-183 | [0x85] decodes to macro code 1, not pressed, data 0 |
| Dispatch.NewRobot | src/server.cpp:22 | at startup the global controller is constructed with everything stopped |
| Dispatch.RelayLevel | src/server.cpp:81-88 | the relay is written high iff at least one of the four triggers is set |
| Dispatch.ApplyMotion | src/server.cpp:80-89 | the motion branch gives each drive channel the duty cycle of its scaled percent unless drive is disabled, hands each actuator setMotion with its trigger pair (t[2], t[0]) and (t[3], t[1]) unless actuators are disabled, writes the relay from the triggers whatever the flags, and keeps the flags and the listening state |
| Dispatch.OnMessage | src/server.cpp:49-114 | a one-byte macro packet changes nothing; every payload that is neither shape leaves the motors as one stopMovement and keeps the relay; listening ends iff the payload is "stop-listening"; the disable flags never change |
| Dispatch.OnDisconnect | src/server.cpp:129-133 | a disconnect leaves the motors exactly as the controller's stopMovement does, including its early return while drive is disabled, and keeps the relay and listening state; with both flags clear everything ends stopped |
| Dispatch.Run | src/server.cpp:150-153 | handling payloads in order never changes the disable flags and never resumes listening |
| Dispatch.RelayFollowsTriggerBits | src/server.cpp:81-88 | after a motion payload the relay is high iff byte0 & 0b01111000 is non-zero |
| Dispatch.DispatchAgreesWithDecoder | src/server.cpp:49-89 | on a motion payload dispatch uses the decoder's values: each drive channel gets DutyCycle of the decoded percent when drive is enabled; each actuator gets setMotion with its trigger pair when actuators are enabled, and one whose setMotion is accepted takes the output pattern of the decoded motion; disabled subsystems are untouched |
| Dispatch.SetMotionFollowsDecodedMotion | src/server.cpp:89 | whenever setMotion accepts a trigger pair, the actuator's direction is getActuatorMotion of the same pair |
| Dispatch.TwoByteMacroStops | src/server.cpp:91-105 | a two-byte payload with bit 7 set is a macro to the decoder but stops the robot here |
| Dispatch.StopListeningStopsOnce | src/server.cpp:101-114 | "stop-listening" is 14 bytes, takes the invalid branch and is stopped again; the motors end as after one stopMovement and listening ends |
| Dispatch.FailSafe | src/server.cpp:101-133 | with both disable flags clear, an invalid payload and a disconnect both leave every drive and actuator stopped |
| Dispatch.DriveDutyBands | src/server.cpp:61-80 | a decoded left percent writes a duty cycle in [53, 61], a right percent one in [43, 71] |
| Dispatch.OnMessageKeepsManualControl | src/server.cpp:49-105 | one payload keeps the flags clear, the drives in their bands and both actuators as constructed |
| Dispatch.ManualControlInvariant | src/server.cpp:49-114 | any sequence of payloads keeps that manual-control state |
| Dispatch.RunEvents | src/server.cpp:150-153 | a history of payloads and close, fail or interrupt events on the one global controller never changes the disable flags and never resumes listening |
| Dispatch.ManualControlAcrossConnections | src/server.cpp:22-153 | the manual-control state survives any interleaving of payloads and disconnects, so it carries over from one client connection to the next |
| Dispatch.ActuatorsNeverEnergised | src/server.cpp:22-153 | from startup no history of payloads, disconnects and reconnections energises an actuator or moves a drive out of its band, and a disconnect at any point stops everything |

## Left out

- Transport: the websocket and ENet servers, their setup and run loops, and all client programs. This is network plumbing. Payloads enter the model as byte sequences, and a disconnect, interrupt or fail event enters as a call of `OnDisconnect`.
- Macro execution. It does not exist in the code:
  - `doMacro` and `onMacro` are empty.
  - `cancelMacro`, `digCycle`, `dumpCycle` and `turn` only return false.
  - Nothing sets the disable flags.
  The flags are modelled as inputs, and no macro sequencing, priority or preemption is invented.
- The limit-switch thread and its concurrency. One loop iteration is modelled as a pure step, taking the two read results as parameters.
- `getMotorContoller`: it returns the address of a local. Only its choice between the two controllers is modelled (`Motor.SelectController`).
- GPIO library calls (`gpioInitialise`, `gpioSetMode`, `gpioSetPWMfrequency`, `gpioPWM`, `gpioWrite`, `gpioRead`):
  - Writes become state updates.
  - Every write (`gpioSetMode`, `gpioSetPWMfrequency`, `gpioPWM`, `gpioWrite`) is assumed to take effect. In the source, failed `gpioSetMode`, `gpioSetPWMfrequency` and `gpioPWM` calls print their error code, while `gpioWrite` results are ignored without a check or a message (src/motor.hpp:165-166, 180-181, 192-193; src/server.cpp:83, 87), so a failed actuator stop on an invalid packet or a disconnect goes unreported. When `gpioSetPWMfrequency` fails the drive-motor constructors return before writing `STOP_PWM` (src/motor.hpp:50-55, src/motor.h:42-47). Two failure results are modelled: a negative `gpioInitialise` result selects the simulated controller (`Motor.SelectController`, src/motor.hpp:449-455), and a negative `gpioRead` code clears a permission flag (`Motor.SwitchStep`).
  - Pin numbers are not modelled; outputs are named by role.
  - The constructors never write the actuator pins or the relay, so both are assumed to start low.
- Motor.NewDriveMotor: assumes `gpioSetPWMfrequency` succeeded. If it fails, the constructor returns before its `STOP_PWM` write and the channel's duty is not set. The global `MotorController motors;` (src/server.cpp:22) also builds its drive motors before its constructor body calls `initJetGpio()` (src/motor.hpp:267-273), so these first GPIO calls run before the library is initialised. The model takes the channel to start at `STOP_PWM`.
- MotorLegacy.NewDriveMotor: assumes `gpioSetPWMfrequency` succeeded, as for `Motor.NewDriveMotor` (src/motor.h:42-47).
- Motor.Retract: the function merges the two `gpioWrite` calls into one update and gives only the final state. The intermediate state, with both outputs high when B was high before, is stated separately over the write sequence by `Motor.RetractPassesThroughBothHigh`. Whether the H-bridge brakes or conducts in that state is hardware behaviour and is not modelled.
- The relay: `RELAY_PIN` (src/motor.hpp:18) is written by server.cpp:83 and 87 but never passed to `gpioSetMode`, so the pin is never set up as an output. `Dispatch.Robot.relay` records the level written, taking both writes to take effect.
- Motor.ReleaseDriveMotor: the global controller (src/server.cpp:22) is destroyed after `main` has called `gpioTerminate()` (src/server.cpp:173), so the destructor's `STOP_PWM` write (src/motor.hpp:65-73) runs after the GPIO library is shut down. The model takes it to take effect.
- Drive pin comments: src/motor.hpp:8-9 label `RIGHT_PIN` as the left drive motor and `LEFT_PIN` as the right one. The model follows the code, in which `leftDrive(LEFT_PIN)` receives the 0.25-scaled left field; which wheel is physically attached is not modelled.
- Actuator polarity: the pin comments call pin A the extension signal and pin B the retraction signal (src/motor.hpp:10-11, 91-92; src/motor.h:83-84), yet `extend` writes A low and B high (src/motor.hpp:165-166). The model follows the writes and names each pattern after the operation that writes it (`Motor.Direction`); which way the actuator physically moves is hardware behaviour and is not modelled.
- Floating point: the PWM constants and the 14.28 scales are replaced by the exact integers given above.
- Console output, `system("clear")`, bitset dumps, version strings, and the raw copies (`rawMessage`, `rawBinary`) kept in packet data.
- Plain-`char` signedness: bytes are unsigned 0..255. On a signed-char platform, a macro data byte of 128 or more would be sign-extended into a large unsigned value.
- The `Macro` enumeration: codes are kept as numbers, since only 0..10 have names and a code up to 31 can arrive. `Macro(macroCode)` (src/server.hpp:181) converts any code; the enumeration has no fixed underlying type, so its range is 0..15, and converting 16..31 is undefined behaviour since C++17. The model does not represent that conversion.
- Motor.DutyCycle: does not model 32-bit overflow of `percent * 19`, which only happens for |percent| above 113 025 455, far outside the documented [-100, 100].
- Protocol.DrivePercent: negating the unsigned magnitude wraps modulo 2^32 in the source, and converting back to `int` gives the negative value on two's-complement targets. The model uses that value directly.
- src/motor.h's `extend`, `retract`, `stopMovement` and `setMotion` are the same code as in src/motor.hpp (src/motor.h:147-205). They are modelled once, by `Motor.Extend`, `Motor.Retract`, `Motor.Stop` and `Motor.SetMotion`. The thread creation at src/motor.h:138 is replaced by single steps, as above.
- src/arduino.hpp and src/readSerial.cpp (serial I/O), src/main.cpp (glue whose disconnect handler is the same `stopMovement`), the interactive motor-control examples, examples/server/Motor.h (superseded and not compilable) and examples/server/echo-server.cpp (only prints).
