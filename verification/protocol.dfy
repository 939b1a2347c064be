/** The packet decoder of server.hpp: a raw payload is a motion packet, a macro
    packet or neither, and its bit fields become drive percents, actuator
    motions, a macro code, a pressed bit and an optional data byte. Encoders
    for both shapes state the wire format from the other side. */
module Protocol {

  import opened Arith
  import opened Types

  /** One payload byte, taken as unsigned (plain `char` signedness is left out). */
  type Byte = bv8

  /** Bit k of a byte, bit 0 being the least significant. */
  predicate Bit(b: Byte, k: nat)
    requires k < 8
  {
    (b >> k) & 1 == 1
  }

  /** The weight bit k contributes to an unsigned field. */
  function BitValue(b: Byte, k: nat): nat
    requires k < 8
  {
    if Bit(b, k) then 1 else 0
  }

  // ---------------------------------------------------------------------------
  // Actuator motion from a pair of trigger bits
  // ---------------------------------------------------------------------------

  /** `getActuatorMotion(a, b)`: NONE when the bits agree, RETRACTING for
      (0,1) and EXTENDING for (1,0). */
  function GetActuatorMotion(a: bool, b: bool): (m: ActuatorMotion)
    ensures m == None <==> a == b
    ensures m == Extending <==> a && !b
    ensures m == Retracting <==> !a && b
  {
    if a == b then None
    else if !a && b then Retracting
    else Extending
  }

  /** The trigger pair a client sends for a motion. */
  function MotionBits(m: ActuatorMotion): (bool, bool)
  {
    match m
    case None => (false, false)
    case Extending => (true, false)
    case Retracting => (false, true)
  }

  /** Every motion has a trigger pair that decodes back to it. */
  lemma MotionBitsRoundTrip(m: ActuatorMotion)
    ensures GetActuatorMotion(MotionBits(m).0, MotionBits(m).1) == m
  {
  }

  // ---------------------------------------------------------------------------
  // Motion packet fields
  // ---------------------------------------------------------------------------

  /** A motion payload's first byte has bit 7 clear; a macro payload's has it
      set. */
  const SHAPE_MASK: Byte := 0x80

  /** `triggers[i]`, read with the mask 0b01000000 shifted right i times. */
  predicate Trigger(b0: Byte, i: nat)
    requires i < 4
  {
    b0 & (0x40 >> i) != 0
  }

  /** The four trigger bits of a motion payload's first byte:
      [left bumper, right bumper, left trigger, right trigger]. */
  function Triggers(b0: Byte): (t: seq<bool>)
    ensures |t| == 4
    ensures forall i :: 0 <= i < 4 ==> t[i] == Bit(b0, 6 - i)
  {
    seq(4, i requires 0 <= i < 4 => Trigger(b0, i))
  }

  /** One side's drive field: a sign bit and a three-bit magnitude. */
  datatype DriveField = DriveField(negative: bool, magnitude: nat)

  /** The left field of the second byte: sign in bit 7, magnitude in bits 6..4. */
  function LeftField(b1: Byte): (f: DriveField)
    ensures f.negative == Bit(b1, 7)
    ensures f.magnitude == 4 * BitValue(b1, 6) + 2 * BitValue(b1, 5) + BitValue(b1, 4)
  {
    DriveField(b1 & 0x80 != 0, ((b1 & 0x70) >> 4) as nat)
  }

  /** The right field of the second byte: sign in bit 3, magnitude in bits 2..0. */
  function RightField(b1: Byte): (f: DriveField)
    ensures f.negative == Bit(b1, 3)
    ensures f.magnitude == 4 * BitValue(b1, 2) + 2 * BitValue(b1, 1) + BitValue(b1, 0)
  {
    DriveField(b1 & 0x08 != 0, (b1 & 0x07) as nat)
  }

  /** A field the wire format can carry. */
  predicate ValidField(f: DriveField) {
    f.magnitude < 8
  }

  /** The raw content of a motion payload. */
  datatype MotionFields = MotionFields(triggers: seq<bool>, left: DriveField, right: DriveField)

  predicate ValidMotionFields(f: MotionFields) {
    |f.triggers| == 4 && ValidField(f.left) && ValidField(f.right)
  }

  /** The fields of a two-byte motion payload. */
  function MotionFieldsOf(b0: Byte, b1: Byte): (f: MotionFields)
    ensures ValidMotionFields(f)
  {
    MotionFields(Triggers(b0), LeftField(b1), RightField(b1))
  }

  // ---------------------------------------------------------------------------
  // Drive percents
  // ---------------------------------------------------------------------------

  /** 14.28 * 0.25 = 3.57 in hundredths: the left side's scale factor. */
  const LEFT_SCALE: nat := 357

  /** 14.28 * 0.75 = 10.71 in hundredths: the right side's scale factor. */
  const RIGHT_SCALE: nat := 1071

  /** The signed magnitude, before scaling. */
  function Signed(f: DriveField): int {
    if f.negative then -(f.magnitude as int) else f.magnitude as int
  }

  /** A drive percent: the signed magnitude times scale / 100, truncated toward
      zero as the conversion of the double product back to int does. */
  function DrivePercent(f: DriveField, scale: nat): (p: int)
    ensures f.magnitude == 0 ==> p == 0
    ensures !f.negative ==> 0 <= p && p * 100 <= f.magnitude * scale < (p + 1) * 100
    ensures f.negative ==> p <= 0 && -p * 100 <= f.magnitude * scale < (-p + 1) * 100
  {
    TruncDiv(Signed(f) * scale, 100)
  }

  function LeftPercent(f: DriveField): int {
    DrivePercent(f, LEFT_SCALE)
  }

  function RightPercent(f: DriveField): int {
    DrivePercent(f, RIGHT_SCALE)
  }

  /** The percents a carried field can produce lie in [-24, 24] on the left and
      [-74, 74] on the right, inside the [-100, 100] the controller documents,
      and the sign bit only matters for a non-zero magnitude. */
  lemma PercentBounds(f: DriveField)
    requires ValidField(f)
    ensures -24 <= LeftPercent(f) <= 24
    ensures -74 <= RightPercent(f) <= 74
    ensures LeftPercent(f) < 0 <==> f.negative && f.magnitude > 0
    ensures RightPercent(f) < 0 <==> f.negative && f.magnitude > 0
  {
  }

  /** Distinct magnitudes give distinct percents on each side, so a percent
      determines the magnitude, and the sign too unless the magnitude is 0. */
  lemma PercentDeterminesField(f: DriveField, g: DriveField)
    requires ValidField(f) && ValidField(g)
    ensures LeftPercent(f) == LeftPercent(g) <==> Signed(f) == Signed(g)
    ensures RightPercent(f) == RightPercent(g) <==> Signed(f) == Signed(g)
  {
  }

  // ---------------------------------------------------------------------------
  // Decoded packets
  // ---------------------------------------------------------------------------

  /** `MotionPacketData`, without the raw copies of the payload. */
  datatype MotionPacketData = MotionPacketData(
    leftDrivePercent: int,
    rightDrivePercent: int,
    actuator1: ActuatorMotion,
    actuator2: ActuatorMotion)

  /** `MacroPacketData`, without the raw copies; the code is kept as a number
      because only codes 0 to 10 have names. */
  datatype MacroPacketData = MacroPacketData(macroCode: nat, pressed: bool, data: nat)

  /** What the decoder hands to its callbacks: a motion packet, a macro packet,
      or no callback at all. */
  datatype Packet = Motion(motion: MotionPacketData) | Macro(macro: MacroPacketData) | NoCallback

  /** The motion command carried by a set of motion fields: actuator 1 from
      (left trigger, left bumper), actuator 2 from (right trigger, right
      bumper). */
  function MotionCommand(f: MotionFields): MotionPacketData
    requires |f.triggers| == 4
  {
    MotionPacketData(
      LeftPercent(f.left),
      RightPercent(f.right),
      GetActuatorMotion(f.triggers[2], f.triggers[0]),
      GetActuatorMotion(f.triggers[3], f.triggers[1]))
  }

  /** The macro code: bits 6..2 of the first byte. */
  function MacroCode(b0: Byte): (code: nat)
    ensures code < 32
    ensures code == (b0 as int % 128) / 4
  {
    MaskShiftValue(b0);
    ((b0 & 0x7C) >> 2) as nat
  }

  /** Masking bits 6..2 and shifting right by two is the byte modulo 128,
      divided by 4. */
  lemma MaskShiftValue(b: Byte)
    ensures ((b & 0x7C) >> 2) as int == (b as int % 128) / 4
  {
    var low := b % 128;
    assert (b & 0x7C) >> 2 == low / 4;
    assert (low / 4) as int == low as int / 4;
    assert low as int == b as int % 128;
  }

  /** The macro fields of a one- or two-byte payload: the code, the pressed
      bit (bit 1; bit 0 is ignored) and the second byte when there is one. */
  function MacroFieldsOf(p: seq<Byte>): (m: MacroPacketData)
    requires |p| == 1 || |p| == 2
    ensures m.macroCode == MacroCode(p[0])
    ensures m.pressed == Bit(p[0], 1)
    ensures |p| == 2 ==> m.data == p[1] as nat && m.data < 256
    ensures |p| == 1 ==> m.data == 0
  {
    MacroPacketData(MacroCode(p[0]), p[0] & 0x02 != 0, if |p| == 2 then p[1] as nat else 0)
  }

  /** The decoding part of `onMessage`: a two-byte payload with bit 7 of its
      first byte clear is a motion packet, a one- or two-byte payload with it
      set is a macro packet, and nothing else reaches a callback. */
  function Decode(p: seq<Byte>): (r: Packet)
    ensures r.Motion? ==> |p| == 2 && r.motion == MotionCommand(MotionFieldsOf(p[0], p[1]))
    ensures r.Macro? ==> (|p| == 1 || |p| == 2) && r.macro == MacroFieldsOf(p)
  {
    if |p| == 2 && p[0] & SHAPE_MASK == 0 then
      Motion(MotionCommand(MotionFieldsOf(p[0], p[1])))
    else if (|p| == 1 || |p| == 2) && p[0] & SHAPE_MASK != 0 then
      Macro(MacroFieldsOf(p))
    else
      NoCallback
  }

  /** The shape mask reads bit 7. */
  lemma ShapeMaskIsBit7(b: Byte)
    ensures b & SHAPE_MASK != 0 <==> Bit(b, 7)
  {
  }

  /** Classification by length and bit 7 of the first byte. A one-byte payload
      with bit 7 clear reaches no callback either. */
  lemma Classification(p: seq<Byte>)
    ensures Decode(p).Motion? <==> |p| == 2 && !Bit(p[0], 7)
    ensures Decode(p).Macro? <==> (|p| == 1 || |p| == 2) && Bit(p[0], 7)
    ensures Decode(p).NoCallback? <==> |p| == 0 || |p| >= 3 || (|p| == 1 && !Bit(p[0], 7))
  {
    if |p| > 0 {
      ShapeMaskIsBit7(p[0]);
    }
  }

  // ---------------------------------------------------------------------------
  // Encoders and round trips
  // ---------------------------------------------------------------------------

  function Flag(b: bool, mask: Byte): Byte {
    if b then mask else 0
  }

  /** The first byte of a motion payload: bit 7 clear, triggers in bits 6..3,
      bits 2..0 clear. */
  function EncodeTriggers(t: seq<bool>): Byte
    requires |t| == 4
  {
    Flag(t[0], 0x40) | Flag(t[1], 0x20) | Flag(t[2], 0x10) | Flag(t[3], 0x08)
  }

  /** The second byte of a motion payload. */
  function EncodeDrive(left: DriveField, right: DriveField): Byte
    requires ValidField(left) && ValidField(right)
  {
    Flag(left.negative, 0x80) | ((left.magnitude as bv8) << 4)
    | Flag(right.negative, 0x08) | (right.magnitude as bv8)
  }

  function EncodeMotion(f: MotionFields): (p: seq<Byte>)
    requires ValidMotionFields(f)
    ensures |p| == 2
  {
    [EncodeTriggers(f.triggers), EncodeDrive(f.left, f.right)]
  }

  /** Encoding motion fields and reading them back gives the same fields, and
      the payload is classified as a motion packet. */
  lemma MotionRoundTrip(f: MotionFields)
    requires ValidMotionFields(f)
    ensures var p := EncodeMotion(f);
            Decode(p).Motion? && MotionFieldsOf(p[0], p[1]) == f
  {
    var p := EncodeMotion(f);
    TriggersRoundTrip(f.triggers);
    DriveRoundTrip(f.left, f.right);
    assert MotionFieldsOf(p[0], p[1]).triggers == f.triggers;
  }

  lemma TriggersRoundTrip(t: seq<bool>)
    requires |t| == 4
    ensures Triggers(EncodeTriggers(t)) == t
    ensures EncodeTriggers(t) & SHAPE_MASK == 0
  {
    var b := EncodeTriggers(t);
    forall i | 0 <= i < 4
      ensures Triggers(b)[i] == t[i]
    {
      assert Bit(b, 6 - i) == t[i];
    }
  }

  lemma DriveRoundTrip(left: DriveField, right: DriveField)
    requires ValidField(left) && ValidField(right)
    ensures LeftField(EncodeDrive(left, right)) == left
    ensures RightField(EncodeDrive(left, right)) == right
  {

  }

  /** The second byte splits into the two drive fields with nothing left over:
      encoding what was read gives the byte back. */
  lemma DriveByteCovered(b1: Byte)
    ensures EncodeDrive(LeftField(b1), RightField(b1)) == b1
  {
  }

  /** The first byte of a motion payload loses exactly its bits 2..0: encoding
      what was read gives the byte with those bits cleared. */
  lemma TriggerByteLosesLowBits(b0: Byte)
    requires !Bit(b0, 7)
    ensures EncodeTriggers(Triggers(b0)) == b0 & 0x78
  {
  }

  /** So the decoded command does not depend on bits 2..0 of the first byte. */
  lemma LowBitsIgnored(b0: Byte, b1: Byte)
    ensures Decode([b0, b1]).Motion? ==> Decode([b0, b1]) == Decode([b0 & 0xF8, b1])
  {
    assert Triggers(b0) == Triggers(b0 & 0xF8);
  }

  /** A macro payload: bit 7 set, the code in bits 6..2, pressed in bit 1,
      and the data byte when there is one. */
  function EncodeMacro(code: nat, pressed: bool, data: seq<Byte>): (p: seq<Byte>)
    requires code < 32 && |data| <= 1
  {
    [SHAPE_MASK | ((code as bv8) << 2) | Flag(pressed, 0x02)] + data
  }

  /** Encoding a macro request and decoding it gives the code, the pressed bit
      and the data back, with 0 standing in for a missing data byte. */
  lemma MacroRoundTrip(code: nat, pressed: bool, data: seq<Byte>)
    requires code < 32 && |data| <= 1
    ensures Decode(EncodeMacro(code, pressed, data))
         == Macro(MacroPacketData(code, pressed, if |data| == 1 then data[0] as nat else 0))
  {

  }

  // ---------------------------------------------------------------------------
  // Worked examples
  // ---------------------------------------------------------------------------

  /** [0b00000000, 0b00000101]: no triggers, left magnitude 0, right magnitude
      5 forward, which scales to 53. */
  lemma ExampleMotion()
    ensures Decode([0x00, 0x05]) == Motion(MotionPacketData(0, 53, None, None))
  {
  }

  /** [0b10000101]: macro code 1 (cancel), not pressed, no data. */
  lemma ExampleMacro()
    ensures Decode([0x85]) == Macro(MacroPacketData(1, false, 0))
  {
  }

}
