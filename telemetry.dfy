/**
 * The telemetry codec of the FUOTA application: the integer-only fixed-point
 * conversions and the 12-byte big-endian uplink frame written by
 * `pack_sensor_payload`, together with the decoder a receiver uses to read it back.
 */
module Telemetry {
  import opened Basics
  import opened FixedWidth
  import opened SensorTypes

  /** 2^31, the denominator of a Q31 fixed-point value. */
  const Q31_ONE: int := 0x8000_0000

  /**
   * `(int16_t)(((int64_t)raw * 1000) / 2147483648LL)`: a Q31 reading scaled to
   * thousandths. The product is formed in 64 bits and the quotient truncates, so the
   * result is the integer part of raw * 1000 / 2^31 and always fits an int16.
   */
  function Q31ToMilli(raw: int32): (r: int16)
    ensures -1000 <= r <= 999
    ensures raw >= 0 ==> r * Q31_ONE <= raw * 1000 < (r + 1) * Q31_ONE
    ensures raw < 0 ==> (r - 1) * Q31_ONE < raw * 1000 <= r * Q31_ONE
  {
    var product: int64 := raw * 1000;
    var q := CDiv(product, Q31_ONE);
    assert -1000 <= q <= 999;
    WrapInt16(q)
  }

  /**
   * `(int16_t)(v.val1 * 1000 + v.val2 / 1000)`: a sensor value in thousandths. The
   * sum is a 32-bit `int` expression; the cast to int16 wraps and never saturates.
   */
  function AccelToMilli(v: SensorValue): (r: int16)
    ensures (v.val1 * 1000 + CDiv(v.val2, 1000) - r) % 0x1_0000 == 0
    ensures -0x8000 <= v.val1 * 1000 + CDiv(v.val2, 1000) < 0x8000 ==>
              r == v.val1 * 1000 + CDiv(v.val2, 1000)
  {
    WrapInt16AfterWrapInt32(v.val1 * 1000 + CDiv(v.val2, 1000));
    WrapInt16(WrapInt32(v.val1 * 1000 + CDiv(v.val2, 1000)))
  }

  /** A reading outside the int16 range aliases to an unrelated value instead of clamping. */
  lemma AccelCastWraps()
    ensures AccelToMilli(SensorValue(40, 0)) == -25536
    ensures AccelToMilli(SensorValue(-40, 0)) == 25536
  {
    WrapInt16AfterWrapInt32(40000);
    WrapInt16AfterWrapInt32(-40000);
  }

  /** The micro-unit part truncates toward zero: -0.0015 becomes -1 thousandth, not -2. */
  lemma AccelFractionTruncates()
    ensures AccelToMilli(SensorValue(0, -1500)) == -1
  {
    assert CDiv(-1500, 1000) == -1;
  }

  /** 9.810999 m/s^2 becomes 9810 thousandths: the sub-thousandth digits are dropped. */
  lemma AccelFractionDropsMicros()
    ensures AccelToMilli(SensorValue(9, 810999)) == 9810
  {
    assert CDiv(810999, 1000) == 810;
  }

  // ---------------------------------------------------------------- the frame

  /** The six already-converted 16-bit fields `pack_sensor_payload` writes. */
  datatype Frame = Frame(tempX100: int16, humX100: uint16, pressX10: uint16,
                         accelX: int16, accelY: int16, accelZ: int16)

  const FRAME_SIZE: nat := 12

  /**
   * `(uint8_t)(v >> 8)`: on the firmware's targets `>>` of a negative value is
   * arithmetic. For any 16-bit field it is the upper byte of the field's 16-bit
   * two's-complement pattern.
   */
  function HighByte(v: int): (r: uint8)
    ensures -0x8000 <= v < 0x1_0000 ==> r == (v % 0x1_0000) / 0x100
  {
    (v / 0x100) % 0x100
  }

  /**
   * `(uint8_t)(v & 0xFF)` on a two's-complement value: the low eight bits, which for a
   * 16-bit field are the lower byte of its 16-bit pattern.
   */
  function LowByte(v: int): (r: uint8)
    ensures (v - r) % 0x100 == 0
    ensures -0x8000 <= v < 0x1_0000 ==> r == (v % 0x1_0000) % 0x100
  {
    v % 0x100
  }

  /** Two bytes, high byte first, read back as an unsigned 16-bit value. */
  function BeUnsigned(hi: uint8, lo: uint8): uint16 {
    hi * 0x100 + lo
  }

  /** Two bytes, high byte first, read back as a two's-complement 16-bit value. */
  function BeSigned(hi: uint8, lo: uint8): int16 {
    var u := BeUnsigned(hi, lo);
    if u >= 0x8000 then u - 0x1_0000 else u
  }

  lemma UnsignedRoundTrip(v: uint16)
    ensures BeUnsigned(HighByte(v), LowByte(v)) == v
  {
  }

  lemma SignedRoundTrip(v: int16)
    ensures BeSigned(HighByte(v), LowByte(v)) == v
  {
    var q, r := v / 0x100, v % 0x100;
    assert v == q * 0x100 + r;
    if v < 0 {
      assert -0x80 <= q < 0;
      assert HighByte(v) == q + 0x100;
      assert BeUnsigned(HighByte(v), LowByte(v)) == v + 0x1_0000;
    } else {
      assert 0 <= q < 0x80;
      assert HighByte(v) == q;
    }
  }

  lemma BytesRoundTripUnsigned(hi: uint8, lo: uint8)
    ensures HighByte(BeUnsigned(hi, lo)) == hi && LowByte(BeUnsigned(hi, lo)) == lo
  {
    var u := BeUnsigned(hi, lo);
    assert u / 0x100 == hi && u % 0x100 == lo;
  }

  lemma BytesRoundTripSigned(hi: uint8, lo: uint8)
    ensures HighByte(BeSigned(hi, lo)) == hi && LowByte(BeSigned(hi, lo)) == lo
  {
    var s := BeSigned(hi, lo);
    if hi >= 0x80 {
      assert s == (hi - 0x100) * 0x100 + lo;
      assert s / 0x100 == hi - 0x100 && s % 0x100 == lo;
    } else {
      assert s == hi * 0x100 + lo;
      assert s / 0x100 == hi && s % 0x100 == lo;
    }
  }

  /** One field in network order. */
  function Be16(v: int): seq<uint8> {
    [HighByte(v), LowByte(v)]
  }

  /** The frame as `pack_sensor_payload` lays it out in payload[0..11]. */
  function Encode(f: Frame): (b: seq<uint8>)
    ensures |b| == FRAME_SIZE
  {
    Be16(f.tempX100) + Be16(f.humX100) + Be16(f.pressX10) +
    Be16(f.accelX) + Be16(f.accelY) + Be16(f.accelZ)
  }

  datatype FrameError = FrameLengthError(length: nat)

  /** The receiver's reading of an uplink: refuses anything but exactly 12 bytes. */
  function Decode(b: seq<uint8>): (r: Result<Frame, FrameError>)
    ensures r.Err? <==> |b| != FRAME_SIZE
    ensures r.Err? ==> r.error == FrameLengthError(|b|)
  {
    if |b| != FRAME_SIZE then Err(FrameLengthError(|b|))
    else Ok(Frame(BeSigned(b[0], b[1]), BeUnsigned(b[2], b[3]), BeUnsigned(b[4], b[5]),
                  BeSigned(b[6], b[7]), BeSigned(b[8], b[9]), BeSigned(b[10], b[11])))
  }

  /** Field i of the frame, in wire order: temperature, humidity, pressure, accel x, y, z. */
  function Field(f: Frame, i: nat): int
    requires i < 6
  {
    match i
    case 0 => f.tempX100
    case 1 => f.humX100
    case 2 => f.pressX10
    case 3 => f.accelX
    case 4 => f.accelY
    case _ => f.accelZ
  }

  /** Humidity and pressure are unsigned fields; the other four are signed. */
  predicate SignedField(i: nat) {
    i != 1 && i != 2
  }

  /**
   * Bytes 2i and 2i+1 hold field i high byte first: read as a 16-bit value of the
   * field's signedness they give the field back, and read as unsigned they give its
   * two's-complement bit pattern.
   */
  lemma FieldLayout(f: Frame, i: nat)
    requires i < 6
    ensures var b := Encode(f);
      && (if SignedField(i) then BeSigned(b[2 * i], b[2 * i + 1]) else BeUnsigned(b[2 * i], b[2 * i + 1])) == Field(f, i)
      && BeUnsigned(b[2 * i], b[2 * i + 1]) == Field(f, i) % 0x1_0000
  {
    var v := Field(f, i);
    EncodeAt(f, i);
    if SignedField(i) {
      SignedRoundTrip(v);
      var u := BeUnsigned(HighByte(v), LowByte(v));
      assert u == v || u == v + 0x1_0000;
    } else {
      UnsignedRoundTrip(v);
    }
  }

  lemma EncodeAt(f: Frame, i: nat)
    requires i < 6
    ensures Encode(f)[2 * i] == HighByte(Field(f, i)) && Encode(f)[2 * i + 1] == LowByte(Field(f, i))
  {
    var b := Encode(f);
    if i == 0 { assert b[0] == HighByte(f.tempX100) && b[1] == LowByte(f.tempX100); }
    else if i == 1 { assert b[2] == HighByte(f.humX100) && b[3] == LowByte(f.humX100); }
    else if i == 2 { assert b[4] == HighByte(f.pressX10) && b[5] == LowByte(f.pressX10); }
    else if i == 3 { assert b[6] == HighByte(f.accelX) && b[7] == LowByte(f.accelX); }
    else if i == 4 { assert b[8] == HighByte(f.accelY) && b[9] == LowByte(f.accelY); }
    else { assert b[10] == HighByte(f.accelZ) && b[11] == LowByte(f.accelZ); }
  }

  /** Decoding an encoded frame gives every field back exactly. */
  lemma DecodeEncode(f: Frame)
    ensures Decode(Encode(f)) == Ok(f)
  {
    SignedRoundTrip(f.tempX100);
    UnsignedRoundTrip(f.humX100);
    UnsignedRoundTrip(f.pressX10);
    SignedRoundTrip(f.accelX);
    SignedRoundTrip(f.accelY);
    SignedRoundTrip(f.accelZ);
  }

  /** Every 12-byte sequence is the encoding of the frame it decodes to. */
  lemma EncodeDecode(b: seq<uint8>)
    requires |b| == FRAME_SIZE
    ensures Decode(b).Ok? && Encode(Decode(b).value) == b
  {
    BytesRoundTripSigned(b[0], b[1]);
    BytesRoundTripUnsigned(b[2], b[3]);
    BytesRoundTripUnsigned(b[4], b[5]);
    BytesRoundTripSigned(b[6], b[7]);
    BytesRoundTripSigned(b[8], b[9]);
    BytesRoundTripSigned(b[10], b[11]);
    assert Encode(Decode(b).value) == b;
  }

  /** Distinct readings never share a frame. */
  lemma EncodeInjective(f: Frame, g: Frame)
    requires Encode(f) == Encode(g)
    ensures f == g
  {
    DecodeEncode(f);
    DecodeEncode(g);
  }

  /**
   * The three environment fields under the names `pack_sensor_payload` packs. The
   * integer conversions compute thousandths under other names, so these are inputs.
   */
  datatype EnvFields = EnvFields(tempX100: int16, humX100: uint16, pressX10: uint16)

  /** The frame `pack_sensor_payload` builds from the environment fields and an accelerometer sample. */
  function SensorFrame(env: EnvFields, accel: AccelSample): Frame {
    Frame(env.tempX100, env.humX100, env.pressX10,
          AccelToMilli(accel.x), AccelToMilli(accel.y), AccelToMilli(accel.z))
  }

  /**
   * Bytes 6..11 of the packed frame are the three axes in thousandths, each converted
   * with the truncating division and the wrapping cast, high byte first; bytes 0..5
   * are the environment fields.
   */
  lemma SensorFrameBytes(env: EnvFields, accel: AccelSample)
    ensures Encode(SensorFrame(env, accel))[6..] ==
            Be16(AccelToMilli(accel.x)) + Be16(AccelToMilli(accel.y)) + Be16(AccelToMilli(accel.z))
    ensures Encode(SensorFrame(env, accel))[..6] ==
            Be16(env.tempX100) + Be16(env.humX100) + Be16(env.pressX10)
  {
    var b := Encode(SensorFrame(env, accel));
    assert b[6..] == b[6..8] + b[8..10] + b[10..];
    assert b[..6] == b[..2] + b[2..4] + b[4..6];
  }

  /**
   * `pack_sensor_payload`: converts the three axes to thousandths, writes the twelve
   * bytes of the frame into the caller's buffer, touches nothing past them, and
   * returns 12.
   */
  method PackSensorPayload(env: EnvFields, accel: AccelSample, payload: array<uint8>) returns (n: int)
    requires payload.Length >= FRAME_SIZE
    modifies payload
    ensures n == FRAME_SIZE
    ensures payload[..FRAME_SIZE] == Encode(SensorFrame(env, accel))
    ensures payload[FRAME_SIZE..] == old(payload[FRAME_SIZE..])
  {
    var accelX1000 := AccelToMilli(accel.x);
    var accelY1000 := AccelToMilli(accel.y);
    var accelZ1000 := AccelToMilli(accel.z);
    payload[0] := HighByte(env.tempX100);
    payload[1] := LowByte(env.tempX100);
    payload[2] := HighByte(env.humX100);
    payload[3] := LowByte(env.humX100);
    payload[4] := HighByte(env.pressX10);
    payload[5] := LowByte(env.pressX10);
    payload[6] := HighByte(accelX1000);
    payload[7] := LowByte(accelX1000);
    payload[8] := HighByte(accelY1000);
    payload[9] := LowByte(accelY1000);
    payload[10] := HighByte(accelZ1000);
    payload[11] := LowByte(accelZ1000);
    assert payload[..FRAME_SIZE] == Encode(SensorFrame(env, accel));
    return 12;
  }

  /** A worked frame: 24.43 °C, 38.68 %, 1013.4, and accelerations 0.010, -0.005, 9.810. */
  lemma ExampleFrame()
    ensures Encode(Frame(2443, 3868, 10134, 10, -5, 9810)) ==
            [0x09, 0x8B, 0x0F, 0x1C, 0x27, 0x96, 0x00, 0x0A, 0xFF, 0xFB, 0x26, 0x52]
  {
  }
}
