/** The Robstride motor protocol: 16-bit quantisation, frames, commands and feedback. */
module RobstrideCodec {
  import opened Common

  type Byte = b: int | 0 <= b < 0x100
  type U16 = n: int | 0 <= n < 0x10000

  const PI: real := 3.14159265358979323846
  const TOP: real := 65535.0

  // ---- quantisation ----

  function Fraction(d: real, w: real): real
    requires w > 0.0
  {
    d / w
  }

  function Scaled(x: real, lo: real, hi: real): real
    requires lo < hi
  {
    Fraction(Clamp(x, lo, hi) - lo, hi - lo) * TOP
  }

  function FloatToUint16(x: real, lo: real, hi: real): (n: U16)
    requires lo < hi
  {
    ScaledInRange(x, lo, hi);
    Scaled(x, lo, hi).Floor
  }

  function Uint16ToFloat(n: U16, lo: real, hi: real): real {
    lo + Part(n as real / TOP, hi - lo)
  }

  lemma FractionIs(d: real, w: real)
    requires w > 0.0
    ensures Part(Fraction(d, w), w) == d
  {
  }

  lemma PartOrder(a: real, b: real, w: real)
    requires w > 0.0
    ensures a <= b <==> Part(a, w) <= Part(b, w)
    ensures Part(a + b, w) == Part(a, w) + Part(b, w)
  {
    if a > b {
      PartPositive(a - b, w);
    } else if a < b {
      PartPositive(b - a, w);
    }
    assert Part(b - a, w) == Part(b, w) - Part(a, w) by {
      assert (b - a) * w == b * w - a * w;
    }
    assert (a + b) * w == a * w + b * w;
  }

  lemma PartPositive(a: real, w: real)
    requires a > 0.0 && w > 0.0
    ensures Part(a, w) > 0.0
  {
  }

  lemma FractionOrder(d: real, e: real, w: real)
    requires w > 0.0
    ensures d <= e <==> Fraction(d, w) <= Fraction(e, w)
    ensures Fraction(0.0, w) == 0.0 && Fraction(w, w) == 1.0
  {
    FractionIs(d, w);
    FractionIs(e, w);
    PartOrder(Fraction(d, w), Fraction(e, w), w);
  }

  lemma ScaledInRange(x: real, lo: real, hi: real)
    requires lo < hi
    ensures 0.0 <= Scaled(x, lo, hi) <= TOP
  {
    FractionOrder(0.0, Clamp(x, lo, hi) - lo, hi - lo);
    FractionOrder(Clamp(x, lo, hi) - lo, hi - lo, hi - lo);
  }

  function Quantum(lo: real, hi: real): real {
    (hi - lo) / TOP
  }

  /** Decoding after encoding loses less than one quantum of the clamped value, always downwards,
      and nothing at either end of the range. */
  lemma DecodeEncode(x: real, lo: real, hi: real)
    requires lo < hi
    ensures Clamp(x, lo, hi) - Quantum(lo, hi) < Uint16ToFloat(FloatToUint16(x, lo, hi), lo, hi) <= Clamp(x, lo, hi)
    ensures x <= lo ==> Uint16ToFloat(FloatToUint16(x, lo, hi), lo, hi) == lo
    ensures x >= hi ==> Uint16ToFloat(FloatToUint16(x, lo, hi), lo, hi) == hi
  {
    var w, d := hi - lo, Clamp(x, lo, hi) - lo;
    var f, n := Fraction(d, w), FloatToUint16(x, lo, hi);
    FractionIs(d, w);
    ScaledInRange(x, lo, hi);
    var p := n as real / TOP;
    assert p <= f < p + 1.0 / TOP;
    PartOrder(p, f, w);
    PartOrder(p + 1.0 / TOP, f, w);
    PartOrder(p, 1.0 / TOP, w);
    assert Part(1.0 / TOP, w) == Quantum(lo, hi);
    EncodeEnds(x, lo, hi);
    DecodeEnds(lo, hi);
  }

  lemma EncodeEnds(x: real, lo: real, hi: real)
    requires lo < hi
    ensures x <= lo ==> FloatToUint16(x, lo, hi) == 0
    ensures x >= hi ==> FloatToUint16(x, lo, hi) == 65535
  {
    FractionOrder(0.0, 0.0, hi - lo);
    assert x <= lo ==> Scaled(x, lo, hi) == 0.0;
    assert x >= hi ==> Scaled(x, lo, hi) == TOP;
  }

  lemma DecodeEnds(lo: real, hi: real)
    ensures Uint16ToFloat(0, lo, hi) == lo && Uint16ToFloat(65535, lo, hi) == hi
  {
    assert Part(0.0, hi - lo) == 0.0 && Part(1.0, hi - lo) == hi - lo;
  }

  /** Every code is the encoding of the value it decodes to. */
  lemma EncodeDecode(n: U16, lo: real, hi: real)
    requires lo < hi
    ensures lo <= Uint16ToFloat(n, lo, hi) <= hi
    ensures FloatToUint16(Uint16ToFloat(n, lo, hi), lo, hi) == n
  {
    var w, p := hi - lo, n as real / TOP;
    assert 0.0 <= p <= 1.0;
    PartOrder(0.0, p, w);
    PartOrder(p, 1.0, w);
    assert Part(0.0, w) == 0.0 && Part(1.0, w) == w;
    FractionOfPart(p, w);
    assert Scaled(Uint16ToFloat(n, lo, hi), lo, hi) == p * TOP == n as real;
  }

  lemma FractionOfPart(p: real, w: real)
    requires w > 0.0
    ensures Fraction(Part(p, w), w) == p
  {
  }

  lemma EncodeMonotone(x: real, y: real, lo: real, hi: real)
    requires lo < hi && x <= y
    ensures FloatToUint16(x, lo, hi) <= FloatToUint16(y, lo, hi)
  {
    FractionOrder(Clamp(x, lo, hi) - lo, Clamp(y, lo, hi) - lo, hi - lo);
  }

  // ---- frames ----

  datatype Frame = Frame(canId: nat, data: seq<Byte>)

  const EFF_FLAG: nat := 0x8000_0000

  const COMM_MIT_CONTROL: Byte := 0x01
  const COMM_FEEDBACK: Byte := 0x02
  const COMM_ENABLE: Byte := 0x03
  const COMM_STOP: Byte := 0x04
  const COMM_SET_ZERO: Byte := 0x06
  const COMM_SET_PARAM: Byte := 0x12
  const MASTER_ID: U16 := 0xFF
  const PARAM_RUN_MODE: U16 := 0x7005
  const PARAM_IQ_REF: U16 := 0x7006
  const PARAM_SPD_REF: U16 := 0x700A
  const PARAM_LOC_REF: U16 := 0x7016

  // The fields of an extended identifier do not overlap, so joining them is a sum.
  function CanIdOf(comm: Byte, extra: U16, id: Byte): nat {
    EFF_FLAG + comm * 0x100_0000 + extra * 0x100 + id
  }

  function IsExtended(canId: nat): bool {
    canId / EFF_FLAG % 2 == 1
  }

  function CommOf(canId: nat): Byte {
    canId % 0x2000_0000 / 0x100_0000
  }

  function ExtraOf(canId: nat): U16 {
    canId % 0x2000_0000 / 0x100 % 0x10000
  }

  // The key under which a received frame is dispatched.
  function RxKey(canId: nat): Byte {
    canId / 0x100 % 0x100
  }

  lemma Body(comm: Byte, extra: U16, id: Byte, body: nat)
    requires comm < 0x20 && body == comm * 0x100_0000 + extra * 0x100 + id
    ensures CanIdOf(comm, extra, id) % 0x2000_0000 == body && IsExtended(CanIdOf(comm, extra, id))
  {
  }

  lemma BodyFields(comm: Byte, extra: U16, id: Byte, body: nat)
    requires comm < 0x20 && body == comm * 0x100_0000 + extra * 0x100 + id
    ensures body / 0x100_0000 == comm && body / 0x100 == comm * 0x10000 + extra
  {
  }

  lemma KeyField(comm: Byte, extra: U16, id: Byte)
    requires comm < 0x20
    ensures RxKey(CanIdOf(comm, extra, id)) == extra % 0x100
  {
    assert CanIdOf(comm, extra, id) / 0x100 == 0x80_0000 + comm * 0x10000 + extra;
  }

  /** Every field of an identifier put together is read back, and none of them is 0 as a whole. */
  lemma CanIdFields(comm: Byte, extra: U16, id: Byte)
    requires comm < 0x20
    ensures 0 < CanIdOf(comm, extra, id) < 0x1_0000_0000 && IsExtended(CanIdOf(comm, extra, id))
    ensures CommOf(CanIdOf(comm, extra, id)) == comm && ExtraOf(CanIdOf(comm, extra, id)) == extra
    ensures RxKey(CanIdOf(comm, extra, id)) == extra % 0x100
  {
    var body := comm * 0x100_0000 + extra * 0x100 + id;
    Body(comm, extra, id, body);
    BodyFields(comm, extra, id, body);
    KeyField(comm, extra, id);
  }

  function High(n: U16): Byte {
    n / 0x100
  }

  function Low(n: U16): Byte {
    n % 0x100
  }

  function Join(hi: Byte, lo: Byte): U16 {
    hi * 0x100 + lo
  }

  lemma JoinSplit(n: U16)
    ensures Join(High(n), Low(n)) == n
  {
  }

  // ---- commands ----

  datatype MotorType = Robstride00 | Robstride02 | Robstride05 | Unknown

  datatype Limits = Limits(position: real, velocity: real, torque: real, kp: real, kd: real)

  function GetLimits(t: MotorType): (lim: Limits)
    ensures lim.position > 0.0 && lim.velocity > 0.0 && lim.torque > 0.0 && lim.kp > 0.0 && lim.kd > 0.0
  {
    match t
    case Robstride00 => Limits(4.0 * PI, 33.0, 14.0, 500.0, 5.0)
    case Robstride02 => Limits(4.0 * PI, 44.0, 17.0, 500.0, 5.0)
    case _ => Limits(4.0 * PI, 50.0, 6.0, 500.0, 5.0)
  }

  function Encode(x: real, limit: real): U16
    requires limit > 0.0
  {
    FloatToUint16(x, -limit, limit)
  }

  function Decode(n: U16, limit: real): real {
    Uint16ToFloat(n, -limit, limit)
  }

  datatype MitCmd = MitCmd(position: real, velocity: real, effort: real, kp: real, kd: real)

  function MitFrame(t: MotorType, id: Byte, c: MitCmd): Frame {
    var lim := GetLimits(t);
    var p, v := Encode(c.position, lim.position), Encode(c.velocity, lim.velocity);
    var kp, kd := FloatToUint16(c.kp, 0.0, lim.kp), FloatToUint16(c.kd, 0.0, lim.kd);
    Frame(CanIdOf(COMM_MIT_CONTROL, Encode(c.effort, lim.torque), id),
          [High(p), Low(p), High(v), Low(v), High(kp), Low(kp), High(kd), Low(kd)])
  }

  // ---- feedback ----

  // What the decoder keeps between feedback frames.
  datatype Feedback = Feedback(position: real, velocity: real, torque: real, temperature: real, enabled: bool, errors: nat)

  function ParseFeedback(t: MotorType, f: Frame, was: Feedback): Feedback
    requires |f.data| == 8
  {
    if !IsFeedback(f) then was
    else
      var lim := GetLimits(t);
      var extra := ExtraOf(f.canId);
      Feedback(Decode(Join(f.data[0], f.data[1]), lim.position), Decode(Join(f.data[2], f.data[3]), lim.velocity),
               Decode(Join(f.data[4], f.data[5]), lim.torque), Join(f.data[6], f.data[7]) as real * 0.1,
               extra / 0x4000 == 2, extra / 0x100 % 0x40)
  }

  predicate IsFeedback(f: Frame) {
    IsExtended(f.canId) && CommOf(f.canId) == COMM_FEEDBACK
  }

  // The frame a motor sends: status bits and identifier, then position, velocity, torque and
  // temperature.
  function FeedbackFrame(id: Byte, status: Byte, p: U16, v: U16, q: U16, temp: U16): Frame {
    Frame(CanIdOf(COMM_FEEDBACK, Join(status, id), 0),
          [High(p), Low(p), High(v), Low(v), High(q), Low(q), High(temp), Low(temp)])
  }

  // What such a frame says: two mode bits, six error bits, and the four values.
  function Said(t: MotorType, status: Byte, p: U16, v: U16, q: U16, temp: U16): Feedback {
    var lim := GetLimits(t);
    Feedback(Decode(p, lim.position), Decode(v, lim.velocity), Decode(q, lim.torque), temp as real * 0.1,
             status / 0x40 == 2, status % 0x40)
  }

  /** The decoder reads out of a motor's frame exactly what the motor put into it. */
  lemma ParseReadsFrame(t: MotorType, id: Byte, status: Byte, p: U16, v: U16, q: U16, temp: U16, was: Feedback)
    ensures IsFeedback(FeedbackFrame(id, status, p, v, q, temp))
    ensures ParseFeedback(t, FeedbackFrame(id, status, p, v, q, temp), was) == Said(t, status, p, v, q, temp)
  {
    CanIdFields(COMM_FEEDBACK, Join(status, id), 0);
    StatusFields(status, id);
    JoinSplit(p);
    JoinSplit(v);
    JoinSplit(q);
    JoinSplit(temp);
  }

  lemma StatusFields(status: Byte, id: Byte)
    ensures Join(status, id) / 0x4000 == status / 0x40 && Join(status, id) / 0x100 % 0x40 == status % 0x40
  {
    assert Join(status, id) / 0x100 == status;
  }

  // fb is what f says, if f is a motor's frame.
  ghost predicate Reads(t: MotorType, f: Frame, fb: Feedback) {
    forall id: Byte, status: Byte, p: U16, v: U16, q: U16, temp: U16 ::
      f == FeedbackFrame(id, status, p, v, q, temp) ==> fb == Said(t, status, p, v, q, temp)
  }

  lemma ParseReads(t: MotorType, f: Frame, was: Feedback)
    requires |f.data| == 8
    ensures Reads(t, f, ParseFeedback(t, f, was))
    ensures !IsFeedback(f) ==> ParseFeedback(t, f, was) == was
  {
    forall id: Byte, status: Byte, p: U16, v: U16, q: U16, temp: U16 | f == FeedbackFrame(id, status, p, v, q, temp)
      ensures ParseFeedback(t, f, was) == Said(t, status, p, v, q, temp)
    {
      ParseReadsFrame(t, id, status, p, v, q, temp, was);
    }
  }

  // A feedback frame in which the motor reports the commanded position and velocity as its own.
  predicate Echoes(f: Frame, cmd: Frame, id: Byte) {
    && |f.data| == 8 == |cmd.data| && f.data[..4] == cmd.data[..4]
    && exists status: Byte :: f.canId == CanIdOf(COMM_FEEDBACK, Join(status, id), 0)
  }

  lemma EchoedCodes(t: MotorType, id: Byte, c: MitCmd, data: seq<Byte>)
    requires |data| == 8 && data[..4] == MitFrame(t, id, c).data[..4]
    ensures Join(data[0], data[1]) == Encode(c.position, GetLimits(t).position)
    ensures Join(data[2], data[3]) == Encode(c.velocity, GetLimits(t).velocity)
  {
    var d := MitFrame(t, id, c).data;
    assert forall i :: 0 <= i < 4 ==> data[i] == data[..4][i] && d[i] == d[..4][i];
    JoinSplit(Encode(c.position, GetLimits(t).position));
    JoinSplit(Encode(c.velocity, GetLimits(t).velocity));
  }

  lemma FeedbackParsed(t: MotorType, status: Byte, id: Byte, f: Frame, was: Feedback)
    requires f.canId == CanIdOf(COMM_FEEDBACK, Join(status, id), 0) && |f.data| == 8
    ensures RxKey(f.canId) == id
    ensures ParseFeedback(t, f, was).position == Decode(Join(f.data[0], f.data[1]), GetLimits(t).position)
    ensures ParseFeedback(t, f, was).velocity == Decode(Join(f.data[2], f.data[3]), GetLimits(t).velocity)
  {
    CanIdFields(COMM_FEEDBACK, Join(status, id), 0);
  }

  // y is x cut to the range and rounded down by less than one quantum.
  predicate Quantised(x: real, y: real, limit: real) {
    Clamp(x, -limit, limit) - Quantum(-limit, limit) < y <= Clamp(x, -limit, limit)
  }

  /** A position and a velocity sent and echoed come back as the clamped values, less than one
      quantum below them, to the callback of the motor they were sent to. */
  lemma EchoRoundTrip(t: MotorType, id: Byte, c: MitCmd, f: Frame, was: Feedback)
    requires Echoes(f, MitFrame(t, id, c), id)
    ensures Quantised(c.position, ParseFeedback(t, f, was).position, GetLimits(t).position)
    ensures Quantised(c.velocity, ParseFeedback(t, f, was).velocity, GetLimits(t).velocity)
    ensures RxKey(f.canId) == id
  {
    var lim := GetLimits(t);
    var status: Byte :| f.canId == CanIdOf(COMM_FEEDBACK, Join(status, id), 0);
    FeedbackParsed(t, status, id, f, was);
    EchoedCodes(t, id, c, f.data);
    DecodeEncode(c.position, -lim.position, lim.position);
    DecodeEncode(c.velocity, -lim.velocity, lim.velocity);
  }
}
