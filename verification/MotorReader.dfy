/** The motor's end of the bus: what a Robstride motor takes a frame to mean, with the numbers of its
    protocol written out, and what therefore becomes of every command sent to it. */
module MotorReader {
  import opened Common
  import opened RobstrideCodec
  import opened CanSlots
  import opened TransmissionClass
  import CanProtocol

  datatype Order =
    | Ignore
    | Start
    | Stop(clearError: bool)
    | SetZero
    | RunMode(mode: Byte)
    | Reference(what: Wanted, value: Bytes)
    | Move(position: real, velocity: real, effort: real, kp: real, kd: real)

  datatype Wanted = Current | Speed | Location

  // The ranges the motors were measured to have.
  function Reach(t: MotorType): Limits {
    match t
    case Robstride00 => Limits(4.0 * PI, 33.0, 14.0, 500.0, 5.0)
    case Robstride02 => Limits(4.0 * PI, 44.0, 17.0, 500.0, 5.0)
    case _ => Limits(4.0 * PI, 50.0, 6.0, 500.0, 5.0)
  }

  // The code n of a range of 65536.
  function At(n: int, lo: real, hi: real): real {
    lo + Part(n as real / 65535.0, hi - lo)
  }

  function BigEndian(d: Bytes, i: nat): nat
    requires i + 1 < |d|
  {
    (d[i] as int) * 256 + d[i + 1]
  }

  function Field(canId: nat, shift: nat, width: nat): nat
    requires shift > 0 && width > 0
  {
    canId / shift % width
  }

  // What the motor with this identifier does on a frame; but for motion commands it listens to the
  // host 0xFF only.
  function Heard(t: MotorType, id: Byte, f: Frame): Order
    requires |f.data| == 8
  {
    if Field(f.canId, 0x8000_0000, 2) != 1 || Field(f.canId, 1, 0x100) != id then Ignore
    else
      var d, extra, r := f.data, Field(f.canId, 0x100, 0x1_0000), Reach(t);
      var comm := Field(f.canId, 0x100_0000, 0x20);
      if comm != 0x01 && extra != 0xFF then Ignore
      else
        match comm
        case 0x01 =>
          Move(At(BigEndian(d, 0), -r.position, r.position), At(BigEndian(d, 2), -r.velocity, r.velocity),
               At(extra, -r.torque, r.torque), At(BigEndian(d, 4), 0.0, r.kp), At(BigEndian(d, 6), 0.0, r.kd))
        case 0x03 => Start
        case 0x04 => Stop(d[0] == 1)
        case 0x06 => if d[0] == 1 then SetZero else Ignore
        case 0x12 =>
          (match d[0] + 256 * (d[1] as int)
           case 0x7005 => RunMode(d[4])
           case 0x7006 => Reference(Current, d[4..])
           case 0x700A => Reference(Speed, d[4..])
           case 0x7016 => Reference(Location, d[4..])
           case _ => Ignore)
        case _ => Ignore
  }

  lemma FieldsOf(comm: Byte, extra: U16, id: Byte)
    requires comm < 0x20
    ensures var n := CanIdOf(comm, extra, id);
            && Field(n, 0x8000_0000, 2) == 1 && Field(n, 1, 0x100) == id
            && Field(n, 0x100, 0x1_0000) == extra && Field(n, 0x100_0000, 0x20) == comm
  {
    var n, body := CanIdOf(comm, extra, id), comm * 0x100_0000 + extra * 0x100 + id;
    BodyFields(comm, extra, id, body);
    assert n / 0x100 == 0x80_0000 + comm * 0x10000 + extra;
    assert n / 0x100_0000 == 0x80 + comm;
  }

  // ---- one-shot commands ----

  // What a one-shot command asks of the motor.
  function Asked(c: OneShot): Order
    requires c.SetMode? ==> c.mode < 5
  {
    match c
    case Enable => Start
    case Disable => Stop(false)
    case ClearError => Stop(true)
    case SetHoming => SetZero
    case SaveConfig => Ignore
    case SetMode(mode) => RunMode(mode)
  }

  /** The motor does on every one-shot frame exactly what the command asks, and nothing else, and no
      other motor does anything. A mode outside the table sends what lay in the slot. */
  lemma OneShotHeard(t: MotorType, id: Byte, c: OneShot, slot: Option<Frame>, other: Byte)
    ensures var f := OneShotFrame(slot, OneShotEffect(id, c));
            if c.SetMode? && c.mode >= 5 then f == if slot.Some? then slot.value else EMPTY
            else |f.data| == 8 && Heard(t, id, f) == Asked(c) && (other != id ==> Heard(t, other, f) == Ignore)
  {
    FieldsOf(0x03, 0xFF, id);
    FieldsOf(0x04, 0xFF, id);
    FieldsOf(0x06, 0xFF, id);
    FieldsOf(0x12, 0xFF, id);
  }

  // ---- periodic commands ----

  // y is x cut to the range and rounded down by less than one quantum.
  predicate Rounded(x: real, y: real, lo: real, hi: real) {
    Clamp(x, lo, hi) - (hi - lo) / 65535.0 < y <= Clamp(x, lo, hi)
  }

  // What a periodic command asks of a motor, up to the rounding of its codes.
  predicate Obeyed(t: MotorType, c: Periodic, o: Order) {
    match c
    case Mit(m) =>
      var r := Reach(t);
      && o.Move? && Rounded(m.position, o.position, -r.position, r.position) && Rounded(m.velocity, o.velocity, -r.velocity, r.velocity)
      && Rounded(m.effort, o.effort, -r.torque, r.torque) && Rounded(m.kp, o.kp, 0.0, r.kp) && Rounded(m.kd, o.kd, 0.0, r.kd)
    case Velocity(v) => o == Reference(Speed, v)
    case Position(v) => o == Reference(Location, v)
    case Effort(v) => o == Reference(Current, v)
  }

  lemma CodeRead(x: real, lo: real, hi: real, n: int)
    requires lo < hi && n == FloatToUint16(x, lo, hi)
    ensures Rounded(x, At(n, lo, hi), lo, hi)
  {
    DecodeEncode(x, lo, hi);
  }

  lemma PairRead(d: Bytes, i: nat, n: U16)
    requires i + 1 < |d| && d[i] == High(n) && d[i + 1] == Low(n)
    ensures BigEndian(d, i) == n
  {
    JoinSplit(n);
  }

  lemma MitHeard(t: MotorType, id: Byte, m: MitCmd)
    ensures Obeyed(t, Mit(m), Heard(t, id, MitFrame(t, id, m)))
  {
    hide Rounded, At;
    var lim, d := GetLimits(t), MitFrame(t, id, m).data;
    FieldsOf(0x01, Encode(m.effort, lim.torque), id);
    PairRead(d, 0, Encode(m.position, lim.position));
    PairRead(d, 2, Encode(m.velocity, lim.velocity));
    PairRead(d, 4, FloatToUint16(m.kp, 0.0, lim.kp));
    PairRead(d, 6, FloatToUint16(m.kd, 0.0, lim.kd));
    CodeRead(m.position, -lim.position, lim.position, BigEndian(d, 0));
    CodeRead(m.velocity, -lim.velocity, lim.velocity, BigEndian(d, 2));
    CodeRead(m.effort, -lim.torque, lim.torque, Encode(m.effort, lim.torque));
    CodeRead(m.kp, 0.0, lim.kp, BigEndian(d, 4));
    CodeRead(m.kd, 0.0, lim.kd, BigEndian(d, 6));
  }

  /** The motor obeys every periodic frame: a motion command in all five values, each cut to its
      range and less than one quantum below, or a reference with exactly the bytes given; and no
      other motor does anything. */
  lemma PeriodicHeard(t: MotorType, id: Byte, c: Periodic, other: Byte)
    requires WellFormed(c)
    ensures Obeyed(t, c, Heard(t, id, PeriodicFrame(t, id, c)))
    ensures other != id ==> Heard(t, other, PeriodicFrame(t, id, c)) == Ignore
  {
    FieldsOf(0x12, 0xFF, id);
    if c.Mit? {
      FieldsOf(0x01, Encode(c.cmd.effort, GetLimits(t).torque), id);
      MitHeard(t, id, c.cmd);
    } else {
      assert PeriodicFrame(t, id, c).data[4..] == c.value;
    }
  }

  /** In every run of the bus, a frame that a round puts on the wire is obeyed by its motor as the
      latest periodic command set for it, and ignored by the others. */
  lemma RoundObeyed(ids: set<Byte>, run: seq<CanProtocol.Action>, a: CanProtocol.Action, id: Byte, f: Frame,
                    t: MotorType, c: Periodic, other: Byte)
    requires WellFormed(c) && other != id
    requires CanProtocol.Run(ids, run + [a]).wire == CanProtocol.Run(ids, run).wire + [CanProtocol.FromSlot(id, f)]
    requires CanProtocol.Latest(CanProtocol.Ops(ids, run), id) == Some(PeriodicFrame(t, id, c))
    ensures |f.data| == 8 && Obeyed(t, c, Heard(t, id, f)) && Heard(t, other, f) == Ignore
  {
    hide Heard, Obeyed, PeriodicFrame;
    CanProtocol.SentIsLatest(ids, run, a);
    var was := CanProtocol.Run(ids, run).wire;
    assert (was + [CanProtocol.FromSlot(id, f)])[|was|] == CanProtocol.FromSlot(id, f);
    PeriodicHeard(t, id, c, other);
  }

  /** A joint command sent through a transmission of direction +1 or -1 reaches the motor: seen from
      the joint, position, velocity and effort are within one quantum of the value cut to the
      motor's range, and the gains are rounded down by less than one quantum. */
  lemma JointCommandHeard(t: MotorType, id: Byte, joint: Values, direction: real)
    requires direction == 1.0 || direction == -1.0
    ensures var a, r := Turned(joint, direction), Reach(t);
            var o := Heard(t, id, MitFrame(t, id, MitCmd(a.position, a.velocity, a.effort, a.kp, a.kd)));
            && o.Move?
            && WithinQuantum(joint.position, o.position * direction, r.position)
            && WithinQuantum(joint.velocity, o.velocity * direction, r.velocity)
            && WithinQuantum(joint.effort, o.effort * direction, r.torque)
            && Rounded(joint.kp, o.kp, 0.0, r.kp) && Rounded(joint.kd, o.kd, 0.0, r.kd)
  {
    hide Clamp;
    var a, r := Turned(joint, direction), Reach(t);
    var c := MitCmd(a.position, a.velocity, a.effort, a.kp, a.kd);
    var o := Heard(t, id, MitFrame(t, id, c));
    MitHeard(t, id, c);
    SideOfQuantum(a.position, o.position, r.position, direction, joint.position, o.position * direction);
    SideOfQuantum(a.velocity, o.velocity, r.velocity, direction, joint.velocity, o.velocity * direction);
    SideOfQuantum(a.effort, o.effort, r.torque, direction, joint.effort, o.effort * direction);
  }

  // ---- reports ----

  // What a motor reports: its mode, six fault bits, and four codes.
  datatype Report = Report(mode: nat, faults: nat, position: U16, velocity: U16, torque: U16, temperature: U16)

  predicate Sendable(r: Report) {
    r.mode < 4 && r.faults < 0x40
  }

  function Pair(n: U16): (b: Bytes)
    ensures |b| == 2
  {
    var low: Byte := n % 256;
    var high: Byte := n / 256;
    [high, low]
  }

  // The frame the motor with this identifier sends to the host.
  function ReportFrame(id: Byte, r: Report): (f: Frame)
    requires Sendable(r)
    ensures |f.data| == 8
  {
    Frame(0x8200_0000 + r.mode * 0x40_0000 + r.faults * 0x1_0000 + (id as int) * 0x100,
          Pair(r.position) + Pair(r.velocity) + Pair(r.torque) + Pair(r.temperature))
  }

  lemma ReportFields(id: Byte, r: Report)
    requires Sendable(r)
    ensures var n := ReportFrame(id, r).canId;
            IsExtended(n) && CommOf(n) == 2 && RxKey(n) == id && ExtraOf(n) == r.mode * 0x4000 + r.faults * 0x100 + id
  {
    var extra: U16 := r.mode * 0x4000 + r.faults * 0x100 + id;
    assert ReportFrame(id, r).canId == CanIdOf(COMM_FEEDBACK, extra, 0);
    CanIdFields(COMM_FEEDBACK, extra, 0);
  }

  lemma StatusOf(mode: nat, faults: nat, id: Byte, extra: nat)
    requires mode < 4 && faults < 0x40 && extra == mode * 0x4000 + faults * 0x100 + id
    ensures extra / 0x4000 == mode && extra / 0x100 % 0x40 == faults
  {
    assert extra / 0x100 == mode * 0x40 + faults;
  }

  /** Every report is understood: it goes to the motor it comes from, and each value is the one its
      code stands for. */
  lemma ReportUnderstood(t: MotorType, id: Byte, r: Report, was: Feedback)
    requires Sendable(r)
    ensures RxKey(ReportFrame(id, r).canId) == id
    ensures var fb, lim := ParseFeedback(t, ReportFrame(id, r), was), Reach(t);
            && fb.position == At(r.position, -lim.position, lim.position)
            && fb.velocity == At(r.velocity, -lim.velocity, lim.velocity)
            && fb.torque == At(r.torque, -lim.torque, lim.torque)
            && fb.temperature == r.temperature as real * 0.1
            && (fb.enabled <==> r.mode == 2) && fb.errors == r.faults
  {
    hide Part;
    ReportFields(id, r);
    StatusOf(r.mode, r.faults, id, ExtraOf(ReportFrame(id, r).canId));
    CodeBack(r.position);
    CodeBack(r.velocity);
    CodeBack(r.torque);
    CodeBack(r.temperature);
  }

  lemma CodeBack(n: U16)
    ensures Join(Pair(n)[0], Pair(n)[1]) == n
  {
  }

  /** And a joint reads its motor's report turned by the direction of the transmission, keeping its
      own gains. */
  lemma JointReads(t: MotorType, id: Byte, r: Report, was: Feedback, direction: real, joint: Values)
    requires Sendable(r)
    ensures var fb, lim := ParseFeedback(t, ReportFrame(id, r), was), Reach(t);
            var s := TurnedState(Values(effort := fb.torque, velocity := fb.velocity, position := fb.position, kp := 0.0, kd := 0.0),
                                 direction, joint);
            && s.position == At(r.position, -lim.position, lim.position) * direction
            && s.velocity == At(r.velocity, -lim.velocity, lim.velocity) * direction
            && s.effort == At(r.torque, -lim.torque, lim.torque) * direction
            && s.kp == joint.kp && s.kd == joint.kd
  {
    hide At, ParseFeedback;
    ReportUnderstood(t, id, r, was);
  }
}
