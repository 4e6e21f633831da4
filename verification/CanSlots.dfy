/** The packed slot buffers of a CAN bus: four 12-byte frames one after another, and what a
    command does to a slot. */
module CanSlots {
  import opened Common
  import opened RobstrideCodec

  const SLOT: nat := 12
  const MAX_ACTUATORS: nat := 4

  type Bytes = seq<Byte>

  predicate ValidId(id: Byte) {
    1 <= id <= MAX_ACTUATORS
  }

  predicate FrameLike(f: Frame) {
    f.canId < 0x1_0000_0000 && |f.data| == 8
  }

  // ---- bytes ----

  function LowByte(n: nat): Byte {
    n % 0x100
  }

  // A 32-bit number in little-endian order.
  function Bytes4(n: nat): Bytes
    requires n < 0x1_0000_0000
  {
    var a: nat := n / 0x100;
    var b: nat := a / 0x100;
    var c: nat := b / 0x100;
    [LowByte(n), LowByte(a), LowByte(b), LowByte(c)]
  }

  function Number4(b: Bytes): nat
    requires |b| == 4
  {
    b[0] + 0x100 * (b[1] + 0x100 * (b[2] + 0x100 * (b[3] as int)))
  }

  lemma NumberOfBytes(n: nat)
    requires n < 0x1_0000_0000
    ensures Number4(Bytes4(n)) == n
  {
  }

  function FrameBytes(f: Frame): (b: Bytes)
    requires FrameLike(f)
    ensures |b| == SLOT
  {
    Bytes4(f.canId) + f.data
  }

  function FrameOf(b: Bytes): (f: Frame)
    requires |b| == SLOT
    ensures |f.data| == 8
  {
    Frame(Number4(b[..4]), b[4..])
  }

  lemma FrameOfBytes(f: Frame)
    requires FrameLike(f)
    ensures FrameOf(FrameBytes(f)) == f
  {
    NumberOfBytes(f.canId);
    assert FrameBytes(f)[..4] == Bytes4(f.canId) && FrameBytes(f)[4..] == f.data;
  }

  // ---- slots of a buffer ----

  predicate Buffer(buf: Bytes) {
    |buf| == MAX_ACTUATORS * SLOT
  }

  function Offset(id: Byte): nat
    requires ValidId(id)
  {
    SLOT * (id - 1)
  }

  function SlotBytes(buf: Bytes, id: Byte): (b: Bytes)
    requires Buffer(buf) && ValidId(id)
    ensures |b| == SLOT
  {
    buf[Offset(id)..Offset(id) + SLOT]
  }

  function FrameAt(buf: Bytes, id: Byte): (f: Frame)
    requires Buffer(buf) && ValidId(id)
    ensures |f.data| == 8
  {
    FrameOf(SlotBytes(buf, id))
  }

  function Put(buf: Bytes, id: Byte, b: Bytes): (r: Bytes)
    requires Buffer(buf) && ValidId(id) && |b| == SLOT
    ensures Buffer(r)
  {
    var at := Offset(id);
    seq(|buf|, i requires 0 <= i < |buf| => if at <= i < at + SLOT then b[i - at] else buf[i])
  }

  /** Slots do not overlap: writing one changes that slot and no other. */
  lemma PutSlots(buf: Bytes, id: Byte, b: Bytes, other: Byte)
    requires Buffer(buf) && ValidId(id) && |b| == SLOT && ValidId(other)
    ensures SlotBytes(Put(buf, id, b), other) == if other == id then b else SlotBytes(buf, other)
  {
    var r := Put(buf, id, b);
    assert other < id ==> Offset(other) + SLOT <= Offset(id);
    assert other > id ==> Offset(id) + SLOT <= Offset(other);
    forall k | 0 <= k < SLOT ensures SlotBytes(r, other)[k] == if other == id then b[k] else SlotBytes(buf, other)[k] {
      assert SlotBytes(r, other)[k] == r[Offset(other) + k];
    }
  }

  function Zeros(n: nat): (z: Bytes)
    ensures |z| == n
  {
    seq(n, i => 0)
  }

  // A slot whose identifier is 0 is empty.
  function SlotOf(buf: Bytes, id: Byte): Option<Frame>
    requires Buffer(buf) && ValidId(id)
  {
    var f := FrameAt(buf, id);
    if f.canId == 0 then None else Some(f)
  }

  type Slots = map<Byte, Option<Frame>>

  predicate AllValid(ids: set<Byte>) {
    forall id :: id in ids ==> ValidId(id)
  }

  /** The buffer seen as a map from motor identifiers to optional frames. */
  function SlotMap(buf: Bytes, ids: set<Byte>): (m: Slots)
    requires Buffer(buf) && AllValid(ids)
    ensures m.Keys == ids
  {
    map id | id in ids :: SlotOf(buf, id)
  }

  lemma PutFrameMaps(buf: Bytes, ids: set<Byte>, id: Byte, f: Frame)
    requires Buffer(buf) && AllValid(ids) && id in ids && FrameLike(f) && f.canId != 0
    ensures SlotMap(Put(buf, id, FrameBytes(f)), ids) == SlotMap(buf, ids)[id := Some(f)]
  {
    FrameOfBytes(f);
    forall other | other in ids
      ensures SlotOf(Put(buf, id, FrameBytes(f)), other) == if other == id then Some(f) else SlotOf(buf, other)
    {
      PutSlots(buf, id, FrameBytes(f), other);
    }
  }

  lemma PutZerosMaps(buf: Bytes, ids: set<Byte>, id: Byte)
    requires Buffer(buf) && AllValid(ids) && ValidId(id)
    ensures SlotMap(Put(buf, id, Zeros(SLOT)), ids + {id}) == SlotMap(buf, ids)[id := None]
  {
    assert Zeros(SLOT)[..4] == [0, 0, 0, 0];
    forall other | other in ids + {id}
      ensures SlotOf(Put(buf, id, Zeros(SLOT)), other) == if other == id then None else SlotOf(buf, other)
    {
      PutSlots(buf, id, Zeros(SLOT), other);
    }
  }

  // ---- commands ----

  // Floats in parameter frames are given as their four bytes.
  datatype Periodic =
    | Mit(cmd: MitCmd)
    | Velocity(value: Bytes)
    | Position(value: Bytes)
    | Effort(value: Bytes)

  datatype OneShot =
    | Enable
    | Disable
    | ClearError
    | SetHoming
    | SaveConfig
    | SetMode(mode: Byte)

  predicate WellFormed(c: Periodic) {
    !c.Mit? ==> |c.value| == 4
  }

  function ParamFloat(index: U16, value: Bytes): Bytes {
    [Low(index), High(index), 0, 0] + value
  }

  function PeriodicFrame(t: MotorType, id: Byte, c: Periodic): (f: Frame)
    requires WellFormed(c)
    ensures FrameLike(f) && f.canId != 0
  {
    CanIdFields(COMM_SET_PARAM, MASTER_ID, id);
    match c
    case Mit(cmd) =>
      CanIdFields(COMM_MIT_CONTROL, Encode(cmd.effort, GetLimits(t).torque), id);
      MitFrame(t, id, cmd)
    case Velocity(v) => Frame(CanIdOf(COMM_SET_PARAM, MASTER_ID, id), ParamFloat(PARAM_SPD_REF, v))
    case Position(v) => Frame(CanIdOf(COMM_SET_PARAM, MASTER_ID, id), ParamFloat(PARAM_LOC_REF, v))
    case Effort(v) => Frame(CanIdOf(COMM_SET_PARAM, MASTER_ID, id), ParamFloat(PARAM_IQ_REF, v))
  }

  // What a one-shot command does to the slot before it is sent.
  datatype Effect = Write(frame: Frame) | Clear | Keep

  function OneShotEffect(id: Byte, c: OneShot): (e: Effect)
    ensures e.Write? ==> FrameLike(e.frame) && e.frame.canId != 0
  {
    CanIdFields(COMM_ENABLE, MASTER_ID, id);
    CanIdFields(COMM_STOP, MASTER_ID, id);
    CanIdFields(COMM_SET_ZERO, MASTER_ID, id);
    CanIdFields(COMM_SET_PARAM, MASTER_ID, id);
    match c
    case Enable => Write(Frame(CanIdOf(COMM_ENABLE, MASTER_ID, id), Zeros(8)))
    case Disable => Write(Frame(CanIdOf(COMM_STOP, MASTER_ID, id), Zeros(8)))
    case ClearError => Write(Frame(CanIdOf(COMM_STOP, MASTER_ID, id), [1, 0, 0, 0, 0, 0, 0, 0]))
    case SetHoming => Write(Frame(CanIdOf(COMM_SET_ZERO, MASTER_ID, id), [1, 0, 0, 0, 0, 0, 0, 0]))
    case SaveConfig => Clear
    case SetMode(mode) =>
      if mode >= 5 then Keep
      else Write(Frame(CanIdOf(COMM_SET_PARAM, MASTER_ID, id), [Low(PARAM_RUN_MODE), High(PARAM_RUN_MODE), 0, 0, mode, 0, 0, 0]))
  }

  const EMPTY: Frame := Frame(0, [0, 0, 0, 0, 0, 0, 0, 0])

  // The frame a one-shot command puts on the wire.
  function OneShotFrame(slot: Option<Frame>, e: Effect): Frame {
    match e
    case Write(f) => f
    case Clear => EMPTY
    case Keep => if slot.Some? then slot.value else EMPTY
  }

  /** What a one-shot command sends depends on the slot exactly when it sets a mode outside the
      table: then the last periodic frame goes out once more. */
  lemma SendsOwnFrameIff(id: Byte, c: OneShot)
    ensures (forall s, t :: OneShotFrame(s, OneShotEffect(id, c)) == OneShotFrame(t, OneShotEffect(id, c)))
       <==> !(c.SetMode? && c.mode >= 5)
  {
    var e := OneShotEffect(id, c);
    assert e.Keep? <==> c.SetMode? && c.mode >= 5;
    if e.Keep? {
      assert OneShotFrame(None, e) != OneShotFrame(Some(Frame(1, EMPTY.data)), e);
    }
  }

  // ---- what commands do to the bytes ----

  function Affected(buf: Bytes, id: Byte, e: Effect): (r: Bytes)
    requires Buffer(buf) && ValidId(id) && (e.Write? ==> FrameLike(e.frame))
    ensures Buffer(r)
  {
    match e
    case Write(f) => Put(buf, id, FrameBytes(f))
    case Clear => Put(buf, id, Zeros(SLOT))
    case Keep => buf
  }

  lemma PutEmpty(buf: Bytes, id: Byte)
    requires Buffer(buf) && ValidId(id)
    ensures FrameAt(Put(buf, id, Zeros(SLOT)), id) == EMPTY
  {
    PutSlots(buf, id, Zeros(SLOT), id);
    assert Zeros(SLOT)[..4] == [0, 0, 0, 0];
    assert Zeros(SLOT)[4..] == EMPTY.data;
  }

  // No slot holds data without an identifier.
  predicate Clean(buf: Bytes, ids: set<Byte>)
    requires Buffer(buf) && AllValid(ids)
  {
    forall id :: id in ids ==> FrameAt(buf, id).canId == 0 ==> FrameAt(buf, id) == EMPTY
  }

  lemma PutKeepsClean(buf: Bytes, ids: set<Byte>, id: Byte, f: Frame)
    requires Buffer(buf) && AllValid(ids) && Clean(buf, ids) && id in ids && FrameLike(f) && f.canId != 0
    ensures Clean(Put(buf, id, FrameBytes(f)), ids)
  {
    FrameOfBytes(f);
    forall other | other in ids ensures FrameAt(Put(buf, id, FrameBytes(f)), other) == if other == id then f else FrameAt(buf, other) {
      PutSlots(buf, id, FrameBytes(f), other);
    }
  }

  lemma ClearKeepsClean(buf: Bytes, ids: set<Byte>, id: Byte)
    requires Buffer(buf) && AllValid(ids) && Clean(buf, ids) && ValidId(id)
    ensures Clean(Put(buf, id, Zeros(SLOT)), ids + {id})
  {
    PutEmpty(buf, id);
    forall other | other in ids + {id} && other != id ensures FrameAt(Put(buf, id, Zeros(SLOT)), other) == FrameAt(buf, other) {
      PutSlots(buf, id, Zeros(SLOT), other);
    }
  }

  // What the locked part of a one-shot command reads out of the slot.
  lemma OneShotReads(buf: Bytes, id: Byte, e: Effect, mid: Bytes)
    requires Buffer(buf) && ValidId(id) && Clean(buf, {id}) && (e.Write? ==> FrameLike(e.frame)) && mid == Affected(buf, id, e)
    ensures FrameAt(mid, id) == OneShotFrame(SlotOf(buf, id), e)
  {
    if e.Write? {
      FrameOfBytes(e.frame);
      PutSlots(buf, id, FrameBytes(e.frame), id);
    } else if e.Clear? {
      PutEmpty(buf, id);
    }
  }

  // Zeroing a slot gives the same buffer whatever was put into it before.
  lemma ClearAfter(buf: Bytes, id: Byte, e: Effect)
    requires Buffer(buf) && ValidId(id) && (e.Write? ==> FrameLike(e.frame))
    ensures Put(Affected(buf, id, e), id, Zeros(SLOT)) == Put(buf, id, Zeros(SLOT))
  {
    if e.Write? {
      PutTwice(buf, id, FrameBytes(e.frame), Zeros(SLOT));
    } else if e.Clear? {
      PutTwice(buf, id, Zeros(SLOT), Zeros(SLOT));
    }
  }

  lemma PutTwice(buf: Bytes, id: Byte, b: Bytes, c: Bytes)
    requires Buffer(buf) && ValidId(id) && |b| == SLOT == |c|
    ensures Put(Put(buf, id, b), id, c) == Put(buf, id, c)
  {
  }

  lemma AfterWrite(buf: Bytes, ids: set<Byte>, id: Byte, f: Frame, after: Bytes)
    requires Buffer(buf) && AllValid(ids) && Clean(buf, ids) && id in ids && FrameLike(f) && f.canId != 0
    requires after == Put(buf, id, FrameBytes(f))
    ensures Clean(after, ids) && SlotMap(after, ids) == SlotMap(buf, ids)[id := Some(f)]
  {
    PutFrameMaps(buf, ids, id, f);
    PutKeepsClean(buf, ids, id, f);
  }

  lemma AfterClear(buf: Bytes, ids: set<Byte>, id: Byte, after: Bytes, more: set<Byte>)
    requires Buffer(buf) && AllValid(ids) && Clean(buf, ids) && ValidId(id) && more == ids + {id}
    requires after == Put(buf, id, Zeros(SLOT))
    ensures Clean(after, more) && SlotMap(after, more) == SlotMap(buf, ids)[id := None]
  {
    PutZerosMaps(buf, ids, id);
    ClearKeepsClean(buf, ids, id);
  }

  // The locked part of a one-shot command: what it reads out of the slot, and what it leaves.
  lemma AfterOneShot(buf: Bytes, ids: set<Byte>, id: Byte, e: Effect, mid: Bytes, after: Bytes)
    requires Buffer(buf) && AllValid(ids) && Clean(buf, ids) && id in ids && (e.Write? ==> FrameLike(e.frame))
    requires mid == Affected(buf, id, e) && after == Put(mid, id, Zeros(SLOT))
    ensures FrameAt(mid, id) == OneShotFrame(SlotOf(buf, id), e)
    ensures Clean(after, ids) && SlotMap(after, ids) == SlotMap(buf, ids)[id := None]
  {
    OneShotReads(buf, id, e, mid);
    ClearAfter(buf, id, e);
    AfterClear(buf, ids, id, after, ids);
  }

  /** The packed bytes refine a map of slots. */
  predicate Packed(buf: Bytes, ids: set<Byte>, slots: Slots)
    requires Buffer(buf)
  {
    AllValid(ids) && Clean(buf, ids) && slots == SlotMap(buf, ids)
  }

  lemma PackedWrite(buf: Bytes, ids: set<Byte>, slots: Slots, id: Byte, f: Frame, after: Bytes)
    requires Buffer(buf) && Packed(buf, ids, slots) && id in ids && ValidId(id) && FrameLike(f) && f.canId != 0
    requires after == Put(buf, id, FrameBytes(f))
    ensures Buffer(after) && Packed(after, ids, slots[id := Some(f)])
  {
    AfterWrite(buf, ids, id, f, after);
  }

  lemma PackedClear(buf: Bytes, ids: set<Byte>, slots: Slots, id: Byte, after: Bytes, more: set<Byte>)
    requires Buffer(buf) && Packed(buf, ids, slots) && ValidId(id) && more == ids + {id}
    requires after == Put(buf, id, Zeros(SLOT))
    ensures Buffer(after) && Packed(after, more, slots[id := None])
  {
    AfterClear(buf, ids, id, after, more);
  }

  lemma PackedOneShot(buf: Bytes, ids: set<Byte>, slots: Slots, id: Byte, e: Effect, mid: Bytes, after: Bytes)
    requires Buffer(buf) && Packed(buf, ids, slots) && id in ids && ValidId(id) && (e.Write? ==> FrameLike(e.frame))
    requires mid == Affected(buf, id, e) && after == Put(mid, id, Zeros(SLOT))
    ensures id in slots && Buffer(after) && FrameAt(mid, id) == OneShotFrame(slots[id], e)
    ensures Packed(after, ids, slots[id := None])
  {
    AfterOneShot(buf, ids, id, e, mid, after);
  }
}
