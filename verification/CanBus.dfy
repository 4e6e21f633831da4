/** The CAN bus object: motors writing into packed buffers, and the frames sent from them. Every
    method that takes the lock or uses the wire is proved to be a step of CanProtocol. */
module CanBusClass {
  import opened Common
  import opened RobstrideCodec
  import opened CanSlots
  import opened CanRounds
  import opened CanProtocol

  class RobstrideMotor {
    const kind: MotorType
    const name: string
    const canId: Byte
    var sendBase: array?<Byte>
    var recvBase: array?<Byte>
    var mode: Byte
    var feedback: Feedback

    constructor (kind: MotorType, name: string, canId: Byte)
      ensures this.kind == kind && this.name == name && this.canId == canId
      ensures sendBase == null && recvBase == null && mode == 0
      ensures feedback == Feedback(0.0, 0.0, 0.0, 0.0, false, 0)
    {
      this.kind, this.name, this.canId := kind, name, canId;
      sendBase, recvBase, mode := null, null, 0;
      feedback := Feedback(0.0, 0.0, 0.0, 0.0, false, 0);
    }

    /** The motor is pointed at its slots, which become empty. */
    method SetDataField(send: array<Byte>, recv: array<Byte>)
      requires ValidId(canId) && Buffer(send[..]) && Buffer(recv[..]) && send != recv
      modifies this`sendBase, this`recvBase, send, recv
      ensures sendBase == send && recvBase == recv
      ensures send[..] == Put(old(send[..]), canId, Zeros(SLOT)) && recv[..] == Put(old(recv[..]), canId, Zeros(SLOT))
    {
      sendBase, recvBase := send, recv;
      WriteSlot(send, canId, Zeros(SLOT));
      WriteSlot(recv, canId, Zeros(SLOT));
    }

    // WriteFrame, and the zeroing of SaveConfig: without a slot nothing happens.
    method WriteEffect(e: Effect)
      requires ValidId(canId) && (sendBase != null ==> Buffer(sendBase[..])) && (e.Write? ==> FrameLike(e.frame))
      modifies sendBase
      ensures sendBase != null ==> sendBase[..] == Affected(old(sendBase[..]), canId, e)
    {
      if sendBase == null {
        return;
      }
      match e {
        case Write(f) => WriteSlot(sendBase, canId, FrameBytes(f));
        case Clear => WriteSlot(sendBase, canId, Zeros(SLOT));
        case Keep =>
      }
    }

    // A mode outside the table is ignored before anything is written.
    method OneShotCommand(c: OneShot)
      requires ValidId(canId) && (sendBase != null ==> Buffer(sendBase[..]))
      modifies this`mode, sendBase
      ensures sendBase != null ==> sendBase[..] == Affected(old(sendBase[..]), canId, OneShotEffect(canId, c))
      ensures mode == if c.SetMode? && c.mode < 5 then c.mode else old(mode)
    {
      WriteEffect(OneShotEffect(canId, c));
      if c.SetMode? && c.mode < 5 {
        mode := c.mode;
      }
    }

    method PeriodicCommand(c: Periodic)
      requires ValidId(canId) && (sendBase != null ==> Buffer(sendBase[..])) && WellFormed(c)
      modifies sendBase
      ensures sendBase != null ==> sendBase[..] == Put(old(sendBase[..]), canId, FrameBytes(PeriodicFrame(kind, canId, c)))
    {
      WriteEffect(Write(PeriodicFrame(kind, canId, c)));
    }

    /** The lazy decoding done by every getter: a motor's frame is read out, anything else in the
        slot changes nothing. */
    method Parse()
      requires ValidId(canId) && (recvBase != null ==> Buffer(recvBase[..]))
      modifies this`feedback
      ensures recvBase == null || !IsFeedback(FrameAt(recvBase[..], canId)) ==> feedback == old(feedback)
      ensures recvBase != null ==> Reads(kind, FrameAt(recvBase[..], canId), feedback)
    {
      if recvBase == null {
        return;
      }
      ParseReads(kind, FrameAt(recvBase[..], canId), feedback);
      feedback := ParseFeedback(kind, FrameAt(recvBase[..], canId), feedback);
    }
  }

  method WriteSlot(buf: array<Byte>, id: Byte, b: Bytes)
    requires Buffer(buf[..]) && ValidId(id) && |b| == SLOT
    modifies buf
    ensures buf[..] == Put(old(buf[..]), id, b)
  {
    forall i | 0 <= i < SLOT {
      buf[Offset(id) + i] := b[i];
    }
  }

  class CanBus {
    const sendBuf: array<Byte>
    const recvBuf: array<Byte>
    var byName: map<string, RobstrideMotor>
    var byId: map<Byte, RobstrideMotor>
    var wire: seq<Event>             // every frame handed to the socket
    var pending: seq<Shot>           // one-shot frames read out under the lock and not yet sent
    var shots: nat
    ghost var slots: Slots           // the send buffer as a map from registered motors to optional frames
    var round: Round

    predicate Has(m: RobstrideMotor)
      reads this`byId
    {
      m.canId in byId && byId[m.canId] == m
    }

    ghost predicate Registered()
      reads this`byId, this`byName
    {
      && (forall id :: id in byId ==> ValidId(id) && byId[id].canId == id)
      && (forall n :: n in byName ==> byName[n].name == n && Has(byName[n]))
    }

    // Every registered motor writes into these buffers.
    ghost predicate Wired()
      reads this`byId, byId.Values`sendBase, byId.Values`recvBase
    {
      forall id :: id in byId ==> byId[id].sendBase == sendBuf && byId[id].recvBase == recvBuf
    }

    // The motor is registered here and writes into the send buffer.
    ghost predicate Home(m: RobstrideMotor)
      reads this`byId, m`sendBase
    {
      ValidId(m.canId) && m.canId in byId && m.sendBase == sendBuf
    }

    lemma AtHome(m: RobstrideMotor)
      requires Registered() && Wired() && Has(m)
      ensures Home(m)
    {
    }

    // The packed buffers refine the map of slots.
    ghost predicate Buffers()
      reads this`byId, this`slots, sendBuf, recvBuf
    {
      && Buffer(sendBuf[..]) && Buffer(recvBuf[..]) && sendBuf != recvBuf
      && Packed(sendBuf[..], byId.Keys, slots)
    }

    /** The bus as a state of the protocol. */
    ghost function Abstract(): State
      reads this`slots, this`wire, this`pending, this`shots, this`round
    {
      State(slots, wire, pending, shots, round)
    }

    ghost predicate Valid()
      reads this, sendBuf, recvBuf, byId.Values`sendBase, byId.Values`recvBase
    {
      Registered() && Wired() && Buffers() && Shaped(byId.Keys, Abstract())
    }

    constructor ()
      ensures Valid() && byId == map[] && byName == map[] && Abstract() == Start({})
      ensures fresh(sendBuf) && fresh(recvBuf)
    {
      sendBuf := new Byte[MAX_ACTUATORS * SLOT](_ => 0);
      recvBuf := new Byte[MAX_ACTUATORS * SLOT](_ => 0);
      byName, byId, wire := map[], map[], [];
      pending, shots, round, slots := [], 0, Idle, map[];
    }

    /** A motor is accepted exactly when its identifier is one to four and neither identifier nor
        name is taken; its slots start empty. Motors are registered between rounds. */
    method RegisterActuator(m: RobstrideMotor?) returns (ok: bool)
      requires Valid() && round.Idle?
      modifies this`byName, this`byId, this`slots, m, sendBuf, recvBuf
      ensures Valid()
      ensures ok <==> m != null && ValidId(m.canId) && m.canId !in old(byId) && m.name !in old(byName)
      ensures ok ==> byId == old(byId)[m.canId := m] && byName == old(byName)[m.name := m]
                     && Abstract() == old(Abstract()).(slots := old(slots)[m.canId := None])
      ensures !ok ==> byId == old(byId) && byName == old(byName) && sendBuf[..] == old(sendBuf[..])
                      && recvBuf[..] == old(recvBuf[..])
    {
      if m == null {
        return false;
      }
      var id := m.canId;
      if id == 0 || id > MAX_ACTUATORS {
        return false;
      }
      if id in byId {
        return false;
      }
      if m.name in byName {
        return false;
      }
      Accept(m);
      ok := true;
    }

    method Accept(m: RobstrideMotor)
      requires Valid() && round.Idle? && ValidId(m.canId) && m.canId !in byId && m.name !in byName
      modifies this`byName, this`byId, this`slots, m, sendBuf, recvBuf
      ensures Valid() && byId == old(byId)[m.canId := m] && byName == old(byName)[m.name := m]
      ensures slots == old(slots)[m.canId := None]
    {
      hide Packed, Has;
      Connect(m);
      Enlist(m);
    }

    // The motor is pointed at its slots, which become empty.
    method Connect(m: RobstrideMotor)
      requires Buffers() && ValidId(m.canId)
      modifies this`slots, m, sendBuf, recvBuf
      ensures Buffer(sendBuf[..]) && Buffer(recvBuf[..]) && Packed(sendBuf[..], byId.Keys + {m.canId}, slots)
      ensures slots == old(slots)[m.canId := None] && m.sendBase == sendBuf && m.recvBase == recvBuf
    {
      hide Packed, Put, Zeros;
      ghost var before, ids := sendBuf[..], byId.Keys;
      m.SetDataField(sendBuf, recvBuf);
      PackedClear(before, ids, slots, m.canId, sendBuf[..], ids + {m.canId});
      slots := slots[m.canId := None];
    }

    method Enlist(m: RobstrideMotor)
      requires Registered() && ValidId(m.canId) && m.canId !in byId && m.name !in byName
      modifies this`byName, this`byId
      ensures Registered() && byId == old(byId)[m.canId := m] && byName == old(byName)[m.name := m]
      ensures byId.Keys == old(byId).Keys + {m.canId}
    {
      byName := byName[m.name := m];
      byId := byId[m.canId := m];
      assert forall n :: n in old(byName) ==> Has(old(byName)[n]);
    }

    /** A periodic setter is the protocol's setting step for the named motor, and nothing for an
        unknown name. It runs while it holds the lock, so between rounds. */
    method SetPeriodic(name: string, c: Periodic)
      requires Valid() && round.Idle? && WellFormed(c)
      modifies this`slots, sendBuf
      ensures Valid()
      ensures name !in byName ==> Abstract() == old(Abstract())
      ensures name in byName ==> var m := byName[name];
                Abstract() == Step(byId.Keys, old(Abstract()), Set(m.canId, PeriodicFrame(m.kind, m.canId, c)))
    {
      hide Buffers, Wired, PeriodicFrame, Step;
      if name in byName {
        Store(byName[name], c, PeriodicFrame(byName[name].kind, byName[name].canId, c));
      }
    }

    method Store(m: RobstrideMotor, c: Periodic, ghost f: Frame)
      requires Valid() && round.Idle? && Has(m) && WellFormed(c) && f == PeriodicFrame(m.kind, m.canId, c)
      modifies this`slots, sendBuf
      ensures Valid() && Abstract() == Step(byId.Keys, old(Abstract()), Set(m.canId, f))
    {
      hide Buffers, Registered, Wired, PeriodicFrame;
      AtHome(m);
      SetIsStep(byId.Keys, Abstract(), m.canId, f);
      WriteFrom(m, c, f);
    }

    method WriteFrom(m: RobstrideMotor, c: Periodic, ghost f: Frame)
      requires Home(m) && Buffers() && WellFormed(c) && f == PeriodicFrame(m.kind, m.canId, c)
      modifies this`slots, sendBuf
      ensures Buffers() && Abstract() == SetSlot(old(Abstract()), m.canId, f)
    {
      hide Packed, PeriodicFrame, FrameBytes, Put;
      ghost var before, ids := sendBuf[..], byId.Keys;
      m.PeriodicCommand(c);
      PackedWrite(before, ids, slots, m.canId, f, sendBuf[..]);
      slots := slots[m.canId := Some(f)];
    }

    /** The locked part of a one-shot command is the protocol's taking step. */
    method TakeOneShot(m: RobstrideMotor, c: OneShot, ghost e: Effect)
      requires Valid() && round.Idle? && Has(m) && e == OneShotEffect(m.canId, c)
      modifies this`slots, sendBuf, m`mode, this`pending, this`shots
      ensures Valid() && Abstract() == Step(byId.Keys, old(Abstract()), Take(m.canId, e))
      ensures |pending| == |old(pending)| + 1
    {
      hide Buffers, Registered, Wired, OneShotEffect;
      AtHome(m);
      TakeIsStep(byId.Keys, Abstract(), m.canId, e);
      DoTake(m, c, e);
    }

    method DoTake(m: RobstrideMotor, c: OneShot, ghost e: Effect)
      requires Home(m) && Buffers() && e == OneShotEffect(m.canId, c)
      modifies this`slots, sendBuf, m`mode, this`pending, this`shots
      ensures Buffers() && m.canId in old(slots) && Abstract() == TakeShot(old(Abstract()), m.canId, e)
      ensures |pending| == |old(pending)| + 1
    {
      hide Buffers, OneShotEffect, OneShotFrame;
      var f := ReadOut(m, c, e);
      pending := pending + [Shot(shots, f)];
      shots := shots + 1;
    }

    method ReadOut(m: RobstrideMotor, c: OneShot, ghost e: Effect) returns (f: Frame)
      requires Home(m) && Buffers() && e == OneShotEffect(m.canId, c)
      modifies this`slots, sendBuf, m`mode
      ensures Buffers() && m.canId in old(slots) && f == OneShotFrame(old(slots)[m.canId], e)
      ensures slots == old(slots)[m.canId := None]
    {
      hide Packed, OneShotEffect, OneShotFrame, Affected, Put, FrameAt, Zeros;
      ghost var before, ids := sendBuf[..], byId.Keys;
      m.OneShotCommand(c);
      ghost var mid := sendBuf[..];
      f := FrameAt(sendBuf[..], m.canId);
      WriteSlot(sendBuf, m.canId, Zeros(SLOT));
      PackedOneShot(before, ids, slots, m.canId, e, mid, sendBuf[..]);
      slots := slots[m.canId := None];
    }

    /** A frame waiting outside the lock reaches the wire: the protocol's firing step. */
    method FirePending(k: nat)
      requires Valid() && k < |pending|
      modifies this`wire, this`pending
      ensures Valid() && Abstract() == Step(byId.Keys, old(Abstract()), Fire(k))
    {
      FireIsStep(byId.Keys, Abstract(), k);
      DoFire(k);
    }

    method DoFire(k: nat)
      requires k < |pending|
      modifies this`wire, this`pending
      ensures Abstract() == FireShot(old(Abstract()), k)
    {
      wire := wire + [FromShot(pending[k].n, pending[k].frame)];
      pending := pending[..k] + pending[k + 1..];
    }

    /** A one-shot command is taken under the lock and fired after it: one frame on the wire, and
        the slot empty. */
    method SendOnce(m: RobstrideMotor, c: OneShot, ghost e: Effect)
      requires Valid() && round.Idle? && Has(m) && e == OneShotEffect(m.canId, c)
      modifies this`slots, sendBuf, m`mode, this`wire, this`pending, this`shots
      ensures Valid() && Abstract() == SentOnce(byId.Keys, old(Abstract()), m.canId, e)
    {
      hide Buffers, Registered, Wired, OneShotEffect;
      TakeOneShot(m, c, e);
      FirePending(|pending| - 1);
    }

    ghost function Commanded(m: RobstrideMotor, c: OneShot): State
      requires Shaped(byId.Keys, Abstract())
      reads this`byId, this`slots, this`wire, this`pending, this`shots, this`round
    {
      SentOnce(byId.Keys, Abstract(), m.canId, OneShotEffect(m.canId, c))
    }

    /** The named one-shot commands; an unknown name does nothing. */
    method Command(name: string, c: OneShot) returns (found: bool)
      requires Valid() && round.Idle?
      modifies this`slots, sendBuf, this`wire, this`pending, this`shots, if name in byName then {byName[name]} else {}
      ensures Valid() && (found <==> name in byName)
      ensures Abstract() == if found then old(Commanded(byName[name], c)) else old(Abstract())
    {
      hide Buffers, Wired, OneShotEffect, SentOnce;
      if name !in byName {
        return false;
      }
      SendOnce(byName[name], c, OneShotEffect(byName[name].canId, c));
      found := true;
    }

    /** A received frame goes, whole, into the slot of the motor its identifier names. */
    method OnReceive(f: Frame)
      requires Valid() && FrameLike(f)
      modifies recvBuf
      ensures Valid()
      ensures forall id :: id in byId ==>
                ValidId(id) && FrameAt(recvBuf[..], id) == if id == RxKey(f.canId) then f else FrameAt(old(recvBuf[..]), id)
    {
      hide Packed, Wired, Shaped;
      var id := RxKey(f.canId);
      if id in byId {
        forall other | other in byId
          ensures FrameAt(Put(recvBuf[..], id, FrameBytes(f)), other) == if other == id then f else FrameAt(recvBuf[..], other)
        {
          ReceivedAt(recvBuf[..], id, f, other);
        }
        WriteSlot(recvBuf, id, FrameBytes(f));
      }
    }

    lemma ReceivedAt(buf: Bytes, id: Byte, f: Frame, other: Byte)
      requires Buffer(buf) && ValidId(id) && ValidId(other) && FrameLike(f)
      ensures FrameAt(Put(buf, id, FrameBytes(f)), other) == if other == id then f else FrameAt(buf, other)
    {
      PutSlots(buf, id, FrameBytes(f), other);
      FrameOfBytes(f);
    }

    /** TransmitAll takes the lock: the protocol's beginning of a round. */
    method BeginAll(order: seq<Byte>)
      requires Valid() && round.Idle? && Once(order, byId.Keys)
      modifies this`round
      ensures Valid() && Abstract() == Step(byId.Keys, old(Abstract()), Begin(order)) && round == Sending(order, 0, |wire|)
    {
      hide Buffers, Registered, Wired;
      BeginIsStep(byId.Keys, Abstract(), order);
      round := Sending(order, 0, |wire|);
    }

    /** One motor of the round, or its end: the protocol's turn. */
    method TakeTurn()
      requires Valid() && round.Sending?
      modifies this`round, this`wire
      ensures Valid() && Abstract() == Step(byId.Keys, old(Abstract()), Turn) && round == NextRound(old(round))
    {
      hide Buffers, Registered, Wired, Step, TurnRound;
      TurnIsStep(byId.Keys, Abstract());
      DoTurn();
    }

    method DoTurn()
      requires Buffers() && Shaped(byId.Keys, Abstract()) && round.Sending?
      modifies this`round, this`wire
      ensures Abstract() == TurnRound(old(Abstract()))
    {
      hide Buffers;
      if round.next == |round.order| {
        round := Idle;
      } else {
        var id := round.order[round.next];
        var slot := ReadSlot(id);
        match slot {
          case None =>
          case Some(f) => wire := wire + [FromSlot(id, f)];
        }
        round := Sending(round.order, round.next + 1, round.mark);
      }
    }

    // A slot whose identifier is 0 is skipped.
    method ReadSlot(id: Byte) returns (slot: Option<Frame>)
      requires Buffers() && id in slots
      ensures slot == slots[id]
    {
      var f := FrameAt(sendBuf[..], id);
      slot := if f.canId == 0 then None else Some(f);
    }

    /** A periodic round, in some order of the motors: the protocol's whole round. */
    method TransmitAll() returns (ghost order: seq<Byte>)
      requires Valid() && round.Idle?
      modifies this`round, this`wire
      ensures Valid() && Once(order, byId.Keys)
      ensures Abstract() == WholeRound(byId.Keys, old(Abstract()), order)
    {
      hide Buffers, Registered, Wired, Step, Once;
      var iteration := IterationOrder(byId.Keys);
      order := iteration;
      BeginAll(iteration);
      ghost var begun, ids := Abstract(), byId.Keys;
      for i := 0 to |iteration| + 1
        invariant Valid() && Abstract() == Turns(ids, begun, i)
        invariant i <= |iteration| ==> round == Sending(iteration, i, begun.round.mark)
      {
        TakeTurn();
      }
    }
  }
}
