/** The two threads of a CAN bus: periodic rounds under the lock, and setters and one-shot commands
    that take the lock only for a moment. A one-shot frame is sent after its lock is released. */
module CanProtocol {
  import opened Common
  import opened RobstrideCodec
  import opened CanSlots
  import opened CanRounds

  // A frame on the wire: from a slot in a periodic round, or from the n-th one-shot command.
  datatype Event = FromSlot(id: Byte, frame: Frame) | FromShot(n: nat, frame: Frame)

  datatype Shot = Shot(n: nat, frame: Frame)

  // A round keeps the lock; mark is where the wire stood when it took it.
  datatype Round = Idle | Sending(order: seq<Byte>, next: nat, mark: nat)

  datatype State = State(slots: Slots, wire: seq<Event>, pending: seq<Shot>, shots: nat, round: Round)

  datatype Action =
    | Set(id: Byte, frame: Frame)            // a periodic setter
    | Take(id: Byte, effect: Effect)         // the locked part of a one-shot command
    | Fire(k: nat)                           // a waiting one-shot frame reaches the wire
    | Begin(order: seq<Byte>)                // TransmitAll takes the lock
    | Turn                                   // its next slot, or the end of the round

  predicate Enabled(ids: set<Byte>, s: State, a: Action) {
    match a
    case Set(id, _) => s.round.Idle? && id in ids
    case Take(id, _) => s.round.Idle? && id in ids
    case Fire(k) => k < |s.pending|
    case Begin(order) => s.round.Idle? && Once(order, ids)
    case Turn => s.round.Sending?
  }

  predicate Shaped(ids: set<Byte>, s: State) {
    && s.slots.Keys == ids
    && (s.round.Sending? ==>
         && s.round.next <= |s.round.order| && s.round.mark <= |s.wire|
         && Once(s.round.order, ids) && (forall id :: id in s.round.order ==> id in ids))
  }

  // A thread whose action is not enabled waits: nothing changes.
  function Step(ids: set<Byte>, s: State, a: Action): (t: State)
    requires Shaped(ids, s)
    ensures Shaped(ids, t)
  {
    if !Enabled(ids, s, a) then s
    else
      match a
      case Set(id, f) => SetSlot(s, id, f)
      case Take(id, e) => TakeShot(s, id, e)
      case Fire(k) => FireShot(s, k)
      case Begin(order) =>
        OnceWithin(order, ids);
        BeginRound(s, order)
      case Turn => TurnRound(s)
  }

  function SetSlot(s: State, id: Byte, f: Frame): State {
    s.(slots := s.slots[id := Some(f)])
  }

  function TakeShot(s: State, id: Byte, e: Effect): State
    requires id in s.slots
  {
    s.(slots := s.slots[id := None], pending := s.pending + [Shot(s.shots, OneShotFrame(s.slots[id], e))], shots := s.shots + 1)
  }

  function FireShot(s: State, k: nat): State
    requires k < |s.pending|
  {
    s.(wire := s.wire + [FromShot(s.pending[k].n, s.pending[k].frame)], pending := s.pending[..k] + s.pending[k + 1..])
  }

  function BeginRound(s: State, order: seq<Byte>): State {
    s.(round := Sending(order, 0, |s.wire|))
  }

  function TurnRound(s: State): State
    requires s.round.Sending? && s.round.next <= |s.round.order| && forall id :: id in s.round.order ==> id in s.slots
  {
    var r := s.round;
    if r.next == |r.order| then s.(round := Idle)
    else
      var id := r.order[r.next];
      var s' := s.(round := Sending(r.order, r.next + 1, r.mark));
      match s.slots[id]
      case None => s'
      case Some(f) => s'.(wire := s.wire + [FromSlot(id, f)])
  }

  // What each enabled action is, and that the result is again a state over the same motors.
  lemma SetIsStep(ids: set<Byte>, s: State, id: Byte, f: Frame)
    requires Shaped(ids, s) && s.round.Idle? && id in ids
    ensures Step(ids, s, Set(id, f)) == SetSlot(s, id, f) && Shaped(ids, SetSlot(s, id, f))
  {
  }

  lemma TakeIsStep(ids: set<Byte>, s: State, id: Byte, e: Effect)
    requires Shaped(ids, s) && s.round.Idle? && id in ids
    ensures Step(ids, s, Take(id, e)) == TakeShot(s, id, e) && Shaped(ids, TakeShot(s, id, e))
  {
  }

  lemma FireIsStep(ids: set<Byte>, s: State, k: nat)
    requires Shaped(ids, s) && k < |s.pending|
    ensures Step(ids, s, Fire(k)) == FireShot(s, k) && Shaped(ids, FireShot(s, k))
  {
  }

  lemma BeginIsStep(ids: set<Byte>, s: State, order: seq<Byte>)
    requires Shaped(ids, s) && s.round.Idle? && Once(order, ids)
    ensures Step(ids, s, Begin(order)) == BeginRound(s, order) && Shaped(ids, BeginRound(s, order))
  {
    OnceWithin(order, ids);
  }

  lemma TurnIsStep(ids: set<Byte>, s: State)
    requires Shaped(ids, s) && s.round.Sending?
    ensures Step(ids, s, Turn) == TurnRound(s) && Shaped(ids, TurnRound(s))
    ensures TurnRound(s).round == NextRound(s.round)
  {
  }

  // How a round goes on.
  function NextRound(r: Round): Round
    requires r.Sending?
  {
    if r.next < |r.order| then r.(next := r.next + 1) else Idle
  }

  // A whole one-shot command with no other thread in between: taken under the lock, then fired.
  function SentOnce(ids: set<Byte>, s: State, id: Byte, e: Effect): (t: State)
    requires Shaped(ids, s)
    ensures Shaped(ids, t)
  {
    Step(ids, Step(ids, s, Take(id, e)), Fire(|s.pending|))
  }

  // n turns of a round.
  function Turns(ids: set<Byte>, s: State, n: nat): (t: State)
    requires Shaped(ids, s)
    ensures Shaped(ids, t)
  {
    if n == 0 then s
    else Step(ids, Turns(ids, s, n - 1), Turn)
  }

  // A whole round: the lock taken, a turn for each motor, and the turn that gives the lock back.
  function WholeRound(ids: set<Byte>, s: State, order: seq<Byte>): (t: State)
    requires Shaped(ids, s)
    ensures Shaped(ids, t)
  {
    Turns(ids, Step(ids, s, Begin(order)), |order| + 1)
  }

  function Start(ids: set<Byte>): State {
    State(map id | id in ids :: None, [], [], 0, Idle)
  }

  function Run(ids: set<Byte>, run: seq<Action>): (s: State)
    ensures Shaped(ids, s)
  {
    if run == [] then Start(ids)
    else Step(ids, Run(ids, run[..|run| - 1]), run[|run| - 1])
  }

  // ---- the history of a run, told without any slot ----

  // The setters and one-shot commands that got the lock, in that order.
  function Ops(ids: set<Byte>, run: seq<Action>): seq<Action> {
    if run == [] then []
    else
      var before, a := run[..|run| - 1], run[|run| - 1];
      if (a.Set? || a.Take?) && Enabled(ids, Run(ids, before), a) then Ops(ids, before) + [a] else Ops(ids, before)
  }

  // The latest periodic command for a motor after its latest one-shot command.
  function Latest(ops: seq<Action>, id: Byte): Option<Frame> {
    if ops == [] then None
    else
      match ops[|ops| - 1]
      case Set(i, f) => if i == id then Some(f) else Latest(ops[..|ops| - 1], id)
      case Take(i, _) => if i == id then None else Latest(ops[..|ops| - 1], id)
      case _ => Latest(ops[..|ops| - 1], id)
  }

  // The frames the one-shot commands are to send, in the order they got the lock.
  function ShotFrames(ops: seq<Action>): seq<Frame> {
    if ops == [] then []
    else
      var before, a := ops[..|ops| - 1], ops[|ops| - 1];
      if a.Take? then ShotFrames(before) + [OneShotFrame(Latest(before, a.id), a.effect)] else ShotFrames(before)
  }

  // How often the n-th one-shot frame is on the wire, and among those waiting.
  function OnWire(wire: seq<Event>, n: nat): nat {
    if wire == [] then 0
    else
      var last := wire[|wire| - 1];
      OnWire(wire[..|wire| - 1], n) + (if last.FromShot? && last.n == n then 1 else 0)
  }

  function Waiting(pending: seq<Shot>, n: nat): nat {
    if pending == [] then 0
    else Waiting(pending[..|pending| - 1], n) + (if pending[|pending| - 1].n == n then 1 else 0)
  }

  // The frames among these events that a periodic round sent.
  function Periodicals(events: seq<Event>): seq<Frame> {
    if events == [] then []
    else
      var last := events[|events| - 1];
      Periodicals(events[..|events| - 1]) + (if last.FromSlot? then [last.frame] else [])
  }

  // ---- what holds in every state of every run ----

  predicate SlotsLatest(ids: set<Byte>, s: State, ops: seq<Action>) {
    s.slots.Keys == ids && forall id :: id in ids ==> s.slots[id] == Latest(ops, id)
  }

  ghost predicate ShotsOnce(s: State, ops: seq<Action>) {
    && s.shots == |ShotFrames(ops)|
    && forall n: nat :: OnWire(s.wire, n) + Waiting(s.pending, n) == if n < s.shots then 1 else 0
  }

  predicate ShotsRight(s: State, ops: seq<Action>) {
    && (forall i :: 0 <= i < |s.pending| ==> IsShot(ops, s.pending[i].n, s.pending[i].frame))
    && (forall i :: 0 <= i < |s.wire| && s.wire[i].FromShot? ==> IsShot(ops, s.wire[i].n, s.wire[i].frame))
  }

  predicate IsShot(ops: seq<Action>, n: nat, f: Frame) {
    n < |ShotFrames(ops)| && ShotFrames(ops)[n] == f
  }

  // So far the round has sent exactly the filled slots of the motors it has come past.
  predicate RoundSent(s: State) {
    s.round.Sending? ==>
      && s.round.mark <= |s.wire| && s.round.next <= |s.round.order|
      && (forall id :: id in s.round.order ==> id in s.slots)
      && Periodicals(s.wire[s.round.mark..]) == Sent(s.slots, s.round.order[..s.round.next])
  }

  lemma OpsNext(ids: set<Byte>, run: seq<Action>, a: Action)
    ensures Run(ids, run + [a]) == Step(ids, Run(ids, run), a)
    ensures Ops(ids, run + [a]) == if (a.Set? || a.Take?) && Enabled(ids, Run(ids, run), a) then Ops(ids, run) + [a] else Ops(ids, run)
  {
    assert (run + [a])[..|run|] == run;
  }

  lemma LatestNext(ops: seq<Action>, a: Action, id: Byte)
    ensures Latest(ops + [a], id) == if a.Set? && a.id == id then Some(a.frame) else if a.Take? && a.id == id then None else Latest(ops, id)
    ensures ShotFrames(ops + [a]) == if a.Take? then ShotFrames(ops) + [OneShotFrame(Latest(ops, a.id), a.effect)] else ShotFrames(ops)
  {
    assert (ops + [a])[..|ops|] == ops;
  }

  lemma OnWireNext(wire: seq<Event>, e: Event, n: nat)
    ensures OnWire(wire + [e], n) == OnWire(wire, n) + (if e.FromShot? && e.n == n then 1 else 0)
  {
    assert (wire + [e])[..|wire|] == wire;
  }

  lemma WaitingNext(pending: seq<Shot>, p: Shot, n: nat)
    ensures Waiting(pending + [p], n) == Waiting(pending, n) + (if p.n == n then 1 else 0)
  {
    assert (pending + [p])[..|pending|] == pending;
  }

  lemma {:induction false} WaitingWithout(pending: seq<Shot>, k: nat, n: nat)
    requires k < |pending|
    ensures Waiting(pending, n) == Waiting(pending[..k] + pending[k + 1..], n) + (if pending[k].n == n then 1 else 0)
  {
    var last := |pending| - 1;
    if k == last {
      assert pending[..k] + pending[k + 1..] == pending[..last];
    } else {
      WaitingWithout(pending[..last], k, n);
      assert pending[..last][..k] + pending[..last][k + 1..] == (pending[..k] + pending[k + 1..])[..last - 1];
    }
  }

  lemma PeriodicalsNext(events: seq<Event>, e: Event)
    ensures Periodicals(events + [e]) == Periodicals(events) + (if e.FromSlot? then [e.frame] else [])
  {
    assert (events + [e])[..|events|] == events;
  }

  lemma SlotsStep(ids: set<Byte>, s: State, a: Action, ops: seq<Action>, ops': seq<Action>)
    requires Shaped(ids, s) && SlotsLatest(ids, s, ops)
    requires ops' == if (a.Set? || a.Take?) && Enabled(ids, s, a) then ops + [a] else ops
    ensures SlotsLatest(ids, Step(ids, s, a), ops')
  {
    var d := Step(ids, s, a);
    forall id | id in ids ensures d.slots[id] == Latest(ops', id) {
      assert s.slots[id] == Latest(ops, id);
      if (a.Set? || a.Take?) && Enabled(ids, s, a) {
        LatestNext(ops, a, id);
      }
    }
  }

  lemma ShotsOnceStep(ids: set<Byte>, s: State, a: Action, ops: seq<Action>, ops': seq<Action>)
    requires Shaped(ids, s) && ShotsOnce(s, ops)
    requires ops' == if (a.Set? || a.Take?) && Enabled(ids, s, a) then ops + [a] else ops
    ensures ShotsOnce(Step(ids, s, a), ops')
  {
    var d := Step(ids, s, a);
    if Enabled(ids, s, a) {
      forall n: nat ensures OnWire(d.wire, n) + Waiting(d.pending, n) == if n < d.shots then 1 else 0 {
        CountStep(ids, s, a, n);
        assert OnWire(s.wire, n) + Waiting(s.pending, n) == if n < s.shots then 1 else 0;
      }
      if a.Set? || a.Take? {
        LatestNext(ops, a, a.id);
      }
    }
  }

  lemma CountStep(ids: set<Byte>, s: State, a: Action, n: nat)
    requires Shaped(ids, s) && Enabled(ids, s, a)
    ensures var d := Step(ids, s, a);
            OnWire(d.wire, n) + Waiting(d.pending, n)
            == OnWire(s.wire, n) + Waiting(s.pending, n) + (if a.Take? && n == s.shots then 1 else 0)
  {
    match a {
      case Take(id, e) => WaitingNext(s.pending, Shot(s.shots, OneShotFrame(s.slots[id], e)), n);
      case Fire(k) =>
        WaitingWithout(s.pending, k, n);
        OnWireNext(s.wire, FromShot(s.pending[k].n, s.pending[k].frame), n);
      case Turn =>
        if s.round.next < |s.round.order| && s.slots[s.round.order[s.round.next]].Some? {
          OnWireNext(s.wire, FromSlot(s.round.order[s.round.next], s.slots[s.round.order[s.round.next]].value), n);
        }
      case _ =>
    }
  }

  lemma ShotsRightStep(ids: set<Byte>, s: State, a: Action, ops: seq<Action>, ops': seq<Action>)
    requires Shaped(ids, s) && ShotsRight(s, ops) && SlotsLatest(ids, s, ops) && s.shots == |ShotFrames(ops)|
    requires ops' == if (a.Set? || a.Take?) && Enabled(ids, s, a) then ops + [a] else ops
    ensures ShotsRight(Step(ids, s, a), ops')
  {
    var d := Step(ids, s, a);
    if Enabled(ids, s, a) {
      if a.Set? || a.Take? {
        LatestNext(ops, a, a.id);
      }
      assert forall n, f :: IsShot(ops, n, f) ==> IsShot(ops', n, f);
      PendingRight(ids, s, a, ops, ops');
    }
  }

  lemma PendingRight(ids: set<Byte>, s: State, a: Action, ops: seq<Action>, ops': seq<Action>)
    requires Shaped(ids, s) && Enabled(ids, s, a) && SlotsLatest(ids, s, ops) && s.shots == |ShotFrames(ops)|
    requires forall i :: 0 <= i < |s.pending| ==> IsShot(ops', s.pending[i].n, s.pending[i].frame)
    requires a.Take? ==> ShotFrames(ops') == ShotFrames(ops) + [OneShotFrame(Latest(ops, a.id), a.effect)]
    ensures var d := Step(ids, s, a);
            forall i :: 0 <= i < |d.pending| ==> IsShot(ops', d.pending[i].n, d.pending[i].frame)
  {
  }

  lemma RoundStep(ids: set<Byte>, s: State, a: Action)
    requires Shaped(ids, s) && RoundSent(s)
    ensures RoundSent(Step(ids, s, a))
  {
    if Enabled(ids, s, a) {
      match a {
        case Begin(order) =>
          OnceWithin(order, ids);
          RoundBegins(s, order);
        case Turn => RoundTurns(ids, s);
        case Fire(k) =>
          if s.round.Sending? {
            WireStep(s, FireShot(s, k));
          }
        case _ =>
      }
    }
  }

  lemma RoundBegins(s: State, order: seq<Byte>)
    requires forall id :: id in order ==> id in s.slots
    ensures RoundSent(BeginRound(s, order))
  {
    assert s.wire[|s.wire|..] == [] && order[..0] == [];
  }

  lemma RoundTurns(ids: set<Byte>, s: State)
    requires Shaped(ids, s) && RoundSent(s) && s.round.Sending?
    ensures RoundSent(TurnRound(s))
  {
    if s.round.next < |s.round.order| {
      SentNext(s.slots, s.round.order, s.round.next);
      WireStep(s, TurnRound(s));
    }
  }

  // One more event on the wire during a round.
  lemma WireStep(s: State, d: State)
    requires s.round.Sending? && s.round.mark <= |s.wire|
    requires d.wire == s.wire || (|d.wire| == |s.wire| + 1 && d.wire == s.wire + [d.wire[|s.wire|]])
    ensures s.round.mark <= |d.wire|
    ensures Periodicals(d.wire[s.round.mark..])
         == Periodicals(s.wire[s.round.mark..]) + (if d.wire != s.wire && d.wire[|s.wire|].FromSlot? then [d.wire[|s.wire|].frame] else [])
  {
    if d.wire != s.wire {
      var e := d.wire[|s.wire|];
      assert d.wire[s.round.mark..] == s.wire[s.round.mark..] + [e];
      PeriodicalsNext(s.wire[s.round.mark..], e);
    }
  }

  /** In every run, whatever the interleaving: every slot holds the latest periodic command since
      the latest one-shot command; every one-shot command's frame is on the wire or waiting, once,
      and is the frame it was to send; and a round under way has sent exactly the filled slots it
      has come past. */
  lemma {:induction false} EveryRun(ids: set<Byte>, run: seq<Action>)
    ensures SlotsLatest(ids, Run(ids, run), Ops(ids, run))
    ensures ShotsOnce(Run(ids, run), Ops(ids, run)) && ShotsRight(Run(ids, run), Ops(ids, run))
    ensures RoundSent(Run(ids, run))
  {
    if run != [] {
      var before, a := run[..|run| - 1], run[|run| - 1];
      assert run == before + [a];
      EveryRun(ids, before);
      OpsNext(ids, before, a);
      SlotsStep(ids, Run(ids, before), a, Ops(ids, before), Ops(ids, run));
      ShotsOnceStep(ids, Run(ids, before), a, Ops(ids, before), Ops(ids, run));
      ShotsRightStep(ids, Run(ids, before), a, Ops(ids, before), Ops(ids, run));
      RoundStep(ids, Run(ids, before), a);
    }
  }

  /** Every frame a round puts on the wire is the latest periodic command of its motor at that
      moment, and what comes from a one-shot command is that command's frame. */
  lemma SentIsLatest(ids: set<Byte>, run: seq<Action>, a: Action)
    ensures var s, d := Run(ids, run), Run(ids, run + [a]);
            d.wire == s.wire
            || (exists id, f :: d.wire == s.wire + [FromSlot(id, f)] && Latest(Ops(ids, run), id) == Some(f))
            || (exists n, f :: d.wire == s.wire + [FromShot(n, f)] && IsShot(Ops(ids, run), n, f))
  {
    OpsNext(ids, run, a);
    EveryRun(ids, run);
  }

  /** When a round ends, it has sent the frame of every filled slot once, and the slots are still
      as it found them. */
  lemma RoundComplete(ids: set<Byte>, run: seq<Action>, f: Frame)
    requires var s := Run(ids, run); s.round.Sending? && s.round.next == |s.round.order|
    ensures Run(ids, run + [Turn]).round == Idle
    ensures var s := Run(ids, run);
            s.round.mark <= |s.wire|
            && multiset(Periodicals(s.wire[s.round.mark..]))[f] == |Holders(s.slots, ids, f)|
  {
    OpsNext(ids, run, Turn);
    EveryRun(ids, run);
    var s := Run(ids, run);
    assert s.round.order[..s.round.next] == s.round.order;
    SentOncePerSlot(s.slots, s.round.order, ids, f);
  }

  // ---- the operations of a bus are runs of the protocol ----

  // Registering a motor before anything is sent only makes the start larger.
  lemma StartGrows(ids: set<Byte>, id: Byte)
    ensures Start(ids).(slots := Start(ids).slots[id := None]) == Start(ids + {id})
  {
  }

  lemma SentOnceIsRun(ids: set<Byte>, run: seq<Action>, id: Byte, e: Effect)
    ensures SentOnce(ids, Run(ids, run), id, e) == Run(ids, run + [Take(id, e)] + [Fire(|Run(ids, run).pending|)])
  {
    OpsNext(ids, run, Take(id, e));
    OpsNext(ids, run + [Take(id, e)], Fire(|Run(ids, run).pending|));
  }

  function ManyTurns(n: nat): seq<Action> {
    if n == 0 then [] else ManyTurns(n - 1) + [Turn]
  }

  lemma {:induction false} TurnsAreRun(ids: set<Byte>, run: seq<Action>, n: nat)
    ensures Turns(ids, Run(ids, run), n) == Run(ids, run + ManyTurns(n))
  {
    if n == 0 {
      assert run + [] == run;
    } else {
      TurnsAreRun(ids, run, n - 1);
      OpsNext(ids, run + ManyTurns(n - 1), Turn);
      assert run + ManyTurns(n) == run + ManyTurns(n - 1) + [Turn];
    }
  }

  lemma WholeRoundIsRun(ids: set<Byte>, run: seq<Action>, order: seq<Byte>)
    ensures WholeRound(ids, Run(ids, run), order) == Run(ids, run + [Begin(order)] + ManyTurns(|order| + 1))
  {
    OpsNext(ids, run, Begin(order));
    TurnsAreRun(ids, run + [Begin(order)], |order| + 1);
  }

  // The first n turns of a round.
  lemma {:induction false} TurnsSend(ids: set<Byte>, s: State, n: nat)
    requires Shaped(ids, s) && RoundSent(s) && s.round.Sending? && s.round.next == 0 && n <= |s.round.order|
    ensures var t := Turns(ids, s, n);
            RoundSent(t) && t.slots == s.slots && t.pending == s.pending && t.round == s.round.(next := n)
  {
    hide RoundSent, Shaped, Step;
    if n > 0 {
      TurnsSend(ids, s, n - 1);
      TurnMoves(ids, Turns(ids, s, n - 1));
    }
  }

  lemma TurnMoves(ids: set<Byte>, s: State)
    requires Shaped(ids, s) && RoundSent(s) && s.round.Sending? && s.round.next < |s.round.order|
    ensures var t := Step(ids, s, Turn);
            RoundSent(t) && t.slots == s.slots && t.pending == s.pending && t.round == s.round.(next := s.round.next + 1)
  {
    RoundStep(ids, s, Turn);
  }

  /** A whole round sends exactly the frames of the filled slots, in the order of the motors, and
      leaves everything else as it was. */
  lemma WholeRoundSends(ids: set<Byte>, s: State, order: seq<Byte>)
    requires Shaped(ids, s) && s.round.Idle? && Once(order, ids)
    ensures var t := WholeRound(ids, s, order);
            && t.slots == s.slots && t.pending == s.pending && t.round == Idle && |s.wire| <= |t.wire|
            && (forall id :: id in order ==> id in s.slots) && Periodicals(t.wire[|s.wire|..]) == Sent(s.slots, order)
  {
    RoundStep(ids, s, Begin(order));
    OnceWithin(order, ids);
    TurnsSend(ids, Step(ids, s, Begin(order)), |order|);
    assert order[..|order|] == order;
  }
}
