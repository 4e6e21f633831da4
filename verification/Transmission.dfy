/** Joint and actuator spaces: signed transmissions between them, and the way of a joint command
    through the motor and back. */
module TransmissionClass {
  import opened Common
  import opened RobstrideCodec

  datatype Values = Values(effort: real, velocity: real, position: real, kp: real, kd: real)

  // Effort, velocity and position turned to the other side of a transmission.
  function Turned(v: Values, direction: real): Values {
    v.(effort := Gear(v.effort, direction), velocity := Gear(v.velocity, direction), position := Gear(v.position, direction))
  }

  function Gear(x: real, direction: real): real {
    x * direction
  }

  // A state takes over the three measured values only.
  function TurnedState(from: Values, direction: real, to: Values): Values {
    Values(Gear(from.effort, direction), Gear(from.velocity, direction), Gear(from.position, direction), to.kp, to.kd)
  }

  /** Turning there and back changes nothing exactly when the direction is +1 or -1. */
  lemma TurnsBackIff(direction: real)
    ensures (forall v: Values :: Turned(Turned(v, direction), direction) == v) <==> direction == 1.0 || direction == -1.0
  {
    if direction == 1.0 || direction == -1.0 {
      forall v: Values ensures Turned(Turned(v, direction), direction) == v {
        TwiceIs(v.effort, direction);
        TwiceIs(v.velocity, direction);
        TwiceIs(v.position, direction);
      }
    } else {
      var one := Values(1.0, 1.0, 1.0, 1.0, 1.0);
      SquareIsOne(direction);
      assert Turned(Turned(one, direction), direction).position == 1.0 * direction * direction;
      assert Turned(Turned(one, direction), direction) != one;
    }
  }

  lemma TwiceIs(x: real, direction: real)
    requires direction == 1.0 || direction == -1.0
    ensures Gear(Gear(x, direction), direction) == x
  {
  }

  lemma SquareIsOne(d: real)
    ensures d * d == 1.0 ==> d == 1.0 || d == -1.0
  {
    assert (d - 1.0) * (d + 1.0) == d * d - 1.0;
  }

  // ---- through the motor and back ----

  lemma ClampOdd(x: real, limit: real)
    requires limit > 0.0
    ensures Clamp(-x, -limit, limit) == -Clamp(x, -limit, limit)
  {
  }

  // y is x cut to the range, off by less than one quantum to either side.
  predicate WithinQuantum(x: real, y: real, limit: real) {
    -Quantum(-limit, limit) < y - Clamp(x, -limit, limit) < Quantum(-limit, limit)
  }

  lemma SideOfQuantum(x: real, y: real, limit: real, direction: real, jx: real, jy: real)
    requires limit > 0.0 && (direction == 1.0 || direction == -1.0)
    requires x == Gear(jx, direction) && jy == Gear(y, direction) && Quantised(x, y, limit)
    ensures WithinQuantum(jx, jy, limit)
  {
    ClampOdd(jx, limit);
    assert Quantum(-limit, limit) > 0.0;
    if direction == 1.0 {
      assert x == jx && jy == y;
    } else {
      assert x == -jx && jy == -y;
    }
  }

  /** A joint position and velocity sent through a transmission of direction +1 or -1, quantised,
      packed, echoed by the motor and decoded, come back within one quantum of the value cut to
      the motor's range. */
  lemma JointRoundTrip(t: MotorType, id: Byte, joint: Values, direction: real, f: Frame, was: Feedback)
    requires direction == 1.0 || direction == -1.0
    requires var a := Turned(joint, direction);
             Echoes(f, MitFrame(t, id, MitCmd(a.position, a.velocity, a.effort, a.kp, a.kd)), id)
    ensures WithinQuantum(joint.position, Gear(ParseFeedback(t, f, was).position, direction), GetLimits(t).position)
    ensures WithinQuantum(joint.velocity, Gear(ParseFeedback(t, f, was).velocity, direction), GetLimits(t).velocity)
  {
    var a := Turned(joint, direction);
    var r := ParseFeedback(t, f, was);
    EchoRoundTrip(t, id, MitCmd(a.position, a.velocity, a.effort, a.kp, a.kd), f, was);
    SideOfQuantum(a.position, r.position, GetLimits(t).position, direction, joint.position, Gear(r.position, direction));
    SideOfQuantum(a.velocity, r.velocity, GetLimits(t).velocity, direction, joint.velocity, Gear(r.velocity, direction));
  }

  // ---- the objects ----

  class DataSpace {
    var cmd: Values
    var state: Values

    constructor ()
      ensures cmd == state == Values(0.0, 0.0, 0.0, 0.0, 0.0)
    {
      cmd := Values(0.0, 0.0, 0.0, 0.0, 0.0);
      state := Values(0.0, 0.0, 0.0, 0.0, 0.0);
    }
  }

  class SimpleTransmission {
    const name: string
    const actuator: DataSpace
    const joint: DataSpace
    const direction: real

    constructor (name: string, actuator: DataSpace, direction: real, joint: DataSpace)
      ensures this.name == name && this.actuator == actuator && this.joint == joint && this.direction == direction
    {
      this.name, this.actuator, this.joint, this.direction := name, actuator, joint, direction;
    }

    method TransformActuatorToJoint()
      modifies joint`state
      ensures joint.state == TurnedState(old(actuator.state), direction, old(joint.state))
    {
      joint.state := joint.state.(effort := Gear(actuator.state.effort, direction));
      joint.state := joint.state.(velocity := Gear(actuator.state.velocity, direction));
      joint.state := joint.state.(position := Gear(actuator.state.position, direction));
    }

    method TransformJointToActuator()
      modifies actuator`cmd
      ensures actuator.cmd == Turned(old(joint.cmd), direction)
    {
      actuator.cmd := actuator.cmd.(effort := Gear(joint.cmd.effort, direction));
      actuator.cmd := actuator.cmd.(velocity := Gear(joint.cmd.velocity, direction));
      actuator.cmd := actuator.cmd.(position := Gear(joint.cmd.position, direction));
      actuator.cmd := actuator.cmd.(kp := joint.cmd.kp);
      actuator.cmd := actuator.cmd.(kd := joint.cmd.kd);
    }
  }

  // ---- several transmissions in turn ----

  // The values of some data spaces.
  type Board = map<DataSpace, Values>

  ghost predicate Covers(m: Board, ts: seq<SimpleTransmission>) {
    forall k :: 0 <= k < |ts| ==> ts[k].joint in m && ts[k].actuator in m
  }

  // The commands after the first n transmissions have been worked off in order.
  ghost function CommandsAfter(ts: seq<SimpleTransmission>, n: nat, m: Board): (r: Board)
    requires n <= |ts| && Covers(m, ts)
    ensures r.Keys == m.Keys
  {
    if n == 0 then m
    else
      var before := CommandsAfter(ts, n - 1, m);
      before[ts[n - 1].actuator := Turned(before[ts[n - 1].joint], ts[n - 1].direction)]
  }

  ghost function StatesAfter(ts: seq<SimpleTransmission>, n: nat, m: Board): (r: Board)
    requires n <= |ts| && Covers(m, ts)
    ensures r.Keys == m.Keys
  {
    if n == 0 then m
    else
      var before, t := StatesAfter(ts, n - 1, m), ts[n - 1];
      before[t.joint := TurnedState(before[t.actuator], t.direction, before[t.joint])]
  }

  // Among the first n transmissions, the k-th is the last that drives the actuator.
  ghost predicate LastTo(ts: seq<SimpleTransmission>, n: nat, k: nat, a: DataSpace)
    requires n <= |ts|
  {
    && k < n && ts[k].actuator == a
    && forall m :: k < m < n ==> ts[m].actuator != a
  }

  ghost predicate LastFrom(ts: seq<SimpleTransmission>, n: nat, k: nat, j: DataSpace)
    requires n <= |ts|
  {
    && k < n && ts[k].joint == j
    && forall m :: k < m < n ==> ts[m].joint != j
  }

  // No space is both a joint and an actuator.
  ghost predicate Separate(ts: seq<SimpleTransmission>) {
    forall k, m :: 0 <= k < |ts| && 0 <= m < |ts| ==> ts[k].joint != ts[m].actuator
  }

  /** Where no space is both a joint and an actuator, every actuator ends with the command of the
      last transmission that drives it, and the joints keep theirs. */
  lemma {:induction false} LastCommandWins(ts: seq<SimpleTransmission>, n: nat, m: Board, k: nat, a: DataSpace)
    requires n <= |ts| && Covers(m, ts) && Separate(ts)
    ensures forall i :: 0 <= i < |ts| ==> CommandsAfter(ts, n, m)[ts[i].joint] == m[ts[i].joint]
    ensures LastTo(ts, n, k, a) ==> a in m && CommandsAfter(ts, n, m)[a] == Turned(m[ts[k].joint], ts[k].direction)
  {
    if n > 0 {
      LastCommandWins(ts, n - 1, m, k, a);
    }
  }

  /** Likewise every joint ends with the state of the last transmission that reports for it. */
  lemma {:induction false} LastStateWins(ts: seq<SimpleTransmission>, n: nat, m: Board, k: nat, j: DataSpace)
    requires n <= |ts| && Covers(m, ts) && Separate(ts)
    ensures forall i :: 0 <= i < |ts| ==> StatesAfter(ts, n, m)[ts[i].actuator] == m[ts[i].actuator]
    ensures forall d :: d in m ==> StatesAfter(ts, n, m)[d].kp == m[d].kp && StatesAfter(ts, n, m)[d].kd == m[d].kd
    ensures LastFrom(ts, n, k, j) ==>
              j in m && StatesAfter(ts, n, m)[j] == TurnedState(m[ts[k].actuator], ts[k].direction, m[j])
  {
    if n > 0 {
      LastStateWins(ts, n - 1, m, k, j);
    }
  }

  class TransimissionManager {
    var transmissions: seq<SimpleTransmission>

    constructor ()
      ensures transmissions == []
    {
      transmissions := [];
    }

    method RegisterTransmission(t: SimpleTransmission)
      modifies this
      ensures transmissions == old(transmissions) + [t]
    {
      transmissions := transmissions + [t];
    }

    ghost function Spaces(): (s: set<DataSpace>)
      reads this
    {
      (set t | t in transmissions :: t.joint) + (set t | t in transmissions :: t.actuator)
    }

    ghost function Commands(): (m: Board)
      reads this, Spaces()`cmd
      ensures Covers(m, transmissions)
    {
      map d | d in Spaces() :: d.cmd
    }

    ghost function States(): (m: Board)
      reads this, Spaces()`state
      ensures Covers(m, transmissions)
    {
      map d | d in Spaces() :: d.state
    }

    /** The transmissions are worked off in order, each reading what those before it have left. */
    method TransformJointToActuator()
      modifies (set t | t in transmissions :: t.actuator)`cmd
      ensures Commands() == CommandsAfter(transmissions, |transmissions|, old(Commands()))
    {
      hide Turned, Commands;
      for i := 0 to |transmissions|
        invariant Commands() == CommandsAfter(transmissions, i, old(Commands()))
      {
        PassCommand(i);
      }
    }

    method PassCommand(i: nat)
      requires i < |transmissions|
      modifies transmissions[i].actuator`cmd
      ensures var t, was := transmissions[i], old(Commands());
              Commands() == was[t.actuator := Turned(was[t.joint], t.direction)]
    {
      hide Turned;
      transmissions[i].TransformJointToActuator();
    }

    method TransformActuatorToJoint()
      modifies (set t | t in transmissions :: t.joint)`state
      ensures States() == StatesAfter(transmissions, |transmissions|, old(States()))
    {
      hide TurnedState, States;
      for i := 0 to |transmissions|
        invariant States() == StatesAfter(transmissions, i, old(States()))
      {
        PassState(i);
      }
    }

    method PassState(i: nat)
      requires i < |transmissions|
      modifies transmissions[i].joint`state
      ensures var t, was := transmissions[i], old(States());
              States() == was[t.joint := TurnedState(was[t.actuator], t.direction, was[t.joint])]
    {
      hide TurnedState;
      transmissions[i].TransformActuatorToJoint();
    }
  }
}
