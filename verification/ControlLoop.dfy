/** The control module: throttled triggers, the joint offsets, and the merge of the active
    controllers' commands in every cycle of the main loop. */
module ControlLoop {
  import opened Common
  import opened StateMachineClass
  import opened PdControllerClass

  // Throttling interval of the triggers, in nanoseconds.
  const INTERVAL := 1_000_000_000

  // A learned controller is known only by its joints; its outputs come with each cycle.
  datatype Controller = PdCtl(pd: Pd) | RlCtl(names: seq<string>)

  type Entries = seq<Entry>
  type Outputs = map<string, Entries>

  // What the configuration fixes. stateIndex is the place of each joint in the joint state
  // messages, taken from the first of them.
  datatype Config = Config(states: seq<RobotState>, cmdIndex: map<string, nat>, offset: map<string, real>,
                           stateIndex: map<string, nat>, messageSize: nat)

  datatype Control = Control(current: string, active: seq<string>, last: int,
                             controllers: map<string, Controller>, cmd: Entries)

  // ---- throttle and trigger ----

  predicate Elapsed(now: int, last: int) {
    now - last >= INTERVAL
  }

  method Throttler(now: int, last: int) returns (passed: bool, next: int)
    ensures passed <==> Elapsed(now, last)
    ensures next == if passed then now else last
  {
    next := last;
    var elapsed := now - last;
    if elapsed >= INTERVAL {
      next := now;
      return true, next;
    }
    passed := false;
  }

  function RestartedCtl(c: Controller): Controller {
    match c
    case PdCtl(pd) => PdCtl(Restarted(pd))
    case RlCtl(_) => c
  }

  function RestartAll(controllers: map<string, Controller>, names: seq<string>): (r: map<string, Controller>)
    ensures r.Keys == controllers.Keys
    ensures forall n :: n in controllers ==> r[n] == if n in names then RestartedCtl(controllers[n]) else controllers[n]
  {
    map n | n in controllers :: if n in names then RestartedCtl(controllers[n]) else controllers[n]
  }

  lemma RestartNext(cs: map<string, Controller>, names: seq<string>, i: nat)
    requires i < |names|
    ensures var r := RestartAll(cs, names[..i]);
            RestartAll(cs, names[..i + 1]) == if names[i] in cs then r[names[i] := RestartedCtl(r[names[i]])] else r
  {
    assert names[..i + 1] == names[..i] + [names[i]];
  }

  predicate Accepts(cfg: Config, c: Control, now: int, topic: string) {
    Elapsed(now, c.last) && Target(cfg.states, topic, c.current).Some?
  }

  // The throttle is passed before the state machine is asked.
  function Trigger(cfg: Config, c: Control, now: int, topic: string): Control {
    var next := if Elapsed(now, c.last) then now else c.last;
    if Accepts(cfg, c, now, topic) then
      var s := Target(cfg.states, topic, c.current).value;
      c.(current := s.name, active := s.controllers, last := next, controllers := RestartAll(c.controllers, s.controllers))
    else
      c.(last := next)
  }

  // ---- joint states ----

  function OffsetOf(offset: map<string, real>, name: string): real {
    if name in offset then offset[name] else 0.0
  }

  // The message with the offset of every joint taken off.
  ghost predicate OffsetsRemoved(cfg: Config, raw: seq<real>, msg: seq<real>) {
    && |msg| == |raw|
    && forall n :: n in cfg.stateIndex && cfg.stateIndex[n] < |raw| ==>
         msg[cfg.stateIndex[n]] == raw[cfg.stateIndex[n]] - OffsetOf(cfg.offset, n)
  }

  predicate Injective(index: map<string, nat>) {
    forall m, n :: m in index && n in index && m != n ==> index[m] != index[n]
  }

  predicate OffsetsLocated(cfg: Config) {
    forall n :: n in cfg.offset ==> n in cfg.stateIndex && cfg.stateIndex[n] < cfg.messageSize
  }

  method RemoveOffsets(cfg: Config, msg: array<real>)
    requires Injective(cfg.stateIndex) && OffsetsLocated(cfg) && msg.Length == cfg.messageSize
    modifies msg
    ensures OffsetsRemoved(cfg, old(msg[..]), msg[..])
  {
    var left := cfg.offset.Keys;
    while left != {}
      invariant left <= cfg.offset.Keys
      invariant forall n :: n in cfg.stateIndex && cfg.stateIndex[n] < msg.Length ==>
                  msg[cfg.stateIndex[n]] == old(msg[cfg.stateIndex[n]]) - (if n in left then 0.0 else OffsetOf(cfg.offset, n))
      decreases |left|
    {
      var n :| n in left;
      msg[cfg.stateIndex[n]] := msg[cfg.stateIndex[n]] - cfg.offset[n];
      left := left - {n};
    }
  }

  // The angles a controller is given: its joints' places in the message, less their offsets.
  function Corrected(cfg: Config, joints: seq<string>, raw: seq<real>): (r: seq<real>)
    requires Locates(cfg.stateIndex, joints, |raw|)
    ensures |r| == |joints|
    ensures forall i :: 0 <= i < |r| ==> r[i] == raw[cfg.stateIndex[joints[i]]] - OffsetOf(cfg.offset, joints[i])
  {
    seq(|joints|, i requires 0 <= i < |joints| => raw[cfg.stateIndex[joints[i]]] - OffsetOf(cfg.offset, joints[i]))
  }

  lemma SelectedIsCorrected(cfg: Config, joints: seq<string>, raw: seq<real>, msg: seq<real>)
    requires OffsetsRemoved(cfg, raw, msg) && Locates(cfg.stateIndex, joints, |raw|)
    ensures Selected(joints, msg, cfg.stateIndex) == Corrected(cfg, joints, raw)
  {
  }

  function Measured(cfg: Config, c: Controller, raw: seq<real>): Controller
    requires SoundCtl(cfg, c) && |raw| == cfg.messageSize
  {
    match c
    case PdCtl(pd) => PdCtl(pd.(position := Corrected(cfg, pd.joints, raw)))
    case RlCtl(_) => c
  }

  predicate SoundCtl(cfg: Config, c: Controller) {
    c.PdCtl? ==> Shaped(c.pd) && Locates(cfg.stateIndex, c.pd.joints, cfg.messageSize)
  }

  predicate SoundAll(cfg: Config, cs: map<string, Controller>) {
    forall n :: n in cs ==> SoundCtl(cfg, cs[n])
  }

  function MeasuredAll(cfg: Config, cs: map<string, Controller>, raw: seq<real>): (r: map<string, Controller>)
    requires SoundAll(cfg, cs) && |raw| == cfg.messageSize
    ensures r.Keys == cs.Keys
  {
    map n | n in cs :: Measured(cfg, cs[n], raw)
  }

  // The same with the controllers in left still to be given their angles.
  function MeasuredBut(cfg: Config, cs: map<string, Controller>, left: set<string>, raw: seq<real>): map<string, Controller>
    requires SoundAll(cfg, cs) && |raw| == cfg.messageSize
  {
    map n | n in cs :: if n in left then cs[n] else Measured(cfg, cs[n], raw)
  }

  lemma MeasuredNext(cfg: Config, cs: map<string, Controller>, left: set<string>, raw: seq<real>, n: string)
    requires SoundAll(cfg, cs) && |raw| == cfg.messageSize && n in left && n in cs
    ensures MeasuredBut(cfg, cs, left, raw)[n] == cs[n]
    ensures MeasuredBut(cfg, cs, left - {n}, raw) == MeasuredBut(cfg, cs, left, raw)[n := Measured(cfg, cs[n], raw)]
  {
  }

  lemma MeasuredEnds(cfg: Config, cs: map<string, Controller>, left: set<string>, raw: seq<real>)
    requires SoundAll(cfg, cs) && |raw| == cfg.messageSize
    ensures (forall n :: n in cs && cs[n].PdCtl? ==> n in left) ==> MeasuredBut(cfg, cs, left, raw) == cs
    ensures MeasuredBut(cfg, cs, {}, raw) == MeasuredAll(cfg, cs, raw)
  {
  }

  // ---- the merge ----

  // An unknown joint falls to place 0, as a missing key of the index does.
  function PlaceOf(index: map<string, nat>, name: string): nat {
    if name in index then index[name] else 0
  }

  function Shifted(offset: map<string, real>, e: Entry): Entry {
    e.(position := e.position + OffsetOf(offset, e.name))
  }

  predicate InRange(cmd: Entries, index: map<string, nat>) {
    |cmd| > 0 && forall n :: n in index ==> index[n] < |cmd|
  }

  function Merge(cfg: Config, cmd: Entries, es: Entries): (r: Entries)
    requires InRange(cmd, cfg.cmdIndex)
    ensures |r| == |cmd|
  {
    if es == [] then cmd
    else
      var e := es[|es| - 1];
      Merge(cfg, cmd, es[..|es| - 1])[PlaceOf(cfg.cmdIndex, e.name) := Shifted(cfg.offset, e)]
  }

  // e is the last entry for place i.
  predicate LastFor(cfg: Config, es: Entries, i: nat, k: nat) {
    && k < |es| && PlaceOf(cfg.cmdIndex, es[k].name) == i
    && forall j :: k < j < |es| ==> PlaceOf(cfg.cmdIndex, es[j].name) != i
  }

  predicate Untouched(cfg: Config, es: Entries, i: nat) {
    forall j :: 0 <= j < |es| ==> PlaceOf(cfg.cmdIndex, es[j].name) != i
  }

  /** A place no entry is for keeps what it had. */
  lemma {:induction false} MergeKeeps(cfg: Config, cmd: Entries, es: Entries, i: nat)
    requires InRange(cmd, cfg.cmdIndex) && i < |cmd| && Untouched(cfg, es, i)
    ensures Merge(cfg, cmd, es)[i] == cmd[i]
  {
    if es != [] {
      MergeKeeps(cfg, cmd, es[..|es| - 1], i);
    }
  }

  /** The last entry for a place wins, with its offset. */
  lemma {:induction false} MergeIs(cfg: Config, cmd: Entries, es: Entries, i: nat, k: nat)
    requires InRange(cmd, cfg.cmdIndex) && i < |cmd| && LastFor(cfg, es, i, k)
    ensures Merge(cfg, cmd, es)[i] == Shifted(cfg.offset, es[k])
  {
    if k < |es| - 1 {
      MergeIs(cfg, cmd, es[..|es| - 1], i, k);
    }
  }

  // The loop over one controller's command, in place.
  method MergeInto(cfg: Config, cmd: array<Entry>, es: Entries)
    requires InRange(cmd[..], cfg.cmdIndex)
    modifies cmd
    ensures cmd[..] == Merge(cfg, old(cmd[..]), es)
  {
    for k := 0 to |es|
      invariant cmd[..] == Merge(cfg, old(cmd[..]), es[..k])
    {
      assert es[..k + 1][..k] == es[..k];
      var index := PlaceOf(cfg.cmdIndex, es[k].name);
      cmd[index] := es[k].(position := es[k].position + OffsetOf(cfg.offset, es[k].name));
    }
    assert es[..|es|] == es;
  }

  // ---- one main cycle ----

  function JointsOf(c: Controller): seq<string> {
    match c
    case PdCtl(pd) => pd.joints
    case RlCtl(names) => names
  }

  // The parts of a controller that no step changes.
  function Kind(c: Controller): Controller {
    match c
    case PdCtl(pd) => PdCtl(pd.(position := [], start := [], percent := 0.0))
    case RlCtl(_) => c
  }

  predicate SameKinds(cs: map<string, Controller>, ds: map<string, Controller>) {
    cs.Keys == ds.Keys && forall n :: n in cs ==> Kind(ds[n]) == Kind(cs[n])
  }

  function UpdatedCtl(cfg: Config, c: Controller): Controller
    requires SoundCtl(cfg, c)
  {
    match c
    case PdCtl(pd) => PdCtl(Updated(pd))
    case RlCtl(_) => c
  }

  // The values a learned controller puts out for its i-th joint; any values will do.
  function Value(out: Outputs, name: string, i: nat): Entry {
    if name in out && i < |out[name]| then out[name][i] else Entry("", 0.0, 0.0, 0.0, 0.0, 0.0)
  }

  function CommandOf(cfg: Config, c: Controller, name: string, out: Outputs): (es: Entries)
    requires SoundCtl(cfg, c)
    ensures |es| == |JointsOf(c)|
    ensures forall i :: 0 <= i < |es| ==> es[i].name == JointsOf(c)[i]
  {
    match c
    case PdCtl(pd) => PdCommand(pd)
    case RlCtl(names) => seq(|names|, i requires 0 <= i < |names| => Value(out, name, i).(name := names[i]))
  }

  datatype Cycled = Cycled(controllers: map<string, Controller>, cmd: Entries)

  predicate Known(names: seq<string>, cs: map<string, Controller>) {
    forall n :: n in names ==> n in cs
  }

  lemma UpdateKeeps(cfg: Config, cs: map<string, Controller>, ds: map<string, Controller>, name: string)
    requires SoundAll(cfg, ds) && SameKinds(cs, ds) && name in ds
    ensures SoundAll(cfg, ds[name := UpdatedCtl(cfg, ds[name])]) && SameKinds(cs, ds[name := UpdatedCtl(cfg, ds[name])])
  {
  }

  // The active controllers in turn: each is updated and its command merged.
  function Cycle(cfg: Config, cs: map<string, Controller>, cmd: Entries, names: seq<string>, out: Outputs): (r: Cycled)
    requires InRange(cmd, cfg.cmdIndex) && SoundAll(cfg, cs) && Known(names, cs)
    ensures |r.cmd| == |cmd| && r.controllers.Keys == cs.Keys && SoundAll(cfg, r.controllers)
    ensures SameKinds(cs, r.controllers)
    decreases |names|
  {
    if names == [] then Cycled(cs, cmd)
    else
      var r := Cycle(cfg, cs, cmd, names[..|names| - 1], out);
      var name := names[|names| - 1];
      var c := UpdatedCtl(cfg, r.controllers[name]);
      UpdateKeeps(cfg, cs, r.controllers, name);
      Cycled(r.controllers[name := c], Merge(cfg, r.cmd, CommandOf(cfg, c, name, out)))
  }

  lemma {:induction false} OthersStay(cfg: Config, cs: map<string, Controller>, cmd: Entries, names: seq<string>, out: Outputs, n: string)
    requires InRange(cmd, cfg.cmdIndex) && SoundAll(cfg, cs) && Known(names, cs) && n in cs && n !in names
    ensures Cycle(cfg, cs, cmd, names, out).controllers[n] == cs[n]
    decreases |names|
  {
    if names != [] {
      OthersStay(cfg, cs, cmd, names[..|names| - 1], out, n);
    }
  }

  // No joint of the controller is at place i.
  predicate Misses(cfg: Config, joints: seq<string>, i: nat) {
    forall j :: 0 <= j < |joints| ==> PlaceOf(cfg.cmdIndex, joints[j]) != i
  }

  // The last of these joints at place i is the j-th.
  predicate LastJoint(cfg: Config, joints: seq<string>, i: nat, j: nat) {
    && j < |joints| && PlaceOf(cfg.cmdIndex, joints[j]) == i
    && forall k :: j < k < |joints| ==> PlaceOf(cfg.cmdIndex, joints[k]) != i
  }

  // From place k of the list on, no controller has a joint at place i of the command.
  predicate MissFrom(cfg: Config, cs: map<string, Controller>, names: seq<string>, k: nat, i: nat) {
    forall m :: k <= m < |names| ==> names[m] in cs && Misses(cfg, JointsOf(cs[names[m]]), i)
  }

  lemma CycleNext(cfg: Config, cs: map<string, Controller>, cmd: Entries, names: seq<string>, i: nat, out: Outputs)
    requires InRange(cmd, cfg.cmdIndex) && SoundAll(cfg, cs) && Known(names, cs) && i < |names|
    ensures Known(names[..i], cs) && Known(names[..i + 1], cs) && names[i] in cs
    ensures var r := Cycle(cfg, cs, cmd, names[..i], out);
            var c := UpdatedCtl(cfg, r.controllers[names[i]]);
            Cycle(cfg, cs, cmd, names[..i + 1], out)
              == Cycled(r.controllers[names[i] := c], Merge(cfg, r.cmd, CommandOf(cfg, c, names[i], out)))
  {
    assert names[..i + 1][..i] == names[..i];
  }

  lemma LastMisses(cfg: Config, cs: map<string, Controller>, cmd: Entries, names: seq<string>, out: Outputs, i: nat)
    requires InRange(cmd, cfg.cmdIndex) && SoundAll(cfg, cs) && Known(names, cs) && i < |cmd|
    requires names != [] && Misses(cfg, JointsOf(cs[names[|names| - 1]]), i)
    ensures Cycle(cfg, cs, cmd, names, out).cmd[i] == Cycle(cfg, cs, cmd, names[..|names| - 1], out).cmd[i]
  {
    var r := Cycle(cfg, cs, cmd, names[..|names| - 1], out);
    var name := names[|names| - 1];
    var es := CommandOf(cfg, UpdatedCtl(cfg, r.controllers[name]), name, out);
    assert Untouched(cfg, es, i);
    MergeKeeps(cfg, r.cmd, es, i);
  }

  /** Controllers that come later in the list and do not touch place i leave its command alone. */
  lemma {:induction false} LaterMiss(cfg: Config, cs: map<string, Controller>, cmd: Entries, names: seq<string>, k: nat, out: Outputs, i: nat)
    requires InRange(cmd, cfg.cmdIndex) && SoundAll(cfg, cs) && Known(names, cs) && k <= |names| && i < |cmd|
    requires MissFrom(cfg, cs, names, k, i)
    ensures Cycle(cfg, cs, cmd, names, out).cmd[i] == Cycle(cfg, cs, cmd, names[..k], out).cmd[i]
    decreases |names|
  {
    if |names| == k {
      assert names[..k] == names;
    } else {
      var short := names[..|names| - 1];
      assert short[..k] == names[..k];
      LaterMiss(cfg, cs, cmd, short, k, out, i);
      LastMisses(cfg, cs, cmd, names, out, i);
    }
  }

  lemma {:induction false} LaterStay(cfg: Config, cs: map<string, Controller>, cmd: Entries, names: seq<string>, k: nat, out: Outputs, n: string)
    requires InRange(cmd, cfg.cmdIndex) && SoundAll(cfg, cs) && Known(names, cs) && k <= |names|
    requires n in cs && n !in names[k..]
    ensures Cycle(cfg, cs, cmd, names, out).controllers[n] == Cycle(cfg, cs, cmd, names[..k], out).controllers[n]
    decreases |names|
  {
    if |names| == k {
      assert names[..k] == names;
    } else {
      var short := names[..|names| - 1];
      assert short[..k] == names[..k] && names[k..] == short[k..] + [names[|names| - 1]];
      LaterStay(cfg, cs, cmd, short, k, out, n);
    }
  }

  // The controller at place k of the list alone decides place i of the command, through its j-th
  // joint.
  predicate Decides(cfg: Config, cs: map<string, Controller>, names: seq<string>, k: nat, i: nat, j: nat) {
    && Known(names, cs) && k < |names| && names[k] in cs
    && (forall m :: 0 <= m < |names| && m != k ==> names[m] != names[k])
    && LastJoint(cfg, JointsOf(cs[names[k]]), i, j) && MissFrom(cfg, cs, names, k + 1, i)
  }

  // What the command shows for the j-th joint of a controller.
  predicate EntryShown(cfg: Config, c: Controller, name: string, out: Outputs, j: nat, e: Entry)
    requires SoundCtl(cfg, c) && j < |JointsOf(c)|
  {
    match c
    case PdCtl(pd) => e == Shifted(cfg.offset, CommandEntry(pd, j))
    case RlCtl(joints) =>
      var o := Value(out, name, j);
      e == o.(name := joints[j], position := o.position + OffsetOf(cfg.offset, joints[j]))
  }

  lemma LastJointShown(cfg: Config, cmd: Entries, c: Controller, name: string, out: Outputs, i: nat, j: nat)
    requires InRange(cmd, cfg.cmdIndex) && SoundCtl(cfg, c) && i < |cmd| && LastJoint(cfg, JointsOf(c), i, j)
    ensures EntryShown(cfg, c, name, out, j, Merge(cfg, cmd, CommandOf(cfg, c, name, out))[i])
  {
    MergeIs(cfg, cmd, CommandOf(cfg, c, name, out), i, j);
  }

  /** In one cycle that controller is updated once, and its entry for the j-th joint with the offset
      is what the command shows at place i. */
  lemma DecidedCommand(cfg: Config, cs: map<string, Controller>, cmd: Entries, names: seq<string>, out: Outputs, k: nat, i: nat, j: nat)
    requires InRange(cmd, cfg.cmdIndex) && SoundAll(cfg, cs) && i < |cmd|
    requires Decides(cfg, cs, names, k, i, j)
    ensures var r := Cycle(cfg, cs, cmd, names, out);
            var c := UpdatedCtl(cfg, cs[names[k]]);
            r.controllers[names[k]] == c && SoundCtl(cfg, c) && j < |JointsOf(c)| && EntryShown(cfg, c, names[k], out, j, r.cmd[i])
  {
    hide EntryShown, Merge, CommandOf, Cycle, UpdatedCtl, MissFrom;
    var name, before := names[k], names[..k];
    var r0 := Cycle(cfg, cs, cmd, before, out);
    OthersStay(cfg, cs, cmd, before, out, name);
    CycleNext(cfg, cs, cmd, names, k, out);
    UpdatedJoints(cfg, cs[name]);
    LastJointShown(cfg, r0.cmd, UpdatedCtl(cfg, cs[name]), name, out, i, j);
    LaterMiss(cfg, cs, cmd, names, k + 1, out, i);
    LaterStay(cfg, cs, cmd, names, k + 1, out, name);
  }

  lemma UpdatedJoints(cfg: Config, c: Controller)
    requires SoundCtl(cfg, c)
    ensures SoundCtl(cfg, UpdatedCtl(cfg, c)) && JointsOf(UpdatedCtl(cfg, c)) == JointsOf(c)
  {
  }

  // ---- runs ----

  datatype Action =
    | TriggerEvent(now: int, topic: string)
    | JointState(raw: seq<real>)
    | MainCycle(out: Outputs)

  /** What the configuration and the parts that never change guarantee. */
  predicate Sound(cfg: Config, c: Control) {
    && InRange(c.cmd, cfg.cmdIndex) && SoundAll(cfg, c.controllers)
    && Known(c.active, c.controllers)
    && (forall s :: s in cfg.states ==> Known(s.controllers, c.controllers))
    && Active(cfg.states, c.current, c.active)
  }

  // Messages all have the size of the first one.
  predicate Possible(cfg: Config, a: Action) {
    a.JointState? ==> |a.raw| == cfg.messageSize
  }

  function Step(cfg: Config, c: Control, a: Action): Control
    requires Sound(cfg, c) && Possible(cfg, a)
  {
    match a
    case TriggerEvent(now, topic) => Trigger(cfg, c, now, topic)
    case JointState(raw) => c.(controllers := MeasuredAll(cfg, c.controllers, raw))
    case MainCycle(out) =>
      var r := Cycle(cfg, c.controllers, c.cmd, c.active, out);
      c.(controllers := r.controllers, cmd := r.cmd)
  }

  lemma TriggerKeeps(cfg: Config, c: Control, now: int, topic: string)
    requires Sound(cfg, c)
    ensures Sound(cfg, Trigger(cfg, c, now, topic))
  {
    if Accepts(cfg, c, now, topic) {
      TargetIff(cfg.states, topic, c.current);
      assert Target(cfg.states, topic, c.current).value in cfg.states;
    }
  }

  lemma StepKeeps(cfg: Config, c: Control, a: Action)
    requires Sound(cfg, c) && Possible(cfg, a)
    ensures Sound(cfg, Step(cfg, c, a))
  {
    if a.TriggerEvent? {
      TriggerKeeps(cfg, c, a.now, a.topic);
    }
  }

  predicate AllPossible(cfg: Config, run: seq<Action>) {
    forall a :: a in run ==> Possible(cfg, a)
  }

  /** In every run the active controllers are those of the current state. */
  function Run(cfg: Config, c: Control, run: seq<Action>): (r: Control)
    requires Sound(cfg, c) && AllPossible(cfg, run)
    ensures Sound(cfg, r) && Active(cfg.states, r.current, r.active)
    decreases |run|
  {
    if run == [] then c
    else
      var before := Run(cfg, c, run[..|run| - 1]);
      StepKeeps(cfg, before, run[|run| - 1]);
      Step(cfg, before, run[|run| - 1])
  }

  predicate IsAccepted(cfg: Config, c: Control, a: Action) {
    a.TriggerEvent? && Accepts(cfg, c, a.now, a.topic)
  }

  // The times of the accepted events of a run.
  function AcceptedTimes(cfg: Config, c: Control, run: seq<Action>): seq<int>
    requires Sound(cfg, c) && AllPossible(cfg, run)
    decreases |run|
  {
    if run == [] then []
    else
      var before := Run(cfg, c, run[..|run| - 1]);
      var a := run[|run| - 1];
      AcceptedTimes(cfg, c, run[..|run| - 1]) + (if IsAccepted(cfg, before, a) then [a.now] else [])
  }

  predicate Spaced(ts: seq<int>, last: int) {
    && (forall i :: 0 <= i < |ts| - 1 ==> ts[i + 1] - ts[i] >= 1_000_000_000)
    && (ts != [] ==> last >= ts[|ts| - 1])
  }

  /** In every run accepted transitions are at least the interval apart, whatever clock readings
      the events bring. */
  lemma {:induction false} AcceptedSpaced(cfg: Config, c: Control, run: seq<Action>)
    requires Sound(cfg, c) && AllPossible(cfg, run)
    ensures Spaced(AcceptedTimes(cfg, c, run), Run(cfg, c, run).last)
    ensures Run(cfg, c, run).last >= c.last
    ensures AcceptedTimes(cfg, c, run) != [] ==> AcceptedTimes(cfg, c, run)[0] - c.last >= 1_000_000_000
    decreases |run|
  {
    if run != [] {
      var before, a := run[..|run| - 1], run[|run| - 1];
      AcceptedSpaced(cfg, c, before);
      SpacedNext(AcceptedTimes(cfg, c, before), Run(cfg, c, before).last, Run(cfg, c, run).last);
      LastMoves(cfg, Run(cfg, c, before), a);
    }
  }

  lemma SpacedNext(ts: seq<int>, last: int, next: int)
    requires Spaced(ts, last)
    ensures next >= last ==> Spaced(ts, next)
    ensures next - last >= INTERVAL ==> Spaced(ts + [next], next)
  {
  }

  lemma LastMoves(cfg: Config, c: Control, a: Action)
    requires Sound(cfg, c) && Possible(cfg, a)
    ensures Step(cfg, c, a).last == if a.TriggerEvent? && Elapsed(a.now, c.last) then a.now else c.last
    ensures Step(cfg, c, a).last >= c.last
    ensures IsAccepted(cfg, c, a) ==> Step(cfg, c, a).last == a.now && a.now - c.last >= INTERVAL
  {
  }

  // The times of the events of a run that got past the throttle, whether or not the state allowed
  // them.
  function PassedTimes(cfg: Config, c: Control, run: seq<Action>): seq<int>
    requires Sound(cfg, c) && AllPossible(cfg, run)
    decreases |run|
  {
    if run == [] then []
    else
      var before := Run(cfg, c, run[..|run| - 1]);
      var a := run[|run| - 1];
      PassedTimes(cfg, c, run[..|run| - 1]) + (if a.TriggerEvent? && Elapsed(a.now, before.last) then [a.now] else [])
  }

  // The mark of the throttle is the time of the last event that passed it.
  lemma {:induction false} LastIsPassed(cfg: Config, c: Control, run: seq<Action>)
    requires Sound(cfg, c) && AllPossible(cfg, run)
    ensures var ts := PassedTimes(cfg, c, run);
            Run(cfg, c, run).last == if ts == [] then c.last else ts[|ts| - 1]
    ensures forall i :: 0 <= i < |PassedTimes(cfg, c, run)| ==> PassedTimes(cfg, c, run)[i] <= Run(cfg, c, run).last
    ensures c.last <= Run(cfg, c, run).last
    decreases |run|
  {
    hide Sound, Step;
    if run != [] {
      LastIsPassed(cfg, c, run[..|run| - 1]);
      LastMoves(cfg, Run(cfg, c, run[..|run| - 1]), run[|run| - 1]);
    }
  }

  /** After any run an event is accepted exactly when the state allows it and no event that passed
      the throttle, were it itself accepted or not, lies less than the interval back; nor does the
      start. */
  lemma AcceptedIff(cfg: Config, c: Control, run: seq<Action>, now: int, topic: string)
    requires Sound(cfg, c) && AllPossible(cfg, run)
    ensures IsAccepted(cfg, Run(cfg, c, run), TriggerEvent(now, topic)) <==>
              && (exists s :: s in cfg.states && s.trigger == topic && Run(cfg, c, run).current in s.preStates)
              && now - c.last >= 1_000_000_000
              && forall i :: 0 <= i < |PassedTimes(cfg, c, run)| ==> now - PassedTimes(cfg, c, run)[i] >= 1_000_000_000
  {
    LastIsPassed(cfg, c, run);
    TargetIff(cfg.states, topic, Run(cfg, c, run).current);
  }

  // ---- bumpless transitions ----

  // The joint angles the controllers hold are those of this message.
  predicate MeasuredBy(cfg: Config, cs: map<string, Controller>, raw: seq<real>)
    requires SoundAll(cfg, cs)
  {
    |raw| == cfg.messageSize && forall n :: n in cs ==> Measured(cfg, cs[n], raw) == cs[n]
  }

  function LastMessage(run: seq<Action>): Option<seq<real>> {
    if run == [] then None
    else if run[|run| - 1].JointState? then Some(run[|run| - 1].raw)
    else LastMessage(run[..|run| - 1])
  }

  lemma MessageMeasures(cfg: Config, cs: map<string, Controller>, raw: seq<real>)
    requires SoundAll(cfg, cs) && |raw| == cfg.messageSize
    ensures SoundAll(cfg, MeasuredAll(cfg, cs, raw)) && MeasuredBy(cfg, MeasuredAll(cfg, cs, raw), raw)
  {
  }

  lemma CycleKeepsAngles(cfg: Config, cs: map<string, Controller>, cmd: Entries, names: seq<string>, out: Outputs, raw: seq<real>)
    requires InRange(cmd, cfg.cmdIndex) && SoundAll(cfg, cs) && Known(names, cs) && MeasuredBy(cfg, cs, raw)
    ensures MeasuredBy(cfg, Cycle(cfg, cs, cmd, names, out).controllers, raw)
    decreases |names|
  {
    if names != [] {
      CycleKeepsAngles(cfg, cs, cmd, names[..|names| - 1], out, raw);
    }
  }

  lemma StepKeepsAngles(cfg: Config, c: Control, a: Action, raw: seq<real>)
    requires Sound(cfg, c) && Possible(cfg, a) && MeasuredBy(cfg, c.controllers, raw) && !a.JointState?
    ensures Sound(cfg, Step(cfg, c, a)) && MeasuredBy(cfg, Step(cfg, c, a).controllers, raw)
  {
    StepKeeps(cfg, c, a);
    if a.MainCycle? {
      CycleKeepsAngles(cfg, c.controllers, c.cmd, c.active, a.out, raw);
    }
  }

  lemma {:induction false} RunMeasured(cfg: Config, c: Control, run: seq<Action>, raw: seq<real>)
    requires Sound(cfg, c) && AllPossible(cfg, run) && LastMessage(run) == Some(raw)
    ensures MeasuredBy(cfg, Run(cfg, c, run).controllers, raw)
    decreases |run|
  {
    var before, a := run[..|run| - 1], run[|run| - 1];
    if a.JointState? {
      assert Possible(cfg, a);
      MessageMeasures(cfg, Run(cfg, c, before).controllers, a.raw);
    } else {
      RunMeasured(cfg, c, before, raw);
      StepKeepsAngles(cfg, Run(cfg, c, before), a, raw);
    }
  }

  lemma DecidesByKind(cfg: Config, cs: map<string, Controller>, ds: map<string, Controller>, names: seq<string>, k: nat, i: nat, j: nat)
    requires SameKinds(cs, ds) && Decides(cfg, cs, names, k, i, j)
    ensures Decides(cfg, ds, names, k, i, j)
  {
    forall n | n in cs ensures JointsOf(ds[n]) == JointsOf(cs[n]) {
      assert Kind(ds[n]) == Kind(cs[n]);
    }
    assert Kind(ds[names[k]]) == Kind(cs[names[k]]);
  }

  lemma StepKinds(cfg: Config, c: Control, a: Action)
    requires Sound(cfg, c) && Possible(cfg, a)
    ensures SameKinds(c.controllers, Step(cfg, c, a).controllers)
  {
  }

  function Cycles(run: seq<Action>): nat {
    if run == [] then 0 else Cycles(run[..|run| - 1]) + (if run[|run| - 1].MainCycle? then 1 else 0)
  }

  // A controller n updates after it was base, its angles aside; a keeping one does not move.
  function Ramped(base: Pd, n: nat): Pd {
    if base.keep then base else base.(percent := Ramp(n))
  }

  predicate Ramping(cs: map<string, Controller>, name: string, base: Pd, n: nat) {
    name in cs && cs[name].PdCtl? && cs[name].pd.(position := base.position) == Ramped(base, n)
  }

  lemma RampingUpdated(pd: Pd, base: Pd, n: nat)
    requires Shaped(pd) && pd.(position := base.position) == Ramped(base, n)
    ensures Updated(pd).(position := base.position) == Ramped(base, n + 1)
  {
    RampNext(n);
  }

  // The command at place i is that of the base ramp after n updates.
  predicate Shows(cfg: Config, cmd: Entries, i: nat, base: Pd, n: nat, j: nat)
    requires Shaped(base) && j < |base.joints|
  {
    i < |cmd| && cmd[i] == Shifted(cfg.offset, CommandEntry(Ramped(base, n), j))
  }

  lemma RampingStep(cfg: Config, c: Control, a: Action, base: Pd, n: nat, k: nat, i: nat, j: nat)
    requires Sound(cfg, c) && Possible(cfg, a) && !IsAccepted(cfg, c, a) && i < |c.cmd|
    requires Decides(cfg, c.controllers, c.active, k, i, j) && Shaped(base) && j < |base.joints|
    requires Ramping(c.controllers, c.active[k], base, n)
    ensures var d := Step(cfg, c, a);
            && d.active == c.active && |d.cmd| == |c.cmd|
            && Ramping(d.controllers, c.active[k], base, if a.MainCycle? then n + 1 else n)
            && (a.MainCycle? ==> Shows(cfg, d.cmd, i, base, n + 1, j))
            && (!a.MainCycle? ==> d.cmd == c.cmd)
  {
    if a.MainCycle? {
      DecidedCommand(cfg, c.controllers, c.cmd, c.active, a.out, k, i, j);
      RampingUpdated(c.controllers[c.active[k]].pd, base, n);
    }
  }

  lemma {:induction false} RampingRun(cfg: Config, c: Control, run: seq<Action>, base: Pd, k: nat, i: nat, j: nat)
    requires Sound(cfg, c) && AllPossible(cfg, run) && AcceptedTimes(cfg, c, run) == [] && i < |c.cmd|
    requires Decides(cfg, c.controllers, c.active, k, i, j) && Shaped(base) && j < |base.joints|
    requires Ramping(c.controllers, c.active[k], base, 0)
    ensures var d := Run(cfg, c, run);
            && d.active == c.active && |d.cmd| == |c.cmd| && Decides(cfg, d.controllers, d.active, k, i, j)
            && Ramping(d.controllers, c.active[k], base, Cycles(run))
            && (Cycles(run) > 0 ==> Shows(cfg, d.cmd, i, base, Cycles(run), j))
    decreases |run|
  {
    hide Shows, Ramp, Cycle, RestartAll, MeasuredAll;
    if run != [] {
      var before, a := run[..|run| - 1], run[|run| - 1];
      RampingRun(cfg, c, before, base, k, i, j);
      var b := Run(cfg, c, before);
      RampingStep(cfg, b, a, base, Cycles(before), k, i, j);
      StepKinds(cfg, b, a);
      DecidesByKind(cfg, b.controllers, Step(cfg, b, a).controllers, b.active, k, i, j);
    }
  }

  // What an accepted event makes of a PD controller of the new state.
  lemma RestartsAtAngles(cfg: Config, c: Control, event: Action, d: Control, k: nat, raw: seq<real>, pd: Pd)
    requires Sound(cfg, c) && MeasuredBy(cfg, c.controllers, raw)
    requires IsAccepted(cfg, c, event) && d == Step(cfg, c, event)
    requires k < |d.active| && d.active[k] in d.controllers && d.controllers[d.active[k]] == PdCtl(pd)
    ensures RestartedFrom(cfg, pd, raw)
  {
    var name := d.active[k];
    TargetIff(cfg.states, event.topic, c.current);
    StepKeeps(cfg, c, event);
    assert d.controllers[name] == RestartedCtl(c.controllers[name]);
    assert Measured(cfg, c.controllers[name], raw) == c.controllers[name];
  }

  // The controller has just been restarted at the corrected angles of this message.
  predicate RestartedFrom(cfg: Config, pd: Pd, raw: seq<real>) {
    && Shaped(pd) && pd.percent == 0.0
    && Locates(cfg.stateIndex, pd.joints, |raw|) && pd.start == Corrected(cfg, pd.joints, raw)
  }

  // Where a joint is sent n cycles after it stood at m, on its way to the goal.
  function OnTheWay(m: real, goal: real, n: nat): real {
    m + Part(Ramp(n), goal - m)
  }

  // What the command shows for a joint of a controller n cycles after it was restarted with the
  // joint at the raw angle m: its gains, and the position that is due.
  predicate Bumps(offset: map<string, real>, pd: Pd, j: nat, m: real, n: nat, e: Entry)
    requires Shaped(pd) && j < |pd.joints|
  {
    && e.name == pd.joints[j] && e.velocity == 0.0 && e.effort == 0.0
    && e.stiffness == pd.stiffness[j] && e.damping == pd.damping[j]
    && e.position == if pd.keep then m else OnTheWay(m, pd.target[j] + OffsetOf(offset, pd.joints[j]), n)
  }

  lemma ShownEntry(cfg: Config, cmd: Entries, i: nat, pd: Pd, n: nat, j: nat, raw: seq<real>, joint: string)
    requires RestartedFrom(cfg, pd, raw) && j < |pd.joints| && joint == pd.joints[j] && Shows(cfg, cmd, i, pd, n, j)
    ensures joint in cfg.stateIndex && cfg.stateIndex[joint] < |raw| && i < |cmd|
    ensures Bumps(cfg.offset, pd, j, raw[cfg.stateIndex[joint]], n, cmd[i])
  {
    MixIs(pd.start[j], pd.target[j], Ramp(n));
  }

  /** Bumpless transition: after any run, let an event be accepted; let a PD controller of the new
      state be the last to cover place i of the command, through its j-th joint. Then the n-th
      command published from there, as long as no further event is accepted, shows that joint with
      its stiffness and damping, no velocity or effort, and the position
      m + min(1, n/2000) (target + offset - m), m the raw angle in the last joint message; a keeping
      controller shows m itself. */
  lemma Bumpless(cfg: Config, start: Control, prior: seq<Action>, event: Action, run: seq<Action>, c: Control, d: Control,
                 k: nat, i: nat, j: nat, pd: Pd, joint: string, raw: seq<real>)
    requires Sound(cfg, start) && AllPossible(cfg, prior) && c == Run(cfg, start, prior) && LastMessage(prior) == Some(raw)
    requires IsAccepted(cfg, c, event) && d == Step(cfg, c, event)
    requires Sound(cfg, d) && AllPossible(cfg, run) && AcceptedTimes(cfg, d, run) == [] && Cycles(run) > 0
    requires i < |d.cmd| && Decides(cfg, d.controllers, d.active, k, i, j)
    requires d.controllers[d.active[k]] == PdCtl(pd) && joint == pd.joints[j]
    ensures joint in cfg.stateIndex && cfg.stateIndex[joint] < |raw| && i < |Run(cfg, d, run).cmd|
    ensures Bumps(cfg.offset, pd, j, raw[cfg.stateIndex[joint]], Cycles(run), Run(cfg, d, run).cmd[i])
  {
    RunMeasured(cfg, start, prior, raw);
    RestartsAtAngles(cfg, c, event, d, k, raw, pd);
    RampShown(cfg, d, run, k, i, j, pd, raw, joint);
  }

  lemma RampShown(cfg: Config, d: Control, run: seq<Action>, k: nat, i: nat, j: nat, pd: Pd, raw: seq<real>, joint: string)
    requires Sound(cfg, d) && AllPossible(cfg, run) && AcceptedTimes(cfg, d, run) == [] && Cycles(run) > 0
    requires i < |d.cmd| && Decides(cfg, d.controllers, d.active, k, i, j)
    requires d.controllers[d.active[k]] == PdCtl(pd) && RestartedFrom(cfg, pd, raw) && joint == pd.joints[j]
    ensures joint in cfg.stateIndex && cfg.stateIndex[joint] < |raw| && i < |Run(cfg, d, run).cmd|
    ensures Bumps(cfg.offset, pd, j, raw[cfg.stateIndex[joint]], Cycles(run), Run(cfg, d, run).cmd[i])
  {
    RampStartsAtZero(pd);
    RampingRun(cfg, d, run, pd, k, i, j);
    ShownEntry(cfg, Run(cfg, d, run).cmd, i, pd, Cycles(run), j, raw, joint);
  }

  lemma RampStartsAtZero(pd: Pd)
    requires pd.percent == 0.0
    ensures pd.(position := pd.position) == Ramped(pd, 0)
  {
  }
}
