/** The PD controller: a ramp from the joint angles at the restart to fixed target angles. */
module PdControllerClass {
  import opened Common

  // One joint of a joint command.
  datatype Entry = Entry(name: string, position: real, velocity: real, effort: real, damping: real, stiffness: real)

  // What a PD controller holds; the first six parts never change.
  datatype Pd = Pd(joints: seq<string>, target: seq<real>, stiffness: seq<real>, damping: seq<real>, keep: bool,
                   duration: real, position: seq<real>, start: seq<real>, percent: real)

  predicate Shaped(p: Pd) {
    && |p.target| == |p.stiffness| == |p.damping| == |p.position| == |p.start| == |p.joints|
    && p.duration == 2.0
  }

  // Every joint has a place in a message of n entries.
  predicate Locates(index: map<string, nat>, joints: seq<string>, n: nat) {
    forall i :: 0 <= i < |joints| ==> joints[i] in index && index[joints[i]] < n
  }

  // A controller's joints picked out of a message.
  function Selected(joints: seq<string>, msg: seq<real>, index: map<string, nat>): (r: seq<real>)
    requires Locates(index, joints, |msg|)
    ensures |r| == |joints| && forall i :: 0 <= i < |r| ==> r[i] == msg[index[joints[i]]]
  {
    seq(|joints|, i requires 0 <= i < |joints| => msg[index[joints[i]]])
  }

  function Restarted(p: Pd): Pd {
    p.(start := p.position, percent := 0.0)
  }

  function Updated(p: Pd): Pd
    requires p.duration != 0.0
  {
    if p.keep then p else p.(percent := Min(p.percent + 1.0 / p.duration / 1000.0, 1.0))
  }

  function Mix(start: real, target: real, percent: real): real {
    start * (1.0 - percent) + target * percent
  }

  function Wanted(p: Pd, i: nat): real
    requires Shaped(p) && i < |p.joints|
  {
    if p.keep then p.start[i] else Mix(p.start[i], p.target[i], p.percent)
  }

  function CommandEntry(p: Pd, i: nat): Entry
    requires Shaped(p) && i < |p.joints|
  {
    Entry(p.joints[i], Wanted(p, i), 0.0, 0.0, p.damping[i], p.stiffness[i])
  }

  function PdCommand(p: Pd): (es: seq<Entry>)
    requires Shaped(p)
    ensures |es| == |p.joints|
    ensures forall i :: 0 <= i < |es| ==> es[i] == CommandEntry(p, i)
  {
    seq(|p.joints|, i requires 0 <= i < |p.joints| => CommandEntry(p, i))
  }

  // ---- the ramp ----

  // How far the ramp has come after k updates, in closed form.
  function Ramp(k: nat): real {
    Min(k as real / 2000.0, 1.0)
  }

  function UpdatedMany(p: Pd, k: nat): Pd
    requires p.duration != 0.0
    ensures UpdatedMany(p, k).duration == p.duration
  {
    if k == 0 then p else Updated(UpdatedMany(p, k - 1))
  }

  lemma RampNext(k: nat)
    ensures Ramp(k + 1) == Min(Ramp(k) + 1.0 / 2.0 / 1000.0, 1.0)
  {
  }

  /** k updates after a restart a moving controller has come k/2000 of the way, and never more
      than all of it; a keeping one has not moved. */
  lemma {:induction false} RampIs(p: Pd, k: nat)
    requires Shaped(p)
    ensures UpdatedMany(Restarted(p), k) == Restarted(p).(percent := if p.keep then 0.0 else Ramp(k))
  {
    if k > 0 {
      RampIs(p, k - 1);
      RampNext(k - 1);
    }
  }

  /** The command starts where the joint was, never leaves the way to the target, comes closer
      with every update and arrives for good after 2000 of them. */
  lemma RampShape(start: real, target: real, k: nat)
    ensures Mix(start, target, Ramp(0)) == start
    ensures k >= 2000 ==> Mix(start, target, Ramp(k)) == target
    ensures start <= target ==> start <= Mix(start, target, Ramp(k)) <= Mix(start, target, Ramp(k + 1)) <= target
    ensures start >= target ==> start >= Mix(start, target, Ramp(k)) >= Mix(start, target, Ramp(k + 1)) >= target
    ensures Mix(start, target, Ramp(k + 1)) - Mix(start, target, Ramp(k)) == (Ramp(k + 1) - Ramp(k)) * (target - start)
  {
    MixIs(start, target, Ramp(0));
    MixIs(start, target, Ramp(k));
    MixIs(start, target, Ramp(k + 1));
    ScaledOrder(target - start, Ramp(k), Ramp(k + 1));
    assert (Ramp(k + 1) - Ramp(k)) * (target - start) == Part(Ramp(k + 1), target - start) - Part(Ramp(k), target - start);
  }

  lemma MixIs(start: real, target: real, percent: real)
    ensures Mix(start, target, percent) == start + Part(percent, target - start)
    ensures percent == 0.0 ==> Mix(start, target, percent) == start
    ensures percent == 1.0 ==> Mix(start, target, percent) == target
  {
  }

  lemma ScaledOrder(d: real, a: real, b: real)
    requires 0.0 <= a <= b <= 1.0
    ensures d >= 0.0 ==> 0.0 <= Part(a, d) <= Part(b, d) <= d
    ensures d <= 0.0 ==> 0.0 >= Part(a, d) >= Part(b, d) >= d
  {
    PartOrder(d, 0.0, a);
    PartOrder(d, a, b);
    PartOrder(d, b, 1.0);
    assert Part(0.0, d) == 0.0 && Part(1.0, d) == d;
  }

  lemma PartOrder(d: real, a: real, b: real)
    requires a <= b
    ensures d >= 0.0 ==> Part(a, d) <= Part(b, d)
    ensures d <= 0.0 ==> Part(a, d) >= Part(b, d)
  {
    assert Part(b, d) - Part(a, d) == (b - a) * d;
  }

  class PDController {
    const joints: seq<string>
    const target: seq<real>
    const stiffness: seq<real>
    const damping: seq<real>
    const keep: bool
    const duration: real
    var position: seq<real>
    var start: seq<real>
    var percent: real

    function Abstract(): Pd
      reads this
    {
      Pd(joints, target, stiffness, damping, keep, duration, position, start, percent)
    }

    constructor (joints: seq<string>, target: seq<real>, stiffness: seq<real>, damping: seq<real>, keep: bool)
      requires |target| == |stiffness| == |damping| == |joints|
      ensures Shaped(Abstract())
      ensures this.joints == joints && this.target == target && this.keep == keep
      ensures this.stiffness == stiffness && this.damping == damping && percent == 0.0
    {
      this.joints, this.target, this.stiffness, this.damping, this.keep := joints, target, stiffness, damping, keep;
      duration := 2.0;
      position, start := seq(|joints|, i => 0.0), seq(|joints|, i => 0.0);
      percent := 0.0;
    }

    method RestartController()
      modifies this
      ensures Abstract() == Restarted(old(Abstract()))
    {
      start := position;
      percent := 0.0;
    }

    method Update()
      requires Shaped(Abstract())
      modifies this
      ensures Abstract() == Updated(old(Abstract()))
    {
      if keep {
        return;
      }
      percent := percent + 1.0 / duration / 1000.0;
      percent := Min(percent, 1.0);
    }

    method SetJointStateData(msg: seq<real>, index: map<string, nat>)
      requires Shaped(Abstract()) && Locates(index, joints, |msg|)
      modifies this`position
      ensures Abstract() == old(Abstract()).(position := Selected(joints, msg, index))
    {
      for i := 0 to |joints|
        invariant |position| == |joints| && position[..i] == Selected(joints, msg, index)[..i]
      {
        position := position[i := msg[index[joints[i]]]];
      }
    }

    method GetJointCmdData() returns (es: seq<Entry>)
      requires Shaped(Abstract())
      ensures es == PdCommand(Abstract())
    {
      es := [];
      for i := 0 to |joints|
        invariant es == PdCommand(Abstract())[..i]
      {
        assert PdCommand(Abstract())[..i + 1] == PdCommand(Abstract())[..i] + [CommandEntry(Abstract(), i)];
        var wanted := start[i];
        if !keep {
          wanted := Mix(start[i], target[i], percent);
        }
        es := es + [Entry(joints[i], wanted, 0.0, 0.0, damping[i], stiffness[i])];
      }
    }
  }
}
