/** The control module as objects: its callbacks and its main loop are the steps of ControlLoop. */
module ControlModuleClass {
  import opened Common
  import opened StateMachineClass
  import opened PdControllerClass
  import opened ControlLoop

  class ControlModule {
    const cfg: Config
    const machine: StateMachine
    const pds: map<string, PDController>
    const rls: map<string, seq<string>>
    const cmd: array<Entry>
    var lastTriggerTime: int

    // The controllers of the module as values.
    ghost function Controllers(): map<string, Controller>
      reads pds.Values
    {
      map n | n in pds.Keys + rls.Keys :: if n in pds then PdCtl(pds[n].Abstract()) else RlCtl(rls[n])
    }

    ghost function Abstract(): Control
      reads this, machine, cmd, pds.Values
    {
      Control(machine.current, machine.controllers, lastTriggerTime, Controllers(), cmd[..])
    }

    ghost predicate Valid()
      reads this, machine, cmd, pds.Values
    {
      && machine.Valid() && machine.config == cfg.states
      && (forall m, n :: m in pds && n in pds && m != n ==> pds[m] != pds[n])
      && Sound(cfg, Abstract())
    }

    /** The controllers are built before; the command has one entry per joint of the robot. */
    constructor (cfg: Config, pds: map<string, PDController>, rls: map<string, seq<string>>, joints: nat, now: int)
      requires cfg.states != [] && joints > 0 && (forall n :: n in cfg.cmdIndex ==> cfg.cmdIndex[n] < joints)
      requires forall m, n :: m in pds && n in pds && m != n ==> pds[m] != pds[n]
      requires forall n :: n in pds ==> SoundCtl(cfg, PdCtl(pds[n].Abstract()))
      requires forall s :: s in cfg.states ==> forall n :: n in s.controllers ==> n in pds.Keys + rls.Keys
      ensures Valid() && this.cfg == cfg && this.pds == pds && this.rls == rls && lastTriggerTime == now
      ensures machine.current == cfg.states[0].name && machine.controllers == cfg.states[0].controllers
      ensures fresh(machine) && fresh(cmd)
    {
      this.cfg, this.pds, this.rls, lastTriggerTime := cfg, pds, rls, now;
      machine := new StateMachine(cfg.states);
      cmd := new Entry[joints](_ => Entry("", 0.0, 0.0, 0.0, 0.0, 0.0));
      new;
      assert cfg.states[0] in cfg.states;
    }

    method RestartOne(n: string)
      requires n in pds && (forall m :: m in pds && m != n ==> pds[m] != pds[n])
      modifies pds[n]
      ensures Controllers() == old(Controllers())[n := RestartedCtl(old(Controllers())[n])]
    {
      pds[n].RestartController();
    }

    method UpdateOne(n: string)
      requires n in pds && (forall m :: m in pds && m != n ==> pds[m] != pds[n]) && Shaped(pds[n].Abstract())
      modifies pds[n]
      ensures Controllers() == old(Controllers())[n := PdCtl(Updated(old(pds[n].Abstract())))]
    {
      pds[n].Update();
    }

    /** The trigger callback. */
    method OnTrigger(now: int, topic: string)
      requires Valid()
      modifies this`lastTriggerTime, machine, pds.Values
      ensures Valid() && Abstract() == Trigger(cfg, old(Abstract()), now, topic)
    {
      hide Sound;
      TriggerKeeps(cfg, Abstract(), now, topic);
      ghost var was := Abstract();
      ghost var after := Trigger(cfg, was, now, topic);
      var passed, next := Throttler(now, lastTriggerTime);
      lastTriggerTime := next;
      var accepted := false;
      if passed {
        accepted := machine.OnEvent(topic);
      }
      assert accepted <==> Accepts(cfg, was, now, topic);
      assert Controllers() == was.controllers;
      if accepted {
        TargetIff(cfg.states, topic, was.current);
        RestartActive(machine.controllers);
      }
      assert Controllers() == after.controllers;
      assert Abstract() == after;
    }

    method RestartActive(names: seq<string>)
      requires forall m, n :: m in pds && n in pds && m != n ==> pds[m] != pds[n]
      modifies pds.Values
      ensures Controllers() == RestartAll(old(Controllers()), names)
    {
      for i := 0 to |names|
        invariant Controllers() == RestartAll(old(Controllers()), names[..i])
      {
        RestartNext(old(Controllers()), names, i);
        if names[i] in pds {
          RestartOne(names[i]);
        }
      }
      assert names[..|names|] == names;
    }

    method MeasureOne(n: string, msg: seq<real>, raw: seq<real>)
      requires n in pds && (forall m :: m in pds && m != n ==> pds[m] != pds[n])
      requires SoundCtl(cfg, PdCtl(pds[n].Abstract())) && |raw| == cfg.messageSize && OffsetsRemoved(cfg, raw, msg)
      modifies pds[n]
      ensures Controllers() == old(Controllers())[n := Measured(cfg, PdCtl(old(pds[n].Abstract())), raw)]
    {
      SelectedIsCorrected(cfg, pds[n].joints, raw, msg);
      pds[n].SetJointStateData(msg, cfg.stateIndex);
    }

    /** The joint state callback: offsets taken off a copy of the message, then every controller
        given its joints. */
    method OnJointState(raw: seq<real>)
      requires Valid() && |raw| == cfg.messageSize && Injective(cfg.stateIndex) && OffsetsLocated(cfg)
      modifies pds.Values
      ensures Valid() && Abstract() == Step(cfg, old(Abstract()), JointState(raw))
    {
      hide MeasuredAll;
      ghost var after := Step(cfg, Abstract(), JointState(raw));
      StepKeeps(cfg, Abstract(), JointState(raw));
      var msg := WithoutOffsets(raw);
      MeasureEach(msg, raw);
      assert Abstract() == after;
    }

    method WithoutOffsets(raw: seq<real>) returns (msg: seq<real>)
      requires |raw| == cfg.messageSize && Injective(cfg.stateIndex) && OffsetsLocated(cfg)
      ensures OffsetsRemoved(cfg, raw, msg)
    {
      var copy := new real[|raw|](i requires 0 <= i < |raw| => raw[i]);
      assert copy[..] == raw;
      RemoveOffsets(cfg, copy);
      msg := copy[..];
    }

    method MeasureEach(msg: seq<real>, raw: seq<real>)
      requires forall m, n :: m in pds && n in pds && m != n ==> pds[m] != pds[n]
      requires SoundAll(cfg, Controllers()) && |raw| == cfg.messageSize && OffsetsRemoved(cfg, raw, msg)
      modifies pds.Values
      ensures Controllers() == MeasuredAll(cfg, old(Controllers()), raw)
    {
      var left := pds.Keys;
      MeasuredEnds(cfg, Controllers(), left, raw);
      while left != {}
        invariant left <= pds.Keys
        invariant Controllers() == MeasuredBut(cfg, old(Controllers()), left, raw)
        decreases |left|
      {
        var n :| n in left;
        MeasuredNext(cfg, old(Controllers()), left, raw, n);
        assert SoundCtl(cfg, old(Controllers())[n]);
        MeasureOne(n, msg, raw);
        left := left - {n};
      }
    }

    /** One turn of the main loop: the active controllers in order, each updated and its command
        merged into the message. */
    method MainTurn(out: Outputs)
      requires Valid()
      modifies cmd, pds.Values
      ensures Valid() && Abstract() == Step(cfg, old(Abstract()), MainCycle(out))
    {
      ghost var after := Step(cfg, Abstract(), MainCycle(out));
      StepKeeps(cfg, Abstract(), MainCycle(out));
      RunActive(machine.controllers, out);
      assert Abstract() == after;
    }

    method RunActive(names: seq<string>, out: Outputs)
      requires forall m, n :: m in pds && n in pds && m != n ==> pds[m] != pds[n]
      requires SoundAll(cfg, Controllers()) && InRange(cmd[..], cfg.cmdIndex) && Known(names, Controllers())
      modifies cmd, pds.Values
      ensures Cycled(Controllers(), cmd[..]) == Cycle(cfg, old(Controllers()), old(cmd[..]), names, out)
    {
      for i := 0 to |names|
        invariant Cycled(Controllers(), cmd[..]) == Cycle(cfg, old(Controllers()), old(cmd[..]), names[..i], out)
      {
        CycleNext(cfg, old(Controllers()), old(cmd[..]), names, i, out);
        RunOne(names[i], out);
      }
      assert names[..|names|] == names;
    }

    method RunOne(name: string, out: Outputs)
      requires forall m, n :: m in pds && n in pds && m != n ==> pds[m] != pds[n]
      requires SoundAll(cfg, Controllers()) && InRange(cmd[..], cfg.cmdIndex) && name in Controllers()
      modifies cmd, pds.Values
      ensures var c := UpdatedCtl(cfg, old(Controllers())[name]);
              && Controllers() == old(Controllers())[name := c]
              && cmd[..] == Merge(cfg, old(cmd[..]), CommandOf(cfg, c, name, out))
    {
      var es: Entries;
      assert SoundCtl(cfg, Controllers()[name]);
      if name in pds {
        UpdateOne(name);
        es := pds[name].GetJointCmdData();
      } else {
        es := CommandOf(cfg, RlCtl(rls[name]), name, out);
      }
      MergeInto(cfg, cmd, es);
    }
  }
}
