/** The robot's state machine: which controllers are active, and which events change them. */
module StateMachineClass {
  import opened Common

  datatype RobotState = RobotState(name: string, trigger: string, preStates: seq<string>, controllers: seq<string>)

  // The states an event may lead to, in the order of the configuration.
  function Candidates(config: seq<RobotState>, topic: string): seq<RobotState> {
    if config == [] then []
    else
      var before := Candidates(config[..|config| - 1], topic);
      var s := config[|config| - 1];
      if s.trigger == topic then before + [s] else before
  }

  predicate Allows(s: RobotState, current: string) {
    current in s.preStates
  }

  // The first candidate that may follow the current state.
  function FirstAllowed(states: seq<RobotState>, current: string): (r: Option<RobotState>)
    ensures r.Some? ==> r.value in states && Allows(r.value, current)
    ensures r.None? ==> forall s :: s in states ==> !Allows(s, current)
  {
    if states == [] then None
    else if Allows(states[0], current) then Some(states[0])
    else FirstAllowed(states[1..], current)
  }

  function Target(config: seq<RobotState>, topic: string, current: string): Option<RobotState> {
    FirstAllowed(Candidates(config, topic), current)
  }

  lemma {:induction false} CandidatesAre(config: seq<RobotState>, topic: string, s: RobotState)
    ensures s in Candidates(config, topic) <==> s in config && s.trigger == topic
  {
    if config != [] {
      CandidatesAre(config[..|config| - 1], topic, s);
      assert config == config[..|config| - 1] + [config[|config| - 1]];
    }
  }

  /** An event is taken exactly when some configured state with that trigger may follow the
      current one, and the state taken is such a state. */
  lemma TargetIff(config: seq<RobotState>, topic: string, current: string)
    ensures Target(config, topic, current).Some? <==>
              exists s :: s in config && s.trigger == topic && current in s.preStates
    ensures Target(config, topic, current).Some? ==>
              var s := Target(config, topic, current).value; s in config && s.trigger == topic && current in s.preStates
  {
    forall s ensures s in Candidates(config, topic) <==> s in config && s.trigger == topic {
      CandidatesAre(config, topic, s);
    }
  }

  lemma FirstAllowedMore(states: seq<RobotState>, s: RobotState, current: string)
    ensures FirstAllowed(states + [s], current)
         == if FirstAllowed(states, current).Some? then FirstAllowed(states, current)
            else if Allows(s, current) then Some(s) else None
  {
    if states != [] {
      assert (states + [s])[1..] == states[1..] + [s];
      FirstAllowedMore(states[1..], s, current);
    }
  }

  /** Of several such states it is the first of the configuration. */
  lemma {:induction false} TargetFirst(config: seq<RobotState>, topic: string, current: string, k: nat)
    requires k < |config| && config[k].trigger == topic && current in config[k].preStates
    requires forall j :: 0 <= j < k ==> config[j].trigger != topic || current !in config[j].preStates
    ensures Target(config, topic, current) == Some(config[k])
  {
    var before, s := config[..|config| - 1], config[|config| - 1];
    if s.trigger == topic {
      FirstAllowedMore(Candidates(before, topic), s, current);
    }
    if k < |config| - 1 {
      TargetFirst(before, topic, current, k);
    } else {
      TargetIff(before, topic, current);
    }
  }

  lemma {:induction false} FirstCandidate(config: seq<RobotState>, topic: string)
    requires config != [] && config[0].trigger == topic
    ensures Candidates(config, topic) != [] && Candidates(config, topic)[0] == config[0]
  {
    if |config| > 1 {
      FirstCandidate(config[..|config| - 1], topic);
    }
  }

  predicate DistinctNames(config: seq<RobotState>) {
    forall i, j :: 0 <= i < j < |config| ==> config[i].name != config[j].name
  }

  // The controllers are those of the current state.
  predicate Active(config: seq<RobotState>, current: string, controllers: seq<string>) {
    exists s :: s in config && s.name == current && s.controllers == controllers
  }

  // With one state per name there is only one such list.
  lemma ActiveUnique(config: seq<RobotState>, current: string, c: seq<string>, d: seq<string>)
    requires DistinctNames(config) && Active(config, current, c) && Active(config, current, d)
    ensures c == d
  {
    var s :| s in config && s.name == current && s.controllers == c;
    var t :| t in config && t.name == current && t.controllers == d;
    var i :| 0 <= i < |config| && config[i] == s;
    var j :| 0 <= j < |config| && config[j] == t;
    assert i == j;
  }

  class StateMachine {
    var triggerMap: map<string, seq<RobotState>>
    var current: string
    var controllers: seq<string>
    ghost var config: seq<RobotState>

    ghost predicate Valid()
      reads this
    {
      && Active(config, current, controllers)
      && forall t: string :: StatesFor(triggerMap, t) == Candidates(config, t)
    }

    static function StatesFor(m: map<string, seq<RobotState>>, t: string): seq<RobotState> {
      if t in m then m[t] else []
    }

    constructor (states: seq<RobotState>)
      requires states != []
      ensures Valid() && config == states
      ensures current == states[0].name && controllers == states[0].controllers
    {
      new;
      Init(states);
    }

    method Init(states: seq<RobotState>)
      requires states != []
      modifies this
      ensures Valid() && config == states
      ensures current == states[0].name && controllers == states[0].controllers
    {
      triggerMap := map[];
      for i := 0 to |states|
        invariant forall t: string :: StatesFor(triggerMap, t) == Candidates(states[..i], t)
      {
        var s := states[i];
        assert states[..i + 1][..i] == states[..i];
        triggerMap := triggerMap[s.trigger := StatesFor(triggerMap, s.trigger) + [s]];
      }
      assert states[..|states|] == states;
      config := states;
      FirstCandidate(states, states[0].trigger);
      current := states[0].name;
      assert StatesFor(triggerMap, states[0].trigger) == Candidates(states, states[0].trigger);
      controllers := triggerMap[states[0].trigger][0].controllers;
    }

    /** The event is taken by the first state that allows it; otherwise nothing changes. */
    method OnEvent(topic: string) returns (accepted: bool)
      requires Valid()
      modifies this`triggerMap, this`current, this`controllers
      ensures Valid()
      ensures accepted <==> Target(config, topic, old(current)).Some?
      ensures accepted ==> current == Target(config, topic, old(current)).value.name
                           && controllers == Target(config, topic, old(current)).value.controllers
      ensures !accepted ==> current == old(current) && controllers == old(controllers)
    {
      var states := StatesFor(triggerMap, topic);
      triggerMap := triggerMap[topic := states];
      TargetIff(config, topic, current);
      for i := 0 to |states|
        invariant FirstAllowed(states, current) == FirstAllowed(states[i..], current)
        invariant current == old(current) && controllers == old(controllers)
        invariant Valid() && states == Candidates(config, topic)
      {
        if current in states[i].preStates {
          current := states[i].name;
          controllers := states[i].controllers;
          return true;
        }
      }
      accepted := false;
    }
  }
}
