/** Shutting the simulator down: the render loop, the shutdown itself and any number of command
    callbacks share a flag, a mutex, a two-valued exit handshake and the model that is freed. */
module SimShutdown {

  const POLLS: nat := 400

  datatype Thread = Nobody | Renderer | Closer | Callback(i: nat)

  // exitrequest: nothing asked, exit asked, render loop over.
  datatype Exit = Running | Asked | Over

  datatype Render =
    | Guard            // the loop condition
    | WaitFrame        // taking the lock for a frame
    | Polling          // loading, events and uploads, under the lock
    | Syncing          // Sync, under the lock
    | Leaving          // releasing the lock
    | Drawing          // Render, outside the lock
    | WaitEnd          // after the loop, taking the lock
    | Ending           // freeing the scene, then storing Over
    | Stored           // releasing the lock at the end of the function
    | Gone

  datatype Close =
    | NotAsked
    | Asking           // the exchange of Running for Asked
    | Waiting(polls: nat)
    | Checking(polls: nat)
    | WaitFree
    | Freeing          // the noise buffer
    | FreeingData
    | FreeingModel
    | Released         // releasing the lock
    | Closed
    | GaveUp(polls: nat)

  datatype Command =
    | Outside
    | Entered          // past the first test of the flag
    | WaitLock
    | Rechecking       // flag and data tested again under the lock
    | Writing
    | Stepping
    | Reading
    | Exiting          // releasing the lock

  // Which parts of the model have not been freed.
  datatype Memory = Memory(noise: bool, data: bool, model: bool)

  datatype State = State(running: bool, exit: Exit, lock: Thread, memory: Memory, fault: bool,
                         render: Render, close: Close, commands: seq<Command>)

  // One step of one thread. What the environment decides comes with the step: the window closed,
  // the quit item chosen, a callback within the first three seconds.
  datatype Action = RenderStep(closed: bool, quit: bool) | CloseStep | CommandStep(i: nat, early: bool)

  function Touch(s: State, needed: bool): State {
    if needed then s else s.(fault := true)
  }

  function RenderMoves(s: State, closed: bool, quit: bool): State {
    match s.render
    case Guard => s.(render := if closed || s.exit != Running then WaitEnd else WaitFrame)
    case WaitFrame => if s.lock == Nobody then s.(lock := Renderer, render := Polling) else s
    case Polling => Touch(s.(render := Syncing, exit := if quit then Asked else s.exit), s.memory.data && s.memory.model)
    case Syncing => if s.exit != Running then s.(render := Leaving) else Touch(s.(render := Leaving), s.memory.data && s.memory.model)
    case Leaving => s.(lock := Nobody, render := Drawing)
    case Drawing => Touch(s.(render := Guard), s.memory.data && s.memory.model)
    case WaitEnd => if s.lock == Nobody then s.(lock := Renderer, render := Ending) else s
    case Ending => s.(exit := Over, render := Stored)
    case Stored => s.(lock := Nobody, render := Gone)
    case Gone => s
  }

  function CloseMoves(s: State): State {
    match s.close
    case NotAsked => s.(running := false, close := Asking)
    case Asking => s.(exit := if s.exit == Running then Asked else s.exit, close := Waiting(0))
    case Waiting(n) => s.(close := if n < POLLS && s.exit != Over then Waiting(n + 1) else Checking(n))
    case Checking(n) => s.(close := if s.exit != Over then GaveUp(n) else WaitFree)
    case WaitFree => if s.lock == Nobody then s.(lock := Closer, close := Freeing) else s
    case Freeing => s.(memory := s.memory.(noise := false), close := FreeingData)
    case FreeingData => s.(memory := s.memory.(data := false), close := FreeingModel)
    case FreeingModel => s.(memory := s.memory.(model := false), close := Released)
    case Released => s.(lock := Nobody, close := Closed)
    case Closed => s
    case GaveUp(_) => s
  }

  function CommandMoves(s: State, i: nat, early: bool): State
    requires i < |s.commands|
  {
    match s.commands[i]
    case Outside => if s.running then At(s, i, Entered) else s
    case Entered => At(s, i, if early then Outside else WaitLock)
    case WaitLock => if s.lock == Nobody then At(s, i, Rechecking).(lock := Callback(i)) else s
    case Rechecking => At(s, i, if !s.running || !s.memory.data then Exiting else Writing)
    case Writing => Touch(At(s, i, Stepping), s.memory.noise && s.memory.data && s.memory.model)
    case Stepping => Touch(At(s, i, Reading), s.memory.data && s.memory.model)
    case Reading => Touch(At(s, i, Exiting), s.memory.data)
    case Exiting => At(s, i, Outside).(lock := Nobody)
  }

  function At(s: State, i: nat, c: Command): State
    requires i < |s.commands|
  {
    s.(commands := s.commands[i := c])
  }

  function Step(s: State, a: Action): State {
    match a
    case RenderStep(closed, quit) => RenderMoves(s, closed, quit)
    case CloseStep => CloseMoves(s)
    case CommandStep(i, early) => if i < |s.commands| then CommandMoves(s, i, early) else s
  }

  // Started, with any number of callback threads outside.
  function Start(threads: nat): State {
    State(true, Running, Nobody, Memory(true, true, true), false, Guard, NotAsked, seq(threads, i => Outside))
  }

  function Run(threads: nat, run: seq<Action>): State {
    if run == [] then Start(threads) else Step(Run(threads, run[..|run| - 1]), run[|run| - 1])
  }

  // ---- what every state of every run keeps ----

  predicate RenderLocks(r: Render) {
    r.Polling? || r.Syncing? || r.Leaving? || r.Ending? || r.Stored?
  }

  predicate CloseLocks(c: Close) {
    c.Freeing? || c.FreeingData? || c.FreeingModel? || c.Released?
  }

  predicate CommandLocks(c: Command) {
    c.Rechecking? || c.Writing? || c.Stepping? || c.Reading? || c.Exiting?
  }

  // The lock belongs to exactly the thread that is inside a locked section.
  predicate LockRight(s: State) {
    && (RenderLocks(s.render) <==> s.lock == Renderer)
    && (CloseLocks(s.close) <==> s.lock == Closer)
    && (forall i :: 0 <= i < |s.commands| ==> (CommandLocks(s.commands[i]) <==> s.lock == Callback(i)))
    && (s.lock.Callback? ==> s.lock.i < |s.commands|)
  }

  // The handshake: Over is stored by the render loop alone, on its way out.
  predicate ExitRight(s: State) {
    && (s.exit == Over <==> s.render.Stored? || s.render.Gone?)
    && (s.close.WaitFree? || CloseLocks(s.close) || s.close.Closed? ==> s.exit == Over)
    && (CloseLocks(s.close) || s.close.Closed? ==> s.render.Gone?)
    && (!s.close.NotAsked? ==> !s.running)
    && (!s.close.NotAsked? && !s.close.Asking? ==> s.exit != Running)
    && (s.close.Waiting? ==> s.close.polls <= POLLS)
    && (s.close.Checking? && s.exit != Over ==> s.close.polls == POLLS)
    && (s.close.GaveUp? ==> s.close.polls == POLLS)
  }

  // What has been freed, and when.
  predicate MemoryRight(s: State) {
    && (s.memory.noise <==> !(s.close.FreeingData? || s.close.FreeingModel? || s.close.Released? || s.close.Closed?))
    && (s.memory.data <==> !(s.close.FreeingModel? || s.close.Released? || s.close.Closed?))
    && (s.memory.model <==> !(s.close.Released? || s.close.Closed?))
  }

  // A callback that is past its tests works on memory that is there.
  predicate CommandsRight(s: State) {
    forall i :: 0 <= i < |s.commands| && (s.commands[i].Writing? || s.commands[i].Stepping? || s.commands[i].Reading?) ==>
      s.memory == Memory(true, true, true)
  }

  predicate Safe(s: State) {
    LockRight(s) && ExitRight(s) && MemoryRight(s) && CommandsRight(s) && !s.fault
  }

  // The render loop moves on, taking or releasing the lock at most for itself.
  lemma LockRendered(s: State, d: State)
    requires LockRight(s) && d.close == s.close && d.commands == s.commands
    requires d.lock == s.lock || (s.lock == Nobody && d.lock == Renderer) || (s.lock == Renderer && d.lock == Nobody)
    requires RenderLocks(d.render) <==> d.lock == Renderer
    ensures LockRight(d)
  {
  }

  lemma RenderKeepsLock(s: State, closed: bool, quit: bool)
    requires LockRight(s)
    ensures LockRight(RenderMoves(s, closed, quit))
  {
    hide CloseLocks, CommandLocks;
    LockRendered(s, RenderMoves(s, closed, quit));
  }

  lemma RenderKeepsExit(s: State, closed: bool, quit: bool)
    requires LockRight(s) && ExitRight(s) && MemoryRight(s) && !s.fault
    ensures ExitRight(RenderMoves(s, closed, quit)) && !RenderMoves(s, closed, quit).fault
  {
  }

  lemma RenderKeeps(s: State, closed: bool, quit: bool)
    requires Safe(s)
    ensures Safe(RenderMoves(s, closed, quit))
  {
    hide LockRight, ExitRight;
    RenderKeepsLock(s, closed, quit);
    RenderKeepsExit(s, closed, quit);
    RenderChanges(s, closed, quit);
  }

  lemma RenderChanges(s: State, closed: bool, quit: bool)
    ensures var d := RenderMoves(s, closed, quit); d.memory == s.memory && d.close == s.close && d.commands == s.commands
  {
  }

  lemma CloseKeeps(s: State)
    requires Safe(s)
    ensures Safe(CloseMoves(s))
  {
  }

  // One callback moves on, taking or releasing the lock at most for itself.
  lemma LockAt(s: State, i: nat, d: State)
    requires LockRight(s) && i < |s.commands| == |d.commands| && d.render == s.render && d.close == s.close
    requires forall k :: 0 <= k < |s.commands| && k != i ==> d.commands[k] == s.commands[k]
    requires d.lock == s.lock || (s.lock == Nobody && d.lock == Callback(i)) || (s.lock == Callback(i) && d.lock == Nobody)
    requires CommandLocks(d.commands[i]) <==> d.lock == Callback(i)
    ensures LockRight(d)
  {
  }

  lemma CommandKeepsLock(s: State, i: nat, early: bool)
    requires LockRight(s) && i < |s.commands|
    ensures LockRight(CommandMoves(s, i, early))
  {
    assert CommandLocks(s.commands[i]) <==> s.lock == Callback(i);
    LockAt(s, i, CommandMoves(s, i, early));
  }

  lemma CommandKeepsMemory(s: State, i: nat, early: bool)
    requires LockRight(s) && MemoryRight(s) && CommandsRight(s) && !s.fault && i < |s.commands|
    requires !s.close.NotAsked? ==> !s.running
    ensures CommandsRight(CommandMoves(s, i, early)) && !CommandMoves(s, i, early).fault
  {
    assert CommandLocks(s.commands[i]) <==> s.lock == Callback(i);
  }

  lemma CommandKeeps(s: State, i: nat, early: bool)
    requires Safe(s) && i < |s.commands|
    ensures Safe(CommandMoves(s, i, early))
  {
    CommandKeepsLock(s, i, early);
    CommandKeepsMemory(s, i, early);
    CommandChanges(s, i, early);
  }

  lemma CommandChanges(s: State, i: nat, early: bool)
    requires i < |s.commands|
    ensures var d := CommandMoves(s, i, early);
            d.running == s.running && d.exit == s.exit && d.memory == s.memory && d.render == s.render && d.close == s.close
  {
  }

  /** In every run, whatever the interleaving, no step of any thread touches freed memory. */
  lemma {:induction false} EveryRunSafe(threads: nat, run: seq<Action>)
    ensures Safe(Run(threads, run))
  {
    if run != [] {
      var s := Run(threads, run[..|run| - 1]);
      EveryRunSafe(threads, run[..|run| - 1]);
      match run[|run| - 1] {
        case RenderStep(closed, quit) => RenderKeeps(s, closed, quit);
        case CloseStep => CloseKeeps(s);
        case CommandStep(i, early) =>
          if i < |s.commands| {
            CommandKeeps(s, i, early);
          }
      }
    }
  }

  function Freed(s: State): bool {
    !s.memory.noise || !s.memory.data || !s.memory.model
  }

  /** Memory is freed only after the render loop has stored Over and left, with no callback at
      work in it; and a shutdown that gives up has polled 400 times and frees nothing. */
  lemma FreedOnlyAfterOver(threads: nat, run: seq<Action>)
    ensures var s := Run(threads, run);
            Freed(s) ==> && s.exit == Over && s.render == Gone && !s.running
                         && forall i :: 0 <= i < |s.commands| ==> !s.commands[i].Writing? && !s.commands[i].Stepping? && !s.commands[i].Reading?
    ensures var s := Run(threads, run);
            s.close.GaveUp? ==> !Freed(s) && s.close.polls == 400
  {
    EveryRunSafe(threads, run);
  }

  function Level(e: Exit): nat {
    match e
    case Running => 0
    case Asked => 1
    case Over => 2
  }

  /** The handshake value never goes back, and what is freed stays freed, once; after giving up
      nothing is ever freed. */
  lemma ExitNeverGoesBack(threads: nat, run: seq<Action>, a: Action)
    ensures var s, d := Run(threads, run), Run(threads, run + [a]);
            && Level(s.exit) <= Level(d.exit)
            && (s.close.GaveUp? ==> d.close == s.close && !Freed(d))
            && (s.close.Closed? ==> d.close == s.close && d.memory == s.memory == Memory(false, false, false))
  {
    hide LockRight, CommandsRight;
    assert (run + [a])[..|run|] == run;
    EveryRunSafe(threads, run);
    EveryRunSafe(threads, run + [a]);
  }

  // ---- the render loop does come to its end ----

  // Steps the render loop still needs once the exit has been asked for.
  function StepsLeft(r: Render): nat {
    match r
    case WaitFrame => 8
    case Polling => 7
    case Syncing => 6
    case Leaving => 5
    case Drawing => 4
    case Guard => 3
    case WaitEnd => 2
    case Ending => 1
    case Stored => 0
    case Gone => 0
  }

  // Steps until the holder of the lock lets it go.
  function HolderLeft(s: State): nat {
    match s.lock
    case Nobody => 0
    case Renderer => if s.render.Stored? then 1 else 0
    case Closer => (match s.close case Freeing => 4 case FreeingData => 3 case FreeingModel => 2 case _ => 1)
    case Callback(i) =>
      if i < |s.commands| then
        match s.commands[i] case Rechecking => 5 case Writing => 4 case Stepping => 3 case Reading => 2 case _ => 1
      else 0
  }

  function HolderStep(s: State): Action {
    match s.lock
    case Closer => CloseStep
    case Callback(i) => CommandStep(i, false)
    case _ => RenderStep(false, false)
  }

  /** Once the exit is asked for, every render step that is not held up by the lock brings the loop
      nearer to storing Over; when it is held up, the holder's next step is free to run and brings
      the lock nearer to release. So no thread waits for ever for another. */
  lemma ExitComesNearer(threads: nat, run: seq<Action>, closed: bool, quit: bool)
    requires var s := Run(threads, run); s.exit == Asked
    ensures var s := Run(threads, run);
            StepsLeft(s.render) > 0
            && if (s.render.WaitFrame? || s.render.WaitEnd?) && s.lock != Nobody
               then HolderLeft(s) > 0 && HolderLeft(Step(s, HolderStep(s))) < HolderLeft(s)
               else var d := Step(s, RenderStep(closed, quit)); d.exit != Running && StepsLeft(d.render) < StepsLeft(s.render)
  {
    var s := Run(threads, run);
    EveryRunSafe(threads, run);
    if (s.render.WaitFrame? || s.render.WaitEnd?) && s.lock != Nobody {
      HolderNearer(s);
    } else {
      RenderNearer(s, closed, quit);
    }
  }

  lemma RenderNearer(s: State, closed: bool, quit: bool)
    requires s.exit == Asked && !s.render.Stored? && !s.render.Gone?
    requires s.render.WaitFrame? || s.render.WaitEnd? ==> s.lock == Nobody
    ensures var d := RenderMoves(s, closed, quit); d.exit != Running && StepsLeft(d.render) < StepsLeft(s.render)
  {
  }

  lemma HolderNearer(s: State)
    requires LockRight(s) && ExitRight(s) && s.lock != Nobody && s.lock != Renderer
    requires s.lock.Callback? ==> s.lock.i < |s.commands|
    ensures HolderLeft(s) > 0 && HolderLeft(Step(s, HolderStep(s))) < HolderLeft(s)
  {
    if s.lock.Callback? {
      CallbackNearer(s, s.lock.i);
    }
  }

  lemma CallbackNearer(s: State, i: nat)
    requires LockRight(s) && s.lock == Callback(i) && i < |s.commands|
    ensures HolderLeft(s) > 0 && HolderLeft(CommandMoves(s, i, false)) < HolderLeft(s)
  {
    assert CommandLocks(s.commands[i]);
  }

  // ---- whole continuations of a run ----

  function RunFrom(s: State, more: seq<Action>): State {
    if more == [] then s else Step(RunFrom(s, more[..|more| - 1]), more[|more| - 1])
  }

  // The step is not one that finds the lock taken.
  predicate Moves(s: State, a: Action) {
    match a
    case RenderStep(_, _) => (s.render.WaitFrame? || s.render.WaitEnd?) ==> s.lock == Nobody
    case CloseStep => s.close.WaitFree? ==> s.lock == Nobody
    case CommandStep(i, _) => i < |s.commands| && (s.commands[i].WaitLock? ==> s.lock == Nobody)
  }

  function RenderMovesIn(s: State, more: seq<Action>): nat {
    if more == [] then 0
    else
      var before, a := more[..|more| - 1], more[|more| - 1];
      RenderMovesIn(s, before) + (if a.RenderStep? && Moves(RunFrom(s, before), a) then 1 else 0)
  }

  function CloseMovesIn(s: State, more: seq<Action>): nat {
    if more == [] then 0
    else
      var before, a := more[..|more| - 1], more[|more| - 1];
      CloseMovesIn(s, before) + (if a == CloseStep && Moves(RunFrom(s, before), a) then 1 else 0)
  }

  lemma {:induction false} RunOn(threads: nat, run: seq<Action>, more: seq<Action>)
    ensures Run(threads, run + more) == RunFrom(Run(threads, run), more)
    decreases |more|
  {
    if more == [] {
      assert run + more == run;
    } else {
      RunOn(threads, run, more[..|more| - 1]);
      assert (run + more)[..|run + more| - 1] == run + more[..|more| - 1];
    }
  }

  // Steps the shutdown still needs once the render loop is over.
  function CloseLeft(c: Close): nat {
    match c
    case NotAsked => 9
    case Asking => 8
    case Waiting(_) => 7
    case Checking(_) => 6
    case WaitFree => 5
    case Freeing => 4
    case FreeingData => 3
    case FreeingModel => 2
    case Released => 1
    case Closed => 0
    case GaveUp(_) => 0
  }

  lemma ExitStep(s: State, a: Action)
    requires Safe(s) && s.exit != Running
    ensures Step(s, a).exit != Running
    ensures s.exit == Over ==> Step(s, a).exit == Over
    ensures Step(s, a).exit != Over ==>
              StepsLeft(Step(s, a).render) <= StepsLeft(s.render) - (if a.RenderStep? && Moves(s, a) then 1 else 0)
  {
    if a.RenderStep? && Moves(s, a) && s.exit == Asked {
      RenderNearer(s, a.closed, a.quit);
    }
  }

  lemma OverStep(s: State, a: Action)
    requires Safe(s) && s.exit == Over && !s.close.GaveUp?
    ensures Step(s, a).exit == Over && !Step(s, a).close.GaveUp?
    ensures s.close.Closed? ==> Step(s, a).close.Closed?
    ensures !s.close.Closed? ==> CloseLeft(Step(s, a).close) <= CloseLeft(s.close) - (if a == CloseStep && Moves(s, a) then 1 else 0)
  {
  }

  /** Once the exit is asked for, the render loop stores Over within eight steps that are not held
      up by the lock, however the other threads' steps lie between them. */
  lemma {:induction false} AskedBecomesOver(threads: nat, run: seq<Action>, more: seq<Action>)
    requires Run(threads, run).exit != Running
    ensures var d := Run(threads, run + more);
            && d.exit != Running
            && (Run(threads, run).exit == Over ==> d.exit == Over)
            && (d.exit != Over ==> StepsLeft(d.render) + RenderMovesIn(Run(threads, run), more) <= StepsLeft(Run(threads, run).render))
    ensures RenderMovesIn(Run(threads, run), more) >= 8 ==> Run(threads, run + more).exit == Over
    decreases |more|
  {
    hide Step, Moves, LockRight, CommandsRight, MemoryRight;
    RunOn(threads, run, more);
    EveryRunSafe(threads, run + more);
    if more != [] {
      var before, a := more[..|more| - 1], more[|more| - 1];
      AskedBecomesOver(threads, run, before);
      RunOn(threads, run, before);
      EveryRunSafe(threads, run + before);
      ExitStep(Run(threads, run + before), a);
    }
  }

  /** Once the render loop is over, a shutdown that has not given up never does, and within nine
      steps that are not held up by the lock it has closed and freed everything. */
  lemma {:induction false} OverIsClosed(threads: nat, run: seq<Action>, more: seq<Action>)
    requires var s := Run(threads, run); s.exit == Over && !s.close.GaveUp?
    ensures var s, d := Run(threads, run), Run(threads, run + more);
            && d.exit == Over && !d.close.GaveUp?
            && (d.close.Closed? ==> d.memory == Memory(false, false, false))
            && (d.close.Closed? || CloseLeft(d.close) + CloseMovesIn(s, more) <= CloseLeft(s.close))
    ensures CloseMovesIn(Run(threads, run), more) >= 9 ==> Run(threads, run + more).close.Closed?
    decreases |more|
  {
    hide Step, Moves, StepsLeft, LockRight, CommandsRight, ExitRight;
    RunOn(threads, run, more);
    EveryRunSafe(threads, run + more);
    if more != [] {
      var before, a := more[..|more| - 1], more[|more| - 1];
      OverIsClosed(threads, run, before);
      RunOn(threads, run, before);
      EveryRunSafe(threads, run + before);
      OverStep(Run(threads, run + before), a);
    }
  }

  /** A shutdown held up by the lock waits only for a thread whose next steps are free to run and
      bring the lock nearer to release. */
  lemma CloserWaitsForHolder(threads: nat, run: seq<Action>)
    requires var s := Run(threads, run); s.close.WaitFree? && s.lock != Nobody
    ensures var s := Run(threads, run);
            Moves(s, HolderStep(s)) && HolderLeft(s) > 0 && HolderLeft(Step(s, HolderStep(s))) < HolderLeft(s)
  {
    var s := Run(threads, run);
    EveryRunSafe(threads, run);
    if s.lock.Callback? {
      CallbackNearer(s, s.lock.i);
    }
  }

  // ---- what the threads do when nothing is shut down ----

  function Frame(): seq<Action> {
    seq(6, _ => RenderStep(false, false))
  }

  function Order(i: nat, n: nat): seq<Action> {
    seq(n, _ => CommandStep(i, false))
  }

  /** With no exit asked for and the lock free, six steps draw one frame and leave everything as
      it was. */
  lemma FrameDrawn(threads: nat, run: seq<Action>)
    requires var s := Run(threads, run); s.render == Guard && s.exit == Running && s.lock == Nobody
    ensures Run(threads, run + Frame()) == Run(threads, run)
  {
    hide Step;
    EveryRunSafe(threads, run);
    RunOn(threads, run, Frame());
    OneFrame(Run(threads, run), RenderStep(false, false));
    SixSteps(Run(threads, run), RenderStep(false, false), Frame());
  }

  lemma OneFrame(s: State, a: Action)
    requires Safe(s) && s.render == Guard && s.exit == Running && s.lock == Nobody && a == RenderStep(false, false)
    ensures Step(Step(Step(Step(Step(Step(s, a), a), a), a), a), a) == s
  {
  }

  lemma SixSteps(s: State, a: Action, more: seq<Action>)
    requires more == seq(6, _ => a)
    ensures RunFrom(s, more) == Step(Step(Step(Step(Step(Step(s, a), a), a), a), a), a)
  {
    Again(s, a, 1);
    Again(s, a, 2);
    Again(s, a, 3);
    Again(s, a, 4);
    Again(s, a, 5);
    Again(s, a, 6);
  }

  lemma Again(s: State, a: Action, n: nat)
    requires n > 0
    ensures RunFrom(s, seq(n, _ => a)) == Step(RunFrom(s, seq(n - 1, _ => a)), a)
  {
    assert seq(n, _ => a)[..n - 1] == seq(n - 1, _ => a);
  }

  lemma AtTwice(s: State, i: nat, c: Command, d: Command, l: Thread, m: Thread)
    requires i < |s.commands|
    ensures At(At(s, i, c).(lock := l), i, d).(lock := m) == At(s, i, d).(lock := m)
  {
  }

  // Where the callback is after it has taken the lock and tested again.
  function Tested(s: State): Command {
    if s.running && s.memory.data then Writing else Exiting
  }

  lemma TakesLock(s: State, i: nat, a: Action)
    requires i < |s.commands| && s.commands[i] == WaitLock && s.lock == Nobody && a == CommandStep(i, false)
    ensures Step(Step(s, a), a) == At(s, i, Tested(s)).(lock := Callback(i))
  {
    AtTwice(s, i, Rechecking, Tested(s), Callback(i), Callback(i));
  }

  lemma WorksOff(s: State, i: nat, a: Action)
    requires i < |s.commands| && s.memory == Memory(true, true, true) && a == CommandStep(i, false)
    ensures var d := At(s, i, Writing).(lock := Callback(i));
            Step(Step(Step(d, a), a), a) == At(s, i, Exiting).(lock := Callback(i))
  {
    var l := Callback(i);
    AtTwice(s, i, Writing, Stepping, l, l);
    AtTwice(s, i, Stepping, Reading, l, l);
    AtTwice(s, i, Reading, Exiting, l, l);
  }

  lemma LetsGo(s: State, i: nat, a: Action)
    requires i < |s.commands| && s.lock == Nobody && a == CommandStep(i, false)
    ensures Step(At(s, i, Exiting).(lock := Callback(i)), a) == At(s, i, Outside)
  {
    AtTwice(s, i, Exiting, Outside, Callback(i), Nobody);
  }

  /** A callback that finds the lock free gets to write its command exactly when the simulation is
      running and its data not freed; either way it lets the lock go and is outside again. */
  lemma CallbackWritesIff(threads: nat, run: seq<Action>, i: nat)
    requires var s := Run(threads, run); i < |s.commands| && s.commands[i] == WaitLock && s.lock == Nobody
    ensures var s := Run(threads, run);
            && Run(threads, run + Order(i, 2)) == At(s, i, if s.running && s.memory.data then Writing else Exiting).(lock := Callback(i))
            && Run(threads, run + Order(i, if s.running && s.memory.data then 6 else 3)) == At(s, i, Outside)
  {
    hide Step;
    var s, a := Run(threads, run), CommandStep(i, false);
    EveryRunSafe(threads, run);
    RunOn(threads, run, Order(i, 2));
    RunOn(threads, run, Order(i, 3));
    RunOn(threads, run, Order(i, 6));
    Again(s, a, 1);
    Again(s, a, 2);
    Again(s, a, 3);
    TakesLock(s, i, a);
    LetsGo(s, i, a);
    if s.running && s.memory.data {
      SixSteps(s, a, Order(i, 6));
      WorksOff(s, i, a);
    }
  }
}
