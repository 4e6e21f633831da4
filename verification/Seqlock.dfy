/** The single-writer, many-reader seqlock around the published IMU observation, one memory
    word at a time. A schedule is any sequence of actions; an action that is not enabled does
    nothing, so a statement about every schedule is about every interleaving. Neither the
    assignment nor the memcpy promises an order of words, so each action names its word. */
module Seqlock {
  import opened Common

  const WORDS: nat := 16     // a 64-byte observation
  const SEQ_WORD: nat := 12  // its sequence number, at byte offset 48

  type Words = s: seq<int> | |s| == WORDS witness seq(WORDS, _ => 0)
  type Sources = s: seq<nat> | |s| == WORDS witness seq(WORDS, _ => 0)

  // The observations the writer publishes: data(n) at version 2n, data(0) being the initial one.
  type Data = nat -> Words

  /** The read loop as written, or one that also retries when the version it read is odd. */
  datatype Variant = AsWritten | RetryOnOdd

  datatype Writer = Resting | Storing(done: set<nat>)

  datatype Pc = Outside | LoadV0 | Copying(done: set<nat>) | LoadV1 | AtTest

  // What getObs returned, the version its copy started at, the version it read last, and for
  // each word the number of the observation it was copied from.
  datatype Return = Return(from: nat, v0: nat, out: Words, src: Sources)

  // A reader thread; `from` and `src` are those of its latest copy.
  datatype Reader = Reader(pc: Pc, v0: nat, v1: nat, out: Words, src: Sources, from: nat, results: seq<Return>)

  // src[j] is the number of the observation that memory word j belongs to.
  datatype State = State(ver: nat, mem: Words, src: Sources, writer: Writer, readers: seq<Reader>)

  datatype Action =
    | BeginCommit
    | StoreWord(w: nat)
    | EndCommit
    | Call(r: nat)
    | Read(r: nat, w: nat)

  predicate All(done: set<nat>) {
    forall w: nat :: w < WORDS ==> w in done
  }

  function StepWriter(data: Data, s: State, a: Action): State
    requires !a.Call? && !a.Read?
  {
    match (a, s.writer)
    case (BeginCommit, Resting) => s.(ver := s.ver + 1, writer := Storing({}))
    case (StoreWord(w), Storing(done)) =>
      if w < WORDS then
        var n := s.ver / 2 + 1;
        s.(mem := s.mem[w := data(n)[w]], src := s.src[w := n], writer := Storing(done + {w}))
      else s
    case (EndCommit, Storing(done)) => if All(done) then s.(ver := s.ver + 1, writer := Resting) else s
    case _ => s
  }

  // One memory access (or the closing comparison) of getObs.
  function StepReader(v: Variant, ver: nat, mem: Words, src: Sources, r: Reader, w: nat): Reader {
    match r.pc
    case Outside => r
    case LoadV0 =>
      if ver % 2 == 1 then r.(v0 := ver, pc := AtTest)
      else r.(v0 := ver, from := ver, pc := Copying({}))
    case Copying(done) =>
      if All(done) then r.(pc := LoadV1)
      else if w < WORDS then r.(out := r.out[w := mem[w]], src := r.src[w := src[w]], pc := Copying(done + {w}))
      else r
    case LoadV1 => r.(v1 := ver, pc := AtTest)
    case AtTest =>
      if r.v0 == r.v1 && (v == AsWritten || r.v0 % 2 == 0) then
        r.(pc := Outside, results := r.results + [Return(r.from, r.v0, r.out, r.src)])
      else
        r.(pc := LoadV0)
  }

  function Step(v: Variant, data: Data, s: State, a: Action): State {
    match a
    case Call(i) =>
      if i < |s.readers| && s.readers[i].pc.Outside?
      then s.(readers := s.readers[i := s.readers[i].(pc := LoadV0, v1 := 0)])
      else s
    case Read(i, w) =>
      if i < |s.readers| then s.(readers := s.readers[i := StepReader(v, s.ver, s.mem, s.src, s.readers[i], w)]) else s
    case _ => StepWriter(data, s, a)
  }

  const NO_WORDS: Words := seq(WORDS, _ => 0)
  const NO_SOURCES: Sources := seq(WORDS, _ => 0)
  const IDLE_READER := Reader(Outside, 0, 0, NO_WORDS, NO_SOURCES, 0, [])

  function Start(data: Data, readers: nat): State {
    State(0, data(0), NO_SOURCES, Resting, seq(readers, _ => IDLE_READER))
  }

  function RunFrom(v: Variant, data: Data, s: State, schedule: seq<Action>): State
    decreases |schedule|
  {
    if schedule == [] then s
    else Step(v, data, RunFrom(v, data, s, schedule[..|schedule| - 1]), schedule[|schedule| - 1])
  }

  function Run(v: Variant, data: Data, readers: nat, schedule: seq<Action>): State {
    RunFrom(v, data, Start(data, readers), schedule)
  }

  // ---- words and sources ----

  // Every word is the one its source says.
  ghost predicate Sourced(data: Data, out: Words, src: Sources, done: set<nat>) {
    forall j: nat :: j < WORDS && j in done ==> out[j] == data(src[j])[j]
  }

  predicate Between(src: Sources, done: set<nat>, lo: nat, hi: nat) {
    forall j: nat :: j < WORDS && j in done ==> lo <= src[j] <= hi
  }

  const EVERY: set<nat> := set j: nat | j < WORDS

  // The copied words of a reader, all of them once it has finished a copy.
  function Copied(r: Reader): set<nat> {
    if r.pc.Copying? then r.pc.done else if HoldsCopy(r) then EVERY else {}
  }

  // The current call holds a finished copy that it may still return.
  predicate HoldsCopy(r: Reader) {
    r.pc.LoadV1? || ((r.pc.AtTest? || r.pc.LoadV0?) && r.v1 != 0) || (r.pc.AtTest? && r.v0 % 2 == 0)
  }

  ghost predicate WriterInv(data: Data, s: State) {
    && Sourced(data, s.mem, s.src, EVERY)
    && match s.writer
       case Resting => s.ver % 2 == 0 && forall j: nat :: j < WORDS ==> s.src[j] == s.ver / 2
       case Storing(done) => s.ver % 2 == 1 && forall j: nat :: j < WORDS ==> s.src[j] == s.ver / 2 + (if j in done then 1 else 0)
  }

  // A return's words are those of their sources, which lie between the version the copy started
  // at and the version it returned under.
  ghost predicate ReturnRight(data: Data, ret: Return) {
    && Sourced(data, ret.out, ret.src, EVERY)
    && ret.from % 2 == 0 && Between(ret.src, EVERY, ret.from / 2, (ret.v0 + 1) / 2)
    && (ret.v0 % 2 == 0 ==> ret.from == ret.v0)
  }

  function LastVersion(r: Reader): nat {
    if r.results == [] then 0 else r.results[|r.results|-1].v0
  }

  ghost predicate ResultsRight(data: Data, rs: seq<Return>) {
    && (forall i :: 0 <= i < |rs| ==> ReturnRight(data, rs[i]))
    && (forall i, j :: 0 <= i < j < |rs| ==> rs[i].v0 <= rs[j].from && rs[i].v0 <= rs[j].v0)
  }

  // What the versions of a reader mean, the shared version being ver.
  predicate VersionsRight(ver: nat, r: Reader) {
    && r.v0 <= ver && r.v1 <= ver && LastVersion(r) <= ver
    && (r.pc.AtTest? ==> LastVersion(r) <= r.v0)
    && (r.pc.Copying? || HoldsCopy(r) ==> LastVersion(r) <= r.from && r.from % 2 == 0)
    && (r.pc.Copying? || r.pc.LoadV1? || (r.pc.AtTest? && r.v0 % 2 == 0) ==> r.from == r.v0)
  }

  // The newest observation a word copied so far can belong to.
  function Newest(ver: nat, r: Reader): nat {
    ((if r.pc.Copying? || r.pc.LoadV1? then ver else r.v1) + 1) / 2
  }

  ghost predicate ReaderInv(data: Data, ver: nat, r: Reader) {
    && VersionsRight(ver, r)
    && Sourced(data, r.out, r.src, Copied(r)) && Between(r.src, Copied(r), r.from / 2, Newest(ver, r))
    && ResultsRight(data, r.results)
  }

  ghost predicate Inv(data: Data, s: State) {
    && WriterInv(data, s)
    && forall i :: 0 <= i < |s.readers| ==> ReaderInv(data, s.ver, s.readers[i])
  }

  lemma WriterKeeps(data: Data, s: State, a: Action)
    requires WriterInv(data, s) && !a.Call? && !a.Read?
    ensures var t := StepWriter(data, s, a); WriterInv(data, t) && s.ver <= t.ver && t.readers == s.readers
  {
  }

  lemma LaterVersion(data: Data, ver: nat, ver': nat, r: Reader)
    requires ReaderInv(data, ver, r) && ver <= ver'
    ensures ReaderInv(data, ver', r)
  {
  }

  lemma CopyKeeps(v: Variant, data: Data, s: State, r: Reader, w: nat)
    requires WriterInv(data, s) && ReaderInv(data, s.ver, r) && r.pc.Copying?
    ensures ReaderInv(data, s.ver, StepReader(v, s.ver, s.mem, s.src, r, w))
  {
    if w < WORDS {
      assert w in EVERY && r.from / 2 <= s.src[w] <= (s.ver + 1) / 2;
    }
  }

  lemma ReturnKeeps(v: Variant, data: Data, s: State, r: Reader, w: nat)
    requires ReaderInv(data, s.ver, r) && r.pc.AtTest?
    ensures ReaderInv(data, s.ver, StepReader(v, s.ver, s.mem, s.src, r, w))
  {
    if r.v0 == r.v1 {
      assert HoldsCopy(r);
      ResultsNext(data, r.results, Return(r.from, r.v0, r.out, r.src));
    }
  }

  lemma ResultsNext(data: Data, rs: seq<Return>, ret: Return)
    requires ResultsRight(data, rs) && ReturnRight(data, ret)
    requires rs != [] ==> rs[|rs|-1].v0 <= ret.from && rs[|rs|-1].v0 <= ret.v0
    ensures ResultsRight(data, rs + [ret])
  {
    var qs := rs + [ret];
    forall i, j | 0 <= i < j < |qs| ensures qs[i].v0 <= qs[j].from && qs[i].v0 <= qs[j].v0 {
      if j == |rs| && i < |rs| - 1 {
        assert rs[i].v0 <= rs[|rs|-1].v0;
      }
    }
  }

  lemma LoadKeeps(v: Variant, data: Data, s: State, r: Reader, w: nat)
    requires ReaderInv(data, s.ver, r) && (r.pc.LoadV0? || r.pc.LoadV1?)
    ensures ReaderInv(data, s.ver, StepReader(v, s.ver, s.mem, s.src, r, w))
  {
  }

  lemma ReaderKeeps(v: Variant, data: Data, s: State, r: Reader, w: nat)
    requires WriterInv(data, s) && ReaderInv(data, s.ver, r)
    ensures ReaderInv(data, s.ver, StepReader(v, s.ver, s.mem, s.src, r, w))
  {
    match r.pc
    case Copying(_) => CopyKeeps(v, data, s, r, w);
    case LoadV0 | LoadV1 => LoadKeeps(v, data, s, r, w);
    case AtTest => ReturnKeeps(v, data, s, r, w);
    case Outside =>
  }

  lemma StepKeeps(v: Variant, data: Data, s: State, a: Action)
    requires Inv(data, s)
    ensures Inv(data, Step(v, data, s, a)) && |Step(v, data, s, a).readers| == |s.readers|
  {
    var t := Step(v, data, s, a);
    if !a.Call? && !a.Read? {
      WriterKeeps(data, s, a);
    }
    forall i | 0 <= i < |t.readers| ensures ReaderInv(data, t.ver, t.readers[i]) {
      assert ReaderInv(data, s.ver, s.readers[i]);
      if a.Read? && i == a.r {
        ReaderKeeps(v, data, s, s.readers[i], a.w);
      } else if !a.Call? && !a.Read? {
        LaterVersion(data, s.ver, t.ver, s.readers[i]);
      }
    }
  }

  lemma {:induction false} RunKeeps(v: Variant, data: Data, readers: nat, schedule: seq<Action>)
    ensures Inv(data, Run(v, data, readers, schedule)) && |Run(v, data, readers, schedule).readers| == readers
    decreases |schedule|
  {
    if schedule != [] {
      var before := schedule[..|schedule| - 1];
      RunKeeps(v, data, readers, before);
      StepKeeps(v, data, Run(v, data, readers, before), schedule[|schedule| - 1]);
    }
  }

  // ---- what getObs returns ----

  // The k-th return of reader i in a run.
  function Returned(v: Variant, data: Data, readers: nat, schedule: seq<Action>, i: nat, k: nat): Option<Return> {
    var s := Run(v, data, readers, schedule);
    if i < |s.readers| && k < |s.readers[i].results| then Some(s.readers[i].results[k]) else None
  }

  lemma ReturnIsRight(v: Variant, data: Data, readers: nat, schedule: seq<Action>, i: nat, k: nat, ret: Return)
    requires Returned(v, data, readers, schedule, i, k) == Some(ret)
    ensures ReturnRight(data, ret) && ret.v0 <= Run(v, data, readers, schedule).ver
  {
    RunKeeps(v, data, readers, schedule);
    var s := Run(v, data, readers, schedule);
    assert ReaderInv(data, s.ver, s.readers[i]);
    assert k < |s.readers[i].results| - 1 ==> ret.v0 <= LastVersion(s.readers[i]);
  }

  /** In every interleaving, every word a call returns -- torn or not, first return or later -- is
      the word of the observation recorded as its source, which is no older than the version the
      copy started at and no newer than the version the call returned under. */
  lemma ReturnedWordsHaveSources(v: Variant, data: Data, readers: nat, schedule: seq<Action>, i: nat, k: nat, ret: Return)
    requires Returned(v, data, readers, schedule, i, k) == Some(ret)
    ensures forall j: nat :: j < WORDS ==> ret.out[j] == data(ret.src[j])[j] && ret.from / 2 <= ret.src[j] <= (ret.v0 + 1) / 2
    ensures (ret.v0 + 1) / 2 <= (Run(v, data, readers, schedule).ver + 1) / 2
  {
    ReturnIsRight(v, data, readers, schedule, i, k, ret);
  }

  /** In every interleaving, a call that last read an even version returns exactly the one
      observation committed at that version, every word of it copied from that one. */
  lemma EvenReturnsAreCommitted(v: Variant, data: Data, readers: nat, schedule: seq<Action>, i: nat, k: nat, ret: Return)
    requires Returned(v, data, readers, schedule, i, k) == Some(ret) && ret.v0 % 2 == 0
    ensures ret.v0 <= Run(v, data, readers, schedule).ver && From(ret.src, ret.v0 / 2) && ret.out == data(ret.v0 / 2)
  {
    ReturnIsRight(v, data, readers, schedule, i, k, ret);
  }

  /** One reader never goes back, even across torn returns: no word of an earlier return is newer
      than any word of a later one. */
  lemma SequenceNeverGoesBack(v: Variant, data: Data, readers: nat, schedule: seq<Action>, i: nat, k: nat, l: nat, a: Return, b: Return)
    requires k < l && Returned(v, data, readers, schedule, i, k) == Some(a) && Returned(v, data, readers, schedule, i, l) == Some(b)
    ensures forall j: nat, m: nat :: j < WORDS && m < WORDS ==> a.src[j] <= b.src[m]
  {
    ReturnIsRight(v, data, readers, schedule, i, k, a);
    ReturnIsRight(v, data, readers, schedule, i, l, b);
    RunKeeps(v, data, readers, schedule);
    var s := Run(v, data, readers, schedule);
    assert ReaderInv(data, s.ver, s.readers[i]);
    assert a.v0 <= b.from;
  }

  // The writer numbers its observations.
  ghost predicate Numbered(data: Data, upto: nat) {
    forall n: nat :: n <= upto ==> data(n)[SEQ_WORD] == n
  }

  lemma SequenceNumbersNeverGoBack(v: Variant, data: Data, readers: nat, schedule: seq<Action>, i: nat, k: nat, l: nat, a: Return, b: Return)
    requires k < l && Returned(v, data, readers, schedule, i, k) == Some(a) && Returned(v, data, readers, schedule, i, l) == Some(b)
    requires Numbered(data, (Run(v, data, readers, schedule).ver + 1) / 2)
    ensures a.out[SEQ_WORD] <= b.out[SEQ_WORD]
  {
    SequenceNeverGoesBack(v, data, readers, schedule, i, k, l, a, b);
    ReturnedWordsHaveSources(v, data, readers, schedule, i, k, a);
    ReturnedWordsHaveSources(v, data, readers, schedule, i, l, b);
  }

  // ---- exactly when a return is a committed observation ----

  // Two states that differ at most in the contents of words.
  predicate SameReturn(a: Return, b: Return) {
    a.from == b.from && a.v0 == b.v0 && a.src == b.src
  }

  predicate SameReader(r: Reader, q: Reader) {
    && r.pc == q.pc && r.v0 == q.v0 && r.v1 == q.v1 && r.src == q.src && r.from == q.from
    && |r.results| == |q.results| && forall k :: 0 <= k < |r.results| ==> SameReturn(r.results[k], q.results[k])
  }

  predicate SameControl(s: State, t: State) {
    && s.ver == t.ver && s.src == t.src && s.writer == t.writer
    && |s.readers| == |t.readers| && forall i :: 0 <= i < |s.readers| ==> SameReader(s.readers[i], t.readers[i])
  }

  lemma ControlReader(v: Variant, s: State, t: State, r: Reader, q: Reader, w: nat)
    requires SameControl(s, t) && SameReader(r, q)
    ensures SameReader(StepReader(v, s.ver, s.mem, s.src, r, w), StepReader(v, t.ver, t.mem, t.src, q, w))
  {
  }

  lemma ControlStep(v: Variant, d: Data, e: Data, s: State, t: State, a: Action)
    requires SameControl(s, t)
    ensures SameControl(Step(v, d, s, a), Step(v, e, t, a))
  {
    if a.Read? && a.r < |s.readers| {
      ControlReader(v, s, t, s.readers[a.r], t.readers[a.r], a.w);
    }
  }

  /** Who does what when does not depend on the contents of the observations. */
  lemma {:induction false} ControlRun(v: Variant, d: Data, e: Data, readers: nat, schedule: seq<Action>)
    ensures SameControl(Run(v, d, readers, schedule), Run(v, e, readers, schedule))
    decreases |schedule|
  {
    if schedule != [] {
      var before := schedule[..|schedule| - 1];
      ControlRun(v, d, e, readers, before);
      ControlStep(v, d, e, Run(v, d, readers, before), Run(v, e, readers, before), schedule[|schedule| - 1]);
    }
  }

  // The k-th return of reader i is an observation committed by the end of the run.
  ghost predicate IsCommitted(v: Variant, data: Data, readers: nat, schedule: seq<Action>, i: nat, k: nat) {
    var ret := Returned(v, data, readers, schedule, i, k);
    ret.Some? && exists n: nat :: n <= Run(v, data, readers, schedule).ver / 2 && ret.value.out == data(n)
  }

  // All words come from observation n.
  predicate From(src: Sources, n: nat) {
    forall j: nat :: j < WORDS ==> src[j] == n
  }

  // Observation n has the number n in every word, so that contents tell their source.
  const TELLING: Data := n => seq(WORDS, _ => n)

  /** For a fixed interleaving, a return is a committed observation whatever the observations are
      if and only if all its words were copied from one observation, and that one was committed. */
  lemma CommittedIffOneSource(v: Variant, data: Data, readers: nat, schedule: seq<Action>, i: nat, k: nat)
    requires Returned(v, data, readers, schedule, i, k).Some?
    ensures var s, ret := Run(v, data, readers, schedule), Returned(v, data, readers, schedule, i, k).value;
            (forall d: Data :: IsCommitted(v, d, readers, schedule, i, k)) <==> exists n: nat :: n <= s.ver / 2 && From(ret.src, n)
  {
    var s, ret := Run(v, data, readers, schedule), Returned(v, data, readers, schedule, i, k).value;
    if n: nat :| n <= s.ver / 2 && From(ret.src, n) {
      forall d: Data ensures IsCommitted(v, d, readers, schedule, i, k) {
        OneSourceCommitted(v, data, d, readers, schedule, i, k, n);
      }
    }
    if forall d: Data :: IsCommitted(v, d, readers, schedule, i, k) {
      assert IsCommitted(v, TELLING, readers, schedule, i, k);
      TellingSource(v, data, readers, schedule, i, k);
    }
  }

  lemma OneSourceCommitted(v: Variant, data: Data, d: Data, readers: nat, schedule: seq<Action>, i: nat, k: nat, n: nat)
    requires Returned(v, data, readers, schedule, i, k).Some?
    requires n <= Run(v, data, readers, schedule).ver / 2 && From(Returned(v, data, readers, schedule, i, k).value.src, n)
    ensures IsCommitted(v, d, readers, schedule, i, k)
  {
    ControlRun(v, data, d, readers, schedule);
    assert SameReturn(Returned(v, data, readers, schedule, i, k).value, Returned(v, d, readers, schedule, i, k).value);
    ReturnedWordsHaveSources(v, d, readers, schedule, i, k, Returned(v, d, readers, schedule, i, k).value);
    assert Returned(v, d, readers, schedule, i, k).value.out == d(n);
  }

  lemma TellingSource(v: Variant, data: Data, readers: nat, schedule: seq<Action>, i: nat, k: nat)
    requires Returned(v, data, readers, schedule, i, k).Some? && IsCommitted(v, TELLING, readers, schedule, i, k)
    ensures exists n: nat :: n <= Run(v, data, readers, schedule).ver / 2 && From(Returned(v, data, readers, schedule, i, k).value.src, n)
  {
    ControlRun(v, data, TELLING, readers, schedule);
    var ret := Returned(v, TELLING, readers, schedule, i, k).value;
    assert SameReturn(Returned(v, data, readers, schedule, i, k).value, ret);
    ReturnedWordsHaveSources(v, TELLING, readers, schedule, i, k, ret);
    var n: nat :| n <= Run(v, TELLING, readers, schedule).ver / 2 && ret.out == TELLING(n);
    forall j: nat | j < WORDS ensures ret.src[j] == n {
      assert ret.out[j] == TELLING(ret.src[j])[j] == ret.src[j];
      assert TELLING(n)[j] == n;
    }
    assert From(ret.src, n);
  }

  // ---- the variant that retries ----

  /** With the retry on odd versions every return, in every interleaving, is exactly one
      committed observation. */
  lemma RetryOnOddIsSafe(data: Data, readers: nat, schedule: seq<Action>, i: nat, k: nat, ret: Return)
    requires Returned(RetryOnOdd, data, readers, schedule, i, k) == Some(ret)
    ensures ret.v0 % 2 == 0 && ret.v0 <= Run(RetryOnOdd, data, readers, schedule).ver && ret.out == data(ret.v0 / 2)
  {
    RunReturnsEven(data, readers, schedule);
    var s := Run(RetryOnOdd, data, readers, schedule);
    assert AllEven(s.readers[i].results);
    EvenReturnsAreCommitted(RetryOnOdd, data, readers, schedule, i, k, ret);
  }

  predicate AllEven(rs: seq<Return>) {
    forall k :: 0 <= k < |rs| ==> rs[k].v0 % 2 == 0
  }

  predicate AllReadersEven(s: State) {
    forall i :: 0 <= i < |s.readers| ==> AllEven(s.readers[i].results)
  }

  lemma {:induction false} RunReturnsEven(data: Data, readers: nat, schedule: seq<Action>)
    ensures AllReadersEven(Run(RetryOnOdd, data, readers, schedule))
    decreases |schedule|
  {
    if schedule != [] {
      var before := schedule[..|schedule| - 1];
      RunReturnsEven(data, readers, before);
      StepReturnsEven(data, Run(RetryOnOdd, data, readers, before), schedule[|schedule| - 1]);
    }
  }

  lemma StepReturnsEven(data: Data, s: State, a: Action)
    requires AllReadersEven(s)
    ensures AllReadersEven(Step(RetryOnOdd, data, s, a))
  {
    if !a.Call? && !a.Read? {
      assert Step(RetryOnOdd, data, s, a).readers == s.readers;
    }
  }

  // ---- the odd exit is reachable ----

  lemma {:induction false} RunConcat(v: Variant, data: Data, s: State, a: seq<Action>, b: seq<Action>)
    ensures RunFrom(v, data, s, a + b) == RunFrom(v, data, RunFrom(v, data, s, a), b)
    decreases |b|
  {
    if b == [] {
      assert a + b == a;
    } else {
      assert (a + b)[..|a + b| - 1] == a + b[..|b| - 1];
      RunConcat(v, data, s, a, b[..|b| - 1]);
    }
  }

  // Reader 0 copying, and the writer storing, the words i .. i + n - 1.
  function Copies(i: nat, n: nat): seq<Action> {
    if n == 0 then [] else Copies(i, n - 1) + [Read(0, i + n - 1)]
  }

  function Stores(n: nat): seq<Action> {
    if n == 0 then [] else Stores(n - 1) + [StoreWord(n - 1)]
  }

  // Five steps of reader 0: end of the copy, load, test, load, test.
  const FINISH: seq<Action> := [Read(0, 0), Read(0, 0), Read(0, 0), Read(0, 0), Read(0, 0)]

  // The reader copies c words, the writer stores a whole observation, the reader copies the
  // rest, fails its comparison, and tries again while the version is still odd.
  function OddSchedule(c: nat): seq<Action>
    requires c <= WORDS
  {
    [Call(0), Read(0, 0)] + Copies(0, c) + ([BeginCommit] + Stores(WORDS)) + Copies(c, WORDS - c) + FINISH
  }

  function Upto(n: nat): (u: set<nat>)
    ensures forall j: nat :: j in u <==> j < n
  {
    if n == 0 then {} else Upto(n - 1) + {n - 1}
  }

  // dst with words i .. i + n - 1 taken from src.
  function Splice<T>(dst: seq<T>, src: seq<T>, i: nat, n: nat): seq<T>
    requires |dst| == |src| == WORDS && i + n <= WORDS
    ensures |Splice(dst, src, i, n)| == WORDS
  {
    dst[..i] + src[i..i+n] + dst[i+n..]
  }

  lemma SpliceOne<T>(dst: seq<T>, src: seq<T>, i: nat, n: nat)
    requires |dst| == |src| == WORDS && i + n < WORDS
    ensures Splice(dst, src, i, n)[i + n := src[i + n]] == Splice(dst, src, i, n + 1)
    ensures Splice(dst, src, i, 0) == dst
  {
  }

  lemma CopyOne(data: Data, s: State, t: State, r: Reader, q: Reader, w: nat)
    requires t == s.(readers := [r]) && r.pc == Copying(Upto(w)) && w < WORDS
    requires q == r.(out := r.out[w := s.mem[w]], src := r.src[w := s.src[w]], pc := Copying(Upto(w + 1)))
    ensures Step(AsWritten, data, t, Read(0, w)) == s.(readers := [q])
  {
    assert w !in Upto(w) && !All(Upto(w));
  }

  // Reader r after copying n words from word i.
  function CopiedFrom(s: State, r: Reader, i: nat, n: nat): Reader
    requires i + n <= WORDS
  {
    r.(out := Splice(r.out, s.mem, i, n), src := Splice(r.src, s.src, i, n), pc := Copying(Upto(i + n)))
  }

  lemma {:induction false} CopySteps(data: Data, s: State, r: Reader, i: nat, n: nat)
    requires s.readers == [r] && r.pc == Copying(Upto(i)) && i + n <= WORDS
    ensures RunFrom(AsWritten, data, s, Copies(i, n)) == s.(readers := [CopiedFrom(s, r, i, n)])
  {
    if n == 0 {
      CopiedNone(s, r, i);
    } else {
      CopySteps(data, s, r, i, n - 1);
      MoreRun(AsWritten, data, s, Copies(i, n - 1), Read(0, i + n - 1));
      CopyNext(data, s, r, i, n - 1, RunFrom(AsWritten, data, s, Copies(i, n - 1)));
    }
  }

  lemma CopiedNone(s: State, r: Reader, i: nat)
    requires s.readers == [r] && r.pc == Copying(Upto(i)) && i <= WORDS
    ensures s == s.(readers := [CopiedFrom(s, r, i, 0)])
  {
    assert Splice(r.out, s.mem, i, 0) == r.out && Splice(r.src, s.src, i, 0) == r.src;
  }

  lemma CopyNext(data: Data, s: State, r: Reader, i: nat, n: nat, before: State)
    requires i + n < WORDS && before == s.(readers := [CopiedFrom(s, r, i, n)])
    ensures Step(AsWritten, data, before, Read(0, i + n)) == s.(readers := [CopiedFrom(s, r, i, n + 1)])
  {
    CopiedNext(s, r, i, n);
    CopyOne(data, s, before, CopiedFrom(s, r, i, n), CopiedFrom(s, r, i, n + 1), i + n);
  }

  lemma CopiedNext(s: State, r: Reader, i: nat, n: nat)
    requires i + n < WORDS
    ensures var c := CopiedFrom(s, r, i, n);
            CopiedFrom(s, r, i, n + 1)
              == c.(out := c.out[i + n := s.mem[i + n]], src := c.src[i + n := s.src[i + n]], pc := Copying(Upto(i + n + 1)))
  {
    SpliceOne(r.out, s.mem, i, n);
    SpliceOne(r.src, s.src, i, n);
  }

  // Memory after the writer has stored the first n words of observation m.
  function Stored(data: Data, s: State, m: nat, n: nat): State
    requires n <= WORDS
  {
    s.(mem := Splice(s.mem, data(m), 0, n), src := Splice(s.src, seq(WORDS, _ => m), 0, n), writer := Storing(Upto(n)))
  }

  lemma {:induction false} StoreSteps(data: Data, s: State, m: nat, n: nat)
    requires s.writer == Storing({}) && n <= WORDS && m == s.ver / 2 + 1
    ensures RunFrom(AsWritten, data, s, Stores(n)) == Stored(data, s, m, n)
  {
    if n == 0 {
      assert Splice(s.mem, data(m), 0, 0) == s.mem && Splice(s.src, seq(WORDS, _ => m), 0, 0) == s.src;
    } else {
      StoreSteps(data, s, m, n - 1);
      MoreRun(AsWritten, data, s, Stores(n - 1), StoreWord(n - 1));
      StoreOne(data, s, Stored(data, s, m, n - 1), m, n - 1);
      StoredNext(data, s, m, n - 1);
    }
  }

  lemma StoreOne(data: Data, s: State, t: State, m: nat, w: nat)
    requires t.writer == Storing(Upto(w)) && t.ver == s.ver && m == s.ver / 2 + 1 && w < WORDS
    ensures Step(AsWritten, data, t, StoreWord(w))
         == t.(mem := t.mem[w := data(m)[w]], src := t.src[w := m], writer := Storing(Upto(w + 1)))
  {
  }

  lemma StoredNext(data: Data, s: State, m: nat, n: nat)
    requires n < WORDS
    ensures var t := Stored(data, s, m, n);
            Stored(data, s, m, n + 1) == t.(mem := t.mem[n := data(m)[n]], src := t.src[n := m], writer := Storing(Upto(n + 1)))
  {
    SpliceOne(s.mem, data(m), 0, n);
    SpliceOne(s.src, seq(WORDS, _ => m), 0, n);
  }

  // The words of the two observations when the copy was cut after c words.
  function CutAt<T>(a: seq<T>, b: seq<T>, c: nat): seq<T>
    requires |a| == |b| == WORDS && c <= WORDS
    ensures |CutAt(a, b, c)| == WORDS
  {
    a[..c] + b[c..]
  }

  lemma SplicesCut<T>(blank: seq<T>, a: seq<T>, b: seq<T>, c: nat)
    requires |blank| == |a| == |b| == WORDS && c <= WORDS
    ensures Splice(Splice(blank, a, 0, c), Splice(a, b, 0, WORDS), c, WORDS - c) == CutAt(a, b, c)
  {
  }

  lemma FinishSteps(data: Data, s: State, r: Reader)
    requires s.readers == [r] && s.ver == 1 && r.pc == Copying(Upto(WORDS)) && r.v0 == 0 && r.results == []
    ensures RunFrom(AsWritten, data, s, FINISH)
         == s.(readers := [r.(pc := Outside, v0 := 1, v1 := 1, results := [Return(r.from, 1, r.out, r.src)])])
  {
    hide Step, RunFrom;
    var r1 := r.(pc := LoadV1);
    var r2 := r.(pc := AtTest, v1 := 1);
    var r3 := r.(pc := LoadV0, v1 := 1);
    var r4 := r.(pc := AtTest, v1 := 1, v0 := 1);
    var a := Read(0, 0);
    ReadOne(data, s, r, r1);
    ReadOne(data, s.(readers := [r1]), r1, r2);
    ReadOne(data, s.(readers := [r2]), r2, r3);
    ReadOne(data, s.(readers := [r3]), r3, r4);
    ReadOne(data, s.(readers := [r4]), r4, r4.(pc := Outside, results := [Return(r.from, 1, r.out, r.src)]));
    FiveSteps(data, s, a);
  }

  lemma ReadOne(data: Data, s: State, r: Reader, q: Reader)
    requires s.readers == [r] && q == StepReader(AsWritten, s.ver, s.mem, s.src, r, 0)
    ensures Step(AsWritten, data, s, Read(0, 0)) == s.(readers := [q])
  {
  }

  lemma FiveSteps(data: Data, s: State, a: Action)
    ensures RunFrom(AsWritten, data, s, [a, a, a, a, a])
         == Step(AsWritten, data, Step(AsWritten, data, Step(AsWritten, data, Step(AsWritten, data, Step(AsWritten, data, s, a), a), a), a), a)
  {
    hide Step, RunFrom;
    RunNone(data, s);
    MoreRun(AsWritten, data, s, [], a);
    MoreRun(AsWritten, data, s, [a], a);
    MoreRun(AsWritten, data, s, [a, a], a);
    MoreRun(AsWritten, data, s, [a, a, a], a);
    MoreRun(AsWritten, data, s, [a, a, a, a], a);
    assert [] + [a] == [a] && [a] + [a] == [a, a] && [a, a] + [a] == [a, a, a];
    assert [a, a, a] + [a] == [a, a, a, a] && [a, a, a, a] + [a] == [a, a, a, a, a];
  }

  lemma RunNone(data: Data, s: State)
    ensures RunFrom(AsWritten, data, s, []) == s
  {
  }

  /** For every c there is a run of the loop as written that leaves through the stale comparison
      under an odd version, with the first c words of the initial observation and the rest of one
      not yet committed: torn for 0 < c < 16, and for c = 16 whole all the same. */
  lemma OddReturnReachable(data: Data, c: nat)
    requires c <= WORDS
    ensures Returned(AsWritten, data, 1, OddSchedule(c), 0, 0)
         == Some(Return(0, 1, CutAt(data(0), data(1), c), CutAt(seq(WORDS, _ => 0), seq(WORDS, _ => 1), c)))
    ensures Run(AsWritten, data, 1, OddSchedule(c)).ver == 1
  {
    var s0 := Start(data, 1);
    var r1 := IDLE_READER.(pc := Copying({}));
    var s1 := s0.(readers := [r1]);
    HeadSteps(data);
    CopySteps(data, s1, r1, 0, c);
    var r2 := CopiedFrom(s1, r1, 0, c);
    var s2 := s1.(readers := [r2]);
    var s3 := Stored(data, s2.(ver := 1, writer := Storing({})), 1, WORDS);
    CommitSteps(data, s2);
    CopySteps(data, s3, r2, c, WORDS - c);
    var r4 := CopiedFrom(s3, r2, c, WORDS - c);
    FinishSteps(data, s3.(readers := [r4]), r4);
    OddParts(data, c);
    SplicesCut(NO_WORDS, data(0), data(1), c);
    SplicesCut(NO_SOURCES, NO_SOURCES, seq(WORDS, _ => 1), c);
  }

  lemma HeadSteps(data: Data)
    ensures RunFrom(AsWritten, data, Start(data, 1), [Call(0), Read(0, 0)])
         == Start(data, 1).(readers := [IDLE_READER.(pc := Copying({}))])
  {
    var s := Start(data, 1);
    assert s.readers == [IDLE_READER];
    MoreRun(AsWritten, data, s, [], Call(0));
    MoreRun(AsWritten, data, s, [Call(0)], Read(0, 0));
  }

  lemma CommitSteps(data: Data, s: State)
    requires s.writer == Resting && s.ver == 0
    ensures RunFrom(AsWritten, data, s, [BeginCommit] + Stores(WORDS)) == Stored(data, s.(ver := 1, writer := Storing({})), 1, WORDS)
  {
    MoreRun(AsWritten, data, s, [], BeginCommit);
    RunConcat(AsWritten, data, s, [BeginCommit], Stores(WORDS));
    StoreSteps(data, s.(ver := 1, writer := Storing({})), 1, WORDS);
  }

  // The schedule run part after part.
  lemma OddParts(data: Data, c: nat)
    requires c <= WORDS
    ensures var s1 := RunFrom(AsWritten, data, Start(data, 1), [Call(0), Read(0, 0)]);
            var s2 := RunFrom(AsWritten, data, s1, Copies(0, c));
            var s3 := RunFrom(AsWritten, data, s2, [BeginCommit] + Stores(WORDS));
            var s4 := RunFrom(AsWritten, data, s3, Copies(c, WORDS - c));
            Run(AsWritten, data, 1, OddSchedule(c)) == RunFrom(AsWritten, data, s4, FINISH)
  {
    var s := Start(data, 1);
    var a := [Call(0), Read(0, 0)];
    var b := a + Copies(0, c);
    var d := b + ([BeginCommit] + Stores(WORDS));
    var e := d + Copies(c, WORDS - c);
    RunConcat(AsWritten, data, s, a, Copies(0, c));
    RunConcat(AsWritten, data, s, b, [BeginCommit] + Stores(WORDS));
    RunConcat(AsWritten, data, s, d, Copies(c, WORDS - c));
    RunConcat(AsWritten, data, s, e, FINISH);
  }

  /** Of those odd returns only the one with all words from the initial observation is a committed
      observation whatever the contents. */
  lemma OddReturnCommittedIff(data: Data, c: nat)
    requires c <= WORDS
    ensures (forall d: Data :: IsCommitted(AsWritten, d, 1, OddSchedule(c), 0, 0)) <==> c == WORDS
  {
    OddReturnReachable(data, c);
    CommittedIffOneSource(AsWritten, data, 1, OddSchedule(c), 0, 0);
    CutSource(c, CutAt(seq(WORDS, _ => 0), seq(WORDS, _ => 1), c));
  }

  lemma CutSource(c: nat, src: Sources)
    requires c <= WORDS && src == CutAt(seq(WORDS, _ => 0), seq(WORDS, _ => 1), c)
    ensures From(src, 0) <==> c == WORDS
  {
    if c < WORDS {
      assert src[c] == 1;
    }
  }

  // ---- getObs does return ----

  function Reads(i: nat, ws: seq<nat>): seq<Action> {
    if ws == [] then [] else Reads(i, ws[..|ws| - 1]) + [Read(i, ws[|ws| - 1])]
  }

  // Reader r after these accesses, with nothing else happening.
  function Reading(v: Variant, s: State, r: Reader, ws: seq<nat>): Reader {
    if ws == [] then r
    else StepReader(v, s.ver, s.mem, s.src, Reading(v, s, r, ws[..|ws| - 1]), ws[|ws| - 1])
  }

  lemma {:induction false} ReadsAlone(v: Variant, data: Data, s: State, i: nat, ws: seq<nat>)
    requires i < |s.readers|
    ensures RunFrom(v, data, s, Reads(i, ws)) == s.(readers := s.readers[i := Reading(v, s, s.readers[i], ws)])
  {
    hide StepReader;
    if ws != [] {
      var before := ws[..|ws| - 1];
      ReadsAlone(v, data, s, i, before);
      MoreRun(v, data, s, Reads(i, before), Read(i, ws[|ws| - 1]));
    }
  }

  lemma MoreRun(v: Variant, data: Data, s: State, before: seq<Action>, a: Action)
    ensures RunFrom(v, data, s, before + [a]) == Step(v, data, RunFrom(v, data, s, before), a)
  {
    assert (before + [a])[..|before|] == before;
  }

  lemma MoreReading(v: Variant, s: State, r: Reader, ws: seq<nat>, w: nat)
    ensures Reading(v, s, r, ws + [w]) == StepReader(v, s.ver, s.mem, s.src, Reading(v, s, r, ws), w)
  {
    assert (ws + [w])[..|ws|] == ws;
  }

  // All words, each once, in any order.
  ghost predicate AnyOrder(ws: seq<nat>) {
    && |ws| == WORDS
    && (forall a, b :: 0 <= a < b < |ws| ==> ws[a] != ws[b])
    && (forall w: nat :: w < WORDS <==> w in ws)
  }

  function Members(ws: seq<nat>): set<nat> {
    set w | w in ws
  }

  // Reader q has copied the words in done from this memory since it read the version.
  predicate HasCopied(s: State, r: Reader, q: Reader, done: set<nat>) {
    && q.pc == Copying(done) && q.v0 == s.ver && q.from == s.ver && q.results == r.results
    && forall j: nat :: j < WORDS && j in done ==> q.out[j] == s.mem[j] && q.src[j] == s.src[j]
  }

  lemma {:induction false} CopyInAnyOrder(v: Variant, s: State, r: Reader, first: nat, ws: seq<nat>, k: nat)
    requires r.pc.LoadV0? && s.ver % 2 == 0 && AnyOrder(ws) && k <= WORDS == |ws|
    ensures HasCopied(s, r, Reading(v, s, r, [first] + ws[..k]), Members(ws[..k]))
  {
    hide StepReader, AnyOrder, HasCopied, Members;
    if k == 0 {
      FirstLoad(v, s, r, first);
      assert [first] + ws[..0] == [first] && ws[..0] == [];
    } else {
      CopyInAnyOrder(v, s, r, first, ws, k - 1);
      NextWord(first, ws, k);
      MoreReading(v, s, r, [first] + ws[..k - 1], ws[k - 1]);
      CopyOneMore(v, s, r, Reading(v, s, r, [first] + ws[..k - 1]), ws, k - 1);
    }
  }

  lemma NextWord(first: nat, ws: seq<nat>, k: nat)
    requires 0 < k <= |ws|
    ensures [first] + ws[..k - 1] + [ws[k - 1]] == [first] + ws[..k]
  {
  }

  lemma FirstLoad(v: Variant, s: State, r: Reader, first: nat)
    requires r.pc.LoadV0? && s.ver % 2 == 0
    ensures HasCopied(s, r, Reading(v, s, r, [first]), Members([]))
  {
    MoreReading(v, s, r, [], first);
    assert [] + [first] == [first];
    assert Members([]) == {};
  }

  lemma CopyOneMore(v: Variant, s: State, r: Reader, q: Reader, ws: seq<nat>, k: nat)
    requires AnyOrder(ws) && k < WORDS && HasCopied(s, r, q, Members(ws[..k]))
    ensures HasCopied(s, r, StepReader(v, s.ver, s.mem, s.src, q, ws[k]), Members(ws[..k + 1]))
  {
    assert ws[k] in ws && ws[k] !in ws[..k];
    assert Members(ws[..k + 1]) == Members(ws[..k]) + {ws[k]};
  }

  // The three accesses after the copy: its end, the second load, the test.
  lemma EndsTry(v: Variant, s: State, r: Reader, q: Reader, a: nat, b: nat, c: nat)
    requires s.ver % 2 == 0 && HasCopied(s, r, q, EVERY)
    ensures var t := StepReader(v, s.ver, s.mem, s.src, StepReader(v, s.ver, s.mem, s.src, StepReader(v, s.ver, s.mem, s.src, q, a), b), c);
            t.pc.Outside? && t.results == r.results + [Return(s.ver, s.ver, s.mem, s.src)]
  {
    assert All(EVERY);
    assert q.out == s.mem && q.src == s.src;
  }

  // A whole call: the call itself, the first load, the words in any order, and three accesses more.
  function WholeCall(i: nat, first: nat, ws: seq<nat>, a: nat, b: nat, c: nat): seq<Action> {
    [Call(i)] + Reads(i, [first] + ws + [a] + [b] + [c])
  }

  lemma CallThenReads(v: Variant, data: Data, s: State, i: nat, all: seq<nat>)
    requires i < |s.readers| && s.readers[i].pc.Outside?
    ensures RunFrom(v, data, s, [Call(i)] + Reads(i, all))
         == s.(readers := s.readers[i := Reading(v, s, s.readers[i].(pc := LoadV0, v1 := 0), all)])
  {
    hide StepReader, StepWriter;
    var t := s.(readers := s.readers[i := s.readers[i].(pc := LoadV0, v1 := 0)]);
    MoreRun(v, data, s, [], Call(i));
    assert [] + [Call(i)] == [Call(i)];
    RunConcat(v, data, s, [Call(i)], Reads(i, all));
    ReadsAlone(v, data, t, i, all);
    SameReading(v, s, t, t.readers[i], all);
  }

  lemma {:induction false} SameReading(v: Variant, s: State, t: State, r: Reader, ws: seq<nat>)
    requires s.ver == t.ver && s.mem == t.mem && s.src == t.src
    ensures Reading(v, s, r, ws) == Reading(v, t, r, ws)
  {
    if ws != [] {
      SameReading(v, s, t, r, ws[..|ws| - 1]);
    }
  }

  /** A call made while the writer rests, and not disturbed by it, returns after one try, under
      either variant and whatever the order of the words: with the observation committed at the
      present version, all of it from that one. */
  lemma UndisturbedCallReturns(v: Variant, data: Data, s: State, i: nat, first: nat, ws: seq<nat>, a: nat, b: nat, c: nat)
    requires WriterInv(data, s) && s.writer.Resting? && i < |s.readers| && s.readers[i].pc.Outside? && AnyOrder(ws)
    ensures var t := RunFrom(v, data, s, WholeCall(i, first, ws, a, b, c));
            && |t.readers| == |s.readers| && t.readers[i].pc.Outside?
            && t.readers[i].results == s.readers[i].results + [Return(s.ver, s.ver, data(s.ver / 2), seq(WORDS, _ => s.ver / 2))]
  {
    hide StepReader, StepWriter;
    var all := [first] + ws + [a] + [b] + [c];
    CallThenReads(v, data, s, i, all);
    WholeReading(v, s, s.readers[i].(pc := LoadV0, v1 := 0), first, ws, a, b, c);
    assert s.mem == data(s.ver / 2) && s.src == seq(WORDS, _ => s.ver / 2) by {
      assert forall j: nat :: j < WORDS ==> j in EVERY;
    }
  }

  lemma WholeReading(v: Variant, s: State, r: Reader, first: nat, ws: seq<nat>, a: nat, b: nat, c: nat)
    requires r.pc.LoadV0? && s.ver % 2 == 0 && AnyOrder(ws)
    ensures var q := Reading(v, s, r, [first] + ws + [a] + [b] + [c]);
            q.pc.Outside? && q.results == r.results + [Return(s.ver, s.ver, s.mem, s.src)]
  {
    hide StepReader;
    CopyInAnyOrder(v, s, r, first, ws, WORDS);
    assert ws[..WORDS] == ws && Members(ws) == EVERY;
    var q := Reading(v, s, r, [first] + ws);
    MoreReading(v, s, r, [first] + ws, a);
    MoreReading(v, s, r, [first] + ws + [a], b);
    MoreReading(v, s, r, [first] + ws + [a] + [b], c);
    EndsTry(v, s, r, q, a, b, c);
  }

  /** So from every state of every run: whenever the writer rests, a reader that calls then returns. */
  lemma RestingWriterReadersReturn(v: Variant, data: Data, readers: nat, schedule: seq<Action>, i: nat, first: nat, ws: seq<nat>,
                                   a: nat, b: nat, c: nat)
    requires var s := Run(v, data, readers, schedule); s.writer.Resting? && i < |s.readers| && s.readers[i].pc.Outside?
    requires AnyOrder(ws)
    ensures var s := Run(v, data, readers, schedule);
            Returned(v, data, readers, schedule + WholeCall(i, first, ws, a, b, c), i, |s.readers[i].results|)
              == Some(Return(s.ver, s.ver, data(s.ver / 2), seq(WORDS, _ => s.ver / 2)))
  {
    hide RunFrom, Step, StepReader, StepWriter;
    RunKeeps(v, data, readers, schedule);
    RunConcat(v, data, Start(data, readers), schedule, WholeCall(i, first, ws, a, b, c));
    UndisturbedCallReturns(v, data, Run(v, data, readers, schedule), i, first, ws, a, b, c);
  }

  // The schedule does nothing with reader i.
  predicate LeavesAlone(schedule: seq<Action>, i: nat) {
    forall a :: a in schedule ==> a != Call(i) && (a.Read? ==> a.r != i)
  }

  lemma {:induction false} LeftAlone(v: Variant, data: Data, s: State, schedule: seq<Action>, i: nat)
    requires i < |s.readers| && LeavesAlone(schedule, i)
    ensures |RunFrom(v, data, s, schedule).readers| == |s.readers| && RunFrom(v, data, s, schedule).readers[i] == s.readers[i]
    decreases |schedule|
  {
    hide StepReader;
    if schedule != [] {
      var before, a := schedule[..|schedule| - 1], schedule[|schedule| - 1];
      assert a in schedule;
      LeftAlone(v, data, s, before, i);
      StepLeavesAlone(v, data, RunFrom(v, data, s, before), a, i);
    }
  }

  lemma StepLeavesAlone(v: Variant, data: Data, s: State, a: Action, i: nat)
    requires i < |s.readers| && a != Call(i) && (a.Read? ==> a.r != i)
    ensures |Step(v, data, s, a).readers| == |s.readers| && Step(v, data, s, a).readers[i] == s.readers[i]
  {
  }

  /** A try that has finished its copy returns, in any run and under either variant, if and only if
      the version at its second load is the even one it began at; whatever the other threads do
      between that load and the test. */
  lemma TryReturnsIff(v: Variant, data: Data, s: State, i: nat, w: nat, between: seq<Action>, x: nat)
    requires Inv(data, s) && i < |s.readers| && s.readers[i].pc.LoadV1? && LeavesAlone(between, i)
    ensures var r := s.readers[i];
            var t := Step(v, data, RunFrom(v, data, Step(v, data, s, Read(i, w)), between), Read(i, x));
            && r.from % 2 == 0 && |t.readers| == |s.readers|
            && t.readers[i].results == (if s.ver == r.from then r.results + [Return(r.from, r.from, r.out, r.src)] else r.results)
            && (t.readers[i].pc.Outside? <==> s.ver == r.from)
  {
    assert ReaderInv(data, s.ver, s.readers[i]);
    LeftAlone(v, data, Step(v, data, s, Read(i, w)), between, i);
  }

  // ---- commitTick does commit ----

  function StoresOf(ws: seq<nat>): seq<Action> {
    if ws == [] then [] else StoresOf(ws[..|ws| - 1]) + [StoreWord(ws[|ws| - 1])]
  }

  // What the writer has come to, the readers standing still.
  ghost predicate HasStored(data: Data, s: State, t: State, done: set<nat>) {
    WriterInv(data, t) && t.writer == Storing(done) && t.ver == s.ver + 1 && t.readers == s.readers
  }

  lemma BeginStores(v: Variant, data: Data, s: State)
    requires WriterInv(data, s) && s.writer.Resting?
    ensures HasStored(data, s, Step(v, data, s, BeginCommit), {})
  {
    WriterKeeps(data, s, BeginCommit);
  }

  lemma StoreOneMore(v: Variant, data: Data, s: State, t: State, done: set<nat>, w: nat)
    requires HasStored(data, s, t, done) && w < WORDS
    ensures HasStored(data, s, Step(v, data, t, StoreWord(w)), done + {w})
  {
    WriterKeeps(data, t, StoreWord(w));
  }

  lemma EndStores(v: Variant, data: Data, s: State, t: State)
    requires HasStored(data, s, t, EVERY)
    ensures var u := Step(v, data, t, EndCommit);
            WriterInv(data, u) && u.writer.Resting? && u.ver == s.ver + 2 && u.readers == s.readers
  {
    assert All(EVERY);
    WriterKeeps(data, t, EndCommit);
  }

  lemma {:induction false} StoreInAnyOrder(v: Variant, data: Data, s: State, t: State, ws: seq<nat>)
    requires HasStored(data, s, t, {}) && forall w :: w in ws ==> w < WORDS
    ensures HasStored(data, s, RunFrom(v, data, t, StoresOf(ws)), Members(ws))
  {
    hide HasStored, Step;
    if ws == [] {
      assert Members(ws) == {};
    } else {
      var before, w := ws[..|ws| - 1], ws[|ws| - 1];
      assert ws == before + [w];
      assert forall x :: x in before ==> x in ws;
      assert w in ws;
      StoreInAnyOrder(v, data, s, t, before);
      MoreRun(v, data, t, StoresOf(before), StoreWord(w));
      StoreOneMore(v, data, s, RunFrom(v, data, t, StoresOf(before)), Members(before), w);
      assert Members(ws) == Members(before) + {w};
    }
  }

  /** A commit whose words are stored in any order ends with the writer at rest, the version two
      higher, and exactly the next observation in memory. */
  lemma CommitCompletes(v: Variant, data: Data, s: State, ws: seq<nat>)
    requires WriterInv(data, s) && s.writer.Resting? && AnyOrder(ws)
    ensures RunFrom(v, data, s, [BeginCommit] + StoresOf(ws) + [EndCommit])
         == s.(ver := s.ver + 2, mem := data(s.ver / 2 + 1), src := seq(WORDS, _ => s.ver / 2 + 1))
  {
    hide Step, HasStored;
    MoreRun(v, data, s, [], BeginCommit);
    assert [] + [BeginCommit] == [BeginCommit];
    var t := Step(v, data, s, BeginCommit);
    BeginStores(v, data, s);
    RunConcat(v, data, s, [BeginCommit], StoresOf(ws));
    StoreInAnyOrder(v, data, s, t, ws);
    assert Members(ws) == EVERY;
    MoreRun(v, data, s, [BeginCommit] + StoresOf(ws), EndCommit);
    EndStores(v, data, s, RunFrom(v, data, t, StoresOf(ws)));
    RestingMemory(data, RunFrom(v, data, s, [BeginCommit] + StoresOf(ws) + [EndCommit]), s.ver / 2 + 1);
  }

  // At rest, memory holds the newest observation.
  lemma RestingMemory(data: Data, s: State, n: nat)
    requires WriterInv(data, s) && s.writer.Resting? && n == s.ver / 2
    ensures s.mem == data(n) && s.src == seq(WORDS, _ => n)
  {
    assert forall j: nat :: j < WORDS ==> j in EVERY;
  }
}
