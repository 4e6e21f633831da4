/** Tick assembly: which observations the IMU driver publishes, said of the log of accepted
    frames alone, and the counters that must agree with it in every run. */
module ImuTicks {
  import opened QuaternionAlgebra
  import opened ImuFrames
  import Arith

  ghost predicate WellCut(fs: seq<seq<Byte>>) {
    forall i :: 0 <= i < |fs| ==> Cut(fs[i]) && KnownRid(fs[i][3])
  }

  // The report ids of a frame log.
  function Rids(fs: seq<seq<Byte>>): (rs: seq<Byte>)
    requires WellCut(fs)
    ensures |rs| == |fs|
    ensures forall i :: 0 <= i < |fs| ==> rs[i] == fs[i][3]
  {
    if fs == [] then [] else Rids(fs[..|fs|-1]) + [fs[|fs|-1][3]]
  }

  // Index of the last occurrence of rid before upto, or -1.
  function LastOf(rs: seq<Byte>, rid: Byte, upto: nat): (j: int)
    requires upto <= |rs|
    ensures -1 <= j < upto
    ensures j >= 0 ==> rs[j] == rid
    ensures forall i :: j < i < upto ==> rs[i] != rid
  {
    if upto == 0 then -1
    else if rs[upto-1] == rid then upto - 1
    else LastOf(rs, rid, upto - 1)
  }

  // Frame j completes a tick: a quaternion with an accel and a gyro frame since the last tick.
  predicate CompletesTick(rs: seq<Byte>, j: nat)
    requires j < |rs|
    decreases j, 1
  {
    && rs[j] == RID_QUAT
    && LastTick(rs, j) < LastOf(rs, RID_ACCEL, j)
    && LastTick(rs, j) < LastOf(rs, RID_GYRO, j)
  }

  // Index of the last tick-completing frame before upto, or -1.
  function LastTick(rs: seq<Byte>, upto: nat): (j: int)
    requires upto <= |rs|
    ensures -1 <= j < upto
    decreases upto, 0
  {
    if upto == 0 then -1
    else if CompletesTick(rs, upto - 1) then upto - 1
    else LastTick(rs, upto - 1)
  }

  // The tick-completing frames before upto, in order.
  function Ticks(rs: seq<Byte>, upto: nat): (ts: seq<nat>)
    requires upto <= |rs|
    ensures forall i :: 0 <= i < |ts| ==> ts[i] < upto && CompletesTick(rs, ts[i])
  {
    if upto == 0 then []
    else if CompletesTick(rs, upto - 1) then Ticks(rs, upto - 1) + [upto - 1]
    else Ticks(rs, upto - 1)
  }

  // What the n-th tick must publish when frame j completes it.
  function TickObservation(e: Env, fs: seq<seq<Byte>>, j: nat, n: nat): Observation
    requires WellCut(fs) && j < |fs| && CompletesTick(Rids(fs), j)
  {
    Observation(QuatPayload(e, fs[j]),
                Payload(e, fs[LastOf(Rids(fs), RID_GYRO, j)]),
                Payload(e, fs[LastOf(Rids(fs), RID_ACCEL, j)]),
                e.clock(n), n, true)
  }

  /** The state agrees with its own frame log. */
  ghost predicate Consistent(e: Env, t: Ticker) {
    && t.everyN > 0
    && WellCut(t.frames)
    && PendingAgrees(e, t.frames, t.pending)
    && CommitsAgree(e, t.frames, t.commits)
    && CountersAgree(t)
    && CallbacksAgree(t)
  }

  ghost predicate PendingAgrees(e: Env, fs: seq<seq<Byte>>, p: Pending)
    requires WellCut(fs)
  {
    var rs := Rids(fs);
    var a := LastOf(rs, RID_ACCEL, |rs|);
    var g := LastOf(rs, RID_GYRO, |rs|);
    && (p.hasAccel <==> LastTick(rs, |rs|) < a) && (a >= 0 ==> p.acc == Payload(e, fs[a]))
    && (p.hasGyro <==> LastTick(rs, |rs|) < g) && (g >= 0 ==> p.gyr == Payload(e, fs[g]))
  }

  ghost predicate CommitsAgree(e: Env, fs: seq<seq<Byte>>, commits: seq<Observation>)
    requires WellCut(fs)
  {
    var ts := Ticks(Rids(fs), |fs|);
    && |commits| == |ts|
    && forall k :: 0 <= k < |ts| ==> commits[k] == TickObservation(e, fs, ts[k], k + 1)
  }

  ghost predicate CountersAgree(t: Ticker) {
    var n := |t.commits|;
    && t.seqCounter == t.tickCounter == t.ticksTotal == n
    && t.obsVer == 2 * n
    && t.obs == (if n == 0 then NO_OBSERVATION else t.commits[n-1])
  }

  ghost predicate CallbacksAgree(t: Ticker)
    requires t.everyN > 0
  {
    && t.ticksPub == |t.fired|
    && CallsRight(t.commits, t.fired, t.hasCallback, t.everyN, t.setAt, t.firedAt)
  }

  // Of the commits, those since the callback was set whose count is a multiple of its period are
  // what it was called with since then.
  ghost predicate CallsRight(commits: seq<Observation>, fired: seq<Observation>, on: bool, everyN: nat, setAt: nat, firedAt: nat)
    requires everyN > 0
  {
    && firedAt <= |fired| && setAt <= |commits|
    && |fired| - firedAt == (if on then |commits| / everyN - setAt / everyN else 0)
    && forall i :: firedAt <= i < |fired| ==> CallRight(commits, fired[i], everyN, setAt, i - firedAt)
  }

  predicate CallRight(commits: seq<Observation>, seen: Observation, everyN: nat, setAt: nat, i: int)
    requires everyN > 0
  {
    setAt <= Nth(everyN, setAt, i) < |commits| && seen == commits[Nth(everyN, setAt, i)]
  }

  // The commit that call i since then is about, counting both from zero.
  function Nth(everyN: nat, setAt: nat, i: int): int
    requires everyN > 0
  {
    (setAt / everyN + i + 1) * everyN - 1
  }

  // setObsCallback: a period of 0 is taken as 1.
  function SetObsCallback(t: Ticker, everyN: nat): Ticker {
    t.(hasCallback := true, everyN := if everyN < 1 then 1 else everyN, setAt := |t.commits|, firedAt := |t.fired|)
  }

  /** A callback may be set at any time: from then on the count starts again. */
  lemma SettingKeeps(e: Env, t: Ticker, everyN: nat)
    requires Consistent(e, t)
    ensures Consistent(e, SetObsCallback(t, everyN))
  {
  }

  const NO_PENDING := Pending(Vec(0.0, 0.0, 0.0), Vec(0.0, 0.0, 0.0), Quat(0.0, 0.0, 0.0, 0.0), false, false, false)
  const IDLE := Ticker(NO_PENDING, NO_OBSERVATION, 0, 0, 0, 0, 0, false, 1, [], [], [], 0, 0)

  // ---- the log functions look only at their prefix ----

  lemma {:induction false} LastOfPrefix(rs: seq<Byte>, r: Byte, rid: Byte, upto: nat)
    requires upto <= |rs|
    ensures LastOf(rs + [r], rid, upto) == LastOf(rs, rid, upto)
  {
    if upto > 0 {
      LastOfPrefix(rs, r, rid, upto - 1);
    }
  }

  lemma {:induction false} LogPrefix(rs: seq<Byte>, r: Byte, upto: nat)
    requires upto <= |rs|
    ensures LastTick(rs + [r], upto) == LastTick(rs, upto)
    ensures Ticks(rs + [r], upto) == Ticks(rs, upto)
    ensures upto < |rs| ==> CompletesTick(rs + [r], upto) == CompletesTick(rs, upto)
  {
    if upto > 0 {
      LogPrefix(rs, r, upto - 1);
    }
    LastOfPrefix(rs, r, RID_ACCEL, upto);
    LastOfPrefix(rs, r, RID_GYRO, upto);
  }

  lemma LastOfAppend(rs: seq<Byte>, r: Byte, rid: Byte)
    ensures LastOf(rs + [r], rid, |rs| + 1) == if r == rid then |rs| else LastOf(rs, rid, |rs|)
  {
    LastOfPrefix(rs, r, rid, |rs|);
  }

  // What one more frame does to the log functions.
  lemma TickAppend(rs: seq<Byte>, r: Byte)
    ensures var gs := rs + [r]; var n := |rs|;
            && (CompletesTick(gs, n) <==> r == RID_QUAT && LastTick(rs, n) < LastOf(rs, RID_ACCEL, n) && LastTick(rs, n) < LastOf(rs, RID_GYRO, n))
            && LastTick(gs, n + 1) == (if CompletesTick(gs, n) then n else LastTick(rs, n))
            && Ticks(gs, n + 1) == Ticks(rs, n) + (if CompletesTick(gs, n) then [n] else [])
  {
    LogPrefix(rs, r, |rs|);
    LastOfPrefix(rs, r, RID_ACCEL, |rs|);
    LastOfPrefix(rs, r, RID_GYRO, |rs|);
  }

  lemma RidsAppend(fs: seq<seq<Byte>>, f: seq<Byte>)
    requires WellCut(fs) && Cut(f) && KnownRid(f[3])
    ensures WellCut(fs + [f]) && Rids(fs + [f]) == Rids(fs) + [f[3]]
  {
    assert (fs + [f])[..|fs|] == fs;
  }

  // Published observations do not depend on later frames.
  lemma TickObservationPrefix(e: Env, fs: seq<seq<Byte>>, f: seq<Byte>, j: nat, n: nat)
    requires WellCut(fs) && Cut(f) && KnownRid(f[3])
    requires j < |fs| && CompletesTick(Rids(fs), j)
    ensures WellCut(fs + [f]) && CompletesTick(Rids(fs + [f]), j)
    ensures TickObservation(e, fs + [f], j, n) == TickObservation(e, fs, j, n)
  {
    RidsAppend(fs, f);
    LogPrefix(Rids(fs), f[3], j);
    LastOfPrefix(Rids(fs), f[3], RID_ACCEL, j);
    LastOfPrefix(Rids(fs), f[3], RID_GYRO, j);
  }

  // ---- preservation ----

  lemma AbsorbKeepsPending(e: Env, t: Ticker, f: seq<Byte>)
    requires Consistent(e, t) && Cut(f) && KnownRid(f[3])
    ensures WellCut(t.frames + [f]) && PendingAgrees(e, t.frames + [f], Absorb(e, t, f).pending)
  {
    RidsAppend(t.frames, f);
    TickAppend(Rids(t.frames), f[3]);
    LastOfAppend(Rids(t.frames), f[3], RID_ACCEL);
    LastOfAppend(Rids(t.frames), f[3], RID_GYRO);
  }

  lemma CompletesIff(e: Env, t: Ticker, f: seq<Byte>)
    requires Consistent(e, t) && Cut(f) && KnownRid(f[3])
    ensures WellCut(t.frames + [f])
    ensures CompletesTick(Rids(t.frames + [f]), |t.frames|) <==>
              f[3] == RID_QUAT && t.pending.hasAccel && t.pending.hasGyro
  {
    RidsAppend(t.frames, f);
    TickAppend(Rids(t.frames), f[3]);
  }

  // The observation committed on absorbing f is the one its tick calls for.
  lemma CommitIsTickObservation(e: Env, t: Ticker, f: seq<Byte>)
    requires Consistent(e, t) && Cut(f) && KnownRid(f[3])
    requires f[3] == RID_QUAT && t.pending.hasAccel && t.pending.hasGyro
    ensures WellCut(t.frames + [f]) && CompletesTick(Rids(t.frames + [f]), |t.frames|)
    ensures Absorb(e, t, f).commits
         == t.commits + [TickObservation(e, t.frames + [f], |t.frames|, |t.commits| + 1)]
  {
    CompletesIff(e, t, f);
    RidsAppend(t.frames, f);
    LastOfPrefix(Rids(t.frames), f[3], RID_ACCEL, |t.frames|);
    LastOfPrefix(Rids(t.frames), f[3], RID_GYRO, |t.frames|);
  }

  // Frame j completes the n-th tick, and o is what it must publish.
  ghost predicate IsTickOf(e: Env, fs: seq<seq<Byte>>, j: nat, o: Observation, n: nat)
    requires WellCut(fs)
  {
    j < |fs| && CompletesTick(Rids(fs), j) && o == TickObservation(e, fs, j, n)
  }

  ghost predicate AreTicksOf(e: Env, fs: seq<seq<Byte>>, ts: seq<nat>, commits: seq<Observation>)
    requires WellCut(fs)
  {
    |ts| == |commits| && forall k :: 0 <= k < |ts| ==> IsTickOf(e, fs, ts[k], commits[k], k + 1)
  }

  lemma AgreeIffTicks(e: Env, fs: seq<seq<Byte>>, commits: seq<Observation>, ts: seq<nat>)
    requires WellCut(fs) && ts == Ticks(Rids(fs), |fs|)
    ensures CommitsAgree(e, fs, commits) <==> AreTicksOf(e, fs, ts, commits)
  {
    if AreTicksOf(e, fs, ts, commits) {
      forall k | 0 <= k < |ts| ensures commits[k] == TickObservation(e, fs, ts[k], k + 1) {
        assert IsTickOf(e, fs, ts[k], commits[k], k + 1);
      }
    }
  }

  // Ticks of a log are ticks of the longer log.
  lemma TicksStay(e: Env, fs: seq<seq<Byte>>, f: seq<Byte>, ts: seq<nat>, commits: seq<Observation>)
    requires WellCut(fs) && Cut(f) && KnownRid(f[3]) && AreTicksOf(e, fs, ts, commits)
    ensures WellCut(fs + [f]) && AreTicksOf(e, fs + [f], ts, commits)
  {
    RidsAppend(fs, f);
    forall k | 0 <= k < |ts| ensures IsTickOf(e, fs + [f], ts[k], commits[k], k + 1) {
      assert IsTickOf(e, fs, ts[k], commits[k], k + 1);
      TickObservationPrefix(e, fs, f, ts[k], k + 1);
    }
  }

  lemma CommitsSame(e: Env, fs: seq<seq<Byte>>, f: seq<Byte>, commits: seq<Observation>)
    requires WellCut(fs) && Cut(f) && KnownRid(f[3]) && CommitsAgree(e, fs, commits)
    requires WellCut(fs + [f]) && !CompletesTick(Rids(fs + [f]), |fs|)
    ensures CommitsAgree(e, fs + [f], commits)
  {
    hide CommitsAgree, AreTicksOf, CompletesTick, WellCut;
    var ts := Ticks(Rids(fs), |fs|);
    RidsAppend(fs, f);
    TickAppend(Rids(fs), f[3]);
    AgreeIffTicks(e, fs, commits, ts);
    TicksStay(e, fs, f, ts, commits);
    AgreeIffTicks(e, fs + [f], commits, ts);
  }

  lemma CommitsMore(e: Env, fs: seq<seq<Byte>>, f: seq<Byte>, commits: seq<Observation>)
    requires WellCut(fs) && Cut(f) && KnownRid(f[3]) && CommitsAgree(e, fs, commits)
    requires WellCut(fs + [f]) && CompletesTick(Rids(fs + [f]), |fs|)
    ensures CommitsAgree(e, fs + [f], commits + [TickObservation(e, fs + [f], |fs|, |commits| + 1)])
  {
    hide CommitsAgree, AreTicksOf, CompletesTick, WellCut, TickObservation;
    var ts := Ticks(Rids(fs), |fs|);
    RidsAppend(fs, f);
    TickAppend(Rids(fs), f[3]);
    AgreeIffTicks(e, fs, commits, ts);
    TicksStay(e, fs, f, ts, commits);
    OneMoreTick(e, fs + [f], ts, |fs|, commits);
    AgreeIffTicks(e, fs + [f], commits + [TickObservation(e, fs + [f], |fs|, |commits| + 1)], ts + [|fs|]);
  }

  lemma OneMoreTick(e: Env, fs: seq<seq<Byte>>, ts: seq<nat>, j: nat, commits: seq<Observation>)
    requires WellCut(fs) && j < |fs| && CompletesTick(Rids(fs), j) && AreTicksOf(e, fs, ts, commits)
    ensures AreTicksOf(e, fs, ts + [j], commits + [TickObservation(e, fs, j, |commits| + 1)])
  {
  }

  lemma AbsorbKeepsCommits(e: Env, t: Ticker, f: seq<Byte>)
    requires Consistent(e, t) && Cut(f) && KnownRid(f[3])
    ensures WellCut(t.frames + [f]) && CommitsAgree(e, t.frames + [f], Absorb(e, t, f).commits)
  {
    hide CommitsAgree, CompletesTick, TickObservation, PendingAgrees, CountersAgree, CallbacksAgree;
    CompletesIff(e, t, f);
    if f[3] == RID_QUAT && t.pending.hasAccel && t.pending.hasGyro {
      CommitIsTickObservation(e, t, f);
      CommitsMore(e, t.frames, f, t.commits);
    } else {
      assert Absorb(e, t, f).commits == t.commits;
      CommitsSame(e, t.frames, f, t.commits);
    }
  }

  lemma CommitTickKeepsCounters(e: Env, t: Ticker)
    requires t.everyN > 0 && CountersAgree(t) && CallbacksAgree(t)
    ensures CountersAgree(CommitTick(e, t)) && CallbacksAgree(CommitTick(e, t))
  {
    var t' := CommitTick(e, t);
    assert t'.commits[..|t.commits|] == t.commits;
    CallsKept(t.commits, t.fired, t.hasCallback, t.everyN, t.setAt, t.firedAt, t'.obs, t'.fired);
  }

  lemma CallsKept(commits: seq<Observation>, fired: seq<Observation>, on: bool, d: nat, setAt: nat, firedAt: nat,
                  next: Observation, fired': seq<Observation>)
    requires d > 0 && CallsRight(commits, fired, on, d, setAt, firedAt)
    requires fired' == if on && (|commits| + 1) % d == 0 then fired + [next] else fired
    ensures CallsRight(commits + [next], fired', on, d, setAt, firedAt)
  {
    var n := |commits|;
    Arith.DivNext(n, d);
    assert |fired'| - firedAt == if on then (n + 1) / d - setAt / d else 0;
    forall i | firedAt <= i < |fired'|
      ensures CallRight(commits + [next], fired'[i], d, setAt, i - firedAt)
    {
      if i < |fired| {
        assert CallRight(commits, fired[i], d, setAt, i - firedAt);
      } else {
        NewestNth(n, d, setAt, i - firedAt);
      }
    }
  }

  lemma NewestNth(n: nat, d: nat, setAt: nat, i: int)
    requires d > 0 && (n + 1) % d == 0 && setAt / d + i == n / d
    ensures Nth(d, setAt, i) == n
  {
    var q := (n + 1) / d;
    assert q * d == n + 1;
    Arith.DivNext(n, d);
    assert Nth(d, setAt, i) == q * d - 1;
  }

  lemma AbsorbKeepsCounters(e: Env, t: Ticker, f: seq<Byte>)
    requires Cut(f) && KnownRid(f[3])
    requires t.everyN > 0 && CountersAgree(t) && CallbacksAgree(t)
    ensures CountersAgree(Absorb(e, t, f)) && CallbacksAgree(Absorb(e, t, f))
  {
    var st1 := t.(frames := t.frames + [f]);
    if f[3] == RID_QUAT && t.pending.hasAccel && t.pending.hasGyro {
      CommitTickKeepsCounters(e, st1.(pending := st1.pending.(quat := QuatPayload(e, f), hasQuat := true)));
    }
  }

  lemma AbsorbKeeps(e: Env, t: Ticker, f: seq<Byte>)
    requires Consistent(e, t) && Cut(f) && KnownRid(f[3])
    ensures Consistent(e, Absorb(e, t, f))
  {
    AbsorbKeepsPending(e, t, f);
    AbsorbKeepsCommits(e, t, f);
    AbsorbKeepsCounters(e, t, f);
    assert Absorb(e, t, f).frames == t.frames + [f];
  }

  lemma {:induction false} ParseKeeps(e: Env, s: seq<Byte>, pos: nat, st: State)
    requires pos <= |s| && Consistent(e, st.tick)
    ensures Consistent(e, Parse(e, s, pos, st).st.tick)
    decreases |s| - pos
  {
    if Decided(s, pos) {
      var p := Advance(e, s, pos, st);
      if GoodAt(e, s, pos) {
        AbsorbKeeps(e, st.tick, FrameAt(s, pos));
      } else {
        assert p.st.tick == st.tick;
      }
      ParseKeeps(e, s, p.stop, p.st);
    }
  }

  /** In every run from a consistent driver, the published observations are exactly the completed
      ticks of the accepted frames: each holds the latest accel and gyro values, both newer than the previous tick; the
      sequence numbers, the tick total and half the seqlock version count them; and the
      callback has seen every everyN-th since it was set. */
  lemma {:induction false} EveryRunConsistent(e: Env, r: Reader, chunks: seq<seq<Byte>>)
    requires Consistent(e, r.st.tick)
    ensures Consistent(e, FeedAll(e, r, chunks).st.tick)
    decreases |chunks|
  {
    if chunks != [] {
      ParseKeeps(e, r.buf + chunks[0], 0, r.st);
      EveryRunConsistent(e, Feed(e, r, chunks[0]), chunks[1..]);
    }
  }

  lemma StartConsistent(e: Env, everyN: nat)
    ensures Consistent(e, IDLE) && Consistent(e, SetObsCallback(IDLE, everyN))
  {
    assert Ticks([], 0) == [];
  }

  /** Every published quaternion has norm 1, given a correct reciprocal square root. */
  lemma CommitsAreUnit(e: Env, t: Ticker, k: nat)
    requires Consistent(e, t) && k < |t.commits|
    requires forall x: real {:trigger e.invSqrt(x)} :: x > 0.0 ==> e.invSqrt(x) * e.invSqrt(x) * x == 1.0
    ensures NormSq(t.commits[k].quat) == 1.0
  {
    hide PendingAgrees, CountersAgree, CallbacksAgree, NormSq, QuatPayload;
    var j := Ticks(Rids(t.frames), |t.frames|)[k];
    assert t.commits[k] == TickObservation(e, t.frames, j, k + 1);
    QuatPayloadIsUnit(e, t.frames[j]);
  }

  lemma QuatPayloadIsUnit(e: Env, f: seq<Byte>)
    requires Cut(f) && f[3] == RID_QUAT
    requires forall x: real {:trigger e.invSqrt(x)} :: x > 0.0 ==> e.invSqrt(x) * e.invSqrt(x) * x == 1.0
    ensures NormSq(QuatPayload(e, f)) == 1.0
  {
    var q := Quat(e.f32(LeWord(f, 4)), e.f32(LeWord(f, 8)), e.f32(LeWord(f, 12)), e.f32(LeWord(f, 16)));
    if NormSq(q) > 0.000001 {
      NormScale(e.invSqrt(NormSq(q)), q);
    }
  }
}
