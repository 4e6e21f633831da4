/** The byte-stream side of the IMU driver: resynchronising frame parser and tick assembly.
    The spec is a function on the driver's state; class ImuDriver (ImuDriver.dfy) refines it. */
module ImuFrames {
  import opened QuaternionAlgebra

  type Byte = b: int | 0 <= b < 256

  const FRAME_HDR0: Byte := 0x55
  const FRAME_HDR1: Byte := 0xAA
  const FRAME_TAIL: Byte := 0x0A
  const FRAME_LEN_STD: nat := 19
  const FRAME_LEN_QUAT: nat := 23
  const RID_ACCEL: Byte := 0x01
  const RID_GYRO: Byte := 0x02
  const RID_EULER: Byte := 0x03
  const RID_QUAT: Byte := 0x04
  const MAX_BUFFER: nat := 4096

  datatype Observation = Observation(quat: Quat, gyr: Vec, acc: Vec, timestamp: int, seqNo: nat, valid: bool)

  const NO_OBSERVATION := Observation(Quat(1.0, 0.0, 0.0, 0.0), Vec(0.0, 0.0, 0.0), Vec(0.0, 0.0, 0.0), 0, 0, false)

  datatype Pending = Pending(acc: Vec, gyr: Vec, quat: Quat, hasAccel: bool, hasGyro: bool, hasQuat: bool)

  /** What the driver does not compute itself: the checksum, the IEEE reading of four bytes,
      1/sqrt(x), and the clock (as the reading taken at the n-th commit). */
  datatype Env = Env(crc: seq<Byte> -> int, f32: int -> real, invSqrt: real -> real, clock: nat -> int)

  /** The tick side of the driver. `frames`, `commits` and `fired` are logs: the accepted
      frames, the published observations and those handed to the callback, oldest first. `setAt` and
      `firedAt` are the lengths of the last two when the callback was last set. */
  datatype Ticker = Ticker(
    pending: Pending, obs: Observation, obsVer: nat, tickCounter: nat, seqCounter: nat,
    ticksTotal: nat, ticksPub: nat, hasCallback: bool, everyN: nat,
    frames: seq<seq<Byte>>, commits: seq<Observation>, fired: seq<Observation>, setAt: nat, firedAt: nat)

  /** With the parser's counters; `skips` is the number of bytes passed over one at a time. */
  datatype State = State(tick: Ticker, crcErr: nat, dropped: nat, skips: nat)

  function FrameLen(rid: Byte): nat {
    if rid == RID_QUAT then FRAME_LEN_QUAT else FRAME_LEN_STD
  }

  function LeWord(s: seq<Byte>, i: nat): int
    requires i + 4 <= |s|
  {
    s[i] as int + 0x100 * (s[i+1] as int) + 0x1_0000 * (s[i+2] as int) + 0x100_0000 * (s[i+3] as int)
  }

  // A frame as processBuffer cuts it: long enough for its own report id.
  ghost predicate Cut(f: seq<Byte>) {
    |f| >= 4 && |f| == FrameLen(f[3])
  }

  // Three consecutive little-endian floats from offset 4.
  function Payload(e: Env, f: seq<Byte>): Vec
    requires Cut(f)
  {
    Vec(e.f32(LeWord(f, 4)), e.f32(LeWord(f, 8)), e.f32(LeWord(f, 12)))
  }

  // The quaternion payload scaled to norm 1, or the identity when it is too short to scale.
  function QuatPayload(e: Env, f: seq<Byte>): Quat
    requires Cut(f) && f[3] == RID_QUAT
  {
    var q := Quat(e.f32(LeWord(f, 4)), e.f32(LeWord(f, 8)), e.f32(LeWord(f, 12)), e.f32(LeWord(f, 16)));
    if NormSq(q) > 0.000001 then
      var inv := e.invSqrt(NormSq(q));
      Scale(inv, q)
    else
      Quat(1.0, 0.0, 0.0, 0.0)
  }

  // ---- acceptance of one frame ----

  predicate CrcMatches(e: Env, f: seq<Byte>)
    requires Cut(f)
  {
    e.crc(f[..|f|-3]) == f[|f|-3] as int + 0x100 * (f[|f|-2] as int)
  }

  predicate KnownRid(rid: Byte) {
    rid == RID_ACCEL || rid == RID_GYRO || rid == RID_EULER || rid == RID_QUAT
  }

  predicate Passes(e: Env, f: seq<Byte>)
    requires Cut(f)
  {
    f[|f|-1] == FRAME_TAIL && CrcMatches(e, f) && KnownRid(f[3])
  }

  // ---- effects ----

  function CommitTick(e: Env, t: Ticker): Ticker
    requires t.everyN > 0
  {
    var next := Observation(t.pending.quat, t.pending.gyr, t.pending.acc,
                            e.clock(t.seqCounter + 1), t.seqCounter + 1, true);
    var fire := t.hasCallback && (t.tickCounter + 1) % t.everyN == 0;
    t.(obs := next, obsVer := t.obsVer + 2, seqCounter := t.seqCounter + 1,
       tickCounter := t.tickCounter + 1, ticksTotal := t.ticksTotal + 1,
       ticksPub := if fire then t.ticksPub + 1 else t.ticksPub,
       fired := if fire then t.fired + [next] else t.fired,
       commits := t.commits + [next],
       pending := t.pending.(hasAccel := false, hasGyro := false, hasQuat := false))
  }

  // The effect of an accepted frame.
  function Absorb(e: Env, t: Ticker, f: seq<Byte>): (t': Ticker)
    requires Cut(f) && KnownRid(f[3]) && t.everyN > 0
    ensures t'.frames == t.frames + [f] && t'.everyN == t.everyN
  {
    var t := t.(frames := t.frames + [f]);
    var p := t.pending;
    if f[3] == RID_ACCEL then t.(pending := p.(acc := Payload(e, f), hasAccel := true))
    else if f[3] == RID_GYRO then t.(pending := p.(gyr := Payload(e, f), hasGyro := true))
    else if f[3] == RID_EULER then t
    else
      var t := t.(pending := p.(quat := QuatPayload(e, f), hasQuat := true));
      if p.hasAccel && p.hasGyro then CommitTick(e, t) else t
  }

  // parseFrame: a refused frame costs at most a checksum count.
  function ParseFrame(e: Env, st: State, f: seq<Byte>): State
    requires Cut(f) && st.tick.everyN > 0
  {
    if Passes(e, f) then st.(tick := Absorb(e, st.tick, f))
    else if f[|f|-1] == FRAME_TAIL && !CrcMatches(e, f) then st.(crcErr := st.crcErr + 1)
    else st
  }

  // ---- the scan ----

  predicate HeaderAt(s: seq<Byte>, pos: nat)
    requires pos + 4 <= |s|
  {
    s[pos] == FRAME_HDR0 && s[pos+1] == FRAME_HDR1
  }

  // Enough bytes have arrived to decide what position pos holds.
  predicate Decided(s: seq<Byte>, pos: nat) {
    pos + 4 <= |s| && (HeaderAt(s, pos) ==> pos + FrameLen(s[pos+3]) <= |s|)
  }

  function FrameAt(s: seq<Byte>, pos: nat): (f: seq<Byte>)
    requires Decided(s, pos) && HeaderAt(s, pos)
    ensures Cut(f)
  {
    s[pos..pos + FrameLen(s[pos+3])]
  }

  predicate GoodAt(e: Env, s: seq<Byte>, pos: nat) {
    Decided(s, pos) && HeaderAt(s, pos) && Passes(e, FrameAt(s, pos))
  }

  datatype Parsed = Parsed(stop: nat, st: State)

  // One turn of processBuffer's loop: over a stray byte, a refused header or a whole frame.
  function Advance(e: Env, s: seq<Byte>, pos: nat, st: State): (p: Parsed)
    requires Decided(s, pos) && st.tick.everyN > 0
    ensures pos < p.stop <= |s| && p.st.tick.everyN == st.tick.everyN
  {
    if !HeaderAt(s, pos) then Parsed(pos + 1, st.(skips := st.skips + 1))
    else
      var f := FrameAt(s, pos);
      var st1 := ParseFrame(e, st, f);
      if Passes(e, f) then Parsed(pos + |f|, st1)
      else Parsed(pos + 1, st1.(dropped := st1.dropped + 1, skips := st1.skips + 1))
  }

  // processBuffer's loop from position pos.
  function Parse(e: Env, s: seq<Byte>, pos: nat, st: State): (p: Parsed)
    requires pos <= |s| && st.tick.everyN > 0
    ensures pos <= p.stop <= |s| && !Decided(s, p.stop) && p.st.tick.everyN == st.tick.everyN
    decreases |s| - pos
  {
    if !Decided(s, pos) then Parsed(pos, st)
    else
      var p := Advance(e, s, pos, st);
      Parse(e, s, p.stop, p.st)
  }

  // ---- chunking ----

  // A byte stream as the reader thread sees it: residue plus state, fed one read at a time.
  datatype Reader = Reader(buf: seq<Byte>, st: State)

  function Feed(e: Env, r: Reader, chunk: seq<Byte>): (r': Reader)
    requires r.st.tick.everyN > 0
    ensures r'.st.tick.everyN > 0 && !Decided(r'.buf, 0)
  {
    var data := r.buf + chunk;
    var p := Parse(e, data, 0, r.st);
    Reader(data[p.stop..], p.st)
  }

  function FeedAll(e: Env, r: Reader, chunks: seq<seq<Byte>>): (r': Reader)
    requires r.st.tick.everyN > 0
    ensures r'.st.tick.everyN > 0
    decreases |chunks|
  {
    if chunks == [] then r else FeedAll(e, Feed(e, r, chunks[0]), chunks[1..])
  }

  function Concat(chunks: seq<seq<Byte>>): seq<Byte> {
    if chunks == [] then [] else chunks[0] + Concat(chunks[1..])
  }

  lemma AdvanceExtends(e: Env, a: seq<Byte>, b: seq<Byte>, pos: nat, st: State)
    requires Decided(a, pos) && st.tick.everyN > 0
    ensures Decided(a + b, pos) && Advance(e, a + b, pos, st) == Advance(e, a, pos, st)
  {
    if HeaderAt(a, pos) {
      assert FrameAt(a + b, pos) == FrameAt(a, pos);
    }
  }

  // What was decided before more bytes arrived stays decided the same way.
  lemma {:induction false} ParseExtends(e: Env, a: seq<Byte>, b: seq<Byte>, pos: nat, st: State)
    requires pos <= |a| && st.tick.everyN > 0
    ensures Parse(e, a + b, pos, st) == Parse(e, a + b, Parse(e, a, pos, st).stop, Parse(e, a, pos, st).st)
    decreases |a| - pos
  {
    if Decided(a, pos) {
      AdvanceExtends(e, a, b, pos, st);
      var p := Advance(e, a, pos, st);
      ParseExtends(e, a, b, p.stop, p.st);
    }
  }

  lemma AdvanceShifts(e: Env, s: seq<Byte>, t: seq<Byte>, k: nat, pos: nat, st: State)
    requires k <= |s| && t == s[k..] && pos <= |t| && st.tick.everyN > 0
    ensures Decided(s, k + pos) == Decided(t, pos)
    ensures Decided(t, pos) ==>
              Advance(e, s, k + pos, st) == Parsed(k + Advance(e, t, pos, st).stop, Advance(e, t, pos, st).st)
  {
    if Decided(t, pos) && HeaderAt(t, pos) {
      assert FrameAt(s, k + pos) == FrameAt(t, pos);
    }
  }

  // Erasing a consumed prefix only renumbers positions.
  lemma {:induction false} ParseShifts(e: Env, s: seq<Byte>, t: seq<Byte>, k: nat, pos: nat, st: State)
    requires k <= |s| && t == s[k..] && pos <= |t| && st.tick.everyN > 0
    ensures Parse(e, s, k + pos, st) == Parsed(k + Parse(e, t, pos, st).stop, Parse(e, t, pos, st).st)
    decreases |s| - pos
  {
    AdvanceShifts(e, s, t, k, pos, st);
    if Decided(t, pos) {
      var p := Advance(e, t, pos, st);
      ParseShifts(e, s, t, k, p.stop, p.st);
    }
  }

  lemma FeedTwice(e: Env, r: Reader, a: seq<Byte>, b: seq<Byte>)
    requires r.st.tick.everyN > 0
    ensures Feed(e, Feed(e, r, a), b) == Feed(e, r, a + b)
  {
    var data := r.buf + a;
    var all := data + b;
    assert all == r.buf + (a + b);
    var p := Parse(e, data, 0, r.st);
    var rest := data[p.stop..] + b;
    assert rest == all[p.stop..];
    var q := Parse(e, rest, 0, p.st);
    assert Parse(e, all, 0, r.st) == Parsed(p.stop + q.stop, q.st) by {
      ParseExtends(e, data, b, 0, r.st);
      ParseShifts(e, all, rest, p.stop, 0, p.st);
    }
    assert rest[q.stop..] == all[p.stop + q.stop..];
  }

  /** However the stream is cut into reads, the driver ends in the same state with the same
      leftover bytes, provided it starts between frames (as it does after any earlier read). */
  lemma {:induction false} ChunkingIrrelevant(e: Env, r: Reader, chunks: seq<seq<Byte>>)
    requires r.st.tick.everyN > 0
    requires !Decided(r.buf, 0)
    ensures FeedAll(e, r, chunks) == Feed(e, r, Concat(chunks))
    decreases |chunks|
  {
    if chunks == [] {
      assert r.buf + [] == r.buf;
    } else {
      ChunkingIrrelevant(e, Feed(e, r, chunks[0]), chunks[1..]);
      FeedTwice(e, r, chunks[0], Concat(chunks[1..]));
    }
  }

  /** The residue is at most 22 bytes, so the 4096-byte clear never fires. */
  lemma ResidueBound(e: Env, r: Reader, chunk: seq<Byte>)
    requires r.st.tick.everyN > 0
    ensures |Feed(e, r, chunk).buf| <= 22 < MAX_BUFFER
  {
    assert !Decided(Feed(e, r, chunk).buf, 0);
  }
}
