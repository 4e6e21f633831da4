/** The other end of the IMU's serial line: frames as the device builds them, and what the driver
    makes of them. The numbers here are those of the wire format, written out. */
module ImuDevice {
  import opened QuaternionAlgebra
  import opened ImuFrames

  // The bit pattern of a float.
  type Word = w: int | 0 <= w < 0x1_0000_0000

  datatype Report =
    | Accel(x: Word, y: Word, z: Word)
    | Gyro(x: Word, y: Word, z: Word)
    | Euler(roll: Word, pitch: Word, yaw: Word)
    | Attitude(w: Word, x: Word, y: Word, z: Word)

  // The checksum fits in two bytes.
  ghost predicate Crc16(e: Env) {
    forall s: seq<Byte> :: 0 <= e.crc(s) < 0x10000
  }

  function LowByte(n: nat): Byte {
    n % 0x100
  }

  // The bytes of a word, lowest first.
  function WordBytes(w: Word): (b: seq<Byte>)
    ensures |b| == 4
  {
    var a: nat := w / 0x100;
    var b: nat := a / 0x100;
    var c: nat := b / 0x100;
    [LowByte(w), LowByte(a), LowByte(b), LowByte(c)]
  }

  function ReportId(r: Report): Byte {
    match r
    case Accel(_, _, _) => 0x01
    case Gyro(_, _, _) => 0x02
    case Euler(_, _, _) => 0x03
    case Attitude(_, _, _, _) => 0x04
  }

  function ReportBytes(r: Report): (b: seq<Byte>)
    ensures |b| == if r.Attitude? then 16 else 12
  {
    match r
    case Accel(x, y, z) => WordBytes(x) + WordBytes(y) + WordBytes(z)
    case Gyro(x, y, z) => WordBytes(x) + WordBytes(y) + WordBytes(z)
    case Euler(x, y, z) => WordBytes(x) + WordBytes(y) + WordBytes(z)
    case Attitude(w, x, y, z) => WordBytes(w) + WordBytes(x) + WordBytes(y) + WordBytes(z)
  }

  // Everything the checksum is taken over.
  function Checked(id: Byte, r: Report): (b: seq<Byte>)
    ensures |b| == if r.Attitude? then 20 else 16
  {
    [0x55, 0xAA, id, ReportId(r)] + ReportBytes(r)
  }

  /** A frame as the device sends it: the checksum low byte first, then the tail. */
  function Built(e: Env, id: Byte, r: Report): (f: seq<Byte>)
    requires Crc16(e)
    ensures |f| == if r.Attitude? then 23 else 19
  {
    var crc: nat := e.crc(Checked(id, r));
    Checked(id, r) + [LowByte(crc), LowByte(crc / 0x100), 0x0A]
  }

  lemma {:induction false} WordOfBytes(w: Word, s: seq<Byte>, i: nat)
    requires i + 4 <= |s| && s[i..i + 4] == WordBytes(w)
    ensures LeWord(s, i) == w
  {
    var b := s[i..i + 4];
    assert s[i] == b[0] && s[i + 1] == b[1] && s[i + 2] == b[2] && s[i + 3] == b[3];
    BytesAddUp(w);
  }

  lemma BytesAddUp(w: Word)
    ensures var b := WordBytes(w);
            b[0] as int + 0x100 * (b[1] as int) + 0x1_0000 * (b[2] as int) + 0x100_0000 * (b[3] as int) == w
  {
  }

  lemma BuiltParts(e: Env, id: Byte, r: Report)
    requires Crc16(e)
    ensures var f := Built(e, id, r);
            f[..4] == [0x55, 0xAA, id, ReportId(r)] && f[4..|f| - 3] == ReportBytes(r) && f[..|f| - 3] == Checked(id, r)
  {
  }

  /** The driver accepts every frame the device builds. */
  lemma BuiltPasses(e: Env, id: Byte, r: Report)
    requires Crc16(e)
    ensures Cut(Built(e, id, r)) && Passes(e, Built(e, id, r)) && Built(e, id, r)[3] == ReportId(r)
    ensures Built(e, id, r)[0] == 0x55 && Built(e, id, r)[1] == 0xAA
  {
    var f := Built(e, id, r);
    BuiltParts(e, id, r);
    assert f[0] == f[..4][0] && f[1] == f[..4][1] && f[3] == f[..4][3];
    assert f[..|f| - 3] == Checked(id, r);
  }

  /** And reads the words out of it in order. */
  lemma BuiltWords(e: Env, id: Byte, r: Report)
    requires Crc16(e)
    ensures var f := Built(e, id, r);
            match r
            case Accel(x, y, z) => LeWord(f, 4) == x && LeWord(f, 8) == y && LeWord(f, 12) == z
            case Gyro(x, y, z) => LeWord(f, 4) == x && LeWord(f, 8) == y && LeWord(f, 12) == z
            case Euler(x, y, z) => LeWord(f, 4) == x && LeWord(f, 8) == y && LeWord(f, 12) == z
            case Attitude(w, x, y, z) => LeWord(f, 4) == w && LeWord(f, 8) == x && LeWord(f, 12) == y && LeWord(f, 16) == z
  {
    var f := Built(e, id, r);
    BuiltParts(e, id, r);
    match r {
      case Accel(x, y, z) => ThreeWords(f, x, y, z);
      case Gyro(x, y, z) => ThreeWords(f, x, y, z);
      case Euler(x, y, z) => ThreeWords(f, x, y, z);
      case Attitude(w, x, y, z) => FourWords(f, w, x, y, z);
    }
  }

  // The word at an offset is the word there of the part that begins at 4.
  lemma WordInside(f: seq<Byte>, b: seq<Byte>, i: nat)
    requires |f| >= 4 + |b| && f[4..4 + |b|] == b && i + 4 <= |b|
    ensures LeWord(f, 4 + i) == LeWord(b, i)
  {
    assert f[4 + i] == f[4..4 + |b|][i] && f[4 + i + 1] == f[4..4 + |b|][i + 1];
    assert f[4 + i + 2] == f[4..4 + |b|][i + 2] && f[4 + i + 3] == f[4..4 + |b|][i + 3];
  }

  lemma FourWords(f: seq<Byte>, w: Word, x: Word, y: Word, z: Word)
    requires |f| >= 20 && f[4..20] == WordBytes(w) + WordBytes(x) + WordBytes(y) + WordBytes(z)
    ensures LeWord(f, 4) == w && LeWord(f, 8) == x && LeWord(f, 12) == y && LeWord(f, 16) == z
  {
    var three := WordBytes(w) + WordBytes(x) + WordBytes(y);
    var b := three + WordBytes(z);
    assert f[4..16] == b[..12] == three;
    ThreeWords(f, w, x, y);
    WordInside(f, b, 12);
    assert b[12..16] == WordBytes(z);
    WordOfBytes(z, b, 12);
  }

  lemma ThreeWords(f: seq<Byte>, x: Word, y: Word, z: Word)
    requires |f| >= 16 && f[4..16] == WordBytes(x) + WordBytes(y) + WordBytes(z)
    ensures LeWord(f, 4) == x && LeWord(f, 8) == y && LeWord(f, 12) == z
  {
    var b := WordBytes(x) + WordBytes(y) + WordBytes(z);
    assert b[0..4] == WordBytes(x);
    assert b[4..8] == WordBytes(y);
    assert b[8..12] == WordBytes(z);
    WordOfBytes(x, b, 0);
    WordOfBytes(y, b, 4);
    WordOfBytes(z, b, 8);
    WordInside(f, b, 0);
    WordInside(f, b, 4);
    WordInside(f, b, 8);
  }

  function WordAt(s: seq<Byte>, i: nat): Word
    requires i + 4 <= |s|
  {
    LeWord(s, i)
  }

  lemma BytesOfWord(s: seq<Byte>, i: nat)
    requires i + 4 <= |s|
    ensures WordBytes(WordAt(s, i)) == s[i..i + 4]
  {
    DigitsAre(s[i], s[i + 1], s[i + 2], s[i + 3], WordAt(s, i));
  }

  lemma DigitsAre(a: Byte, b: Byte, c: Byte, d: Byte, w: Word)
    requires w == a as int + 0x100 * (b as int) + 0x1_0000 * (c as int) + 0x100_0000 * (d as int)
    ensures WordBytes(w) == [a, b, c, d]
  {
    assert w / 0x100 == b as int + 0x100 * (c as int) + 0x1_0000 * (d as int);
    assert w / 0x100 / 0x100 == c as int + 0x100 * (d as int);
  }

  // The report a frame holds.
  function ReportIn(f: seq<Byte>): Report
    requires Cut(f) && KnownRid(f[3])
  {
    var x, y, z := WordAt(f, 4), WordAt(f, 8), WordAt(f, 12);
    if f[3] == RID_ACCEL then Accel(x, y, z)
    else if f[3] == RID_GYRO then Gyro(x, y, z)
    else if f[3] == RID_EULER then Euler(x, y, z)
    else Attitude(x, y, z, WordAt(f, 16))
  }

  lemma PassedIsBuilt(e: Env, f: seq<Byte>)
    requires Crc16(e) && Cut(f) && f[0] == 0x55 && f[1] == 0xAA && Passes(e, f)
    ensures f == Built(e, f[2], ReportIn(f))
  {
    var r, n := ReportIn(f), |f| - 3;
    BytesOfWord(f, 4);
    BytesOfWord(f, 8);
    BytesOfWord(f, 12);
    assert f[4..16] == f[4..8] + f[8..12] + f[12..16];
    if r.Attitude? {
      BytesOfWord(f, 16);
      assert f[4..20] == f[4..16] + f[16..20];
    }
    assert f[4..n] == ReportBytes(r);
    assert f[..n] == [f[0], f[1], f[2], f[3]] + f[4..n] == Checked(f[2], r);
    assert f == f[..n] + [f[n], f[n + 1], f[n + 2]];
    var crc: nat := e.crc(f[..n]);
    assert crc == f[n] as int + 0x100 * (f[n + 1] as int);
    assert LowByte(crc) == f[n] && LowByte(crc / 0x100) == f[n + 1];
  }

  /** The driver accepts exactly the frames the device can build. */
  lemma PassesIff(e: Env, f: seq<Byte>)
    requires Crc16(e) && Cut(f) && f[0] == 0x55 && f[1] == 0xAA
    ensures Passes(e, f) <==> exists id, r :: f == Built(e, id, r)
  {
    if Passes(e, f) {
      PassedIsBuilt(e, f);
    }
    if id, r :| f == Built(e, id, r) {
      BuiltPasses(e, id, r);
    }
  }

  /** A frame with any other checksum is refused, and counted once as a checksum error. */
  lemma DamagedCounted(e: Env, st: State, id: Byte, r: Report, lo: Byte, hi: Byte)
    requires Crc16(e) && st.tick.everyN > 0
    ensures var f := Checked(id, r) + [lo, hi, 0x0A];
            Cut(f) && (f != Built(e, id, r) ==> ParseFrame(e, st, f) == st.(crcErr := st.crcErr + 1))
  {
    var c := Checked(id, r);
    var f, n := c + [lo, hi, 0x0A], |c|;
    assert f[3] == c[3] == ReportId(r);
    assert f[..n] == c && f[n] == lo && f[n + 1] == hi && f[n + 2] == 0x0A;
    var crc: nat := e.crc(c);
    if crc == lo as int + 0x100 * (hi as int) {
      assert LowByte(crc) == lo && LowByte(crc / 0x100) == hi;
    }
  }

  // ---- what the driver makes of a report ----

  function Floats(e: Env, x: Word, y: Word, z: Word): Vec {
    Vec(e.f32(x), e.f32(y), e.f32(z))
  }

  // The attitude sent, scaled to norm 1, or the identity when it is almost zero.
  function UnitAttitude(e: Env, w: Word, x: Word, y: Word, z: Word): Quat {
    var q := Quat(e.f32(w), e.f32(x), e.f32(y), e.f32(z));
    if NormSq(q) > 0.000001 then Scale(e.invSqrt(NormSq(q)), q) else Quat(1.0, 0.0, 0.0, 0.0)
  }

  predicate Unpublished(t: Ticker, t': Ticker) {
    t'.commits == t.commits && t'.obs == t.obs && t'.seqCounter == t.seqCounter
  }

  // What a report must change: the value it carries, or with the last of the three a new tick.
  predicate Understood(e: Env, t: Ticker, r: Report, t': Ticker) {
    match r
    case Accel(x, y, z) =>
      t'.pending == t.pending.(acc := Floats(e, x, y, z), hasAccel := true) && Unpublished(t, t')
    case Gyro(x, y, z) =>
      t'.pending == t.pending.(gyr := Floats(e, x, y, z), hasGyro := true) && Unpublished(t, t')
    case Euler(_, _, _) => t'.pending == t.pending && Unpublished(t, t')
    case Attitude(w, x, y, z) =>
      if t.pending.hasAccel && t.pending.hasGyro then
        && t'.commits == t.commits + [t'.obs]
        && t'.obs.quat == UnitAttitude(e, w, x, y, z) && t'.obs.acc == t.pending.acc && t'.obs.gyr == t.pending.gyr
        && t'.obs.seqNo == t.seqCounter + 1 && t'.obs.valid && t'.obs.timestamp == e.clock(t.seqCounter + 1)
        && !t'.pending.hasAccel && !t'.pending.hasGyro
      else
        t'.pending == t.pending.(quat := UnitAttitude(e, w, x, y, z), hasQuat := true) && Unpublished(t, t')
  }

  /** Absorbing a frame of the device changes exactly what its report says. */
  lemma AbsorbUnderstands(e: Env, t: Ticker, id: Byte, r: Report)
    requires Crc16(e) && t.everyN > 0
    ensures var f := Built(e, id, r); Cut(f) && KnownRid(f[3]) && Understood(e, t, r, Absorb(e, t, f))
  {
    BuiltPasses(e, id, r);
    BuiltWords(e, id, r);
  }

  // ---- streams of frames ----

  datatype Sent = Sent(id: Byte, report: Report)

  function Frames(e: Env, items: seq<Sent>): (fs: seq<seq<Byte>>)
    requires Crc16(e)
    ensures |fs| == |items|
  {
    if items == [] then [] else [Built(e, items[0].id, items[0].report)] + Frames(e, items[1..])
  }

  // The driver after these reports, one after another.
  function AbsorbAll(e: Env, t: Ticker, items: seq<Sent>): Ticker
    requires Crc16(e) && t.everyN > 0
    decreases |items|
  {
    if items == [] then t
    else
      BuiltPasses(e, items[0].id, items[0].report);
      AbsorbAll(e, Absorb(e, t, Built(e, items[0].id, items[0].report)), items[1..])
  }

  lemma FirstFrameAccepted(e: Env, s: seq<Byte>, f: seq<Byte>, rest: seq<Byte>, st: State)
    requires s == f + rest && Cut(f) && Passes(e, f) && f[0] == FRAME_HDR0 && f[1] == FRAME_HDR1 && st.tick.everyN > 0
    ensures Decided(s, 0) && Advance(e, s, 0, st) == Parsed(|f|, st.(tick := Absorb(e, st.tick, f)))
  {
    assert s[3] == f[3] && s[0] == f[0] && s[1] == f[1];
    assert s[..|f|] == f;
    assert FrameAt(s, 0) == f;
  }

  /** A stream of frames from the device is absorbed frame by frame: none is dropped, no byte is
      skipped and none is left. */
  lemma {:induction false} StreamAbsorbed(e: Env, items: seq<Sent>, st: State)
    requires Crc16(e) && st.tick.everyN > 0
    ensures var s := Concat(Frames(e, items));
            Parse(e, s, 0, st) == Parsed(|s|, st.(tick := AbsorbAll(e, st.tick, items)))
    decreases |items|
  {
    if items != [] {
      var f, rest := Built(e, items[0].id, items[0].report), Concat(Frames(e, items[1..]));
      var s := Concat(Frames(e, items));
      assert Frames(e, items)[1..] == Frames(e, items[1..]);
      BuiltPasses(e, items[0].id, items[0].report);
      FirstFrameAccepted(e, s, f, rest, st);
      var st1 := st.(tick := Absorb(e, st.tick, f));
      StreamAbsorbed(e, items[1..], st1);
      assert rest == s[|f|..];
      ParseShifts(e, s, rest, |f|, 0, st1);
    }
  }

  /** However it is cut into reads, an acceleration, a rate and an attitude sent by the device are
      published as one observation with exactly those values, and nothing is dropped or left. */
  lemma TickPublished(e: Env, st: State, chunks: seq<seq<Byte>>, ids: (Byte, Byte, Byte), a: Report, g: Report, q: Report)
    requires Crc16(e) && st.tick.everyN > 0 && a.Accel? && g.Gyro? && q.Attitude?
    requires Concat(chunks) == Concat(Frames(e, [Sent(ids.0, a), Sent(ids.1, g), Sent(ids.2, q)]))
    ensures var r := FeedAll(e, Reader([], st), chunks);
            && r.buf == [] && r.st.dropped == st.dropped && r.st.crcErr == st.crcErr && r.st.skips == st.skips
            && r.st.tick.commits == st.tick.commits + [r.st.tick.obs]
            && r.st.tick.obs.acc == Floats(e, a.x, a.y, a.z) && r.st.tick.obs.gyr == Floats(e, g.x, g.y, g.z)
            && r.st.tick.obs.quat == UnitAttitude(e, q.w, q.x, q.y, q.z)
            && r.st.tick.obs.seqNo == st.tick.seqCounter + 1 && r.st.tick.obs.valid
  {
    var items := [Sent(ids.0, a), Sent(ids.1, g), Sent(ids.2, q)];
    ChunkingIrrelevant(e, Reader([], st), chunks);
    var s := Concat(Frames(e, items));
    assert [] + s == s && s[|s|..] == [];
    StreamAbsorbed(e, items, st);
    ThreeAbsorbed(e, st.tick, items, ids, a, g, q);
  }

  lemma ThreeAbsorbed(e: Env, t: Ticker, items: seq<Sent>, ids: (Byte, Byte, Byte), a: Report, g: Report, q: Report)
    requires Crc16(e) && t.everyN > 0 && a.Accel? && g.Gyro? && q.Attitude?
    requires items == [Sent(ids.0, a), Sent(ids.1, g), Sent(ids.2, q)]
    ensures var t' := AbsorbAll(e, t, items);
            && t'.commits == t.commits + [t'.obs]
            && t'.obs.acc == Floats(e, a.x, a.y, a.z) && t'.obs.gyr == Floats(e, g.x, g.y, g.z)
            && t'.obs.quat == UnitAttitude(e, q.w, q.x, q.y, q.z)
            && t'.obs.seqNo == t.seqCounter + 1 && t'.obs.valid
  {
    hide Absorb, Built, Passes;
    BuiltPasses(e, ids.0, a);
    BuiltPasses(e, ids.1, g);
    BuiltPasses(e, ids.2, q);
    var t1 := Absorb(e, t, Built(e, ids.0, a));
    var t2 := Absorb(e, t1, Built(e, ids.1, g));
    AbsorbUnderstands(e, t, ids.0, a);
    AbsorbUnderstands(e, t1, ids.1, g);
    AbsorbUnderstands(e, t2, ids.2, q);
    AbsorbFirst(e, t, items, [Sent(ids.1, g), Sent(ids.2, q)], Sent(ids.0, a));
    AbsorbFirst(e, t1, [Sent(ids.1, g), Sent(ids.2, q)], [Sent(ids.2, q)], Sent(ids.1, g));
    AbsorbFirst(e, t2, [Sent(ids.2, q)], [], Sent(ids.2, q));
    ThreeUnderstood(e, t, t1, t2, AbsorbAll(e, t, items), a, g, q);
  }

  lemma AbsorbFirst(e: Env, t: Ticker, items: seq<Sent>, rest: seq<Sent>, i: Sent)
    requires Crc16(e) && t.everyN > 0 && items == [i] + rest
    ensures Cut(Built(e, i.id, i.report)) && KnownRid(Built(e, i.id, i.report)[3])
    ensures AbsorbAll(e, t, items) == AbsorbAll(e, Absorb(e, t, Built(e, i.id, i.report)), rest)
  {
    hide Absorb, Built;
    BuiltPasses(e, i.id, i.report);
    assert items[1..] == rest;
  }

  lemma ThreeUnderstood(e: Env, t: Ticker, t1: Ticker, t2: Ticker, t3: Ticker, a: Report, g: Report, q: Report)
    requires a.Accel? && g.Gyro? && q.Attitude?
    requires Understood(e, t, a, t1) && Understood(e, t1, g, t2) && Understood(e, t2, q, t3)
    ensures t3.commits == t.commits + [t3.obs]
    ensures t3.obs.acc == Floats(e, a.x, a.y, a.z) && t3.obs.gyr == Floats(e, g.x, g.y, g.z)
    ensures t3.obs.quat == UnitAttitude(e, q.w, q.x, q.y, q.z) && t3.obs.seqNo == t.seqCounter + 1 && t3.obs.valid
  {
  }
}
