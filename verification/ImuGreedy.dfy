/** Which frames the IMU parser accepts, stated without reference to the parser, and where
    every received byte goes. */
module ImuGreedy {
  import opened ImuFrames

  // The bytes start .. end - 1 of the stream.
  datatype Span = Span(start: nat, end: nat)

  function SpanAt(s: seq<Byte>, pos: nat): Span
    requires pos + 4 <= |s|
  {
    Span(pos, pos + FrameLen(s[pos+3]))
  }

  ghost predicate GoodSpan(e: Env, s: seq<Byte>, p: Span) {
    GoodAt(e, s, p.start) && p == SpanAt(s, p.start)
  }

  ghost predicate Covered(ps: seq<Span>, q: nat) {
    exists p :: p in ps && p.start <= q < p.end
  }

  ghost predicate Disjoint(ps: seq<Span>) {
    forall i, j :: 0 <= i < j < |ps| ==> ps[i].end <= ps[j].start
  }

  /** ps are the leftmost non-overlapping good frames of s from lo up to stop: each is good,
      they are ordered and disjoint, an uncovered position before stop holds no good frame,
      and stop is the first uncovered position that cannot be decided yet. */
  ghost predicate Leftmost(e: Env, s: seq<Byte>, lo: nat, ps: seq<Span>, stop: nat) {
    && lo <= stop <= |s| && !Decided(s, stop)
    && Disjoint(ps)
    && (forall p :: p in ps ==> GoodSpan(e, s, p) && lo <= p.start < p.end <= stop)
    && (forall q: nat :: lo <= q < stop && !Covered(ps, q) ==> Decided(s, q) && !GoodAt(e, s, q))
  }

  // ---- what the parser's loop accepts, as a function of the bytes alone ----

  function Accepted(e: Env, s: seq<Byte>, pos: nat): (ps: seq<Span>)
    requires pos <= |s|
    ensures forall p :: p in ps ==> p.start <= p.end <= |s|
    decreases |s| - pos
  {
    if !Decided(s, pos) then []
    else if GoodAt(e, s, pos) then [SpanAt(s, pos)] + Accepted(e, s, SpanAt(s, pos).end)
    else Accepted(e, s, pos + 1)
  }

  function Stop(e: Env, s: seq<Byte>, pos: nat): (stop: nat)
    requires pos <= |s|
    ensures pos <= stop <= |s|
    decreases |s| - pos
  {
    if !Decided(s, pos) then pos
    else if GoodAt(e, s, pos) then Stop(e, s, SpanAt(s, pos).end)
    else Stop(e, s, pos + 1)
  }

  function Contents(s: seq<Byte>, ps: seq<Span>): seq<seq<Byte>>
    requires forall p :: p in ps ==> p.start <= p.end <= |s|
  {
    if ps == [] then [] else [s[ps[0].start..ps[0].end]] + Contents(s, ps[1..])
  }

  function TotalLength(fs: seq<seq<Byte>>): nat {
    if fs == [] then 0 else |fs[0]| + TotalLength(fs[1..])
  }

  lemma {:induction false} TotalLengthAppend(a: seq<seq<Byte>>, b: seq<seq<Byte>>)
    ensures TotalLength(a + b) == TotalLength(a) + TotalLength(b)
  {
    if a == [] {
      assert a + b == b;
    } else {
      TotalLengthAppend(a[1..], b);
      assert (a + b)[1..] == a[1..] + b;
    }
  }

  /** The frames the parser accepts are leftmost in the sense above. */
  lemma {:induction false} AcceptedIsLeftmost(e: Env, s: seq<Byte>, pos: nat)
    requires pos <= |s|
    ensures Leftmost(e, s, pos, Accepted(e, s, pos), Stop(e, s, pos))
    decreases |s| - pos
  {
    if !Decided(s, pos) {
    } else if GoodAt(e, s, pos) {
      var p := SpanAt(s, pos);
      AcceptedIsLeftmost(e, s, p.end);
      LeftmostCons(e, s, p, Accepted(e, s, p.end), Stop(e, s, p.end));
    } else {
      AcceptedIsLeftmost(e, s, pos + 1);
      LeftmostSkip(e, s, pos, Accepted(e, s, pos + 1), Stop(e, s, pos + 1));
    }
  }

  lemma CoveredCons(p: Span, ps: seq<Span>, q: nat)
    ensures Covered([p] + ps, q) <==> p.start <= q < p.end || Covered(ps, q)
  {
    var qs := [p] + ps;
    if p.start <= q < p.end {
      assert p in qs;
    }
    if Covered(ps, q) {
      var r :| r in ps && r.start <= q < r.end;
      assert r in qs;
    }
  }

  lemma DisjointCons(p: Span, ps: seq<Span>)
    requires Disjoint(ps) && forall q :: q in ps ==> p.end <= q.start
    ensures Disjoint([p] + ps)
  {
    var qs := [p] + ps;
    forall i, j | 0 <= i < j < |qs| ensures qs[i].end <= qs[j].start {
      assert qs[j] in ps;
    }
  }

  lemma LeftmostCons(e: Env, s: seq<Byte>, p: Span, ps: seq<Span>, stop: nat)
    requires GoodSpan(e, s, p) && Leftmost(e, s, p.end, ps, stop)
    ensures Leftmost(e, s, p.start, [p] + ps, stop)
  {
    DisjointCons(p, ps);
    forall q: nat | p.start <= q < stop && !Covered([p] + ps, q) ensures Decided(s, q) && !GoodAt(e, s, q) {
      CoveredCons(p, ps, q);
    }
  }

  lemma LeftmostSkip(e: Env, s: seq<Byte>, pos: nat, ps: seq<Span>, stop: nat)
    requires Decided(s, pos) && !GoodAt(e, s, pos) && Leftmost(e, s, pos + 1, ps, stop)
    ensures Leftmost(e, s, pos, ps, stop)
  {
  }

  /** Leftmost determines the frames and the stop, so the parser's answer is the only one. */
  lemma {:induction false} LeftmostUnique(e: Env, s: seq<Byte>, lo: nat, ps: seq<Span>, stop: nat)
    requires Leftmost(e, s, lo, ps, stop)
    ensures ps == Accepted(e, s, lo) && stop == Stop(e, s, lo)
    decreases |s| - lo
  {
    if !Decided(s, lo) {
      LeftmostStopped(e, s, lo, ps, stop);
    } else if GoodAt(e, s, lo) {
      LeftmostHead(e, s, lo, ps, stop);
      LeftmostTail(e, s, lo, ps, stop);
      LeftmostUnique(e, s, ps[0].end, ps[1..], stop);
    } else {
      LeftmostUnskip(e, s, lo, ps, stop);
      LeftmostUnique(e, s, lo + 1, ps, stop);
    }
  }

  lemma LeftmostHead(e: Env, s: seq<Byte>, lo: nat, ps: seq<Span>, stop: nat)
    requires Leftmost(e, s, lo, ps, stop) && (Covered(ps, lo) || GoodAt(e, s, lo))
    ensures |ps| > 0 && ps[0].start == lo && GoodSpan(e, s, ps[0])
  {
    assert lo < stop;
    assert Covered(ps, lo);
    var p :| p in ps && p.start <= lo < p.end;
    assert ps[0] in ps;
    var i :| 0 <= i < |ps| && ps[i] == p;
    NotBehind(ps, i);
  }

  lemma NotBehind(ps: seq<Span>, i: nat)
    requires Disjoint(ps) && i < |ps|
    ensures i == 0 || ps[0].end <= ps[i].start
  {
  }

  lemma LeftmostStopped(e: Env, s: seq<Byte>, lo: nat, ps: seq<Span>, stop: nat)
    requires Leftmost(e, s, lo, ps, stop) && !Decided(s, lo)
    ensures ps == [] && stop == lo
  {
    assert ps == [] || ps[0] in ps;
    if Covered(ps, lo) {
      LeftmostHead(e, s, lo, ps, stop);
    }
  }

  lemma LeftmostUnskip(e: Env, s: seq<Byte>, lo: nat, ps: seq<Span>, stop: nat)
    requires Leftmost(e, s, lo, ps, stop) && Decided(s, lo) && !GoodAt(e, s, lo)
    ensures Leftmost(e, s, lo + 1, ps, stop)
  {
    assert forall p :: p in ps ==> GoodAt(e, s, p.start);
  }

  lemma DisjointTail(ps: seq<Span>)
    requires Disjoint(ps) && |ps| > 0
    ensures Disjoint(ps[1..])
    ensures forall p :: p in ps[1..] ==> p in ps && ps[0].end <= p.start
  {
    var t := ps[1..];
    forall p | p in t ensures ps[0].end <= p.start {
      var i :| 0 <= i < |t| && t[i] == p;
      assert ps[i+1] == p;
    }
    forall i, j | 0 <= i < j < |t| ensures t[i].end <= t[j].start {
      assert ps[i+1].end <= ps[j+1].start;
    }
  }

  lemma LeftmostTail(e: Env, s: seq<Byte>, lo: nat, ps: seq<Span>, stop: nat)
    requires Leftmost(e, s, lo, ps, stop) && |ps| > 0 && ps[0].start == lo
    ensures Leftmost(e, s, ps[0].end, ps[1..], stop)
  {
    var head, t := ps[0], ps[1..];
    DisjointTail(ps);
    assert head in ps;
    forall q: nat | head.end <= q < stop && !Covered(t, q) ensures Decided(s, q) && !GoodAt(e, s, q) {
      CoveredCons(head, t, q);
      assert ps == [head] + t;
    }
  }

  /** The parser accepts exactly those frames, in order, and stops there. */
  lemma {:induction false} ParseAccepts(e: Env, s: seq<Byte>, pos: nat, st: State)
    requires pos <= |s| && st.tick.everyN > 0
    ensures Parse(e, s, pos, st).stop == Stop(e, s, pos)
    ensures Parse(e, s, pos, st).st.tick.frames == st.tick.frames + Contents(s, Accepted(e, s, pos))
    decreases |s| - pos
  {
    if Decided(s, pos) {
      var p := Advance(e, s, pos, st);
      AdvanceAccepts(e, s, pos, st);
      ParseAccepts(e, s, p.stop, p.st);
      if GoodAt(e, s, pos) {
        assert Accepted(e, s, pos)[1..] == Accepted(e, s, p.stop);
      }
    }
  }

  lemma AdvanceAccepts(e: Env, s: seq<Byte>, pos: nat, st: State)
    requires Decided(s, pos) && st.tick.everyN > 0
    ensures var p := Advance(e, s, pos, st);
            && p.stop == (if GoodAt(e, s, pos) then SpanAt(s, pos).end else pos + 1)
            && p.st.tick.frames == st.tick.frames + (if GoodAt(e, s, pos) then [s[pos..SpanAt(s, pos).end]] else [])
  {
  }

  /** Every received byte belongs to an accepted frame, is skipped on its own, or is residue;
      every checksum error is also a drop, and every drop is a skip. */
  lemma {:induction false} BytesConserved(e: Env, s: seq<Byte>, pos: nat, st: State)
    requires pos <= |s| && st.tick.everyN > 0
    ensures var p := Parse(e, s, pos, st);
            && TotalLength(p.st.tick.frames) + p.st.skips + (|s| - p.stop)
               == TotalLength(st.tick.frames) + st.skips + (|s| - pos)
            && 0 <= p.st.crcErr - st.crcErr <= p.st.dropped - st.dropped <= p.st.skips - st.skips
    decreases |s| - pos
  {
    if Decided(s, pos) {
      var p := Advance(e, s, pos, st);
      AdvanceConserves(e, s, pos, st);
      BytesConserved(e, s, p.stop, p.st);
    }
  }

  lemma AdvanceConserves(e: Env, s: seq<Byte>, pos: nat, st: State)
    requires Decided(s, pos) && st.tick.everyN > 0
    ensures var p := Advance(e, s, pos, st);
            && TotalLength(p.st.tick.frames) + p.st.skips - p.stop == TotalLength(st.tick.frames) + st.skips - pos
            && 0 <= p.st.crcErr - st.crcErr <= p.st.dropped - st.dropped <= p.st.skips - st.skips
  {
    if GoodAt(e, s, pos) {
      TotalLengthAppend(st.tick.frames, [FrameAt(s, pos)]);
    }
  }
}
