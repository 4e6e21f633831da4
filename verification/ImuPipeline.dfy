/** From the byte stream to a reader of the seqlock: what getObs returns, said of the frames. */
module ImuPipeline {
  import opened ImuFrames
  import opened ImuTicks
  import opened Common
  import Seqlock

  // How an observation lies in memory; only the place of its number matters here.
  ghost predicate Lays(enc: Observation -> Seqlock.Words) {
    forall o :: enc(o)[Seqlock.SEQ_WORD] == o.seqNo
  }

  // What memory holds at the versions 0, 2, 4 and so on.
  function Published(enc: Observation -> Seqlock.Words, commits: seq<Observation>): (w: seq<Seqlock.Words>)
    ensures |w| == |commits| + 1 && w[0] == enc(NO_OBSERVATION)
    ensures forall n :: 0 < n <= |commits| ==> w[n] == enc(commits[n - 1])
  {
    [enc(NO_OBSERVATION)] + seq(|commits|, n requires 0 <= n < |commits| => enc(commits[n]))
  }

  // The observation of the n-th tick of a frame log.
  function TickOf(e: Env, frames: seq<seq<Byte>>, n: nat): Observation
    requires WellCut(frames) && 0 < n <= |Ticks(Rids(frames), |frames|)|
  {
    TickObservation(e, frames, Ticks(Rids(frames), |frames|)[n - 1], n)
  }

  // The words are the n-th tick's observation, or at 0 the initial one.
  ghost predicate IsTick(e: Env, enc: Observation -> Seqlock.Words, frames: seq<seq<Byte>>, n: nat, out: Seqlock.Words) {
    && WellCut(frames) && n <= |Ticks(Rids(frames), |frames|)|
    && out == enc(if n == 0 then NO_OBSERVATION else TickOf(e, frames, n))
  }

  // The seqlock's n-th observation is the n-th tick, up to number last.
  ghost predicate Ticking(e: Env, enc: Observation -> Seqlock.Words, frames: seq<seq<Byte>>, data: Seqlock.Data, last: nat) {
    forall n: nat :: n <= last ==> IsTick(e, enc, frames, n, data(n))
  }

  lemma PublishedTick(e: Env, enc: Observation -> Seqlock.Words, frames: seq<seq<Byte>>, commits: seq<Observation>, n: nat)
    requires WellCut(frames) && CommitsAgree(e, frames, commits) && n <= |commits|
    ensures IsTick(e, enc, frames, n, Published(enc, commits)[n])
  {
  }

  lemma TickNumber(e: Env, enc: Observation -> Seqlock.Words, frames: seq<seq<Byte>>, n: nat, out: Seqlock.Words)
    requires IsTick(e, enc, frames, n, out) && Lays(enc)
    ensures out[Seqlock.SEQ_WORD] == n
  {
  }

  // A list of data that holds what is published.
  ghost predicate Holds(enc: Observation -> Seqlock.Words, commits: seq<Observation>, data: Seqlock.Data) {
    forall n: nat :: n <= |commits| ==> data(n) == Published(enc, commits)[n]
  }

  lemma PublishedTicks(e: Env, enc: Observation -> Seqlock.Words, frames: seq<seq<Byte>>, commits: seq<Observation>, data: Seqlock.Data)
    requires WellCut(frames) && CommitsAgree(e, frames, commits) && Holds(enc, commits, data) && Lays(enc)
    ensures Ticking(e, enc, frames, data, |commits|) && Seqlock.Numbered(data, |commits|)
  {
    forall n: nat | n <= |commits| ensures IsTick(e, enc, frames, n, data(n)) && data(n)[Seqlock.SEQ_WORD] == n {
      PublishedTick(e, enc, frames, commits, n);
      TickNumber(e, enc, frames, n, data(n));
    }
  }

  /** Whatever bytes came in whatever chunks, what the driver publishes at place n is the n-th tick
      of its accepted frames, and carries the number n. */
  lemma DriverTicks(e: Env, enc: Observation -> Seqlock.Words, start: Reader, chunks: seq<seq<Byte>>, t: Ticker, data: Seqlock.Data)
    requires Consistent(e, start.st.tick) && t == FeedAll(e, start, chunks).st.tick
    requires Holds(enc, t.commits, data) && Lays(enc)
    ensures Ticking(e, enc, t.frames, data, |t.commits|) && Seqlock.Numbered(data, |t.commits|)
  {
    EveryRunConsistent(e, start, chunks);
    PublishedTicks(e, enc, t.frames, t.commits, data);
  }

  /** The writer of the seqlock publishing such ticks: however readers and writer interleave, every word a read returns is that word of the tick recorded as
      its source; and a read that returns under an even version 2n returns the observation of the
      n-th tick of the accepted frames. */
  lemma ReaderSeesTicks(e: Env, enc: Observation -> Seqlock.Words, frames: seq<seq<Byte>>, data: Seqlock.Data, last: nat,
                        v: Seqlock.Variant, readers: nat, schedule: seq<Seqlock.Action>, i: nat, k: nat, ret: Seqlock.Return)
    requires Ticking(e, enc, frames, data, last) && (Seqlock.Run(v, data, readers, schedule).ver + 1) / 2 <= last
    requires Seqlock.Returned(v, data, readers, schedule, i, k) == Some(ret)
    ensures forall j: nat :: j < Seqlock.WORDS ==>
              IsTick(e, enc, frames, ret.src[j], data(ret.src[j])) && ret.out[j] == data(ret.src[j])[j]
    ensures ret.v0 % 2 == 0 ==> IsTick(e, enc, frames, ret.v0 / 2, ret.out)
  {
    Seqlock.ReturnedWordsHaveSources(v, data, readers, schedule, i, k, ret);
    if ret.v0 % 2 == 0 {
      Seqlock.EvenReturnsAreCommitted(v, data, readers, schedule, i, k, ret);
    }
  }

  /** End to end: whatever bytes came in whatever chunks, and however readers and writer interleave,
      an even return is the tick of that number, and the numbers one reader sees never decrease. */
  lemma EndToEnd(e: Env, enc: Observation -> Seqlock.Words, start: Reader, chunks: seq<seq<Byte>>, t: Ticker, data: Seqlock.Data,
                 v: Seqlock.Variant, readers: nat, schedule: seq<Seqlock.Action>, i: nat, k: nat, l: nat,
                 a: Seqlock.Return, b: Seqlock.Return)
    requires Consistent(e, start.st.tick) && t == FeedAll(e, start, chunks).st.tick
    requires Holds(enc, t.commits, data) && Lays(enc)
    requires (Seqlock.Run(v, data, readers, schedule).ver + 1) / 2 <= |t.commits|
    requires k < l && Seqlock.Returned(v, data, readers, schedule, i, k) == Some(a)
    requires Seqlock.Returned(v, data, readers, schedule, i, l) == Some(b)
    ensures a.v0 % 2 == 0 ==> IsTick(e, enc, t.frames, a.v0 / 2, a.out)
    ensures b.v0 % 2 == 0 ==> IsTick(e, enc, t.frames, b.v0 / 2, b.out)
    ensures a.out[Seqlock.SEQ_WORD] <= b.out[Seqlock.SEQ_WORD]
  {
    DriverTicks(e, enc, start, chunks, t, data);
    ReaderSeesTicks(e, enc, t.frames, data, |t.commits|, v, readers, schedule, i, k, a);
    ReaderSeesTicks(e, enc, t.frames, data, |t.commits|, v, readers, schedule, i, l, b);
    Seqlock.SequenceNumbersNeverGoBack(v, data, readers, schedule, i, k, l, a, b);
  }
}
