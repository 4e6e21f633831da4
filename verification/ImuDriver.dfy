/** The IMU driver object, updated in place, proved against the functions of ImuFrames. */
module ImuDriverClass {
  import opened ImuFrames
  import opened ImuTicks

  class ImuDriver {
    const env: Env

    var buf: seq<Byte>
    var pending: Pending
    var obs: Observation
    var obsVer: nat
    var tickCounter: nat
    var seqCounter: nat
    var hasCallback: bool
    var everyN: nat
    var ticksTotal: nat
    var ticksPub: nat
    var crcErr: nat
    var dropped: nat

    ghost var frames: seq<seq<Byte>>
    ghost var commits: seq<Observation>
    ghost var fired: seq<Observation>
    ghost var skips: nat
    ghost var setAt: nat
    ghost var firedAt: nat

    ghost predicate Valid()
      reads this
    {
      Consistent(env, TickView()) && !Decided(buf, 0)
    }

    ghost function View(): State
      reads this
    {
      State(TickView(), crcErr, dropped, skips)
    }

    ghost function TickView(): Ticker
      reads this
    {
      Ticker(pending, obs, obsVer, tickCounter, seqCounter, ticksTotal, ticksPub,
             hasCallback, everyN, frames, commits, fired, setAt, firedAt)
    }

    constructor (env: Env)
      ensures Valid() && this.env == env && View() == State(IDLE, 0, 0, 0) && buf == []
    {
      this.env := env;
      buf := [];
      pending, obs := NO_PENDING, NO_OBSERVATION;
      obsVer, tickCounter, seqCounter := 0, 0, 0;
      hasCallback, everyN := false, 1;
      ticksTotal, ticksPub, crcErr, dropped := 0, 0, 0, 0;
      frames, commits, fired, skips, setAt, firedAt := [], [], [], 0, 0, 0;
      new;
      StartConsistent(env, 1);
    }

    /** A callback may be set at any time; what is counted starts again from there. */
    method SetCallback(n: nat)
      requires Valid()
      modifies `hasCallback, `everyN, `setAt, `firedAt
      ensures TickView() == SetObsCallback(old(TickView()), n)
      ensures Valid()
    {
      SettingKeeps(env, TickView(), n);
      StoreCallback(n);
      assert Consistent(env, TickView());
    }

    method StoreCallback(n: nat)
      modifies `hasCallback, `everyN, `setAt, `firedAt
      ensures TickView() == SetObsCallback(old(TickView()), n)
    {
      hasCallback := true;
      everyN := if n < 1 then 1 else n;
      setAt, firedAt := |commits|, |fired|;
    }

    // The seqlock's odd-even write of the new observation.
    method Publish(next: Observation)
      modifies this`obsVer, this`obs, this`commits
      ensures obsVer == old(obsVer) + 2 && obs == next && commits == old(commits) + [next]
    {
      obsVer := obsVer + 1;
      obs := next;
      obsVer := obsVer + 1;
      commits := commits + [next];
    }

    method Notify()
      requires everyN > 0
      modifies this`fired, this`ticksPub
      ensures var fire := hasCallback && tickCounter % everyN == 0;
              && fired == (if fire then old(fired) + [obs] else old(fired))
              && ticksPub == (if fire then old(ticksPub) + 1 else old(ticksPub))
    {
      if hasCallback && tickCounter % everyN == 0 {
        fired := fired + [obs];
        ticksPub := ticksPub + 1;
      }
    }

    method DoCommitTick()
      requires everyN > 0
      modifies `seqCounter, `obsVer, `obs, `commits, `tickCounter, `ticksTotal, `fired, `ticksPub, `pending
      ensures TickView() == CommitTick(env, old(TickView()))
    {
      ghost var goal := CommitTick(env, TickView());
      seqCounter := seqCounter + 1;
      var next := Observation(pending.quat, pending.gyr, pending.acc, env.clock(seqCounter), seqCounter, true);
      Publish(next);
      tickCounter := tickCounter + 1;
      ticksTotal := ticksTotal + 1;
      Notify();
      pending := pending.(hasAccel := false, hasGyro := false, hasQuat := false);
      assert obs == goal.obs && commits == goal.commits && obsVer == goal.obsVer;
      assert fired == goal.fired && ticksPub == goal.ticksPub;
      assert pending == goal.pending;
    }

    method TryFrame(f: seq<Byte>) returns (ok: bool)
      requires Cut(f) && everyN > 0
      modifies this
      ensures ok == Passes(env, f)
      ensures View() == ParseFrame(env, old(View()), f) && buf == old(buf)
    {
      var flen := |f|;
      if f[flen-1] != FRAME_TAIL {
        return false;
      }
      if env.crc(f[..flen-3]) != f[flen-3] as int + 0x100 * (f[flen-2] as int) {
        crcErr := crcErr + 1;
        return false;
      }
      if !KnownRid(f[3]) {
        return false;
      }
      Take(f);
      return true;
    }

    // The effect of a frame that has passed.
    method Take(f: seq<Byte>)
      requires Cut(f) && KnownRid(f[3]) && everyN > 0
      modifies `frames, `pending, `seqCounter, `obsVer, `obs, `commits, `tickCounter, `ticksTotal, `fired, `ticksPub
      ensures TickView() == Absorb(env, old(TickView()), f)
    {
      frames := frames + [f];
      if f[3] == RID_ACCEL {
        pending := pending.(acc := Payload(env, f), hasAccel := true);
      } else if f[3] == RID_GYRO {
        pending := pending.(gyr := Payload(env, f), hasGyro := true);
      } else if f[3] == RID_QUAT {
        pending := pending.(quat := QuatPayload(env, f), hasQuat := true);
        if pending.hasAccel && pending.hasGyro {
          DoCommitTick();
        }
      }
    }

    // The safety valve at the end of processBuffer.
    method DropOverflow()
      modifies this`buf, this`pending
      ensures |old(buf)| <= 4096 ==> buf == old(buf) && pending == old(pending)
      ensures |old(buf)| > 4096 ==>
                buf == [] && pending == old(pending).(hasAccel := false, hasGyro := false, hasQuat := false)
    {
      if |buf| > MAX_BUFFER {
        buf := [];
        pending := pending.(hasAccel := false, hasGyro := false, hasQuat := false);
      }
    }

    // One turn of the scan at a decided position.
    method Turn(data: seq<Byte>, pos: nat) returns (next: nat)
      requires Decided(data, pos) && everyN > 0
      modifies this
      ensures Parsed(next, View()) == Advance(env, data, pos, old(View())) && buf == old(buf)
    {
      if data[pos] != FRAME_HDR0 || data[pos+1] != FRAME_HDR1 {
        skips := skips + 1;
        return pos + 1;
      }
      var flen := FrameLen(data[pos+3]);
      var ok := TryFrame(data[pos..pos+flen]);
      if ok {
        return pos + flen;
      }
      dropped := dropped + 1;
      skips := skips + 1;
      return pos + 1;
    }

    method ProcessBuffer()
      requires everyN > 0
      modifies this
      ensures var p := Parse(env, old(buf), 0, old(View()));
              buf == old(buf)[p.stop..] && View() == p.st
    {
      var data, pos, size := buf, 0, |buf|;
      ghost var goal := Parse(env, data, 0, View());
      while pos + 4 <= size
        invariant pos <= size && buf == data && everyN > 0
        invariant Parse(env, data, pos, View()) == goal
        decreases size - pos
      {
        if data[pos] == FRAME_HDR0 && data[pos+1] == FRAME_HDR1 && pos + FrameLen(data[pos+3]) > size {
          break;
        }
        assert Decided(data, pos);
        pos := Turn(data, pos);
      }
      assert goal == Parsed(pos, View());
      if pos > 0 {
        buf := buf[pos..];
      }
      DropOverflow();
    }

    // One read of the reader thread.
    method Ingest(chunk: seq<Byte>)
      requires everyN > 0
      modifies this
      ensures Reader(buf, View()) == Feed(env, Reader(old(buf), old(View())), chunk)
    {
      buf := buf + chunk;
      ProcessBuffer();
    }

    // Every read keeps the driver consistent and leaves less than one long frame behind.
    method Receive(chunk: seq<Byte>)
      requires Valid()
      modifies this
      ensures Valid() && |buf| < FRAME_LEN_QUAT
      ensures Reader(buf, View()) == Feed(env, Reader(old(buf), old(View())), chunk)
    {
      FeedKeeps(env, Reader(buf, View()), chunk);
      Ingest(chunk);
    }
  }

  lemma FeedKeeps(e: Env, r: Reader, chunk: seq<Byte>)
    requires Consistent(e, r.st.tick)
    ensures Consistent(e, Feed(e, r, chunk).st.tick) && |Feed(e, r, chunk).buf| < FRAME_LEN_QUAT
  {
    ParseKeeps(e, r.buf + chunk, 0, r.st);
    ResidueBound(e, r, chunk);
  }
}
