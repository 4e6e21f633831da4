/** The observation history the policy controller feeds to its encoder. */
module PolicyHistory {
  import opened Arith
  import opened Common

  type Frame = seq<real>

  // Position in the record of frames that the j-th place of a window of h frames shows: the last
  // h frames, the first of them repeated while there are fewer.
  function Shown(n: nat, h: nat, j: nat): nat {
    if n + j < h then 0 else n + j - h
  }

  function Window(frames: seq<Frame>, h: nat): (w: seq<Frame>)
    requires frames != []
    ensures |w| == h
    ensures forall j :: 0 <= j < h ==> w[j] == frames[Shown(|frames|, h, j)]
  {
    seq(h, j requires 0 <= j < h => frames[Shown(|frames|, h, j)])
  }

  // The frames one after another.
  function Flatten(w: seq<Frame>): seq<real> {
    if w == [] then [] else Flatten(w[..|w| - 1]) + w[|w| - 1]
  }

  predicate AllOfSize(w: seq<Frame>, size: nat) {
    forall j :: 0 <= j < |w| ==> |w[j]| == size
  }

  lemma {:induction false} FlattenLength(w: seq<Frame>, size: nat)
    requires AllOfSize(w, size)
    ensures |Flatten(w)| == |w| * size
  {
    if w != [] {
      FlattenLength(w[..|w| - 1], size);
      assert |w| * size == (|w| - 1) * size + size;
    }
  }

  /** Component c of the j-th frame stands at j * size + c. */
  lemma {:induction false} FlattenAt(w: seq<Frame>, size: nat, j: nat, c: nat)
    requires AllOfSize(w, size) && j < |w| && c < size
    ensures j * size + c < |Flatten(w)| && Flatten(w)[j * size + c] == w[j][c]
  {
    var u := w[..|w| - 1];
    FlattenLength(u, size);
    if j == |w| - 1 {
      assert |Flatten(u)| == j * size;
    } else {
      FlattenAt(u, size, j, c);
    }
  }

  lemma {:induction false} FlattenTail(w: seq<Frame>)
    requires w != []
    ensures Flatten(w) == w[0] + Flatten(w[1..])
  {
    if |w| == 1 {
      assert w[..0] == [] && w[1..] == [];
    } else {
      FlattenTail(w[..|w| - 1]);
      assert w[..|w| - 1][1..] == w[1..][..|w| - 2];
    }
  }

  lemma FlattenSnoc(w: seq<Frame>, f: Frame)
    ensures Flatten(w + [f]) == Flatten(w) + f
  {
    assert (w + [f])[..|w|] == w;
  }

  // A new frame pushes the window on by one.
  lemma WindowNext(frames: seq<Frame>, f: Frame, h: nat)
    requires frames != [] && h > 0
    ensures Window(frames + [f], h) == Window(frames, h)[1..] + [f]
  {
  }

  lemma WindowFirst(f: Frame, h: nat)
    requires h > 0
    ensures Window([f], h) == Copies(f, h) && Copies(f, h)[1..] + [f] == Copies(f, h)
  {
  }

  function Copies(f: Frame, n: nat): (w: seq<Frame>)
    ensures |w| == n && forall j :: 0 <= j < n ==> w[j] == f
  {
    seq(n, j => f)
  }

  // What the shift and the new frame make of the buffer.
  function Shifted(b: seq<real>, f: Frame): seq<real>
    requires |f| <= |b|
  {
    b[|f|..] + f
  }

  /** Shifting the flat window by one frame and writing the new frame at its end gives the window
      after that frame. */
  lemma ShiftedWindow(frames: seq<Frame>, f: Frame, h: nat)
    requires frames != [] && h > 0 && AllOfSize(frames, |f|)
    ensures |f| <= |Flatten(Window(frames, h))|
    ensures Shifted(Flatten(Window(frames, h)), f) == Flatten(Window(frames + [f], h))
  {
    ShiftedFlat(Window(frames, h), f);
    WindowNext(frames, f, h);
  }

  lemma ShiftedFlat(w: seq<Frame>, f: Frame)
    requires w != [] && |w[0]| == |f|
    ensures |f| <= |Flatten(w)|
    ensures Shifted(Flatten(w), f) == Flatten(w[1..] + [f])
  {
    FlattenTail(w);
    FlattenSnoc(w[1..], f);
  }

  lemma ShiftedFirst(f: Frame, h: nat)
    requires h > 0
    ensures |f| <= |Flatten(Copies(f, h))|
    ensures Shifted(Flatten(Copies(f, h)), f) == Flatten(Window([f], h))
  {
    ShiftedFlat(Copies(f, h), f);
    WindowFirst(f, h);
  }

  // The runs of the policy in the first n control cycles after a restart.
  function PolicyRuns(n: nat, decimation: nat): nat
    requires decimation > 0
  {
    if n == 0 then 0 else (n - 1) / decimation + 1
  }

  lemma PolicyRunsNext(n: nat, decimation: nat)
    requires decimation > 0
    ensures PolicyRuns(n + 1, decimation) == PolicyRuns(n, decimation) + (if n % decimation == 0 then 1 else 0)
  {
    if n > 0 {
      DivNext(n - 1, decimation);
    } else {
      DivUnique(0, decimation, 0, 0);
    }
  }

  // The controller cuts observations and actions with the bounds taken in opposite orders.
  function CutObs(x: real, c: real): real {
    Clamp(x, -c, c)
  }

  function CutAct(x: real, c: real): real {
    Max(-c, Min(c, x))
  }

  function CutActs(xs: seq<real>, c: real): (r: seq<real>)
    ensures |r| == |xs| && forall i :: 0 <= i < |xs| ==> r[i] == CutAct(xs[i], c)
  {
    seq(|xs|, i requires 0 <= i < |xs| => CutAct(xs[i], c))
  }

  // An observation frame: sensed values, last actions, gait values and whatever the vector held
  // beyond them.
  function FrameOf(was: seq<real>, sensed: seq<real>, last: seq<real>, gait: seq<real>): Frame
    requires |sensed| + |last| + |gait| <= |was|
  {
    sensed + last + gait + was[|sensed| + |last| + |gait|..]
  }

  function LastActionsIn(f: Frame, n: nat): seq<real>
    requires 6 + 3 * n <= |f|
  {
    f[6 + 2 * n..6 + 3 * n]
  }

  function Zeros(n: nat): (z: seq<real>)
    ensures |z| == n
  {
    seq(n, i => 0.0)
  }

  // Each frame shows the actions of the policy run before it, the first one zeros.
  predicate ShowsPrevious(frames: seq<Frame>, outputs: seq<seq<real>>, n: nat) {
    && |outputs| == |frames|
    && forall k :: 0 <= k < |frames| ==>
         && 6 + 3 * n <= |frames[k]|
         && LastActionsIn(frames[k], n) == if k == 0 then Zeros(n) else outputs[k - 1]
  }

  // The overlapping copy of the buffer onto itself, one element at a time from the front.
  method ShiftInPlace(b: array<real>, f: Frame)
    requires |f| <= b.Length
    modifies b
    ensures b[..] == Shifted(old(b[..]), f)
  {
    var n := b.Length - |f|;
    for i := 0 to n
      invariant forall k :: 0 <= k < i ==> b[k] == old(b[k + |f|])
      invariant forall k :: i <= k < b.Length ==> b[k] == old(b[k])
    {
      b[i] := b[i + |f|];
    }
    WriteAt(b, n, f);
  }

  function Overwrite(b: seq<real>, at: nat, f: seq<real>): (r: seq<real>)
    requires at + |f| <= |b|
    ensures |r| == |b|
  {
    b[..at] + f + b[at + |f|..]
  }

  // A frame put together by three overwrites; then its last actions replaced.
  lemma FrameByParts(was: seq<real>, sensed: seq<real>, last: seq<real>, gait: seq<real>)
    requires |sensed| + |last| + |gait| <= |was|
    ensures Overwrite(Overwrite(Overwrite(was, 0, sensed), |sensed|, last), |sensed| + |last|, gait) == FrameOf(was, sensed, last, gait)
  {
    var one := sensed + was[|sensed|..];
    var two := sensed + last + was[|sensed| + |last|..];
    assert Overwrite(was, 0, sensed) == one;
    assert Overwrite(one, |sensed|, last) == two;
    assert Overwrite(two, |sensed| + |last|, gait) == FrameOf(was, sensed, last, gait);
  }

  lemma FrameReplaced(was: seq<real>, sensed: seq<real>, last: seq<real>, gait: seq<real>, other: seq<real>)
    requires |sensed| + |last| + |gait| <= |was| && |other| == |last|
    ensures Overwrite(FrameOf(was, sensed, last, gait), |sensed|, other) == FrameOf(was, sensed, other, gait)
  {
    var rest := gait + was[|sensed| + |last| + |gait|..];
    assert FrameOf(was, sensed, last, gait) == sensed + last + rest;
    assert FrameOf(was, sensed, other, gait) == sensed + other + rest;
  }

  lemma FrameShows(was: seq<real>, sensed: seq<real>, last: seq<real>, gait: seq<real>, n: nat)
    requires |sensed| + |last| + |gait| <= |was| && |sensed| == 6 + 2 * n && |last| == n
    ensures LastActionsIn(FrameOf(was, sensed, last, gait), n) == last
  {
    var rest := gait + was[|sensed| + |last| + |gait|..];
    assert FrameOf(was, sensed, last, gait) == sensed + last + rest;
  }

  lemma ShowsPreviousNext(frames: seq<Frame>, outputs: seq<seq<real>>, n: nat, f: Frame, acts: seq<real>)
    requires ShowsPrevious(frames, outputs, n) && 6 + 3 * n <= |f|
    requires LastActionsIn(f, n) == if outputs == [] then Zeros(n) else outputs[|outputs| - 1]
    ensures ShowsPrevious(frames + [f], outputs + [acts], n)
  {
  }

  method WriteAt(b: array<real>, at: nat, f: seq<real>)
    requires at + |f| <= b.Length
    modifies b
    ensures b[..] == Overwrite(old(b[..]), at, f)
  {
    forall i | 0 <= i < |f| {
      b[at + i] := f[i];
    }
  }

  method WriteSegments(b: array<real>, sensed: seq<real>, last: seq<real>, gait: seq<real>)
    requires |sensed| + |last| + |gait| <= b.Length
    modifies b
    ensures b[..] == FrameOf(old(b[..]), sensed, last, gait)
  {
    FrameByParts(b[..], sensed, last, gait);
    WriteAt(b, 0, sensed);
    WriteAt(b, |sensed|, last);
    WriteAt(b, |sensed| + |last|, gait);
  }

  method CopyTo(b: array<real>, to: array<real>)
    requires b != to && b.Length == to.Length
    modifies to
    ensures to[..] == b[..]
  {
    for i := 0 to b.Length
      invariant to[..i] == b[..i]
    {
      to[i] := b[i];
    }
    assert to[..] == to[..b.Length] && b[..] == b[..b.Length];
  }

  method FillWithCopies(b: array<real>, f: Frame, h: nat)
    requires b.Length == h * |f|
    modifies b
    ensures b[..] == Flatten(Copies(f, h))
  {
    for i := 0 to h
      invariant i * |f| <= b.Length
      invariant b[..i * |f|] == Flatten(Copies(f, i))
    {
      CopyFits(i, h, |f|);
      WriteAt(b, i * |f|, f);
      FlattenSnoc(Copies(f, i), f);
      assert Copies(f, i) + [f] == Copies(f, i + 1);
    }
    assert b[..h * |f|] == b[..];
  }

  lemma CopyFits(i: nat, h: nat, size: nat)
    requires i < h
    ensures i * size + size == (i + 1) * size <= h * size
  {
    MulAtLeast(h - i, size);
  }

  class RlController {
    const size: nat          // numbers in one observation
    const n: nat             // actions
    const hist: nat          // frames of history
    const decimation: nat
    const obsClip: real
    const actClip: real
    const singleObs: array<real>
    const buffer: array<real>
    const encoderInput: array<real>
    var actions: seq<real>
    var lastActions: seq<real>
    var firstFrame: bool
    var loopCount: nat
    ghost var frames: seq<Frame>        // the unclipped observations since the last restart
    ghost var outputs: seq<seq<real>>   // the clipped actions since then

    ghost predicate Shape()
      reads this
    {
      && size >= 12 + 3 * n && hist > 0 && decimation > 0
      && singleObs.Length == size && buffer.Length == hist * size == encoderInput.Length
      && singleObs != buffer && singleObs != encoderInput && buffer != encoderInput
      && |actions| == n && |lastActions| == n
      && AllOfSize(frames, size)
      && (firstFrame <==> frames == [])
    }

    /** The flat history and the encoder's input are the window of the record of frames. */
    ghost predicate Valid()
      reads this, singleObs, buffer, encoderInput
    {
      && Shape()
      && (frames != [] ==> buffer[..] == Flatten(Window(frames, hist)) && encoderInput[..] == buffer[..])
    }

    // What holds between control cycles.
    ghost predicate Cycled()
      reads this
    {
      && decimation > 0 && |frames| == PolicyRuns(loopCount, decimation)
      && lastActions == actions == (if outputs == [] then Zeros(n) else outputs[|outputs| - 1])
      && ShowsPrevious(frames, outputs, n)
    }

    constructor (size: nat, n: nat, hist: nat, decimation: nat, obsClip: real, actClip: real)
      requires size >= 12 + 3 * n && hist > 0 && decimation > 0
      ensures Valid() && Cycled() && frames == []
      ensures fresh(singleObs) && fresh(buffer) && fresh(encoderInput)
    {
      this.size, this.n, this.hist, this.decimation := size, n, hist, decimation;
      this.obsClip, this.actClip := obsClip, actClip;
      singleObs := new real[size](_ => 0.0);
      buffer := new real[hist * size](_ => 0.0);
      encoderInput := new real[hist * size](_ => 0.0);
      actions, lastActions := Zeros(n), Zeros(n);
      firstFrame, loopCount, frames, outputs := true, 0, [], [];
    }

    method RestartController()
      requires Valid()
      modifies this
      ensures Valid() && Cycled() && frames == []
    {
      firstFrame := true;
      loopCount := 0;
      actions := Zeros(n);
      lastActions := Zeros(n);
      frames, outputs := [], [];
    }

    // Building the new observation in place.
    method BuildObservation(sensed: seq<real>, gait: seq<real>)
      requires Shape() && |sensed| == 6 + 2 * n && |gait| == 6
      modifies singleObs
      ensures singleObs[..] == FrameOf(old(singleObs[..]), sensed, if firstFrame then Zeros(n) else lastActions, gait)
    {
      ghost var was := singleObs[..];
      WriteSegments(singleObs, sensed, lastActions, gait);
      if firstFrame {
        FrameReplaced(was, sensed, lastActions, gait, Zeros(n));
        WriteAt(singleObs, 6 + 2 * n, Zeros(n));
      }
    }

    // The history part: on the first frame the whole window becomes copies of it.
    method AppendToHistory(f: Frame)
      requires Valid() && |f| == size
      modifies this`firstFrame, this`frames, buffer, encoderInput
      ensures Valid() && frames == old(frames) + [f]
    {
      ghost var next := Flatten(Window(frames + [f], hist));
      if firstFrame {
        FillWithCopies(buffer, f, hist);
        ShiftedFirst(f, hist);
        firstFrame := false;
        assert frames + [f] == [f];
      } else {
        ShiftedWindow(frames, f, hist);
      }
      assert Shifted(buffer[..], f) == next;
      ShiftInPlace(buffer, f);
      CopyTo(buffer, encoderInput);
      assert buffer[..] == next && encoderInput[..] == next;
      frames := frames + [f];
    }

    /** Every observation joins the history unclipped; what the policy is given is clipped. */
    method ComputeObservation(sensed: seq<real>, gait: seq<real>)
      requires Valid() && |sensed| == 6 + 2 * n && |gait| == 6
      modifies this`firstFrame, this`frames, singleObs, buffer, encoderInput
      ensures Valid()
      ensures var f := FrameOf(old(singleObs[..]), sensed, if old(firstFrame) then Zeros(n) else lastActions, gait);
              && frames == old(frames) + [f]
              && forall i :: 0 <= i < size ==> singleObs[i] == CutObs(f[i], obsClip)
      ensures obsClip >= 0.0 ==> forall i :: 0 <= i < size ==> -obsClip <= singleObs[i] <= obsClip
      ensures var f := frames[|frames| - 1];
              forall i :: 0 <= i < size ==>
                && (-obsClip <= f[i] <= obsClip ==> singleObs[i] == f[i])
                && (obsClip >= 0.0 && f[i] > obsClip ==> singleObs[i] == obsClip)
                && (obsClip >= 0.0 && f[i] < -obsClip ==> singleObs[i] == -obsClip)
    {
      BuildObservation(sensed, gait);
      AppendToHistory(singleObs[..]);
      forall i | 0 <= i < size {
        singleObs[i] := CutObs(singleObs[i], obsClip);
      }
    }

    /** Every action ends inside the clipping range, unchanged if it was there, at the nearer end
        if not. */
    method ComputeActions(policy: seq<real>)
      requires |policy| == n
      modifies this`actions
      ensures |actions| == n && actions == CutActs(policy, actClip)
      ensures actClip >= 0.0 ==> forall i :: 0 <= i < n ==> -actClip <= actions[i] <= actClip
      ensures forall i :: 0 <= i < n && -actClip <= policy[i] <= actClip ==> actions[i] == policy[i]
      ensures actClip >= 0.0 ==> forall i :: 0 <= i < n && policy[i] > actClip ==> actions[i] == actClip
      ensures forall i :: 0 <= i < n && policy[i] < -actClip ==> actions[i] == -actClip
    {
      actions := policy;
      for i := 0 to n
        invariant |actions| == n && actions == CutActs(policy, actClip)[..i] + policy[i..]
      {
        actions := actions[i := CutAct(actions[i], actClip)];
      }
    }

    method GetJointCmdData()
      requires |actions| == n
      modifies this`lastActions
      ensures lastActions == actions
    {
      lastActions := actions;
    }

    /** One control cycle as the main loop does it: the update, which runs the policy only every
        so many cycles, and then the command. */
    method Cycle(sensed: seq<real>, gait: seq<real>, policy: seq<real>)
      requires Valid() && Cycled() && |sensed| == 6 + 2 * n && |gait| == 6 && |policy| == n
      modifies this, singleObs, buffer, encoderInput
      ensures Valid() && Cycled() && loopCount == old(loopCount) + 1
      ensures old(loopCount) % decimation == 0 ==>
                && |frames| == |old(frames)| + 1 && frames[..|old(frames)|] == old(frames)
                && outputs == old(outputs) + [CutActs(policy, actClip)]
      ensures old(loopCount) % decimation != 0 ==> frames == old(frames) && outputs == old(outputs)
    {
      PolicyRunsNext(loopCount, decimation);
      ghost var last := if firstFrame then Zeros(n) else lastActions;
      FrameShows(singleObs[..], sensed, last, gait, n);
      ShowsPreviousNext(frames, outputs, n, FrameOf(singleObs[..], sensed, last, gait), CutActs(policy, actClip));
      if loopCount % decimation == 0 {
        ComputeObservation(sensed, gait);
        ComputeActions(policy);
        outputs := outputs + [actions];
      }
      loopCount := loopCount + 1;
      GetJointCmdData();
    }
  }
}
