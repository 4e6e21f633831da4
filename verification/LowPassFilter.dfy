/** The digital low-pass filter object, updated in place, proved against FilterAlgebra. */
module LowPassFilterClass {
  import opened FilterAlgebra

  class LowPassFilter {
    var wc: real
    var ts: real
    var coeffs: Coeffs
    var inPrev0: real
    var inPrev1: real
    var outPrev0: real
    var outPrev1: real
    var out: real

    ghost predicate Valid()
      reads `wc, `ts, `coeffs
    {
      coeffs == Coefficients(Pole(ts, wc))
    }

    function View(): Taps
      reads this
    {
      Taps(inPrev0, inPrev1, outPrev0, outPrev1)
    }

    constructor (wc: real, ts: real)
      ensures Valid() && this.wc == wc && this.ts == ts && View() == Taps(0.0, 0.0, 0.0, 0.0)
    {
      inPrev0, inPrev1, outPrev0, outPrev1 := 0.0, 0.0, 0.0, 0.0;
      this.wc, this.ts := wc, ts;
      new;
      Update();
    }

    method Update()
      modifies `coeffs
      ensures Valid()
    {
      var feed := Square2(2500.0, ts, wc);
      var twice := Square2(5000.0, ts, wc);
      var damp := 7071.0 * ts * wc;
      var den := feed + damp + 10000.0;
      Collect(ts, wc, feed, twice, damp, den);
      coeffs := CoeffsFrom(feed, twice, damp, den);
    }

    method SetTs(t: real)
      requires Valid()
      modifies `ts, `coeffs
      ensures Valid() && ts == t
    {
      ts := t;
      Update();
    }

    method SetWc(w: real)
      requires Valid()
      modifies `wc, `coeffs
      ensures Valid() && wc == w
    {
      wc := w;
      Update();
    }

    method Input(x: real)
      modifies `out, `inPrev0, `inPrev1, `outPrev0, `outPrev1
      ensures out == Output(coeffs, old(View()), x)
      ensures View() == Push(coeffs, old(View()), x)
      ensures Valid() ==> Bilinear(Pole(ts, wc), old(View()), x, out)
    {
      hide Bilinear, Pole, Coefficients;
      out := coeffs.in1 * x + coeffs.in2 * inPrev0 + coeffs.in3 * inPrev1 + coeffs.out1 * outPrev0 + coeffs.out2 * outPrev1;
      inPrev1 := inPrev0;
      inPrev0 := x;
      outPrev1 := outPrev0;
      outPrev0 := out;
      OutputIff(Pole(ts, wc), old(View()), x, out);
    }

    method Clear()
      modifies `inPrev0, `inPrev1, `outPrev0, `outPrev1
      ensures View() == Taps(0.0, 0.0, 0.0, 0.0)
    {
      inPrev1, inPrev0, outPrev1, outPrev0 := 0.0, 0.0, 0.0, 0.0;
    }

    method Init(v: real)
      modifies `inPrev0, `inPrev1, `outPrev0, `outPrev1
      ensures View() == Taps(v, v, v, v)
    {
      inPrev1, inPrev0, outPrev1, outPrev0 := v, v, v, v;
    }
  }

  function Pole(t: real, w: real): real {
    t * w
  }

  // k times the squares of both, in the order the filter multiplies them.
  function Square2(k: real, t: real, w: real): real {
    k * t * t * w * w
  }

  lemma Ungroup(k: real, t: real, w: real)
    ensures Square2(k, t, w) == k * Sq(Pole(t, w))
  {
  }

  lemma Collect(t: real, w: real, feed: real, twice: real, damp: real, den: real)
    requires feed == Square2(2500.0, t, w) && twice == Square2(5000.0, t, w)
    requires damp == 7071.0 * t * w && den == feed + damp + 10000.0
    ensures den != 0.0 && CoeffsFrom(feed, twice, damp, den) == Coefficients(Pole(t, w))
  {
    var p := Pole(t, w);
    DenPositive(p);
    Ungroup(2500.0, t, w);
    Ungroup(5000.0, t, w);
    assert damp == 7071.0 * p;
    assert den == Den(p);
  }
}
