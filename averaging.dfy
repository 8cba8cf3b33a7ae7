/**
 * The exponential ("rolling") average that the sideband, the reference
 * spectrum, the line fits and the Python prototype all apply: one update
 * moves the running value a fraction f of the way to the new sample.
 */
module Averaging {
  /** One update: (1 - f) * avg + f * x. */
  function Blend(f: real, avg: real, x: real): real
  {
    (1.0 - f) * avg + f * x
  }

  /** Element-wise update of a whole trace. */
  function BlendSeq(f: real, avg: seq<real>, x: seq<real>): (r: seq<real>)
    requires |avg| == |x|
    ensures |r| == |avg|
    ensures forall k :: 0 <= k < |r| ==> r[k] == Blend(f, avg[k], x[k])
  {
    seq(|avg|, k requires 0 <= k < |avg| => Blend(f, avg[k], x[k]))
  }

  /** Converts an integer trace (the uint32 projections) to reals. */
  function AsReals(s: seq<int>): (r: seq<real>)
    ensures |r| == |s|
    ensures forall k :: 0 <= k < |r| ==> r[k] == s[k] as real
  {
    seq(|s|, k requires 0 <= k < |s| => s[k] as real)
  }

  function Pow(b: real, n: nat): real
  {
    if n == 0 then 1.0 else b * Pow(b, n - 1)
  }

  /** The running value after n updates with the same sample x. */
  function Repeat(f: real, avg: real, x: real, n: nat): real
  {
    if n == 0 then avg else Blend(f, Repeat(f, avg, x, n - 1), x)
  }

  /** One update moves the value towards x: the new distance is (1 - f) times the old. */
  lemma BlendGap(f: real, avg: real, x: real)
    ensures Blend(f, avg, x) - x == (1.0 - f) * (avg - x)
  {
  }

  /**
   * Convergence: after n updates with a constant sample x the distance
   * to x has shrunk by the factor (1 - f)^n.
   */
  lemma {:induction false} RepeatGap(f: real, avg: real, x: real, n: nat)
    ensures Repeat(f, avg, x, n) - x == Pow(1.0 - f, n) * (avg - x)
  {
    if n > 0 {
      RepeatGap(f, avg, x, n - 1);
      BlendGap(f, Repeat(f, avg, x, n - 1), x);
      assert Repeat(f, avg, x, n) - x == (1.0 - f) * (Repeat(f, avg, x, n - 1) - x);
    }
  }

  /** With 0 <= f <= 1 the update lies between the old value and the sample. */
  lemma BlendBetween(f: real, avg: real, x: real)
    requires 0.0 <= f <= 1.0
    ensures avg <= x ==> avg <= Blend(f, avg, x) <= x
    ensures x <= avg ==> x <= Blend(f, avg, x) <= avg
  {
    BlendGap(f, avg, x);
    assert Blend(f, avg, x) - avg == f * (x - avg);
    var d := x - avg;
    assert (1.0 - f) * d == d - f * d;
    if avg <= x {
      MulNonneg(f, d);
      MulNonneg(1.0 - f, d);
    } else {
      MulNonneg(f, -d);
      MulNonneg(1.0 - f, -d);
    }
  }

  lemma MulNonneg(a: real, b: real)
    requires 0.0 <= a && 0.0 <= b
    ensures 0.0 <= a * b
  {
  }

  /** A trace already equal to the sample is a fixed point of the update. */
  lemma BlendFixed(f: real, x: seq<real>)
    ensures BlendSeq(f, x, x) == x
  {
  }
}
