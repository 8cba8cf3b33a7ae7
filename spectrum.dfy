/**
 * The reference spectrum (service/Spectrum.cc). Reference shots teach a
 * rolling-average reference trace; signal shots are normalised by it
 * (v / ref - 1), pixel by pixel, after the sideband trace is subtracted.
 * Only samples above a cut take part. With the ratio fit switched on, each
 * reference shot is first fitted against the old reference.
 */
module Spectrum {
  import opened Averaging
  import opened Wrappers
  import RF = RatioFit

  /** The noise level that process_ref hands to the ratio fit. */
  const Noise: real := 25.0

  /** The trace after subtracting the sideband: wf[k] - sb[k]. */
  function Subtract(wf: seq<int>, sb: seq<real>): (r: seq<real>)
    requires |wf| == |sb|
    ensures |r| == |wf|
    ensures forall k :: 0 <= k < |r| ==> r[k] == wf[k] as real - sb[k]
  {
    seq(|wf|, k requires 0 <= k < |wf| => wf[k] as real - sb[k])
  }

  /** Some sample passes the cut. */
  predicate AnyAbove(v: seq<real>, cut: real)
  {
    exists k :: 0 <= k < |v| && v[k] > cut
  }

  /** Every sample that passes the cut has a nonzero reference. */
  predicate Dividable(v: seq<real>, ref: seq<real>, cut: real)
    requires |ref| >= |v|
  {
    forall k :: 0 <= k < |v| && v[k] > cut ==> ref[k] != 0.0
  }

  /** The normalised trace: v / ref - 1 above the cut and 0 elsewhere. */
  function Normalized(v: seq<real>, ref: seq<real>, cut: real): (r: seq<real>)
    requires |ref| >= |v| && Dividable(v, ref, cut)
    ensures |r| == |v|
  {
    seq(|v|, k requires 0 <= k < |v| => if v[k] > cut then v[k] / ref[k] - 1.0 else 0.0)
  }

  /** The linear correction p0 + p1 * (k/cols - 0.5) of the ratio-fit overload. */
  function Ratio(k: nat, cols: nat, p0: real, p1: real): real
    requires cols > 0
  {
    p0 + p1 * ((k as real) / (cols as real) - 0.5)
  }

  /** No pixel of the scaled reference is zero. */
  predicate ScaleDividable(ref: seq<real>, p0: real, p1: real)
  {
    forall k :: 0 <= k < |ref| ==> ref[k] * Ratio(k, |ref|, p0, p1) != 0.0
  }

  /** One pixel of the scaled form: v / (ref * ratio) - 1. */
  function ScaledAt(v: seq<real>, ref: seq<real>, p0: real, p1: real, k: nat): real
    requires |ref| == |v| && ScaleDividable(ref, p0, p1) && k < |v|
  {
    v[k] / (ref[k] * Ratio(k, |ref|, p0, p1)) - 1.0
  }

  /** The trace normalised by the reference scaled with the fitted ratio, at every pixel. */
  function Scaled(v: seq<real>, ref: seq<real>, p0: real, p1: real): (r: seq<real>)
    requires |ref| == |v| && ScaleDividable(ref, p0, p1)
    ensures |r| == |v|
    ensures forall k :: 0 <= k < |v| ==> r[k] == ScaledAt(v, ref, p0, p1, k)
  {
    seq(|v|, k requires 0 <= k < |v| => ScaledAt(v, ref, p0, p1, k))
  }

  /** The samples that process_ref feeds to the ratio fit: old reference against the new trace. */
  function Samples(ref: seq<real>, w: seq<real>): (r: seq<RF.Sample>)
    requires |ref| == |w|
    ensures |r| == |ref| && RF.AllWeighable(r)
  {
    seq(|ref|, k requires 0 <= k < |ref| => RF.Sample(k, |ref|, ref[k], w[k], Noise))
  }

  /**
   * Normalisation is undone by the reference: every passing sample is
   * (out + 1) * ref, every other one is written as 0.
   */
  lemma NormalizedRecovers(v: seq<real>, ref: seq<real>, cut: real, k: nat)
    requires |ref| >= |v| && Dividable(v, ref, cut) && k < |v|
    ensures v[k] > cut ==> (Normalized(v, ref, cut)[k] + 1.0) * ref[k] == v[k]
    ensures v[k] <= cut ==> Normalized(v, ref, cut)[k] == 0.0
  {
    if v[k] > cut {
      assert Normalized(v, ref, cut)[k] + 1.0 == v[k] / ref[k];
    }
  }

  /** A signal identical to a positive-cut reference normalises to all zeros. */
  lemma NormalizedOfReference(v: seq<real>, cut: real)
    requires 0.0 <= cut
    ensures Dividable(v, v, cut)
    ensures Normalized(v, v, cut) == seq(|v|, k => 0.0)
  {
    assert Dividable(v, v, cut);
    var n := Normalized(v, v, cut);
    forall k | 0 <= k < |v|
      ensures n[k] == 0.0
    {
      if v[k] > cut {
        assert v[k] / v[k] == 1.0;
      }
    }
  }

  /** The scaled form is undone by the scaled reference at every pixel. */
  lemma ScaledRecovers(v: seq<real>, ref: seq<real>, p0: real, p1: real, k: nat)
    requires |ref| == |v| && ScaleDividable(ref, p0, p1) && k < |v|
    ensures (Scaled(v, ref, p0, p1)[k] + 1.0) * (ref[k] * Ratio(k, |ref|, p0, p1)) == v[k]
  {
    var d := ref[k] * Ratio(k, |ref|, p0, p1);
    assert d != 0.0;
    assert (v[k] / d) * d == v[k];
  }

  /** With the trivial ratio (p0 = 1, p1 = 0) the scaled form agrees with the plain one above the cut. */
  lemma ScaledUnit(v: seq<real>, ref: seq<real>, cut: real, k: nat)
    requires |ref| == |v| && ScaleDividable(ref, 1.0, 0.0) && k < |v|
    ensures Dividable(v, ref, cut)
    ensures v[k] > cut ==> Scaled(v, ref, 1.0, 0.0)[k] == Normalized(v, ref, cut)[k]
  {
    assert forall j :: 0 <= j < |ref| ==> Ratio(j, |ref|, 1.0, 0.0) == 1.0;
    assert ref[k] * Ratio(k, |ref|, 1.0, 0.0) == ref[k];
  }

  /**
   * A reference shot that is the old reference times a straight line
   * a + b * x is recovered exactly by the ratio fit of process_ref.
   */
  lemma {:induction false} FitRecoversRatio(ref: seq<real>, w: seq<real>, a: real, b: real)
    requires |ref| == |w| && |ref| > 0
    requires forall k :: 0 <= k < |ref| ==> w[k] == ref[k] * Ratio(k, |ref|, a, b)
    requires RF.Denominator(RF.Sums(Samples(ref, w), true)) != 0.0
    ensures RF.SolveP0(RF.Sums(Samples(ref, w), true)) == a
    ensures RF.SolveP1(RF.Sums(Samples(ref, w), true)) == b
  {
    var ss := Samples(ref, w);
    forall i | 0 <= i < |ss|
      ensures ss[i].w == ss[i].v * (a + b * RF.X(ss[i]))
    {
      assert ss[i].w == ref[i] * Ratio(i, |ref|, a, b);
    }
    RF.ExactRecovery(ss, a, b);
  }

  /**
   * What process_ref carries from shot to shot: the weight and switches it
   * reads, whether a reference exists, the reference, and the coefficients
   * the ratio fit leaves.
   */
  datatype State = State(f1: real, fitRatio: bool, fitP1: bool, init: bool, ref: seq<real>, p0: real, p1: real)

  /** The state after process_ref of the subtracted trace w. */
  function LearnRef(s: State, w: seq<real>, cut: real): (r: State)
    requires |s.ref| == |w|
    ensures |r.ref| == |w|
  {
    if !AnyAbove(w, cut) then s
    else
      var p := if s.init && s.fitRatio then RF.Finalized(RF.Sums(Samples(s.ref, w), s.fitP1), s.fitP1, s.p0, s.p1)
               else (s.p0, s.p1);
      s.(init := true, ref := if s.init then BlendSeq(s.f1, s.ref, w) else w, p0 := p.0, p1 := p.1)
  }

  /**
   * A learned reference is a fixed point: a passing shot equal to it
   * leaves it as it is, and with the ratio fit on (and the p1 term
   * solvable) the fit reports the ratio 1 with no slope.
   */
  lemma {:induction false} LearnRefFixed(s: State, cut: real)
    requires s.init && AnyAbove(s.ref, cut) && |s.ref| > 0
    requires s.fitRatio && s.fitP1 ==> RF.Denominator(RF.Sums(Samples(s.ref, s.ref), true)) != 0.0
    ensures LearnRef(s, s.ref, cut).ref == s.ref
    ensures s.fitRatio && s.fitP1 ==> LearnRef(s, s.ref, cut).p0 == 1.0 && LearnRef(s, s.ref, cut).p1 == 0.0
  {
    BlendFixed(s.f1, s.ref);
    if s.fitRatio && s.fitP1 {
      forall k | 0 <= k < |s.ref|
        ensures s.ref[k] == s.ref[k] * Ratio(k, |s.ref|, 1.0, 0.0)
      {
      }
      FitRecoversRatio(s.ref, s.ref, 1.0, 0.0);
    }
  }

  class Spectrum {
    const cols: nat
    const wf: array<real>
    const ref: array<real>
    var f1: real
    var init: bool
    var fitRatio: bool
    const ratioFit: RF.RatioFit

    predicate Valid()
    {
      wf.Length == cols && ref.Length == cols && wf != ref
    }

    /** The state process_ref reads and writes. */
    function Snapshot(): State
      reads this, ref, ratioFit
    {
      State(f1, fitRatio, ratioFit.fitP1, init, ref[..], ratioFit.p0, ratioFit.p1)
    }

    /** A new spectrum: reference all ones, f1 = 0.25, nothing learned, no ratio fit. */
    constructor (cols: nat)
      ensures Valid() && this.cols == cols
      ensures ref[..] == seq(cols, k => 1.0)
      ensures f1 == 0.25 && !init && !fitRatio && !ratioFit.fitP1
      ensures fresh(wf) && fresh(ref) && fresh(ratioFit)
    {
      this.cols := cols;
      wf := new real[cols];
      var r := new real[cols];
      var k := 0;
      while k < cols
        invariant 0 <= k <= cols
        invariant forall j :: 0 <= j < k ==> r[j] == 1.0
      {
        r[k] := 1.0;
        k := k + 1;
      }
      ref := r;
      f1 := 0.25;
      init := false;
      fitRatio := false;
      ratioFit := new RF.RatioFit();
    }

    /**
     * process_ref: subtract the sideband into wf. If some sample passes
     * the cut, the first such call copies the trace into the reference
     * and every later one blends it in with weight f1, after fitting the
     * new trace against the old reference when the ratio fit is on.
     * Returns the reference.
     */
    method ProcessRef(input: seq<int>, sb: seq<real>, cut: real) returns (out: array<real>)
      requires Valid() && |input| == cols && |sb| == cols
      modifies wf, ref, this`init, ratioFit
      ensures Valid() && out == ref
      ensures wf[..] == Subtract(input, sb)
      ensures !AnyAbove(wf[..], cut) ==> ref[..] == old(ref[..]) && init == old(init)
      ensures AnyAbove(wf[..], cut) && !old(init) ==> ref[..] == wf[..]
      ensures AnyAbove(wf[..], cut) && old(init) ==> ref[..] == BlendSeq(f1, old(ref[..]), wf[..])
      ensures AnyAbove(wf[..], cut) ==> init
      ensures AnyAbove(wf[..], cut) && old(init) && fitRatio ==>
        && ratioFit.Acc() == RF.Sums(Samples(old(ref[..]), wf[..]), ratioFit.fitP1) && ratioFit.Solved()
        && (ratioFit.p0, ratioFit.p1) == RF.Finalized(ratioFit.Acc(), ratioFit.fitP1, old(ratioFit.p0), old(ratioFit.p1))
      ensures !(AnyAbove(wf[..], cut) && old(init) && fitRatio) ==> unchanged(ratioFit)
      ensures ratioFit.fitP1 == old(ratioFit.fitP1)
      ensures Snapshot() == LearnRef(old(Snapshot()), wf[..], cut)
    {
      var pass := LoadTrace(input, sb, cut);
      if !pass {
        return ref;
      }
      if !init {
        init := true;
        CopyRef();
      } else if fitRatio {
        FitAndBlendRef();
      } else {
        BlendRef();
      }
      out := ref;
    }

    /** The subtraction loop of process_ref; reports whether some sample passed the cut. */
    method LoadTrace(input: seq<int>, sb: seq<real>, cut: real) returns (pass: bool)
      requires Valid() && |input| == cols && |sb| == cols
      modifies wf
      ensures wf[..] == Subtract(input, sb)
      ensures pass <==> AnyAbove(wf[..], cut)
    {
      pass := false;
      var k := 0;
      while k < cols
        invariant 0 <= k <= cols
        invariant forall j :: 0 <= j < k ==> wf[j] == input[j] as real - sb[j]
        invariant pass <==> exists j :: 0 <= j < k && wf[j] > cut
      {
        wf[k] := input[k] as real - sb[k];
        if wf[k] > cut {
          pass := true;
        }
        k := k + 1;
      }
      assert wf[..] == Subtract(input, sb);
    }

    /** First passing reference shot: the reference becomes the trace. */
    method CopyRef()
      requires Valid()
      modifies ref
      ensures ref[..] == wf[..]
    {
      var k := 0;
      while k < cols
        invariant 0 <= k <= cols
        invariant forall j :: 0 <= j < k ==> ref[j] == wf[j]
      {
        ref[k] := wf[k];
        k := k + 1;
      }
    }

    /** Later passing reference shots: ref[k] = (1 - f1) ref[k] + f1 wf[k]. */
    method BlendRef()
      requires Valid()
      modifies ref
      ensures ref[..] == BlendSeq(f1, old(ref[..]), wf[..])
    {
      var k := 0;
      while k < cols
        invariant 0 <= k <= cols
        invariant forall j :: 0 <= j < k ==> ref[j] == Blend(f1, old(ref[j]), wf[j])
        invariant forall j :: k <= j < cols ==> ref[j] == old(ref[j])
      {
        ref[k] := (1.0 - f1) * ref[k] + f1 * wf[k];
        k := k + 1;
      }
    }

    /**
     * The ratio-fit branch: reset the fit, feed it each pixel with the
     * reference value from before this shot, blend that pixel, and
     * finalize once at the end.
     */
    method FitAndBlendRef()
      requires Valid()
      modifies ref, ratioFit
      ensures ref[..] == BlendSeq(f1, old(ref[..]), wf[..])
      ensures ratioFit.Acc() == RF.Sums(Samples(old(ref[..]), wf[..]), ratioFit.fitP1)
      ensures ratioFit.Solved() && ratioFit.fitP1 == old(ratioFit.fitP1)
      ensures (ratioFit.p0, ratioFit.p1) == RF.Finalized(ratioFit.Acc(), ratioFit.fitP1, old(ratioFit.p0), old(ratioFit.p1))
    {
      ghost var r0 := ref[..];
      ghost var w := wf[..];
      ratioFit.Reset();
      var k := 0;
      while k < cols
        invariant 0 <= k <= cols
        invariant wf[..] == w && ratioFit.fitP1 == old(ratioFit.fitP1)
        invariant ratioFit.p0 == old(ratioFit.p0) && ratioFit.p1 == old(ratioFit.p1)
        invariant forall j :: 0 <= j < k ==> ref[j] == Blend(f1, r0[j], w[j])
        invariant forall j :: k <= j < cols ==> ref[j] == r0[j]
        invariant ratioFit.Acc() == RF.Sums(Samples(r0, w)[..k], ratioFit.fitP1)
      {
        FitAndBlendAt(k);
        assert Samples(r0, w)[..k + 1][..k] == Samples(r0, w)[..k];
        k := k + 1;
      }
      assert Samples(r0, w)[..cols] == Samples(r0, w);
      ratioFit.Finalize();
    }

    /** One pixel of the ratio-fit loop: accumulate with the old reference value, then blend it. */
    method FitAndBlendAt(k: nat)
      requires Valid() && k < cols
      modifies ref, ratioFit
      ensures ref[k] == Blend(f1, old(ref[k]), wf[k])
      ensures forall j :: 0 <= j < cols && j != k ==> ref[j] == old(ref[j])
      ensures ratioFit.Acc() == RF.Add(old(ratioFit.Acc()), RF.Sample(k, cols, old(ref[k]), wf[k], Noise), ratioFit.fitP1)
      ensures ratioFit.fitP1 == old(ratioFit.fitP1)
      ensures ratioFit.p0 == old(ratioFit.p0) && ratioFit.p1 == old(ratioFit.p1)
    {
      ratioFit.Accum(k, cols, ref[k], wf[k], Noise);
      ref[k] := (1.0 - f1) * ref[k] + f1 * wf[k];
    }

    /**
     * process_sig: normalise the subtracted trace by the learned
     * reference above the cut (0 elsewhere). The trace is returned iff
     * some sample passed; the reference is not touched.
     */
    method ProcessSig(input: seq<int>, sb: seq<real>, cut: real) returns (out: Option<array<real>>)
      requires Valid() && |input| == cols && |sb| == cols
      requires Dividable(Subtract(input, sb), ref[..], cut)
      modifies wf
      ensures wf[..] == Normalized(Subtract(input, sb), ref[..], cut)
      ensures out.Some? <==> AnyAbove(Subtract(input, sb), cut)
      ensures out.Some? ==> out.value == wf
    {
      var r := Normalize(input, sb, cut, ref[..]);
      out := if r then Some(wf) else None;
    }

    /** process_sig with a caller-supplied reference, which is only read. */
    method ProcessSigWith(input: seq<int>, sb: seq<real>, cut: real, other: array<real>) returns (out: Option<array<real>>)
      requires Valid() && |input| == cols && |sb| == cols && other.Length >= cols && other != wf
      requires Dividable(Subtract(input, sb), other[..], cut)
      modifies wf
      ensures wf[..] == Normalized(Subtract(input, sb), other[..], cut)
      ensures out.Some? <==> AnyAbove(Subtract(input, sb), cut)
      ensures out.Some? ==> out.value == wf
    {
      var r := Normalize(input, sb, cut, other[..]);
      out := if r then Some(wf) else None;
    }

    /** The loop shared by the two plain process_sig overloads. */
    method Normalize(input: seq<int>, sb: seq<real>, cut: real, divisor: seq<real>) returns (pass: bool)
      requires Valid() && |input| == cols && |sb| == cols && |divisor| >= cols
      requires Dividable(Subtract(input, sb), divisor, cut)
      modifies wf
      ensures wf[..] == Normalized(Subtract(input, sb), divisor, cut)
      ensures pass <==> AnyAbove(Subtract(input, sb), cut)
    {
      ghost var v := Subtract(input, sb);
      pass := false;
      var k := 0;
      while k < cols
        invariant 0 <= k <= cols
        invariant forall j :: 0 <= j < k ==> wf[j] == Normalized(v, divisor, cut)[j]
        invariant pass <==> exists j :: 0 <= j < k && v[j] > cut
      {
        var x := input[k] as real - sb[k];
        if x > cut {
          pass := true;
          wf[k] := x / divisor[k] - 1.0;
        } else {
          wf[k] := 0.0;
        }
        k := k + 1;
      }
      assert wf[..] == Normalized(v, divisor, cut);
    }

    /**
     * process_sig with fitted ratio coefficients: every pixel is divided
     * by the reference scaled with p0 + p1 * (k/cols - 0.5); the cut only
     * decides whether the trace is returned.
     */
    method ProcessSigScaled(input: seq<int>, sb: seq<real>, cut: real, p0: real, p1: real)
      returns (out: Option<array<real>>)
      requires Valid() && |input| == cols && |sb| == cols
      requires ScaleDividable(ref[..], p0, p1)
      modifies wf
      ensures wf[..] == Scaled(Subtract(input, sb), ref[..], p0, p1)
      ensures out.Some? <==> AnyAbove(Subtract(input, sb), cut)
      ensures out.Some? ==> out.value == wf
    {
      ghost var v := Subtract(input, sb);
      ghost var rf := ref[..];
      var pass := false;
      var k := 0;
      while k < cols
        invariant 0 <= k <= cols && ref[..] == rf
        invariant forall j :: 0 <= j < k ==> wf[j] == ScaledAt(v, rf, p0, p1, j)
        invariant pass <==> exists j :: 0 <= j < k && v[j] > cut
      {
        var r := p0 + p1 * ((k as real) / (cols as real) - 0.5);
        var x := input[k] as real - sb[k];
        if x > cut {
          pass := true;
        }
        wf[k] := x / (ref[k] * r) - 1.0;
        assert wf[k] == ScaledAt(v, rf, p0, p1, k);
        k := k + 1;
      }
      assert wf[..] == Scaled(v, rf, p0, p1);
      out := if pass then Some(wf) else None;
    }

    /**
     * The values save_ref would write: the reference, once one has been
     * learned or loaded, and nothing otherwise.
     */
    function SaveRef(): (r: Option<seq<real>>)
      reads this, ref
      ensures r.Some? <==> init
      ensures r.Some? ==> r.value == ref[..]
    {
      if init then Some(ref[..]) else None
    }

    /**
     * load_ref: when the file opens, its first cols values become the
     * reference and the spectrum counts as initialised; otherwise nothing
     * changes.
     */
    method LoadRef(file: Option<seq<real>>)
      requires Valid() && (file.Some? ==> |file.value| == cols)
      modifies ref, this`init
      ensures file.Some? ==> init && ref[..] == file.value
      ensures file.None? ==> init == old(init) && ref[..] == old(ref[..])
    {
      if file.Some? {
        init := true;
        var k := 0;
        while k < cols
          invariant 0 <= k <= cols && init
          invariant forall j :: 0 <= j < k ==> ref[j] == file.value[j]
        {
          ref[k] := file.value[k];
          k := k + 1;
        }
        assert ref[..] == file.value;
      }
    }

    /** set_convergence: only the rolling-average weight changes. */
    method SetConvergence(v: real)
      modifies this`f1
      ensures f1 == v
    {
      f1 := v;
    }

    /** fit_ratio: only the ratio-fit switch changes. */
    method FitRatio(v: bool)
      modifies this`fitRatio
      ensures fitRatio == v
    {
      fitRatio := v;
    }
  }
}
