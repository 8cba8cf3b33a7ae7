/**
 * The reference ratio fit (service/RatioFit.cc). Over the pixels k of one
 * shot it fits the new trace w against the reference v, either as a plain
 * ratio of sums or, with the p1 term enabled, as the weighted least-squares
 * model w ~ v * (p0 + p1 * x) with x = k/cols - 0.5 and weight 1/sw^2.
 * The accumulators are moment sums; finalize solves the 2x2 normal
 * equations in closed form and reports the chi-square of the fit.
 */
module RatioFit {
  /** One accumulated pixel: index k of cols, reference v, trace w, noise sw. */
  datatype Sample = Sample(k: nat, cols: nat, v: real, w: real, sw: real)

  /** The six moment sums that the class keeps. */
  datatype Moments = Moments(vv: real, vw: real, xvv: real, xvw: real, xxvv: real, ww: real)

  const Zero: Moments := Moments(0.0, 0.0, 0.0, 0.0, 0.0, 0.0)

  /** The weighted form needs a non-empty trace and a nonzero noise level. */
  predicate Weighable(s: Sample) { s.cols > 0 && s.sw != 0.0 }

  predicate AllWeighable(ss: seq<Sample>)
  {
    forall i :: 0 <= i < |ss| ==> Weighable(ss[i])
  }

  /** Pixel position, centred on the middle of the trace. */
  function X(s: Sample): real
    requires s.cols > 0
  {
    (s.k as real) / (s.cols as real) - 0.5
  }

  function Weight(s: Sample): real
    requires s.sw != 0.0
  {
    1.0 / (s.sw * s.sw)
  }

  /** The contribution of one sample (accum). */
  function Add(m: Moments, s: Sample, fitP1: bool): Moments
    requires fitP1 ==> Weighable(s)
  {
    if fitP1 then
      var x, r := X(s), Weight(s);
      var q, p := s.v * s.v * r, s.v * s.w * r;
      Moments(m.vv + q, m.vw + p, m.xvv + q * x, m.xvw + p * x, m.xxvv + q * x * x, m.ww + s.w * s.w * r)
    else
      Moments(m.vv + s.v, m.vw, m.xvv, m.xvw, m.xxvv, m.ww + s.w)
  }

  /** The moments after reset and one accum per sample, in order. */
  function Sums(ss: seq<Sample>, fitP1: bool): Moments
    requires fitP1 ==> AllWeighable(ss)
  {
    if ss == [] then Zero else Add(Sums(ss[..|ss| - 1], fitP1), ss[|ss| - 1], fitP1)
  }

  /** Residual of one sample under the model w ~ v * (p0 + p1 * x). */
  function Residual(s: Sample, p0: real, p1: real): real
    requires s.cols > 0
  {
    s.w - s.v * (p0 + p1 * X(s))
  }

  /** Weighted sum of squared residuals: the quantity the fit minimises. */
  function ChiSq(ss: seq<Sample>, p0: real, p1: real): real
    requires AllWeighable(ss)
  {
    if ss == [] then 0.0
    else
      var s := ss[|ss| - 1];
      ChiSq(ss[..|ss| - 1], p0, p1) + Weight(s) * Residual(s, p0, p1) * Residual(s, p0, p1)
  }

  /** d of finalize; zero exactly when the normal equations are singular. */
  function Denominator(m: Moments): real
  {
    m.xvv * m.xvv - m.xxvv * m.vv
  }

  function SolveP0(m: Moments): real
    requires Denominator(m) != 0.0
  {
    (m.xvw * m.xvv - m.vw * m.xxvv) / Denominator(m)
  }

  function SolveP1(m: Moments): real
    requires Denominator(m) != 0.0
  {
    (m.vw * m.xvv - m.xvw * m.vv) / Denominator(m)
  }

  /** The chi-square expression of finalize, written over the moments. */
  function ChiSqOf(m: Moments, p0: real, p1: real): real
  {
    m.ww + (m.vv * p0 * p0 + m.xxvv * p1 * p1 + 2.0 * m.xvv * p0 * p1) - 2.0 * (m.vw * p0 + m.xvw * p1)
  }

  /**
   * The closed-form solution solves the weighted normal equations
   * vv p0 + xvv p1 = vw and xvv p0 + xxvv p1 = xvw.
   */
  lemma NormalEquations(m: Moments)
    requires Denominator(m) != 0.0
    ensures m.vv * SolveP0(m) + m.xvv * SolveP1(m) == m.vw
    ensures m.xvv * SolveP0(m) + m.xxvv * SolveP1(m) == m.xvw
  {
    var d := Denominator(m);
    var a, b := SolveP0(m), SolveP1(m);
    assert a * d == m.xvw * m.xvv - m.vw * m.xxvv;
    assert b * d == m.vw * m.xvv - m.xvw * m.vv;
    assert (m.vv * a + m.xvv * b) * d == m.vw * d;
    assert (m.xvv * a + m.xxvv * b) * d == m.xvw * d;
  }

  /** The solution of the normal equations is unique when d != 0. */
  lemma NormalEquationsUnique(m: Moments, a: real, b: real)
    requires Denominator(m) != 0.0
    requires m.vw == a * m.vv + b * m.xvv
    requires m.xvw == a * m.xvv + b * m.xxvv
    ensures a == SolveP0(m) && b == SolveP1(m)
  {
    var d := Denominator(m);
    assert a * d == m.xvw * m.xvv - m.vw * m.xxvv;
    assert b * d == m.vw * m.xvv - m.xvw * m.vv;
  }

  lemma AddChiSq(m: Moments, s: Sample, p0: real, p1: real)
    requires Weighable(s)
    ensures ChiSqOf(Add(m, s, true), p0, p1)
         == ChiSqOf(m, p0, p1) + Weight(s) * Residual(s, p0, p1) * Residual(s, p0, p1)
  {
    ChiSqStep(m.ww, m.vv, m.vw, m.xvv, m.xvw, m.xxvv, s.v, s.w, X(s), Weight(s), p0, p1);
  }

  /** AddChiSq on the bare numbers: the moment increments add r e^2 to the chi-square. */
  lemma ChiSqStep(ww: real, vv: real, vw: real, xvv: real, xvw: real, xxvv: real,
                  v: real, w: real, x: real, r: real, p0: real, p1: real)
    ensures var q, p := v * v * r, v * w * r;
      (ww + w * w * r) + ((vv + q) * p0 * p0 + (xxvv + q * x * x) * p1 * p1 + 2.0 * (xvv + q * x) * p0 * p1)
        - 2.0 * ((vw + p) * p0 + (xvw + p * x) * p1)
      == ww + (vv * p0 * p0 + xxvv * p1 * p1 + 2.0 * xvv * p0 * p1) - 2.0 * (vw * p0 + xvw * p1)
        + r * (w - v * (p0 + p1 * x)) * (w - v * (p0 + p1 * x))
  {
    var q, p := v * v * r, v * w * r;
    var e := w - v * (p0 + p1 * x);
    assert (vv + q) * p0 * p0 == vv * p0 * p0 + q * p0 * p0;
    assert (xxvv + q * x * x) * p1 * p1 == xxvv * p1 * p1 + q * x * x * p1 * p1;
    assert 2.0 * (xvv + q * x) * p0 * p1 == 2.0 * xvv * p0 * p1 + 2.0 * q * x * p0 * p1;
    assert (vw + p) * p0 + (xvw + p * x) * p1 == vw * p0 + xvw * p1 + (p * p0 + p * x * p1);
    assert e * e == w * w - 2.0 * v * w * p0 - 2.0 * v * w * x * p1
      + v * v * p0 * p0 + v * v * x * x * p1 * p1 + 2.0 * v * v * x * p0 * p1;
    assert r * e * e == w * w * r + q * p0 * p0 + q * x * x * p1 * p1 + 2.0 * q * x * p0 * p1
      - 2.0 * (p * p0 + p * x * p1);
  }

  /**
   * The chi-square that finalize computes from the moment sums is the
   * weighted residual sum over every accumulated sample.
   */
  lemma {:induction false} ChiSqFromMoments(ss: seq<Sample>, p0: real, p1: real)
    requires AllWeighable(ss)
    ensures ChiSqOf(Sums(ss, true), p0, p1) == ChiSq(ss, p0, p1)
  {
    if ss != [] {
      var init := ss[..|ss| - 1];
      ChiSqFromMoments(init, p0, p1);
      var last := ss[|ss| - 1];
      AddChiSq(Sums(init, true), last, p0, p1);
      SameIncrement(ChiSqOf(Sums(ss, true), p0, p1), ChiSq(ss, p0, p1),
                    ChiSqOf(Sums(init, true), p0, p1), ChiSq(init, p0, p1),
                    Weight(last) * Residual(last, p0, p1) * Residual(last, p0, p1));
    }
  }

  lemma SameIncrement(lhs: real, rhs: real, a: real, b: real, e: real)
    requires lhs == a + e && rhs == b + e && a == b
    ensures lhs == rhs
  {
  }

  /** For one sample on the model, v w r = a (v v r) + b (v v r x), and likewise times x. */
  lemma SampleProportional(s: Sample, a: real, b: real)
    requires Weighable(s) && s.w == s.v * (a + b * X(s))
    ensures s.v * s.w * Weight(s) == a * (s.v * s.v * Weight(s)) + b * (s.v * s.v * Weight(s) * X(s))
    ensures s.v * s.w * Weight(s) * X(s)
         == a * (s.v * s.v * Weight(s) * X(s)) + b * (s.v * s.v * Weight(s) * X(s) * X(s))
  {
    var x, r, v := X(s), Weight(s), s.v;
    calc {
      v * s.w * r;
      v * (v * (a + b * x)) * r;
      a * (v * v * r) + b * (v * v * r * x);
    }
  }

  lemma AddProportional(m: Moments, s: Sample, a: real, b: real)
    requires Weighable(s) && s.w == s.v * (a + b * X(s))
    requires m.vw == a * m.vv + b * m.xvv && m.xvw == a * m.xvv + b * m.xxvv
    ensures Add(m, s, true).vw == a * Add(m, s, true).vv + b * Add(m, s, true).xvv
    ensures Add(m, s, true).xvw == a * Add(m, s, true).xvv + b * Add(m, s, true).xxvv
  {
    SampleProportional(s, a, b);
  }

  lemma {:induction false} ProportionalMoments(ss: seq<Sample>, a: real, b: real)
    requires AllWeighable(ss)
    requires forall i :: 0 <= i < |ss| ==> ss[i].w == ss[i].v * (a + b * X(ss[i]))
    ensures Sums(ss, true).vw == a * Sums(ss, true).vv + b * Sums(ss, true).xvv
    ensures Sums(ss, true).xvw == a * Sums(ss, true).xvv + b * Sums(ss, true).xxvv
  {
    if ss != [] {
      var init := ss[..|ss| - 1];
      ProportionalMoments(init, a, b);
      AddProportional(Sums(init, true), ss[|ss| - 1], a, b);
    }
  }

  /**
   * Exact recovery: when every trace sample is exactly v * (a + b x) and the
   * system is not singular, finalize returns p0 = a and p1 = b, and the
   * chi-square is 0.
   */
  lemma {:induction false} ExactRecovery(ss: seq<Sample>, a: real, b: real)
    requires AllWeighable(ss)
    requires forall i :: 0 <= i < |ss| ==> ss[i].w == ss[i].v * (a + b * X(ss[i]))
    requires Denominator(Sums(ss, true)) != 0.0
    ensures SolveP0(Sums(ss, true)) == a && SolveP1(Sums(ss, true)) == b
    ensures ChiSqOf(Sums(ss, true), a, b) == 0.0
  {
    var m := Sums(ss, true);
    ProportionalMoments(ss, a, b);
    NormalEquationsUnique(m, a, b);
    ChiSqFromMoments(ss, a, b);
    ZeroResiduals(ss, a, b);
  }

  lemma {:induction false} ZeroResiduals(ss: seq<Sample>, a: real, b: real)
    requires AllWeighable(ss)
    requires forall i :: 0 <= i < |ss| ==> ss[i].w == ss[i].v * (a + b * X(ss[i]))
    ensures ChiSq(ss, a, b) == 0.0
  {
    if ss != [] {
      ZeroResiduals(ss[..|ss| - 1], a, b);
      assert Residual(ss[|ss| - 1], a, b) == 0.0;
    }
  }

  lemma {:induction false} PlainSums(ss: seq<Sample>, a: real)
    requires forall i :: 0 <= i < |ss| ==> ss[i].w == a * ss[i].v
    ensures Sums(ss, false).ww == a * Sums(ss, false).vv
  {
    if ss != [] {
      PlainSums(ss[..|ss| - 1], a);
    }
  }

  /**
   * Without the p1 term the fit is the ratio of the sums: a trace that is
   * exactly a times the reference gives p0 = a.
   */
  lemma {:induction false} PlainRatioRecovery(ss: seq<Sample>, a: real)
    requires forall i :: 0 <= i < |ss| ==> ss[i].w == a * ss[i].v
    requires Sums(ss, false).vv != 0.0
    ensures Sums(ss, false).ww / Sums(ss, false).vv == a
  {
    PlainSums(ss, a);
    var m := Sums(ss, false);
    assert m.ww == a * m.vv;
    assert (a * m.vv) / m.vv == a;
  }

  /**
   * The coefficients finalize leaves, from the sums and the coefficients
   * before it (a zero denominator leaves what it would divide unchanged).
   */
  function Finalized(m: Moments, fitP1: bool, p0: real, p1: real): (real, real)
  {
    if fitP1 then (if Denominator(m) != 0.0 then (SolveP0(m), SolveP1(m)) else (p0, p1))
    else (if m.vv != 0.0 then m.ww / m.vv else p0, 0.0)
  }

  class RatioFit {
    var vv: real
    var vw: real
    var xvv: real
    var xvw: real
    var xxvv: real
    var ww: real
    var p0: real
    var p1: real
    var chsq: real
    var fitP1: bool

    /** The accumulators as one value. */
    function Acc(): Moments
      reads this
    {
      Moments(vv, vw, xvv, xvw, xxvv, ww)
    }

    constructor ()
      ensures !fitP1
    {
      fitP1 := false;
    }

    /** reset: zero the six sums; nothing else changes. */
    method Reset()
      modifies this`vv, this`vw, this`xvv, this`xvw, this`xxvv, this`ww
      ensures Acc() == Zero
    {
      vv := 0.0;
      vw := 0.0;
      xvv := 0.0;
      xvw := 0.0;
      xxvv := 0.0;
      ww := 0.0;
    }

    /** accum: add one sample's contribution under the current mode. */
    method Accum(k: nat, cols: nat, v: real, w: real, sw: real)
      requires fitP1 ==> cols > 0 && sw != 0.0
      modifies this`vv, this`vw, this`xvv, this`xvw, this`xxvv, this`ww
      ensures Acc() == Add(old(Acc()), Sample(k, cols, v, w, sw), fitP1)
    {
      if fitP1 {
        var x := (k as real) / (cols as real) - 0.5;
        var r := 1.0 / (sw * sw);
        var q := v * v * r;
        var p := v * w * r;
        vv := vv + q;
        vw := vw + p;
        q := q * x;
        xvv := xvv + q;
        p := p * x;
        xvw := xvw + p;
        q := q * x;
        xxvv := xxvv + q;
        ww := ww + w * w * r;
      } else {
        vv := vv + v;
        ww := ww + w;
      }
    }

    /**
     * What finalize leaves behind: with the p1 term and a nonzero
     * denominator, the closed-form solution and its chi-square; without
     * it, the ratio of sums, p1 = 0 and chi-square 0. A zero denominator
     * is not given a value (see README).
     */
    predicate Solved()
      reads this
    {
      && (fitP1 && Denominator(Acc()) != 0.0 ==>
            p0 == SolveP0(Acc()) && p1 == SolveP1(Acc()) && chsq == ChiSqOf(Acc(), p0, p1))
      && (!fitP1 ==> p1 == 0.0 && chsq == 0.0)
      && (!fitP1 && vv != 0.0 ==> p0 == ww / vv)
    }

    /**
     * finalize: solve from the current sums; the sums themselves are kept.
     * A zero denominator leaves the solution it would divide by unchanged.
     */
    method Finalize()
      modifies this`p0, this`p1, this`chsq
      ensures Solved()
      ensures fitP1 && Denominator(Acc()) == 0.0 ==> p0 == old(p0) && p1 == old(p1) && chsq == old(chsq)
      ensures !fitP1 && vv == 0.0 ==> p0 == old(p0)
    {
      var m := Acc();
      if fitP1 {
        var d := m.xvv * m.xvv - m.xxvv * m.vv;
        if d != 0.0 {
          var a := (m.xvw * m.xvv - m.vw * m.xxvv) / d;
          var b := (m.vw * m.xvv - m.xvw * m.vv) / d;
          p0, p1 := a, b;
          chsq := m.ww + (m.vv * a * a + m.xxvv * b * b + 2.0 * m.xvv * a * b) - 2.0 * (m.vw * a + m.xvw * b);
        }
      } else {
        if m.vv != 0.0 {
          p0 := m.ww / m.vv;
        }
        p1 := 0.0;
        chsq := 0.0;
      }
    }

    /** fit_p1: switch the weighted p1 term on or off. */
    method SetFitP1(v: bool)
      modifies this`fitP1
      ensures fitP1 == v
    {
      fitP1 := v;
    }
  }
}
