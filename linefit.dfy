/**
 * The straight-line fit of service/LineFit.cc. Instead of plain sums it
 * keeps exponential averages of x, y, x^2 and x*y, each moved a fraction
 * f1 towards the new sample on every accumulation, and solves the two
 * normal equations of y = p0 + p1 * x from them.
 */
module LineFit {
  import opened Averaging

  /** The running averages of x, y, x^2 and x*y. */
  datatype Avg = Avg(v: real, w: real, vv: real, vw: real)

  const Zero: Avg := Avg(0.0, 0.0, 0.0, 0.0)

  /** The fitted line y = p0 + p1 * x. */
  datatype Line = Line(p0: real, p1: real)

  /** One accumulation of the point (x, y) with convergence f1. */
  function Step(m: Avg, f1: real, x: real, y: real): Avg
  {
    Avg(Blend(f1, m.v, x), Blend(f1, m.w, y), Blend(f1, m.vv, x * x), Blend(f1, m.vw, x * y))
  }

  /** The averages after accumulating the points in order, starting from zero. */
  function Averages(pts: seq<(real, real)>, f1: real): Avg
  {
    if pts == [] then Zero
    else
      var last := pts[|pts| - 1];
      Step(Averages(pts[..|pts| - 1], f1), f1, last.0, last.1)
  }

  /** The total weight the averages give to the points: the average of n ones. */
  function Weight(n: nat, f1: real): real
  {
    Repeat(f1, 0.0, 1.0, n)
  }

  /** The spread of x: the determinant of the normal equations. */
  function Spread(m: Avg): real
  {
    m.vv - m.v * m.v
  }

  /** finalize: no spread gives the zero line, otherwise the solution of the normal equations. */
  function Solve(m: Avg): Line
  {
    var d := Spread(m);
    if d == 0.0 then Line(0.0, 0.0)
    else
      var p1 := (m.vw - m.v * m.w) / d;
      Line(m.w - m.v * p1, p1)
  }

  /**
   * With spread the solved line satisfies the normal equations of the
   * averaged least squares problem: mean y = p0 + p1 * mean x and
   * mean xy = p0 * mean x + p1 * mean x^2.
   */
  lemma NormalEquations(m: Avg)
    requires Spread(m) != 0.0
    ensures var r := Solve(m);
      m.w == r.p0 + r.p1 * m.v && m.vw == r.p0 * m.v + r.p1 * m.vv
  {
    var r := Solve(m);
    var d := Spread(m);
    assert r.p1 * d == m.vw - m.v * m.w;
    calc {
      r.p0 * m.v + r.p1 * m.vv;
      (m.w - m.v * r.p1) * m.v + r.p1 * m.vv;
      m.w * m.v + r.p1 * d;
      m.vw;
    }
  }

  /** ... and is their only solution. */
  lemma NormalEquationsUnique(m: Avg, a: real, b: real)
    requires Spread(m) != 0.0
    requires m.w == a + b * m.v && m.vw == a * m.v + b * m.vv
    ensures Solve(m) == Line(a, b)
  {
    var d := Spread(m);
    assert m.vw - m.v * m.w == b * d;
  }

  /**
   * On points of the line y = a + b * x the averages satisfy
   * mean y = a * W + b * mean x and mean xy = a * mean x + b * mean x^2,
   * where W is the total weight of the points.
   */
  lemma {:induction false} OnLine(pts: seq<(real, real)>, f1: real, a: real, b: real)
    requires forall i :: 0 <= i < |pts| ==> pts[i].1 == a + b * pts[i].0
    ensures LineRelation(Averages(pts, f1), Weight(|pts|, f1), a, b)
  {
    if pts != [] {
      var init := pts[..|pts| - 1];
      var x := pts[|pts| - 1].0;
      assert Averages(pts, f1) == Step(Averages(init, f1), f1, x, a + b * x) by {
        assert pts[|pts| - 1].1 == a + b * x;
      }
      assert forall i :: 0 <= i < |init| ==> init[i] == pts[i];
      OnLine(init, f1, a, b);
      assert Weight(|pts|, f1) == Blend(f1, Weight(|init|, f1), 1.0);
      StepOnLine(f1, Weight(|init|, f1), Averages(init, f1), x, a, b);
    }
  }

  /**
   * The relations of OnLine between averages m and total weight wt:
   * mean y = a * wt + b * mean x and mean xy = a * mean x + b * mean x^2.
   */
  predicate LineRelation(m: Avg, wt: real, a: real, b: real)
  {
    m.w == a * wt + b * m.v && m.vw == a * m.v + b * m.vv
  }

  /** One accumulation of a point of the line keeps the relations of OnLine. */
  lemma StepOnLine(f1: real, wt: real, m: Avg, x: real, a: real, b: real)
    requires LineRelation(m, wt, a, b)
    ensures LineRelation(Step(m, f1, x, a + b * x), Blend(f1, wt, 1.0), a, b)
  {
    BlendLinear(f1, m.w, wt, m.v, a + b * x, 1.0, x, a, b);
    BlendLinear(f1, m.vw, m.v, m.vv, x * (a + b * x), x, x * x, a, b);
  }

  /** Blending is linear: blending a * s + b * t towards a * u + b * z is a * (s to u) + b * (t to z). */
  lemma BlendLinear(f: real, y: real, s: real, t: real, yz: real, u: real, z: real, a: real, b: real)
    requires y == a * s + b * t && yz == a * u + b * z
    ensures Blend(f, y, yz) == a * Blend(f, s, u) + b * Blend(f, t, z)
  {
    var g := 1.0 - f;
    calc {
      Blend(f, y, yz);
      g * (a * s + b * t) + f * (a * u + b * z);
      a * (g * s) + b * (g * t) + a * (f * u) + b * (f * z);
      a * (g * s + f * u) + b * (g * t + f * z);
    }
  }

  /**
   * Points on a line through the origin are fitted exactly. (The averages
   * start from zero, so for any other line the origin pulls the fit: the
   * weight W is below one.)
   */
  lemma {:induction false} ThroughOrigin(pts: seq<(real, real)>, f1: real, b: real)
    requires forall i :: 0 <= i < |pts| ==> pts[i].1 == b * pts[i].0
    requires Spread(Averages(pts, f1)) != 0.0
    ensures Solve(Averages(pts, f1)) == Line(0.0, b)
  {
    forall i | 0 <= i < |pts|
      ensures pts[i].1 == 0.0 + b * pts[i].0
    {
    }
    OnLine(pts, f1, 0.0, b);
    var m := Averages(pts, f1);
    OriginRelation(m, Weight(|pts|, f1), b);
    NormalEquationsUnique(m, 0.0, b);
  }

  lemma OriginRelation(m: Avg, wt: real, b: real)
    requires LineRelation(m, wt, 0.0, b)
    ensures m.w == 0.0 + b * m.v && m.vw == 0.0 * m.v + b * m.vv
  {
  }

  /** Without spread the fit is the zero line. */
  lemma NoSpread(m: Avg)
    requires m.vv == m.v * m.v
    ensures Solve(m) == Line(0.0, 0.0)
  {
  }

  class LineFit {
    var f1: real
    var v: real
    var w: real
    var vv: real
    var vw: real
    var ww: real
    /** the coefficients p0 and p1 */
    const p: array<real>

    predicate Valid()
    {
      p.Length == 2
    }

    function Avgs(): Avg
      reads this
    {
      Avg(v, w, vv, vw)
    }

    function Fitted(): Line
      reads this, p
      requires Valid()
    {
      Line(p[0], p[1])
    }

    /** A new fit: convergence 0.05 and all averages zero; the coefficients are not initialised. */
    constructor ()
      ensures Valid() && fresh(p)
      ensures f1 == 0.05 && Avgs() == Zero && ww == 0.0
    {
      f1 := 0.05;
      v, w, vv, vw, ww := 0.0, 0.0, 0.0, 0.0, 0.0;
      p := new real[2];
    }

    /** set_convergence changes only the convergence. */
    method SetConvergence(x: real)
      modifies this`f1
      ensures f1 == x
    {
      f1 := x;
    }

    /** reset zeroes the averages; the convergence and the coefficients stay. */
    method Reset()
      modifies this`v, this`w, this`vv, this`vw, this`ww
      ensures Avgs() == Zero && ww == 0.0
    {
      v, w, vv, vw, ww := 0.0, 0.0, 0.0, 0.0, 0.0;
    }

    /** accum moves each average towards the new point; ww is never updated. */
    method Accum(x: real, y: real)
      modifies this`v, this`w, this`vv, this`vw
      ensures Avgs() == Step(old(Avgs()), f1, x, y)
    {
      var f0 := 1.0 - f1;
      v := f0 * v + f1 * x;
      w := f0 * w + f1 * y;
      vv := f0 * vv + f1 * x * x;
      vw := f0 * vw + f1 * x * y;
    }

    /** finalize writes the solved line into the coefficients. */
    method Finalize()
      requires Valid()
      modifies p
      ensures Fitted() == Solve(Avgs())
    {
      var d := vv - v * v;
      if d == 0.0 {
        p[0], p[1] := 0.0, 0.0;
      } else {
        p[1] := (vw - v * w) / (vv - v * v);
        p[0] := w - v * p[1];
      }
    }
  }
}
