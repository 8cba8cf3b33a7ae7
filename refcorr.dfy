/**
 * The reference correlation of service/RefCorr.cc: two line fits relate
 * the reference's ratio-fit coefficients (input) to the signal's (output).
 * Every accumulation feeds both fits; on every n-th call the fits are
 * solved, their lines become the correction, and the fits start over.
 */
module RefCorr {
  import LF = LineFit
  import RF = RatioFit

  /** The counter and the period are unsigned 32-bit values. */
  const U32: int := 0x1_0000_0000

  /**
   * What accum carries from call to call: the period, the counter, the
   * two fits' weights and averages, and the two correction lines.
   */
  datatype State = State(n: nat, i: nat, f0: real, f1: real, a0: LF.Avg, a1: LF.Avg, l0: LF.Line, l1: LF.Line)

  /** A correction line applied to x. */
  function Eval(l: LF.Line, x: real): real
  {
    l.p0 + x * l.p1
  }

  /** The state after accum of the input coefficients (x0, x1) and the output ones (y0, y1). */
  function Accumulated(s: State, x0: real, y0: real, x1: real, y1: real): State
  {
    var a0 := LF.Step(s.a0, s.f0, x0, y0);
    var a1 := LF.Step(s.a1, s.f1, x1, y1);
    var c := (s.i + 1) % U32;
    if c != s.n then s.(i := c, a0 := a0, a1 := a1)
    else s.(i := 0, a0 := LF.Zero, a1 := LF.Zero, l0 := LF.Solve(a0), l1 := LF.Solve(a1))
  }

  /** What one accum is fed: (input p0, output p0) and (input p1, output p1). */
  datatype Feed = Feed(x0: real, y0: real, x1: real, y1: real)

  /** The state after accum of each feed in turn. */
  function AccumAll(s: State, fs: seq<Feed>): State
  {
    if fs == [] then s
    else
      var f := fs[|fs| - 1];
      Accumulated(AccumAll(s, fs[..|fs| - 1]), f.x0, f.y0, f.x1, f.y1)
  }

  /** The points the p0 fit sees. */
  function P0Points(fs: seq<Feed>): (r: seq<(real, real)>)
    ensures |r| == |fs|
  {
    seq(|fs|, k requires 0 <= k < |fs| => (fs[k].x0, fs[k].y0))
  }

  /** The points the p1 fit sees. */
  function P1Points(fs: seq<Feed>): (r: seq<(real, real)>)
    ensures |r| == |fs|
  {
    seq(|fs|, k requires 0 <= k < |fs| => (fs[k].x1, fs[k].y1))
  }

  /** A period starts from counter 0 and two zeroed fits. */
  predicate Fresh(s: State)
  {
    s.i == 0 && s.a0 == LF.Zero && s.a1 == LF.Zero
  }

  /**
   * Within a period accum only counts and averages: after fewer than n
   * calls from a fresh start the counter is the number of calls, the fits
   * hold the averages of the points fed so far, and the lines are untouched.
   */
  lemma {:induction false} Filling(s: State, fs: seq<Feed>)
    requires Fresh(s) && |fs| < s.n < U32
    ensures var r := AccumAll(s, fs);
      && r.i == |fs| && r.a0 == LF.Averages(P0Points(fs), s.f0) && r.a1 == LF.Averages(P1Points(fs), s.f1)
      && r.n == s.n && r.f0 == s.f0 && r.f1 == s.f1 && r.l0 == s.l0 && r.l1 == s.l1
  {
    if fs != [] {
      var init := fs[..|fs| - 1];
      Filling(s, init);
      assert P0Points(init) == P0Points(fs)[..|fs| - 1];
      assert P1Points(init) == P1Points(fs)[..|fs| - 1];
    }
  }

  /**
   * The n-th call of a period solves both fits over exactly the n points of
   * the period, makes the solutions the corrections, and starts afresh.
   */
  lemma {:induction false} PeriodSolves(s: State, fs: seq<Feed>)
    requires Fresh(s) && |fs| == s.n && 1 <= s.n < U32
    ensures var r := AccumAll(s, fs);
      && Fresh(r) && r.n == s.n && r.f0 == s.f0 && r.f1 == s.f1
      && r.l0 == LF.Solve(LF.Averages(P0Points(fs), s.f0))
      && r.l1 == LF.Solve(LF.Averages(P1Points(fs), s.f1))
  {
    var init := fs[..|fs| - 1];
    Filling(s, init);
    assert P0Points(init) == P0Points(fs)[..|fs| - 1];
    assert P1Points(init) == P1Points(fs)[..|fs| - 1];
  }

  class RefCorr {
    /** the period */
    var n: nat
    /** calls since the last solve */
    var i: nat
    const fit0: LF.LineFit
    const fit1: LF.LineFit
    /** the corrections: p0(x) = p0p[0] + x * p0p[1], p1(x) = p1p[0] + x * p1p[1] */
    const p0p: array<real>
    const p1p: array<real>

    predicate Valid()
      reads this
    {
      && p0p.Length == 2 && p1p.Length == 2
      && fit0 != fit1 && fit0.Valid() && fit1.Valid()
      && p0p != p1p && fit0.p != fit1.p
      && p0p != fit0.p && p0p != fit1.p && p1p != fit0.p && p1p != fit1.p
      && n < U32 && i < U32
      && (n >= 1 ==> i < n)
    }

    /** The state accum reads and writes. */
    function Snapshot(): State
      reads this, fit0, fit1, p0p, p1p
      requires Valid()
    {
      State(n, i, fit0.f1, fit1.f1, fit0.Avgs(), fit1.Avgs(), LF.Line(p0p[0], p0p[1]), LF.Line(p1p[0], p1p[1]))
    }

    /** The correction applied to the reference ratio's p0. */
    function P0(x: real): real
      reads this, p0p
      requires p0p.Length == 2
    {
      p0p[0] + x * p0p[1]
    }

    /** The correction applied to the reference ratio's p1. */
    function P1(x: real): real
      reads this, p1p
      requires p1p.Length == 2
    {
      p1p[0] + x * p1p[1]
    }

    /**
     * A new correlation: period 10, counter 0, the one-to-one correction
     * (p0(x) = 1 and p1(x) = 0 for every x); both fits start from zero.
     */
    constructor ()
      ensures Valid() && fresh(fit0) && fresh(fit1) && fresh(p0p) && fresh(p1p) && fresh(fit0.p) && fresh(fit1.p)
      ensures n == 10 && i == 0
      ensures p0p[..] == [1.0, 0.0] && p1p[..] == [0.0, 0.0]
      ensures forall x :: P0(x) == 1.0 && P1(x) == 0.0
      ensures fit0.Avgs() == LF.Zero && fit1.Avgs() == LF.Zero
    {
      n := 10;
      i := 0;
      p0p := new real[2] [1.0, 0.0];
      p1p := new real[2] [0.0, 0.0];
      fit0 := new LF.LineFit();
      fit1 := new LF.LineFit();
      new;
      fit0.Reset();
      fit1.Reset();
    }

    /** set_period: the period is the argument as an unsigned value, and the counter restarts. */
    method SetPeriod(v: int)
      requires Valid()
      modifies this`n, this`i
      ensures Valid()
      ensures n == v % U32 && i == 0
    {
      n := v % U32;
      i := 0;
    }

    /**
     * accum: feed (input p0, output p0) and (input p1, output p1) to the
     * two fits and count the call; when the count reaches the period the
     * fits are solved into the corrections, reset, and the count restarts
     * at 0. Otherwise the corrections keep their values.
     */
    method Accum(input: RF.RatioFit, output: RF.RatioFit)
      requires Valid()
      modifies this`i, fit0, fit1, fit0.p, fit1.p, p0p, p1p
      ensures Valid()
      ensures fit0.f1 == old(fit0.f1) && fit1.f1 == old(fit1.f1)
      ensures Snapshot() == Accumulated(old(Snapshot()), input.p0, output.p0, input.p1, output.p1)
    {
      fit0.Accum(input.p0, output.p0);
      fit1.Accum(input.p1, output.p1);
      i := (i + 1) % U32;
      if i == n {
        i := 0;
        Solve0();
        Solve1();
      }
    }

    /** The solve of the p0 fit inside accum. */
    method Solve0()
      requires Valid()
      modifies fit0, fit0.p, p0p
      ensures Valid()
      ensures fit0.Avgs() == LF.Zero
      ensures LF.Line(p0p[0], p0p[1]) == LF.Solve(old(fit0.Avgs()))
      ensures fit0.f1 == old(fit0.f1) && p1p[..] == old(p1p[..])
    {
      fit0.Finalize();
      p0p[0] := fit0.p[0];
      p0p[1] := fit0.p[1];
      fit0.Reset();
    }

    /** The solve of the p1 fit inside accum. */
    method Solve1()
      requires Valid()
      modifies fit1, fit1.p, p1p
      ensures Valid()
      ensures fit1.Avgs() == LF.Zero
      ensures LF.Line(p1p[0], p1p[1]) == LF.Solve(old(fit1.Avgs()))
      ensures fit1.f1 == old(fit1.f1) && p0p[..] == old(p0p[..])
    {
      fit1.Finalize();
      p1p[0] := fit1.p[0];
      p1p[1] := fit1.p[1];
      fit1.Reset();
    }
  }
}
