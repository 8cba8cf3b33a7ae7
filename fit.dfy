/**
 * The per-peak refinement of service/Fit.cc. Starting at the peak index of
 * a filtered trace q, the fit walks left and right accumulating points
 * into a parabola until a sample drops below 80% of the peak (or the
 * window edge is reached), keeps the parabola's vertex when the fit is
 * valid, then extends both ends down to half maximum and interpolates the
 * full width at half maximum.
 */
module Fit {
  import opened Wrappers
  import PF = ParabFit

  /** The fraction of the peak height that bounds the parabola window. */
  const AFrac: real := 0.8

  /** The low 16 bits of a peak word hold the peak index. */
  function Index(word: nat): nat
  {
    word % 0x1_0000
  }

  /**
   * What the peak finder guarantees about a peak: it lies strictly
   * inside (nwts, cols - 1), is positive, and has a sample at or below
   * half its height on each side, at or after nwts on the left and before
   * cols - 1 on the right.
   */
  predicate GoodPeak(q: seq<real>, ix: int, nwts: int, cols: int)
  {
    && |q| == cols && 0 <= nwts < ix < cols - 1
    && q[ix] > 0.0
    && (exists j :: nwts <= j < ix && q[j] <= 0.5 * q[ix])
    && (exists j :: ix < j < cols - 1 && q[j] <= 0.5 * q[ix])
  }

  /** Where the left walk stops when it starts at l: the first sample below trf, or nwts. */
  function LeftWalk(q: seq<real>, l: int, nwts: int, trf: real): int
    requires 0 <= nwts < l <= |q|
    decreases l
  {
    var n := l - 1;
    if n <= nwts then n
    else if q[n] < trf then n
    else LeftWalk(q, n, nwts, trf)
  }

  /** The points the left walk accumulates, in order. */
  function LeftPoints(q: seq<real>, l: int, nwts: int, trf: real): seq<PF.Point>
    requires 0 <= nwts < l <= |q|
    decreases l
  {
    var n := l - 1;
    if n <= nwts then []
    else [PF.Point(n, q[n])] + (if q[n] < trf then [] else LeftPoints(q, n, nwts, trf))
  }

  /** Where the right walk stops when it starts at r: the first sample below trf, or cols - 1. */
  function RightWalk(q: seq<real>, r: int, cols: int, trf: real): int
    requires 0 <= r && cols <= |q|
    decreases cols - r
  {
    var n := r + 1;
    if n >= cols - 1 then n
    else if q[n] < trf then n
    else RightWalk(q, n, cols, trf)
  }

  /** The points the right walk accumulates, in order. */
  function RightPoints(q: seq<real>, r: int, cols: int, trf: real): seq<PF.Point>
    requires 0 <= r && cols <= |q|
    decreases cols - r
  {
    var n := r + 1;
    if n >= cols - 1 then []
    else [PF.Point(n, q[n])] + (if q[n] < trf then [] else RightPoints(q, n, cols, trf))
  }

  /** The half-maximum extension to the left: step left while above hm and above nwts. */
  function HalfLeft(q: seq<real>, l: int, nwts: int, hm: real): int
    requires 0 <= nwts <= l < |q|
    decreases l
  {
    if q[l] > hm && l > nwts then HalfLeft(q, l - 1, nwts, hm) else l
  }

  /** The half-maximum extension to the right: step right while above hm and below cols - 1. */
  function HalfRight(q: seq<real>, r: int, cols: int, hm: real): int
    requires 0 <= r < |q| && cols <= |q|
    decreases cols - r
  {
    if q[r] > hm && r < cols - 1 then HalfRight(q, r + 1, cols, hm) else r
  }

  /** The points the parabola is fitted to: the peak, the left walk, the right walk. */
  function FitPoints(q: seq<real>, ix: int, nwts: int, cols: int): seq<PF.Point>
    requires GoodPeak(q, ix, nwts, cols)
  {
    [PF.Point(ix, q[ix])] + LeftPoints(q, ix, nwts, AFrac * q[ix]) + RightPoints(q, ix, cols, AFrac * q[ix])
  }

  /** The parabola is accepted: regular normal matrix and opening downwards. */
  predicate Accepted(pts: seq<PF.Point>)
  {
    PF.Det(PF.SumsOf(pts)) != 0.0 && PF.Solve(PF.SumsOf(pts)).c < 0.0
  }

  /** Where the half-maximum interpolation meets hm between l and l + 1. */
  function LeftCrossing(q: seq<real>, l: int, hm: real): real
    requires 0 <= l && l + 1 < |q| && q[l + 1] != q[l]
  {
    l as real + (hm - q[l]) / (q[l + 1] - q[l])
  }

  /** Where the half-maximum interpolation meets hm between r - 1 and r. */
  function RightCrossing(q: seq<real>, r: int, hm: real): real
    requires 1 <= r < |q| && q[r - 1] != q[r]
  {
    r as real - (hm - q[r]) / (q[r - 1] - q[r])
  }

  /**
   * The full width at half maximum, interpolating on the left between l
   * and l + 1 and on the right between r - 1 and r.
   */
  function Fwhm(q: seq<real>, l: int, r: int, hm: real): real
    requires 0 <= l && l + 1 < |q| && q[l + 1] != q[l]
    requires 1 <= r < |q| && q[r - 1] != q[r]
  {
    (r - l) as real - (hm - q[l]) / (q[l + 1] - q[l]) - (hm - q[r]) / (q[r - 1] - q[r])
  }

  /**
   * The width formula of the source: the right-hand interpolation uses
   * q[r + 1] in place of q[r - 1].
   */
  function FwhmAsWritten(q: seq<real>, l: int, r: int, hm: real): real
    requires 0 <= l && l + 1 < |q| && q[l + 1] != q[l]
    requires 0 <= r && r + 1 < |q| && q[r + 1] != q[r]
  {
    (r - l) as real - (hm - q[l]) / (q[l + 1] - q[l]) - (hm - q[r]) / (q[r + 1] - q[r])
  }

  /**
   * The width process stores, as a double: the formula as written, or
   * None where its right-hand difference q[r + 1] - q[r] is zero, so that
   * the division leaves an infinite or NaN width.
   */
  function StoredWidth(q: seq<real>, l: int, r: int, hm: real): (w: Option<real>)
    requires 0 <= l && l + 1 < |q| && q[l + 1] != q[l]
    requires 0 <= r && r + 1 < |q|
    ensures w.None? <==> q[r + 1] == q[r]
  {
    if q[r + 1] == q[r] then None else Some(FwhmAsWritten(q, l, r, hm))
  }

  lemma {:induction false} LeftWalkSpec(q: seq<real>, l: int, nwts: int, trf: real, j: int)
    requires 0 <= nwts <= j < l <= |q| && q[j] < trf
    ensures j <= LeftWalk(q, l, nwts, trf) < l
    ensures forall i :: LeftWalk(q, l, nwts, trf) < i < l ==> q[i] >= trf
  {
    var n := l - 1;
    if n > nwts && q[n] >= trf {
      LeftWalkSpec(q, n, nwts, trf, j);
    }
  }

  lemma {:induction false} RightWalkSpec(q: seq<real>, r: int, cols: int, trf: real, j: int)
    requires 0 <= r < j < cols - 1 && cols <= |q| && q[j] < trf
    ensures r < RightWalk(q, r, cols, trf) <= j
    ensures forall i :: r < i < RightWalk(q, r, cols, trf) ==> q[i] >= trf
    decreases cols - r
  {
    var n := r + 1;
    if q[n] >= trf {
      RightWalkSpec(q, n, cols, trf, j);
    }
  }

  lemma {:induction false} HalfLeftSpec(q: seq<real>, m: int, nwts: int, hm: real, j: int)
    requires 0 <= nwts <= j <= m < |q| && q[j] <= hm
    ensures j <= HalfLeft(q, m, nwts, hm) <= m
    ensures q[HalfLeft(q, m, nwts, hm)] <= hm
    ensures forall i :: HalfLeft(q, m, nwts, hm) < i <= m ==> q[i] > hm
  {
    if q[m] > hm && m > nwts {
      HalfLeftSpec(q, m - 1, nwts, hm, j);
    }
  }

  lemma {:induction false} HalfRightSpec(q: seq<real>, m: int, cols: int, hm: real, j: int)
    requires 0 <= m <= j < cols - 1 && cols <= |q| && q[j] <= hm
    ensures m <= HalfRight(q, m, cols, hm) <= j
    ensures q[HalfRight(q, m, cols, hm)] <= hm
    ensures forall i :: m <= i < HalfRight(q, m, cols, hm) ==> q[i] > hm
    decreases cols - m
  {
    if q[m] > hm && m < cols - 1 {
      HalfRightSpec(q, m + 1, cols, hm, j);
    }
  }

  /**
   * For a good peak, both half-maximum ends stay inside the window
   * nwts <= l < ix < r < cols - 1, and each end brackets the half
   * maximum with its inner neighbour: q[l] <= hm < q[l + 1] and
   * q[r] <= hm < q[r - 1].
   */
  lemma WalkBounds(q: seq<real>, ix: int, nwts: int, cols: int)
    requires GoodPeak(q, ix, nwts, cols)
    ensures var trf, hm := AFrac * q[ix], 0.5 * q[ix];
      var l1, r1 := LeftWalk(q, ix, nwts, trf), RightWalk(q, ix, cols, trf);
      && nwts <= l1 < ix < r1 < cols - 1
      && var l, r := HalfLeft(q, l1, nwts, hm), HalfRight(q, r1, cols, hm);
      && nwts <= l < ix < r < cols - 1
      && q[l] <= hm < q[l + 1] && q[r] <= hm < q[r - 1]
  {
    var trf, hm := AFrac * q[ix], 0.5 * q[ix];
    var jl :| nwts <= jl < ix && q[jl] <= hm;
    var jr :| ix < jr < cols - 1 && q[jr] <= hm;
    LeftWalkSpec(q, ix, nwts, trf, jl);
    RightWalkSpec(q, ix, cols, trf, jr);
    var l1, r1 := LeftWalk(q, ix, nwts, trf), RightWalk(q, ix, cols, trf);
    HalfLeftSpec(q, l1, nwts, hm, jl);
    HalfRightSpec(q, r1, cols, hm, jr);
    var l, r := HalfLeft(q, l1, nwts, hm), HalfRight(q, r1, cols, hm);
    assert q[l + 1] > hm by {
      if l + 1 > l1 && l + 1 < ix {
        assert q[l + 1] >= trf;
      }
    }
    assert q[r - 1] > hm by {
      if r - 1 < r1 && r - 1 > ix {
        assert q[r - 1] >= trf;
      }
    }
  }

  /** The ends of the half-maximum extension for a good peak. */
  function HalfEnds(q: seq<real>, ix: int, nwts: int, cols: int): (e: (int, int))
    requires GoodPeak(q, ix, nwts, cols)
    ensures nwts <= e.0 < ix < e.1 < cols - 1
    ensures q[e.0] <= 0.5 * q[ix] < q[e.0 + 1] && q[e.1] <= 0.5 * q[ix] < q[e.1 - 1]
  {
    WalkBounds(q, ix, nwts, cols);
    var trf, hm := AFrac * q[ix], 0.5 * q[ix];
    (HalfLeft(q, LeftWalk(q, ix, nwts, trf), nwts, hm), HalfRight(q, RightWalk(q, ix, cols, trf), cols, hm))
  }

  /**
   * The interpolated crossings lie in [l, l + 1) and (r - 1, r], the
   * straight line between the bracketing samples passes through hm there,
   * and the width is the distance between them, hence positive when
   * l < r - 1.
   */
  lemma Crossings(q: seq<real>, l: int, r: int, hm: real)
    requires 0 <= l && l + 1 < r < |q|
    requires q[l] <= hm < q[l + 1] && q[r] <= hm < q[r - 1]
    ensures l as real <= LeftCrossing(q, l, hm) < (l + 1) as real
    ensures (r - 1) as real < RightCrossing(q, r, hm) <= r as real
    ensures q[l] + (LeftCrossing(q, l, hm) - l as real) * (q[l + 1] - q[l]) == hm
    ensures q[r] + (r as real - RightCrossing(q, r, hm)) * (q[r - 1] - q[r]) == hm
    ensures Fwhm(q, l, r, hm) == RightCrossing(q, r, hm) - LeftCrossing(q, l, hm)
    ensures l + 1 < r - 1 ==> Fwhm(q, l, r, hm) > 1.0
    ensures Fwhm(q, l, r, hm) > 0.0
  {
    var fl := (hm - q[l]) / (q[l + 1] - q[l]);
    var fr := (hm - q[r]) / (q[r - 1] - q[r]);
    FractionBounds(hm - q[l], q[l + 1] - q[l]);
    FractionBounds(hm - q[r], q[r - 1] - q[r]);
  }

  /** 0 <= n / d < 1 for 0 <= n < d. */
  lemma FractionBounds(n: real, d: real)
    requires 0.0 <= n < d
    ensures 0.0 <= n / d < 1.0 && (n / d) * d == n
  {
  }

  /**
   * The source's right-hand interpolation on a symmetric peak: for
   * q = [0, 4, 10, 4, 0] with the peak at 2 the walks stop at l = 1 and
   * r = 3, the crossings are 7/6 and 17/6, so the width is 5/3, but the
   * source's formula gives 25/12.
   */
  lemma AsWrittenAsymmetric()
    ensures var q := [0.0, 4.0, 10.0, 4.0, 0.0];
      && GoodPeak(q, 2, 0, 5)
      && HalfEnds(q, 2, 0, 5) == (1, 3)
      && LeftCrossing(q, 1, 5.0) == 7.0 / 6.0
      && RightCrossing(q, 3, 5.0) == 17.0 / 6.0
      && Fwhm(q, 1, 3, 5.0) == 5.0 / 3.0
      && FwhmAsWritten(q, 1, 3, 5.0) == 25.0 / 12.0
  {
    var q := [0.0, 4.0, 10.0, 4.0, 0.0];
    assert q[0] <= 0.5 * q[2];
    assert q[3] <= 0.5 * q[2];
    assert GoodPeak(q, 2, 0, 5);
    assert LeftWalk(q, 2, 0, 8.0) == 1;
    assert RightWalk(q, 2, 5, 8.0) == 3;
    assert HalfLeft(q, 1, 0, 5.0) == 1;
    assert HalfRight(q, 3, 5, 5.0) == 3;
  }

  /**
   * The source's width formula against the interpolated one: they agree
   * when the right end sits exactly at half maximum, and on a tail that
   * keeps falling below a right end under half maximum the formula as
   * written is the larger.
   */
  lemma AsWrittenAgainstInterpolated(q: seq<real>, l: int, r: int, hm: real)
    requires 0 <= l && l + 1 < r && r + 1 < |q|
    requires q[l] <= hm < q[l + 1] && q[r] <= hm < q[r - 1] && q[r + 1] != q[r]
    ensures q[r] == hm ==> FwhmAsWritten(q, l, r, hm) == Fwhm(q, l, r, hm)
    ensures q[r + 1] < q[r] < hm ==> FwhmAsWritten(q, l, r, hm) > Fwhm(q, l, r, hm)
  {
    if q[r + 1] < q[r] < hm {
      FractionBounds(hm - q[r], q[r - 1] - q[r]);
      NegativeFraction(hm - q[r], q[r + 1] - q[r]);
    }
  }

  /** n / d < 0 for n > 0 > d. */
  lemma NegativeFraction(n: real, d: real)
    requires n > 0.0 > d
    ensures n / d < 0.0
  {
    assert (n / d) * d == n;
  }

  /**
   * What a fit keeps between calls of process: the valid flag, the
   * amplitude and position of the last accepted parabola, and the width
   * the last call stored (None where that was not a finite double).
   */
  datatype State = State(valid: bool, amplitude: real, position: real, fwhm: Option<real>)

  /**
   * The fit after process of the peak recorded as word: an accepted
   * parabola sets the flag and replaces amplitude and position by its
   * vertex; a rejected one leaves flag, amplitude and position as they
   * were; the width is always rewritten, by the formula as written.
   */
  function Processed(f: State, q: seq<real>, word: nat, nwts: nat, cols: nat): State
    requires GoodPeak(q, Index(word), nwts, cols)
  {
    var ix := Index(word);
    var pts := FitPoints(q, ix, nwts, cols);
    var e := HalfEnds(q, ix, nwts, cols);
    var w := StoredWidth(q, e.0, e.1, 0.5 * q[ix]);
    if Accepted(pts) then
      var k := PF.Solve(PF.SumsOf(pts));
      State(true, PF.Peak(k), PF.Vertex(k), w)
    else
      f.(fwhm := w)
  }

  /**
   * With the flag cleared before process, the flag afterwards reports this
   * peak alone: it holds exactly when the parabola is accepted, and then
   * amplitude and position are the parabola's vertex, whose height no
   * point of the parabola exceeds.
   */
  lemma ClearedFlagIsAccepted(f: State, q: seq<real>, word: nat, nwts: nat, cols: nat)
    requires GoodPeak(q, Index(word), nwts, cols) && !f.valid
    ensures var g := Processed(f, q, word, nwts, cols);
      var pts := FitPoints(q, Index(word), nwts, cols);
      && (g.valid <==> Accepted(pts))
      && (g.valid ==> forall x: real :: PF.Eval(PF.Solve(PF.SumsOf(pts)), x) <= g.amplitude)
  {
    var pts := FitPoints(q, Index(word), nwts, cols);
    if Accepted(pts) {
      forall x: real
        ensures PF.Eval(PF.Solve(PF.SumsOf(pts)), x) <= Processed(f, q, word, nwts, cols).amplitude
      {
        PF.VertexIsMaximum(PF.Solve(PF.SumsOf(pts)), x);
      }
    }
  }

  /** The fit's parameter array _p is held inside the object, so it is modelled as three fields. */
  class Fit {
    var valid: bool
    var amplitude: real
    var position: real
    /** the full width at half maximum, None where it is not a finite double */
    var fwhm: Option<real>

    /** The fit's state as a value. */
    function Snapshot(): State
      reads this
    {
      State(valid, amplitude, position, fwhm)
    }

    /** A new fit: the parameters and the valid flag are not initialised. */
    constructor ()
    {
    }

    /** process: the peak in the low 16 bits of word refines the fit. */
    method Process(q: seq<real>, word: nat, nwts: nat, cols: nat)
      requires GoodPeak(q, Index(word), nwts, cols)
      modifies this
      ensures Snapshot() == Processed(old(Snapshot()), q, word, nwts, cols)
    {
      var ix := Index(word);
      var ok, amp, pos, l, r := FitParabola(q, ix, nwts, cols);
      if ok {
        amplitude := amp;
        position := pos;
        valid := true;
      }
      fwhm := HalfWidth(q, ix, nwts, cols, l, r);
    }

    /**
     * process with the valid flag cleared first, so that the flag reports
     * this fit alone: it holds exactly when the parabola is accepted.
     */
    method Refit(q: seq<real>, word: nat, nwts: nat, cols: nat)
      requires GoodPeak(q, Index(word), nwts, cols)
      modifies this
      ensures Snapshot() == Processed(old(Snapshot()).(valid := false), q, word, nwts, cols)
      ensures valid <==> Accepted(FitPoints(q, Index(word), nwts, cols))
    {
      valid := false;
      Process(q, word, nwts, cols);
      ClearedFlagIsAccepted(old(Snapshot()).(valid := false), q, word, nwts, cols);
    }
  }

  /**
   * A good peak whose parabola is rejected: for q = [0, 10, 0, 0] with the
   * peak at 1 the left walk stops at once and the right walk adds one
   * point, so only two abscissae are fitted and the normal matrix is
   * singular. process then keeps the valid flag, amplitude and position
   * the previous peak left; the right end r = 2 has q[3] = q[2], so the
   * width is not finite either.
   */
  lemma StaleValid(f: State)
    ensures var q := [0.0, 10.0, 0.0, 0.0];
      && GoodPeak(q, 1, 0, 4)
      && FitPoints(q, 1, 0, 4) == [PF.Point(1, 10.0), PF.Point(2, 0.0)]
      && !Accepted(FitPoints(q, 1, 0, 4))
      && Processed(f, q, 1, 0, 4) == f.(fwhm := None)
  {
    var q := [0.0, 10.0, 0.0, 0.0];
    assert q[0] <= 0.5 * q[1] && q[2] <= 0.5 * q[1];
    assert LeftPoints(q, 1, 0, 8.0) == [];
    assert RightPoints(q, 1, 4, 8.0) == [PF.Point(2, 0.0)];
    var pts := [PF.Point(1, 10.0), PF.Point(2, 0.0)];
    assert pts[..1] == [PF.Point(1, 10.0)];
    assert PF.SumsOf(pts) == PF.Sums(2.0, 3.0, 5.0, 9.0, 17.0, 10.0, 10.0, 10.0);
    StaleEnds();
  }

  /** The half-maximum ends of the peak of StaleValid, where q[r + 1] = q[r]. */
  lemma StaleEnds()
    ensures var q := [0.0, 10.0, 0.0, 0.0];
      GoodPeak(q, 1, 0, 4) && HalfEnds(q, 1, 0, 4) == (0, 2) && StoredWidth(q, 0, 2, 5.0).None?
  {
    var q := [0.0, 10.0, 0.0, 0.0];
    assert q[0] <= 0.5 * q[1] && q[2] <= 0.5 * q[1];
    assert LeftWalk(q, 1, 0, 8.0) == 0 && RightWalk(q, 1, 4, 8.0) == 2;
    assert HalfLeft(q, 0, 0, 5.0) == 0 && HalfRight(q, 2, 4, 5.0) == 2;
  }

  /**
   * The parabola part of process: accumulate the peak, walk left and right
   * while the samples stay at or above 80% of the peak, and solve. The fit
   * is accepted exactly when the normal matrix is regular and the parabola
   * opens downwards; its vertex gives amplitude and position.
   */
  method FitParabola(q: seq<real>, ix: int, nwts: int, cols: int) returns (ok: bool, amp: real, pos: real, l: int, r: int)
    requires GoodPeak(q, ix, nwts, cols)
    ensures l == LeftWalk(q, ix, nwts, AFrac * q[ix]) && r == RightWalk(q, ix, cols, AFrac * q[ix])
    ensures ok == Accepted(FitPoints(q, ix, nwts, cols))
    ensures ok ==> var k := PF.Solve(PF.SumsOf(FitPoints(q, ix, nwts, cols)));
      amp == PF.Peak(k) && pos == PF.Vertex(k)
  {
    var pfit := new PF.ParabFit();
    pfit.Accum(ix, q[ix]);
    var trf := AFrac * q[ix];
    l := WalkLeft(pfit, q, ix, nwts, trf);
    r := WalkRight(pfit, q, ix, cols, trf);
    assert pfit.points == FitPoints(q, ix, nwts, cols);
    pfit.CurrentIsSums();
    pfit.Finalize();
    ok := pfit.valid;
    amp, pos := 0.0, 0.0;
    if ok {
      amp := pfit.Amplitude();
      pos := pfit.Position();
    }
  }

  /**
   * The width part of process: extend the parabola window's ends l1 and
   * r1 down to half maximum and apply the width formula as written.
   */
  method HalfWidth(q: seq<real>, ix: int, nwts: int, cols: int, l1: int, r1: int) returns (w: Option<real>)
    requires GoodPeak(q, ix, nwts, cols)
    requires l1 == LeftWalk(q, ix, nwts, AFrac * q[ix]) && r1 == RightWalk(q, ix, cols, AFrac * q[ix])
    ensures var e := HalfEnds(q, ix, nwts, cols);
      w == StoredWidth(q, e.0, e.1, 0.5 * q[ix])
  {
    var hm := 0.5 * q[ix];
    WalkBounds(q, ix, nwts, cols);
    var l := ExtendLeft(q, l1, nwts, hm);
    var r := ExtendRight(q, r1, cols, hm);
    if q[r + 1] == q[r] {
      w := None;
    } else {
      w := Some((r - l) as real - (hm - q[l]) / (q[l + 1] - q[l]) - (hm - q[r]) / (q[r + 1] - q[r]));
    }
  }

  /** One step of the left walk: what the points and the stop index are after stepping from l. */
  lemma {:induction false} LeftStep(done: seq<PF.Point>, q: seq<real>, l: int, nwts: int, trf: real)
    requires 0 <= nwts < l <= |q|
    ensures l - 1 <= nwts ==>
      done + LeftPoints(q, l, nwts, trf) == done && LeftWalk(q, l, nwts, trf) == l - 1
    ensures l - 1 > nwts && q[l - 1] < trf ==>
      done + LeftPoints(q, l, nwts, trf) == done + [PF.Point(l - 1, q[l - 1])] && LeftWalk(q, l, nwts, trf) == l - 1
    ensures l - 1 > nwts && q[l - 1] >= trf ==>
      && done + LeftPoints(q, l, nwts, trf) == (done + [PF.Point(l - 1, q[l - 1])]) + LeftPoints(q, l - 1, nwts, trf)
      && LeftWalk(q, l, nwts, trf) == LeftWalk(q, l - 1, nwts, trf)
  {
    if l - 1 > nwts && q[l - 1] >= trf {
      assert LeftPoints(q, l, nwts, trf) == [PF.Point(l - 1, q[l - 1])] + LeftPoints(q, l - 1, nwts, trf);
    }
  }

  /** One step of the right walk: what the points and the stop index are after stepping from r. */
  lemma {:induction false} RightStep(done: seq<PF.Point>, q: seq<real>, r: int, cols: int, trf: real)
    requires 0 <= r && cols <= |q|
    ensures r + 1 >= cols - 1 ==>
      done + RightPoints(q, r, cols, trf) == done && RightWalk(q, r, cols, trf) == r + 1
    ensures r + 1 < cols - 1 && q[r + 1] < trf ==>
      done + RightPoints(q, r, cols, trf) == done + [PF.Point(r + 1, q[r + 1])] && RightWalk(q, r, cols, trf) == r + 1
    ensures r + 1 < cols - 1 && q[r + 1] >= trf ==>
      && done + RightPoints(q, r, cols, trf) == (done + [PF.Point(r + 1, q[r + 1])]) + RightPoints(q, r + 1, cols, trf)
      && RightWalk(q, r, cols, trf) == RightWalk(q, r + 1, cols, trf)
  {
    if r + 1 < cols - 1 && q[r + 1] >= trf {
      assert RightPoints(q, r, cols, trf) == [PF.Point(r + 1, q[r + 1])] + RightPoints(q, r + 1, cols, trf);
    }
  }

  /** The left walk of process: accumulate ix - 1, ix - 2, ... until a sample below trf or nwts. */
  method WalkLeft(pfit: PF.ParabFit, q: seq<real>, ix: int, nwts: int, trf: real) returns (l: int)
    requires pfit.Valid() && 0 <= nwts < ix <= |q|
    modifies pfit.xx, pfit.xy, pfit`points
    ensures pfit.Valid()
    ensures l == LeftWalk(q, ix, nwts, trf)
    ensures pfit.points == old(pfit.points) + LeftPoints(q, ix, nwts, trf)
  {
    ghost var base := pfit.points;
    l := ix;
    while true
      invariant nwts < l <= ix && pfit.Valid()
      invariant pfit.points + LeftPoints(q, l, nwts, trf) == base + LeftPoints(q, ix, nwts, trf)
      invariant LeftWalk(q, l, nwts, trf) == LeftWalk(q, ix, nwts, trf)
      decreases l
    {
      LeftStep(pfit.points, q, l, nwts, trf);
      l := l - 1;
      if l <= nwts {
        break;
      }
      pfit.Accum(l, q[l]);
      if q[l] < trf {
        break;
      }
    }
  }

  /** The right walk of process: accumulate ix + 1, ix + 2, ... until a sample below trf or cols - 1. */
  method WalkRight(pfit: PF.ParabFit, q: seq<real>, ix: int, cols: int, trf: real) returns (r: int)
    requires pfit.Valid() && 0 <= ix && cols <= |q|
    modifies pfit.xx, pfit.xy, pfit`points
    ensures pfit.Valid()
    ensures r == RightWalk(q, ix, cols, trf)
    ensures pfit.points == old(pfit.points) + RightPoints(q, ix, cols, trf)
  {
    ghost var base := pfit.points;
    r := ix;
    while true
      invariant ix <= r && pfit.Valid()
      invariant pfit.points + RightPoints(q, r, cols, trf) == base + RightPoints(q, ix, cols, trf)
      invariant RightWalk(q, r, cols, trf) == RightWalk(q, ix, cols, trf)
      decreases cols - r
    {
      RightStep(pfit.points, q, r, cols, trf);
      r := r + 1;
      if r >= cols - 1 {
        break;
      }
      pfit.Accum(r, q[r]);
      if q[r] < trf {
        break;
      }
    }
  }

  /** The half-maximum extension of ix_left. */
  method ExtendLeft(q: seq<real>, l0: int, nwts: int, hm: real) returns (l: int)
    requires 0 <= nwts <= l0 < |q|
    ensures l == HalfLeft(q, l0, nwts, hm)
  {
    l := l0;
    while q[l] > hm && l > nwts
      invariant nwts <= l <= l0
      invariant HalfLeft(q, l, nwts, hm) == HalfLeft(q, l0, nwts, hm)
      decreases l
    {
      l := l - 1;
    }
  }

  /** The half-maximum extension of ix_right. */
  method ExtendRight(q: seq<real>, r0: int, cols: int, hm: real) returns (r: int)
    requires 0 <= r0 < |q| && cols <= |q|
    ensures r == HalfRight(q, r0, cols, hm)
  {
    r := r0;
    while q[r] > hm && r < cols - 1
      invariant r0 <= r < |q|
      invariant HalfRight(q, r, cols, hm) == HalfRight(q, r0, cols, hm)
      decreases cols - r
    {
      r := r + 1;
    }
  }
}
