/**
 * The per-shot feature extraction of service/Fex.cc. A shot's three
 * projections (signal, sideband, reference) are corrected for the
 * sideband, then either teach the reference (a "bykik" shot, whose pump
 * laser is kicked out) or are normalised by it, filtered, searched for
 * peaks, and the highest peak is refined into the reported edge.
 *
 * The state analyze carries from shot to shot is summarised as a Memory
 * value and analyze itself as a relation (Outcome) between the memory
 * before, the memory after and the reported results, so that the
 * imperative Fex class is proved against it.
 */
module Fex {
  import opened Wrappers
  import PR = Projection
  import SB = Sideband
  import SP = Spectrum
  import RC = RefCorr
  import PF = ParabFit
  import FT = Fit
  import FS = FexScan

  /** The settings analyze reads; configure fills them from a file. */
  datatype Settings = Settings(
    eventCodeBykik: nat, eventCodeNoLaser: nat,
    calibP0: real, calibP1: real, calibP2: real,
    projectX: bool, useRef: nat, refFitP1: nat,
    refTop: nat, refBot: nat, refCut: real,
    sigTop: nat, sigBot: nat, sigCut: real,
    sbTop: nat, sbBot: nat,
    specBegin: int, specEnd: int,
    wts: seq<real>)

  /**
   * The lines of the configuration file that go to the components rather
   * than to the settings: sb_convergence, sig_convergence and
   * ref_update_period, each None when the file has no such line.
   */
  datatype Tuning = Tuning(sbConvergence: Option<real>, sigConvergence: Option<real>, refUpdatePeriod: Option<int>)

  /** Everything analyze reads and leaves for the next shot. */
  datatype Memory = Memory(sb: SB.State, sp: SP.State, ref: SP.State, corr: RC.State)

  /**
   * The memory configure leaves: the tuning lines set the convergences
   * and the period (restarting the counter); both spectra fit the ratio
   * exactly when use_ref is 2 and fit p1 exactly when ref_fit_p1 is set;
   * a stored reference becomes the signal reference.
   */
  function Configuration(m: Memory, s: Settings, tune: Tuning, stored: Option<seq<real>>): Memory
  {
    var sp := m.sp.(f1 := if tune.sigConvergence.Some? then tune.sigConvergence.value else m.sp.f1,
                    fitRatio := s.useRef == 2, fitP1 := s.refFitP1 != 0);
    Memory(m.sb.(f1 := if tune.sbConvergence.Some? then tune.sbConvergence.value else m.sb.f1),
           if stored.Some? then sp.(init := true, ref := stored.value) else sp,
           m.ref.(fitRatio := s.useRef == 2, fitP1 := s.refFitP1 != 0),
           if tune.refUpdatePeriod.Some? then m.corr.(n := tune.refUpdatePeriod.value % RC.U32, i := 0) else m.corr)
  }

  /**
   * What a shot reports: the number of fits and the seven result fields;
   * the width is None where the fit's width is not a finite double.
   */
  datatype Results = Results(
    nfits: nat, rawPosition: real, fltPosition: real, fltPositionPs: real,
    fltFwhm: Option<real>, amplitude: real, nxtAmplitude: real, refAmplitude: real)

  /** What reset leaves. */
  const Cleared: Results := Results(0, 0.0, 0.0, 0.0, Some(0.0), 0.0, 0.0, 0.0)

  /** The two fits analyze uses, _fits[0] and _fits[1], which persist from shot to shot. */
  datatype FitPair = FitPair(first: FT.State, second: FT.State)

  /** The calibration polynomial: the time, in picoseconds, of pixel position x. */
  function Calibrated(p0: real, p1: real, p2: real, x: real): real
  {
    p0 + x * p1 + x * x * p2
  }

  /**
   * _flt_center_ps, set at the end of configure: p0 + p1 * (cols >> 1)
   * + p2 * (cols * cols >> 2), the shifts being integer halving and
   * quartering.
   */
  function CenterPs(s: Settings, cols: nat): real
  {
    s.calibP0 + s.calibP1 * (cols / 2) as real + s.calibP2 * (cols * cols / 4) as real
  }

  /** For an even trace length the centre is the calibrated time of the middle pixel. */
  lemma CenterIsMiddle(s: Settings, cols: nat)
    requires cols % 2 == 0
    ensures CenterPs(s, cols) == Calibrated(s.calibP0, s.calibP1, s.calibP2, (cols / 2) as real)
  {
    var h := cols / 2;
    assert cols * cols == 4 * (h * h);
    assert (h as real) * (h as real) == (h * h) as real;
  }

  /** The first filtered index, nwts + spec_begin. */
  function X0(s: Settings): int
  {
    |s.wts| + s.specBegin
  }

  /** The window analyze needs: the filter and the peak scan stay inside the trace. */
  predicate Runnable(s: Settings, cols: nat)
  {
    0 <= s.specBegin && X0(s) < cols && s.specEnd < cols
  }

  /** The traces of the memory have the trace length, which the sideband needs in fours. */
  predicate Shaped(m: Memory, cols: nat)
  {
    |m.sb.avg| == cols && |m.sp.ref| == cols && |m.ref.ref| == cols && SB.GoodCols(cols)
  }

  /** The reference arm after process_ref of the reference trace. */
  function RefLearned(m: Memory, s: Settings, uRef: seq<int>, sbw: seq<real>): SP.State
    requires |m.ref.ref| == |uRef| == |sbw|
  {
    SP.LearnRef(m.ref, SP.Subtract(uRef, sbw), s.refCut)
  }

  /**
   * The memory after the steps that follow the sideband, given its output
   * sbw: a bykik shot teaches the signal reference (and, with use_ref 2,
   * the reference arm and the correlation of the two ratio fits); any
   * other shot teaches only the reference arm, when use_ref is 1 or 2.
   */
  function Learned(m: Memory, s: Settings, uSig: seq<int>, uRef: seq<int>, sbw: seq<real>, bykik: bool): Memory
    requires |m.sp.ref| == |uSig| == |sbw| && |m.ref.ref| == |uRef| == |sbw|
  {
    if bykik then
      var sp := SP.LearnRef(m.sp, SP.Subtract(uSig, sbw), s.sigCut);
      if s.useRef == 2 then
        var rf := RefLearned(m, s, uRef, sbw);
        m.(sp := sp, ref := rf, corr := RC.Accumulated(m.corr, rf.p0, sp.p0, rf.p1, sp.p1))
      else
        m.(sp := sp)
    else if s.useRef == 2 || s.useRef == 1 then
      m.(ref := RefLearned(m, s, uRef, sbw))
    else
      m
  }

  /** The memory after analyze of one shot. */
  function Next(m: Memory, s: Settings, uSig: seq<int>, uSb: seq<int>, uRef: seq<int>, bykik: bool, noLaser: bool): (r: Memory)
    requires Shaped(m, |uSig|) && |uSb| == |uSig| == |uRef|
    ensures Shaped(r, |uSig|)
  {
    if noLaser then m
    else Learned(Sided(m, uSb), s, uSig, uRef, SB.Output(m.sb, uSb), bykik)
  }

  /**
   * The divisor of the normalisation is nonzero wherever it is used: the
   * ratio-scaled signal reference under use_ref 2, the freshly learned
   * reference arm under use_ref 1, the signal reference otherwise.
   */
  predicate DividesFrom(m: Memory, s: Settings, uSig: seq<int>, uRef: seq<int>, sbw: seq<real>)
    requires |m.sp.ref| == |uSig| == |sbw| && |m.ref.ref| == |uRef| == |sbw|
  {
    var v := SP.Subtract(uSig, sbw);
    if s.useRef == 2 then
      var rf := RefLearned(m, s, uRef, sbw);
      SP.ScaleDividable(m.sp.ref, RC.Eval(m.corr.l0, rf.p0), RC.Eval(m.corr.l1, rf.p1))
    else if s.useRef == 1 then
      SP.Dividable(v, RefLearned(m, s, uRef, sbw).ref, s.sigCut)
    else
      SP.Dividable(v, m.sp.ref, s.sigCut)
  }

  /**
   * The normalised signal of a shot that is neither kicked nor dark, given
   * the sideband output sbw; None when no sample passes the signal cut.
   */
  function SignalFrom(m: Memory, s: Settings, uSig: seq<int>, uRef: seq<int>, sbw: seq<real>): (r: Option<seq<real>>)
    requires |m.sp.ref| == |uSig| == |sbw| && |m.ref.ref| == |uRef| == |sbw|
    requires DividesFrom(m, s, uSig, uRef, sbw)
    ensures r.Some? ==> |r.value| == |uSig|
  {
    var v := SP.Subtract(uSig, sbw);
    if !SP.AnyAbove(v, s.sigCut) then None
    else if s.useRef == 2 then
      var rf := RefLearned(m, s, uRef, sbw);
      Some(SP.Scaled(v, m.sp.ref, RC.Eval(m.corr.l0, rf.p0), RC.Eval(m.corr.l1, rf.p1)))
    else if s.useRef == 1 then
      Some(SP.Normalized(v, RefLearned(m, s, uRef, sbw).ref, s.sigCut))
    else
      Some(SP.Normalized(v, m.sp.ref, s.sigCut))
  }

  /**
   * The frame region a projection reads exists and its output fits the
   * buffer of length n: along x, rows lo..hi and the spectrum columns;
   * along y, columns lo..hi and the spectrum rows.
   */
  predicate Framed(s: Settings, frame: seq<seq<int>>, width: nat, lo: nat, hi: nat, n: nat)
  {
    && PR.IsFrame(frame, width) && 0 <= s.specBegin && 0 <= s.specEnd
    && if s.projectX then lo < |frame| && hi < |frame| && s.specEnd < width <= n && s.specBegin <= n
       else hi < width && (s.specBegin <= s.specEnd ==> s.specEnd < |frame| && s.specEnd < n)
  }

  /**
   * The buffer holding prev after the projection analyze of a frame makes:
   * project_spectrumX over rows lo..hi when project_x is set, otherwise
   * project_spectrumY over columns lo..hi; the spectrum window
   * spec_begin..spec_end is the other range in both.
   */
  function Projected(s: Settings, frame: seq<seq<int>>, width: nat, lo: nat, hi: nat, prev: seq<int>): (r: seq<int>)
    requires Framed(s, frame, width, lo, hi, |prev|)
    ensures |r| == |prev|
  {
    if s.projectX then PR.XTrace(frame, width, lo, hi, s.specBegin as nat, s.specEnd as nat, prev)
    else PR.YTrace(frame, width, lo, hi, s.specBegin as nat, s.specEnd as nat, prev)
  }

  /** The three regions of the frame fit the buffers of length n. */
  predicate Fits(s: Settings, frame: seq<seq<int>>, width: nat, n: nat)
  {
    && Framed(s, frame, width, s.sigTop, s.sigBot, n) && Framed(s, frame, width, s.sbTop, s.sbBot, n)
    && (s.useRef != 0 ==> Framed(s, frame, width, s.refTop, s.refBot, n))
  }

  /**
   * The signal, sideband and reference buffers after the projections of
   * analyze of a frame, from their contents before: the reference region
   * is projected only when use_ref is set.
   */
  function Traces(s: Settings, frame: seq<seq<int>>, width: nat, sig: seq<int>, sb: seq<int>, rf: seq<int>): (r: (seq<int>, seq<int>, seq<int>))
    requires |sig| == |sb| == |rf| && Fits(s, frame, width, |sig|)
    ensures |r.0| == |r.1| == |r.2| == |sig|
  {
    (Projected(s, frame, width, s.sigTop, s.sigBot, sig),
     Projected(s, frame, width, s.sbTop, s.sbBot, sb),
     if s.useRef != 0 then Projected(s, frame, width, s.refTop, s.refBot, rf) else rf)
  }

  /** One projection of analyze of a frame into buf. */
  method Project(s: Settings, frame: seq<seq<int>>, width: nat, lo: nat, hi: nat, buf: array<int>)
    requires Framed(s, frame, width, lo, hi, buf.Length)
    modifies buf
    ensures buf[..] == Projected(s, frame, width, lo, hi, old(buf[..]))
  {
    if s.projectX {
      PR.ProjectX(frame, width, lo, hi, s.specBegin as nat, s.specEnd as nat, buf);
    } else {
      PR.ProjectY(frame, width, lo, hi, s.specBegin as nat, s.specEnd as nat, buf);
    }
  }

  /** The sideband step of analyze: the sideband learns the shot's sideband trace. */
  function Sided(m: Memory, uSb: seq<int>): (r: Memory)
    requires |uSb| == |m.sb.avg| && SB.GoodCols(|uSb|)
    ensures r.sp == m.sp && r.ref == m.ref && r.corr == m.corr
  {
    m.(sb := SB.Learn(m.sb, uSb))
  }

  predicate Divides(m: Memory, s: Settings, uSig: seq<int>, uSb: seq<int>, uRef: seq<int>)
    requires Shaped(m, |uSig|) && |uSb| == |uSig| == |uRef|
  {
    DividesFrom(Sided(m, uSb), s, uSig, uRef, SB.Output(m.sb, uSb))
  }

  function Signal(m: Memory, s: Settings, uSig: seq<int>, uSb: seq<int>, uRef: seq<int>): (r: Option<seq<real>>)
    requires Shaped(m, |uSig|) && |uSb| == |uSig| == |uRef|
    requires Divides(m, s, uSig, uSb, uRef)
    ensures r.Some? ==> |r.value| == |uSig|
  {
    SignalFrom(Sided(m, uSb), s, uSig, uRef, SB.Output(m.sb, uSb))
  }

  /** What the result assignment reads of the filtered trace and the peak list: the first two peaks. */
  predicate Reportable(s: Settings, q: seq<real>, peaks: seq<nat>)
  {
    && 0 <= s.specBegin && s.specEnd < |q|
    && |peaks| <= FS.MaxFits
    && (|peaks| > 0 ==> FS.Found(q, peaks[0], X0(s), s.specEnd))
    && (|peaks| > 1 ==> FS.Found(q, peaks[1], X0(s), s.specEnd))
  }

  /** The filtered trace and the peak list the peak search returns for it. */
  predicate Assignable(s: Settings, q: seq<real>, peaks: seq<nat>)
  {
    && 0 <= s.specBegin && X0(s) < |q| <= 0x8000 && s.specEnd < |q|
    && peaks == FS.Peaks(q, X0(s), s.specEnd)
    && FS.PeakList(q, peaks, X0(s), s.specEnd)
  }

  /** The result assignment can read the first two peaks of the search. */
  lemma AssignableIsReportable(s: Settings, q: seq<real>, peaks: seq<nat>)
    requires Assignable(s, q, peaks)
    ensures Reportable(s, q, peaks)
  {
    if |peaks| > 1 {
      assert FS.Found(q, peaks[1], X0(s), s.specEnd);
    }
  }

  /**
   * The fits after the result assignment: the first fit processes the
   * highest peak and, when its flag then reads valid and there is a second
   * peak, the second fit processes that one.
   */
  function Refitted(f: FitPair, s: Settings, q: seq<real>, peaks: seq<nat>): FitPair
    requires Reportable(s, q, peaks)
  {
    if |peaks| == 0 then f
    else
      FS.FoundIsGood(q, peaks[0], X0(s), s.specEnd, |s.wts|);
      var a := FT.Processed(f.first, q, peaks[0], |s.wts|, |q|);
      if a.valid && |peaks| > 1 then
        FS.FoundIsGood(q, peaks[1], X0(s), s.specEnd, |s.wts|);
        FitPair(a, FT.Processed(f.second, q, peaks[1], |s.wts|, |q|))
      else
        FitPair(a, f.second)
  }

  /**
   * The results assembled from the peak list and the fits f after the
   * assignment, read against the memory after the shot: no peak reports
   * nothing but next_amplitude -1; otherwise the highest peak's index is
   * the raw position and, when the first fit reads valid, its position
   * gives position and calibrated time, its amplitude and width are
   * reported, the reference gives the reference amplitude, and the second
   * fit, when it reads valid, the next amplitude.
   */
  function Report(m: Memory, s: Settings, q: seq<real>, peaks: seq<nat>, f: FitPair): (r: Results)
    requires Reportable(s, q, peaks) && |m.sp.ref| == |q| && |m.ref.ref| == |q|
    ensures r.nfits == |peaks| && (|peaks| == 0 ==> r == Cleared.(nxtAmplitude := -1.0))
    ensures |peaks| > 0 && !f.first.valid ==> r == Cleared.(nfits := |peaks|, rawPosition := FS.Index(peaks[0]) as real, nxtAmplitude := -1.0)
    ensures |peaks| > 0 && f.first.valid ==>
      && r.rawPosition == FS.Index(peaks[0]) as real
      && r.fltPosition == f.first.position && r.amplitude == f.first.amplitude && r.fltFwhm == f.first.fwhm
      && r.fltPositionPs == Calibrated(s.calibP0, s.calibP1, s.calibP2, f.first.position)
      && (r.nxtAmplitude == -1.0 || (|peaks| > 1 && f.second.valid && r.nxtAmplitude == f.second.amplitude))
  {
    if |peaks| == 0 then Results(0, 0.0, 0.0, 0.0, Some(0.0), 0.0, -1.0, 0.0)
    else
      var ix := FS.Index(peaks[0]);
      if !f.first.valid then Results(|peaks|, ix as real, 0.0, 0.0, Some(0.0), 0.0, -1.0, 0.0)
      else
        var x := f.first.position;
        Results(|peaks|, ix as real, x, Calibrated(s.calibP0, s.calibP1, s.calibP2, x), f.first.fwhm, f.first.amplitude,
                if |peaks| > 1 && f.second.valid then f.second.amplitude else -1.0,
                if s.useRef != 0 then m.ref.ref[ix] else m.sp.ref[ix])
  }

  /**
   * The intended refinement of the peak recorded as word: with a fit that
   * reports this peak alone, its vertex, the peak value of its parabola
   * and the interpolated width at half maximum, or None when the parabola
   * is rejected.
   */
  function Refined(s: Settings, q: seq<real>, word: nat): Option<(real, real, real)>
    requires 0 <= s.specBegin && s.specEnd < |q| && FS.Found(q, word, X0(s), s.specEnd)
  {
    FS.FoundIsGood(q, word, X0(s), s.specEnd, |s.wts|);
    var ix := FS.Index(word);
    var pts := FT.FitPoints(q, ix, |s.wts|, |q|);
    if !FT.Accepted(pts) then None
    else
      var k := PF.Solve(PF.SumsOf(pts));
      var e := FT.HalfEnds(q, ix, |s.wts|, |q|);
      Some((PF.Vertex(k), PF.Peak(k), FT.Fwhm(q, e.0, e.1, 0.5 * q[ix])))
  }

  /**
   * The fit as the source runs it agrees with the intended refinement on
   * the vertex when its flag was clear before: it reads valid exactly when
   * the refinement exists, and then holds the same position and amplitude.
   */
  lemma ProcessedIsRefinedWhenCleared(s: Settings, q: seq<real>, word: nat, f: FT.State)
    requires 0 <= s.specBegin && s.specEnd < |q| && FS.Found(q, word, X0(s), s.specEnd) && !f.valid
    ensures FS.Index(word) < |q| && FT.GoodPeak(q, FT.Index(word), |s.wts|, |q|)
    ensures var g := FT.Processed(f, q, word, |s.wts|, |q|);
      && (g.valid <==> Refined(s, q, word).Some?)
      && (g.valid ==> Refined(s, q, word).value.0 == g.position && Refined(s, q, word).value.1 == g.amplitude)
  {
    FS.FoundIsGood(q, word, X0(s), s.specEnd, |s.wts|);
    FT.ClearedFlagIsAccepted(f, q, word, |s.wts|, |q|);
  }

  /**
   * A fit left valid by an earlier shot, on a peak whose parabola is
   * rejected: the intended refinement has no vertex, yet the fit still
   * reads valid and the shot reports the earlier shot's position,
   * calibrated time and amplitude.
   */
  lemma StaleLead(m: Memory, s: Settings, q: seq<real>, peaks: seq<nat>, f: FitPair)
    requires Reportable(s, q, peaks) && |m.sp.ref| == |q| && |m.ref.ref| == |q|
    requires |peaks| > 0 && f.first.valid
    requires Refined(s, q, peaks[0]).None?
    ensures var r := Report(m, s, q, peaks, Refitted(f, s, q, peaks));
      && r.fltPosition == f.first.position && r.amplitude == f.first.amplitude
      && r.fltPositionPs == Calibrated(s.calibP0, s.calibP1, s.calibP2, f.first.position)
  {
    FS.FoundIsGood(q, peaks[0], X0(s), s.specEnd, |s.wts|);
  }

  /** The results of a shot whose filtered trace is q and whose peak list is peaks, from the fits f before. */
  function Reported(m: Memory, s: Settings, q: seq<real>, peaks: seq<nat>, f: FitPair): Results
    requires Reportable(s, q, peaks) && |m.sp.ref| == |q| && |m.ref.ref| == |q|
  {
    Report(m, s, q, peaks, Refitted(f, s, q, peaks))
  }

  /** The precondition of analyze on values. */
  predicate Admissible(m: Memory, s: Settings, uSig: seq<int>, uSb: seq<int>, uRef: seq<int>, bykik: bool, noLaser: bool)
  {
    && Shaped(m, |uSig|) && |uSb| == |uSig| == |uRef| && Runnable(s, |uSig|)
    && (!noLaser && !bykik ==> Divides(m, s, uSig, uSb, uRef))
  }

  /**
   * analyze, as a relation between the memory and fits before (m0, f0)
   * and after (m1, f1), the results out, and the filtered trace q and
   * peak list it worked on. A dark (no_laser) or bykik shot, and a shot
   * with no sample above the signal cut, report nothing and leave the
   * fits alone; any other shot filters its normalised signal into q,
   * keeps a peak list of q, refits and reports from it.
   */
  predicate Outcome(m0: Memory, m1: Memory, f0: FitPair, f1: FitPair, s: Settings, uSig: seq<int>, uSb: seq<int>, uRef: seq<int>,
                    bykik: bool, noLaser: bool, out: Results, q: seq<real>, peaks: seq<nat>)
    requires Admissible(m0, s, uSig, uSb, uRef, bykik, noLaser)
  {
    && m1 == Next(m0, s, uSig, uSb, uRef, bykik, noLaser)
    && (noLaser || bykik ==> out == Cleared && f1 == f0)
    && (!noLaser && !bykik ==> Followed(Sided(m0, uSb), m1, f0, f1, s, uSig, uRef, SB.Output(m0.sb, uSb), out, q, peaks))
  }

  /**
   * The steps of analyze after the sideband step of a shot that is neither
   * dark nor kicked, from the memory m1, the fits f1 and the sideband
   * output sbw: the memory becomes m2 and the fits f2; a signal with no
   * sample above the cut reports nothing; otherwise the normalised signal
   * is filtered into q, q keeps the peak list peaks, the fits process its
   * peaks and the results are reported from them.
   */
  predicate Followed(m1: Memory, m2: Memory, f1: FitPair, f2: FitPair, s: Settings, uSig: seq<int>, uRef: seq<int>, sbw: seq<real>,
                     out: Results, q: seq<real>, peaks: seq<nat>)
    requires |m1.sp.ref| == |uSig| == |sbw| && |m1.ref.ref| == |uRef| == |sbw| && Runnable(s, |uSig|)
    requires DividesFrom(m1, s, uSig, uRef, sbw)
  {
    && m2 == Learned(m1, s, uSig, uRef, sbw, false)
    && var sig := SignalFrom(m1, s, uSig, uRef, sbw);
       if sig.None? then out == Cleared && f2 == f1
       else
         && q == FS.FirTrace(sig.value, s.wts, s.specBegin, s.specEnd)
         && Assignable(s, q, peaks)
         && (AssignableIsReportable(s, q, peaks);
             f2 == Refitted(f1, s, q, peaks) && out == Report(m2, s, q, peaks, f2))
  }

  /**
   * status() is true exactly when a peak was found, that is exactly when
   * the filtered window holds a positive sample with a sample below half
   * of it on each side; the raw position is then the highest peak of the
   * filtered trace, strictly inside the window (X0, specEnd), and at most
   * MaxFits peaks are counted.
   */
  lemma ReportedPeak(m: Memory, s: Settings, q: seq<real>, peaks: seq<nat>, f: FitPair)
    requires Assignable(s, q, peaks) && |m.sp.ref| == |q| && |m.ref.ref| == |q|
    ensures var r := Reported(m, s, q, peaks, f);
      && r.nfits == |peaks| <= FS.MaxFits
      && (r.nfits > 0 <==> FS.RiseAndFall(q, X0(s), s.specEnd))
      && (r.nfits > 0 ==>
            && r.rawPosition == FS.Index(peaks[0]) as real
            && X0(s) < FS.Index(peaks[0]) < s.specEnd
            && forall k :: 0 <= k < |peaks| ==> q[FS.Index(peaks[k])] <= q[FS.Index(peaks[0])])
  {
    FS.PeaksNonEmptyIff(q, X0(s), s.specEnd);
    if |peaks| > 0 {
      assert FS.Found(q, peaks[0], X0(s), s.specEnd);
      forall k | 0 <= k < |peaks|
        ensures q[FS.Index(peaks[k])] <= q[FS.Index(peaks[0])]
      {
        if k > 0 {
          assert FS.Amp(q, peaks[0]) >= FS.Amp(q, peaks[k]);
        }
      }
    }
  }

  /** The filtered trace of an all-zero signal is all zeros. */
  lemma {:induction false} FirOfZeros(sig: seq<real>, wts: seq<real>, specBegin: int, specEnd: int)
    requires 0 <= specBegin
    requires forall k :: 0 <= k < |sig| ==> sig[k] == 0.0
    ensures forall k :: 0 <= k < |sig| ==> FS.FirTrace(sig, wts, specBegin, specEnd)[k] == 0.0
  {
    forall k | 0 <= k < |sig|
      ensures FS.FirTrace(sig, wts, specBegin, specEnd)[k] == 0.0
    {
      if |wts| + specBegin <= k <= specEnd {
        FS.FirFlat(sig, wts, k, |wts|, 0.0);
      }
    }
  }

  /**
   * A signal shot identical to the learned signal reference (use_ref 0,
   * a cut of at least 0) normalises to zeros and finds no edge: nothing
   * is fitted and status() is false.
   */
  lemma ReferenceShotHasNoEdge(m0: Memory, m1: Memory, f0: FitPair, f1: FitPair, s: Settings, uSig: seq<int>, uSb: seq<int>, uRef: seq<int>,
                               out: Results, q: seq<real>, peaks: seq<nat>)
    requires Admissible(m0, s, uSig, uSb, uRef, false, false)
    requires s.useRef == 0 && 0.0 <= s.sigCut
    requires m0.sp.ref == SP.Subtract(uSig, SB.Output(m0.sb, uSb))
    requires Outcome(m0, m1, f0, f1, s, uSig, uSb, uRef, false, false, out, q, peaks)
    ensures out.nfits == 0
  {
    var v := SP.Subtract(uSig, SB.Output(m0.sb, uSb));
    SP.NormalizedOfReference(v, s.sigCut);
    var sig := Signal(m0, s, uSig, uSb, uRef);
    if sig.Some? {
      assert sig.value == SP.Normalized(v, v, s.sigCut);
      FirOfZeros(sig.value, s.wts, s.specBegin, s.specEnd);
      FlatHasNoPeak(s, q, peaks);
    }
  }

  /** A filtered trace with no positive sample has no peak. */
  lemma FlatHasNoPeak(s: Settings, q: seq<real>, peaks: seq<nat>)
    requires Assignable(s, q, peaks) && forall k :: 0 <= k < |q| ==> q[k] == 0.0
    ensures peaks == []
  {
    FS.PeaksNonEmptyIff(q, X0(s), s.specEnd);
  }

  /** The signal reference only learns from bykik shots; dark shots change nothing. */
  lemma {:induction false} OnlyKicksTeachSignal(m: Memory, s: Settings, uSig: seq<int>, uSb: seq<int>, uRef: seq<int>, bykik: bool, noLaser: bool)
    requires Shaped(m, |uSig|) && |uSb| == |uSig| == |uRef|
    ensures noLaser ==> Next(m, s, uSig, uSb, uRef, bykik, noLaser) == m
    ensures !bykik ==> Next(m, s, uSig, uSb, uRef, bykik, noLaser).sp == m.sp
    ensures !bykik && s.useRef != 1 && s.useRef != 2 ==> Next(m, s, uSig, uSb, uRef, bykik, noLaser).ref == m.ref
    ensures !(bykik && s.useRef == 2) ==> Next(m, s, uSig, uSb, uRef, bykik, noLaser).corr == m.corr
  {
  }

  class Fex {
    const cfg: Settings
    /** the trace length (the camera's column count) */
    const cols: nat
    /** the projection buffers sig, sb and ref */
    const sigBuf: array<int>
    const sbBuf: array<int>
    const refBuf: array<int>
    const sideband: SB.Sideband
    /** the signal spectrum (_sp) and the reference arm (_ref) */
    const spectrum: SP.Spectrum
    const reference: SP.Spectrum
    const refCorr: RC.RefCorr
    /** _fits[0] and _fits[1], the two of the MaxFits fits analyze uses */
    const first: FT.Fit
    const second: FT.Fit
    var nfits: nat
    var rawPosition: real
    var fltPosition: real
    var fltPositionPs: real
    var fltFwhm: Option<real>
    var amplitude: real
    var nxtAmplitude: real
    var refAmplitude: real

    /** The counter of the correlation is in range, and the parts fit together. */
    ghost predicate Valid()
      reads refCorr
    {
      Apart() && refCorr.Valid()
    }

    /**
     * The parts have the trace length and the traces of different parts
     * are different arrays.
     */
    ghost predicate Apart()
    {
      && SB.GoodCols(cols) && cols <= 0x8000
      && sigBuf.Length == cols && sbBuf.Length == cols && refBuf.Length == cols
      && sigBuf != sbBuf && sigBuf != refBuf && sbBuf != refBuf
      && sideband.Valid() && sideband.cols == cols
      && spectrum.Valid() && spectrum.cols == cols && reference.Valid() && reference.cols == cols
      && spectrum != reference && spectrum.ratioFit != reference.ratioFit
      && refCorr.fit0 != refCorr.fit1 && refCorr.fit0.Valid() && refCorr.fit1.Valid()
      && refCorr.p0p.Length == 2 && refCorr.p1p.Length == 2
      && first != second
      && sideband.wf != spectrum.wf && sideband.wf != spectrum.ref
      && sideband.avg != spectrum.wf && sideband.avg != spectrum.ref
      && sideband.wf != reference.wf && sideband.wf != reference.ref
      && sideband.avg != reference.wf && sideband.avg != reference.ref
      && sideband.wf != refCorr.fit0.p && sideband.wf != refCorr.fit1.p && sideband.wf != refCorr.p0p && sideband.wf != refCorr.p1p
      && sideband.avg != refCorr.fit0.p && sideband.avg != refCorr.fit1.p && sideband.avg != refCorr.p0p && sideband.avg != refCorr.p1p
      && spectrum.wf != reference.wf && spectrum.wf != reference.ref
      && spectrum.ref != reference.wf && spectrum.ref != reference.ref
      && spectrum.wf != refCorr.fit0.p && spectrum.wf != refCorr.fit1.p && spectrum.wf != refCorr.p0p && spectrum.wf != refCorr.p1p
      && spectrum.ref != refCorr.fit0.p && spectrum.ref != refCorr.fit1.p && spectrum.ref != refCorr.p0p && spectrum.ref != refCorr.p1p
      && reference.wf != refCorr.fit0.p && reference.wf != refCorr.fit1.p && reference.wf != refCorr.p0p && reference.wf != refCorr.p1p
      && reference.ref != refCorr.fit0.p && reference.ref != refCorr.fit1.p && reference.ref != refCorr.p0p && reference.ref != refCorr.p1p
    }

    /** Every object analyze may change. */
    ghost function Repr(): set<object>
    {
      {this, sideband, sideband.wf, sideband.avg,
       spectrum, spectrum.wf, spectrum.ref, spectrum.ratioFit,
       reference, reference.wf, reference.ref, reference.ratioFit,
       refCorr, refCorr.fit0, refCorr.fit1, refCorr.fit0.p, refCorr.fit1.p, refCorr.p0p, refCorr.p1p,
       first, second}
    }

    /** The memory analyze carries from shot to shot. */
    function Mem(): Memory
      reads sideband, sideband.avg, spectrum, spectrum.ref, spectrum.ratioFit
      reads reference, reference.ref, reference.ratioFit, refCorr, refCorr.fit0, refCorr.fit1, refCorr.p0p, refCorr.p1p
      requires refCorr.Valid()
    {
      Memory(sideband.Snapshot(), spectrum.Snapshot(), reference.Snapshot(), refCorr.Snapshot())
    }

    /** The two fits analyze uses, as values. */
    function FitsOf(): FitPair
      reads first, second
    {
      FitPair(first.Snapshot(), second.Snapshot())
    }

    function Outputs(): Results
      reads this
    {
      Results(nfits, rawPosition, fltPosition, fltPositionPs, fltFwhm, amplitude, nxtAmplitude, refAmplitude)
    }

    /** filtered_pos_adj(): the calibrated position relative to the centre configure computed. */
    function FilteredPosAdj(): real
      reads this
    {
      fltPositionPs - CenterPs(cfg, cols)
    }

    /** status(): some peak was found. */
    function Status(): bool
      reads this
    {
      nfits > 0
    }

    /**
     * A new Fex: bykik event code 162, no-laser code 0, a zero calibration,
     * no reference arm, zero cuts and no filter weights; the sideband,
     * both spectra and the correlation start as their constructors leave them.
     */
    constructor Init(cols: nat)
      requires SB.GoodCols(cols) && cols <= 0x8000
      ensures Valid() && this.cols == cols
      ensures cfg.eventCodeBykik == 162 && cfg.eventCodeNoLaser == 0
      ensures cfg.calibP0 == 0.0 && cfg.calibP1 == 0.0 && cfg.calibP2 == 0.0
      ensures cfg.useRef == 0 && cfg.refCut == 0.0 && cfg.sigCut == 0.0 && cfg.wts == []
      ensures !Mem().sb.init && !Mem().sp.init && !Mem().ref.init
      ensures Mem().sp.ref == seq(cols, k => 1.0) && Mem().ref.ref == seq(cols, k => 1.0)
    {
      this.cols := cols;
      this.cfg := Settings(162, 0, 0.0, 0.0, 0.0, false, 0, 0, 0, 0, 0.0, 0, 0, 0.0, 0, 0, 0, 0, []);
      sigBuf := new int[cols];
      sbBuf := new int[cols];
      refBuf := new int[cols];
      sideband := new SB.Sideband(cols);
      spectrum := new SP.Spectrum(cols);
      reference := new SP.Spectrum(cols);
      refCorr := new RC.RefCorr();
      first := new FT.Fit();
      second := new FT.Fit();
      nfits := 0;
      rawPosition, fltPosition, fltPositionPs, fltFwhm := 0.0, 0.0, 0.0, Some(0.0);
      amplitude, nxtAmplitude, refAmplitude := 0.0, 0.0, 0.0;
    }


    /**
     * A new Fex after configure found its file: the settings are those the
     * file gave, the sideband's and the signal spectrum's convergences and
     * the correlation's period are set as the tuning lines say; then both
     * spectra fit the reference ratio exactly when use_ref is 2, both ratio
     * fits fit p1 exactly when ref_fit_p1 is set, and the signal spectrum
     * loads the stored reference when that file opens (stored is None
     * otherwise). The reference arm keeps its constructor state.
     */
    constructor Configured(cols: nat, cfg: Settings, tune: Tuning, stored: Option<seq<real>>)
      requires SB.GoodCols(cols) && cols <= 0x8000
      requires stored.Some? ==> |stored.value| == cols
      ensures Valid() && this.cols == cols && this.cfg == cfg
      ensures Mem().sb.f1 == (if tune.sbConvergence.Some? then tune.sbConvergence.value else 0.05) && !Mem().sb.init
      ensures Mem().sp.f1 == (if tune.sigConvergence.Some? then tune.sigConvergence.value else 0.25)
      ensures Mem().ref.f1 == 0.25
      ensures Mem().sp.fitRatio == Mem().ref.fitRatio == (cfg.useRef == 2)
      ensures Mem().sp.fitP1 == Mem().ref.fitP1 == (cfg.refFitP1 != 0)
      ensures Mem().sp.init == stored.Some? && !Mem().ref.init
      ensures Mem().sp.ref == (if stored.Some? then stored.value else seq(cols, k => 1.0))
      ensures Mem().ref.ref == seq(cols, k => 1.0)
      ensures Mem().corr.n == (if tune.refUpdatePeriod.Some? then tune.refUpdatePeriod.value % RC.U32 else 10)
      ensures Mem().corr.i == 0
    {
      this.cols := cols;
      this.cfg := cfg;
      sigBuf := new int[cols];
      sbBuf := new int[cols];
      refBuf := new int[cols];
      sideband := new SB.Sideband(cols);
      spectrum := new SP.Spectrum(cols);
      reference := new SP.Spectrum(cols);
      refCorr := new RC.RefCorr();
      first := new FT.Fit();
      second := new FT.Fit();
      nfits := 0;
      rawPosition, fltPosition, fltPositionPs, fltFwhm := 0.0, 0.0, 0.0, Some(0.0);
      amplitude, nxtAmplitude, refAmplitude := 0.0, 0.0, 0.0;
      new;
      Configure(tune, stored);
    }

    /** The tail of configure once the settings are read. */
    method Configure(tune: Tuning, stored: Option<seq<real>>)
      requires Valid() && (stored.Some? ==> |stored.value| == cols)
      modifies sideband`f1, spectrum`f1, refCorr`n, refCorr`i
      modifies spectrum`fitRatio, spectrum.ratioFit`fitP1, reference`fitRatio, reference.ratioFit`fitP1
      modifies spectrum.ref, spectrum`init
      ensures Valid() && Mem() == Configuration(old(Mem()), cfg, tune, stored)
    {
      Adjust(tune);
      Equip(stored);
    }

    /** The tuning lines of configure. */
    method Adjust(tune: Tuning)
      requires Valid()
      modifies sideband`f1, spectrum`f1, refCorr`n, refCorr`i
      ensures Valid()
      ensures var m := old(Mem());
        Mem() == m.(sb := m.sb.(f1 := if tune.sbConvergence.Some? then tune.sbConvergence.value else m.sb.f1),
                    sp := m.sp.(f1 := if tune.sigConvergence.Some? then tune.sigConvergence.value else m.sp.f1),
                    corr := if tune.refUpdatePeriod.Some? then m.corr.(n := tune.refUpdatePeriod.value % RC.U32, i := 0) else m.corr)
    {
      Tune(tune);
      Period(tune.refUpdatePeriod);
    }

    /** The ratio-fit switches and the stored reference of configure. */
    method Equip(stored: Option<seq<real>>)
      requires Valid() && (stored.Some? ==> |stored.value| == cols)
      modifies spectrum`fitRatio, spectrum.ratioFit`fitP1, reference`fitRatio, reference.ratioFit`fitP1
      modifies spectrum.ref, spectrum`init
      ensures Valid()
      ensures var m := old(Mem());
        var sp := m.sp.(fitRatio := cfg.useRef == 2, fitP1 := cfg.refFitP1 != 0);
        Mem() == m.(sp := if stored.Some? then sp.(init := true, ref := stored.value) else sp,
                    ref := m.ref.(fitRatio := cfg.useRef == 2, fitP1 := cfg.refFitP1 != 0))
    {
      Arm();
      Load(stored);
    }

    /** The convergence lines of configure: sb_convergence for the sideband, sig_convergence for the signal spectrum. */
    method Tune(tune: Tuning)
      requires Valid()
      modifies sideband`f1, spectrum`f1
      ensures Valid()
      ensures var m := old(Mem());
        Mem() == m.(sb := m.sb.(f1 := if tune.sbConvergence.Some? then tune.sbConvergence.value else m.sb.f1),
                    sp := m.sp.(f1 := if tune.sigConvergence.Some? then tune.sigConvergence.value else m.sp.f1))
    {
      if tune.sbConvergence.Some? {
        sideband.SetConvergence(tune.sbConvergence.value);
      }
      if tune.sigConvergence.Some? {
        spectrum.SetConvergence(tune.sigConvergence.value);
      }
    }

    /** The ref_update_period line of configure: the correlation's period, restarting its counter. */
    method Period(period: Option<int>)
      requires Valid()
      modifies refCorr`n, refCorr`i
      ensures Valid()
      ensures var m := old(Mem());
        Mem() == if period.Some? then m.(corr := m.corr.(n := period.value % RC.U32, i := 0)) else m
    {
      if period.Some? {
        refCorr.SetPeriod(period.value);
      }
    }

    /** After the file: both spectra fit the ratio when use_ref is 2, and both ratio fits fit p1 when ref_fit_p1 is set. */
    method Arm()
      requires Valid()
      modifies spectrum`fitRatio, spectrum.ratioFit`fitP1, reference`fitRatio, reference.ratioFit`fitP1
      ensures Valid()
      ensures var m := old(Mem());
        Mem() == m.(sp := m.sp.(fitRatio := cfg.useRef == 2, fitP1 := cfg.refFitP1 != 0),
                    ref := m.ref.(fitRatio := cfg.useRef == 2, fitP1 := cfg.refFitP1 != 0))
    {
      spectrum.FitRatio(cfg.useRef == 2);
      spectrum.ratioFit.SetFitP1(cfg.refFitP1 != 0);
      reference.FitRatio(cfg.useRef == 2);
      reference.ratioFit.SetFitP1(cfg.refFitP1 != 0);
    }

    /** load_ref of the signal spectrum from the stored reference, None when its file does not open. */
    method Load(stored: Option<seq<real>>)
      requires Valid() && (stored.Some? ==> |stored.value| == cols)
      modifies spectrum.ref, spectrum`init
      ensures Valid()
      ensures var m := old(Mem());
        Mem() == if stored.Some? then m.(sp := m.sp.(init := true, ref := stored.value)) else m
    {
      spectrum.LoadRef(stored);
    }

    /** reset: no fits and every result 0. */
    method Reset()
      modifies this`nfits, this`rawPosition, this`fltPosition, this`fltPositionPs
      modifies this`fltFwhm, this`amplitude, this`nxtAmplitude, this`refAmplitude
      ensures Outputs() == Cleared
    {
      nfits := 0;
      amplitude, rawPosition, fltPosition, fltPositionPs := 0.0, 0.0, 0.0, 0.0;
      fltFwhm, nxtAmplitude, refAmplitude := Some(0.0), 0.0, 0.0;
    }

    /**
     * analyze of three projected traces: reset, then nothing more on a
     * dark shot; otherwise correct the sideband and either learn from a
     * bykik shot or normalise, filter, find peaks and assign the results.
     * q and peaks are the filtered trace and the peak list of the shot.
     */
    method Analyze(uSig: seq<int>, uSb: seq<int>, uRef: seq<int>, bykik: bool, noLaser: bool)
      returns (ghost q: seq<real>, ghost peaks: seq<nat>)
      requires Valid() && |uSig| == cols && |uSb| == cols && |uRef| == cols
      requires Admissible(Mem(), cfg, uSig, uSb, uRef, bykik, noLaser)
      modifies Repr()
      ensures Valid()
      ensures Outcome(old(Mem()), Mem(), old(FitsOf()), FitsOf(), cfg, uSig, uSb, uRef, bykik, noLaser, Outputs(), q, peaks)
    {
      q, peaks := [], [];
      if noLaser {
        Reset();
      } else if bykik {
        Reset();
        var sbw := CorrectSideband(uSb);
        Kicked(uSig, uRef, sbw);
      } else {
        q, peaks := Shot(uSig, uSb, uRef);
      }
    }

    /**
     * analyze of a camera frame: project the signal and sideband regions
     * (and the reference region when use_ref is set) into their buffers,
     * then analyze the three buffers; without use_ref the reference
     * buffer keeps what it held.
     */
    method AnalyzeFrame(frame: seq<seq<int>>, width: nat, bykik: bool, noLaser: bool)
      returns (ghost q: seq<real>, ghost peaks: seq<nat>)
      requires Valid() && Fits(cfg, frame, width, cols)
      requires var t := Traces(cfg, frame, width, sigBuf[..], sbBuf[..], refBuf[..]);
        Admissible(Mem(), cfg, t.0, t.1, t.2, bykik, noLaser)
      modifies Repr(), sigBuf, sbBuf, refBuf
      ensures Valid()
      ensures var t := Traces(cfg, frame, width, old(sigBuf[..]), old(sbBuf[..]), old(refBuf[..]));
        Outcome(old(Mem()), Mem(), old(FitsOf()), FitsOf(), cfg, t.0, t.1, t.2, bykik, noLaser, Outputs(), q, peaks)
    {
      ghost var t := Traces(cfg, frame, width, sigBuf[..], sbBuf[..], refBuf[..]);
      ProjectAll(frame, width);
      var sig, sb, rf := sigBuf[..], sbBuf[..], refBuf[..];
      q, peaks := Analyze(sig, sb, rf, bykik, noLaser);
    }

    /** The projections of analyze of a frame. */
    method ProjectAll(frame: seq<seq<int>>, width: nat)
      requires Valid() && Fits(cfg, frame, width, cols)
      modifies sigBuf, sbBuf, refBuf
      ensures (sigBuf[..], sbBuf[..], refBuf[..]) == Traces(cfg, frame, width, old(sigBuf[..]), old(sbBuf[..]), old(refBuf[..]))
      ensures Valid() && Mem() == old(Mem())
    {
      Project(cfg, frame, width, cfg.sigTop, cfg.sigBot, sigBuf);
      Project(cfg, frame, width, cfg.sbTop, cfg.sbBot, sbBuf);
      if cfg.useRef != 0 {
        Project(cfg, frame, width, cfg.refTop, cfg.refBot, refBuf);
      }
    }

    /** analyze of a shot that is neither dark nor kicked. */
    method Shot(uSig: seq<int>, uSb: seq<int>, uRef: seq<int>) returns (ghost q: seq<real>, ghost peaks: seq<nat>)
      requires Valid() && |uSig| == cols && |uSb| == cols && |uRef| == cols
      requires Admissible(Mem(), cfg, uSig, uSb, uRef, false, false)
      modifies Repr()
      ensures Valid()
      ensures Outcome(old(Mem()), Mem(), old(FitsOf()), FitsOf(), cfg, uSig, uSb, uRef, false, false, Outputs(), q, peaks)
    {
      Reset();
      ghost var m0 := Mem();
      var sbw := CorrectSideband(uSb);
      assert Mem() == Sided(m0, uSb);
      q, peaks := Rest(uSig, uRef, sbw);
    }

    /** analyze after the sideband step of a shot that is neither dark nor kicked. */
    method Rest(uSig: seq<int>, uRef: seq<int>, sbw: seq<real>) returns (ghost q: seq<real>, ghost peaks: seq<nat>)
      requires Valid() && |uSig| == cols && |uRef| == cols && |sbw| == cols
      requires Outputs() == Cleared && Runnable(cfg, cols)
      requires DividesFrom(Mem(), cfg, uSig, uRef, sbw)
      modifies this`nfits, this`rawPosition, this`fltPosition, this`fltPositionPs
      modifies this`fltFwhm, this`amplitude, this`nxtAmplitude, this`refAmplitude
      modifies first, second
      modifies spectrum.wf, reference, reference.wf, reference.ref, reference.ratioFit
      ensures Valid()
      ensures Followed(old(Mem()), Mem(), old(FitsOf()), FitsOf(), cfg, uSig, uRef, sbw, Outputs(), q, peaks)
    {
      q, peaks := [], [];
      var sigwf := Normalise(uSig, uRef, sbw);
      if sigwf.Some? {
        q, peaks := Extract(sigwf.value[..]);
      }
    }

    /** Filter, peak search and result assignment of a normalised signal. */
    method Extract(sig: seq<real>) returns (q: seq<real>, peaks: seq<nat>)
      requires Valid() && Outputs() == Cleared && |sig| == cols && Runnable(cfg, cols)
      requires |Mem().sp.ref| == cols && |Mem().ref.ref| == cols
      modifies this`nfits, this`rawPosition, this`fltPosition, this`fltPositionPs
      modifies this`fltFwhm, this`amplitude, this`nxtAmplitude, this`refAmplitude
      modifies first, second
      ensures Valid() && Mem() == old(Mem())
      ensures q == FS.FirTrace(sig, cfg.wts, cfg.specBegin, cfg.specEnd)
      ensures Assignable(cfg, q, peaks) && FitsOf() == Refitted(old(FitsOf()), cfg, q, peaks)
      ensures Outputs() == Report(Mem(), cfg, q, peaks, FitsOf())
    {
      var qwf := FS.Filter(sig, cfg.wts, cfg.specBegin, cfg.specEnd);
      q := qwf[..];
      peaks := FS.FindPeaks(q, X0(cfg), cfg.specEnd);
      AssignableIsReportable(cfg, q, peaks);
      Conclude(q, peaks);
    }

    /** The fits and the result assignment of analyze, from the filtered trace and its peak list. */
    method Conclude(q: seq<real>, peaks: seq<nat>)
      requires Valid() && Outputs() == Cleared && Reportable(cfg, q, peaks) && |q| == cols
      modifies this`nfits, this`rawPosition, this`fltPosition, this`fltPositionPs
      modifies this`fltFwhm, this`amplitude, this`nxtAmplitude, this`refAmplitude
      modifies first, second
      ensures Valid() && Mem() == old(Mem())
      ensures FitsOf() == Refitted(old(FitsOf()), cfg, q, peaks)
      ensures Outputs() == Report(Mem(), cfg, q, peaks, FitsOf())
    {
      Refinements(q, peaks);
      Assign(q, peaks);
    }

    /** The sideband step of analyze; returns the corrected sideband trace. */
    method CorrectSideband(uSb: seq<int>) returns (sbw: seq<real>)
      requires Valid() && |uSb| == cols
      modifies sideband, sideband.wf, sideband.avg
      ensures Valid()
      ensures sideband.Snapshot() == SB.Learn(old(sideband.Snapshot()), uSb)
      ensures sbw == SB.Output(old(sideband.Snapshot()), uSb)
      ensures spectrum.Snapshot() == old(spectrum.Snapshot()) && reference.Snapshot() == old(reference.Snapshot())
      ensures refCorr.Snapshot() == old(refCorr.Snapshot()) && FitsOf() == old(FitsOf())
    {
      var out := sideband.Process(uSb);
      sbw := out[..];
    }

    /** process_ref of the signal spectrum. */
    method LearnSignal(uSig: seq<int>, sbw: seq<real>)
      requires Valid() && |uSig| == cols && |sbw| == cols
      modifies spectrum, spectrum.wf, spectrum.ref, spectrum.ratioFit
      ensures Valid()
      ensures spectrum.Snapshot() == SP.LearnRef(old(spectrum.Snapshot()), SP.Subtract(uSig, sbw), cfg.sigCut)
      ensures reference.Snapshot() == old(reference.Snapshot()) && refCorr.Snapshot() == old(refCorr.Snapshot())
      ensures sideband.Snapshot() == old(sideband.Snapshot())
    {
      var s := spectrum.ProcessRef(uSig, sbw, cfg.sigCut);
    }

    /** process_ref of the reference arm; returns its reference trace. */
    method LearnReference(uRef: seq<int>, sbw: seq<real>) returns (rref: array<real>)
      requires Valid() && |uRef| == cols && |sbw| == cols
      modifies reference, reference.wf, reference.ref, reference.ratioFit
      ensures Valid() && rref == reference.ref
      ensures reference.Snapshot() == SP.LearnRef(old(reference.Snapshot()), SP.Subtract(uRef, sbw), cfg.refCut)
      ensures spectrum.Snapshot() == old(spectrum.Snapshot()) && refCorr.Snapshot() == old(refCorr.Snapshot())
      ensures sideband.Snapshot() == old(sideband.Snapshot())
    {
      rref := reference.ProcessRef(uRef, sbw, cfg.refCut);
    }

    /** accum of the reference correlation with the two ratio fits. */
    method Correlate()
      requires Valid()
      modifies refCorr, refCorr.fit0, refCorr.fit1, refCorr.fit0.p, refCorr.fit1.p, refCorr.p0p, refCorr.p1p
      ensures Valid()
      ensures refCorr.Snapshot() == RC.Accumulated(old(refCorr.Snapshot()), old(reference.Snapshot()).p0, old(spectrum.Snapshot()).p0,
                                                   old(reference.Snapshot()).p1, old(spectrum.Snapshot()).p1)
      ensures spectrum.Snapshot() == old(spectrum.Snapshot()) && reference.Snapshot() == old(reference.Snapshot())
      ensures sideband.Snapshot() == old(sideband.Snapshot())
    {
      ghost var sp, rf, sb := spectrum.Snapshot(), reference.Snapshot(), sideband.Snapshot();
      refCorr.Accum(reference.ratioFit, spectrum.ratioFit);
      assert spectrum.Snapshot() == sp;
      assert reference.Snapshot() == rf;
    }

    /** The bykik branch of analyze, after the sideband step. */
    method Kicked(uSig: seq<int>, uRef: seq<int>, sbw: seq<real>)
      requires Valid() && |uSig| == cols && |uRef| == cols && |sbw| == cols
      modifies spectrum, spectrum.wf, spectrum.ref, spectrum.ratioFit
      modifies reference, reference.wf, reference.ref, reference.ratioFit
      modifies refCorr, refCorr.fit0, refCorr.fit1, refCorr.fit0.p, refCorr.fit1.p, refCorr.p0p, refCorr.p1p
      ensures Valid() && FitsOf() == old(FitsOf())
      ensures Mem() == Learned(old(Mem()), cfg, uSig, uRef, sbw, true)
    {
      if cfg.useRef == 2 {
        var r := LearnReference(uRef, sbw);
        LearnSignal(uSig, sbw);
        Correlate();
      } else {
        LearnSignal(uSig, sbw);
      }
    }

    /** process_sig of the signal with the corrected ratio of the reference arm (use_ref 2). */
    method DivideScaled(uSig: seq<int>, sbw: seq<real>) returns (sigwf: Option<array<real>>)
      requires Valid() && |uSig| == cols && |sbw| == cols
      requires SP.ScaleDividable(spectrum.ref[..], RC.Eval(refCorr.Snapshot().l0, reference.Snapshot().p0),
                                 RC.Eval(refCorr.Snapshot().l1, reference.Snapshot().p1))
      modifies spectrum.wf
      ensures Valid() && Mem() == old(Mem())
      ensures sigwf.Some? <==> SP.AnyAbove(SP.Subtract(uSig, sbw), cfg.sigCut)
      ensures sigwf.Some? ==> sigwf.value[..] == SP.Scaled(SP.Subtract(uSig, sbw), spectrum.ref[..],
                                 RC.Eval(refCorr.Snapshot().l0, reference.Snapshot().p0),
                                 RC.Eval(refCorr.Snapshot().l1, reference.Snapshot().p1))
    {
      var p0, p1 := refCorr.P0(reference.ratioFit.p0), refCorr.P1(reference.ratioFit.p1);
      assert p0 == RC.Eval(refCorr.Snapshot().l0, reference.Snapshot().p0);
      assert p1 == RC.Eval(refCorr.Snapshot().l1, reference.Snapshot().p1);
      sigwf := spectrum.ProcessSigScaled(uSig, sbw, cfg.sigCut, p0, p1);
    }

    /** process_sig of the signal by the given reference trace. */
    method DivideBy(uSig: seq<int>, sbw: seq<real>, divisor: array<real>) returns (sigwf: Option<array<real>>)
      requires Valid() && |uSig| == cols && |sbw| == cols
      requires divisor == spectrum.ref || divisor == reference.ref
      requires SP.Dividable(SP.Subtract(uSig, sbw), divisor[..], cfg.sigCut)
      modifies spectrum.wf
      ensures Valid() && Mem() == old(Mem())
      ensures sigwf.Some? <==> SP.AnyAbove(SP.Subtract(uSig, sbw), cfg.sigCut)
      ensures sigwf.Some? ==> sigwf.value[..] == SP.Normalized(SP.Subtract(uSig, sbw), divisor[..], cfg.sigCut)
    {
      if divisor == spectrum.ref {
        sigwf := spectrum.ProcessSig(uSig, sbw, cfg.sigCut);
      } else {
        sigwf := spectrum.ProcessSigWith(uSig, sbw, cfg.sigCut, divisor);
      }
    }

    /** The normalisation branch of analyze, after the sideband step. */
    method Normalise(uSig: seq<int>, uRef: seq<int>, sbw: seq<real>) returns (sigwf: Option<array<real>>)
      requires Valid() && |uSig| == cols && |uRef| == cols && |sbw| == cols
      requires DividesFrom(Mem(), cfg, uSig, uRef, sbw)
      modifies spectrum.wf, reference, reference.wf, reference.ref, reference.ratioFit
      ensures Valid() && FitsOf() == old(FitsOf())
      ensures Mem() == Learned(old(Mem()), cfg, uSig, uRef, sbw, false)
      ensures sigwf.Some? <==> SignalFrom(old(Mem()), cfg, uSig, uRef, sbw).Some?
      ensures sigwf.Some? ==> sigwf.value[..] == SignalFrom(old(Mem()), cfg, uSig, uRef, sbw).value
    {
      if cfg.useRef == 2 {
        var r := LearnReference(uRef, sbw);
        sigwf := DivideScaled(uSig, sbw);
      } else if cfg.useRef == 1 {
        var rref := LearnReference(uRef, sbw);
        sigwf := DivideBy(uSig, sbw, rref);
      } else {
        sigwf := DivideBy(uSig, sbw, spectrum.ref);
      }
    }

    /**
     * The fits of the result assignment: the first fit processes the
     * highest peak and, when it then reads valid, the second fit the next
     * one. (The assignment interleaves these calls with setting the
     * results, which read only the fits; Assign does the setting.)
     */
    method Refinements(q: seq<real>, peaks: seq<nat>)
      requires first != second && Reportable(cfg, q, peaks) && |q| == cols
      modifies first, second
      ensures FitsOf() == Refitted(old(FitsOf()), cfg, q, peaks)
    {
      ghost var f0 := FitsOf();
      if |peaks| > 0 {
        FS.FoundIsGood(q, peaks[0], X0(cfg), cfg.specEnd, |cfg.wts|);
        first.Process(q, peaks[0], |cfg.wts|, cols);
        assert FitsOf() == FitPair(FT.Processed(f0.first, q, peaks[0], |cfg.wts|, |q|), f0.second);
        if first.valid && |peaks| > 1 {
          FS.FoundIsGood(q, peaks[1], X0(cfg), cfg.specEnd, |cfg.wts|);
          second.Process(q, peaks[1], |cfg.wts|, cols);
        }
      }
    }

    /**
     * The result assignment of analyze, once the fits have processed the
     * peaks: when the first fit reads valid, its position, time, width and
     * amplitude and the reference amplitude are reported, and the second
     * fit's amplitude when there is a second peak and that fit reads valid.
     */
    method Assign(q: seq<real>, peaks: seq<nat>)
      requires refCorr.Valid() && Outputs() == Cleared
      requires Reportable(cfg, q, peaks) && spectrum.ref.Length == |q| && reference.ref.Length == |q|
      modifies this`nfits, this`rawPosition, this`fltPosition, this`fltPositionPs
      modifies this`fltFwhm, this`amplitude, this`nxtAmplitude, this`refAmplitude
      ensures Outputs() == Report(Mem(), cfg, q, peaks, FitsOf())
    {
      ghost var want := Report(Mem(), cfg, q, peaks, FitsOf());
      assert Mem().ref.ref == reference.ref[..] && Mem().sp.ref == spectrum.ref[..];
      fltPosition, fltFwhm, amplitude, nxtAmplitude := 0.0, Some(0.0), 0.0, -1.0;
      nfits := |peaks|;
      if nfits > 0 {
        var ix := peaks[0] % 0x1_0000;
        rawPosition := ix as real;
        if first.valid {
          var x := first.position;
          fltPosition := x;
          fltPositionPs := Calibrated(cfg.calibP0, cfg.calibP1, cfg.calibP2, x);
          fltFwhm := first.fwhm;
          amplitude := first.amplitude;
          refAmplitude := if cfg.useRef != 0 then reference.ref[ix] else spectrum.ref[ix];
          nxtAmplitude := -1.0;
          if nfits > 1 && second.valid {
            nxtAmplitude := second.amplitude;
          }
        }
      }
      assert Outputs() == want;
    }
  }
}
