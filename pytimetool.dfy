/**
 * The Python prototype of the time tool (pyana/timetool.py): a table of
 * time-stamped reference spectra, the per-event classification by EVR
 * event codes, the running dark and reference averages, and the pure
 * steps of the edge search (normalisation, sideband smoothing, matched
 * filter, maximum, fit window, spectrum window, calibration).
 */
module PyTimeTool {
  import opened Wrappers
  import A = Averaging

  /** The event code of a shot whose x-rays are kicked away (a reference shot). */
  const BykickCode: int := 162

  // ---------------------------------------------------------------------
  // Reference table (ttref_db)
  // ---------------------------------------------------------------------

  datatype ClockTime = ClockTime(seconds: nat, nanoseconds: nat)

  /** is_before: seconds decide; on equal seconds, nanoseconds do. */
  function IsBefore(a: ClockTime, b: ClockTime): (r: bool)
    ensures r <==> a.seconds < b.seconds || (a.seconds == b.seconds && a.nanoseconds < b.nanoseconds)
  {
    if a.seconds < b.seconds then true
    else if a.seconds > b.seconds then false
    else a.nanoseconds < b.nanoseconds
  }

  /** is_before is a strict total order. */
  lemma IsBeforeOrder(a: ClockTime, b: ClockTime, c: ClockTime)
    ensures !IsBefore(a, a)
    ensures IsBefore(a, b) ==> !IsBefore(b, a)
    ensures IsBefore(a, b) && IsBefore(b, c) ==> IsBefore(a, c)
    ensures a != b ==> IsBefore(a, b) || IsBefore(b, a)
  {
  }

  datatype Entry = Entry(time: ClockTime, spectrum: seq<real>)

  /** The first entry from i on that is later than ts, or the last entry. */
  function FirstLater(entries: seq<Entry>, ts: ClockTime, i: nat): (k: nat)
    requires 1 <= i && |entries| > 0
    ensures k < |entries|
    ensures i < |entries| ==> i <= k
    ensures forall j :: i <= j < k ==> !IsBefore(ts, entries[j].time)
    ensures k == |entries| - 1 || IsBefore(ts, entries[k].time)
    decreases |entries| - i
  {
    if i >= |entries| then |entries| - 1
    else if IsBefore(ts, entries[i].time) then i
    else FirstLater(entries, ts, i + 1)
  }

  /**
   * The entry lookup(ts) answers with: the first entry after the first one
   * that is later than ts; failing that, the last entry.
   */
  function LookupIndex(entries: seq<Entry>, ts: ClockTime): (k: nat)
    requires |entries| > 0
    ensures k < |entries|
    ensures |entries| > 1 ==> 1 <= k
    ensures forall j :: 1 <= j < k ==> !IsBefore(ts, entries[j].time)
    ensures k == |entries| - 1 || IsBefore(ts, entries[k].time)
  {
    FirstLater(entries, ts, 1)
  }

  /** lookup: scans the table from the second entry; an empty table is an error in the source. */
  method Lookup(entries: seq<Entry>, ts: ClockTime) returns (r: seq<real>)
    requires |entries| > 0
    ensures r == entries[LookupIndex(entries, ts)].spectrum
  {
    var i := 1;
    while i < |entries|
      invariant 1 <= i
      invariant FirstLater(entries, ts, i) == LookupIndex(entries, ts)
      decreases |entries| - i
    {
      if IsBefore(ts, entries[i].time) {
        return entries[i].spectrum;
      }
      i := i + 1;
    }
    r := entries[|entries| - 1].spectrum;
  }

  /**
   * In a table ordered by time, every entry from the answer on is later
   * than ts when the answer is, and every entry between the first and the
   * answer is not: the answer is the earliest later reference.
   */
  lemma SortedLookup(entries: seq<Entry>, ts: ClockTime)
    requires |entries| > 0
    requires forall i, j :: 0 <= i < j < |entries| ==> IsBefore(entries[i].time, entries[j].time)
    ensures var k := LookupIndex(entries, ts);
      IsBefore(ts, entries[k].time) ==> forall j :: k <= j < |entries| ==> IsBefore(ts, entries[j].time)
    ensures var k := LookupIndex(entries, ts);
      forall j :: 1 <= j < k ==> !IsBefore(ts, entries[j].time)
  {
    var k := LookupIndex(entries, ts);
    if IsBefore(ts, entries[k].time) {
      forall j | k < j < |entries|
        ensures IsBefore(ts, entries[j].time)
      {
        IsBeforeOrder(ts, entries[k].time, entries[j].time);
      }
    }
  }

  // ---------------------------------------------------------------------
  // Event-code classification
  // ---------------------------------------------------------------------

  /** The laser flag after one code: -laserCode clears it, laserCode sets it, anything else keeps it. */
  function LaserStep(laserCode: int, laser: bool, code: int): bool
  {
    if code == -laserCode then false else if code == laserCode then true else laser
  }

  /** The laser flag after all codes, starting from laserCode <= 0. */
  function LaserAfter(codes: seq<int>, laserCode: int): bool
  {
    if codes == [] then laserCode <= 0
    else LaserStep(laserCode, LaserAfter(codes[..|codes| - 1], laserCode), codes[|codes| - 1])
  }

  /** The code scan of event(): a kicked shot iff code 162 is present, and the laser flag. */
  method ScanCodes(codes: seq<int>, laserCode: int) returns (bykick: bool, laser: bool)
    ensures bykick <==> BykickCode in codes
    ensures laser == LaserAfter(codes, laserCode)
  {
    bykick := false;
    laser := laserCode <= 0;
    var i := 0;
    while i < |codes|
      invariant 0 <= i <= |codes|
      invariant bykick <==> BykickCode in codes[..i]
      invariant laser == LaserAfter(codes[..i], laserCode)
    {
      assert codes[..i + 1][..i] == codes[..i];
      if codes[i] == BykickCode {
        bykick := true;
      }
      if codes[i] == laserCode {
        laser := true;
      }
      if codes[i] == -laserCode {
        laser := false;
      }
      i := i + 1;
    }
    assert codes[..i] == codes;
  }

  /** Without a code equal to laserCode or -laserCode the flag keeps its start value. */
  lemma {:induction false} NoLaserCode(codes: seq<int>, laserCode: int)
    requires forall j :: 0 <= j < |codes| ==> codes[j] != laserCode && codes[j] != -laserCode
    ensures LaserAfter(codes, laserCode) == (laserCode <= 0)
    decreases |codes|
  {
    if codes != [] {
      NoLaserCode(codes[..|codes| - 1], laserCode);
    }
  }

  /**
   * The last code equal to laserCode or -laserCode decides: the laser is
   * on iff that code is laserCode and laserCode is not 0 (a code 0 with
   * laserCode 0 matches both tests, and the clearing one runs last).
   */
  lemma {:induction false} LastLaserCodeWins(codes: seq<int>, laserCode: int, i: nat)
    requires i < |codes| && (codes[i] == laserCode || codes[i] == -laserCode)
    requires forall j :: i < j < |codes| ==> codes[j] != laserCode && codes[j] != -laserCode
    ensures LaserAfter(codes, laserCode) == (codes[i] == laserCode && laserCode != 0)
    decreases |codes|
  {
    if i < |codes| - 1 {
      LastLaserCodeWins(codes[..|codes| - 1], laserCode, i);
    }
  }

  // ---------------------------------------------------------------------
  // Running dark and reference spectra
  // ---------------------------------------------------------------------

  function Minus(a: seq<real>, b: seq<real>): (r: seq<real>)
    requires |a| == |b|
    ensures |r| == |a|
    ensures forall k :: 0 <= k < |r| ==> r[k] == a[k] - b[k]
  {
    seq(|a|, k requires 0 <= k < |a| => a[k] - b[k])
  }

  function Constant(n: nat, v: real): (r: seq<real>)
    ensures |r| == n
    ensures forall k :: 0 <= k < n ==> r[k] == v
  {
    seq(n, k => v)
  }

  /** A running average that copies its first sample and blends in the later ones with weight c. */
  function Averaged(initial: bool, avg: seq<real>, c: real, x: seq<real>): (r: seq<real>)
    requires |avg| == |x|
    ensures |r| == |x|
    ensures initial ==> r == x
    ensures !initial ==> forall k :: 0 <= k < |r| ==> r[k] == (1.0 - c) * avg[k] + c * x[k]
  {
    if initial then x else A.BlendSeq(c, avg, x)
  }

  /** The signal and sideband reference spectra and their "nothing learned yet" flags. */
  datatype Refs = Refs(sigInitial: bool, sig: seq<real>, sbdInitial: bool, sbd: seq<real>)

  /**
   * A reference shot as written (pyana/timetool.py:301-308): the first one
   * copies the signal but leaves the sideband reference at zero, later ones
   * blend both.
   */
  function LearnedAsWritten(r: Refs, useSbd: bool, c: real, sig: seq<real>, sbd: seq<real>): (n: Refs)
    requires |r.sig| == |sig| && |r.sbd| == |sbd|
    ensures n.sbdInitial == r.sbdInitial
  {
    if r.sigInitial then r.(sigInitial := false, sig := sig)
    else r.(sig := A.BlendSeq(c, r.sig, sig), sbd := if useSbd then A.BlendSeq(c, r.sbd, sbd) else r.sbd)
  }

  /**
   * A reference shot as intended: the sideband reference is averaged like
   * the signal reference, copying its first sample.
   */
  function Learned(r: Refs, useSbd: bool, c: real, sig: seq<real>, sbd: seq<real>): (n: Refs)
    requires |r.sig| == |sig| && |r.sbd| == |sbd|
    ensures !n.sigInitial && n.sig == Averaged(r.sigInitial, r.sig, c, sig)
    ensures useSbd ==> !n.sbdInitial && n.sbd == Averaged(r.sbdInitial, r.sbd, c, sbd)
    ensures !useSbd ==> n.sbdInitial == r.sbdInitial && n.sbd == r.sbd
  {
    Refs(false, Averaged(r.sigInitial, r.sig, c, sig),
         r.sbdInitial && !useSbd, if useSbd then Averaged(r.sbdInitial, r.sbd, c, sbd) else r.sbd)
  }

  predicate Positive(s: seq<real>)
  {
    forall k :: 0 <= k < |s| ==> s[k] > 0.0
  }

  /** Once a signal reference exists, so does a sideband reference (when the sideband is used). */
  predicate Ready(r: Refs, useSbd: bool)
  {
    useSbd && !r.sigInitial ==> !r.sbdInitial
  }

  /**
   * With the intended update the sideband reference is learned together
   * with the signal reference, and it stays positive while the sideband
   * projections are positive, so normalising by it is always defined.
   */
  lemma LearnedKeepsSideband(r: Refs, useSbd: bool, c: real, sig: seq<real>, sbd: seq<real>)
    requires |r.sig| == |sig| && |r.sbd| == |sbd|
    requires 0.0 <= c <= 1.0 && Positive(sbd)
    requires r.sbdInitial || Positive(r.sbd)
    ensures Ready(Learned(r, useSbd, c, sig, sbd), useSbd)
    ensures useSbd ==> Positive(Learned(r, useSbd, c, sig, sbd).sbd)
  {
    var n := Learned(r, useSbd, c, sig, sbd);
    if useSbd && !r.sbdInitial {
      forall k | 0 <= k < |n.sbd|
        ensures n.sbd[k] > 0.0
      {
        var lo := if r.sbd[k] <= sbd[k] then r.sbd[k] else sbd[k];
        A.BlendBetween(c, r.sbd[k], sbd[k]);
        assert n.sbd[k] >= lo;
      }
    }
  }

  /** A model that has learned nothing: the references are zero. */
  function Fresh(width: nat): Refs
  {
    Refs(true, Constant(width, 0.0), true, Constant(width, 0.0))
  }

  /**
   * As written, one reference shot ends the "no reference" state, yet the
   * sideband reference is still all zeros however bright the sideband was,
   * so the next laser shot divides the sideband by zero (line 320).
   */
  lemma SidebandNeverCopied(width: nat, c: real, sig: seq<real>, sbd: seq<real>)
    requires width > 0 && |sig| == width && |sbd| == width && Positive(sbd)
    ensures var n := LearnedAsWritten(Fresh(width), true, c, sig, sbd);
      !n.sigInitial && n.sbd[0] == 0.0 && !Ready(n, true)
  {
  }

  /** What the reference step decides for the shot. */
  datatype Step = Stored | Unreferenced | Proceed

  /**
   * Lines 297-313: a reference file supplies the signal reference for every
   * shot; otherwise a kicked shot is learned as written and ends the event,
   * and a shot before any reference ends the event without output. The
   * sideband flag is never cleared, so once a signal reference exists the
   * sideband reference is not ready.
   */
  function Referenced(r: Refs, useSbd: bool, c: real, sig: seq<real>, sbd: seq<real>, bykick: bool, db: Option<seq<real>>): (res: (Refs, Step))
    requires |r.sig| == |sig| && |r.sbd| == |sbd|
    ensures db.Some? ==> res == (r.(sig := db.value), Proceed)
    ensures db.None? && bykick ==> res == (LearnedAsWritten(r, useSbd, c, sig, sbd), Stored)
    ensures db.None? && !bykick ==> res.0 == r && (res.1 == Unreferenced <==> r.sigInitial)
    ensures res.0.sbdInitial == r.sbdInitial
    ensures useSbd && r.sbdInitial && !res.0.sigInitial ==> !Ready(res.0, useSbd)
  {
    if db.Some? then (r.(sig := db.value), Proceed)
    else if bykick then (LearnedAsWritten(r, useSbd, c, sig, sbd), Stored)
    else if r.sigInitial then (r, Unreferenced)
    else (r, Proceed)
  }

  /** What one event produces. Normalise carries the dark-subtracted signal and sideband projections. */
  datatype Outcome = NoContinuum | ReferenceStored | NoReference | Normalise(sig: seq<real>, sbd: seq<real>)

  /** The state the prototype keeps between events. */
  class Analyzer {
    const width: nat
    const laserCode: int
    const useSbd: bool
    const drkConvergence: real
    const refConvergence: real
    var drkInitial: bool
    var drk: seq<real>
    var sigRefInitial: bool
    var sigRef: seq<real>
    var sbdRefInitial: bool
    var sbdRef: seq<real>

    predicate Valid()
      reads this
    {
      |drk| == width && |sigRef| == width && |sbdRef| == width
    }

    function References(): Refs
      reads this
    {
      Refs(sigRefInitial, sigRef, sbdRefInitial, sbdRef)
    }

    /**
     * The constructor: width = hi_column - lo_column; the dark starts at
     * 32 counts per signal row, both references at zero, all unlearned.
     */
    constructor (width: nat, sigRows: real, laserCode: int, useSbd: bool, drkConvergence: real, refConvergence: real)
      ensures Valid()
      ensures this.width == width && this.laserCode == laserCode && this.useSbd == useSbd
      ensures this.drkConvergence == drkConvergence && this.refConvergence == refConvergence
      ensures drkInitial && drk == Constant(width, 32.0 * sigRows)
      ensures References() == Fresh(width)
    {
      this.width := width;
      this.laserCode := laserCode;
      this.useSbd := useSbd;
      this.drkConvergence := drkConvergence;
      this.refConvergence := refConvergence;
      drkInitial := true;
      drk := Constant(width, 32.0 * sigRows);
      sigRefInitial := true;
      sigRef := Constant(width, 0.0);
      sbdRefInitial := true;
      sbdRef := Constant(width, 0.0);
    }

    /**
     * event() up to the normalisation: classify by event codes; without the
     * laser nothing changes; otherwise update the dark average, subtract it,
     * and take the reference step. db is the reference file's spectrum for
     * this event's time, already cut to the columns, when a file is used.
     */
    method Event(codes: seq<int>, drkProj: seq<real>, sigProj: seq<real>, sbdProj: seq<real>, db: Option<seq<real>>)
      returns (out: Outcome)
      requires Valid()
      requires |drkProj| == width && |sigProj| == width && |sbdProj| == width
      requires db.Some? ==> |db.value| == width
      modifies this
      ensures Valid()
      ensures !LaserAfter(codes, laserCode) ==>
        out == NoContinuum && drkInitial == old(drkInitial) && drk == old(drk) && References() == old(References())
      ensures LaserAfter(codes, laserCode) ==>
        !drkInitial && drk == Averaged(old(drkInitial), old(drk), drkConvergence, drkProj)
      ensures LaserAfter(codes, laserCode) ==>
        var sig := Minus(sigProj, drk);
        var sbd := Minus(sbdProj, drk);
        var res := Referenced(old(References()), useSbd, refConvergence, sig, sbd, BykickCode in codes, db);
        References() == res.0 &&
        out == (match res.1
                case Stored => ReferenceStored
                case Unreferenced => NoReference
                case Proceed => Normalise(sig, sbd))
    {
      var bykick, laser := ScanCodes(codes, laserCode);
      if !laser {
        return NoContinuum;
      }
      drk := Averaged(drkInitial, drk, drkConvergence, drkProj);
      drkInitial := false;
      var sig := Minus(sigProj, drk);
      var sbd := Minus(sbdProj, drk);
      var res := Referenced(References(), useSbd, refConvergence, sig, sbd, bykick, db);
      sigRefInitial, sigRef, sbdRefInitial, sbdRef := res.0.sigInitial, res.0.sig, res.0.sbdInitial, res.0.sbd;
      out := match res.1
        case Stored => ReferenceStored
        case Unreferenced => NoReference
        case Proceed => Normalise(sig, sbd);
    }
  }

  // ---------------------------------------------------------------------
  // The edge search on a normalised shot
  // ---------------------------------------------------------------------

  /** sig/ref - 1, element-wise; a zero reference entry has no value. */
  function Normalised(sig: seq<real>, ref: seq<real>): (r: seq<real>)
    requires |sig| == |ref|
    requires forall k :: 0 <= k < |ref| ==> ref[k] != 0.0
    ensures |r| == |sig|
    ensures forall k :: 0 <= k < |r| ==> (r[k] + 1.0) * ref[k] == sig[k]
  {
    seq(|sig|, k requires 0 <= k < |sig| => sig[k] / ref[k] - 1.0)
  }

  /** The first j terms of the full convolution of f and x at index k. */
  function ConvPrefix(f: seq<real>, x: seq<real>, k: int, j: nat): real
    requires j <= |f|
  {
    if j == 0 then 0.0
    else ConvPrefix(f, x, k, j - 1) + (if 0 <= k - (j - 1) < |x| then f[j - 1] * x[k - (j - 1)] else 0.0)
  }

  /** Entry k of the full convolution: the sum of f[j] * x[k - j] over the indices that exist. */
  function Conv(f: seq<real>, x: seq<real>, k: int): real
  {
    ConvPrefix(f, x, k, |f|)
  }

  /** np.convolve(filter, x, 'full')[n/2 : n/2 + m], the sideband's moving average. */
  function Smoothed(filter: seq<real>, x: seq<real>): (r: seq<real>)
    ensures |r| == |x|
  {
    seq(|x|, i requires 0 <= i < |x| => Conv(filter, x, i + |filter| / 2))
  }

  /** np.convolve(w, s, 'valid'): the entries of the full convolution where the shorter one lies inside the longer. */
  function Filtered(w: seq<real>, s: seq<real>): (r: seq<real>)
    requires |w| > 0 && |s| > 0
    ensures |w| <= |s| ==> |r| == |s| - |w| + 1
  {
    var lo := if |w| <= |s| then |w| else |s|;
    var hi := if |w| <= |s| then |s| else |w|;
    seq(hi - lo + 1, i requires 0 <= i <= hi - lo => Conv(w, s, i + lo - 1))
  }

  /** The weighted sum of s[start + t] with weights w[|w| - 1 - t]: the filter laid reversed on the trace. */
  function Window(w: seq<real>, s: seq<real>, start: int, j: nat): real
    requires j <= |w| && 0 <= start && start + |w| <= |s|
  {
    if j == 0 then 0.0 else Window(w, s, start, j - 1) + w[j - 1] * s[start + |w| - 1 - (j - 1)]
  }

  /**
   * In valid mode no filter weight falls off the trace: entry i is the
   * filter laid reversed over s[i .. i + |w|). So the filtered index i
   * corresponds to trace index i + |w| - 1 (raw_pos at line 355).
   */
  lemma FilteredWindow(w: seq<real>, s: seq<real>, i: nat)
    requires 0 < |w| <= |s| && i <= |s| - |w|
    ensures Filtered(w, s)[i] == Window(w, s, i, |w|)
  {
    assert Filtered(w, s)[i] == Conv(w, s, i + |w| - 1);
    PrefixInside(w, s, i, |w|);
  }

  lemma {:induction false} PrefixInside(w: seq<real>, s: seq<real>, i: nat, j: nat)
    requires 0 < |w| <= |s| && i <= |s| - |w| && j <= |w|
    ensures ConvPrefix(w, s, i + |w| - 1, j) == Window(w, s, i, j)
    decreases j
  {
    if j > 0 {
      PrefixInside(w, s, i, j - 1);
    }
  }

  /** np.argmax: the first index of the largest entry. */
  method ArgMax(s: seq<real>) returns (pos: nat)
    requires |s| > 0
    ensures pos < |s|
    ensures forall j :: 0 <= j < |s| ==> s[j] <= s[pos]
    ensures forall j :: 0 <= j < pos ==> s[j] < s[pos]
  {
    pos := 0;
    var i := 1;
    while i < |s|
      invariant 1 <= i <= |s| && pos < i
      invariant forall j :: 0 <= j < i ==> s[j] <= s[pos]
      invariant forall j :: 0 <= j < pos ==> s[j] < s[pos]
    {
      if s[i] > s[pos] {
        pos := i;
      }
      i := i + 1;
    }
  }

  /**
   * The fit window of lines 334-343 for a positive maximum at pos: the
   * widest run of samples around pos that stay at or above 80% of it.
   */
  method FitRange(s: seq<real>, pos: nat) returns (lo: nat, hi: nat)
    requires pos < |s| && s[pos] > 0.0
    ensures lo <= pos < hi <= |s|
    ensures forall i :: lo <= i < hi ==> s[i] >= s[pos] * 0.8
    ensures lo > 0 ==> s[lo - 1] < s[pos] * 0.8
    ensures hi < |s| ==> s[hi] < s[pos] * 0.8
  {
    var limit := s[pos] * 0.8;
    lo, hi := 0, |s|;
    var i: int := pos;
    while i >= 0
      invariant -1 <= i <= pos
      invariant forall j :: i < j <= pos ==> s[j] >= limit
    {
      if s[i] < limit {
        lo := i + 1;
        break;
      }
      i := i - 1;
    }
    i := pos;
    while i < |s|
      invariant pos <= i <= |s|
      invariant forall j :: pos <= j < i ==> s[j] >= limit
    {
      if s[i] < limit {
        hi := i;
        break;
      }
      i := i + 1;
    }
  }

  /**
   * The slice assignment of lines 359-364 as numpy performs it: None where
   * the two sides have different lengths and the right side does not have
   * exactly one entry (numpy raises ValueError); a one-entry right side is
   * repeated over the left.
   */
  predicate SliceFails(leftLen: int, rightLen: int)
  {
    leftLen != rightLen && rightLen != 1
  }

  /**
   * The spectrum window of lines 355-367: ns samples of the normalised
   * trace starting mgn = ns - 50 before rawPos, zero-padded at either end;
   * None where the slice assignment raises ValueError.
   */
  function DTrans(sign: seq<real>, rawPos: nat, ns: nat): (r: Option<seq<real>>)
    requires ns > 0
    ensures r.None? <==>
      || (rawPos < ns - 50 && SliceFails(rawPos + 50, if rawPos + 50 <= |sign| then rawPos + 50 else |sign|))
      || (ns - 50 <= rawPos && |sign| < rawPos + 50 && |sign| - rawPos + (ns - 50) < 0 && 0 < ns + (|sign| - rawPos + (ns - 50)))
  {
    var mgn := ns - 50;
    if rawPos < mgn then
      if rawPos + 50 <= |sign| then Some(Constant(mgn - rawPos, 0.0) + sign[0..rawPos + 50])
      else if |sign| == 1 then Some(Constant(mgn - rawPos, 0.0) + Constant(rawPos + 50, sign[0]))
      else None
    else if rawPos + 50 > |sign| then
      var l := |sign| - rawPos + mgn;
      if l >= 0 then Some(sign[rawPos - mgn..] + Constant(ns - l, 0.0))
      else if ns + l <= 0 then Some(Constant(ns, 0.0))
      else None
    else
      Some(sign[rawPos - mgn..rawPos + 50])
  }

  /**
   * Apart from a one-sample trace repeated by numpy, all cases are one
   * window: entry t is sign[rawPos - mgn + t] where that exists, 0 elsewhere.
   */
  lemma DTransWindow(sign: seq<real>, rawPos: nat, ns: nat)
    requires ns > 0 && DTrans(sign, rawPos, ns).Some?
    requires rawPos < ns - 50 ==> rawPos + 50 <= |sign|
    ensures var r := DTrans(sign, rawPos, ns).value;
      && |r| == ns
      && forall t :: 0 <= t < ns ==> r[t] == (var k := rawPos - (ns - 50) + t; if 0 <= k < |sign| then sign[k] else 0.0)
  {
  }

  /**
   * Where the raw position lies inside the trace, as the edge search
   * leaves it, and the window is at least 50 samples, the assignment
   * fails only when the window reaches before the trace start and past
   * its end at once.
   */
  lemma DTransFailsOnlyShortTrace(sign: seq<real>, rawPos: nat, ns: nat)
    requires 50 <= ns && rawPos < |sign|
    ensures DTrans(sign, rawPos, ns).None? <==> rawPos < ns - 50 && |sign| < rawPos + 50 && |sign| != 1
  {
  }

  /** The pixel-to-time calibration p0 + p1 x + p2 x^2. */
  function Calibrated(p0: real, p1: real, p2: real, x: real): real
  {
    p0 + p1 * x + p2 * x * x
  }

  /** With non-negative coefficients the calibration keeps the order of non-negative positions. */
  lemma CalibrationMonotone(p0: real, p1: real, p2: real, x: real, y: real)
    requires 0.0 <= p1 && 0.0 <= p2 && 0.0 <= x <= y
    ensures Calibrated(p0, p1, p2, x) <= Calibrated(p0, p1, p2, y)
  {
    assert y * y - x * x == (y - x) * (y + x);
    A.MulNonneg(y - x, y + x);
    A.MulNonneg(p2, y * y - x * x);
    A.MulNonneg(p1, y - x);
  }
}
