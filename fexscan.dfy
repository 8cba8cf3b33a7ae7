/**
 * The trace processing inside Fex::analyze (service/Fex.cc): the
 * finite-impulse-response filter that turns the normalised signal into
 * the filtered trace, and the peak finder that scans the filtered trace
 * and keeps the highest peaks in a short list sorted by amplitude.
 *
 * A peak is recorded as one word: the index where the trace fell below
 * half the peak in the high half, the peak index in the low 16 bits.
 */
module FexScan {
  import FT = Fit

  /** The most peaks the list keeps (MaxFits). */
  const MaxFits: nat := 8

  /** The peak finder's fraction: a peak must rise above twice the running minimum. */
  const AFrac: real := 0.5

  /** One half of a word. */
  const Half: nat := 0x1_0000

  /** The filter output at i: the sum over j < n of wts[j] * sig[i - j]. */
  function Fir(sig: seq<real>, wts: seq<real>, i: int, n: nat): real
    requires n <= |wts| && n <= i + 1 && i < |sig|
  {
    if n == 0 then 0.0 else Fir(sig, wts, i, n - 1) + wts[n - 1] * sig[i - (n - 1)]
  }

  /** The sum of the first n weights. */
  function WeightSum(wts: seq<real>, n: nat): real
    requires n <= |wts|
  {
    if n == 0 then 0.0 else WeightSum(wts, n - 1) + wts[n - 1]
  }

  /**
   * On a flat stretch of the signal the filter returns the level times
   * the sum of the weights; in particular weights that sum to zero (an
   * edge-finding filter) give zero there.
   */
  lemma {:induction false} FirFlat(sig: seq<real>, wts: seq<real>, i: int, n: nat, c: real)
    requires n <= |wts| && n <= i + 1 && i < |sig|
    requires forall j :: i - n < j <= i ==> sig[j] == c
    ensures Fir(sig, wts, i, n) == c * WeightSum(wts, n)
  {
    if n > 0 {
      FirFlat(sig, wts, i, n - 1, c);
      assert sig[i - (n - 1)] == c;
    }
  }

  /** The filtered trace: the filter output on [nwts + specBegin, specEnd], 0 elsewhere. */
  function FirTrace(sig: seq<real>, wts: seq<real>, specBegin: int, specEnd: int): (r: seq<real>)
    requires 0 <= specBegin
    ensures |r| == |sig|
  {
    seq(|sig|, i requires 0 <= i < |sig| =>
      if |wts| + specBegin <= i <= specEnd then Fir(sig, wts, i, |wts|) else 0.0)
  }

  /**
   * The filter loop of analyze: every entry is zeroed, then each i in
   * [nwts + specBegin, specEnd] receives the filter output.
   */
  method Filter(sigwf: seq<real>, wts: seq<real>, specBegin: int, specEnd: int) returns (qwf: array<real>)
    requires 0 <= specBegin && specEnd < |sigwf|
    ensures fresh(qwf) && qwf.Length == |sigwf|
    ensures forall i :: 0 <= i < qwf.Length ==>
      qwf[i] == if |wts| + specBegin <= i <= specEnd then Fir(sigwf, wts, i, |wts|) else 0.0
    ensures qwf[..] == FirTrace(sigwf, wts, specBegin, specEnd)
  {
    var cols := |sigwf|;
    var x0 := |wts| + specBegin;
    qwf := new real[cols];
    var i := 0;
    while i < cols
      invariant 0 <= i <= cols
      invariant forall k :: 0 <= k < i ==> qwf[k] == 0.0
    {
      qwf[i] := 0.0;
      i := i + 1;
    }
    i := x0;
    while i <= specEnd
      invariant x0 <= i
      invariant forall k :: 0 <= k < cols ==>
        qwf[k] == if x0 <= k < i && k <= specEnd then Fir(sigwf, wts, k, |wts|) else 0.0
    {
      var j := 0;
      while j < |wts|
        invariant 0 <= j <= |wts|
        invariant qwf[i] == Fir(sigwf, wts, i, j)
        invariant forall k :: 0 <= k < cols && k != i ==>
          qwf[k] == if x0 <= k < i && k <= specEnd then Fir(sigwf, wts, k, |wts|) else 0.0
      {
        qwf[i] := qwf[i] + wts[j] * sigwf[i - j];
        j := j + 1;
      }
      i := i + 1;
    }
  }

  /** The peak index of a word. */
  function Index(word: nat): nat
  {
    word % Half
  }

  /** The index where the trace fell below half the peak. */
  function Fall(word: nat): nat
  {
    word / Half
  }

  /**
   * What the peak finder records: a positive peak inside (x0, specEnd),
   * a sample at or after x0 that lies below half of it on the left, and
   * the sample where the trace fell below half of it on the right.
   */
  predicate Found(q: seq<real>, word: nat, x0: int, specEnd: int)
  {
    var ix, e := Index(word), Fall(word);
    && 0 <= x0 < ix < e < specEnd <= |q|
    && q[ix] > 0.0 && q[e] < AFrac * q[ix]
    && exists j :: x0 <= j < ix && q[j] < AFrac * q[ix]
  }

  /** A recorded peak meets what Fit::process needs of it. */
  lemma {:induction false} FoundIsGood(q: seq<real>, word: nat, x0: int, specEnd: int, nwts: int)
    requires Found(q, word, x0, specEnd) && 0 <= nwts <= x0 && specEnd < |q|
    ensures FT.GoodPeak(q, Index(word), nwts, |q|)
    ensures FT.Index(word) == Index(word)
  {
    var e := Fall(word);
    assert Index(word) < e < |q| - 1 && q[e] <= 0.5 * q[Index(word)];
  }

  /** The amplitude of a peak. */
  function Amp(q: seq<real>, word: nat): real
    requires Index(word) < |q|
  {
    q[Index(word)]
  }

  predicate InRange(q: seq<real>, ps: seq<nat>)
  {
    forall k :: 0 <= k < |ps| ==> Index(ps[k]) < |q|
  }

  /** Non-increasing in amplitude. */
  predicate Sorted(q: seq<real>, ps: seq<nat>)
    requires InRange(q, ps)
  {
    forall a, b :: 0 <= a < b < |ps| ==> Amp(q, ps[a]) >= Amp(q, ps[b])
  }

  /** The list the peak finder keeps: at most MaxFits recorded peaks, sorted by amplitude. */
  predicate PeakList(q: seq<real>, ps: seq<nat>, x0: int, specEnd: int)
  {
    && |ps| <= MaxFits
    && (forall k :: 0 <= k < |ps| ==> Found(q, ps[k], x0, specEnd))
    && InRange(q, ps)
    && Sorted(q, ps)
  }

  /** Where a peak of amplitude a goes: before the first entry below a, else at the end. */
  function FirstBelow(q: seq<real>, ps: seq<nat>, a: real): (k: nat)
    requires InRange(q, ps)
    ensures k <= |ps|
    ensures forall j :: 0 <= j < k ==> Amp(q, ps[j]) >= a
    ensures k < |ps| ==> Amp(q, ps[k]) < a
  {
    if ps == [] then 0
    else if Amp(q, ps[0]) < a then 0
    else 1 + FirstBelow(q, ps[1..], a)
  }

  /** The list after the insertion of word at its place. */
  function Inserted(q: seq<real>, ps: seq<nat>, word: nat): seq<nat>
    requires InRange(q, ps) && Index(word) < |q|
  {
    var k := FirstBelow(q, ps, Amp(q, word));
    ps[..k] + [word] + ps[k..]
  }

  /** The entries of an inserted list, position by position. */
  lemma {:induction false} InsertedAt(q: seq<real>, ps: seq<nat>, word: nat)
    requires InRange(q, ps) && Index(word) < |q|
    ensures var k, r := FirstBelow(q, ps, Amp(q, word)), Inserted(q, ps, word);
      && |r| == |ps| + 1 && r[k] == word
      && (forall j :: 0 <= j < k ==> r[j] == ps[j])
      && (forall j :: k < j < |r| ==> r[j] == ps[j - 1])
  {
  }

  /** Inserting at FirstBelow keeps a sorted list sorted and adds exactly the new word. */
  lemma {:induction false} InsertedSorted(q: seq<real>, ps: seq<nat>, word: nat)
    requires InRange(q, ps) && Index(word) < |q| && Sorted(q, ps)
    ensures InRange(q, Inserted(q, ps, word)) && Sorted(q, Inserted(q, ps, word))
  {
    var k := FirstBelow(q, ps, Amp(q, word));
    var r := Inserted(q, ps, word);
    InsertedAt(q, ps, word);
    assert InRange(q, r);
    forall a, b | 0 <= a < b < |r|
      ensures Amp(q, r[a]) >= Amp(q, r[b])
    {
    }
  }

  /** Insertion adds exactly the new word. */
  lemma {:induction false} InsertedContents(q: seq<real>, ps: seq<nat>, word: nat)
    requires InRange(q, ps) && Index(word) < |q|
    ensures multiset(Inserted(q, ps, word)) == multiset(ps) + multiset{word}
  {
    var k := FirstBelow(q, ps, Amp(q, word));
    assert ps == ps[..k] + ps[k..];
  }

  /**
   * The list update of the peak finder for a new peak word. A full list
   * whose last amplitude exceeds the new one is left as it is; otherwise
   * a full list first drops its last entry, and the word goes before the
   * first entry of lower amplitude (after all entries of equal or higher
   * amplitude).
   */
  method InsertPeak(q: seq<real>, peaks: seq<nat>, word: nat) returns (r: seq<nat>)
    requires InRange(q, peaks) && Index(word) < |q| && |peaks| <= MaxFits
    ensures |peaks| == MaxFits && Amp(q, peaks[MaxFits - 1]) > Amp(q, word) ==> r == peaks
    ensures !(|peaks| == MaxFits && Amp(q, peaks[MaxFits - 1]) > Amp(q, word)) ==>
      r == Inserted(q, if |peaks| == MaxFits then peaks[..MaxFits - 1] else peaks, word)
  {
    var amax := q[word % Half];
    if |peaks| == MaxFits && q[peaks[|peaks| - 1] % Half] > amax {
      return peaks;
    }
    var kept := if |peaks| == MaxFits then peaks[..MaxFits - 1] else peaks;
    var k := 0;
    while k < |kept| && q[kept[k] % Half] >= amax
      invariant 0 <= k <= |kept|
      invariant forall j :: 0 <= j < k ==> Amp(q, kept[j]) >= amax
    {
      k := k + 1;
    }
    FirstBelowIs(q, kept, amax, k);
    r := kept[..k] + [word] + kept[k..];
  }

  /** The first index with an amplitude below a is FirstBelow. */
  lemma {:induction false} FirstBelowIs(q: seq<real>, ps: seq<nat>, a: real, k: nat)
    requires InRange(q, ps) && k <= |ps|
    requires forall j :: 0 <= j < k ==> Amp(q, ps[j]) >= a
    requires k < |ps| ==> Amp(q, ps[k]) < a
    ensures FirstBelow(q, ps, a) == k
  {
    if ps != [] && Amp(q, ps[0]) >= a {
      assert k > 0;
      FirstBelowIs(q, ps[1..], a, k - 1);
    }
  }

  /** Insertion keeps the list a peak list. */
  lemma {:induction false} InsertKeeps(q: seq<real>, peaks: seq<nat>, word: nat, x0: int, specEnd: int)
    requires PeakList(q, peaks, x0, specEnd) && Found(q, word, x0, specEnd)
    requires !(|peaks| == MaxFits && Amp(q, peaks[MaxFits - 1]) > Amp(q, word))
    ensures PeakList(q, Inserted(q, if |peaks| == MaxFits then peaks[..MaxFits - 1] else peaks, word), x0, specEnd)
  {
    var kept := if |peaks| == MaxFits then peaks[..MaxFits - 1] else peaks;
    assert PeakList(q, kept, x0, specEnd);
    InsertedSorted(q, kept, word);
    InsertedContents(q, kept, word);
    var r := Inserted(q, kept, word);
    forall k | 0 <= k < |r|
      ensures Found(q, r[k], x0, specEnd)
    {
      assert r[k] in multiset(r);
      assert r[k] == word || r[k] in multiset(kept);
    }
  }

  /**
   * The list update of the peak finder for a recorded word, as a value:
   * a full list whose last amplitude exceeds the word's is kept;
   * otherwise the word is inserted into the list, less its last entry
   * when full.
   */
  function Updated(q: seq<real>, ps: seq<nat>, word: nat): (r: seq<nat>)
    requires InRange(q, ps) && Index(word) < |q| && |ps| <= MaxFits
    ensures |r| <= MaxFits && InRange(q, r) && |r| > 0
  {
    if |ps| == MaxFits && Amp(q, ps[MaxFits - 1]) > Amp(q, word) then ps
    else
      var kept := if |ps| == MaxFits then ps[..MaxFits - 1] else ps;
      InsertedAt(q, kept, word);
      Inserted(q, kept, word)
  }

  /** The running values of the peak finder: amax, aleft, aright, imax, lpeak and the list. */
  datatype Scan = Scan(amax: real, aleft: real, aright: real, imax: nat, lpeak: bool, peaks: seq<nat>)

  /** The indices the finder handles fit the low half of a word, and the list is in range. */
  predicate Sane(q: seq<real>, s: Scan)
  {
    |q| <= 0x8000 && s.imax < |q| && |s.peaks| <= MaxFits && InRange(q, s.peaks)
  }

  /** The running values before the loop, from the first filtered sample q[x0]. */
  function Start(q: seq<real>, x0: nat): (r: Scan)
    requires x0 < |q| <= 0x8000
    ensures Sane(q, r)
  {
    var a := if q[x0] > 0.0 then q[x0] else 0.0;
    Scan(a, a, 0.0, x0, false, [])
  }

  /**
   * One pass of the finder's loop at sample i: a new maximum that rises
   * above twice aleft marks i as the candidate; a sample below aright
   * after a candidate records the word (i << 16) | imax and restarts both
   * running values at the sample (never below 0); without a candidate, a
   * sample below aleft restarts them likewise.
   */
  function Step(q: seq<real>, s: Scan, i: nat): (r: Scan)
    requires Sane(q, s) && i < |q|
    ensures Sane(q, r)
  {
    if q[i] > s.amax then
      if q[i] * AFrac > s.aleft then s.(amax := q[i], imax := i, lpeak := true, aright := AFrac * q[i])
      else s.(amax := q[i])
    else if s.lpeak && q[i] < s.aright then
      var z := if q[i] > 0.0 then q[i] else 0.0;
      var word := i * Half + s.imax;
      assert Index(word) == s.imax;
      Scan(z, z, s.aright, s.imax, false, Updated(q, s.peaks, word))
    else if !s.lpeak && q[i] < s.aleft then
      var z := if q[i] > 0.0 then q[i] else 0.0;
      s.(amax := z, aleft := z)
    else s
  }

  /** The loop from sample i up to, not including, specEnd. */
  function Run(q: seq<real>, s: Scan, i: nat, specEnd: int): (r: Scan)
    requires Sane(q, s) && specEnd <= |q|
    ensures Sane(q, r)
    decreases specEnd - i
  {
    if i >= specEnd then s else Run(q, Step(q, s, i), i + 1, specEnd)
  }

  /** The peak list the finder leaves for the window (x0, specEnd). */
  function Peaks(q: seq<real>, x0: nat, specEnd: int): seq<nat>
    requires x0 < |q| <= 0x8000 && specEnd <= |q|
  {
    Run(q, Start(q, x0), x0 + 1, specEnd).peaks
  }

  /**
   * What holds of the running values before sample i: the candidate lies
   * inside (x0, i) at the running maximum, aright is half of it and above
   * aleft; the sample wl in [x0, i) is at or below aleft and, with a
   * candidate, before it; the list is a peak list.
   */
  predicate Scanning(q: seq<real>, x0: nat, specEnd: int, s: Scan, i: nat, wl: nat)
  {
    && x0 <= s.imax < i && x0 <= wl < i && i <= |q| && specEnd <= |q| <= 0x8000
    && 0.0 <= s.aleft <= s.amax && q[wl] <= s.aleft
    && (s.lpeak ==> x0 < s.imax && wl < s.imax && s.amax == q[s.imax] && s.aright == AFrac * s.amax && AFrac * s.amax > s.aleft)
    && PeakList(q, s.peaks, x0, specEnd)
  }

  /** One pass keeps Scanning, with wl moved to i when the running values restart. */
  lemma StepScanning(q: seq<real>, x0: nat, specEnd: int, s: Scan, i: nat, wl: nat)
    requires Scanning(q, x0, specEnd, s, i, wl) && i < specEnd
    ensures Sane(q, s)
    ensures var r := Step(q, s, i);
      Scanning(q, x0, specEnd, r, i + 1, if r.aleft == s.aleft then wl else i)
  {
    if !(q[i] > s.amax) && s.lpeak && q[i] < s.aright {
      RecordScanning(q, x0, specEnd, s, i, wl);
    }
  }

  /** The recording pass keeps Scanning: the recorded word is a Found peak. */
  lemma RecordScanning(q: seq<real>, x0: nat, specEnd: int, s: Scan, i: nat, wl: nat)
    requires Scanning(q, x0, specEnd, s, i, wl) && i < specEnd
    requires !(q[i] > s.amax) && s.lpeak && q[i] < s.aright
    ensures Sane(q, s) && PeakList(q, Step(q, s, i).peaks, x0, specEnd)
  {
    var word := i * Half + s.imax;
    RecordedIsFound(q, x0, specEnd, s, i, wl);
    assert Step(q, s, i).peaks == Updated(q, s.peaks, word);
    if |s.peaks| == MaxFits && Amp(q, s.peaks[MaxFits - 1]) > Amp(q, word) {
      assert Updated(q, s.peaks, word) == s.peaks;
    } else {
      InsertKeeps(q, s.peaks, word, x0, specEnd);
      assert Updated(q, s.peaks, word) == Inserted(q, if |s.peaks| == MaxFits then s.peaks[..MaxFits - 1] else s.peaks, word);
    }
  }

  /** The word a recording pass builds is a Found peak: wl is the low sample before the candidate, i the fall. */
  lemma RecordedIsFound(q: seq<real>, x0: nat, specEnd: int, s: Scan, i: nat, wl: nat)
    requires Scanning(q, x0, specEnd, s, i, wl) && i < specEnd
    requires s.lpeak && q[i] < s.aright
    ensures Found(q, i * Half + s.imax, x0, specEnd)
  {
    var word := i * Half + s.imax;
    assert Index(word) == s.imax && Fall(word) == i;
    assert x0 <= wl < s.imax && q[wl] < AFrac * q[s.imax];
  }

  /** The loop keeps the list a peak list. */
  lemma {:induction false} RunIsPeakList(q: seq<real>, x0: nat, specEnd: int, s: Scan, i: nat, wl: nat)
    requires Scanning(q, x0, specEnd, s, i, wl)
    ensures Sane(q, s) && PeakList(q, Run(q, s, i, specEnd).peaks, x0, specEnd)
    decreases specEnd - i
  {
    if i < specEnd {
      StepScanning(q, x0, specEnd, s, i, wl);
      var r := Step(q, s, i);
      RunIsPeakList(q, x0, specEnd, r, i + 1, if r.aleft == s.aleft then wl else i);
    }
  }

  /**
   * Every peak the finder keeps is recorded: at most MaxFits of them,
   * sorted by non-increasing amplitude, each a Found peak of the window.
   */
  lemma PeaksArePeakList(q: seq<real>, x0: nat, specEnd: int)
    requires x0 < |q| <= 0x8000 && specEnd <= |q|
    ensures PeakList(q, Peaks(q, x0, specEnd), x0, specEnd)
  {
    RunIsPeakList(q, x0, specEnd, Start(q, x0), x0 + 1, x0);
  }

  /**
   * The peak finder of analyze: the loop over i from x0 + 1 up to
   * specEnd, whose passes are Step. The word is a signed 32-bit int, so
   * the trace is at most 0x8000 long.
   */
  method FindPeaks(q: seq<real>, x0: nat, specEnd: int) returns (peaks: seq<nat>)
    requires x0 < |q| && specEnd <= |q| <= 0x8000
    ensures peaks == Peaks(q, x0, specEnd)
    ensures PeakList(q, peaks, x0, specEnd)
  {
    var amax := if q[x0] > 0.0 then q[x0] else 0.0;
    var aleft := amax;
    var aright := 0.0;
    var imax: nat := x0;
    var lpeak := false;
    peaks := [];
    var i := x0 + 1;
    while i < specEnd
      invariant x0 < i && imax < |q|
      invariant Sane(q, Scan(amax, aleft, aright, imax, lpeak, peaks))
      invariant Run(q, Scan(amax, aleft, aright, imax, lpeak, peaks), i, specEnd) == Run(q, Start(q, x0), x0 + 1, specEnd)
      decreases specEnd - i
    {
      ghost var before := Scan(amax, aleft, aright, imax, lpeak, peaks);
      assert Run(q, before, i, specEnd) == Run(q, Step(q, before, i), i + 1, specEnd);
      amax, aleft, aright, imax, lpeak, peaks := Pass(q, amax, aleft, aright, imax, lpeak, peaks, i);
      i := i + 1;
    }
    PeaksArePeakList(q, x0, specEnd);
  }

  /** The body of the finder's loop for sample i: a new candidate, a recorded peak, a restart or nothing. */
  method Pass(q: seq<real>, amax0: real, aleft0: real, aright0: real, imax0: nat, lpeak0: bool, peaks0: seq<nat>, i: nat)
    returns (amax: real, aleft: real, aright: real, imax: nat, lpeak: bool, peaks: seq<nat>)
    requires Sane(q, Scan(amax0, aleft0, aright0, imax0, lpeak0, peaks0)) && i < |q|
    ensures Scan(amax, aleft, aright, imax, lpeak, peaks) == Step(q, Scan(amax0, aleft0, aright0, imax0, lpeak0, peaks0), i)
  {
    amax, aleft, aright, imax, lpeak, peaks := amax0, aleft0, aright0, imax0, lpeak0, peaks0;
    if q[i] > amax {
      amax := q[i];
      if amax * AFrac > aleft {
        imax := i;
        lpeak := true;
        aright := AFrac * amax;
      }
    } else if lpeak && q[i] < aright {
      var word := i * Half + imax;
      assert Index(word) == imax;
      peaks := Record(q, peaks, word);
      lpeak := false;
      amax := if q[i] > 0.0 then q[i] else 0.0;
      aleft := amax;
    } else if !lpeak && q[i] < aleft {
      amax := if q[i] > 0.0 then q[i] else 0.0;
      aleft := amax;
    }
  }

  /**
   * One recorded peak: a full list whose last amplitude exceeds the new
   * one is left as it is; otherwise a full list drops its last entry and
   * the word goes in before the first entry of lower amplitude.
   */
  method Record(q: seq<real>, peaks: seq<nat>, word: nat) returns (r: seq<nat>)
    requires InRange(q, peaks) && Index(word) < |q| && |peaks| <= MaxFits
    ensures r == Updated(q, peaks, word)
  {
    r := InsertPeak(q, peaks, word);
  }

  /** The running values keep 0 <= aleft <= amax; without a candidate amax is at most twice aleft, with one aright is half of amax and above aleft. */
  predicate Balanced(s: Scan)
  {
    && 0.0 <= s.aleft <= s.amax
    && (!s.lpeak ==> AFrac * s.amax <= s.aleft)
    && (s.lpeak ==> s.aright == AFrac * s.amax && AFrac * s.amax > s.aleft)
  }

  /** Some sample p in (x0, specEnd) is positive with a sample below half of it on each side. */
  predicate RiseAndFall(q: seq<real>, x0: nat, specEnd: int)
    requires specEnd <= |q|
  {
    exists j, p, e :: x0 <= j < p < e < specEnd && q[p] > 0.0 && q[j] < AFrac * q[p] && q[e] < AFrac * q[p]
  }

  /**
   * How far the finder has got with the rise and fall (j, p, e) before
   * sample i: past j there is a list, a candidate or aleft below half of
   * q[p]; past p a list or a candidate at least q[p]; past e a list.
   */
  predicate Progress(q: seq<real>, s: Scan, i: nat, j: nat, p: nat, e: nat)
    requires p < |q|
  {
    || i <= j
    || (j < i <= p && (|s.peaks| > 0 || s.lpeak || s.aleft < AFrac * q[p]))
    || (p < i <= e && (|s.peaks| > 0 || (s.lpeak && s.amax >= q[p])))
    || (e < i && |s.peaks| > 0)
  }

  /** One pass keeps the running values balanced and advances the progress through (j, p, e). */
  lemma StepProgress(q: seq<real>, s: Scan, i: nat, j: nat, p: nat, e: nat)
    requires Sane(q, s) && Balanced(s) && i < |q|
    requires j < p < e < |q| && q[p] > 0.0 && q[j] < AFrac * q[p] && q[e] < AFrac * q[p]
    requires Progress(q, s, i, j, p, e)
    ensures Balanced(Step(q, s, i)) && Progress(q, Step(q, s, i), i + 1, j, p, e)
  {
  }

  /** A list, once started, is never emptied again. */
  lemma {:induction false} RunKeepsList(q: seq<real>, s: Scan, i: nat, specEnd: int)
    requires Sane(q, s) && specEnd <= |q| && |s.peaks| > 0
    ensures |Run(q, s, i, specEnd).peaks| > 0
    decreases specEnd - i
  {
    if i < specEnd {
      RunKeepsList(q, Step(q, s, i), i + 1, specEnd);
    }
  }

  /** From balanced running values with progress through (j, p, e), the run ends with a list. */
  lemma {:induction false} RunReaches(q: seq<real>, s: Scan, i: nat, specEnd: int, j: nat, p: nat, e: nat)
    requires Sane(q, s) && Balanced(s) && specEnd <= |q|
    requires j < p < e < specEnd && q[p] > 0.0 && q[j] < AFrac * q[p] && q[e] < AFrac * q[p]
    requires Progress(q, s, i, j, p, e)
    ensures |Run(q, s, i, specEnd).peaks| > 0
    decreases specEnd - i
  {
    if i < specEnd {
      StepProgress(q, s, i, j, p, e);
      RunReaches(q, Step(q, s, i), i + 1, specEnd, j, p, e);
    }
  }

  /**
   * The finder keeps at least one peak exactly when the window holds a
   * positive sample with a sample below half of it on each side.
   */
  lemma PeaksNonEmptyIff(q: seq<real>, x0: nat, specEnd: int)
    requires x0 < |q| <= 0x8000 && specEnd <= |q|
    ensures |Peaks(q, x0, specEnd)| > 0 <==> RiseAndFall(q, x0, specEnd)
  {
    if |Peaks(q, x0, specEnd)| > 0 {
      ListHasRiseAndFall(q, x0, specEnd);
    }
    forall j: nat, p: nat, e: nat | x0 <= j < p < e < specEnd && q[p] > 0.0 && q[j] < AFrac * q[p] && q[e] < AFrac * q[p]
      ensures |Peaks(q, x0, specEnd)| > 0
    {
      RiseAndFallHasList(q, x0, specEnd, j, p, e);
    }
  }

  /** A rise and fall (j, p, e) leaves a list. */
  lemma RiseAndFallHasList(q: seq<real>, x0: nat, specEnd: int, j: nat, p: nat, e: nat)
    requires x0 < |q| <= 0x8000 && specEnd <= |q|
    requires x0 <= j < p < e < specEnd && q[p] > 0.0 && q[j] < AFrac * q[p] && q[e] < AFrac * q[p]
    ensures |Peaks(q, x0, specEnd)| > 0
  {
    var s0 := Start(q, x0);
    assert Balanced(s0);
    assert j == x0 ==> s0.aleft < AFrac * q[p];
    RunReaches(q, s0, x0 + 1, specEnd, j, p, e);
  }

  /** The first kept peak is a rise and fall. */
  lemma ListHasRiseAndFall(q: seq<real>, x0: nat, specEnd: int)
    requires x0 < |q| <= 0x8000 && specEnd <= |q| && |Peaks(q, x0, specEnd)| > 0
    ensures RiseAndFall(q, x0, specEnd)
  {
    var w := Peaks(q, x0, specEnd)[0];
    PeaksArePeakList(q, x0, specEnd);
    assert Found(q, w, x0, specEnd);
    var p, e := Index(w), Fall(w);
    var j :| x0 <= j < p && q[j] < AFrac * q[p];
    assert x0 <= j < p < e < specEnd && q[p] > 0.0 && q[j] < AFrac * q[p] && q[e] < AFrac * q[p];
  }

  /** Running values with nothing found since the last restart at 0. */
  predicate Idle(s: Scan)
  {
    s.amax == 0.0 && s.aleft == 0.0 && !s.lpeak
  }

  /** Over samples at or below 0 idle running values do not change. */
  lemma {:induction false} IdleRun(q: seq<real>, s: Scan, i: nat, k: nat, specEnd: int)
    requires Sane(q, s) && Idle(s) && i <= k <= specEnd <= |q|
    requires forall n :: i <= n < k ==> q[n] <= 0.0
    ensures Run(q, s, i, specEnd) == Run(q, s, k, specEnd)
    decreases k - i
  {
    if i < k {
      assert Step(q, s, i) == s;
      IdleRun(q, s, i + 1, k, specEnd);
    }
  }

  /**
   * A window whose only positive sample is p, with samples on both sides,
   * gives exactly one peak: p, falling below half at p + 1.
   */
  lemma SinglePeak(q: seq<real>, x0: nat, specEnd: int, p: nat)
    requires x0 < p && p + 1 < specEnd <= |q| <= 0x8000
    requires q[p] > 0.0 && forall n :: x0 <= n < specEnd && n != p ==> q[n] <= 0.0
    ensures Peaks(q, x0, specEnd) == [(p + 1) * Half + p]
    ensures Index(Peaks(q, x0, specEnd)[0]) == p && Fall(Peaks(q, x0, specEnd)[0]) == p + 1
  {
    var s0 := Start(q, x0);
    IdleRun(q, s0, x0 + 1, p, specEnd);
    WordParts(p);
    var s2 := PeakSteps(q, s0, p);
    IdleRun(q, s2, p + 2, specEnd, specEnd);
  }

  /** The word recorded for a peak at p falling at p + 1. */
  lemma WordParts(p: nat)
    requires p < Half
    ensures Index((p + 1) * Half + p) == p && Fall((p + 1) * Half + p) == p + 1
  {
  }

  /**
   * From idle running values, a positive sample at p followed by one at or
   * below 0 records the single word for p and leaves the values idle.
   */
  lemma PeakSteps(q: seq<real>, s: Scan, p: nat) returns (s2: Scan)
    requires Sane(q, s) && Idle(s) && p + 1 < |q| && s.peaks == []
    requires q[p] > 0.0 && q[p + 1] <= 0.0
    ensures s2 == Step(q, Step(q, s, p), p + 1)
    ensures s2 == Scan(0.0, 0.0, AFrac * q[p], p, false, [(p + 1) * Half + p])
  {
    var s1 := Step(q, s, p);
    assert s1 == Scan(q[p], 0.0, AFrac * q[p], p, true, []);
    s2 := Step(q, s1, p + 1);
  }
}
