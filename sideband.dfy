/**
 * Sideband common-mode correction (service/Sideband.cc). The sideband
 * projection is rolling-averaged; the deviation of the current shot from
 * that average is then summed separately over four groups of pixels (left
 * or right half of the trace, even or odd position), and the corrected
 * trace is the average shifted by the mean deviation of the pixel's group.
 */
module Sideband {
  import opened Averaging

  /** d[start] + d[start + 2] + ... (count terms). */
  function Stride2Sum(d: seq<real>, start: nat, count: nat): real
    requires count == 0 || start + 2 * count - 2 < |d|
  {
    if count == 0 then 0.0 else Stride2Sum(d, start, count - 1) + d[start + 2 * count - 2]
  }

  /** (x - a)[start] + (x - a)[start + 2] + ... (count terms): a group's total deviation. */
  function DevSum(x: seq<real>, a: seq<real>, start: nat, count: nat): real
    requires |x| == |a| && (count == 0 || start + 2 * count - 2 < |x|)
  {
    if count == 0 then 0.0 else DevSum(x, a, start, count - 1) + (x[start + 2 * count - 2] - a[start + 2 * count - 2])
  }

  lemma DevSumStep(x: seq<real>, a: seq<real>, start: nat, t: nat)
    requires |x| == |a| && start + 2 * t < |x|
    ensures DevSum(x, a, start, t + 1) == DevSum(x, a, start, t) + (x[start + 2 * t] - a[start + 2 * t])
  {
  }

  /** Trace lengths the paired loops of process handle. */
  predicate GoodCols(cols: nat) { cols >= 4 && cols % 4 == 0 }

  /** The first pixel of k's group: 0 or cols/2, plus k's parity. */
  function GroupStart(cols: nat, k: nat): nat
  {
    (if k < cols / 2 then 0 else cols / 2) + k % 2
  }

  /** The group's baseline shift: mean deviation over its cols/4 pixels. */
  function GroupShift(x: seq<real>, avg: seq<real>, start: nat): real
    requires |x| == |avg| && GoodCols(|x|)
    requires start == 0 || start == 1 || start == |x| / 2 || start == |x| / 2 + 1
  {
    DevSum(x, avg, start, |x| / 4) / ((|x| / 4) as real)
  }

  /** The shift that belongs to the group starting at start. */
  function Pick(cols: nat, start: nat, qle: real, qlo: real, qre: real, qro: real): real
  {
    if start == 0 then qle else if start == 1 then qlo else if start == cols / 2 then qre else qro
  }

  /** A trace with each pixel moved by its group's shift. */
  function Shifted(a: seq<real>, qle: real, qlo: real, qre: real, qro: real): (r: seq<real>)
    requires GoodCols(|a|)
    ensures |r| == |a|
  {
    seq(|a|, k requires 0 <= k < |a| => a[k] + Pick(|a|, GroupStart(|a|, k), qle, qlo, qre, qro))
  }

  /** The corrected trace: each pixel's average plus its group's shift. */
  function Corrected(x: seq<real>, avg: seq<real>): (r: seq<real>)
    requires |x| == |avg| && GoodCols(|x|)
    ensures |r| == |x|
  {
    Shifted(avg, GroupShift(x, avg, 0), GroupShift(x, avg, 1),
            GroupShift(x, avg, |x| / 2), GroupShift(x, avg, |x| / 2 + 1))
  }

  /** Summing a constant-shifted trace over a group adds count copies of the shift. */
  lemma {:induction false} Stride2SumShift(a: seq<real>, b: seq<real>, start: nat, count: nat, q: real)
    requires |a| == |b| && (count == 0 || start + 2 * count - 2 < |a|)
    requires forall t :: 0 <= t < count ==> b[start + 2 * t] == a[start + 2 * t] + q
    ensures Stride2Sum(b, start, count) == Stride2Sum(a, start, count) + (count as real) * q
  {
    if count > 0 {
      Stride2SumShift(a, b, start, count - 1, q);
      assert b[start + 2 * (count - 1)] == a[start + 2 * (count - 1)] + q;
    }
  }

  /** A group's total deviation is the difference of the group sums. */
  lemma {:induction false} DevSumSplit(x: seq<real>, avg: seq<real>, start: nat, count: nat)
    requires |x| == |avg| && (count == 0 || start + 2 * count - 2 < |x|)
    ensures DevSum(x, avg, start, count) == Stride2Sum(x, start, count) - Stride2Sum(avg, start, count)
  {
    if count > 0 {
      DevSumSplit(x, avg, start, count - 1);
    }
  }

  /**
   * The correction keeps each group's total: over every half/parity group
   * the corrected trace sums to the same value as the raw shot.
   */
  lemma GroupTotalKept(x: seq<real>, avg: seq<real>, start: nat)
    requires |x| == |avg| && GoodCols(|x|)
    requires start == 0 || start == 1 || start == |x| / 2 || start == |x| / 2 + 1
    ensures Stride2Sum(Corrected(x, avg), start, |x| / 4) == Stride2Sum(x, start, |x| / 4)
  {
    var n := |x| / 4;
    CorrectedGroupSum(x, avg, start, n);
    DevSumSplit(x, avg, start, n);
  }

  /** Over a group the corrected trace sums to the average's sum plus the group's total deviation. */
  lemma CorrectedGroupSum(x: seq<real>, avg: seq<real>, start: nat, n: nat)
    requires |x| == |avg| && GoodCols(|x|) && n == |x| / 4
    requires start == 0 || start == 1 || start == |x| / 2 || start == |x| / 2 + 1
    ensures start + 2 * n - 2 < |x|
    ensures Stride2Sum(Corrected(x, avg), start, n) == Stride2Sum(avg, start, n) + DevSum(x, avg, start, n)
  {
    GroupCorrected(x, avg, start, n);
    MeanShiftSum(avg, Corrected(x, avg), start, n, GroupShift(x, avg, start), DevSum(x, avg, start, n));
  }

  /** A group shifted by the mean d / n of n deviations sums to d more than before. */
  lemma MeanShiftSum(a: seq<real>, b: seq<real>, start: nat, n: nat, q: real, d: real)
    requires |a| == |b| && n >= 1 && start + 2 * n - 2 < |a|
    requires forall t :: 0 <= t < n ==> b[start + 2 * t] == a[start + 2 * t] + q
    requires q == d / (n as real)
    ensures Stride2Sum(b, start, n) == Stride2Sum(a, start, n) + d
  {
    Stride2SumShift(a, b, start, n, q);
    MeanTimesCount(Stride2Sum(b, start, n), Stride2Sum(a, start, n), n as real, q, d);
  }

  /** n copies of the mean d / n add up to d. */
  lemma MeanTimesCount(sc: real, sa: real, n: real, q: real, d: real)
    requires n != 0.0 && q == d / n && sc == sa + n * q
    ensures sc == sa + d
  {
  }

  /** Every pixel of a group is its average plus the group's shift. */
  lemma GroupCorrected(x: seq<real>, avg: seq<real>, start: nat, n: nat)
    requires |x| == |avg| && GoodCols(|x|) && n == |x| / 4
    requires start == 0 || start == 1 || start == |x| / 2 || start == |x| / 2 + 1
    ensures |x| == 4 * n && start + 2 * n - 2 < |x|
    ensures forall t :: 0 <= t < n ==> Corrected(x, avg)[start + 2 * t] == avg[start + 2 * t] + GroupShift(x, avg, start)
  {
    assert |x| == 4 * n;
    forall t | 0 <= t < n ensures Corrected(x, avg)[start + 2 * t] == avg[start + 2 * t] + GroupShift(x, avg, start) {
      GroupOf(n, start, t);
    }
  }

  /** Every pixel start + 2t of a group lies in that group. */
  lemma GroupOf(n: nat, start: nat, t: nat)
    requires n >= 1 && t < n
    requires start == 0 || start == 1 || start == 2 * n || start == 2 * n + 1
    ensures GroupStart(4 * n, start + 2 * t) == start
  {
    assert (4 * n) / 2 == 2 * n;
    var b := if start < 2 * n then 0 else 2 * n;
    assert start + 2 * t == b + (start - b) + 2 * t;
    assert (start + 2 * t) % 2 == start - b;
  }

  /** The four pixels written by iteration t of the output loop. */
  lemma ShiftedAt(a: seq<real>, n: nat, t: nat, qle: real, qlo: real, qre: real, qro: real)
    requires |a| == 4 * n && t < n
    ensures GoodCols(|a|)
    ensures Shifted(a, qle, qlo, qre, qro)[2 * t] == a[2 * t] + qle
    ensures Shifted(a, qle, qlo, qre, qro)[2 * t + 1] == a[2 * t + 1] + qlo
    ensures Shifted(a, qle, qlo, qre, qro)[2 * n + 2 * t] == a[2 * n + 2 * t] + qre
    ensures Shifted(a, qle, qlo, qre, qro)[2 * n + 2 * t + 1] == a[2 * n + 2 * t + 1] + qro
  {
    assert (4 * n) / 2 == 2 * n;
    GroupOf(n, 0, t);
    GroupOf(n, 1, t);
    GroupOf(n, 2 * n, t);
    GroupOf(n, 2 * n + 1, t);
  }

  lemma {:induction false} DevSumZero(x: seq<real>, start: nat, count: nat)
    requires count == 0 || start + 2 * count - 2 < |x|
    ensures DevSum(x, x, start, count) == 0.0
  {
    if count > 0 {
      DevSumZero(x, start, count - 1);
    }
  }

  /** When the shot equals the average every shift is 0 and the trace is returned as is. */
  lemma CorrectedOfAverage(x: seq<real>)
    requires GoodCols(|x|)
    ensures Corrected(x, x) == x
  {
    var n := |x| / 4;
    DevSumZero(x, 0, n);
    DevSumZero(x, 1, n);
    DevSumZero(x, |x| / 2, n);
    DevSumZero(x, |x| / 2 + 1, n);
  }

  /**
   * The j-th array index that the paired loops of process touch: iteration
   * j/4 handles k = 2(j/4) and m = cols/2 + k, in the order k, m, k+1, m+1.
   */
  function Visit(cols: nat, j: nat): nat
  {
    var k := 2 * (j / 4);
    var slot := j % 4;
    if slot == 0 then k
    else if slot == 1 then cols / 2 + k
    else if slot == 2 then k + 1
    else cols / 2 + k + 1
  }

  /** Number of paired iterations: the loop runs while k < cols/2, k stepping by 2. */
  function Iterations(cols: nat): nat { (cols / 2 + 1) / 2 }

  /** The visit that touches index i, when cols is a multiple of 4. */
  function VisitOf(cols: nat, i: nat): nat
  {
    var h := cols / 2;
    if i < h then 4 * (i / 2) + 2 * (i % 2) else 4 * ((i - h) / 2) + 1 + 2 * ((i - h) % 2)
  }

  lemma VisitRoundTrip(n: nat, j: nat)
    requires j < 4 * n
    ensures Visit(4 * n, j) < 4 * n && VisitOf(4 * n, Visit(4 * n, j)) == j
  {
    var q, slot := j / 4, j % 4;
    assert j == 4 * q + slot;
    assert (4 * n) / 2 == 2 * n;
    assert (2 * q) / 2 == q && (2 * q) % 2 == 0;
    assert (2 * q + 1) / 2 == q && (2 * q + 1) % 2 == 1;
  }

  lemma VisitOfRoundTrip(n: nat, i: nat)
    requires i < 4 * n
    ensures VisitOf(4 * n, i) < 4 * n && Visit(4 * n, VisitOf(4 * n, i)) == i
  {
    assert (4 * n) / 2 == 2 * n;
    var i' := if i < 2 * n then i else i - 2 * n;
    var q, b := i' / 2, i' % 2;
    assert i' == 2 * q + b;
    var j := VisitOf(4 * n, i);
    assert j == 4 * q + (if i < 2 * n then 0 else 1) + 2 * b;
    assert j / 4 == q;
    assert j % 4 == (if i < 2 * n then 0 else 1) + 2 * b;
  }

  /**
   * When cols is a multiple of 4 the paired k/m loops of process make
   * exactly cols visits and touch every index of [0, cols) exactly once:
   * Visit and VisitOf are inverse bijections between visits and indices.
   */
  lemma VisitsExactlyOnce(cols: nat)
    requires cols % 4 == 0
    ensures 4 * Iterations(cols) == cols
    ensures forall j :: 0 <= j < cols ==> Visit(cols, j) < cols && VisitOf(cols, Visit(cols, j)) == j
    ensures forall i :: 0 <= i < cols ==> VisitOf(cols, i) < cols && Visit(cols, VisitOf(cols, i)) == i
  {
    var n := cols / 4;
    IterationsOfMultiple(cols, n);
    forall j | 0 <= j < cols ensures Visit(cols, j) < cols && VisitOf(cols, Visit(cols, j)) == j {
      VisitRoundTrip(n, j);
    }
    forall i | 0 <= i < cols ensures VisitOf(cols, i) < cols && Visit(cols, VisitOf(cols, i)) == i {
      VisitOfRoundTrip(n, i);
    }
  }

  lemma IterationsOfMultiple(cols: nat, n: nat)
    requires cols % 4 == 0 && n == cols / 4
    ensures cols == 4 * n && 4 * Iterations(cols) == cols
  {
    assert cols / 2 == 2 * n;
    assert (2 * n + 1) / 2 == n;
  }

  /**
   * Otherwise the number of visits differs from cols, so no index set of
   * size cols is covered once; when cols % 4 == 2 the last visit lands on
   * index cols, one past the end of the buffers.
   */
  lemma VisitsMismatch(cols: nat)
    requires cols % 4 != 0
    ensures 4 * Iterations(cols) != cols
    ensures cols % 4 == 2 ==> Visit(cols, 4 * Iterations(cols) - 1) == cols
  {
    var q, r := cols / 4, cols % 4;
    assert cols == 4 * q + r;
    if r == 2 {
      assert cols / 2 == 2 * q + 1;
      assert Iterations(cols) == q + 1;
      var j := 4 * q + 3;
      assert j / 4 == q && j % 4 == 3;
    } else if r == 1 {
      assert cols / 2 == 2 * q;
    } else {
      assert cols / 2 == 2 * q + 1;
    }
  }

  /**
   * The paired k/m summation loop of process over the shot x and the
   * average a: the four group sums of x - a.
   */
  method GroupSums(x: seq<real>, a: seq<real>, n: nat) returns (le: real, lo: real, re: real, ro: real)
    requires |x| == |a| == 4 * n
    ensures le == DevSum(x, a, 0, n) && lo == DevSum(x, a, 1, n)
    ensures re == DevSum(x, a, 2 * n, n) && ro == DevSum(x, a, 2 * n + 1, n)
  {
    var half := 2 * n;
    le, lo, re, ro := 0.0, 0.0, 0.0, 0.0;
    var k, m := 0, half;
    ghost var t := 0;
    while k < half
      invariant 0 <= t <= n && k == 2 * t && m == half + k
      invariant le == DevSum(x, a, 0, t) && lo == DevSum(x, a, 1, t)
      invariant re == DevSum(x, a, half, t) && ro == DevSum(x, a, half + 1, t)
    {
      DevSumStep(x, a, 0, t);
      DevSumStep(x, a, 1, t);
      DevSumStep(x, a, half, t);
      DevSumStep(x, a, half + 1, t);
      le := le + (x[k] - a[k]); k := k + 1;
      re := re + (x[m] - a[m]); m := m + 1;
      lo := lo + (x[k] - a[k]); k := k + 1;
      ro := ro + (x[m] - a[m]); m := m + 1;
      t := t + 1;
    }
  }

  /** The output loop of process: out = a shifted by the group shifts. */
  method ApplyShifts(out: array<real>, a: seq<real>, n: nat, qle: real, qlo: real, qre: real, qro: real)
    requires out.Length == |a| == 4 * n && n >= 1
    modifies out
    ensures out[..] == Shifted(a, qle, qlo, qre, qro)
  {
    ghost var c := Shifted(a, qle, qlo, qre, qro);
    var half := 2 * n;
    var k, m := 0, half;
    ghost var t := 0;
    while k < half
      invariant 0 <= t <= n && k == 2 * t && m == half + k
      invariant forall j :: 0 <= j < k ==> out[j] == c[j]
      invariant forall j :: half <= j < m ==> out[j] == c[j]
    {
      ShiftedAt(a, n, t, qle, qlo, qre, qro);
      out[k] := a[k] + qle; k := k + 1;
      out[m] := a[m] + qre; m := m + 1;
      out[k] := a[k] + qlo; k := k + 1;
      out[m] := a[m] + qro; m := m + 1;
      t := t + 1;
    }
    assert out[..] == c;
  }

  /** What process carries from one shot to the next: the weight, whether an average exists, and the average. */
  datatype State = State(f1: real, init: bool, avg: seq<real>)

  /** The state after process of input: the first call copies, later ones blend. */
  function Learn(s: State, input: seq<int>): State
    requires |s.avg| == |input|
  {
    s.(init := true, avg := if s.init then BlendSeq(s.f1, s.avg, AsReals(input)) else AsReals(input))
  }

  /** The trace process returns: the new average moved by the four group shifts of the input. */
  function Output(s: State, input: seq<int>): (r: seq<real>)
    requires |s.avg| == |input| && GoodCols(|input|)
    ensures |r| == |input|
  {
    Corrected(AsReals(input), Learn(s, input).avg)
  }

  /** Before any average exists the output is the input itself. */
  lemma FirstOutput(s: State, input: seq<int>)
    requires |s.avg| == |input| && GoodCols(|input|) && !s.init
    ensures Output(s, input) == AsReals(input)
  {
    CorrectedOfAverage(AsReals(input));
  }

  class Sideband {
    var f1: real
    var init: bool
    const cols: nat
    const wf: array<real>
    const avg: array<real>
    var qLeftEven: real
    var qLeftOdd: real
    var qRightEven: real
    var qRightOdd: real

    ghost predicate Valid()
    {
      wf.Length == cols && avg.Length == cols && wf != avg
    }

    constructor (cols: nat)
      ensures Valid() && this.cols == cols
      ensures f1 == 0.05 && !init
      ensures fresh(wf) && fresh(avg)
    {
      this.cols := cols;
      f1 := 0.05;
      init := false;
      wf := new real[cols];
      avg := new real[cols];
    }

    method SetConvergence(v: real)
      modifies this`f1
      ensures f1 == v
    {
      f1 := v;
    }

    /** The state process reads and writes. */
    function Snapshot(): State
      reads this, avg
    {
      State(f1, init, avg[..])
    }

    /** The group shift stored for the group starting at start. */
    function Shift(start: nat): real
      reads this
    {
      if start == 0 then qLeftEven
      else if start == 1 then qLeftOdd
      else if start == cols / 2 then qRightEven
      else qRightOdd
    }

    /**
     * process: update the average (copy on the first call), compute the four
     * group shifts and write the corrected trace, which is returned.
     */
    method Process(input: seq<int>) returns (out: array<real>)
      requires Valid() && |input| == cols && GoodCols(cols)
      modifies this`init, this`qLeftEven, this`qLeftOdd, this`qRightEven, this`qRightOdd, wf, avg
      ensures Valid() && out == wf && init && f1 == old(f1)
      ensures avg[..] == if old(init) then BlendSeq(f1, old(avg[..]), AsReals(input)) else AsReals(input)
      ensures qLeftEven == GroupShift(AsReals(input), avg[..], 0)
      ensures qLeftOdd == GroupShift(AsReals(input), avg[..], 1)
      ensures qRightEven == GroupShift(AsReals(input), avg[..], cols / 2)
      ensures qRightOdd == GroupShift(AsReals(input), avg[..], cols / 2 + 1)
      ensures wf[..] == Corrected(AsReals(input), avg[..])
      ensures !old(init) ==> wf[..] == AsReals(input)
      ensures Snapshot() == Learn(old(Snapshot()), input) && wf[..] == Output(old(Snapshot()), input)
    {
      UpdateAverage(input);
      ComputeShifts(input);
      WriteCorrected(input);
      if !old(init) {
        CorrectedOfAverage(AsReals(input));
      }
      out := wf;
    }

    /** First half of process: copy on the first call, rolling average afterwards. */
    method UpdateAverage(input: seq<int>)
      requires Valid() && |input| == cols
      modifies this`init, avg
      ensures init
      ensures avg[..] == if old(init) then BlendSeq(f1, old(avg[..]), AsReals(input)) else AsReals(input)
    {
      var x := AsReals(input);
      if !init {
        init := true;
        var k := 0;
        while k < cols
          invariant 0 <= k <= cols && init
          invariant forall j :: 0 <= j < k ==> avg[j] == x[j]
        {
          avg[k] := input[k] as real;
          k := k + 1;
        }
        assert avg[..] == x;
      } else {
        ghost var a0 := avg[..];
        var k := 0;
        while k < cols
          invariant 0 <= k <= cols
          invariant init
          invariant forall j :: 0 <= j < k ==> avg[j] == Blend(f1, a0[j], x[j])
          invariant forall j :: k <= j < cols ==> avg[j] == a0[j]
        {
          avg[k] := (1.0 - f1) * avg[k] + f1 * (input[k] as real);
          k := k + 1;
        }
        assert avg[..] == BlendSeq(f1, a0, x);
      }
    }

    /** The four baseline shifts: group sums of the deviation, divided by cols/4. */
    method ComputeShifts(input: seq<int>)
      requires Valid() && |input| == cols && GoodCols(cols)
      modifies this`qLeftEven, this`qLeftOdd, this`qRightEven, this`qRightOdd
      ensures qLeftEven == GroupShift(AsReals(input), avg[..], 0)
      ensures qLeftOdd == GroupShift(AsReals(input), avg[..], 1)
      ensures qRightEven == GroupShift(AsReals(input), avg[..], cols / 2)
      ensures qRightOdd == GroupShift(AsReals(input), avg[..], cols / 2 + 1)
    {
      var n := cols / 4;
      assert cols == 4 * n && cols / 2 == 2 * n;
      var le, lo, re, ro := GroupSums(AsReals(input), avg[..], n);
      var count := (cols / 4) as real;
      qLeftEven := le / count;
      qLeftOdd := lo / count;
      qRightEven := re / count;
      qRightOdd := ro / count;
    }

    /** The corrected trace: average plus the shift of the pixel's group. */
    method WriteCorrected(input: seq<int>)
      requires Valid() && |input| == cols && GoodCols(cols)
      requires qLeftEven == GroupShift(AsReals(input), avg[..], 0)
      requires qLeftOdd == GroupShift(AsReals(input), avg[..], 1)
      requires qRightEven == GroupShift(AsReals(input), avg[..], cols / 2)
      requires qRightOdd == GroupShift(AsReals(input), avg[..], cols / 2 + 1)
      modifies wf
      ensures wf[..] == Corrected(AsReals(input), avg[..])
    {
      ApplyShifts(wf, avg[..], cols / 4, qLeftEven, qLeftOdd, qRightEven, qRightOdd);
    }
  }
}
