/**
 * Projection of a rectangular region of a 16-bit camera frame onto one axis
 * (project_spectrumX / project_spectrumY). The frame is a sequence of rows
 * of pixel values; the output trace is a buffer of unsigned 32-bit words,
 * so every sum wraps modulo 2^32 exactly as the C++ `uint32_t +=` does.
 */
module Projection {
  const U32: int := 0x1_0000_0000
  const PixelMax: int := 0xffff

  /** Every row has `width` pixels and every pixel fits in 16 bits. */
  predicate IsFrame(frame: seq<seq<int>>, width: nat)
  {
    forall r :: 0 <= r < |frame| ==>
      |frame[r]| == width && forall c :: 0 <= c < width ==> 0 <= frame[r][c] <= PixelMax
  }

  function Max(a: int, b: int): int { if a < b then b else a }

  /** Exact sum of column c over the rows lo .. hi-1 (0 when hi <= lo). */
  function ColumnSum(frame: seq<seq<int>>, width: nat, c: nat, lo: nat, hi: nat): int
    requires IsFrame(frame, width) && c < width && hi <= |frame|
    decreases hi
  {
    if hi <= lo then 0 else ColumnSum(frame, width, c, lo, hi - 1) + frame[hi - 1][c]
  }

  /** Exact sum of row[lo .. hi-1] (0 when hi <= lo). */
  function RowSum(row: seq<int>, lo: nat, hi: nat): int
    requires hi <= |row|
    decreases hi
  {
    if hi <= lo then 0 else RowSum(row, lo, hi - 1) + row[hi - 1]
  }

  lemma ModAdd(a: int, x: int)
    ensures (a % U32 + x) % U32 == (a + x) % U32
  {
  }

  lemma FirstRow(frame: seq<seq<int>>, width: nat, c: nat, top: nat)
    requires IsFrame(frame, width) && c < width && top < |frame|
    ensures ColumnSum(frame, width, c, top, top + 1) % U32 == frame[top][c]
  {
    assert ColumnSum(frame, width, c, top, top + 1) == frame[top][c];
  }

  /** A column sum over k rows is at most k full-scale pixels. */
  lemma {:induction false} ColumnSumBounds(frame: seq<seq<int>>, width: nat, c: nat, lo: nat, hi: nat)
    requires IsFrame(frame, width) && c < width && lo <= hi <= |frame|
    ensures 0 <= ColumnSum(frame, width, c, lo, hi) <= PixelMax * (hi - lo)
    decreases hi
  {
    if hi > lo {
      ColumnSumBounds(frame, width, c, lo, hi - 1);
    }
  }

  /** A row sum over k columns is at most k full-scale pixels. */
  lemma {:induction false} RowSumBounds(row: seq<int>, lo: nat, hi: nat)
    requires lo <= hi <= |row|
    requires forall c :: 0 <= c < |row| ==> 0 <= row[c] <= PixelMax
    ensures 0 <= RowSum(row, lo, hi) <= PixelMax * (hi - lo)
    decreases hi
  {
    if hi > lo {
      RowSumBounds(row, lo, hi - 1);
    }
  }

  /**
   * The 32-bit accumulator never wraps while at most 65537 rows are summed,
   * so the projected value is then the exact column sum.
   */
  lemma ColumnSumFits(frame: seq<seq<int>>, width: nat, c: nat, lo: nat, hi: nat)
    requires IsFrame(frame, width) && c < width && lo <= hi <= |frame|
    requires hi - lo <= 0x1_0001
    ensures ColumnSum(frame, width, c, lo, hi) % U32 == ColumnSum(frame, width, c, lo, hi)
  {
    ColumnSumBounds(frame, width, c, lo, hi);
  }

  /** The same for a row projection over at most 65537 columns. */
  lemma RowSumFits(row: seq<int>, lo: nat, hi: nat)
    requires lo <= hi <= |row|
    requires forall c :: 0 <= c < |row| ==> 0 <= row[c] <= PixelMax
    requires hi - lo <= 0x1_0001
    ensures RowSum(row, lo, hi) % U32 == RowSum(row, lo, hi)
  {
    RowSumBounds(row, lo, hi);
  }

  /** The buffer project_spectrumX leaves, given its contents before. */
  function XTrace(frame: seq<seq<int>>, width: nat, top: nat, bot: nat, lft: nat, rgt: nat, prev: seq<int>): (r: seq<int>)
    requires IsFrame(frame, width)
    requires top < |frame| && bot < |frame| && rgt < width <= |prev|
    ensures |r| == |prev|
  {
    seq(|prev|, i requires 0 <= i < |prev| =>
      if lft <= i <= rgt then ColumnSum(frame, width, i, top, Max(top, bot) + 1) % U32
      else if i < Max(lft, width) then 0
      else prev[i])
  }

  /** A buffer that agrees with XTrace position by position is XTrace. */
  lemma XTraceIs(frame: seq<seq<int>>, width: nat, top: nat, bot: nat, lft: nat, rgt: nat, prev: seq<int>, s: seq<int>)
    requires IsFrame(frame, width)
    requires top < |frame| && bot < |frame| && rgt < width <= |prev| && |s| == |prev|
    requires forall i :: lft <= i <= rgt ==> s[i] == ColumnSum(frame, width, i, top, Max(top, bot) + 1) % U32
    requires forall i :: 0 <= i < lft && i < |s| ==> s[i] == 0
    requires forall i :: rgt < i < width ==> s[i] == 0
    requires forall i :: Max(lft, width) <= i < |s| ==> s[i] == prev[i]
    ensures s == XTrace(frame, width, top, bot, lft, rgt, prev)
  {
  }

  /** The buffer project_spectrumY leaves, given its contents before. */
  function YTrace(frame: seq<seq<int>>, width: nat, lft: nat, rgt: nat, top: nat, bot: nat, prev: seq<int>): (r: seq<int>)
    requires IsFrame(frame, width) && rgt < width
    requires top <= bot ==> bot < |frame| && bot < |prev|
    ensures |r| == |prev|
  {
    seq(|prev|, i requires 0 <= i < |prev| =>
      if top <= i <= bot then RowSum(frame[i], lft, rgt + 1) % U32 else prev[i])
  }

  /**
   * project_spectrumX: columns lft..rgt of sig receive the column sums over
   * rows top..bot (the first row top is always copied, even when bot < top);
   * every other position below the frame width is zeroed.
   */
  method ProjectX(frame: seq<seq<int>>, width: nat, top: nat, bot: nat, lft: nat, rgt: nat, sig: array<int>)
    requires IsFrame(frame, width)
    requires top < |frame| && bot < |frame|
    requires rgt < width <= sig.Length && lft <= sig.Length
    modifies sig
    ensures forall i :: lft <= i <= rgt ==>
      sig[i] == ColumnSum(frame, width, i, top, Max(top, bot) + 1) % U32
    ensures forall i :: 0 <= i < lft ==> sig[i] == 0
    ensures forall i :: rgt < i < width ==> sig[i] == 0
    ensures forall i :: Max(lft, width) <= i < sig.Length ==> sig[i] == old(sig[i])
    ensures sig[..] == XTrace(frame, width, top, bot, lft, rgt, old(sig[..]))
  {
    CopyFirstRow(frame, width, top, lft, rgt, sig);
    var j := top + 1;
    while j <= bot
      invariant top + 1 <= j <= Max(top, bot) + 1
      invariant forall k :: 0 <= k < lft ==> sig[k] == 0
      invariant forall k :: lft <= k <= rgt ==> sig[k] == ColumnSum(frame, width, k, top, j) % U32
      invariant forall k :: rgt < k < width ==> sig[k] == 0
      invariant forall k :: Max(lft, width) <= k < sig.Length ==> sig[k] == old(sig[k])
    {
      AddRow(frame, width, top, j, lft, rgt, sig);
      j := j + 1;
    }
    XTraceIs(frame, width, top, bot, lft, rgt, old(sig[..]), sig[..]);
  }

  /** The three first loops of project_spectrumX: zeros around a copy of row top. */
  method CopyFirstRow(frame: seq<seq<int>>, width: nat, top: nat, lft: nat, rgt: nat, sig: array<int>)
    requires IsFrame(frame, width)
    requires top < |frame| && rgt < width <= sig.Length && lft <= sig.Length
    modifies sig
    ensures forall k :: 0 <= k < lft ==> sig[k] == 0
    ensures forall k :: lft <= k <= rgt ==> sig[k] == ColumnSum(frame, width, k, top, top + 1) % U32
    ensures forall k :: rgt < k < width ==> sig[k] == 0
    ensures forall k :: Max(lft, width) <= k < sig.Length ==> sig[k] == old(sig[k])
  {
    var i := 0;
    while i < lft
      invariant 0 <= i <= lft
      invariant forall k :: 0 <= k < i ==> sig[k] == 0
      invariant forall k :: Max(lft, width) <= k < sig.Length ==> sig[k] == old(sig[k])
    {
      sig[i] := 0;
      i := i + 1;
    }
    while i <= rgt
      invariant lft <= i <= Max(lft, rgt + 1)
      invariant forall k :: 0 <= k < lft ==> sig[k] == 0
      invariant forall k :: lft <= k < i ==> sig[k] == ColumnSum(frame, width, k, top, top + 1) % U32
      invariant forall k :: Max(lft, width) <= k < sig.Length ==> sig[k] == old(sig[k])
    {
      FirstRow(frame, width, i, top);
      sig[i] := frame[top][i];
      i := i + 1;
    }
    while i < width
      invariant Max(lft, rgt + 1) <= i <= Max(lft, width)
      invariant forall k :: 0 <= k < lft ==> sig[k] == 0
      invariant forall k :: lft <= k <= rgt ==> sig[k] == ColumnSum(frame, width, k, top, top + 1) % U32
      invariant forall k :: rgt < k < i ==> sig[k] == 0
      invariant forall k :: Max(lft, width) <= k < sig.Length ==> sig[k] == old(sig[k])
    {
      sig[i] := 0;
      i := i + 1;
    }
  }

  /** The inner loop of project_spectrumX: adds row j to columns lft..rgt. */
  method AddRow(frame: seq<seq<int>>, width: nat, top: nat, j: nat, lft: nat, rgt: nat, sig: array<int>)
    requires IsFrame(frame, width)
    requires top < j < |frame| && rgt < width <= sig.Length
    requires forall k :: lft <= k <= rgt ==> sig[k] == ColumnSum(frame, width, k, top, j) % U32
    modifies sig
    ensures forall k :: lft <= k <= rgt ==> sig[k] == ColumnSum(frame, width, k, top, j + 1) % U32
    ensures forall k :: 0 <= k < sig.Length && !(lft <= k <= rgt) ==> sig[k] == old(sig[k])
  {
    var c := lft;
    while c <= rgt
      invariant lft <= c <= Max(lft, rgt + 1)
      invariant forall k :: lft <= k < c ==> sig[k] == ColumnSum(frame, width, k, top, j + 1) % U32
      invariant forall k :: c <= k <= rgt ==> sig[k] == ColumnSum(frame, width, k, top, j) % U32
      invariant forall k :: 0 <= k < sig.Length && !(lft <= k <= rgt) ==> sig[k] == old(sig[k])
    {
      ModAdd(ColumnSum(frame, width, c, top, j), frame[j][c]);
      sig[c] := (sig[c] + frame[j][c]) % U32;
      c := c + 1;
    }
  }

  /**
   * project_spectrumY: for each row i in top..bot, sig[i] receives the sum of
   * that row over columns lft..rgt; no other position of sig is written.
   */
  method ProjectY(frame: seq<seq<int>>, width: nat, lft: nat, rgt: nat, top: nat, bot: nat, sig: array<int>)
    requires IsFrame(frame, width)
    requires rgt < width
    requires top <= bot ==> bot < |frame| && bot < sig.Length
    modifies sig
    ensures forall i :: top <= i <= bot ==>
      sig[i] == RowSum(frame[i], lft, rgt + 1) % U32
    ensures forall i :: 0 <= i < sig.Length && !(top <= i <= bot) ==> sig[i] == old(sig[i])
    ensures sig[..] == YTrace(frame, width, lft, rgt, top, bot, old(sig[..]))
  {
    var i := top;
    while i <= bot
      invariant top <= i <= Max(top, bot + 1)
      invariant forall k :: top <= k < i ==> sig[k] == RowSum(frame[k], lft, rgt + 1) % U32
      invariant forall k :: 0 <= k < sig.Length && !(top <= k < i) ==> sig[k] == old(sig[k])
    {
      sig[i] := 0;
      var c := lft;
      while c <= rgt
        invariant lft <= c <= Max(lft, rgt + 1)
        invariant c <= rgt + 1 ==> sig[i] == RowSum(frame[i], lft, c) % U32
        invariant c > rgt + 1 ==> sig[i] == 0
        invariant forall k :: top <= k < i ==> sig[k] == RowSum(frame[k], lft, rgt + 1) % U32
        invariant forall k :: 0 <= k < sig.Length && !(top <= k <= i) ==> sig[k] == old(sig[k])
      {
        ModAdd(RowSum(frame[i], lft, c), frame[i][c]);
        sig[i] := (sig[i] + frame[i][c]) % U32;
        c := c + 1;
      }
      i := i + 1;
    }
  }
}
