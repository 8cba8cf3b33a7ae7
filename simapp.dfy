/**
 * The camera simulator's test pattern (sim/SimApp.cc). On an L1Accept the
 * camera frame the datagram walk reaches gets row 515 set to 256 across its
 * width and row 555 set to a bar of 128 that grows by one pixel per frame,
 * the rest of the row being 256. The bar's length comes from one counter
 * shared by all frames (a function-local static), advanced modulo the frame
 * width before each frame is painted.
 *
 * MyIter::process returns 0 for every record, and the container iteration
 * stops at the first record for which process returns 0, skipping a
 * container flagged IncompleteContribution. So the walk follows the chain
 * of first children and paints at most one frame: the one at its end.
 *
 * A frame is its 16-bit pixels row after row. When the counter is 0 the
 * first loop still writes one pixel, so the bar is never empty; and for a
 * frame one pixel wide the second loop writes one pixel past row 555. Both
 * are modelled as written. A width of 0 would divide by zero and is excluded.
 */
module SimApp {
  import opened Wrappers

  const Background: nat := 256
  const Bar: nat := 128

  /** The counter after one more frame of the given width. */
  function Next(v: nat, width: nat): (r: nat)
    requires width >= 1
    ensures r < width
  {
    (v + 1) % width
  }

  /** The pixels of row 555 the first do-while writes: at least one. */
  function BarLength(v: nat): (n: nat)
    ensures n >= 1 && (v >= 1 ==> n == v)
  {
    if v == 0 then 1 else v
  }

  /** Where the second do-while stops, counted from the start of row 555. */
  function BarRowEnd(width: nat): (e: nat)
    requires width >= 1
    ensures e >= width && e >= 2
  {
    if width == 1 then 2 else width
  }

  /** The frame with pixels [lo, hi) set to x. */
  function Filled(d: seq<nat>, lo: nat, hi: nat, x: nat): (p: seq<nat>)
    requires lo <= hi <= |d|
    ensures |p| == |d|
  {
    seq(|d|, k requires 0 <= k < |d| => if lo <= k < hi then x else d[k])
  }

  /**
   * The frame after painting, with the counter v already advanced: row 515
   * (pixels 515 * width on) in background, then from the start of row 555
   * the bar, then background up to where the second loop stops.
   */
  function Painted(d: seq<nat>, width: nat, v: nat): (p: seq<nat>)
    requires width >= 1 && v < width && 555 * width + BarRowEnd(width) <= |d|
  {
    var row := 555 * width;
    Filled(Filled(Filled(d, 515 * width, 516 * width, Background), row, row + BarLength(v), Bar),
           row + BarLength(v), row + BarRowEnd(width), Background)
  }

  /**
   * What a painted frame holds, pixel by pixel: row 515 is background, row
   * 555 starts with exactly BarLength(v) bar pixels followed by background,
   * and every other pixel is as it was.
   */
  lemma PaintedPixels(d: seq<nat>, width: nat, v: nat)
    requires width >= 1 && v < width && 555 * width + BarRowEnd(width) <= |d|
    ensures |Painted(d, width, v)| == |d|
    ensures forall k :: 515 * width <= k < 516 * width ==> Painted(d, width, v)[k] == Background
    ensures forall k :: 555 * width <= k < 555 * width + BarLength(v) ==> Painted(d, width, v)[k] == Bar
    ensures forall k :: 555 * width + BarLength(v) <= k < 555 * width + BarRowEnd(width) ==>
      Painted(d, width, v)[k] == Background
    ensures forall k :: 0 <= k < |d| && (k < 515 * width || 516 * width <= k < 555 * width || 555 * width + BarRowEnd(width) <= k) ==>
      Painted(d, width, v)[k] == d[k]
  {
  }

  /** The counter after frames of the given widths. */
  function Counter(v: nat, widths: seq<nat>): nat
    requires forall i :: 0 <= i < |widths| ==> widths[i] >= 1
  {
    if widths == [] then v else Next(Counter(v, widths[..|widths| - 1]), widths[|widths| - 1])
  }

  /** The counter once frames 0 to i have been painted. */
  function CounterAt(v: nat, widths: seq<nat>, i: nat): (r: nat)
    requires i < |widths| && forall k :: 0 <= k < |widths| ==> widths[k] >= 1
    ensures r < widths[i] && r == Next(Counter(v, widths[..i]), widths[i])
  {
    assert widths[..i + 1][..i] == widths[..i];
    Counter(v, widths[..i + 1])
  }

  /** One step of a counter below the width: up by one, or back to 0 at the width. */
  lemma NextBelow(c: nat, w: nat)
    requires c < w
    ensures Next(c, w) == if c + 1 < w then c + 1 else 0
  {
  }

  /**
   * With frames of one width and a counter below it, the counter climbs by
   * one per frame and wraps to 0 on reaching the width.
   */
  lemma {:induction false} SteadyCounter(v: nat, w: nat, n: nat)
    requires v < w && n <= w
    ensures Counter(v, seq(n, _ => w)) == if v + n < w then v + n else v + n - w
  {
    if n > 0 {
      var ws := seq(n, _ => w);
      assert ws[..n - 1] == seq(n - 1, _ => w);
      SteadyCounter(v, w, n - 1);
      NextBelow(Counter(v, ws[..n - 1]), w);
    }
  }

  /** After as many frames as the width, the bar is back at its length. */
  lemma BarCycles(v: nat, w: nat)
    requires v < w
    ensures Counter(v, seq(w, _ => w)) == v
  {
    SteadyCounter(v, w, w);
  }

  /**
   * A datagram's records as the walk sees them: a container (with its
   * IncompleteContribution flag), a camera frame, held as the index of its
   * pixels among the frames of the event, or any other record.
   */
  datatype Tree = Container(damaged: bool, children: seq<Tree>) | Frame(slot: nat) | Other

  /** The frame the walk paints: at the end of the chain of first children, if any. */
  function Reached(t: Tree): Option<nat>
  {
    match t
    case Container(damaged, cs) => if damaged || cs == [] then None else Reached(cs[0])
    case Frame(k) => Some(k)
    case Other => None
  }

  /** Every frame of a datagram. */
  function Frames(t: Tree): set<nat>
  {
    match t
    case Container(_, cs) => set i, k | 0 <= i < |cs| && k in Frames(cs[i]) :: k
    case Frame(k) => {k}
    case Other => {}
  }

  /** The frame the walk reaches is a frame of the datagram. */
  lemma {:induction false} ReachedIsFrame(t: Tree)
    requires Reached(t).Some?
    ensures Reached(t).value in Frames(t)
  {
    match t
    case Container(_, cs) =>
      ReachedIsFrame(cs[0]);
      assert Reached(cs[0]).value in Frames(cs[0]);
    case Frame(_) =>
    case Other =>
  }

  /**
   * As written, a frame that follows another record in the datagram is
   * never painted: the walk stops after the first record.
   */
  lemma FrameAfterOtherUnpainted()
    ensures var t := Container(false, [Other, Frame(0)]);
      0 in Frames(t) && Reached(t).None?
  {
    var t := Container(false, [Other, Frame(0)]);
    assert 0 in Frames(Frame(0)) && t.children[1] == Frame(0);
  }

  /** The appliance; v is the static counter of MyIter::process. */
  class Simulator {
    var v: nat

    constructor ()
      ensures v == 0
    {
      v := 0;
    }

    /** MyIter::process on a frame: row 515, then the counter, then row 555. */
    method PaintFrame(d: array<nat>, width: nat)
      requires width >= 1 && 555 * width + BarRowEnd(width) <= d.Length
      modifies this, d
      ensures v == Next(old(v), width)
      ensures d[..] == Painted(old(d[..]), width, v)
    {
      Fill(d, 515 * width, width, Background);
      v := (v + 1) % width;
      var i := FillFrom(d, 555 * width, 0, v, Bar);
      i := FillFrom(d, 555 * width, i, width, Background);
    }

    /**
     * events: on an L1Accept the frame the walk reaches, if any, is painted
     * with the counter advanced before it; every other frame, and every
     * frame of any other transition, is left alone.
     */
    method Events(l1Accept: bool, root: Tree, frames: seq<array<nat>>, widths: seq<nat>)
      requires |frames| == |widths|
      requires forall i :: 0 <= i < |frames| ==> widths[i] >= 1 && 555 * widths[i] + BarRowEnd(widths[i]) <= frames[i].Length
      requires forall i, j :: 0 <= i < j < |frames| ==> frames[i] != frames[j]
      requires l1Accept && Reached(root).Some? ==> Reached(root).value < |frames|
      modifies this, set i | 0 <= i < |frames| :: frames[i]
      ensures !(l1Accept && Reached(root).Some?) ==>
        v == old(v) && forall i :: 0 <= i < |frames| ==> frames[i][..] == old(frames[i][..])
      ensures l1Accept && Reached(root).Some? ==>
        var k := Reached(root).value;
        && v == Next(old(v), widths[k])
        && frames[k][..] == Painted(old(frames[k][..]), widths[k], v)
        && forall i :: 0 <= i < |frames| && i != k ==> frames[i][..] == old(frames[i][..])
    {
      var reached := Reached(root);
      if l1Accept && reached.Some? {
        PaintFrame(frames[reached.value], widths[reached.value]);
      }
    }

    /**
     * The walk as evidently intended, with process going on after each
     * record as the other iterators do: each frame painted in turn.
     */
    method PaintAll(frames: seq<array<nat>>, widths: seq<nat>)
      requires |frames| == |widths|
      requires forall i :: 0 <= i < |frames| ==> widths[i] >= 1 && 555 * widths[i] + BarRowEnd(widths[i]) <= frames[i].Length
      requires forall i, j :: 0 <= i < j < |frames| ==> frames[i] != frames[j]
      modifies this, set i | 0 <= i < |frames| :: frames[i]
      ensures v == Counter(old(v), widths)
      ensures forall i :: 0 <= i < |frames| ==>
        frames[i][..] == Painted(old(frames[i][..]), widths[i], Counter(old(v), widths[..i + 1]))
    {
      ghost var before := Contents(frames);
      ghost var v0 := v;
      var n := 0;
      while n < |frames|
        invariant 0 <= n <= |frames|
        invariant v == Counter(v0, widths[..n])
        invariant forall i :: 0 <= i < n ==>
          frames[i][..] == Painted(before[i], widths[i], CounterAt(v0, widths, i))
        invariant forall i :: n <= i < |frames| ==> frames[i][..] == before[i]
      {
        assert widths[..n + 1][..n] == widths[..n];
        PaintFrame(frames[n], widths[n]);
        n := n + 1;
      }
      assert widths[..n] == widths;
    }
  }

  /** The pixels of each frame, in order. */
  function Contents(frames: seq<array<nat>>): (r: seq<seq<nat>>)
    reads set i | 0 <= i < |frames| :: frames[i]
    ensures |r| == |frames| && forall i :: 0 <= i < |frames| ==> r[i] == frames[i][..]
  {
    seq(|frames|, i requires 0 <= i < |frames| reads frames => frames[i][..])
  }

  /** The for loop over row 515: n pixels from base set to x. */
  method Fill(d: array<nat>, base: nat, n: nat, x: nat)
    requires base + n <= d.Length
    modifies d
    ensures d[..] == Filled(old(d[..]), base, base + n, x)
  {
    var i := 0;
    while i < n
      invariant 0 <= i <= n
      invariant d[..] == Filled(old(d[..]), base, base + i, x)
    {
      d[base + i] := x;
      i := i + 1;
    }
  }

  /**
   * One do-while over row 555: writes x at base + i and moves on while the
   * incremented i stays below stop, so at least one pixel is written.
   */
  method FillFrom(d: array<nat>, base: nat, i0: nat, stop: nat, x: nat) returns (i: nat)
    requires base + (if stop > i0 then stop else i0 + 1) <= d.Length
    modifies d
    ensures i == if stop > i0 then stop else i0 + 1
    ensures d[..] == Filled(old(d[..]), base + i0, base + i, x)
  {
    i := i0;
    while true
      invariant i0 <= i && (i < stop || i == i0) && base + i < d.Length
      invariant d[..] == Filled(old(d[..]), base + i0, base + i, x)
      decreases (if stop > i0 then stop else i0 + 1) - i
    {
      d[base + i] := x;
      i := i + 1;
      if i >= stop {
        break;
      }
    }
  }
}
