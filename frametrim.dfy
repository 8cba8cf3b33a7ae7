/**
 * FrameTrim of app/TimeToolA.cc and event/TimeToolA.cc (the two copies are
 * identical): an in-place compaction of a datagram's nested containers that
 * drops every camera frame. A container is five 32-bit header words
 * (damage, source log and phy, type id, extent in bytes) followed by its
 * payload; an intact container's payload is its children one after the
 * other. The trim copies each kept word down to a write position that
 * never passes the read position, and rewrites every intact container's
 * extent to the size actually written.
 *
 * The numeric type ids of containers and frames and the bit number of the
 * IncompleteContribution damage come from the framework's headers, which
 * are not part of this model; they are parameters (Ids). The type id of a
 * header word is its low 16 bits.
 */
module FrameTrim {
  datatype Ids = Ids(container: nat, frame: nat, incompleteBit: nat)

  predicate GoodIds(ids: Ids)
  {
    ids.container != ids.frame
  }

  function Pow2(n: nat): (r: nat)
    ensures r > 0
  {
    if n == 0 then 1 else 2 * Pow2(n - 1)
  }

  /** The IncompleteContribution bit of a damage word. */
  predicate Damaged(ids: Ids, damage: nat)
  {
    (damage / Pow2(ids.incompleteBit)) % 2 == 1
  }

  function TypeOf(contains: nat): nat
  {
    contains % 0x10000
  }

  datatype Header = Header(damage: nat, log: nat, phy: nat, contains: nat)

  /**
   * A container tree. A Leaf's payload is opaque (a frame, any other data,
   * or a damaged container that is never looked into); a Node is an intact
   * container with its children.
   */
  datatype Xtc = Leaf(h: Header, payload: seq<nat>) | Node(h: Header, children: seq<Xtc>)

  /** The five header words of a container of the given size in words. */
  function HeaderWords(h: Header, size: nat): (r: seq<nat>)
    ensures |r| == 5
  {
    [h.damage, h.log, h.phy, h.contains, 4 * size]
  }

  /** The trees the buffer can hold: only intact containers are Nodes. */
  predicate WellFormed(ids: Ids, x: Xtc)
  {
    match x
    case Leaf(h, _) => !(TypeOf(h.contains) == ids.container && !Damaged(ids, h.damage))
    case Node(h, cs) =>
      TypeOf(h.contains) == ids.container && !Damaged(ids, h.damage) &&
      forall i :: 0 <= i < |cs| ==> WellFormed(ids, cs[i])
  }

  /** The words a tree occupies: the header with its extent, then the payload or the children's words. */
  function Words(x: Xtc): (r: seq<nat>)
    ensures |r| >= 5
    decreases x, 1
  {
    match x
    case Leaf(h, p) => HeaderWords(h, 5 + |p|) + p
    case Node(h, cs) => HeaderWords(h, 5 + |WordsAll(cs)|) + WordsAll(cs)
  }

  function WordsAll(cs: seq<Xtc>): seq<nat>
    decreases cs, 0
  {
    if cs == [] then [] else WordsAll(cs[..|cs| - 1]) + Words(cs[|cs| - 1])
  }

  /** A frame leaf: dropped wherever it sits. */
  predicate IsFrame(ids: Ids, x: Xtc)
  {
    x.Leaf? && TypeOf(x.h.contains) == ids.frame
  }

  /** The words process writes for a tree. */
  function Trimmed(ids: Ids, x: Xtc): seq<nat>
    decreases x, 1
  {
    match x
    case Leaf(h, _) => if TypeOf(h.contains) == ids.frame then [] else Words(x)
    case Node(h, cs) => HeaderWords(h, 5 + |TrimmedAll(ids, cs)|) + TrimmedAll(ids, cs)
  }

  function TrimmedAll(ids: Ids, cs: seq<Xtc>): seq<nat>
    decreases cs, 0
  {
    if cs == [] then [] else TrimmedAll(ids, cs[..|cs| - 1]) + Trimmed(ids, cs[|cs| - 1])
  }

  /** The tree without its frames: the independent statement of what the trim keeps. */
  function Pruned(ids: Ids, x: Xtc): Xtc
    decreases x, 1
  {
    match x
    case Leaf(_, _) => x
    case Node(h, cs) => Node(h, PrunedAll(ids, cs))
  }

  function PrunedAll(ids: Ids, cs: seq<Xtc>): seq<Xtc>
    decreases cs, 0
  {
    if cs == [] then []
    else
      var last := cs[|cs| - 1];
      PrunedAll(ids, cs[..|cs| - 1]) + (if IsFrame(ids, last) then [] else [Pruned(ids, last)])
  }

  predicate NoFrames(ids: Ids, x: Xtc)
    decreases x
  {
    match x
    case Leaf(_, _) => !IsFrame(ids, x)
    case Node(_, cs) => forall i :: 0 <= i < |cs| ==> NoFrames(ids, cs[i])
  }

  lemma WordsAllAppend(a: seq<Xtc>, b: seq<Xtc>)
    ensures WordsAll(a + b) == WordsAll(a) + WordsAll(b)
    decreases |b|
  {
    if b != [] {
      assert (a + b)[..|a + b| - 1] == a + b[..|b| - 1];
      WordsAllAppend(a, b[..|b| - 1]);
    } else {
      assert a + b == a;
    }
  }

  lemma TrimmedAllAppend(ids: Ids, a: seq<Xtc>, b: seq<Xtc>)
    ensures TrimmedAll(ids, a + b) == TrimmedAll(ids, a) + TrimmedAll(ids, b)
    decreases |b|
  {
    if b != [] {
      assert (a + b)[..|a + b| - 1] == a + b[..|b| - 1];
      TrimmedAllAppend(ids, a, b[..|b| - 1]);
    } else {
      assert a + b == a;
    }
  }

  /** The trim never grows a tree; so the write position never passes the read position. */
  lemma {:induction false} TrimmedShorter(ids: Ids, x: Xtc)
    ensures |Trimmed(ids, x)| <= |Words(x)|
    decreases x, 1
  {
    match x
    case Leaf(_, _) =>
    case Node(_, cs) => TrimmedAllShorter(ids, cs);
  }

  lemma {:induction false} TrimmedAllShorter(ids: Ids, cs: seq<Xtc>)
    ensures |TrimmedAll(ids, cs)| <= |WordsAll(cs)|
    decreases cs, 0
  {
    if cs != [] {
      TrimmedAllShorter(ids, cs[..|cs| - 1]);
      TrimmedShorter(ids, cs[|cs| - 1]);
    }
  }

  /** Trimming a tree that is not itself a frame writes exactly the words of the tree without its frames. */
  lemma {:induction false} TrimmedIsPruned(ids: Ids, x: Xtc)
    requires !IsFrame(ids, x)
    ensures Trimmed(ids, x) == Words(Pruned(ids, x))
    decreases x, 1
  {
    match x
    case Leaf(_, _) =>
    case Node(h, cs) => TrimmedAllIsPruned(ids, cs);
  }

  lemma {:induction false} TrimmedAllIsPruned(ids: Ids, cs: seq<Xtc>)
    ensures TrimmedAll(ids, cs) == WordsAll(PrunedAll(ids, cs))
    decreases cs, 0
  {
    if cs != [] {
      var init, last := cs[..|cs| - 1], cs[|cs| - 1];
      TrimmedAllIsPruned(ids, init);
      var kept := if IsFrame(ids, last) then [] else [Pruned(ids, last)];
      WordsAllAppend(PrunedAll(ids, init), kept);
      if !IsFrame(ids, last) {
        TrimmedIsPruned(ids, last);
        assert WordsAll(kept) == WordsAll([]) + Words(Pruned(ids, last));
      }
    }
  }

  /** The pruned tree holds no frame. */
  lemma {:induction false} PrunedHasNoFrames(ids: Ids, x: Xtc)
    requires !IsFrame(ids, x)
    ensures NoFrames(ids, Pruned(ids, x))
    decreases x, 1
  {
    match x
    case Leaf(_, _) =>
    case Node(h, cs) => PrunedAllHasNoFrames(ids, cs);
  }

  lemma {:induction false} PrunedAllHasNoFrames(ids: Ids, cs: seq<Xtc>)
    ensures forall i :: 0 <= i < |PrunedAll(ids, cs)| ==> NoFrames(ids, PrunedAll(ids, cs)[i])
    decreases cs, 0
  {
    if cs != [] {
      var last := cs[|cs| - 1];
      PrunedAllHasNoFrames(ids, cs[..|cs| - 1]);
      if !IsFrame(ids, last) {
        PrunedHasNoFrames(ids, last);
      }
    }
  }

  /** A tree without frames comes out word for word as it went in. */
  lemma {:induction false} NoFramesUnchanged(ids: Ids, x: Xtc)
    requires NoFrames(ids, x)
    ensures Trimmed(ids, x) == Words(x)
    decreases x, 1
  {
    match x
    case Leaf(_, _) =>
    case Node(h, cs) => NoFramesAllUnchanged(ids, cs);
  }

  lemma {:induction false} NoFramesAllUnchanged(ids: Ids, cs: seq<Xtc>)
    requires forall i :: 0 <= i < |cs| ==> NoFrames(ids, cs[i])
    ensures TrimmedAll(ids, cs) == WordsAll(cs)
    decreases cs, 0
  {
    if cs != [] {
      NoFramesAllUnchanged(ids, cs[..|cs| - 1]);
      NoFramesUnchanged(ids, cs[|cs| - 1]);
    }
  }

  lemma SameSlice(s: seq<nat>, t: seq<nat>, lo: nat, i: nat, j: nat)
    requires |s| == |t| && lo <= i <= j <= |s| && s[lo..] == t[lo..]
    ensures s[i..j] == t[i..j]
  {
    forall k | i <= k < j
      ensures s[k] == t[k]
    {
      assert s[k] == s[lo..][k - lo] && t[k] == t[lo..][k - lo];
    }
  }

  lemma WordsAllNonEmpty(cs: seq<Xtc>)
    requires cs != []
    ensures |WordsAll(cs)| >= 5
  {
  }

  /** The words of the children from k on: child k's words, then those of the rest. */
  lemma WordsAllFrom(cs: seq<Xtc>, k: nat)
    requires k < |cs|
    ensures WordsAll(cs[k..]) == Words(cs[k]) + WordsAll(cs[k + 1..])
  {
    assert cs[k..] == [cs[k]] + cs[k + 1..];
    WordsAllAppend([cs[k]], cs[k + 1..]);
    assert WordsAll([cs[k]]) == WordsAll([]) + Words(cs[k]);
  }

  lemma WordsAllSplit(cs: seq<Xtc>, k: nat)
    requires k <= |cs|
    ensures WordsAll(cs) == WordsAll(cs[..k]) + WordsAll(cs[k..])
  {
    assert cs == cs[..k] + cs[k..];
    WordsAllAppend(cs[..k], cs[k..]);
  }

  /**
   * The trimmer: the buffer it works in and the write position that every
   * nested trimmer shares (the reference member _pwrite).
   */
  class Trimmer {
    const ids: Ids
    const a: array<nat>
    var w: nat

    constructor (ids: Ids, a: array<nat>, start: nat)
      ensures this.ids == ids && this.a == a && w == start
    {
      this.ids := ids;
      this.a := a;
      w := start;
    }

    /** _write: copies n words from r down to w, or only advances w when the two coincide. */
    method Write(r: nat, n: nat)
      requires w <= r && r + n <= a.Length
      modifies this, a
      ensures w == old(w) + n
      ensures a[old(w)..w] == old(a[r..r + n])
      ensures a[..old(w)] == old(a[..w])
      ensures a[w..] == old(a[..])[w..]
    {
      if w != r {
        ghost var w0 := w;
        var i := 0;
        while i < n
          invariant 0 <= i <= n && w == w0 + i
          invariant a[w0..w] == old(a[r..r + i])
          invariant a[..w0] == old(a[..w0])
          invariant a[w..] == old(a[..])[w..]
        {
          assert a[r + i] == old(a[r + i]);
          a[w] := a[r + i];
          w := w + 1;
          i := i + 1;
        }
      } else {
        w := w + n;
      }
    }

    /**
     * process: a container is iterated by a nested trimmer sharing the write
     * position, a frame is dropped, anything else is copied whole.
     */
    method Process(r: nat, ghost x: Xtc)
      requires GoodIds(ids) && WellFormed(ids, x)
      requires w <= r && r + |Words(x)| <= a.Length
      requires a[r..r + |Words(x)|] == Words(x)
      modifies this, a
      ensures w == old(w) + |Trimmed(ids, x)| && w <= r + |Words(x)|
      ensures a[old(w)..w] == Trimmed(ids, x)
      ensures a[..old(w)] == old(a[..w])
      ensures a[r + |Words(x)|..] == old(a[r + |Words(x)|..])
      decreases x, 4
    {
      HeaderAt(a[..], r, x);
      var id := TypeOf(a[r + 3]);
      if id == ids.container {
        Iterate(r, x);
      } else if id == ids.frame {
      } else {
        Write(r, a[r + 4] / 4);
        SameSlice(a[..], old(a[..]), w, r + |Words(x)|, a.Length);
      }
    }

    /**
     * iterate: a damaged container is copied whole; an intact one gets its
     * header copied, its children processed in order, and its written
     * header's extent set to the bytes written.
     */
    method Iterate(r: nat, ghost x: Xtc)
      requires GoodIds(ids) && WellFormed(ids, x) && TypeOf(x.h.contains) == ids.container
      requires w <= r && r + |Words(x)| <= a.Length
      requires a[r..r + |Words(x)|] == Words(x)
      modifies this, a
      ensures w == old(w) + |Trimmed(ids, x)| && w <= r + |Words(x)|
      ensures a[old(w)..w] == Trimmed(ids, x)
      ensures a[..old(w)] == old(a[..w])
      ensures a[r + |Words(x)|..] == old(a[r + |Words(x)|..])
      decreases x, 3
    {
      HeaderAt(a[..], r, x);
      if Damaged(ids, a[r]) {
        Write(r, a[r + 4] / 4);
        SameSlice(a[..], old(a[..]), w, r + |Words(x)|, a.Length);
        return;
      }
      Children(r, x);
    }

    /** The intact-container half of iterate. */
    method Children(r: nat, ghost x: Xtc)
      requires GoodIds(ids) && WellFormed(ids, x) && x.Node?
      requires w <= r && r + |Words(x)| <= a.Length
      requires a[r..r + |Words(x)|] == Words(x)
      modifies this, a
      ensures w == old(w) + |Trimmed(ids, x)| && w <= r + |Words(x)|
      ensures a[old(w)..w] == Trimmed(ids, x)
      ensures a[..old(w)] == old(a[..w])
      ensures a[r + |Words(x)|..] == old(a[r + |Words(x)|..])
      decreases x, 2
    {
      ghost var cs := x.children;
      ghost var end := r + |Words(x)|;
      ghost var orig := a[..];
      ghost var head := HeaderWords(x.h, |Words(x)|);
      HeaderAt(a[..], r, x);
      var remaining: int := a[r + 4] - 20;
      var p: nat := r + 5;
      var hw := w;
      Write(r, 5);
      Start(ids, x, r, hw, w, end, a[..], orig);
      ghost var k: nat;
      k, p := Siblings(x, r, hw, p, end, head, orig, remaining);
      ghost var before := a[..];
      a[hw + 4] := (w - hw) * 4;
      Close(ids, x, k, r, hw, w, p, end, head, before, a[..], orig);
    }

    /** iterate's loop over the children, while payload words remain. */
    method Siblings(ghost x: Xtc, r: nat, hw: nat, p0: nat, ghost end: nat,
                    ghost head: seq<nat>, ghost orig: seq<nat>, remaining0: int) returns (ghost k: nat, p: nat)
      requires GoodIds(ids) && WellFormed(ids, x) && x.Node?
      requires Progress(ids, x.children, 0, r, hw, w, p0, end, head, a[..], orig)
      requires remaining0 == 4 * |WordsAll(x.children[0..])|
      modifies this, a
      ensures Progress(ids, x.children, k, r, hw, w, p, end, head, a[..], orig)
      ensures 4 * |WordsAll(x.children[k..])| <= 0
      decreases x, 1
    {
      var remaining := remaining0;
      p := p0;
      k := 0;
      while remaining > 0
        invariant Progress(ids, x.children, k, r, hw, w, p, end, head, a[..], orig)
        invariant remaining == 4 * |WordsAll(x.children[k..])|
        decreases remaining
      {
        var extent := Child(x, k, r, hw, p, end, head, orig);
        remaining := remaining - extent;
        p := p + extent / 4;
        k := k + 1;
      }
    }

    /** One turn of iterate's loop: the child at p is processed; its extent is returned. */
    method Child(ghost x: Xtc, ghost k: nat, r: nat, hw: nat, p: nat, ghost end: nat,
                 ghost head: seq<nat>, ghost orig: seq<nat>) returns (extent: nat)
      requires GoodIds(ids) && WellFormed(ids, x) && x.Node?
      requires Progress(ids, x.children, k, r, hw, w, p, end, head, a[..], orig)
      requires 4 * |WordsAll(x.children[k..])| > 0
      modifies this, a
      ensures k < |x.children| && extent == 4 * |Words(x.children[k])|
      ensures 4 * |WordsAll(x.children[k..])| - extent == 4 * |WordsAll(x.children[k + 1..])|
      ensures Progress(ids, x.children, k + 1, r, hw, w, p + extent / 4, end, head, a[..], orig)
      decreases x, 0
    {
      ghost var cs := x.children;
      ghost var c := Enter(ids, cs, k, r, hw, w, p, end, head, a[..], orig);
      assert WellFormed(ids, c);
      extent := a[p + 4];
      ghost var w1 := w;
      ghost var before := a[..];
      Process(p, c);
      ChildStep(ids, cs, k + 1, r, hw, w1, w, p, end, head, before, a[..], orig);
    }
  }

  /** The header words of a tree stored at r. */
  lemma HeaderAt(s: seq<nat>, r: nat, x: Xtc)
    requires r + |Words(x)| <= |s| && s[r..r + |Words(x)|] == Words(x)
    ensures s[r] == x.h.damage && s[r + 3] == x.h.contains && s[r + 4] == 4 * |Words(x)|
  {
    assert Words(x)[..5] == HeaderWords(x.h, |Words(x)|);
    assert s[r + 3] == s[r..r + |Words(x)|][3];
  }

  /** The state of the children loop, over the buffer's words: what has been written and what is left to read. */
  ghost predicate Progress(ids: Ids, cs: seq<Xtc>, k: nat, r: nat, hw: nat, w: nat, p: nat, end: nat,
                           head: seq<nat>, cur: seq<nat>, orig: seq<nat>)
  {
    k <= |cs| && |cur| == |orig| && hw <= r && hw + 5 <= w <= p <= end <= |cur| && |head| == 5 &&
    p == r + 5 + |WordsAll(cs[..k])| &&
    w == hw + 5 + |TrimmedAll(ids, cs[..k])| &&
    cur[hw..w] == head + TrimmedAll(ids, cs[..k]) &&
    cur[p..end] == WordsAll(cs[k..]) &&
    cur[..hw] == orig[..hw] && cur[end..] == orig[end..]
  }

  /** After the header is copied, no child has been processed yet. */
  lemma Start(ids: Ids, x: Xtc, r: nat, hw: nat, w: nat, end: nat, cur: seq<nat>, orig: seq<nat>)
    requires x.Node? && hw <= r && end == r + |Words(x)| <= |orig| == |cur| && w == hw + 5
    requires orig[r..end] == Words(x)
    requires cur[hw..w] == orig[r..r + 5]
    requires cur[..hw] == orig[..hw] && cur[w..] == orig[w..]
    ensures Progress(ids, x.children, 0, r, hw, w, r + 5, end, HeaderWords(x.h, |Words(x)|), cur, orig)
  {
    var cs := x.children;
    assert cs[..0] == [] && cs[0..] == cs;
    Split(orig, r, end, HeaderWords(x.h, |Words(x)|), WordsAll(cs));
    SameSlice(cur, orig, w, r + 5, end);
    SameSlice(cur, orig, w, end, |cur|);
  }

  /** With words left to read, a child starts at p, and its words are there. */
  lemma Enter(ids: Ids, cs: seq<Xtc>, k: nat, r: nat, hw: nat, w: nat, p: nat, end: nat,
              head: seq<nat>, cur: seq<nat>, orig: seq<nat>) returns (c: Xtc)
    requires Progress(ids, cs, k, r, hw, w, p, end, head, cur, orig)
    requires 4 * |WordsAll(cs[k..])| > 0
    ensures k < |cs| && c == cs[k]
    ensures p + |Words(c)| <= end
    ensures cur[p..p + |Words(c)|] == Words(c)
    ensures cur[p + 4] == 4 * |Words(c)|
    ensures 4 * |WordsAll(cs[k..])| - cur[p + 4] == 4 * |WordsAll(cs[k + 1..])|
    ensures cur[p + 4] / 4 == |Words(c)|
  {
    if k == |cs| {
      assert false;
    }
    c := cs[k];
    WordsAllFrom(cs, k);
    Split(cur, p, end, Words(c), WordsAll(cs[k + 1..]));
    assert cur[p + 4] == Words(c)[4];
  }

  /** No words left to read: every child has been processed. */
  lemma Finish(ids: Ids, x: Xtc, k: nat, r: nat, hw: nat, w: nat, p: nat, end: nat,
               head: seq<nat>, cur: seq<nat>, orig: seq<nat>)
    requires x.Node? && Progress(ids, x.children, k, r, hw, w, p, end, head, cur, orig)
    requires 4 * |WordsAll(x.children[k..])| <= 0
    ensures k == |x.children| && x.children[..k] == x.children
    ensures w == hw + 5 + |TrimmedAll(ids, x.children)|
    ensures cur[hw..w] == head + TrimmedAll(ids, x.children)
  {
    if k < |x.children| {
      WordsAllNonEmpty(x.children[k..]);
      assert false;
    }
    assert x.children[..k] == x.children;
  }

  /** After the loop, rewriting the written header's extent completes the trimmed container. */
  lemma Close(ids: Ids, x: Xtc, k: nat, r: nat, hw: nat, w: nat, p: nat, end: nat,
              head: seq<nat>, before: seq<nat>, after: seq<nat>, orig: seq<nat>)
    requires x.Node? && Progress(ids, x.children, k, r, hw, w, p, end, head, before, orig)
    requires head == HeaderWords(x.h, |Words(x)|)
    requires 4 * |WordsAll(x.children[k..])| <= 0
    requires after == before[hw + 4 := (w - hw) * 4]
    ensures w == hw + |Trimmed(ids, x)|
    ensures after[hw..w] == Trimmed(ids, x)
    ensures after[..hw] == orig[..hw] && after[end..] == orig[end..]
  {
    var cs := x.children;
    Finish(ids, x, k, r, hw, w, p, end, head, before, orig);
    Patched(before, after, hw, w, end, head, TrimmedAll(ids, cs), (w - hw) * 4);
    assert head[4 := (w - hw) * 4] == HeaderWords(x.h, 5 + |TrimmedAll(ids, cs)|);
  }

  /** Rewriting the extent word of the written header. */
  lemma Patched(before: seq<nat>, after: seq<nat>, hw: nat, w: nat, end: nat, u: seq<nat>, v: seq<nat>, e: nat)
    requires hw + 5 <= w <= end <= |before| && |u| == 5
    requires before[hw..w] == u + v && after == before[hw + 4 := e]
    ensures after[hw..w] == u[4 := e] + v
    ensures after[..hw] == before[..hw] && after[end..] == before[end..]
  {
    assert after[hw..w] == before[hw..w][4 := e];
  }

  /** One child processed: the loop's facts about the buffer carry over. */
  lemma ChildStep(ids: Ids, cs: seq<Xtc>, k: nat, r: nat, hw: nat, w1: nat, w2: nat, p0: nat, end: nat,
                  head: seq<nat>, before: seq<nat>, after: seq<nat>, orig: seq<nat>)
    requires 0 < k <= |cs|
    requires Progress(ids, cs, k - 1, r, hw, w1, p0, end, head, before, orig)
    requires p0 + |Words(cs[k - 1])| <= end && |after| == |before|
    requires w2 == w1 + |Trimmed(ids, cs[k - 1])| <= p0 + |Words(cs[k - 1])|
    requires after[w1..w2] == Trimmed(ids, cs[k - 1])
    requires after[..w1] == before[..w1]
    requires after[p0 + |Words(cs[k - 1])|..] == before[p0 + |Words(cs[k - 1])|..]
    ensures Progress(ids, cs, k, r, hw, w2, p0 + |Words(cs[k - 1])|, end, head, after, orig)
  {
    var c := cs[k - 1];
    var p := p0 + |Words(c)|;
    WordsAllFrom(cs, k - 1);
    AllStep(ids, cs, k);
    WrittenStep(before, after, hw, w1, w2, head + TrimmedAll(ids, cs[..k - 1]), Trimmed(ids, c));
    UnreadStep(before, after, p0, p, end, Words(c), WordsAll(cs[k..]));
    KeptStep(before, after, orig, hw, w1, p, end);
  }

  lemma WrittenStep(before: seq<nat>, after: seq<nat>, hw: nat, w1: nat, w2: nat, u: seq<nat>, v: seq<nat>)
    requires hw <= w1 <= w2 <= |after| == |before|
    requires before[hw..w1] == u && after[..w1] == before[..w1] && after[w1..w2] == v
    ensures after[hw..w2] == u + v
  {
    SameSliceBelow(after, before, w1, hw, w1);
    Concat(after, hw, w1, w2);
  }

  lemma UnreadStep(before: seq<nat>, after: seq<nat>, p0: nat, p: nat, end: nat, u: seq<nat>, v: seq<nat>)
    requires p0 + |u| == p && p + |v| == end <= |before| == |after|
    requires before[p0..end] == u + v && after[p..] == before[p..]
    ensures after[p..end] == v
  {
    Split(before, p0, end, u, v);
    SameSlice(after, before, p, p, end);
  }

  lemma KeptStep(before: seq<nat>, after: seq<nat>, orig: seq<nat>, hw: nat, w1: nat, p: nat, end: nat)
    requires hw <= w1 <= |before| && p <= end <= |before| == |after| == |orig|
    requires before[..hw] == orig[..hw] && before[end..] == orig[end..]
    requires after[..w1] == before[..w1] && after[p..] == before[p..]
    ensures after[..hw] == orig[..hw] && after[end..] == orig[end..]
  {
    SameSliceBelow(after, before, w1, 0, hw);
    SameSlice(after, before, p, end, |after|);
  }

  /** The words and the trimmed words of the first k children, from those of the first k - 1. */
  lemma AllStep(ids: Ids, cs: seq<Xtc>, k: nat)
    requires 0 < k <= |cs|
    ensures WordsAll(cs[..k]) == WordsAll(cs[..k - 1]) + Words(cs[k - 1])
    ensures TrimmedAll(ids, cs[..k]) == TrimmedAll(ids, cs[..k - 1]) + Trimmed(ids, cs[k - 1])
  {
    assert cs[..k][..k - 1] == cs[..k - 1];
  }

  lemma Split(s: seq<nat>, i: nat, j: nat, u: seq<nat>, v: seq<nat>)
    requires i + |u| + |v| == j <= |s| && s[i..j] == u + v
    ensures s[i..i + |u|] == u && s[i + |u|..j] == v
  {
    assert s[i..i + |u|] == s[i..j][..|u|];
    assert s[i + |u|..j] == s[i..j][|u|..];
  }

  lemma Concat(s: seq<nat>, i: nat, j: nat, k: nat)
    requires i <= j <= k <= |s|
    ensures s[i..k] == s[i..j] + s[j..k]
  {
  }

  lemma Suffix(s: seq<nat>, i: nat, j: nat, k: nat)
    requires i <= j <= k <= |s|
    ensures s[j..k] == s[i..k][j - i..]
  {
  }

  lemma SameSliceBelow(s: seq<nat>, t: seq<nat>, hi: nat, i: nat, j: nat)
    requires hi <= |s| && hi <= |t| && i <= j <= hi && s[..hi] == t[..hi]
    ensures s[i..j] == t[i..j]
  {
    forall k | i <= k < j
      ensures s[k] == t[k]
    {
      assert s[k] == s[..hi][k] && t[k] == t[..hi][k];
    }
  }
}
