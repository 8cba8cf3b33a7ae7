/**
 * The EVR event-code hand-over of app/TimeToolB.cc, app/TimeToolC.cc and
 * app/TimeToolA.cc. Event-code occurrences arrive ahead of their datagram
 * and are kept in 32 buckets keyed by the low five bits of a timestamp
 * field (fiducials for A and B, vector for C). On an L1Accept the bucket
 * is written past the datagram's payload as [count, codes...] (B, C) or
 * copied into the queued work item (A), and emptied; the worker decodes
 * the words back into FIFO events. The module also holds INSERT_CODE,
 * which collects the event codes to request from the EVR.
 */
module EvrFifo {
  const BucketCount: nat := 32

  /** The bucket of a timestamp key: key & 0x1f. */
  function Bucket(key: nat): (b: nat)
    ensures b < BucketCount
  {
    key % 32
  }

  /** A FIFO event as the worker sees it: the timestamp fields it is tagged with and the code. */
  datatype FifoEvent = FifoEvent(fiducials: nat, vector: nat, code: nat)

  /** The words written past the payload: the count, then the codes in order. */
  function Encoded(codes: seq<nat>): (w: seq<nat>)
    ensures |w| == |codes| + 1 && w[0] == |codes| && w[1..] == codes
  {
    [|codes|] + codes
  }

  /** The FIFO the worker rebuilds from the words: v[0] events, each tagged with the given timestamp fields. */
  function Decoded(words: seq<nat>, fiducials: nat, vector: nat): (fifo: seq<FifoEvent>)
    requires |words| > 0 && words[0] < |words|
    ensures |fifo| == words[0]
    ensures forall i :: 0 <= i < |fifo| ==> fifo[i] == FifoEvent(fiducials, vector, words[i + 1])
  {
    seq(words[0], i requires 0 <= i < words[0] => FifoEvent(fiducials, vector, words[i + 1]))
  }

  function Codes(fifo: seq<FifoEvent>): (r: seq<nat>)
    ensures |r| == |fifo|
    ensures forall i :: 0 <= i < |r| ==> r[i] == fifo[i].code
  {
    seq(|fifo|, i requires 0 <= i < |fifo| => fifo[i].code)
  }

  /**
   * Round trip: whatever lies after the encoded words, decoding gives back
   * exactly the encoded codes, in order, each with the datagram's tags.
   */
  lemma {:induction false} RoundTrip(codes: seq<nat>, tail: seq<nat>, fiducials: nat, vector: nat)
    ensures var w := Encoded(codes) + tail;
      |w| > 0 && w[0] < |w| && Codes(Decoded(w, fiducials, vector)) == codes
    ensures var w := Encoded(codes) + tail;
      |w| > 0 && w[0] < |w| && forall i :: 0 <= i < |codes| ==> Decoded(w, fiducials, vector)[i] == FifoEvent(fiducials, vector, codes[i])
  {
    var w := Encoded(codes) + tail;
    assert forall i :: 0 <= i < |codes| ==> w[i + 1] == codes[i];
  }

  /** FexApp::events: rebuilds the FIFO from the words past the payload (B tags with 0, 0; C with the datagram's stamp). */
  method Decode(v: array<nat>, fiducials: nat, vector: nat) returns (fifo: seq<FifoEvent>)
    requires v.Length > 0 && v[0] < v.Length
    ensures fifo == Decoded(v[..], fiducials, vector)
  {
    fifo := [];
    var i := 0;
    while i < v[0]
      invariant 0 <= i <= v[0]
      invariant fifo == Decoded(v[..], fiducials, vector)[..i]
    {
      fifo := fifo + [FifoEvent(fiducials, vector, v[i + 1])];
      i := i + 1;
    }
  }

  /** The word loop of events: v[0] = count, v[1..] = the codes; later words are left alone. */
  method WriteWords(codes: seq<nat>, v: array<nat>)
    requires |codes| < v.Length
    modifies v
    ensures v[..|codes| + 1] == Encoded(codes)
    ensures v[|codes| + 1..] == old(v[|codes| + 1..])
  {
    v[0] := |codes|;
    var i := 0;
    while i < |codes|
      invariant 0 <= i <= |codes|
      invariant v[0] == |codes|
      invariant v[1..i + 1] == codes[..i]
      invariant v[|codes| + 1..] == old(v[|codes| + 1..])
    {
      v[i + 1] := codes[i];
      i := i + 1;
    }
    assert v[..|codes| + 1] == [v[0]] + v[1..|codes| + 1];
  }

  /** The appliance's 32 buckets of pending event codes. */
  class Recorder {
    var buckets: seq<seq<nat>>

    predicate Valid()
      reads this
    {
      |buckets| == BucketCount
    }

    constructor ()
      ensures Valid()
      ensures forall b :: 0 <= b < BucketCount ==> buckets[b] == []
    {
      buckets := seq(BucketCount, b => []);
    }

    /** occurrences: an EVR command's code joins the end of its bucket; the other 31 are untouched. */
    method Occurrence(key: nat, code: nat)
      requires Valid()
      modifies this
      ensures Valid()
      ensures buckets == old(buckets)[Bucket(key) := old(buckets)[Bucket(key)] + [code]]
    {
      var b := Bucket(key);
      buckets := buckets[b := buckets[b] + [code]];
    }

    /**
     * events on an L1Accept (B, C): writes the bucket's count and codes into
     * the words past the payload, leaves the words after them alone, and
     * empties the bucket.
     */
    method Encode(key: nat, v: array<nat>)
      requires Valid() && |buckets[Bucket(key)]| < v.Length
      modifies this, v
      ensures Valid()
      ensures v[..|old(buckets)[Bucket(key)]| + 1] == Encoded(old(buckets)[Bucket(key)])
      ensures v[|old(buckets)[Bucket(key)]| + 1..] == old(v[|buckets[Bucket(key)]| + 1..])
      ensures buckets == old(buckets)[Bucket(key) := []]
    {
      var b := Bucket(key);
      WriteWords(buckets[b], v);
      buckets := buckets[b := []];
    }

    /** events on an L1Accept (A): the work item gets a copy of the bucket as FIFO events, and the bucket is emptied. */
    method HandOff(key: nat) returns (fifo: seq<FifoEvent>)
      requires Valid()
      modifies this
      ensures Valid()
      ensures Codes(fifo) == old(buckets)[Bucket(key)]
      ensures forall i :: 0 <= i < |fifo| ==> fifo[i].fiducials == 0 && fifo[i].vector == 0
      ensures buckets == old(buckets)[Bucket(key) := []]
    {
      var b := Bucket(key);
      var codes := buckets[b];
      fifo := seq(|codes|, i requires 0 <= i < |codes| => FifoEvent(0, 0, codes[i]));
      buckets := buckets[b := []];
    }
  }

  // ---------------------------------------------------------------------
  // INSERT_CODE
  // ---------------------------------------------------------------------

  function Abs(c: int): nat
  {
    if c < 0 then -c else c
  }

  /** One INSERT_CODE: a nonzero code's absolute value joins the list unless already there. */
  function Inserted(requested: seq<nat>, c: int): seq<nat>
  {
    if c == 0 || Abs(c) in requested then requested else requested + [Abs(c)]
  }

  /** The list after INSERT_CODE of each code in turn. */
  function Requested(codes: seq<int>): seq<nat>
  {
    if codes == [] then [] else Inserted(Requested(codes[..|codes| - 1]), codes[|codes| - 1])
  }

  predicate NoDuplicates(s: seq<nat>)
  {
    forall i, j :: 0 <= i < j < |s| ==> s[i] != s[j]
  }

  /**
   * The requested list holds, without repetition, exactly the absolute
   * values of the nonzero codes, and each earlier list is a prefix of each
   * later one, so codes appear in the order they were first seen.
   */
  lemma {:induction false} RequestedCodes(codes: seq<int>)
    ensures NoDuplicates(Requested(codes))
    ensures forall x :: x in Requested(codes) <==> exists i :: 0 <= i < |codes| && codes[i] != 0 && Abs(codes[i]) == x
    decreases |codes|
  {
    if codes != [] {
      var init := codes[..|codes| - 1];
      RequestedCodes(init);
      forall x | x in Requested(codes)
        ensures exists i :: 0 <= i < |codes| && codes[i] != 0 && Abs(codes[i]) == x
      {
        if x in Requested(init) {
          var i :| 0 <= i < |init| && init[i] != 0 && Abs(init[i]) == x;
          assert codes[i] == init[i];
        }
      }
      forall x | exists i :: 0 <= i < |codes| && codes[i] != 0 && Abs(codes[i]) == x
        ensures x in Requested(codes)
      {
        var i :| 0 <= i < |codes| && codes[i] != 0 && Abs(codes[i]) == x;
        if i < |init| {
          assert init[i] == codes[i];
        }
      }
    }
  }

  lemma {:induction false} RequestedPrefix(codes: seq<int>, k: nat)
    requires k <= |codes|
    ensures Requested(codes[..k]) <= Requested(codes)
    decreases |codes| - k
  {
    if k < |codes| {
      var init := codes[..|codes| - 1];
      assert codes[..k] == init[..k];
      RequestedPrefix(init, k);
    } else {
      assert codes[..k] == codes;
    }
  }

  /** The macro's search loop and push_back. */
  method InsertCode(requested: seq<nat>, c: int) returns (r: seq<nat>)
    ensures r == Inserted(requested, c)
  {
    r := requested;
    if c != 0 {
      var found := false;
      var co := Abs(c);
      var i := 0;
      while i < |requested|
        invariant 0 <= i <= |requested|
        invariant found <==> co in requested[..i]
      {
        if requested[i] == co {
          found := true;
          break;
        }
        i := i + 1;
      }
      assert !found ==> requested[..i] == requested;
      if !found {
        r := requested + [co];
      }
    }
  }

  /** The Configure loop: INSERT_CODE for every beam-logic code, then every laser-logic code. */
  method RequestCodes(beam: seq<int>, laser: seq<int>) returns (r: seq<nat>)
    ensures r == Requested(beam + laser)
  {
    var codes := beam + laser;
    r := [];
    var i := 0;
    while i < |codes|
      invariant 0 <= i <= |codes|
      invariant r == Requested(codes[..i])
    {
      assert codes[..i + 1][..i] == codes[..i];
      r := InsertCode(r, codes[i]);
      i := i + 1;
    }
    assert codes[..i] == codes;
  }
}
