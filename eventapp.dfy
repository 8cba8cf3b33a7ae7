/**
 * The event-builder appliance of event/TimeToolA.cc and the fex selection
 * of app/TimeToolB.cc. On an L1Accept the appliance walks the datagram's
 * nested containers, keeping a reference to the last camera frame from its
 * own camera, the last EVR data and the last matching IPM record; it asks
 * the time tool to analyze only when both a frame and EVR data were seen,
 * and trims the frame out of the datagram only after an analysis whose
 * configuration does not ask to keep the image.
 *
 * A payload is stood for by a number (the address the appliance would keep).
 */
module EventApp {
  import opened Wrappers
  import opened Pds

  /** A container: its type, its source, its payload and, for a nested container, its children. */
  datatype Xtc = Xtc(contains: Kind, src: Src, payload: nat, children: seq<Xtc>)

  /** The non-container records in the order the iteration reaches them. */
  function Leaves(x: Xtc): seq<Xtc>
    decreases x, 1
  {
    if x.contains == Container then LeavesAll(x.children) else [x]
  }

  function LeavesAll(cs: seq<Xtc>): seq<Xtc>
    decreases cs, 0
  {
    if cs == [] then [] else LeavesAll(cs[..|cs| - 1]) + Leaves(cs[|cs| - 1])
  }

  /** What process does with a record. */
  datatype Role = Frame | Evr | Ipm | Ignored

  /**
   * process's if-chain: a camera frame from the time tool's camera (same
   * phy), any EVR data, an IPM record whose source level and phy both match
   * the IPM key; anything else is ignored.
   */
  function RoleOf(fexPhy: nat, ipmKey: Src, x: Xtc): (r: Role)
    ensures r == Frame <==> x.contains == CameraFrame && x.src.phy == fexPhy
    ensures r == Evr <==> x.contains == EvrData
    ensures r == Ipm <==> x.contains == IpmFex && x.src == ipmKey
  {
    if x.contains == Container then Ignored
    else if x.contains == CameraFrame && x.src.phy == fexPhy then Frame
    else if x.contains == EvrData then Evr
    else if x.src.level == ipmKey.level && x.src.phy == ipmKey.phy && x.contains == IpmFex then Ipm
    else Ignored
  }

  /** The three records the appliance keeps a reference to. */
  datatype Found = Found(frame: Option<nat>, evr: Option<nat>, ipm: Option<nat>)

  function Field(f: Found, r: Role): Option<nat>
  {
    match r
    case Frame => f.frame
    case Evr => f.evr
    case Ipm => f.ipm
    case Ignored => None
  }

  /** One record processed: its role's reference now points at it. */
  function Observe(fexPhy: nat, ipmKey: Src, f: Found, x: Xtc): Found
  {
    match RoleOf(fexPhy, ipmKey, x)
    case Frame => f.(frame := Some(x.payload))
    case Evr => f.(evr := Some(x.payload))
    case Ipm => f.(ipm := Some(x.payload))
    case Ignored => f
  }

  function ObserveAll(fexPhy: nat, ipmKey: Src, f: Found, xs: seq<Xtc>): Found
  {
    if xs == [] then f else Observe(fexPhy, ipmKey, ObserveAll(fexPhy, ipmKey, f, xs[..|xs| - 1]), xs[|xs| - 1])
  }

  /** The position of the last record with the given role, if any: the independent statement of "the last one wins". */
  function LastOf(fexPhy: nat, ipmKey: Src, xs: seq<Xtc>, r: Role): (o: Option<nat>)
    ensures o.Some? ==> o.value < |xs| && RoleOf(fexPhy, ipmKey, xs[o.value]) == r
    ensures o.Some? ==> forall j :: o.value < j < |xs| ==> RoleOf(fexPhy, ipmKey, xs[j]) != r
    ensures o.None? ==> forall j :: 0 <= j < |xs| ==> RoleOf(fexPhy, ipmKey, xs[j]) != r
  {
    if xs == [] then None
    else if RoleOf(fexPhy, ipmKey, xs[|xs| - 1]) == r then Some(|xs| - 1)
    else LastOf(fexPhy, ipmKey, xs[..|xs| - 1], r)
  }

  /**
   * After a walk, each reference holds the payload of the last record of its
   * role, and keeps its earlier value when no record had that role.
   */
  lemma {:induction false} ObservedIsLast(fexPhy: nat, ipmKey: Src, f: Found, xs: seq<Xtc>, r: Role)
    requires r != Ignored
    ensures Field(ObserveAll(fexPhy, ipmKey, f, xs), r) ==
      match LastOf(fexPhy, ipmKey, xs, r)
      case None => Field(f, r)
      case Some(i) => Some(xs[i].payload)
  {
    if xs != [] {
      ObservedIsLast(fexPhy, ipmKey, f, xs[..|xs| - 1], r);
    }
  }

  lemma {:induction false} ObserveAllAppend(fexPhy: nat, ipmKey: Src, f: Found, xs: seq<Xtc>, ys: seq<Xtc>)
    ensures ObserveAll(fexPhy, ipmKey, f, xs + ys) == ObserveAll(fexPhy, ipmKey, ObserveAll(fexPhy, ipmKey, f, xs), ys)
    decreases |ys|
  {
    if ys == [] {
      assert xs + ys == xs;
    } else {
      assert (xs + ys)[..|xs + ys| - 1] == xs + ys[..|ys| - 1];
      ObserveAllAppend(fexPhy, ipmKey, f, xs, ys[..|ys| - 1]);
    }
  }

  lemma LeavesAllStep(cs: seq<Xtc>, i: nat)
    requires i < |cs|
    ensures LeavesAll(cs[..i + 1]) == LeavesAll(cs[..i]) + Leaves(cs[i])
  {
    assert cs[..i + 1][..i] == cs[..i];
  }

  /** A reference is set after a walk from nothing exactly when some record of its role was reached. */
  lemma SeenIff(fexPhy: nat, ipmKey: Src, xs: seq<Xtc>, r: Role)
    requires r != Ignored
    ensures Field(ObserveAll(fexPhy, ipmKey, Found(None, None, None), xs), r).Some? <==>
      exists i :: 0 <= i < |xs| && RoleOf(fexPhy, ipmKey, xs[i]) == r
  {
    ObservedIsLast(fexPhy, ipmKey, Found(None, None, None), xs, r);
  }

  /** The appliance: its configuration and the references process keeps. */
  class TimeToolA {
    const fexPhy: nat
    const ipmKey: Src
    const writeImage: bool
    var frame: Option<nat>
    var evrdata: Option<nat>
    var ipmdata: Option<nat>

    constructor (fexPhy: nat, ipmKey: Src, writeImage: bool)
      ensures this.fexPhy == fexPhy && this.ipmKey == ipmKey && this.writeImage == writeImage
      ensures frame == None && evrdata == None && ipmdata == None
    {
      this.fexPhy := fexPhy;
      this.ipmKey := ipmKey;
      this.writeImage := writeImage;
      frame, evrdata, ipmdata := None, None, None;
    }

    function Captured(): Found
      reads this
    {
      Found(frame, evrdata, ipmdata)
    }

    /** process: a nested container is iterated; any other record updates the reference of its role. */
    method Process(x: Xtc)
      modifies this
      ensures Captured() == ObserveAll(fexPhy, ipmKey, old(Captured()), Leaves(x))
      decreases x, 1
    {
      if x.contains == Container {
        Iterate(x.children);
      } else {
        if x.contains == CameraFrame && x.src.phy == fexPhy {
          frame := Some(x.payload);
        } else if x.contains == EvrData {
          evrdata := Some(x.payload);
        } else if x.src.level == ipmKey.level && x.src.phy == ipmKey.phy && x.contains == IpmFex {
          ipmdata := Some(x.payload);
        }
        assert [x][..0] == [];
      }
    }

    /** iterate: the children are processed in order. */
    method Iterate(cs: seq<Xtc>)
      modifies this
      ensures Captured() == ObserveAll(fexPhy, ipmKey, old(Captured()), LeavesAll(cs))
      decreases cs, 0
    {
      var i := 0;
      while i < |cs|
        invariant 0 <= i <= |cs|
        invariant Captured() == ObserveAll(fexPhy, ipmKey, old(Captured()), LeavesAll(cs[..i]))
      {
        Process(cs[i]);
        LeavesAllStep(cs, i);
        ObserveAllAppend(fexPhy, ipmKey, old(Captured()), LeavesAll(cs[..i]), Leaves(cs[i]));
        i := i + 1;
      }
      assert cs[..i] == cs;
    }

    /**
     * events on an L1Accept: the references are cleared and the datagram
     * walked; the analysis runs exactly when the walk reached a frame from
     * the time tool's camera and EVR data, and the trim exactly when the
     * analysis ran and the image is not to be kept.
     */
    method L1Accept(dg: Xtc) returns (analyzed: bool, trimmed: bool)
      modifies this
      ensures Captured() == ObserveAll(fexPhy, ipmKey, Found(None, None, None), LeavesAll(dg.children))
      ensures analyzed <==>
        (exists i :: 0 <= i < |LeavesAll(dg.children)| && RoleOf(fexPhy, ipmKey, LeavesAll(dg.children)[i]) == Frame) &&
        (exists i :: 0 <= i < |LeavesAll(dg.children)| && RoleOf(fexPhy, ipmKey, LeavesAll(dg.children)[i]) == Evr)
      ensures trimmed <==> analyzed && !writeImage
    {
      frame, evrdata, ipmdata := None, None, None;
      Iterate(dg.children);
      SeenIff(fexPhy, ipmKey, LeavesAll(dg.children), Frame);
      SeenIff(fexPhy, ipmKey, LeavesAll(dg.children), Evr);
      analyzed := frame.Some? && evrdata.Some?;
      trimmed := analyzed && !writeImage;
    }
  }

  /**
   * The L1Accept loop of FexApp::events (app/TimeToolB.cc): only the first
   * fex whose frame cache holds a frame is analyzed; the others are skipped
   * for this event.
   */
  method SelectFex(hasFrame: seq<bool>) returns (chosen: Option<nat>)
    ensures chosen.Some? ==> chosen.value < |hasFrame| && hasFrame[chosen.value]
    ensures chosen.Some? ==> forall j :: 0 <= j < chosen.value ==> !hasFrame[j]
    ensures chosen.None? <==> forall j :: 0 <= j < |hasFrame| ==> !hasFrame[j]
  {
    chosen := None;
    var i := 0;
    while i < |hasFrame|
      invariant 0 <= i <= |hasFrame|
      invariant forall j :: 0 <= j < i ==> !hasFrame[j]
    {
      if hasFrame[i] {
        chosen := Some(i);
        break;
      }
      i := i + 1;
    }
  }
}
