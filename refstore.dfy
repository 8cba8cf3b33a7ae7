/**
 * The reference spectra shared between worker threads in app/TimeToolB.cc
 * and app/TimeToolC.cc: a map from source to reference. The first
 * reference of a source is stored as a copy, later ones are averaged into
 * the stored one; a signal event picks up the stored reference. Variant C
 * also records the event type of the last call, keeps its per-source
 * vectors in lockstep, and copies projections into its output record.
 */
module RefStore {
  import opened Wrappers
  import opened Pds

  /**
   * psalg::rolling_average is not part of this model: its effect on the
   * stored reference is a parameter, from (new reference, stored average)
   * to the new average.
   */
  type Roll = (seq<real>, seq<real>) -> seq<real>

  type RefMap = map<Src, seq<real>>

  /** _monitor_ref_sig: a copy for a source not yet in the map, otherwise the rolled average. */
  function Stored(refs: RefMap, src: Src, ref: seq<real>, roll: Roll): (r: RefMap)
    ensures src in r
    ensures src !in refs ==> r[src] == ref
    ensures src in refs ==> r[src] == roll(ref, refs[src])
  {
    if src !in refs then refs[src := ref] else refs[src := roll(ref, refs[src])]
  }

  /** A store never touches another source's reference and never forgets a source. */
  lemma StoredKeepsOthers(refs: RefMap, src: Src, ref: seq<real>, roll: Roll)
    ensures Stored(refs, src, ref, roll).Keys == refs.Keys + {src}
    ensures forall s :: s in refs && s != src ==> Stored(refs, src, ref, roll)[s] == refs[s]
  {
  }

  /** Variant C's _monitor_raw_sig: the stored reference (resized to it) when the source is present. */
  function FetchedC(refs: RefMap, src: Src, cur: seq<real>): (r: seq<real>)
    ensures src in refs ==> r == refs[src]
    ensures src !in refs ==> r == cur
  {
    if src in refs then refs[src] else cur
  }

  /** Variant B's _monitor_raw_sig: the stored reference copied over the start of m_ref_avg. */
  function FetchedB(refs: RefMap, src: Src, cur: seq<real>): (r: seq<real>)
    requires src in refs ==> |refs[src]| <= |cur|
    ensures |r| == |cur|
    ensures src in refs ==> r[..|refs[src]|] == refs[src] && r[|refs[src]|..] == cur[|refs[src]|..]
    ensures src !in refs ==> r == cur
  {
    if src in refs then refs[src] + cur[|refs[src]|..] else cur
  }

  /**
   * The first reference stored for a source is exactly what that source's
   * next signal event receives, in both variants.
   */
  lemma FirstReferenceReachesSignal(refs: RefMap, src: Src, ref: seq<real>, roll: Roll, cur: seq<real>)
    requires src !in refs && |ref| <= |cur|
    ensures FetchedC(Stored(refs, src, ref, roll), src, cur) == ref
    ensures FetchedB(Stored(refs, src, ref, roll), src, cur)[..|ref|] == ref
  {
  }

  /** The map every worker shares (its semaphore is left out). */
  class Store {
    var refs: RefMap

    constructor ()
      ensures refs == map[]
    {
      refs := map[];
    }
  }

  /** The reference hooks of variant B's Fex. */
  class FexB {
    const src: Src
    var refAvg: seq<real>

    constructor (src: Src, refAvg: seq<real>)
      ensures this.src == src && this.refAvg == refAvg
    {
      this.src := src;
      this.refAvg := refAvg;
    }

    /** std::copy of the stored reference into m_ref_avg, which must be long enough. */
    method MonitorRawSig(store: Store)
      requires src in store.refs ==> |store.refs[src]| <= |refAvg|
      modifies this
      ensures refAvg == FetchedB(store.refs, src, old(refAvg))
    {
      if src in store.refs {
        refAvg := store.refs[src] + refAvg[|store.refs[src]|..];
      }
    }

    method MonitorRefSig(store: Store, ref: seq<real>, roll: Roll)
      modifies store
      ensures store.refs == Stored(old(store.refs), src, ref, roll)
    {
      if src !in store.refs {
        store.refs := store.refs[src := ref];
      } else {
        store.refs := store.refs[src := roll(ref, store.refs[src])];
      }
    }
  }

  /** The event types variant C reports in its data record. */
  datatype EventType = Dark | Signal | Reference

  /** The reference hooks and event type of variant C's Fex. */
  class FexC {
    const src: Src
    var ref: seq<real>
    var etype: EventType

    constructor (src: Src, ref: seq<real>)
      ensures this.src == src && this.ref == ref && etype == Dark
    {
      this.src := src;
      this.ref := ref;
      etype := Dark;
    }

    /** reset: after the base reset (the engine's own, not linked here) the event type is Dark. */
    method Reset()
      modifies this
      ensures etype == Dark && ref == old(ref)
    {
      etype := Dark;
    }

    /** A signal event: type Signal; the stored reference replaces m_ref, resized when the sizes differ. */
    method MonitorRawSig(store: Store)
      modifies this
      ensures etype == Signal
      ensures ref == FetchedC(store.refs, src, old(ref))
    {
      etype := Signal;
      if src in store.refs {
        var stored := store.refs[src];
        if |ref| != |stored| {
          ref := seq(|stored|, k => 0.0);
        }
        ref := stored;
      }
    }

    /** A reference event: type Reference; the reference is stored or averaged in. */
    method MonitorRefSig(store: Store, r: seq<real>, roll: Roll)
      modifies this, store
      ensures etype == Reference && ref == old(ref)
      ensures store.refs == Stored(old(store.refs), src, r, roll)
    {
      etype := Reference;
      if src !in store.refs {
        store.refs := store.refs[src := r];
      } else {
        store.refs := store.refs[src := roll(r, store.refs[src])];
      }
    }
  }

  /** copy_projection: copies in over the start of out, which must be at least as long. */
  method CopyProjection(input: seq<int>, out: array<int>)
    requires |input| <= out.Length
    modifies out
    ensures out[..|input|] == input
    ensures out[|input|..] == old(out[|input|..])
  {
    var i := 0;
    while i < |input|
      invariant 0 <= i <= |input|
      invariant out[..i] == input[..i]
      invariant out[|input|..] == old(out[|input|..])
    {
      out[i] := input[i];
      i := i + 1;
    }
  }

  /**
   * Variant C's worker: one Fex per configured source (with the key its
   * frames are matched by), the frame found in the current event, and the
   * monitoring writer's channel name, kept in lockstep.
   */
  class Worker {
    var keys: seq<nat>
    var srcs: seq<Src>
    var frames: seq<Option<nat>>
    var writers: seq<string>

    predicate Valid()
      reads this
    {
      |srcs| == |keys| && |frames| == |keys| && |writers| == |keys|
    }

    constructor ()
      ensures Valid() && keys == [] && srcs == [] && frames == [] && writers == []
    {
      keys, srcs, frames, writers := [], [], [], [];
    }

    /** A TimeToolConfig container: a new Fex, no frame yet, and a writer for base name + ":ARRAY". */
    method Configure(src: Src, key: nat, baseName: string)
      requires Valid()
      modifies this
      ensures Valid()
      ensures keys == old(keys) + [key] && srcs == old(srcs) + [src]
      ensures frames == old(frames) + [None] && writers == old(writers) + [baseName + ":ARRAY"]
    {
      keys := keys + [key];
      srcs := srcs + [src];
      frames := frames + [None];
      writers := writers + [baseName + ":ARRAY"];
    }

    /** Unconfigure: all three vectors are emptied together. */
    method Unconfigure()
      modifies this
      ensures Valid() && keys == [] && srcs == [] && frames == [] && writers == []
    {
      keys, srcs, frames, writers := [], [], [], [];
    }

    /** The start of an L1Accept: no Fex has a frame. */
    method ClearFrames()
      requires Valid()
      modifies this
      ensures Valid() && keys == old(keys) && srcs == old(srcs) && writers == old(writers)
      ensures forall i :: 0 <= i < |frames| ==> frames[i] == None
    {
      frames := seq(|frames|, i => None);
    }

    /** A Frame container: every Fex whose key equals the container's phy takes the frame. */
    method CaptureFrame(phy: nat, frame: nat)
      requires Valid()
      modifies this
      ensures Valid() && keys == old(keys) && srcs == old(srcs) && writers == old(writers)
      ensures forall i :: 0 <= i < |frames| ==> frames[i] == (if keys[i] == phy then Some(frame) else old(frames[i]))
    {
      var fs := frames;
      var i := 0;
      while i < |keys|
        invariant 0 <= i <= |keys| && |fs| == |keys|
        invariant forall j :: 0 <= j < i ==> fs[j] == (if keys[j] == phy then Some(frame) else frames[j])
        invariant forall j :: i <= j < |fs| ==> fs[j] == frames[j]
      {
        if keys[i] == phy {
          fs := fs[i := Some(frame)];
        }
        i := i + 1;
      }
      frames := fs;
    }
  }
}
