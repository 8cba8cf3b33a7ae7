/**
 * The frame caches of service/FrameCache.cc: a per-camera holder for the
 * current event's frame. The Opal cache accepts Camera FrameV1 payloads,
 * the Vimba cache (for Alvium cameras) Vimba frames; a payload of any
 * other type or version is ignored.
 */
module FrameCache {
  import opened Wrappers
  import opened Pds

  /** The two cache flavours. */
  datatype Camera = Opal | Vimba

  /** A stored frame: its pedestal offset and its rows of pixels. */
  datatype Frame = Frame(offset: nat, pixels: seq<seq<nat>>)

  /** The payload type each cache accepts: Camera FrameV1, or the Vimba frame version 1. */
  function Accepted(c: Camera): TypeId
  {
    match c
    case Opal => TypeId(CameraFrame, 1)
    case Vimba => TypeId(VimbaFrame, 1)
  }

  /**
   * FrameCache::instance: an Alvium configuration of version 1 gives a
   * Vimba cache, an Opal1k configuration of any version an Opal cache,
   * anything else no cache.
   */
  function Instance(config: TypeId): (r: Option<Camera>)
    ensures r == Some(Vimba) <==> config == TypeId(AlviumConfig, 1)
    ensures r == Some(Opal) <==> config.id == Opal1kConfig
    ensures r == None <==> config.id !in {AlviumConfig, Opal1kConfig} || (config.id == AlviumConfig && config.version != 1)
  {
    match config.id
    case AlviumConfig => if config.version == 1 then Some(Vimba) else None
    case Opal1kConfig => Some(Opal)
    case _ => None
  }

  class Cache {
    const camera: Camera
    const src: Src
    var frame: Option<Frame>

    /** A new cache remembers its source and holds no frame. */
    constructor (camera: Camera, src: Src)
      ensures this.camera == camera && this.src == src
      ensures frame == None
    {
      this.camera := camera;
      this.src := src;
      frame := None;
    }

    /** set_frame: stores the payload only when its type id and version are the accepted ones. */
    method SetFrame(t: TypeId, payload: Frame)
      modifies this
      ensures t == Accepted(camera) ==> frame == Some(payload)
      ensures t != Accepted(camera) ==> frame == old(frame)
    {
      if t == Accepted(camera) {
        frame := Some(payload);
      }
    }

    /** clear_frame: drops the stored frame. */
    method ClearFrame()
      modifies this
      ensures frame == None
      ensures Empty()
    {
      frame := None;
    }

    /** empty: no frame is stored; an empty cache reports offset 0 and a 0x0 frame. */
    function Empty(): (r: bool)
      reads this
      ensures r <==> frame == None
      ensures r ==> Offset() == 0 && Data() == []
    {
      frame.None?
    }

    /** offset: the stored Opal frame's offset, otherwise 0; a Vimba cache always reports 0. */
    function Offset(): (r: nat)
      reads this
      ensures camera == Vimba ==> r == 0
      ensures camera == Opal && frame.Some? ==> r == frame.value.offset
    {
      if camera == Opal && frame.Some? then frame.value.offset else 0
    }

    /** data: the stored frame's pixels, or a 0x0 array when none is stored. */
    function Data(): (r: seq<seq<nat>>)
      reads this
      ensures frame.Some? ==> r == frame.value.pixels
    {
      if frame.Some? then frame.value.pixels else []
    }
  }
}
