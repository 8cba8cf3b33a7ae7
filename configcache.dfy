/**
 * The configuration caches of service/ConfigCache.cc: a holder for one
 * TimeTool configuration (versions 1 to 3) and the data record of the
 * current event, with the signal integral computed from them.
 */
module ConfigCache {
  import opened Wrappers
  import opened Pds

  /** The configuration fields the integral reads; use_full_roi exists from version 3 on. */
  datatype Settings = Settings(writeProjections: bool, useFullRoi: bool)

  /** The data fields it reads: the projected signal and the full region of interest (version 3). */
  datatype Data = Data(projected: seq<int>, full: seq<seq<int>>)

  /** ConfigCache::instance: a cache of the given version for TimeToolConfig versions 1, 2 and 3 only. */
  function Instance(config: TypeId): (r: Option<nat>)
    ensures r.Some? <==> config.id == TimeToolConfig && 1 <= config.version <= 3
    ensures r.Some? ==> r.value == config.version
  {
    if config.id == TimeToolConfig && config.version in {1, 2, 3} then Some(config.version) else None
  }

  function Sum(s: seq<int>): int
  {
    if s == [] then 0 else Sum(s[..|s| - 1]) + s[|s| - 1]
  }

  /** The entries of a two-dimensional array in storage (row-major) order. */
  function Flatten(rows: seq<seq<int>>): seq<int>
  {
    if rows == [] then [] else Flatten(rows[..|rows| - 1]) + rows[|rows| - 1]
  }

  function RowSums(rows: seq<seq<int>>): (r: seq<int>)
    ensures |r| == |rows|
  {
    seq(|rows|, i requires 0 <= i < |rows| => Sum(rows[i]))
  }

  lemma {:induction false} SumAppend(a: seq<int>, b: seq<int>)
    ensures Sum(a + b) == Sum(a) + Sum(b)
    decreases |b|
  {
    if b == [] {
      assert a + b == a;
    } else {
      assert (a + b)[..|a + b| - 1] == a + b[..|b| - 1];
      SumAppend(a, b[..|b| - 1]);
    }
  }

  /** Summing the full array in storage order is summing its row sums. */
  lemma {:induction false} SumFlatten(rows: seq<seq<int>>)
    ensures Sum(Flatten(rows)) == Sum(RowSums(rows))
    decreases |rows|
  {
    if rows != [] {
      var init := rows[..|rows| - 1];
      SumFlatten(init);
      SumAppend(Flatten(init), rows[|rows| - 1]);
      assert RowSums(rows)[..|rows| - 1] == RowSums(init);
    }
  }

  /**
   * calc_signal_integral: 0 without projections; otherwise the sum of the
   * full region of interest for version 3 with use_full_roi, and the sum of
   * the projected signal in every other case.
   */
  function Integral(version: nat, s: Settings, d: Data): int
  {
    if !s.writeProjections then 0
    else if version == 3 && s.useFullRoi then Sum(Flatten(d.full))
    else Sum(d.projected)
  }

  /** The full-region integral is the total of the region's row sums. */
  lemma FullIntegral(s: Settings, d: Data)
    requires s.writeProjections && s.useFullRoi
    ensures Integral(3, s, d) == Sum(RowSums(d.full))
  {
    SumFlatten(d.full);
  }

  /** The loop of calc_signal_integral: walks the array and adds every entry. */
  method Accumulate(s: seq<int>) returns (r: int)
    ensures r == Sum(s)
  {
    r := 0;
    var i := 0;
    while i < |s|
      invariant 0 <= i <= |s|
      invariant r == Sum(s[..i])
    {
      assert s[..i + 1][..i] == s[..i];
      r := r + s[i];
      i := i + 1;
    }
    assert s[..i] == s;
  }

  class Cache {
    const version: nat
    const settings: Settings
    var data: Option<Data>

    /** A new cache copies its configuration and holds no data. */
    constructor (version: nat, settings: Settings)
      ensures this.version == version && this.settings == settings
      ensures data == None
    {
      this.version := version;
      this.settings := settings;
      data := None;
    }

    /** The data type that belongs to the configuration: DataV1, DataV2 or DataV3. */
    function DataType(): TypeId
    {
      TypeId(TimeToolData, version)
    }

    /** data(): keeps the payload and reports true iff its type id and version are DataType(); otherwise clears the data. */
    method Accept(t: TypeId, payload: Data) returns (ok: bool)
      modifies this
      ensures ok <==> t == DataType()
      ensures data == (if ok then Some(payload) else None)
    {
      if t == DataType() {
        data := Some(payload);
        ok := true;
      } else {
        data := None;
        ok := false;
      }
    }

    /** signal_integral, which dereferences the stored data. */
    method SignalIntegral() returns (r: int)
      requires data.Some?
      ensures r == Integral(version, settings, data.value)
    {
      var d := data.value;
      r := 0;
      if settings.writeProjections {
        if version == 3 && settings.useFullRoi {
          r := Accumulate(Flatten(d.full));
        } else {
          r := Accumulate(d.projected);
        }
      }
    }
  }
}
