/** The cache of split-K workspaces and its prewarming for CUDA graph capture. */
module WorkspaceCache {
  import opened Collections
  import opened ExtReal
  import opened Buffers
  import opened Dispatch
  import opened FishDecode

  datatype Device = Device(kind: string, index: int)

  /** The small path shares one empty workspace per device; a long path has one per batch, head shape and
      split count. */
  datatype Key = Empty(device: Device) | Long(device: Device, batch: nat, numQ: nat, headDim: nat, splits: nat)

  function KeyOf(device: Device, batch: nat, numQ: nat, headDim: nat, maxSeqLen: int): Key {
    if maxSeqLen <= SMALL_PATH_MAX_SEQ_LEN then Empty(device)
    else Long(device, batch, numQ, headDim, (maxSeqLen + LONG_SPLIT_TOKENS - 1) / LONG_SPLIT_TOKENS)
  }

  /** Up to 1024 tokens a call uses the shared empty workspace; a longer one has a split per 1024 tokens begun. */
  lemma KeyIs(device: Device, batch: nat, numQ: nat, headDim: nat, maxSeqLen: int)
    ensures var key := KeyOf(device, batch, numQ, headDim, maxSeqLen);
            if maxSeqLen <= 1024 then key == Empty(device)
            else
              && key.Long? && key == Long(device, batch, numQ, headDim, key.splits)
              && (key.splits - 1) * 1024 < maxSeqLen <= key.splits * 1024
  {
  }

  function HeadShape(key: Key): Dims {
    match key
    case Empty(_) => Dims1(0)
    case Long(_, batch, numQ, headDim, splits) => Dims3(splits, batch, numQ)
  }

  function AccShape(key: Key): Dims {
    match key
    case Empty(_) => Dims1(0)
    case Long(_, batch, numQ, headDim, splits) => Dims4(splits, batch, numQ, headDim)
  }

  /** A workspace has the shape its key names. */
  ghost predicate Matches(key: Key, ws: Workspace) {
    Allocated(ws) && ws.mShape == HeadShape(key) && ws.lShape == HeadShape(key) && ws.accShape == AccShape(key)
  }

  function BuffersOf(ws: Workspace): set<object> {
    {ws.scratch.m, ws.scratch.l, ws.scratch.acc}
  }

  datatype Lookup = Found(ws: Workspace) | CaptureMiss

  /** The keys that prewarming adds. */
  ghost function PrewarmKeys(device: Device, numQ: nat, headDim: nat, maxModelLen: nat, sizes: set<int>): set<Key> {
    {Empty(device)} + set size | size in sizes && size >= 0 :: KeyOf(device, size, numQ, headDim, maxModelLen)
  }

  lemma NothingPrewarmed(keys: set<Key>, device: Device, numQ: nat, headDim: nat, maxModelLen: nat)
    requires Empty(device) in keys
    ensures keys + PrewarmKeys(device, numQ, headDim, maxModelLen, {}) == keys
  {
  }

  lemma PrewarmOneMore(keys: set<Key>, device: Device, numQ: nat, headDim: nat, maxModelLen: nat, sizes: set<int>,
                       size: nat)
    ensures keys + PrewarmKeys(device, numQ, headDim, maxModelLen, sizes + {size}) ==
            keys + PrewarmKeys(device, numQ, headDim, maxModelLen, sizes) +
                  {KeyOf(device, size, numQ, headDim, maxModelLen)}
  {
    assert PrewarmKeys(device, numQ, headDim, maxModelLen, sizes + {size}) ==
           PrewarmKeys(device, numQ, headDim, maxModelLen, sizes) + {KeyOf(device, size, numQ, headDim, maxModelLen)};
  }

  lemma EmptyIsPrewarmed(keys: set<Key>, device: Device, numQ: nat, headDim: nat, maxModelLen: nat, sizes: set<int>)
    ensures keys + {Empty(device)} + PrewarmKeys(device, numQ, headDim, maxModelLen, sizes) ==
            keys + PrewarmKeys(device, numQ, headDim, maxModelLen, sizes)
  {
  }

  class DecodeWorkspaces {
    var entries: map<Key, Workspace>

    /** The scratch buffers that the cache has handed out. */
    ghost var owned: set<object>

    ghost predicate Valid()
      reads this
    {
      forall key | key in entries :: Matches(key, entries[key]) && BuffersOf(entries[key]) <= owned
    }

    constructor ()
      ensures Valid() && entries == map[] && owned == {}
    {
      entries, owned := map[], {};
    }

    /** torch.empty for each buffer of a key. */
    static method Allocate(key: Key) returns (ws: Workspace)
      ensures Matches(key, ws) && fresh(BuffersOf(ws))
    {
      var m := new Ext[Count(HeadShape(key))];
      var l := new Ext[Count(HeadShape(key))];
      var acc := new Ext[Count(AccShape(key))];
      ws := Workspace(HeadShape(key), HeadShape(key), AccShape(key), Scratch(m, l, acc));
    }

    /** _get_decode_workspace: a miss allocates, unless a graph is being captured. */
    method Get(device: Device, batch: nat, numQ: nat, headDim: nat, maxSeqLen: int, capturing: bool) returns (r: Lookup)
      requires Valid()
      modifies this
      ensures Valid()
      ensures r == CaptureMiss <==> KeyOf(device, batch, numQ, headDim, maxSeqLen) !in old(entries) && capturing
      ensures r == CaptureMiss ==> entries == old(entries)
      ensures r.Found? ==> Matches(KeyOf(device, batch, numQ, headDim, maxSeqLen), r.ws)
      ensures r.Found? ==> entries == old(entries)[KeyOf(device, batch, numQ, headDim, maxSeqLen) := r.ws]
      ensures KeyOf(device, batch, numQ, headDim, maxSeqLen) in old(entries) ==>
                r == Found(old(entries)[KeyOf(device, batch, numQ, headDim, maxSeqLen)])
      ensures fresh(owned - old(owned)) && (r.Found? ==> BuffersOf(r.ws) <= owned)
    {
      var key := KeyOf(device, batch, numQ, headDim, maxSeqLen);
      if key in entries {
        assert entries[key := entries[key]] == entries;
        return Found(entries[key]);
      }
      if capturing {
        return CaptureMiss;
      }
      var ws := Allocate(key);
      entries, owned := entries[key := ws], owned + BuffersOf(ws);
      return Found(ws);
    }

    /** prewarm_fish_kvcache_attn_workspace */
    method PrewarmWorkspace(device: Device, batch: nat, numQ: nat, headDim: nat, maxSeqLen: int)
      requires Valid()
      modifies this
      ensures Valid() && fresh(owned - old(owned))
      ensures entries.Keys == old(entries.Keys) + {KeyOf(device, batch, numQ, headDim, maxSeqLen)}
      ensures forall key | key in old(entries) :: key in entries && entries[key] == old(entries)[key]
    {
      var _ := Get(device, batch, numQ, headDim, maxSeqLen, false);
    }

    /** The loop over the capture sizes. */
    method PrewarmSizes(device: Device, numQ: nat, headDim: nat, maxModelLen: nat, sizes: set<int>)
      requires Valid() && Empty(device) in entries && forall size | size in sizes :: size > 0
      modifies this
      ensures Valid()
      ensures forall key | key in old(entries) :: key in entries && entries[key] == old(entries)[key]
      ensures fresh(owned - old(owned))
      ensures entries.Keys == old(entries.Keys) + PrewarmKeys(device, numQ, headDim, maxModelLen, sizes)
    {
      var done: set<int> := {};
      NothingPrewarmed(entries.Keys, device, numQ, headDim, maxModelLen);
      while done < sizes
        invariant Valid() && done <= sizes
        invariant forall key | key in old(entries) :: key in entries && entries[key] == old(entries)[key]
        invariant fresh(owned - old(owned))
        invariant entries.Keys == old(entries.Keys) + PrewarmKeys(device, numQ, headDim, maxModelLen, done)
        decreases sizes - done
      {
        Outside(sizes, done);
        var size :| size in sizes && size !in done;
        PrewarmOneMore(old(entries.Keys), device, numQ, headDim, maxModelLen, done, size);
        PrewarmWorkspace(device, size, numQ, headDim, maxModelLen);
        done := done + {size};
      }
    }

    /** prewarm_fish_kvcache_attn_capture_workspaces: one empty workspace, then one per positive capture size. */
    method Prewarm(active: bool, device: Device, numQ: nat, headDim: nat, maxModelLen: nat,
                   captureSizes: seq<int>) returns (prewarmed: nat)
      requires Valid()
      modifies this
      ensures Valid()
      ensures forall key | key in old(entries) :: key in entries && entries[key] == old(entries)[key]
      ensures fresh(owned - old(owned))
      ensures var sizes := set size | size in captureSizes && size > 0;
              if !active || sizes == {} then prewarmed == 0 && entries == old(entries)
              else
                && prewarmed == 1 + |sizes|
                && entries.Keys == old(entries.Keys) + {Empty(device)} +
                                   set size | size in sizes :: KeyOf(device, size, numQ, headDim, maxModelLen)
    {
      if !active {
        return 0;
      }
      var sizes := set size | size in captureSizes && size > 0;
      if sizes == {} {
        return 0;
      }
      ghost var keys := entries.Keys;
      PrewarmWorkspace(device, 1, numQ, headDim, 1);
      prewarmed := 1;
      EmptyIsPrewarmed(keys, device, numQ, headDim, maxModelLen, sizes);
      PrewarmSizes(device, numQ, headDim, maxModelLen, sizes);
      prewarmed := prewarmed + |sizes|;
    }
  }

  /** After prewarming, a call dispatched during capture finds its workspace: the attached bound is the capture bound
      on every row, so dispatch picks either the small path or exactly the prewarmed split count. */
  lemma CaptureHits(keys: set<Key>, device: Device, numQ: nat, headDim: nat, maxModelLen: nat, sizes: set<int>,
                    batch: nat, bounds: seq<int>, metaMaxSeqLen: int, lens: seq<int>, required: bool)
    requires PrewarmKeys(device, numQ, headDim, maxModelLen, sizes) <= keys && batch in sizes && 0 < batch <= |bounds|
    requires forall i | 0 <= i < |bounds| :: bounds[i] == CaptureUpperBound(maxModelLen)
    ensures var c := DispatchMaxSeqLen(metaMaxSeqLen, 1, OnCpu(bounds), batch, lens, required);
            c.Use? ==> KeyOf(device, batch, numQ, headDim, c.len) in keys
  {
    var active := bounds[..batch];
    assert active[0] == CaptureUpperBound(maxModelLen);
    assert MaxFrom(1, active) == CaptureUpperBound(maxModelLen);
  }

  /** A workspace found for a long dispatch length passes the launch's shape check; for a short one it is empty. */
  lemma FoundWorkspaceFits(device: Device, batch: nat, numQ: nat, headDim: nat, maxSeqLen: nat, ws: Workspace)
    requires Matches(KeyOf(device, batch, numQ, headDim, maxSeqLen), ws)
    ensures SMALL_PATH_MAX_SEQ_LEN < maxSeqLen ==>
              ws.accShape == Dims4(CeilDiv(maxSeqLen, LONG_SPLIT_TOKENS), batch, numQ, headDim)
    ensures maxSeqLen <= 1024 ==> ws.scratch.m.Length == ws.scratch.l.Length == ws.scratch.acc.Length == 0
  {
  }
}
