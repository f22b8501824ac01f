/** Runs of decode steps that share one workspace cache. */
module DecodeRuns {
  import opened ExtReal
  import opened PagedCache
  import opened Kernels
  import opened Buffers
  import opened Dispatch
  import opened FishDecode
  import opened WorkspaceCache
  import opened FishForward

  /** One decode call. */
  datatype Decode = Decode(call: Call, s: Shape, blockSize: nat, t: Tensors, mem: Memory, scale: real, out: array<Ext>,
                           metaMaxSeqLen: int, upper: UpperBound, required: bool, device: Device, capturing: bool)

  function ChoiceOf(x: Decode): Choice {
    DispatchMaxSeqLen(x.metaMaxSeqLen, 1, x.upper, x.s.batch, x.mem.lens, x.required)
  }

  /** What a call assumes of its environment, the workspace cache aside. */
  ghost predicate DecodeOk(x: Decode) {
    && 0 < x.s.numKv && x.s.group == x.s.numQ / x.s.numKv && x.call.maxQueryLen == 1
    && Describes(x.call, x.s, |x.t.keys|, x.blockSize) && BlocksExist(x.t)
    && x.mem.lens == x.t.lens && |x.t.lens| == x.s.batch
    && (x.call.eligible && Supported(x.s, x.blockSize) && x.s.numQ % x.s.numKv == 0 ==>
          WellShaped(x.s, x.t) && Contiguous(x.t, x.mem))
    && (ChoiceOf(x).Use? ==> x.required || BoundsHold(x.upper, x.s.batch, x.t.lens))
    && x.out.Length == OutSize(x.s)
  }

  /** The cache has the workspace that the call's dispatch length asks for. */
  ghost predicate HasWorkspace(keys: set<Key>, x: Decode) {
    ChoiceOf(x).Use? ==> KeyOf(x.device, x.s.batch, x.s.numQ, x.s.headDim, ChoiceOf(x).len) in keys
  }

  /** The guard accepts the call, and its heads group. */
  predicate Servable(x: Decode) {
    && ChoiceOf(x).Use? && Accepts(x.call, x.s, x.blockSize, ChoiceOf(x).len)
    && 0 < x.s.numKv && x.s.numQ % x.s.numKv == 0
  }

  /** How a call ends, and what it leaves in its output, over a cache with these keys. */
  ghost predicate EndsWell(e: real -> real, keys: set<Key>, x: Decode, r: Outcome, out: seq<Ext>)
    requires IsExp(e) && DecodeOk(x) && |out| == OutSize(x.s)
  {
    && (r.DecodeFailed? ==> r.error == IndivisibleHeads || r.error == WorkspaceNotPrewarmed)
    && (r == DecodeFailed(WorkspaceNotPrewarmed) ==> x.capturing && !HasWorkspace(keys, x))
    && (r.Raised? <==> ChoiceOf(x).Raise?) && (r.Raised? ==> ChoiceOf(x) == Raise(r.reason))
    && (r == FellBack ==> !x.required) && (r == GuardRejected ==> x.required)
    && (r == Handled ==> Servable(x))
    && (Servable(x) && (x.capturing ==> HasWorkspace(keys, x)) ==> r == Handled)
    && (r == Handled ==> Launchable(Launch(e, x.s, x.mem, x.scale, BLOCK_N), x.t)
                         && IsReference(Launch(e, x.s, x.mem, x.scale, BLOCK_N), x.t, out))
  }

  ghost function Outputs(steps: seq<Decode>): set<object> {
    set x | x in steps :: x.out
  }

  /** One step of a run. */
  method ServeOne(e: real -> real, x: Decode, cache: DecodeWorkspaces) returns (r: Outcome)
    requires IsExp(e) && DecodeOk(x) && cache.Valid() && x.out !in cache.owned
    modifies x.out, cache, cache.owned
    ensures cache.Valid() && fresh(cache.owned - old(cache.owned)) && old(cache.entries.Keys) <= cache.entries.Keys
    ensures EndsWell(e, old(cache.entries.Keys), x, r, x.out[..])
  {
    r := ForwardDecode(e, x.call, x.s, x.blockSize, x.t, x.mem, x.scale, x.out, x.metaMaxSeqLen, x.upper, x.required,
                       x.device, x.capturing, cache);
  }

  /** Any sequence of decode steps over one cache: its buffers are reused, its keys only grow, and every step ends well.
      A missing workspace can only be one that the cache lacked from the start. */
  method Serve(e: real -> real, steps: seq<Decode>, cache: DecodeWorkspaces)
    returns (outcomes: seq<Outcome>, ghost outs: seq<seq<Ext>>)
    requires IsExp(e) && cache.Valid() && forall x | x in steps :: DecodeOk(x) && x.out !in cache.owned
    modifies Outputs(steps), cache, cache.owned
    ensures cache.Valid() && fresh(cache.owned - old(cache.owned)) && old(cache.entries.Keys) <= cache.entries.Keys
    ensures |outcomes| == |outs| == |steps|
    ensures forall i | 0 <= i < |steps| :: |outs[i]| == OutSize(steps[i].s)
                                           && EndsWell(e, old(cache.entries.Keys), steps[i], outcomes[i], outs[i])
  {
    outcomes, outs := [], [];
    for i := 0 to |steps|
      invariant cache.Valid() && fresh(cache.owned - old(cache.owned)) && old(cache.entries.Keys) <= cache.entries.Keys
      invariant |outcomes| == |outs| == i
      invariant forall j | 0 <= j < i :: |outs[j]| == OutSize(steps[j].s)
                                         && EndsWell(e, old(cache.entries.Keys), steps[j], outcomes[j], outs[j])
    {
      assert steps[i] in steps && steps[i].out in Outputs(steps);
      var r := ServeOne(e, steps[i], cache);
      outcomes, outs := outcomes + [r], outs + [steps[i].out[..]];
    }
  }

  /** A call whose attached bounds are the capture bound, at a capture size and with the configured heads. */
  ghost predicate AtCapture(x: Decode, device: Device, numQ: nat, headDim: nat, maxModelLen: nat,
                            captureSizes: seq<int>) {
    && x.device == device && x.s.numQ == numQ && x.s.headDim == headDim
    && 0 < x.s.batch && x.s.batch in captureSizes
    && x.upper.OnCpu? && x.s.batch <= |x.upper.bounds|
    && forall i | 0 <= i < |x.upper.bounds| :: x.upper.bounds[i] == if maxModelLen < 1024 then 1024 else maxModelLen
  }

  /** Such a call that the kernels can serve: eligible, with heads and blocks of the supported size, and a block table
      that can hold the capture bound; in required mode no row may be longer than it. */
  predicate Capturable(x: Decode, maxModelLen: nat) {
    var bound := if maxModelLen < 1024 then 1024 else maxModelLen;
    && x.call.eligible && x.call.haveTable
    && x.s.headDim == 128 && x.blockSize == 16 && 0 < x.s.numKv && x.s.numQ % x.s.numKv == 0
    && bound <= x.s.maxBlocks * 16
    && (x.required ==> forall i | 0 <= i < |x.mem.lens| :: x.mem.lens[i] <= bound)
  }

  lemma CapturableIsServable(x: Decode, device: Device, numQ: nat, headDim: nat, maxModelLen: nat,
                             captureSizes: seq<int>)
    requires AtCapture(x, device, numQ, headDim, maxModelLen, captureSizes) && Capturable(x, maxModelLen)
    ensures Servable(x)
  {
    var bound := if maxModelLen < 1024 then 1024 else maxModelLen;
    DispatchOutcome(x.metaMaxSeqLen, x.upper, x.s.batch, x.mem.lens, x.required);
    assert x.upper.bounds[..x.s.batch][0] == bound;
    assert MaxFrom(1, x.upper.bounds[..x.s.batch]) == bound;
  }

  /** Prewarming is complete: after it, and any steps in between, a step at capture finds its workspace, and is handled
      if the guard accepts it and its heads group. Every step of the run ends well, so none with a mis-shaped
      workspace. */
  method PrewarmAndServe(e: real -> real, device: Device, numQ: nat, headDim: nat, maxModelLen: nat,
                         captureSizes: seq<int>, steps: seq<Decode>, cache: DecodeWorkspaces)
    returns (outcomes: seq<Outcome>, ghost outs: seq<seq<Ext>>)
    requires IsExp(e) && cache.Valid() && forall x | x in steps :: DecodeOk(x) && x.out !in cache.owned
    modifies Outputs(steps), cache, cache.owned
    ensures cache.Valid() && |outcomes| == |outs| == |steps|
    ensures forall i | 0 <= i < |steps| :: |outs[i]| == OutSize(steps[i].s)
                                           && EndsWell(e, old(cache.entries.Keys), steps[i], outcomes[i], outs[i])
    ensures forall i | 0 <= i < |steps| && AtCapture(steps[i], device, numQ, headDim, maxModelLen, captureSizes) ::
              && outcomes[i] != DecodeFailed(WorkspaceNotPrewarmed)
              && (Servable(steps[i]) || Capturable(steps[i], maxModelLen) ==> outcomes[i] == Handled)
  {
    var _ := cache.Prewarm(true, device, numQ, headDim, maxModelLen, captureSizes);
    ghost var keys := cache.entries.Keys;
    outcomes, outs := Serve(e, steps, cache);
    forall i | 0 <= i < |steps| && AtCapture(steps[i], device, numQ, headDim, maxModelLen, captureSizes)
      ensures && outcomes[i] != DecodeFailed(WorkspaceNotPrewarmed)
              && (Servable(steps[i]) || Capturable(steps[i], maxModelLen) ==> outcomes[i] == Handled)
    {
      var x := steps[i];
      var sizes := set size | size in captureSizes && size > 0;
      assert x.s.batch in sizes;
      CaptureHits(keys, device, numQ, headDim, maxModelLen, sizes, x.s.batch, x.upper.bounds, x.metaMaxSeqLen,
                  x.mem.lens, x.required);
      assert EndsWell(e, keys, x, outcomes[i], outs[i]);
      if Capturable(x, maxModelLen) {
        CapturableIsServable(x, device, numQ, headDim, maxModelLen, captureSizes);
      }
    }
  }
}
