/** One decode step end to end: dispatch length, guard, workspace, launch. */
module FishForward {
  import opened ExtReal
  import opened PagedCache
  import opened Kernels
  import opened Buffers
  import opened DecodePrograms
  import opened Dispatch
  import opened FishDecode
  import opened WorkspaceCache

  /** The facts about a call that the guard inspects. eligible gathers its conditions that concern neither shape nor
      capacity: the backend is enabled and available, no cascade, no context parallelism, no ALiBi, no sliding window,
      no output scale, the expected dtypes, contiguous operands. */
  datatype Call = Call(eligible: bool, maxQueryLen: int, queryShape: seq<nat>, keyShape: seq<nat>, valueShape: seq<nat>,
                       haveTable: bool, tableShape: seq<nat>, lensShape: seq<nat>)

  /** can_use_fish_kvcache_attn */
  predicate CanUse(c: Call, maxSeqLen: int) {
    && c.eligible && c.maxQueryLen == 1 && c.haveTable
    && |c.queryShape| == 3 && |c.keyShape| == 4 && |c.valueShape| == 4 && |c.tableShape| == 2 && |c.lensShape| == 1
    && c.tableShape[0] == c.queryShape[0] && c.lensShape[0] == c.queryShape[0]
    && c.queryShape[2] == 128 && c.keyShape[3] == 128 && c.keyShape[1] == 16
    && 0 < maxSeqLen <= c.tableShape[1] * c.keyShape[1]
  }

  /** The call describes these tensors; a call the guard finds eligible has them contiguous in memory. */
  ghost predicate Describes(c: Call, s: Shape, numBlocks: nat, blockSize: nat) {
    && c.queryShape == [s.batch, s.numQ, s.headDim]
    && c.keyShape == [numBlocks, blockSize, s.numKv, s.headDim] && c.valueShape == c.keyShape
    && c.tableShape == [s.batch, s.maxBlocks] && c.lensShape == [s.batch]
  }

  /** The guard accepts a described decode call exactly when it is eligible, has a block table, its heads have 128
      components and its blocks 16 tokens, and the dispatch length is within what the block table can hold. */
  predicate Accepts(c: Call, s: Shape, blockSize: nat, len: int) {
    c.eligible && c.haveTable && s.headDim == 128 && blockSize == 16 && 0 < len <= s.maxBlocks * 16
  }

  lemma GuardAccepts(c: Call, s: Shape, numBlocks: nat, blockSize: nat, len: int)
    requires Describes(c, s, numBlocks, blockSize) && c.maxQueryLen == 1
    ensures CanUse(c, len) <==>
            c.eligible && c.haveTable && s.headDim == 128 && blockSize == 16 && 0 < len <= s.maxBlocks * 16
  {
  }

  /** What the block allocator guarantees: the blocks that hold a row's tokens exist. */
  ghost predicate BlocksExist(t: Tensors) {
    forall b, i | 0 <= b < |t.table| && b < |t.lens| && 0 <= i < |t.table[b]| && i * BLOCK_SIZE < t.lens[b] ::
          0 <= t.table[b][i] < |t.keys|
  }

  datatype Outcome = Handled | FellBack | Raised(reason: Reason) | DecodeFailed(error: DecodeError) | GuardRejected

  /** Attention over every token of every row. */
  ghost predicate IsReference(g: Launch, t: Tensors, out: seq<Ext>)
    requires Launchable(g, t) && |out| == OutSize(g.s)
  {
    forall b, kv, h, d | InGrid(g.s, b, kv, h, d) :: out[Cell(g.s, b, kv, h, d)] == Output(g, t, b, kv, h, d, Len(t, b))
  }

  /** The guard's capacity condition keeps every covered row inside the block table. */
  lemma RowsFitTable(s: Shape, t: Tensors, maxSeqLen: nat)
    requires BlocksExist(t) && |t.lens| == s.batch && maxSeqLen <= s.maxBlocks * BLOCK_SIZE
    requires forall b | 0 <= b < s.batch :: t.lens[b] <= maxSeqLen
    ensures WellShaped(s, t) ==> RowsFit(s, t)
  {
  }

  lemma TilesOfSplit()
    ensures WholeTiles(BLOCK_N, LONG_SPLIT_TOKENS)
  {
    MultipleIsWholeTiles(BLOCK_N, 8);
  }

  /** fish_decode_kvcache_attn, once its workspace is at hand. */
  method DecodeWithWorkspace(e: real -> real, s: Shape, blockSize: nat, ghost t: Tensors, mem: Memory, scale: real,
                             out: array<Ext>, maxSeqLen: nat, ghost device: Device, ws: Workspace)
    returns (r: DecodeResult)
    requires IsExp(e) && 0 < s.numKv && s.group == s.numQ / s.numKv && Supported(s, blockSize)
    requires s.numQ % s.numKv == 0 ==> Ready(s, t, mem)
    requires s.numQ % s.numKv == 0 ==> forall b | 0 <= b < s.batch :: t.lens[b] <= maxSeqLen
    requires out.Length == OutSize(s) && Matches(KeyOf(device, s.batch, s.numQ, s.headDim, maxSeqLen), ws)
    requires out != ws.scratch.m && out != ws.scratch.l && out != ws.scratch.acc
    modifies out, ws.scratch.m, ws.scratch.l, ws.scratch.acc
    ensures r == if s.numQ % s.numKv != 0 then Failed(IndivisibleHeads) else Done
    ensures r == Done ==> IsReference(Launch(e, s, mem, scale, BLOCK_N), t, out[..])
    ensures r != Done ==> out[..] == old(out[..])
  {
    TilesOfSplit();
    r := DecodeAttention(e, s, blockSize, t, mem, scale, out, maxSeqLen, SMALL_PATH_MAX_SEQ_LEN, LONG_SPLIT_TOKENS, ws);
    if r == Done {
      forall b, kv, h, d | InGrid(s, b, kv, h, d)
        ensures out[Cell(s, b, kv, h, d)] == Output(Launch(e, s, mem, scale, BLOCK_N), t, b, kv, h, d, Len(t, b))
      {
        CoveredIsAll(t, b, maxSeqLen, SMALL_PATH_MAX_SEQ_LEN, LONG_SPLIT_TOKENS);
      }
    }
  }

  /** The decode branch of the patched forward. It handles exactly the calls that the guard accepts, whose heads group,
      and whose workspace is there or may be allocated. The output is then the reference: no token is dropped, whatever
      path was taken and whatever the reused scratch held. Every other outcome leaves the output alone. */
  method ForwardDecode(e: real -> real, c: Call, s: Shape, blockSize: nat, ghost t: Tensors, mem: Memory, scale: real,
                       out: array<Ext>, metaMaxSeqLen: int, upper: UpperBound, required: bool, device: Device,
                       capturing: bool, cache: DecodeWorkspaces)
    returns (r: Outcome)
    requires IsExp(e) && 0 < s.numKv && s.group == s.numQ / s.numKv && c.maxQueryLen == 1
    requires Describes(c, s, |t.keys|, blockSize) && BlocksExist(t) && mem.lens == t.lens && |t.lens| == s.batch
    requires c.eligible && Supported(s, blockSize) && s.numQ % s.numKv == 0 ==> WellShaped(s, t) && Contiguous(t, mem)
    requires DispatchMaxSeqLen(metaMaxSeqLen, 1, upper, s.batch, mem.lens, required).Use? ==>
               required || BoundsHold(upper, s.batch, t.lens)
    requires out.Length == OutSize(s) && cache.Valid()
    requires out !in cache.owned
    modifies out, cache, cache.owned
    ensures cache.Valid() && fresh(cache.owned - old(cache.owned))
    ensures forall key | key in old(cache.entries) ::
              key in cache.entries && cache.entries[key] == old(cache.entries)[key]
    ensures var choice := DispatchMaxSeqLen(metaMaxSeqLen, 1, upper, s.batch, mem.lens, required);
            && (choice.Raise? <==> r.Raised?) && (choice.Raise? ==> r == Raised(choice.reason))
            && (r == FellBack || r == GuardRejected <==>
                choice == Fallback || (choice.Use? && !Accepts(c, s, blockSize, choice.len)))
            && (r == GuardRejected ==> required) && (r == FellBack ==> !required)
    ensures var choice := DispatchMaxSeqLen(metaMaxSeqLen, 1, upper, s.batch, mem.lens, required);
            var accepted := choice.Use? && Accepts(c, s, blockSize, choice.len);
            var missed :=
              accepted && capturing && KeyOf(device, s.batch, s.numQ, s.headDim, choice.len) !in old(cache.entries);
            && (r == DecodeFailed(WorkspaceNotPrewarmed) <==> missed)
            && (r == DecodeFailed(IndivisibleHeads) <==> accepted && !missed && s.numQ % s.numKv != 0)
            && (r == Handled <==> accepted && !missed && s.numQ % s.numKv == 0)
    ensures r == Handled ==>
              && Supported(s, blockSize) && s.numQ % s.numKv == 0
              && WellShaped(s, t) && RowsFit(s, t) && Contiguous(t, mem)
    ensures r == Handled ==> IsReference(Launch(e, s, mem, scale, BLOCK_N), t, out[..])
    ensures r != Handled ==> out[..] == old(out[..])
    ensures r.DecodeFailed? ==> r.error == IndivisibleHeads || r.error == WorkspaceNotPrewarmed
  {
    var choice := DispatchMaxSeqLen(metaMaxSeqLen, c.maxQueryLen, upper, s.batch, mem.lens, required);
    if choice.Raise? {
      return Raised(choice.reason);
    }
    if choice.Use? {
      GuardAccepts(c, s, |t.keys|, blockSize, choice.len);
    }
    if choice == Fallback || !CanUse(c, choice.len) {
      return if required then GuardRejected else FellBack;
    }
    DispatchCoversEveryRow(metaMaxSeqLen, upper, s.batch, mem.lens, required);
    var maxSeqLen: nat := choice.len;
    var found := cache.Get(device, s.batch, s.numQ, s.headDim, maxSeqLen, capturing);
    if found == CaptureMiss {
      return DecodeFailed(WorkspaceNotPrewarmed);
    }
    RowsFitTable(s, t, maxSeqLen);
    var d := DecodeWithWorkspace(e, s, blockSize, t, mem, scale, out, maxSeqLen, device, found.ws);
    return if d.Failed? then DecodeFailed(d.error) else Handled;
  }
}
