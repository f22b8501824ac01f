/** The launches of one decode step: which kernels run, in which order, and what the output buffer then holds. */
module FishDecode {
  import opened ExtReal
  import opened Layout
  import opened PagedCache
  import opened Kernels
  import opened Buffers
  import opened DecodePrograms

  const HEAD_DIM: nat := 128
  const BLOCK_N: nat := 128

  // ---- grids ----

  /** Runs the small kernel's grid; the programs are picked in any order. */
  method LaunchSmall(g: Launch, ghost t: Tensors, out: array<Ext>, guard: nat)
    requires Launchable(g, t) && out.Length == OutSize(g.s)
    modifies out
    ensures forall b, kv, h, d | InGrid(g.s, b, kv, h, d) ::
              out[Cell(g.s, b, kv, h, d)] ==
              if guard != 0 && guard < g.mem.lens[b] then old(out[Cell(g.s, b, kv, h, d)])
              else Output(g, t, b, kv, h, d, Len(t, b))
  {
    var todo := set b: nat, kv: nat | b < g.s.batch && kv < g.s.numKv :: (b, kv);
    while todo != {}
      invariant forall p | p in todo :: 0 <= p.0 < g.s.batch && 0 <= p.1 < g.s.numKv
      invariant forall b, kv, h, d | InGrid(g.s, b, kv, h, d) ::
                  out[Cell(g.s, b, kv, h, d)] ==
                  if (b, kv) in todo || Guarded(guard, g.mem.lens[b]) then old(out[Cell(g.s, b, kv, h, d)])
                  else Output(g, t, b, kv, h, d, Len(t, b))
      decreases |todo|
    {
      var p :| p in todo;
      SmallDecodeProgram(g, t, out, guard, p.0, p.1);
      todo := todo - {p};
    }
  }

  /** Every split of every long row is in scratch. */
  ghost predicate LongRowsDone(g: Launch, t: Tensors, w: Scratch, splits: nat, splitTokens: nat, minSeqLen: nat)
    requires Launchable(g, t) && Fits(g.s, splits, w)
    reads w.m, w.l, w.acc
  {
    forall b: nat, kv: nat
      | b < g.s.batch && kv < g.s.numKv && (minSeqLen == 0 || minSeqLen <= g.mem.lens[b]) ::
      RowDone(g, t, splitTokens, splits, w, b, kv)
  }

  /** Runs the partial kernel's grid in any order: every split of every long row ends up in scratch. */
  method LaunchPartial(g: Launch, ghost t: Tensors, w: Scratch, splits: nat, splitTokens: nat, minSeqLen: nat)
    requires Launchable(g, t) && Fits(g.s, splits, w) && WholeTiles(g.blockN, splitTokens)
    modifies w.m, w.l, w.acc
    ensures LongRowsDone(g, t, w, splits, splitTokens, minSeqLen)
  {
    var todo := set b: nat, kv: nat, k: nat | b < g.s.batch && kv < g.s.numKv && k < splits :: (b, kv, k);
    while todo != {}
      invariant forall p | p in todo :: 0 <= p.0 < g.s.batch && 0 <= p.1 < g.s.numKv && 0 <= p.2 < splits
      invariant forall b, kv, k | 0 <= b < g.s.batch && 0 <= kv < g.s.numKv && 0 <= k < splits
            && !TooShort(minSeqLen, g.mem.lens[b]) && (b, kv, k) !in todo ::
                  SplitDone(g, t, splitTokens, splits, w, k, b, kv)
      decreases |todo|
    {
      var p :| p in todo;
      SplitPartialProgram(g, t, w, splits, splitTokens, minSeqLen, p.0, p.1, p.2);
      todo := todo - {p};
    }
  }

  /** Runs the combine kernel's grid in any order. */
  method LaunchCombine(g: Launch, ghost t: Tensors, w: Scratch, out: array<Ext>, splits: nat, ghost splitTokens: nat,
                       minSeqLen: nat)
    requires Launchable(g, t) && Fits(g.s, splits, w) && out.Length == OutSize(g.s)
    requires out != w.m && out != w.l && out != w.acc
    requires LongRowsDone(g, t, w, splits, splitTokens, minSeqLen)
    requires forall b: nat | b < g.s.batch && !TooShort(minSeqLen, g.mem.lens[b]) ::
               0 < SplitBegin(t, splitTokens, splits, b)
    modifies out
    ensures forall b, kv, h, d | InGrid(g.s, b, kv, h, d) ::
              out[Cell(g.s, b, kv, h, d)] ==
              if minSeqLen != 0 && g.mem.lens[b] < minSeqLen then old(out[Cell(g.s, b, kv, h, d)])
              else Output(g, t, b, kv, h, d, SplitBegin(t, splitTokens, splits, b))
  {
    var todo := set b: nat, kv: nat | b < g.s.batch && kv < g.s.numKv :: (b, kv);
    while todo != {}
      invariant forall p | p in todo :: 0 <= p.0 < g.s.batch && 0 <= p.1 < g.s.numKv
      invariant LongRowsDone(g, t, w, splits, splitTokens, minSeqLen)
      invariant forall b, kv, h, d | InGrid(g.s, b, kv, h, d) ::
                  out[Cell(g.s, b, kv, h, d)] ==
                  if (b, kv) in todo || TooShort(minSeqLen, g.mem.lens[b]) then old(out[Cell(g.s, b, kv, h, d)])
                  else Output(g, t, b, kv, h, d, SplitBegin(t, splitTokens, splits, b))
      decreases |todo|
    {
      var p :| p in todo;
      SplitCombineProgram(g, t, w, out, splits, splitTokens, minSeqLen, p.0, p.1);
      todo := todo - {p};
    }
  }

  // ---- one decode call ----

  datatype DecodeError = UnsupportedShape | IndivisibleHeads | WorkspaceShape | WorkspaceNotPrewarmed

  datatype DecodeResult = Done | Failed(error: DecodeError)

  /** A tensor shape. */
  datatype Dims = Dims1(n: nat) | Dims3(a: nat, b: nat, c: nat) | Dims4(a: nat, b: nat, c: nat, d: nat)

  /** Number of elements. */
  function Count(dims: Dims): nat {
    match dims
    case Dims1(n) => n
    case Dims3(a, b, c) => a * b * c
    case Dims4(a, b, c, d) => a * b * c * d
  }

  /** A workspace: three scratch tensors with their shapes. */
  datatype Workspace = Workspace(mShape: Dims, lShape: Dims, accShape: Dims, scratch: Scratch)

  /** The tensors exist and are separate; the two head tensors have the shape of the accumulator without its last
      axis. */
  ghost predicate Allocated(ws: Workspace) {
    && ws.scratch.m != ws.scratch.l && ws.scratch.m != ws.scratch.acc && ws.scratch.l != ws.scratch.acc
    && ws.scratch.m.Length == Count(ws.mShape) && ws.scratch.l.Length == Count(ws.lShape)
        && ws.scratch.acc.Length == Count(ws.accShape)
    && (ws.accShape.Dims4? ==> ws.mShape == ws.lShape == Dims3(ws.accShape.a, ws.accShape.b, ws.accShape.c))
  }

  /** triton.cdiv */
  function CeilDiv(n: nat, d: nat): nat
    requires 0 < d
  {
    (n + d - 1) / d
  }

  lemma CeilDivCovers(n: nat, d: nat)
    requires 0 < d
    ensures n <= Index(CeilDiv(n, d), d, 0)
  {
    IndexValue(CeilDiv(n, d), d, 0);
    assert (n + d - 1) / d * d + (n + d - 1) % d == n + d - 1;
  }

  /** It is the least number of d's that makes n. */
  lemma CeilDivIsLeast(n: nat, d: nat)
    requires 0 < d
    ensures n <= CeilDiv(n, d) * d < n + d
  {
    assert (n + d - 1) / d * d + (n + d - 1) % d == n + d - 1;
  }

  /** How many tokens of row b one call attends to: all of them on the small path and in short rows,
      and what the splits cover in long rows. */
  ghost function Covered(t: Tensors, b: nat, maxSeqLen: nat, smallMax: nat, splitTokens: nat): (n: nat)
    requires b < |t.lens| && 0 < splitTokens
    ensures n <= Len(t, b)
  {
    if maxSeqLen <= smallMax || t.lens[b] <= smallMax then Len(t, b)
    else SplitBegin(t, splitTokens, CeilDiv(maxSeqLen, splitTokens), b)
  }

  /** A row no longer than the dispatch length is attended to in full. */
  lemma CoveredIsAll(t: Tensors, b: nat, maxSeqLen: nat, smallMax: nat, splitTokens: nat)
    requires b < |t.lens| && 0 < splitTokens && t.lens[b] <= maxSeqLen
    ensures Covered(t, b, maxSeqLen, smallMax, splitTokens) == Len(t, b)
  {
    CeilDivCovers(maxSeqLen, splitTokens);
  }

  /** A longer row is cut short exactly when it exceeds what the splits cover, and then to that. */
  lemma CoveredIsAllIff(t: Tensors, b: nat, maxSeqLen: nat, smallMax: nat, splitTokens: nat)
    requires b < |t.lens| && 0 < splitTokens
    ensures Covered(t, b, maxSeqLen, smallMax, splitTokens) == Len(t, b) <==>
            maxSeqLen <= smallMax || t.lens[b] <= smallMax || t.lens[b] <= CeilDiv(maxSeqLen, splitTokens) * splitTokens
    ensures Covered(t, b, maxSeqLen, smallMax, splitTokens) < Len(t, b) ==>
              Covered(t, b, maxSeqLen, smallMax, splitTokens) == CeilDiv(maxSeqLen, splitTokens) * splitTokens
  {
    IndexValue(CeilDiv(maxSeqLen, splitTokens), splitTokens, 0);
  }

  predicate Supported(s: Shape, blockSize: nat) {
    s.headDim == HEAD_DIM && blockSize == BLOCK_SIZE
  }

  /** One decode call. What the scratch buffers hold on entry does not matter. */
  method DecodeAttention(e: real -> real, s: Shape, blockSize: nat, ghost t: Tensors, mem: Memory, scale: real,
                         out: array<Ext>, maxSeqLen: nat, smallMax: nat, splitTokens: nat, ws: Workspace)
    returns (r: DecodeResult)
    requires IsExp(e) && 0 < s.numKv && 0 < splitTokens && WholeTiles(BLOCK_N, splitTokens)
    requires Supported(s, blockSize) && s.numQ % s.numKv == 0 ==> s.group == s.numQ / s.numKv && Ready(s, t, mem)
    requires out.Length == OutSize(s)
    requires Allocated(ws) && out != ws.scratch.m && out != ws.scratch.l && out != ws.scratch.acc
    modifies out, ws.scratch.m, ws.scratch.l, ws.scratch.acc
    ensures r == if !Supported(s, blockSize) then Failed(UnsupportedShape)
                 else if s.numQ % s.numKv != 0 then Failed(IndivisibleHeads)
                 else if
                   && smallMax < maxSeqLen
                   && ws.accShape != Dims4(CeilDiv(maxSeqLen, splitTokens), s.batch, s.numQ, s.headDim)
                 then Failed(WorkspaceShape)
                 else Done
    ensures r == Failed(UnsupportedShape) <==> s.headDim != 128 || blockSize != 16
    ensures r == Failed(UnsupportedShape) || r == Failed(IndivisibleHeads) ==> out[..] == old(out[..])
    ensures r == Failed(WorkspaceShape) ==> forall b, kv, h, d | InGrid(s, b, kv, h, d) ::
              out[Cell(s, b, kv, h, d)] ==
              if smallMax != 0 && smallMax < mem.lens[b] then old(out[Cell(s, b, kv, h, d)])
              else Output(Launch(e, s, mem, scale, BLOCK_N), t, b, kv, h, d, Len(t, b))
    ensures r == Done ==> forall b, kv, h, d | InGrid(s, b, kv, h, d) ::
              out[Cell(s, b, kv, h, d)] ==
                    Output(Launch(e, s, mem, scale, BLOCK_N), t, b, kv, h, d,
                           Covered(t, b, maxSeqLen, smallMax, splitTokens))
  {
    if !Supported(s, blockSize) {
      return Failed(UnsupportedShape);
    }
    if s.numQ % s.numKv != 0 {
      return Failed(IndivisibleHeads);
    }
    var g := Launch(e, s, mem, scale, BLOCK_N);
    if maxSeqLen <= smallMax {
      LaunchSmall(g, t, out, 0);
      return Done;
    }
    LaunchSmall(g, t, out, smallMax);
    var splits := CeilDiv(maxSeqLen, splitTokens);
    if ws.accShape != Dims4(splits, s.batch, s.numQ, s.headDim) {
      return Failed(WorkspaceShape);
    }
    CeilDivCovers(maxSeqLen, splitTokens);
    LaunchPartial(g, t, ws.scratch, splits, splitTokens, smallMax + 1);
    LaunchCombine(g, t, ws.scratch, out, splits, splitTokens, smallMax + 1);
    return Done;
  }
}
