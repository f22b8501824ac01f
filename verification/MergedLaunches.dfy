/** The three grids of a long call one after the other, each merged store by store in any order. */
module MergedLaunches {
  import opened PagedCache
  import opened Kernels
  import opened Buffers
  import opened DecodePrograms
  import opened FishDecode
  import opened Interleavings

  ghost predicate LaneAllotted(s: Shape, splits: nat, cells: Cells, k: nat, b: nat, kv: nat, h: nat, d: nat)
    requires k < splits && InGrid(s, b, kv, h, d)
  {
    && PartialM(HeadCell(s, splits, k, b, kv, h)) in cells && PartialL(HeadCell(s, splits, k, b, kv, h)) in cells
    && PartialAcc(AccCell(s, splits, k, b, kv, h, d)) in cells
  }

  /** Memory has the output and the scratch buffers. */
  ghost predicate Allotted(s: Shape, splits: nat, cells: Cells) {
    && (forall b, kv, h, d | InGrid(s, b, kv, h, d) :: Out(Cell(s, b, kv, h, d)) in cells)
    && forall k: nat, b, kv, h, d | k < splits && InGrid(s, b, kv, h, d) ::
         LaneAllotted(s, splits, cells, k, b, kv, h, d)
  }

  lemma {:induction false} ReplayKeepsPlaces(stores: seq<Store>, cells: Cells)
    ensures cells.Keys <= Replay(stores, cells).Keys
  {
    if stores != [] {
      ReplayKeepsPlaces(stores[1..], cells[stores[0].place := stores[0].value]);
    }
  }

  lemma StaysAllotted(s: Shape, splits: nat, stores: seq<Store>, cells: Cells)
    requires Allotted(s, splits, cells)
    ensures Allotted(s, splits, Replay(stores, cells))
  {
    ReplayKeepsPlaces(stores, cells);
    forall k: nat, b, kv, h, d | k < splits && InGrid(s, b, kv, h, d)
      ensures LaneAllotted(s, splits, Replay(stores, cells), k, b, kv, h, d)
    {
      assert LaneAllotted(s, splits, cells, k, b, kv, h, d);
    }
  }

  // ---- the partial grid ----

  ghost predicate PartialSummarises(g: Launch, t: Tensors, splitTokens: nat, p: Partial)
    requires Launchable(g, t)
  {
    && p.b < g.s.batch && p.kv < g.s.numKv && Sized(p.r, |p.r.m|, g.s.headDim) && g.s.group <= |p.r.m|
    && SplitBegin(t, splitTokens, p.k, p.b) <= SplitBegin(t, splitTokens, p.k + 1, p.b)
    && Summarises(g, t, p.b, p.kv, SplitBegin(t, splitTokens, p.k, p.b), SplitBegin(t, splitTokens, p.k + 1, p.b), p.r,
                  |p.r.m|)
  }

  ghost predicate HasPartial(ps: seq<Partial>, k: nat, b: nat, kv: nat) {
    exists i :: 0 <= i < |ps| && ps[i].k == k && ps[i].b == b && ps[i].kv == kv
  }

  /** A partial program of every split of every long row, each with the registers that its kernel computes
      (SplitPartialRow). */
  ghost predicate IsLongGrid(g: Launch, t: Tensors, splits: nat, splitTokens: nat, minSeqLen: nat, ps: seq<Partial>)
    requires Launchable(g, t)
  {
    && IsPartialGrid(g.s, splits, ps)
    && (forall p | p in ps :: PartialSummarises(g, t, splitTokens, p))
    && forall k: nat, b: nat, kv: nat
         | k < splits && b < g.s.batch && kv < g.s.numKv && !TooShort(minSeqLen, g.mem.lens[b]) ::
           HasPartial(ps, k, b, kv)
  }

  /** The split's cells hold the summary of its tokens. */
  ghost predicate SplitInCells(g: Launch, t: Tensors, splits: nat, splitTokens: nat, cells: Cells, k: nat, b: nat,
                               kv: nat, h: nat, d: nat)
    requires Launchable(g, t) && k < splits && InGrid(g.s, b, kv, h, d)
  {
    && LaneAllotted(g.s, splits, cells, k, b, kv, h, d)
    && SplitBegin(t, splitTokens, k, b) <= SplitBegin(t, splitTokens, k + 1, b)
    && LaneSummarises(g, t, b, kv, h, d, SplitBegin(t, splitTokens, k, b), SplitBegin(t, splitTokens, k + 1, b),
                      cells[PartialM(HeadCell(g.s, splits, k, b, kv, h))],
                      cells[PartialL(HeadCell(g.s, splits, k, b, kv, h))],
                      cells[PartialAcc(AccCell(g.s, splits, k, b, kv, h, d))])
  }

  /** Every split of the row is in the cells, as the combine kernel needs it. */
  ghost predicate RowInCells(g: Launch, t: Tensors, splits: nat, splitTokens: nat, cells: Cells, b: nat, kv: nat)
    requires Launchable(g, t)
  {
    forall k: nat, h, d | k < splits && InGrid(g.s, b, kv, h, d) ::
      SplitInCells(g, t, splits, splitTokens, cells, k, b, kv, h, d)
  }

  lemma ProgramInCells(g: Launch, t: Tensors, splits: nat, splitTokens: nat, ps: seq<Partial>, stores: seq<Store>,
                       cells: Cells, i: nat, h: nat, d: nat)
    requires Launchable(g, t) && IsPartialGrid(g.s, splits, ps) && IsMerge(PartialGridStores(g.s, splits, ps), stores)
    requires i < |ps| && PartialOk(g.s, splits, ps[i]) && PartialSummarises(g, t, splitTokens, ps[i])
    requires InGrid(g.s, ps[i].b, ps[i].kv, h, d)
             && LaneAllotted(g.s, splits, cells, ps[i].k, ps[i].b, ps[i].kv, h, d)
    ensures SplitInCells(g, t, splits, splitTokens, Replay(stores, cells), ps[i].k, ps[i].b, ps[i].kv, h, d)
  {
    SplitSurvives(g, t, splits, splitTokens, ps, |ps[i].r.m|, stores, cells, i, h, d);
  }

  /** After any merge of the partial grid every long row is in the cells. */
  lemma LongRowInCells(g: Launch, t: Tensors, splits: nat, splitTokens: nat, minSeqLen: nat, ps: seq<Partial>,
                       stores: seq<Store>, cells: Cells, b: nat, kv: nat)
    requires Launchable(g, t) && IsLongGrid(g, t, splits, splitTokens, minSeqLen, ps) && Allotted(g.s, splits, cells)
    requires IsMerge(PartialGridStores(g.s, splits, ps), stores)
    requires b < g.s.batch && kv < g.s.numKv && !TooShort(minSeqLen, g.mem.lens[b])
    ensures RowInCells(g, t, splits, splitTokens, Replay(stores, cells), b, kv)
  {
    forall k: nat, h, d | k < splits && InGrid(g.s, b, kv, h, d)
      ensures SplitInCells(g, t, splits, splitTokens, Replay(stores, cells), k, b, kv, h, d)
    {
      assert HasPartial(ps, k, b, kv);
      var i :| 0 <= i < |ps| && ps[i].k == k && ps[i].b == b && ps[i].kv == kv;
      assert LaneAllotted(g.s, splits, cells, k, b, kv, h, d);
      ProgramInCells(g, t, splits, splitTokens, ps, stores, cells, i, h, d);
    }
  }

  /** The partial grid leaves the output alone. */
  lemma PartialLeavesOutput(s: Shape, splits: nat, ps: seq<Partial>, stores: seq<Store>, cells: Cells, c: nat)
    requires IsPartialGrid(s, splits, ps) && IsMerge(PartialGridStores(s, splits, ps), stores) && Out(c) in cells
    ensures Out(c) in Replay(stores, cells) && Replay(stores, cells)[Out(c)] == cells[Out(c)]
  {
    var lists := PartialGridStores(s, splits, ps);
    forall x | StoredBy(lists, x) ensures x.place != Out(c) {
      var i :| 0 <= i < |lists| && x in lists[i];
      assert ps[i] in ps;
      PartialStoresAre(s, splits, ps[i], x);
    }
    MergeLeaves(lists, stores, cells, Out(c), cells[Out(c)]);
  }

  // ---- the combine grid ----

  ghost predicate CombinesTo(g: Launch, t: Tensors, splits: nat, splitTokens: nat, minSeqLen: nat, cells: Cells,
                             p: Program)
    requires Launchable(g, t) && p.b < g.s.batch && p.kv < g.s.numKv
  {
    !TooShort(minSeqLen, g.mem.lens[p.b]) && 0 < SplitBegin(t, splitTokens, splits, p.b)
    && RowInCells(g, t, splits, splitTokens, cells, p.b, p.kv) ==>
      IsAttention(g, t, p.b, p.kv, SplitBegin(t, splitTokens, splits, p.b), p.result)
  }

  /** The programs of the combine grid, each with what its kernel computes from the cells it finds: attention over what
      the splits cover, if the row is long and its splits are in the cells (CombineRow). */
  ghost predicate IsCombineGrid(g: Launch, t: Tensors, splits: nat, splitTokens: nat, minSeqLen: nat, cells: Cells,
                                ps: seq<Program>)
    requires Launchable(g, t)
  {
    && (forall p | p in ps :: p.b < g.s.batch && p.kv < g.s.numKv
                              && CombinesTo(g, t, splits, splitTokens, minSeqLen, cells, p))
    && forall b: nat, kv: nat | b < g.s.batch && kv < g.s.numKv :: HasProgram(ps, b, kv)
  }

  // ---- the whole call ----

  /** Which rows a grid writes, and up to where. */
  ghost function Unguarded(g: Launch, guard: nat): nat -> bool {
    (b: nat) => b < |g.mem.lens| && !Guarded(guard, g.mem.lens[b])
  }

  ghost function Long(g: Launch, minSeqLen: nat): nat -> bool {
    (b: nat) => b < |g.mem.lens| && !TooShort(minSeqLen, g.mem.lens[b])
  }

  ghost function Whole(t: Tensors): nat -> nat {
    (b: nat) => if b < |t.lens| then Len(t, b) else 0
  }

  ghost function UpTo(t: Tensors, splitTokens: nat, splits: nat): nat -> nat {
    (b: nat) => if b < |t.lens| then SplitBegin(t, splitTokens, splits, b) else 0
  }

  /** On what the partial grid leaves, the combine programs compute the attention of the long rows. */
  lemma CombineGridIsGrid(g: Launch, t: Tensors, splits: nat, splitTokens: nat, smallMax: nat, maxSeqLen: nat,
                          partials: seq<Partial>, second: seq<Store>, mid: Cells, combines: seq<Program>)
    requires Launchable(g, t) && 0 < splitTokens && smallMax < maxSeqLen && splits == CeilDiv(maxSeqLen, splitTokens)
    requires Allotted(g.s, splits, mid) && IsLongGrid(g, t, splits, splitTokens, smallMax + 1, partials)
    requires IsMerge(PartialGridStores(g.s, splits, partials), second)
    requires IsCombineGrid(g, t, splits, splitTokens, smallMax + 1, Replay(second, mid), combines)
    ensures IsGrid(g, t, Long(g, smallMax + 1), UpTo(t, splitTokens, splits), combines)
  {
    CeilDivCovers(maxSeqLen, splitTokens);
    forall p | p in combines && Long(g, smallMax + 1)(p.b)
      ensures IsAttention(g, t, p.b, p.kv, SplitBegin(t, splitTokens, splits, p.b), p.result)
    {
      LongRowInCells(g, t, splits, splitTokens, smallMax + 1, partials, second, mid, p.b, p.kv);
      assert CombinesTo(g, t, splits, splitTokens, smallMax + 1, Replay(second, mid), p);
    }
  }
  /** What the three grids leave in one output cell. */
  lemma OutputOfThree(g: Launch, t: Tensors, splits: nat, splitTokens: nat, smallMax: nat, small: seq<Program>,
                      partials: seq<Partial>, combines: seq<Program>, first: seq<Store>, second: seq<Store>,
                      third: seq<Store>, cells: Cells, b: nat, kv: nat, h: nat, d: nat)
    requires Launchable(g, t) && InGrid(g.s, b, kv, h, d) && Out(Cell(g.s, b, kv, h, d)) in cells
    requires IsGrid(g, t, Unguarded(g, smallMax), Whole(t), small)
             && IsMerge(GridStores(g, t, Unguarded(g, smallMax), Whole(t), small), first)
    requires IsPartialGrid(g.s, splits, partials) && IsMerge(PartialGridStores(g.s, splits, partials), second)
    requires IsGrid(g, t, Long(g, smallMax + 1), UpTo(t, splitTokens, splits), combines)
             && IsMerge(GridStores(g, t, Long(g, smallMax + 1), UpTo(t, splitTokens, splits), combines), third)
    ensures var after := Replay(third, Replay(second, Replay(first, cells)));
            && Out(Cell(g.s, b, kv, h, d)) in after
            && after[Out(Cell(g.s, b, kv, h, d))] ==
               Output(g, t, b, kv, h, d,
                      if Long(g, smallMax + 1)(b) then SplitBegin(t, splitTokens, splits, b) else Len(t, b))
  {
    var mid := Replay(first, cells);
    OutputGridInterleaves(g, t, Unguarded(g, smallMax), Whole(t), small, first, cells, b, kv, h, d);
    PartialLeavesOutput(g.s, splits, partials, second, mid, Cell(g.s, b, kv, h, d));
    OutputGridInterleaves(g, t, Long(g, smallMax + 1), UpTo(t, splitTokens, splits), combines, third,
                          Replay(second, mid), b, kv, h, d);
  }

  lemma CoveredByThree(g: Launch, t: Tensors, maxSeqLen: nat, smallMax: nat, splitTokens: nat, b: nat)
    requires Launchable(g, t) && 0 < splitTokens && smallMax < maxSeqLen && b < g.s.batch
    ensures Covered(t, b, maxSeqLen, smallMax, splitTokens) ==
            if Long(g, smallMax + 1)(b) then SplitBegin(t, splitTokens, CeilDiv(maxSeqLen, splitTokens), b)
            else Len(t, b)
  {
  }

  /** A long call: the small grid with its guard, the partial grid and the combine grid, one after the other, each with
      its stores merged in any order. Every output cell ends up with the attention of the tokens that the call covers,
      whatever memory held before. */
  lemma LongCallInterleaves(g: Launch, t: Tensors, maxSeqLen: nat, smallMax: nat, splitTokens: nat, small: seq<Program>,
                            partials: seq<Partial>, combines: seq<Program>, first: seq<Store>, second: seq<Store>,
                            third: seq<Store>, cells: Cells, b: nat, kv: nat, h: nat, d: nat)
    requires Launchable(g, t) && 0 < splitTokens && smallMax < maxSeqLen && InGrid(g.s, b, kv, h, d)
    requires var splits := CeilDiv(maxSeqLen, splitTokens);
             && Allotted(g.s, splits, cells)
             && IsGrid(g, t, Unguarded(g, smallMax), Whole(t), small)
             && IsMerge(GridStores(g, t, Unguarded(g, smallMax), Whole(t), small), first)
             && IsLongGrid(g, t, splits, splitTokens, smallMax + 1, partials)
             && IsMerge(PartialGridStores(g.s, splits, partials), second)
             && IsCombineGrid(g, t, splits, splitTokens, smallMax + 1, Replay(second, Replay(first, cells)), combines)
    ensures var splits := CeilDiv(maxSeqLen, splitTokens);
            var live, tokens := Long(g, smallMax + 1), UpTo(t, splitTokens, splits);
            && IsGrid(g, t, live, tokens, combines)
            && (IsMerge(GridStores(g, t, live, tokens, combines), third) ==>
                  var after := Replay(third, Replay(second, Replay(first, cells)));
                  && Out(Cell(g.s, b, kv, h, d)) in after
                  && after[Out(Cell(g.s, b, kv, h, d))] ==
                     Output(g, t, b, kv, h, d, Covered(t, b, maxSeqLen, smallMax, splitTokens)))
  {
    var splits := CeilDiv(maxSeqLen, splitTokens);
    var live, tokens := Long(g, smallMax + 1), UpTo(t, splitTokens, splits);
    StaysAllotted(g.s, splits, first, cells);
    CombineGridIsGrid(g, t, splits, splitTokens, smallMax, maxSeqLen, partials, second, Replay(first, cells), combines);
    if IsMerge(GridStores(g, t, live, tokens, combines), third) {
      CoveredByThree(g, t, maxSeqLen, smallMax, splitTokens, b);
      OutputOfThree(g, t, splits, splitTokens, smallMax, small, partials, combines, first, second, third, cells, b, kv,
                    h, d);
    }
  }
}
