/** The programs of the three kernels, and the grids that run them. */
module DecodePrograms {
  import opened ExtReal
  import opened Softmax
  import opened Layout
  import opened PagedCache
  import opened Kernels
  import opened Buffers

  /** Attention of head (kv, h), dimension d, over the first n tokens of row b. */
  ghost function Output(g: Launch, t: Tensors, b: nat, kv: nat, h: nat, d: nat, n: nat): Ext
    requires Launchable(g, t) && InGrid(g.s, b, kv, h, d) && n <= Len(t, b)
  {
    Fin(Attention(g.e, g.s, t, g.scale, b, kv, h, d, n))
  }

  /** acc / l where l > 0, and 0 elsewhere. */
  function Normalise(l: seq<Ext>, acc: seq<seq<Ext>>): (r: seq<seq<Ext>>)
    requires |l| == |acc|
    ensures |r| == |acc| && forall h | 0 <= h < |acc| :: |r[h]| == |acc[h]|
    ensures forall h, d | 0 <= h < |acc| && 0 <= d < |acc[h]| ::
              r[h][d] == if Positive(l[h]) then Div(acc[h][d], l[h]) else Fin(0.0)
  {
    seq(|acc|, h requires 0 <= h < |acc| =>
      seq(|acc[h]|, d requires 0 <= d < |acc[h]| => if Positive(l[h]) then Div(acc[h][d], l[h]) else Fin(0.0)))
  }

  lemma LaneOutput(g: Launch, t: Tensors, b: nat, kv: nat, h: nat, d: nat, n: nat, m: Ext, l: Ext, a: Ext)
    requires Launchable(g, t) && InGrid(g.s, b, kv, h, d) && n <= Len(t, b)
    requires LaneSummarises(g, t, b, kv, h, d, 0, n, m, l, a)
    ensures (if Positive(l) then Div(a, l) else Fin(0.0)) == Output(g, t, b, kv, h, d, n)
  {
    Finish(g.e, HeadScores(g, t, b, kv, h)[0..n], HeadValues(g, t, b, kv, d)[0..n], m, l, a);
    assert HeadScores(g, t, b, kv, h)[0..n] == HeadScores(g, t, b, kv, h)[..n];
    assert HeadValues(g, t, b, kv, d)[0..n] == HeadValues(g, t, b, kv, d)[..n];
  }

  /** Fresh registers summarise no token. */
  lemma InitSummarises(g: Launch, t: Tensors, b: nat, kv: nat, lo: nat, lanes: nat)
    requires Launchable(g, t) && b < g.s.batch && kv < g.s.numKv && lo <= Len(t, b) && g.s.group <= lanes
    ensures Summarises(g, t, b, kv, lo, lo, InitRegisters(lanes, g.s.headDim), lanes)
  {
  }

  // ---- the one-pass kernel ----

  /** Whether the long kernels skip a row. */
  predicate TooShort(minSeqLen: nat, len: int) {
    minSeqLen != 0 && len < minSeqLen
  }

  /** Whether the small kernel skips row b. */
  predicate Guarded(guard: nat, len: int) {
    guard != 0 && len > guard
  }

  /** What a program stores: attention over the first n tokens, for each of its real heads. */
  ghost predicate IsAttention(g: Launch, t: Tensors, b: nat, kv: nat, n: nat, result: seq<seq<Ext>>)
    requires Launchable(g, t) && b < g.s.batch && kv < g.s.numKv && n <= Len(t, b)
  {
    && g.s.group <= |result| && (forall h | 0 <= h < g.s.group :: |result[h]| == g.s.headDim)
    && forall h, d | 0 <= h < g.s.group && 0 <= d < g.s.headDim :: result[h][d] == Output(g, t, b, kv, h, d, n)
  }

  /** Registers that summarise tokens 0..n normalise to attention over them. */
  lemma NormaliseIsAttention(g: Launch, t: Tensors, b: nat, kv: nat, n: nat, r: Registers, lanes: nat)
    requires Launchable(g, t) && b < g.s.batch && kv < g.s.numKv && n <= Len(t, b) && g.s.group <= lanes
    requires Sized(r, lanes, g.s.headDim) && Summarises(g, t, b, kv, 0, n, r, lanes)
    ensures IsAttention(g, t, b, kv, n, Normalise(r.l, r.acc))
  {
    var result := Normalise(r.l, r.acc);
    forall h, d | 0 <= h < g.s.group && 0 <= d < g.s.headDim
      ensures result[h][d] == Output(g, t, b, kv, h, d, n)
    {
      assert LaneSummarises(g, t, b, kv, h, d, 0, n, r.m[h], r.l[h], r.acc[h][d]);
      LaneOutput(g, t, b, kv, h, d, n, r.m[h], r.l[h], r.acc[h][d]);
    }
  }

  /** The tile loop of the small kernel. */
  method SmallDecodeRow(g: Launch, ghost t: Tensors, b: nat, kv: nat) returns (result: seq<seq<Ext>>)
    requires Launchable(g, t) && b < g.s.batch && kv < g.s.numKv
    ensures IsAttention(g, t, b, kv, Len(t, b), result)
  {
    var lanes := NextPow2(g.s.group);
    var q := QueryLanes(g, t, b, kv, lanes);
    var r := InitRegisters(lanes, g.s.headDim);
    var start: nat := 0;
    ghost var hi: nat := 0;
    InitSummarises(g, t, b, kv, 0, lanes);
    while start < g.mem.lens[b]
      invariant Sized(r, lanes, g.s.headDim)
      invariant hi == Min(start, Len(t, b)) && Summarises(g, t, b, kv, 0, hi, r, lanes)
      decreases g.mem.lens[b] - start
    {
      r, hi := AccumulateTile(g, t, b, kv, lanes, q, 0, start, hi, r);
      start := start + g.blockN;
    }
    result := Normalise(r.l, r.acc);
    NormaliseIsAttention(g, t, b, kv, hi, r, lanes);
  }

  method SmallDecodeProgram(g: Launch, ghost t: Tensors, out: array<Ext>, guard: nat, b: nat, kv: nat)
    requires Launchable(g, t) && b < g.s.batch && kv < g.s.numKv && out.Length == OutSize(g.s)
    modifies out
    ensures forall b', kv', h, d | InGrid(g.s, b', kv', h, d) ::
              out[Cell(g.s, b', kv', h, d)] ==
              if b' == b && kv' == kv && !Guarded(guard, g.mem.lens[b]) then Output(g, t, b, kv, h, d, Len(t, b))
              else old(out[Cell(g.s, b', kv', h, d)])
  {
    if Guarded(guard, g.mem.lens[b]) {
      return;
    }
    var result := SmallDecodeRow(g, t, b, kv);
    StoreHeads(g.s, out, b, kv, result);
  }

  // ---- split-K: the partial kernel ----

  /** Where split k of row b begins: k * splitTokens, or the end of the row. */
  function SplitBegin(t: Tensors, splitTokens: nat, k: nat, b: nat): (n: nat)
    requires b < |t.lens|
    ensures n <= Len(t, b)
  {
    Min(Index(k, splitTokens, 0), Len(t, b))
  }

  lemma {:induction false} SplitOrder(t: Tensors, splitTokens: nat, k: nat, b: nat)
    requires b < |t.lens|
    ensures Index(k + 1, splitTokens, 0) == Index(k, splitTokens, 0) + splitTokens
    ensures SplitBegin(t, splitTokens, k, b) <= SplitBegin(t, splitTokens, k + 1, b)
  {
    if k > 0 {
      SplitOrder(t, splitTokens, k - 1, b);
    }
  }

  /** x is cut into whole tiles of n. */
  ghost predicate WholeTiles(n: nat, x: nat)
    requires 0 < n
  {
    x == 0 || (n <= x && WholeTiles(n, x - n))
  }

  lemma {:induction false} MultipleIsWholeTiles(n: nat, q: nat)
    requires 0 < n
    ensures WholeTiles(n, q * n)
  {
    if q > 0 {
      MultipleIsWholeTiles(n, q - 1);
      assert q * n == (q - 1) * n + n;
    }
  }

  /** Split k's scratch cells hold the summary of its tokens. */
  ghost predicate SplitDone(g: Launch, t: Tensors, splitTokens: nat, splits: nat, w: Scratch, k: nat, b: nat, kv: nat)
    requires Launchable(g, t) && Fits(g.s, splits, w) && k < splits && b < g.s.batch && kv < g.s.numKv
    reads w.m, w.l, w.acc
  {
    SplitOrder(t, splitTokens, k, b);
    forall h, d | InGrid(g.s, b, kv, h, d) ::
      LaneSummarises(g, t, b, kv, h, d, SplitBegin(t, splitTokens, k, b), SplitBegin(t, splitTokens, k + 1, b),
                     w.m[HeadCell(g.s, splits, k, b, kv, h)], w.l[HeadCell(g.s, splits, k, b, kv, h)],
                     w.acc[AccCell(g.s, splits, k, b, kv, h, d)])
  }

  /** The tile loop of the partial kernel: the registers summarise the tokens of the split that the row has. A split
      past the end of the row keeps its fresh registers. */
  method SplitPartialRow(g: Launch, ghost t: Tensors, splitBegin: nat, splitTokens: nat, b: nat, kv: nat, lanes: nat,
                         ghost lo: nat, ghost end: nat)
    returns (r: Registers)
    requires Launchable(g, t) && b < g.s.batch && kv < g.s.numKv && g.s.group <= lanes
    requires WholeTiles(g.blockN, splitTokens)
    requires lo == Min(splitBegin, Len(t, b)) && end == Min(splitBegin + splitTokens, Len(t, b))
    ensures Sized(r, lanes, g.s.headDim) && Summarises(g, t, b, kv, lo, end, r, lanes)
  {
    r := InitRegisters(lanes, g.s.headDim);
    ghost var hi := lo;
    InitSummarises(g, t, b, kv, lo, lanes);
    if splitBegin >= g.mem.lens[b] {
      assert lo == end;
      return;
    }
    var q := QueryLanes(g, t, b, kv, lanes);
    var splitOffset: nat := 0;
    while splitOffset < splitTokens
      invariant splitOffset <= splitTokens && WholeTiles(g.blockN, splitTokens - splitOffset)
      invariant Sized(r, lanes, g.s.headDim)
      invariant hi == Min(splitBegin + splitOffset, Len(t, b)) && Summarises(g, t, b, kv, lo, hi, r, lanes)
      decreases splitTokens - splitOffset
    {
      r, hi := AccumulateTile(g, t, b, kv, lanes, q, lo, splitBegin + splitOffset, hi, r);
      splitOffset := splitOffset + g.blockN;
    }
    assert hi == end;
  }

  method SplitPartialProgram(g: Launch, ghost t: Tensors, w: Scratch, splits: nat, splitTokens: nat, minSeqLen: nat,
                             b: nat, kv: nat, k: nat)
    requires Launchable(g, t) && b < g.s.batch && kv < g.s.numKv && k < splits && Fits(g.s, splits, w)
    requires WholeTiles(g.blockN, splitTokens)
    modifies w.m, w.l, w.acc
    ensures !TooShort(minSeqLen, g.mem.lens[b]) ==> SplitDone(g, t, splitTokens, splits, w, k, b, kv)
    ensures forall k', b', kv' | 0 <= k' < splits && 0 <= b' < g.s.batch && 0 <= kv' < g.s.numKv
          && !(k' == k && b' == b && kv' == kv) ::
              old(SplitDone(g, t, splitTokens, splits, w, k', b', kv')) ==>
                    SplitDone(g, t, splitTokens, splits, w, k', b', kv')
  {
    if TooShort(minSeqLen, g.mem.lens[b]) {
      return;
    }
    SplitOrder(t, splitTokens, k, b);
    ghost var lo, hi := SplitBegin(t, splitTokens, k, b), SplitBegin(t, splitTokens, k + 1, b);
    var r := SplitPartialRow(g, t, Index(k, splitTokens, 0), splitTokens, b, kv, NextPow2(g.s.group), lo, hi);
    StorePartial(g.s, splits, w, k, b, kv, r.m, r.l, r.acc);
    forall h, d | InGrid(g.s, b, kv, h, d)
      ensures LaneSummarises(g, t, b, kv, h, d, SplitBegin(t, splitTokens, k, b), SplitBegin(t, splitTokens, k + 1, b),
                     w.m[HeadCell(g.s, splits, k, b, kv, h)], w.l[HeadCell(g.s, splits, k, b, kv, h)],
                     w.acc[AccCell(g.s, splits, k, b, kv, h, d)])
    {
      assert LaneSummarises(g, t, b, kv, h, d, lo, hi, r.m[h], r.l[h], r.acc[h][d]);
      assert w.m[HeadCell(g.s, splits, k, b, kv, h)] == r.m[h] && w.l[HeadCell(g.s, splits, k, b, kv, h)] == r.l[h];
      assert w.acc[AccCell(g.s, splits, k, b, kv, h, d)] == r.acc[h][d];
    }
  }

  // ---- split-K: the combine kernel ----

  /** The first loop: gm holds the maximum score of tokens 0..n. */
  ghost predicate MaxSoFar(g: Launch, t: Tensors, b: nat, kv: nat, n: nat, gm: seq<Ext>)
    requires Launchable(g, t) && b < g.s.batch && kv < g.s.numKv && n <= Len(t, b)
  {
    g.s.group <= |gm| && forall h | 0 <= h < g.s.group :: gm[h] == MaxOf(HeadScores(g, t, b, kv, h)[..n])
  }

  /** The second loop: the sums of tokens 0..n, shifted by the final maximum. */
  ghost predicate LaneSums(g: Launch, t: Tensors, b: nat, kv: nat, h: nat, d: nat, n: nat, m: Ext, l: Ext, a: Ext)
    requires Launchable(g, t) && b < g.s.batch && kv < g.s.numKv && h < g.s.group && d < g.s.headDim && n <= Len(t, b)
  {
    && m.Fin?
    && l == Fin(WeightAt(g.e, HeadScores(g, t, b, kv, h)[..n], m.r))
    && a == Fin(WeightedSumAt(g.e, HeadScores(g, t, b, kv, h)[..n], HeadValues(g, t, b, kv, d)[..n], m.r))
  }

  lemma MaxStep(g: Launch, t: Tensors, b: nat, kv: nat, h: nat, n: nat, n': nat, m: Ext, l: Ext, a: Ext)
    requires Launchable(g, t) && b < g.s.batch && kv < g.s.numKv && h < g.s.group && n <= n' <= Len(t, b)
    requires LaneSummarises(g, t, b, kv, h, 0, n, n', m, l, a)
    ensures Max(MaxOf(HeadScores(g, t, b, kv, h)[..n]), m) == MaxOf(HeadScores(g, t, b, kv, h)[..n'])
  {
    MaxSlice(HeadScores(g, t, b, kv, h), n, n');
  }

  lemma SumStep(g: Launch, t: Tensors, b: nat, kv: nat, h: nat, d: nat, n: nat, n': nat, gm: Ext, gl: Ext, ga: Ext,
                m: Ext, l: Ext, a: Ext)
    requires Launchable(g, t) && b < g.s.batch && kv < g.s.numKv && h < g.s.group && d < g.s.headDim
             && n <= n' <= Len(t, b)
    requires LaneSummarises(g, t, b, kv, h, d, n, n', m, l, a)
    requires LaneSums(g, t, b, kv, h, d, n, gm, gl, ga)
    ensures LaneSums(g, t, b, kv, h, d, n', gm, Add(gl, Mul(l, Exp(g.e, Sub(m, gm)))),
                     Add(ga, Mul(a, Exp(g.e, Sub(m, gm)))))
  {
    CombineSlice(g.e, HeadScores(g, t, b, kv, h), HeadValues(g, t, b, kv, d), n, n', m, l, a, gm.r);
  }

  /** A masked load of a lane's scratch cell. */
  function LoadHead(s: Shape, splits: nat, data: array<Ext>, k: nat, b: nat, kv: nat, h: nat, other: Ext): Ext
    requires s.numQ == s.numKv * s.group && k < splits && b < s.batch && kv < s.numKv
             && data.Length == splits * s.batch * s.numQ
    reads data
  {
    if h < s.group then data[HeadCell(s, splits, k, b, kv, h)] else other
  }

  function LoadAcc(s: Shape, splits: nat, data: array<Ext>, k: nat, b: nat, kv: nat, h: nat, d: nat): Ext
    requires s.numQ == s.numKv * s.group && k < splits && b < s.batch && kv < s.numKv && d < s.headDim
             && data.Length == splits * s.batch * s.numQ * s.headDim
    reads data
  {
    if h < s.group then data[AccCell(s, splits, k, b, kv, h, d)] else Fin(0.0)
  }

  /** Every split of a row is in scratch. */
  ghost predicate RowDone(g: Launch, t: Tensors, splitTokens: nat, splits: nat, w: Scratch, b: nat, kv: nat)
    requires Launchable(g, t) && Fits(g.s, splits, w) && b < g.s.batch && kv < g.s.numKv
    reads w.m, w.l, w.acc
  {
    forall k | 0 <= k < splits :: SplitDone(g, t, splitTokens, splits, w, k, b, kv)
  }

  lemma SplitLane(g: Launch, t: Tensors, splitTokens: nat, splits: nat, w: Scratch, k: nat, b: nat, kv: nat, h: nat,
                  d: nat)
    requires Launchable(g, t) && Fits(g.s, splits, w) && k < splits && InGrid(g.s, b, kv, h, d)
    requires RowDone(g, t, splitTokens, splits, w, b, kv)
    ensures SplitBegin(t, splitTokens, k, b) <= SplitBegin(t, splitTokens, k + 1, b)
    ensures LaneSummarises(g, t, b, kv, h, d, SplitBegin(t, splitTokens, k, b), SplitBegin(t, splitTokens, k + 1, b),
                           w.m[HeadCell(g.s, splits, k, b, kv, h)], w.l[HeadCell(g.s, splits, k, b, kv, h)],
                           w.acc[AccCell(g.s, splits, k, b, kv, h, d)])
  {
    SplitOrder(t, splitTokens, k, b);
    assert SplitDone(g, t, splitTokens, splits, w, k, b, kv);
  }

  lemma NothingYet(g: Launch, t: Tensors, splitTokens: nat, b: nat, kv: nat, gm: seq<Ext>)
    requires Launchable(g, t) && b < g.s.batch && kv < g.s.numKv && g.s.group <= |gm|
             && forall h | 0 <= h < |gm| :: gm[h] == NegInf
    ensures MaxSoFar(g, t, b, kv, SplitBegin(t, splitTokens, 0, b), gm)
  {
  }

  ghost predicate MaxedWithSplit(s: Shape, w: Scratch, splits: nat, b: nat, kv: nat, k: nat, gm: seq<Ext>,
                                 gm': seq<Ext>)
    requires s.numQ == s.numKv * s.group && b < s.batch && kv < s.numKv && k < splits && Fits(s, splits, w)
    reads w.m
  {
    s.group <= |gm| == |gm'|
        && forall h | 0 <= h < s.group :: gm'[h] == Max(gm[h], w.m[HeadCell(s, splits, k, b, kv, h)])
  }

  /** A round of the first loop: lane by lane the maximum with the split's. */
  function MaxWithSplit(s: Shape, w: Scratch, splits: nat, b: nat, kv: nat, k: nat, gm: seq<Ext>): (gm': seq<Ext>)
    requires s.numQ == s.numKv * s.group && b < s.batch && kv < s.numKv && k < splits && Fits(s, splits, w)
             && s.group <= |gm|
    reads w.m
    ensures |gm'| == |gm| && MaxedWithSplit(s, w, splits, b, kv, k, gm, gm')
  {
    seq(|gm|, h requires 0 <= h < |gm| reads w.m => Max(gm[h], LoadHead(s, splits, w.m, k, b, kv, h, NegInf)))
  }

  lemma MaxOneMore(g: Launch, t: Tensors, w: Scratch, splits: nat, splitTokens: nat, b: nat, kv: nat, k: nat,
                   gm: seq<Ext>, gm': seq<Ext>)
    requires Launchable(g, t) && b < g.s.batch && kv < g.s.numKv && Fits(g.s, splits, w) && k < splits
    requires RowDone(g, t, splitTokens, splits, w, b, kv)
    requires g.s.group <= |gm| == |gm'| && MaxSoFar(g, t, b, kv, SplitBegin(t, splitTokens, k, b), gm)
    requires MaxedWithSplit(g.s, w, splits, b, kv, k, gm, gm')
    ensures MaxSoFar(g, t, b, kv, SplitBegin(t, splitTokens, k + 1, b), gm')
  {
    var n, n' := SplitBegin(t, splitTokens, k, b), SplitBegin(t, splitTokens, k + 1, b);
    SplitOrder(t, splitTokens, k, b);
    forall h | 0 <= h < g.s.group ensures gm'[h] == MaxOf(HeadScores(g, t, b, kv, h)[..n']) {
      SplitLane(g, t, splitTokens, splits, w, k, b, kv, h, 0);
      var c := HeadCell(g.s, splits, k, b, kv, h);
      MaxStep(g, t, b, kv, h, n, n', w.m[c], w.l[c], w.acc[AccCell(g.s, splits, k, b, kv, h, 0)]);
    }
  }

  ghost predicate CanCombine(g: Launch, t: Tensors, w: Scratch, splits: nat, splitTokens: nat, b: nat, kv: nat)
    reads w.m, w.l, w.acc
  {
    && Launchable(g, t) && b < g.s.batch && kv < g.s.numKv && Fits(g.s, splits, w)
    && RowDone(g, t, splitTokens, splits, w, b, kv)
  }

  /** Every real lane holds the greatest score of the tokens before split k. */
  ghost predicate MaxBefore(g: Launch, t: Tensors, splitTokens: nat, k: nat, b: nat, kv: nat, gm: seq<Ext>)
    requires Launchable(g, t) && b < g.s.batch && kv < g.s.numKv
  {
    MaxSoFar(g, t, b, kv, SplitBegin(t, splitTokens, k, b), gm)
  }

  /** One round of the first loop. */
  method MaxRound(g: Launch, ghost t: Tensors, w: Scratch, splits: nat, ghost splitTokens: nat, b: nat, kv: nat,
                  k: nat, gm: seq<Ext>) returns (gm': seq<Ext>)
    requires CanCombine(g, t, w, splits, splitTokens, b, kv) && k < splits && MaxBefore(g, t, splitTokens, k, b, kv, gm)
    ensures |gm'| == |gm| && MaxBefore(g, t, splitTokens, k + 1, b, kv, gm')
  {
    gm' := MaxWithSplit(g.s, w, splits, b, kv, k, gm);
    MaxOneMore(g, t, w, splits, splitTokens, b, kv, k, gm, gm');
  }

  /** global_m: after k rounds, every real lane holds the greatest score of the tokens before split k. */
  method CombineMax(g: Launch, ghost t: Tensors, w: Scratch, splits: nat, ghost splitTokens: nat, b: nat, kv: nat,
                    lanes: nat) returns (gm: seq<Ext>)
    requires Launchable(g, t) && b < g.s.batch && kv < g.s.numKv && Fits(g.s, splits, w) && g.s.group <= lanes
    requires RowDone(g, t, splitTokens, splits, w, b, kv)
    ensures |gm| == lanes && MaxSoFar(g, t, b, kv, SplitBegin(t, splitTokens, splits, b), gm)
  {
    gm := seq(lanes, _ => NegInf);
    NothingYet(g, t, splitTokens, b, kv, gm);
    for k := 0 to splits
      invariant CanCombine(g, t, w, splits, splitTokens, b, kv)
      invariant |gm| == lanes && MaxBefore(g, t, splitTokens, k, b, kv, gm)
    {
      gm := MaxRound(g, t, w, splits, splitTokens, b, kv, k, gm);
    }
  }

  ghost predicate SumsSoFar(g: Launch, t: Tensors, b: nat, kv: nat, n: nat, gm: seq<Ext>, gl: seq<Ext>,
                            ga: seq<seq<Ext>>)
    requires Launchable(g, t) && b < g.s.batch && kv < g.s.numKv && n <= Len(t, b)
    requires g.s.group <= |gm| == |gl| == |ga| && forall h | 0 <= h < |ga| :: |ga[h]| == g.s.headDim
  {
    forall h, d | 0 <= h < g.s.group && 0 <= d < g.s.headDim :: LaneSums(g, t, b, kv, h, d, n, gm[h], gl[h], ga[h][d])
  }

  /** A split's scratch cells read back: the registers its program stored. Padding lanes load the masked defaults. */
  method LoadSplit(g: Launch, ghost t: Tensors, w: Scratch, splits: nat, ghost splitTokens: nat, b: nat, kv: nat,
                   lanes: nat, k: nat)
    returns (r: Registers, ghost n: nat, ghost n': nat)
    requires Launchable(g, t) && b < g.s.batch && kv < g.s.numKv && Fits(g.s, splits, w) && g.s.group <= lanes
             && k < splits
    requires RowDone(g, t, splitTokens, splits, w, b, kv)
    ensures n == SplitBegin(t, splitTokens, k, b) && n' == SplitBegin(t, splitTokens, k + 1, b) && n <= n'
    ensures Sized(r, lanes, g.s.headDim) && Summarises(g, t, b, kv, n, n', r, lanes)
  {
    var D := g.s.headDim;
    r := Registers(seq(lanes, h requires 0 <= h < lanes reads w.m => LoadHead(g.s, splits, w.m, k, b, kv, h, NegInf)),
                   seq(lanes, h requires 0 <= h < lanes reads w.l => LoadHead(g.s, splits, w.l, k, b, kv, h, Fin(0.0))),
                   seq(lanes, h requires 0 <= h < lanes reads w.acc =>
                       seq(D, d requires 0 <= d < D reads w.acc => LoadAcc(g.s, splits, w.acc, k, b, kv, h, d))));
    n, n' := SplitBegin(t, splitTokens, k, b), SplitBegin(t, splitTokens, k + 1, b);
    SplitOrder(t, splitTokens, k, b);
    forall h, d | 0 <= h < g.s.group && 0 <= d < D
      ensures LaneSummarises(g, t, b, kv, h, d, n, n', r.m[h], r.l[h], r.acc[h][d]) {
      SplitLane(g, t, splitTokens, splits, w, k, b, kv, h, d);
    }
  }

  /** One round of the second loop. */
  method CombineSplit(g: Launch, ghost t: Tensors, b: nat, kv: nat, lanes: nat, r: Registers, ghost n: nat,
                      ghost n': nat, gm: seq<Ext>, gl: seq<Ext>, ga: seq<seq<Ext>>)
    returns (gl': seq<Ext>, ga': seq<seq<Ext>>)
    requires Launchable(g, t) && b < g.s.batch && kv < g.s.numKv && g.s.group <= lanes && n <= n' <= Len(t, b)
    requires Sized(r, lanes, g.s.headDim) && Summarises(g, t, b, kv, n, n', r, lanes)
    requires |gm| == |gl| == |ga| == lanes && (forall h | 0 <= h < lanes :: |ga[h]| == g.s.headDim)
    requires SumsSoFar(g, t, b, kv, n, gm, gl, ga)
    ensures |gl'| == |ga'| == lanes && (forall h | 0 <= h < lanes :: |ga'[h]| == g.s.headDim)
    ensures SumsSoFar(g, t, b, kv, n', gm, gl', ga')
  {
    var D := g.s.headDim;
    var weight := seq(lanes, h requires 0 <= h < lanes => Exp(g.e, Sub(r.m[h], gm[h])));
    gl' := seq(lanes, h requires 0 <= h < lanes => Add(gl[h], Mul(r.l[h], weight[h])));
    ga' := seq(lanes, h requires 0 <= h < lanes =>
               seq(D, d requires 0 <= d < D => Add(ga[h][d], Mul(r.acc[h][d], weight[h]))));
    forall h, d | 0 <= h < g.s.group && 0 <= d < D ensures LaneSums(g, t, b, kv, h, d, n', gm[h], gl'[h], ga'[h][d]) {
      assert LaneSummarises(g, t, b, kv, h, d, n, n', r.m[h], r.l[h], r.acc[h][d]);
      assert LaneSums(g, t, b, kv, h, d, n, gm[h], gl[h], ga[h][d]);
      SumStep(g, t, b, kv, h, d, n, n', gm[h], gl[h], ga[h][d], r.m[h], r.l[h], r.acc[h][d]);
    }
  }

  lemma InitSums(g: Launch, t: Tensors, b: nat, kv: nat, gm: seq<Ext>, gl: seq<Ext>, ga: seq<seq<Ext>>)
    requires Launchable(g, t) && b < g.s.batch && kv < g.s.numKv
    requires g.s.group <= |gm| == |gl| == |ga| && forall h | 0 <= h < |ga| :: |ga[h]| == g.s.headDim
    requires forall h | 0 <= h < g.s.group ::
               gm[h].Fin? && gl[h] == Fin(0.0) && forall d | 0 <= d < g.s.headDim :: ga[h][d] == Fin(0.0)
    ensures SumsSoFar(g, t, b, kv, 0, gm, gl, ga)
  {
  }

  /** The second loop: global_l and acc. */
  method CombineSums(g: Launch, ghost t: Tensors, w: Scratch, splits: nat, ghost splitTokens: nat, b: nat, kv: nat,
                     lanes: nat, gm: seq<Ext>)
    returns (gl: seq<Ext>, ga: seq<seq<Ext>>, ghost n: nat)
    requires Launchable(g, t) && b < g.s.batch && kv < g.s.numKv && Fits(g.s, splits, w) && g.s.group <= lanes
    requires RowDone(g, t, splitTokens, splits, w, b, kv)
    requires |gm| == lanes && forall h | 0 <= h < g.s.group :: gm[h].Fin?
    ensures n == SplitBegin(t, splitTokens, splits, b)
    ensures |gl| == |ga| == lanes && (forall h | 0 <= h < lanes :: |ga[h]| == g.s.headDim)
    ensures SumsSoFar(g, t, b, kv, n, gm, gl, ga)
  {
    gl := seq(lanes, _ => Fin(0.0));
    ga := seq(lanes, _ => seq(g.s.headDim, _ => Fin(0.0)));
    InitSums(g, t, b, kv, gm, gl, ga);
    n := 0;
    for k := 0 to splits
      invariant n == SplitBegin(t, splitTokens, k, b)
      invariant |gl| == |ga| == lanes && (forall h | 0 <= h < lanes :: |ga[h]| == g.s.headDim)
      invariant SumsSoFar(g, t, b, kv, n, gm, gl, ga)
    {
      var r; ghost var n0, n1;
      r, n0, n1 := LoadSplit(g, t, w, splits, splitTokens, b, kv, lanes, k);
      assert n == n0;
      gl, ga := CombineSplit(g, t, b, kv, lanes, r, n0, n1, gm, gl, ga);
      n := n1;
    }
  }

  lemma LaneSumsOutput(g: Launch, t: Tensors, b: nat, kv: nat, h: nat, d: nat, n: nat, m: Ext, l: Ext, a: Ext)
    requires Launchable(g, t) && InGrid(g.s, b, kv, h, d) && n <= Len(t, b)
    requires LaneSums(g, t, b, kv, h, d, n, m, l, a) && m == MaxOf(HeadScores(g, t, b, kv, h)[..n])
    ensures (if Positive(l) then Div(a, l) else Fin(0.0)) == Output(g, t, b, kv, h, d, n)
  {
    MaxOfSort(HeadScores(g, t, b, kv, h)[..n]);
    Finish(g.e, HeadScores(g, t, b, kv, h)[..n], HeadValues(g, t, b, kv, d)[..n], m, l, a);
  }

  lemma SumsAreAttention(g: Launch, t: Tensors, b: nat, kv: nat, n: nat, gm: seq<Ext>, gl: seq<Ext>, ga: seq<seq<Ext>>)
    requires Launchable(g, t) && b < g.s.batch && kv < g.s.numKv && n <= Len(t, b)
    requires g.s.group <= |gm| == |gl| == |ga| && forall h | 0 <= h < |ga| :: |ga[h]| == g.s.headDim
    requires SumsSoFar(g, t, b, kv, n, gm, gl, ga) && MaxSoFar(g, t, b, kv, n, gm)
    ensures IsAttention(g, t, b, kv, n, Normalise(gl, ga))
  {
    forall h, d | 0 <= h < g.s.group && 0 <= d < g.s.headDim
      ensures Normalise(gl, ga)[h][d] == Output(g, t, b, kv, h, d, n) {
      assert LaneSums(g, t, b, kv, h, d, n, gm[h], gl[h], ga[h][d]);
      LaneSumsOutput(g, t, b, kv, h, d, n, gm[h], gl[h], ga[h][d]);
    }
  }

  /** The body of the combine kernel: attention over the tokens the splits cover. */
  method CombineRow(g: Launch, ghost t: Tensors, w: Scratch, splits: nat, ghost splitTokens: nat, b: nat,
                    kv: nat) returns (result: seq<seq<Ext>>)
    requires Launchable(g, t) && b < g.s.batch && kv < g.s.numKv && Fits(g.s, splits, w)
    requires RowDone(g, t, splitTokens, splits, w, b, kv)
    requires 0 < SplitBegin(t, splitTokens, splits, b)
    ensures IsAttention(g, t, b, kv, SplitBegin(t, splitTokens, splits, b), result)
  {
    var lanes := NextPow2(g.s.group);
    var gm := CombineMax(g, t, w, splits, splitTokens, b, kv, lanes);
    forall h | 0 <= h < g.s.group ensures gm[h].Fin? {
      MaxOfSort(HeadScores(g, t, b, kv, h)[..SplitBegin(t, splitTokens, splits, b)]);
    }
    var gl, ga; ghost var n;
    gl, ga, n := CombineSums(g, t, w, splits, splitTokens, b, kv, lanes, gm);
    result := Normalise(gl, ga);
    SumsAreAttention(g, t, b, kv, n, gm, gl, ga);
  }

  method SplitCombineProgram(g: Launch, ghost t: Tensors, w: Scratch, out: array<Ext>, splits: nat,
                             ghost splitTokens: nat, minSeqLen: nat, b: nat, kv: nat)
    requires Launchable(g, t) && b < g.s.batch && kv < g.s.numKv && Fits(g.s, splits, w) && out.Length == OutSize(g.s)
    requires !TooShort(minSeqLen, g.mem.lens[b]) ==>
             RowDone(g, t, splitTokens, splits, w, b, kv) && 0 < SplitBegin(t, splitTokens, splits, b)
    modifies out
    ensures forall b', kv', h, d | InGrid(g.s, b', kv', h, d) ::
              out[Cell(g.s, b', kv', h, d)] ==
              if b' == b && kv' == kv && !TooShort(minSeqLen, g.mem.lens[b])
              then Output(g, t, b, kv, h, d, SplitBegin(t, splitTokens, splits, b))
              else old(out[Cell(g.s, b', kv', h, d)])
  {
    if TooShort(minSeqLen, g.mem.lens[b]) {
      return;
    }
    var result := CombineRow(g, t, w, splits, splitTokens, b, kv);
    StoreHeads(g.s, out, b, kv, result);
  }
}
