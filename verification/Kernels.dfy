/** The three decode kernels, program by program. A program's registers are values; what it stores goes
    into shared buffers. Lanes h >= group pad the head axis to a power of two. */
module Kernels {
  import opened ExtReal
  import opened Softmax
  import opened Layout
  import opened PagedCache

  /** What every program of a launch is given. */
  datatype Launch = Launch(e: real -> real, s: Shape, mem: Memory, scale: real, blockN: nat)

  ghost predicate Launchable(g: Launch, t: Tensors) {
    IsExp(g.e) && Ready(g.s, t, g.mem) && 0 < g.blockN && 0 < g.s.headDim
  }

  /** The online-softmax registers: running maximum, running denominator, running numerator. */
  datatype Registers = Registers(m: seq<Ext>, l: seq<Ext>, acc: seq<seq<Ext>>)

  predicate Sized(r: Registers, lanes: nat, headDim: nat) {
    |r.m| == lanes && |r.l| == lanes && |r.acc| == lanes && forall h | 0 <= h < lanes :: |r.acc[h]| == headDim
  }

  function InitRegisters(lanes: nat, headDim: nat): (r: Registers)
    ensures Sized(r, lanes, headDim)
    ensures forall h, d | 0 <= h < lanes && 0 <= d < headDim ::
              r.m[h] == NegInf && r.l[h] == Fin(0.0) && r.acc[h][d] == Fin(0.0)
  {
    Registers(seq(lanes, _ => NegInf), seq(lanes, _ => Fin(0.0)), seq(lanes, _ => seq(headDim, _ => Fin(0.0))))
  }

  /** Smallest power of two that is at least n. */
  function NextPow2(n: nat, p: nat := 1): (r: nat)
    requires 0 < p
    ensures n <= r
    decreases n - p
  {
    if n <= p then p else NextPow2(n, 2 * p)
  }

  function Pow2(k: nat): (r: nat)
    ensures 0 < r
  {
    if k == 0 then 1 else 2 * Pow2(k - 1)
  }

  /** It is a power of two, and no smaller one is at least n. */
  lemma {:induction false} NextPow2Is(n: nat, j: nat) returns (k: nat)
    requires j == 0 || Pow2(j - 1) < n
    ensures NextPow2(n, Pow2(j)) == Pow2(k) && n <= Pow2(k) && (k == 0 || Pow2(k - 1) < n)
    decreases n - Pow2(j)
  {
    k := j;
    if Pow2(j) < n {
      assert Pow2(j + 1) == 2 * Pow2(j);
      k := NextPow2Is(n, j + 1);
    }
  }

  ghost function HeadScores(g: Launch, t: Tensors, b: nat, kv: nat, h: nat): (r: seq<real>)
    requires Launchable(g, t) && b < g.s.batch && kv < g.s.numKv && h < g.s.group
    ensures |r| == Len(t, b)
  {
    IndexBound(kv, g.s.numKv, g.s.group, h);
    Scores(g.s, t, g.scale, b, kv, Index(kv, g.s.group, h))
  }

  ghost function HeadValues(g: Launch, t: Tensors, b: nat, kv: nat, d: nat): (r: seq<real>)
    requires Launchable(g, t) && b < g.s.batch && kv < g.s.numKv && d < g.s.headDim
    ensures |r| == Len(t, b)
  {
    TokenColumn(g.s, t, t.values, b, kv, d)
  }

  ghost predicate LaneSummarises(g: Launch, t: Tensors, b: nat, kv: nat, h: nat, d: nat, lo: nat, hi: nat, m: Ext,
                                 l: Ext, a: Ext)
    requires Launchable(g, t) && b < g.s.batch && kv < g.s.numKv && h < g.s.group && d < g.s.headDim
             && lo <= hi <= Len(t, b)
  {
    Summary(g.e, HeadScores(g, t, b, kv, h)[lo..hi], HeadValues(g, t, b, kv, d)[lo..hi], m, l, a)
  }

  /** The real lanes summarise tokens lo..hi of row b. Nothing is said of a padding lane. */
  ghost predicate Summarises(g: Launch, t: Tensors, b: nat, kv: nat, lo: nat, hi: nat, r: Registers, lanes: nat)
    requires Launchable(g, t) && b < g.s.batch && kv < g.s.numKv && lo <= hi <= Len(t, b)
    requires Sized(r, lanes, g.s.headDim) && g.s.group <= lanes
  {
    forall h, d | 0 <= h < g.s.group && 0 <= d < g.s.headDim ::
      LaneSummarises(g, t, b, kv, h, d, lo, hi, r.m[h], r.l[h], r.acc[h][d])
  }

  function Min(a: nat, b: nat): nat {
    if a <= b then a else b
  }

  // ---- one tile ----

  function QueryLane(g: Launch, ghost t: Tensors, b: nat, kv: nat, h: nat): (q: seq<real>)
    requires Launchable(g, t) && b < g.s.batch && kv < g.s.numKv
    ensures |q| == g.s.headDim
    ensures g.s.group <= h ==> forall d | 0 <= d < g.s.headDim :: q[d] == 0.0
  {
    seq(g.s.headDim, d requires 0 <= d < g.s.headDim =>
      if h < g.s.group then
        IndexBound(kv, g.s.numKv, g.s.group, h);
        IndexValue(kv, g.s.group, h);
        LoadQ(g.s, t, g.mem, b, kv * g.s.group + h, d)
      else 0.0)
  }

  lemma QueryRow(g: Launch, t: Tensors, b: nat, kv: nat)
    requires Launchable(g, t) && b < g.s.batch && kv < g.s.numKv
    ensures forall h | 0 <= h < g.s.group ::
              Index(kv, g.s.group, h) < g.s.numQ && QueryLane(g, t, b, kv, h) == t.query[b][Index(kv, g.s.group, h)]
  {
    forall h | 0 <= h < g.s.group
      ensures Index(kv, g.s.group, h) < g.s.numQ && QueryLane(g, t, b, kv, h) == t.query[b][Index(kv, g.s.group, h)]
    {
      IndexBound(kv, g.s.numKv, g.s.group, h);
      IndexValue(kv, g.s.group, h);
      assert Uniform(t.query[b], g.s.headDim);
    }
  }

  /** The masked load of the program's query rows: a real lane holds its head's row, a padding lane zeros. */
  function QueryLanes(g: Launch, ghost t: Tensors, b: nat, kv: nat, lanes: nat): (q: seq<seq<real>>)
    requires Launchable(g, t) && b < g.s.batch && kv < g.s.numKv
    ensures |q| == lanes && forall h | 0 <= h < lanes :: |q[h]| == g.s.headDim
    ensures forall h | 0 <= h < g.s.group && h < lanes ::
              Index(kv, g.s.group, h) < g.s.numQ && q[h] == t.query[b][Index(kv, g.s.group, h)]
    ensures forall h, d | g.s.group <= h < lanes && 0 <= d < g.s.headDim :: q[h][d] == 0.0
  {
    QueryRow(g, t, b, kv);
    seq(lanes, h requires 0 <= h < lanes => QueryLane(g, t, b, kv, h))
  }

  /** A tile of keys or values: row i holds token start + i, or zeros past the end of the row. */
  ghost predicate Loaded(g: Launch, t: Tensors, cache: seq<seq<seq<seq<real>>>>, b: nat, kv: nat, start: nat,
                         tile: seq<seq<real>>)
    requires Launchable(g, t) && b < g.s.batch && kv < g.s.numKv && (cache == t.keys || cache == t.values)
  {
    && |tile| == g.blockN && Uniform(tile, g.s.headDim)
    && (forall i | 0 <= i < g.blockN && start + i < Len(t, b) :: tile[i] == Token(g.s, t, cache, b, start + i)[kv])
    && (forall i, d | 0 <= i < g.blockN && 0 <= d < g.s.headDim && Len(t, b) <= start + i :: tile[i][d] == 0.0)
  }

  function LoadRow(g: Launch, ghost t: Tensors, ghost cache: seq<seq<seq<seq<real>>>>, data: seq<real>, b: nat, kv: nat,
                   i: nat): (r: seq<real>)
    requires Launchable(g, t) && b < g.s.batch && kv < g.s.numKv
    requires cache == t.keys || cache == t.values
    requires data == Flat(Flat(Flat(cache)))
    ensures |r| == g.s.headDim
    ensures i < Len(t, b) ==> r == Token(g.s, t, cache, b, i)[kv]
    ensures Len(t, b) <= i ==> forall d | 0 <= d < |r| :: r[d] == 0.0
  {
    seq(g.s.headDim, d requires 0 <= d < g.s.headDim => LoadKv(g.s, t, g.mem, cache, data, b, kv, i, d))
  }

  /** The masked load of a tile. */
  method LoadTile(g: Launch, ghost t: Tensors, ghost cache: seq<seq<seq<seq<real>>>>, data: seq<real>, b: nat, kv: nat,
                  start: nat)
    returns (tile: seq<seq<real>>)
    requires Launchable(g, t) && b < g.s.batch && kv < g.s.numKv
    requires cache == t.keys || cache == t.values
    requires data == Flat(Flat(Flat(cache)))
    ensures Loaded(g, t, cache, b, kv, start, tile)
  {
    tile := seq(g.blockN, i requires 0 <= i < g.blockN => LoadRow(g, t, cache, data, b, kv, start + i));
    forall i | 0 <= i < g.blockN
      ensures |tile[i]| == g.s.headDim
      ensures start + i < Len(t, b) ==> tile[i] == Token(g.s, t, cache, b, start + i)[kv]
      ensures Len(t, b) <= start + i ==> forall d | 0 <= d < g.s.headDim :: tile[i][d] == 0.0
    {
      assert tile[i] == LoadRow(g, t, cache, data, b, kv, start + i);
    }
  }

  /** The scores of one lane against a tile of keys; dead positions and padding lanes score -inf. */
  function ScoreTile(g: Launch, b: nat, start: nat, h: nat, q: seq<real>, k: seq<seq<real>>): (qk: seq<Ext>)
    requires b < |g.mem.lens| && Uniform(k, |q|)
    ensures |qk| == |k|
  {
    seq(|k|, i requires 0 <= i < |k| =>
      if h < g.s.group && start + i < g.mem.lens[b] then Fin(Score(q, k[i], g.scale)) else NegInf)
  }

  function Column(v: seq<seq<real>>, d: nat): (r: seq<real>)
    requires forall i | 0 <= i < |v| :: d < |v[i]|
    ensures |r| == |v|
  {
    seq(|v|, i requires 0 <= i < |v| => v[i][d])
  }

  /** The live part of a tile is the next slice of the row. */
  lemma ScoreTileIsSlice(g: Launch, t: Tensors, b: nat, kv: nat, start: nat, h: nat, q: seq<real>, k: seq<seq<real>>)
    requires Launchable(g, t) && b < g.s.batch && kv < g.s.numKv && h < g.s.group
             && Loaded(g, t, t.keys, b, kv, start, k)
    requires Index(kv, g.s.group, h) < g.s.numQ && q == t.query[b][Index(kv, g.s.group, h)] && |q| == g.s.headDim
    ensures Masked(ScoreTile(g, b, start, h, q, k),
                   HeadScores(g, t, b, kv, h)[Min(start, Len(t, b))..Min(start + g.blockN, Len(t, b))])
  {
    var lo, hi := Min(start, Len(t, b)), Min(start + g.blockN, Len(t, b));
    var qk, s := ScoreTile(g, b, start, h, q, k), HeadScores(g, t, b, kv, h);
    forall i | 0 <= i < |qk| ensures qk[i] == if i < hi - lo then Fin(s[lo..hi][i]) else NegInf {
      if i < hi - lo {
        assert k[i] == Token(g.s, t, t.keys, b, start + i)[kv];
        assert s[lo..hi][i] == s[start + i];
      }
    }
  }

  lemma ValueTileIsSlice(g: Launch, t: Tensors, b: nat, kv: nat, start: nat, d: nat, v: seq<seq<real>>)
    requires Launchable(g, t) && b < g.s.batch && kv < g.s.numKv && d < g.s.headDim
             && Loaded(g, t, t.values, b, kv, start, v)
    ensures MaskedValues(Column(v, d),
                         HeadValues(g, t, b, kv, d)[Min(start, Len(t, b))..Min(start + g.blockN, Len(t, b))])
  {
    var lo, hi := Min(start, Len(t, b)), Min(start + g.blockN, Len(t, b));
    var s := HeadValues(g, t, b, kv, d);
    forall i | 0 <= i < hi - lo ensures s[lo..hi][i] == v[i][d] {
      assert s[lo..hi][i] == s[start + i];
    }
  }

  /** One lane of a tile step: the registers move on from lo..start to lo..start + blockN. */
  lemma LaneStep(g: Launch, t: Tensors, b: nat, kv: nat, h: nat, d: nat, q: seq<real>, k: seq<seq<real>>,
                 v: seq<seq<real>>, lo: nat, start: nat, p: seq<Ext>, m: Ext, l: Ext, a: Ext)
    requires Launchable(g, t) && b < g.s.batch && kv < g.s.numKv && h < g.s.group && d < g.s.headDim
    requires Loaded(g, t, t.keys, b, kv, start, k) && Loaded(g, t, t.values, b, kv, start, v)
    requires Index(kv, g.s.group, h) < g.s.numQ && q == t.query[b][Index(kv, g.s.group, h)] && |q| == g.s.headDim
    requires lo < Len(t, b) && lo <= start
    requires LaneSummarises(g, t, b, kv, h, d, lo, Min(start, Len(t, b)), m, l, a)
    requires Weights(g.e, ScoreTile(g, b, start, h, q, k), Max(m, RowMax(ScoreTile(g, b, start, h, q, k))), p)
    ensures var n := Max(m, RowMax(ScoreTile(g, b, start, h, q, k)));
            var alpha := Exp(g.e, Sub(m, n));
            LaneSummarises(g, t, b, kv, h, d, lo, Min(start + g.blockN, Len(t, b)), n,
                           Add(Mul(l, alpha), RowSum(p)), Add(Mul(a, alpha), RowDot(p, Column(v, d))))
  {
    ScoreTileIsSlice(g, t, b, kv, start, h, q, k);
    ValueTileIsSlice(g, t, b, kv, start, d, v);
    TileSlice(g.e, HeadScores(g, t, b, kv, h), HeadValues(g, t, b, kv, d), lo, Min(start, Len(t, b)),
              Min(start + g.blockN, Len(t, b)),
              ScoreTile(g, b, start, h, q, k), p, Column(v, d), m, l, a);
  }

  /** The body shared by the small and the partial kernel: folds the tile at start into the registers. */
  method AccumulateTile(g: Launch, ghost t: Tensors, b: nat, kv: nat, lanes: nat, q: seq<seq<real>>, ghost lo: nat,
                        start: nat, ghost hi: nat, r: Registers)
    returns (r': Registers, ghost hi': nat)
    requires Launchable(g, t) && b < g.s.batch && kv < g.s.numKv && g.s.group <= lanes
    requires |q| == lanes && forall h | 0 <= h < lanes :: |q[h]| == g.s.headDim
    requires forall h | 0 <= h < g.s.group ::
               Index(kv, g.s.group, h) < g.s.numQ && q[h] == t.query[b][Index(kv, g.s.group, h)]
    requires lo < Len(t, b) && lo <= start && hi == Min(start, Len(t, b))
    requires Sized(r, lanes, g.s.headDim) && Summarises(g, t, b, kv, lo, hi, r, lanes)
    ensures hi' == Min(start + g.blockN, Len(t, b))
    ensures Sized(r', lanes, g.s.headDim) && Summarises(g, t, b, kv, lo, hi', r', lanes)
  {
    hi' := Min(start + g.blockN, Len(t, b));
    var D := g.s.headDim;
    var k := LoadTile(g, t, t.keys, g.mem.k, b, kv, start);
    var qk := seq(lanes, h requires 0 <= h < lanes => ScoreTile(g, b, start, h, q[h], k));
    var v := LoadTile(g, t, t.values, g.mem.v, b, kv, start);
    var mNew := seq(lanes, h requires 0 <= h < lanes => Max(r.m[h], RowMax(qk[h])));
    var p := seq(lanes, h requires 0 <= h < lanes =>
                 seq(g.blockN, i requires 0 <= i < g.blockN => Exp(g.e, Sub(qk[h][i], mNew[h]))));
    var alpha := seq(lanes, h requires 0 <= h < lanes => Exp(g.e, Sub(r.m[h], mNew[h])));
    var acc := seq(lanes, h requires 0 <= h < lanes =>
      seq(D, d requires 0 <= d < D => Add(Mul(r.acc[h][d], alpha[h]), RowDot(p[h], Column(v, d)))));
    var l := seq(lanes, h requires 0 <= h < lanes => Add(Mul(r.l[h], alpha[h]), RowSum(p[h])));
    r' := Registers(mNew, l, acc);
    forall h, d | 0 <= h < g.s.group && 0 <= d < D
      ensures LaneSummarises(g, t, b, kv, h, d, lo, hi', mNew[h], l[h], acc[h][d])
    {
      assert LaneSummarises(g, t, b, kv, h, d, lo, hi, r.m[h], r.l[h], r.acc[h][d]);
      LaneStep(g, t, b, kv, h, d, q[h], k, v, lo, start, p[h], r.m[h], r.l[h], r.acc[h][d]);
    }
  }
}
