/** The attention that the kernels are proved to compute, written out in plain sums over real numbers: a block table is
    looked up by quotient and remainder of the token number, a score is a scaled inner product, and the output is the
    softmax-weighted average of the values. */
module AttentionFormula {
  import opened ExtReal
  import opened Softmax
  import opened Layout
  import opened PagedCache
  import opened Kernels
  import opened Buffers
  import opened DecodePrograms

  /** f(lo) + ... + f(hi - 1) */
  ghost function Sum(f: nat -> real, lo: nat, hi: nat): real
    decreases hi - lo
  {
    if hi <= lo then 0.0 else f(lo) + Sum(f, lo + 1, hi)
  }

  ghost function Products(x: seq<real>, y: seq<real>): nat -> real {
    (j: nat) => if j < |x| && j < |y| then x[j] * y[j] else 0.0
  }

  lemma {:induction false} DotIsSum(x: seq<real>, y: seq<real>, lo: nat)
    requires |x| == |y| && lo <= |x|
    ensures Dot(x[lo..], y[lo..]) == Sum(Products(x, y), lo, |x|)
    decreases |x| - lo
  {
    if lo < |x| {
      DotIsSum(x, y, lo + 1);
      assert x[lo..][1..] == x[lo + 1..] && y[lo..][1..] == y[lo + 1..];
    }
  }

  /** The score of a query row against a key row is their inner product times the scale. */
  lemma ScoreIsScaledProduct(q: seq<real>, k: seq<real>, scale: real)
    requires |q| == |k|
    ensures Score(q, k, scale) == Sum(Products(q, k), 0, |q|) * scale
  {
    DotIsSum(q, k, 0);
    assert q[0..] == q && k[0..] == k;
  }

  /** A row's sums of weights, term by term. */
  lemma {:induction false} SumsAre(e: real -> real, s: seq<real>, v: seq<real>, lo: nat, weight: nat -> real,
                                   weighted: nat -> real)
    requires |s| == |v| && lo <= |s|
    requires forall i: nat | i < |s| :: weight(i) == e(s[i]) && weighted(i) == weight(i) * v[i]
    ensures Weight(e, s[lo..]) == Sum(weight, lo, |s|)
    ensures WeightedSum(e, s[lo..], v[lo..]) == Sum(weighted, lo, |s|)
    decreases |s| - lo
  {
    if lo < |s| {
      SumsAre(e, s, v, lo + 1, weight, weighted);
      assert s[lo..][1..] == s[lo + 1..] && v[lo..][1..] == v[lo + 1..];
      assert weighted(lo) == e(s[lo]) * v[lo] && s[lo..][0] == s[lo] && v[lo..][0] == v[lo];
    }
  }

  /** Average is the quotient of the two sums, and 0 when there is nothing to average. */
  lemma AverageIsQuotient(e: real -> real, s: seq<real>, v: seq<real>, weight: nat -> real, weighted: nat -> real)
    requires IsExp(e) && |s| == |v|
    requires forall i: nat | i < |s| :: weight(i) == e(s[i]) && weighted(i) == weight(i) * v[i]
    ensures if s == [] then Average(e, s, v) == 0.0
            else Sum(weight, 0, |s|) > 0.0 && Average(e, s, v) == Sum(weighted, 0, |s|) / Sum(weight, 0, |s|)
  {
    SumsAre(e, s, v, 0, weight, weighted);
    assert s[0..] == s && v[0..] == v;
    WeightPositive(e, s);
  }

  /** The vector of token i of row b for key/value head kv: entry i / 16 of the row's block table names the block, and
      the token is at offset i % 16 in it. */
  ghost function TokenVector(s: Shape, t: Tensors, cache: seq<seq<seq<seq<real>>>>, b: nat, kv: nat,
                             i: nat): (r: seq<real>)
    requires WellShaped(s, t) && RowsFit(s, t) && b < s.batch && kv < s.numKv && i < t.lens[b]
    requires cache == t.keys || cache == t.values
    ensures |r| == s.headDim
  {
    GatherAt(cache, t.table[b], t.lens[b], i);
    assert Uniform3(cache[t.table[b][i / 16]], s.numKv, s.headDim);
    assert Uniform(cache[t.table[b][i / 16]][i % 16], s.headDim);
    cache[t.table[b][i / 16]][i % 16][kv]
  }

  /** The score of token i for query head kv * group + h: the inner product with the token's key, times the scale. */
  ghost function TokenScore(s: Shape, t: Tensors, scale: real, b: nat, kv: nat, h: nat, i: nat): real
    requires WellShaped(s, t) && RowsFit(s, t) && b < s.batch && kv < s.numKv && h < s.group && i < t.lens[b]
  {
    IndexBound(kv, s.numKv, s.group, h);
    IndexValue(kv, s.group, h);
    Sum(Products(t.query[b][kv * s.group + h], TokenVector(s, t, t.keys, b, kv, i)), 0, s.headDim) * scale
  }

  lemma TokenScoreIs(s: Shape, t: Tensors, scale: real, b: nat, kv: nat, h: nat, d: nat, i: nat)
    requires WellShaped(s, t) && RowsFit(s, t) && b < s.batch && kv < s.numKv && h < s.group && i < t.lens[b]
    requires d < s.headDim
    ensures Index(kv, s.group, h) < s.numQ
            && Scores(s, t, scale, b, kv, Index(kv, s.group, h))[i] == TokenScore(s, t, scale, b, kv, h, i)
    ensures TokenColumn(s, t, t.values, b, kv, d)[i] == TokenVector(s, t, t.values, b, kv, i)[d]
  {
    IndexBound(kv, s.numKv, s.group, h);
    IndexValue(kv, s.group, h);
    assert Uniform(t.query[b], s.headDim);
    GatherAt(t.keys, t.table[b], t.lens[b], i);
    GatherAt(t.values, t.table[b], t.lens[b], i);
    ScoreIsScaledProduct(t.query[b][kv * s.group + h], TokenVector(s, t, t.keys, b, kv, i), scale);
  }

  lemma TermsAre(g: Launch, t: Tensors, b: nat, kv: nat, h: nat, d: nat, n: nat, i: nat)
    requires Launchable(g, t) && InGrid(g.s, b, kv, h, d) && i < n <= t.lens[b]
    ensures Index(kv, g.s.group, h) < g.s.numQ
    ensures Scores(g.s, t, g.scale, b, kv, Index(kv, g.s.group, h))[..n][i] == TokenScore(g.s, t, g.scale, b, kv, h, i)
    ensures TokenColumn(g.s, t, t.values, b, kv, d)[..n][i] == TokenVector(g.s, t, t.values, b, kv, i)[d]
  {
    TokenScoreIs(g.s, t, g.scale, b, kv, h, d, i);
  }

  /** Output is softmax attention: the average of component d of the tokens' values, with the exponentials of the
      tokens' scores as weights. */
  lemma OutputIsSoftmax(g: Launch, t: Tensors, b: nat, kv: nat, h: nat, d: nat, n: nat, weight: nat -> real,
                        weighted: nat -> real)
    requires Launchable(g, t) && InGrid(g.s, b, kv, h, d) && 0 < n <= t.lens[b]
    requires forall i: nat | i < n ::
               && weight(i) == g.e(TokenScore(g.s, t, g.scale, b, kv, h, i))
               && weighted(i) == weight(i) * TokenVector(g.s, t, t.values, b, kv, i)[d]
    ensures Sum(weight, 0, n) > 0.0
    ensures Output(g, t, b, kv, h, d, n) == Fin(Sum(weighted, 0, n) / Sum(weight, 0, n))
  {
    IndexBound(kv, g.s.numKv, g.s.group, h);
    var s := Scores(g.s, t, g.scale, b, kv, Index(kv, g.s.group, h))[..n];
    var v := TokenColumn(g.s, t, t.values, b, kv, d)[..n];
    forall i: nat | i < n ensures weight(i) == g.e(s[i]) && weighted(i) == weight(i) * v[i] {
      TermsAre(g, t, b, kv, h, d, n, i);
    }
    AverageIsQuotient(g.e, s, v, weight, weighted);
  }

  /** And 0 where there are no tokens. */
  lemma OutputOfNothing(g: Launch, t: Tensors, b: nat, kv: nat, h: nat, d: nat)
    requires Launchable(g, t) && InGrid(g.s, b, kv, h, d)
    ensures Output(g, t, b, kv, h, d, 0) == Fin(0.0)
  {
  }

  lemma {:induction false} OneTerm(f: nat -> real, d: nat, n: nat, lo: nat)
    requires d < n && lo <= n && forall j: nat | j < n && j != d :: f(j) == 0.0
    ensures Sum(f, lo, n) == if lo <= d then f(d) else 0.0
    decreases n - lo
  {
    if lo < n {
      OneTerm(f, d, n, lo + 1);
    }
  }

  /** Scores are linear in the scale and in the query, so a query that is a at one dimension scores a times the key's
      entry there, times the scale. */
  lemma {:induction false} ScoreOfUnit(q: seq<real>, k: seq<real>, scale: real, d: nat)
    requires |q| == |k| && d < |q| && forall j | 0 <= j < |q| && j != d :: q[j] == 0.0
    ensures Score(q, k, scale) == q[d] * k[d] * scale
  {
    ScoreIsScaledProduct(q, k, scale);
    OneTerm(Products(q, k), d, |q|, 0);
  }

  lemma {:induction false} DotOfSum(q: seq<real>, q': seq<real>, k: seq<real>)
    requires |q| == |q'| == |k|
    ensures Dot(seq(|q|, j requires 0 <= j < |q| => q[j] + q'[j]), k) == Dot(q, k) + Dot(q', k)
  {
    if q != [] {
      DotOfSum(q[1..], q'[1..], k[1..]);
      var sum := seq(|q|, j requires 0 <= j < |q| => q[j] + q'[j]);
      assert sum[1..] == seq(|q| - 1, j requires 0 <= j < |q| - 1 => q[1..][j] + q'[1..][j]);
    }
  }

  /** The score of a sum of queries is the sum of their scores. */
  lemma ScoreOfSum(q: seq<real>, q': seq<real>, k: seq<real>, scale: real)
    requires |q| == |q'| == |k|
    ensures Score(seq(|q|, j requires 0 <= j < |q| => q[j] + q'[j]), k, scale) ==
            Score(q, k, scale) + Score(q', k, scale)
  {
    DotOfSum(q, q', k);
  }
}
