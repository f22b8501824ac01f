/** Softmax-weighted averages, and the running (max, sum, weighted sum) summary that lets them be
    computed piece by piece. */
module Softmax {
  import opened ExtReal

  // ---- the reference ----

  /** sum of e(s_t) */
  ghost function Weight(e: real -> real, s: seq<real>): real {
    if s == [] then 0.0 else e(s[0]) + Weight(e, s[1..])
  }

  /** sum of e(s_t) * v_t */
  ghost function WeightedSum(e: real -> real, s: seq<real>, v: seq<real>): real
    requires |s| == |v|
  {
    if s == [] then 0.0 else Times(e(s[0]), v[0]) + WeightedSum(e, s[1..], v[1..])
  }

  /** The softmax-weighted average of v, and 0 when there is nothing to average. */
  ghost function Average(e: real -> real, s: seq<real>, v: seq<real>): real
    requires |s| == |v|
  {
    if Weight(e, s) == 0.0 then 0.0 else WeightedSum(e, s, v) / Weight(e, s)
  }

  // ---- the same sums with every score lowered by m ----

  ghost function WeightAt(e: real -> real, s: seq<real>, m: real): real {
    if s == [] then 0.0 else e(s[0] - m) + WeightAt(e, s[1..], m)
  }

  ghost function WeightedSumAt(e: real -> real, s: seq<real>, v: seq<real>, m: real): real
    requires |s| == |v|
  {
    if s == [] then 0.0 else Times(e(s[0] - m), v[0]) + WeightedSumAt(e, s[1..], v[1..], m)
  }

  ghost function MaxOf(s: seq<real>): Ext {
    if s == [] then NegInf else Max(Fin(s[0]), MaxOf(s[1..]))
  }

  /** MaxOf is the greatest element. */
  lemma {:induction false} MaxOfIsGreatest(s: seq<real>)
    ensures MaxOf(s) == NegInf <==> s == []
    ensures s != [] ==> MaxOf(s).Fin? && MaxOf(s).r in s && forall i | 0 <= i < |s| :: s[i] <= MaxOf(s).r
  {
    if s != [] {
      MaxOfIsGreatest(s[1..]);
      forall i | 0 <= i < |s| ensures s[i] <= MaxOf(s).r {
        if i > 0 { assert s[i] == s[1..][i - 1]; }
      }
    }
  }

  lemma MaxOfSort(s: seq<real>)
    ensures if s == [] then MaxOf(s) == NegInf else MaxOf(s).Fin?
  {
    MaxOfIsGreatest(s);
  }

  lemma {:induction false} MaxOfConcat(s: seq<real>, t: seq<real>)
    ensures MaxOf(s + t) == Max(MaxOf(s), MaxOf(t))
  {
    MaxOfIsGreatest(t);
    if s == [] {
      assert s + t == t;
    } else {
      assert (s + t)[1..] == s[1..] + t;
      MaxOfConcat(s[1..], t);
      MaxOfIsGreatest(s[1..]);
    }
  }

  lemma {:induction false} SumsConcat(e: real -> real, s: seq<real>, v: seq<real>, t: seq<real>, w: seq<real>, m: real)
    requires |s| == |v| && |t| == |w|
    ensures WeightAt(e, s + t, m) == WeightAt(e, s, m) + WeightAt(e, t, m)
    ensures WeightedSumAt(e, s + t, v + w, m) == WeightedSumAt(e, s, v, m) + WeightedSumAt(e, t, w, m)
  {
    if s == [] {
      assert s + t == t && v + w == w;
    } else {
      assert (s + t)[1..] == s[1..] + t && (v + w)[1..] == v[1..] + w;
      SumsConcat(e, s[1..], v[1..], t, w, m);
    }
  }

  lemma {:induction false} WeightPositive(e: real -> real, s: seq<real>)
    requires IsExp(e)
    ensures if s == [] then Weight(e, s) == 0.0 else Weight(e, s) > 0.0
  {
    if s != [] {
      assert PositiveLaw(e, s[0]);
      WeightPositive(e, s[1..]);
    }
  }

  /** Moving the shift from m to k multiplies both sums by e(m - k). */
  lemma {:induction false} Rescale(e: real -> real, s: seq<real>, v: seq<real>, m: real, k: real)
    requires IsExp(e) && |s| == |v|
    ensures WeightAt(e, s, k) == Times(WeightAt(e, s, m), e(m - k))
    ensures WeightedSumAt(e, s, v, k) == Times(WeightedSumAt(e, s, v, m), e(m - k))
  {
    if s != [] {
      Rescale(e, s[1..], v[1..], m, k);
      assert AddLaw(e, s[0] - m, m - k);
      assert (s[0] - m) + (m - k) == s[0] - k;
      var x, c := e(s[0] - m), e(m - k);
      TimesSwap(x, c, v[0]);
      TimesAdd(x, WeightAt(e, s[1..], m), c);
      TimesAdd(Times(x, v[0]), WeightedSumAt(e, s[1..], v[1..], m), c);
    }
  }

  /** Unshifting multiplies both sums by e(m). */
  lemma {:induction false} Unshift(e: real -> real, s: seq<real>, v: seq<real>, m: real)
    requires IsExp(e) && |s| == |v|
    ensures Weight(e, s) == Times(WeightAt(e, s, m), e(m))
    ensures WeightedSum(e, s, v) == Times(WeightedSumAt(e, s, v, m), e(m))
  {
    if s != [] {
      Unshift(e, s[1..], v[1..], m);
      assert AddLaw(e, s[0] - m, m);
      assert (s[0] - m) + m == s[0];
      var x, c := e(s[0] - m), e(m);
      TimesSwap(x, c, v[0]);
      TimesAdd(x, WeightAt(e, s[1..], m), c);
      TimesAdd(Times(x, v[0]), WeightedSumAt(e, s[1..], v[1..], m), c);
    }
  }

  lemma CancelFactor(u: real, w: real, c: real)
    requires Times(w, c) > 0.0 && c > 0.0
    ensures w > 0.0 && Times(u, c) / Times(w, c) == u / w
  {
    var r := u / w;
    assert r * w == u;
    assert u * c == r * (w * c);
  }

  // ---- summaries ----

  /** (m, l, a) summarises the scores s and the values v: m is their maximum, l and a are the sums shifted by m. */
  ghost predicate Summary(e: real -> real, s: seq<real>, v: seq<real>, m: Ext, l: Ext, a: Ext)
    requires |s| == |v|
  {
    && m == MaxOf(s)
    && (s == [] ==> l == Fin(0.0) && a == Fin(0.0))
    && (s != [] ==> m.Fin? && l == Fin(WeightAt(e, s, m.r)) && a == Fin(WeightedSumAt(e, s, v, m.r)))
  }

  /** A tile of scores: the first |s| positions are live, a dead one holds -inf. */
  ghost predicate Masked(qk: seq<Ext>, s: seq<real>) {
    |s| <= |qk| && forall i | 0 <= i < |qk| :: qk[i] == if i < |s| then Fin(s[i]) else NegInf
  }

  /** A tile of values: a dead position holds 0. */
  ghost predicate MaskedValues(vs: seq<real>, v: seq<real>) {
    |v| <= |vs| && forall i | 0 <= i < |vs| :: vs[i] == if i < |v| then v[i] else 0.0
  }

  /** The tile's weights at the running maximum k. */
  ghost predicate Weights(e: real -> real, qk: seq<Ext>, k: Ext, p: seq<Ext>) {
    |p| == |qk| && forall i | 0 <= i < |p| :: p[i] == Exp(e, Sub(qk[i], k))
  }

  /** A tile whose first |s| lanes are live reduces to the maximum of those lanes; a dead lane scores -inf. */
  lemma {:induction false} TileMax(qk: seq<Ext>, s: seq<real>)
    requires Masked(qk, s)
    ensures RowMax(qk) == MaxOf(s)
  {
    if qk != [] {
      TileMax(qk[1..], if s == [] then [] else s[1..]);
    }
  }

  /** At a finite maximum k every lane has a defined weight; a dead lane weighs 0. */
  lemma TileWeights(e: real -> real, s: seq<real>, qk: seq<Ext>, p: seq<Ext>, k: real)
    requires Masked(qk, s) && Weights(e, qk, Fin(k), p)
    ensures forall i | 0 <= i < |p| :: p[i] == Fin(if i < |s| then e(s[i] - k) else 0.0)
  {
  }

  /** Its weights add up to the shifted weight of the live lanes. */
  lemma {:induction false} TileSum(e: real -> real, p: seq<Ext>, s: seq<real>, m: real)
    requires |s| <= |p|
    requires forall i | 0 <= i < |p| :: p[i] == Fin(if i < |s| then e(s[i] - m) else 0.0)
    ensures RowSum(p) == Fin(WeightAt(e, s, m))
  {
    if p != [] {
      TileSum(e, p[1..], if s == [] then [] else s[1..], m);
    }
  }

  /** Its product with a column of values is the shifted weighted sum; a dead lane loads 0. */
  lemma {:induction false} TileDot(e: real -> real, p: seq<Ext>, vs: seq<real>, s: seq<real>, v: seq<real>, m: real)
    requires |s| == |v| <= |p| == |vs|
    requires forall i | 0 <= i < |p| :: p[i] == Fin(if i < |s| then e(s[i] - m) else 0.0)
    requires MaskedValues(vs, v)
    ensures RowDot(p, vs) == Fin(WeightedSumAt(e, s, v, m))
  {
    if p != [] {
      if s == [] {
        TileDot(e, p[1..], vs[1..], [], [], m);
      } else {
        TileDot(e, p[1..], vs[1..], s[1..], v[1..], m);
      }
    }
  }

  /** Rescaling a summary to a finite k: no undefined number arises. */
  lemma SummaryRescale(e: real -> real, s: seq<real>, v: seq<real>, m: Ext, l: Ext, a: Ext, k: real)
    requires IsExp(e) && |s| == |v|
    requires Summary(e, s, v, m, l, a)
    ensures Mul(l, Exp(e, Sub(m, Fin(k)))) == Fin(WeightAt(e, s, k))
    ensures Mul(a, Exp(e, Sub(m, Fin(k)))) == Fin(WeightedSumAt(e, s, v, k))
  {
    if s != [] {
      Rescale(e, s, v, m.r, k);
    }
  }

  /** Summaries merge: rescaling the left part to the joint maximum k and adding the right part's sums at k
      summarises the concatenation. */
  lemma Merge(e: real -> real, s: seq<real>, v: seq<real>, t: seq<real>, w: seq<real>, m: Ext, l: Ext, a: Ext, k: real)
    requires IsExp(e) && |s| == |v| && |t| == |w|
    requires Summary(e, s, v, m, l, a)
    requires Max(m, MaxOf(t)) == Fin(k)
    ensures Summary(e, s + t, v + w, Fin(k),
                    Add(Mul(l, Exp(e, Sub(m, Fin(k)))), Fin(WeightAt(e, t, k))),
                    Add(Mul(a, Exp(e, Sub(m, Fin(k)))), Fin(WeightedSumAt(e, t, w, k))))
  {
    MaxOfConcat(s, t);
    MaxOfSort(s);
    MaxOfSort(s + t);
    SumsConcat(e, s, v, t, w, k);
    SummaryRescale(e, s, v, m, l, a, k);
  }

  /** The running maximum of a non-empty range is finite. */
  lemma TileMaxFinite(e: real -> real, s: seq<real>, t: seq<real>, qk: seq<Ext>)
    requires Masked(qk, t) && (s != [] || t != [])
    ensures RowMax(qk) == MaxOf(t) && Max(MaxOf(s), MaxOf(t)).Fin?
  {
    TileMax(qk, t);
    MaxOfSort(s);
    MaxOfSort(t);
  }

  /** One tile of a kernel. The tile's live lanes score t and load w; its dead lanes score -inf and load 0. */
  lemma TileStep(e: real -> real, s: seq<real>, v: seq<real>, t: seq<real>, w: seq<real>,
                 qk: seq<Ext>, p: seq<Ext>, vs: seq<real>, m: Ext, l: Ext, a: Ext)
    requires IsExp(e) && |s| == |v| && |t| == |w| && |qk| == |vs| && (s != [] || t != [])
    requires Summary(e, s, v, m, l, a)
    requires Masked(qk, t) && MaskedValues(vs, w) && Weights(e, qk, Max(m, RowMax(qk)), p)
    ensures var k := Max(m, RowMax(qk));
            var alpha := Exp(e, Sub(m, k));
            k.Fin? && Summary(e, s + t, v + w, k, Add(Mul(l, alpha), RowSum(p)), Add(Mul(a, alpha), RowDot(p, vs)))
  {
    TileMaxFinite(e, s, t, qk);
    var k := Max(m, RowMax(qk)).r;
    TileWeights(e, t, qk, p, k);
    TileSum(e, p, t, k);
    TileDot(e, p, vs, t, w, k);
    Merge(e, s, v, t, w, m, l, a, k);
  }

  /** One split of the combine kernel: its rescaled sums extend the sums of the splits before it. An empty split adds
      0. */
  lemma CombineStep(e: real -> real, s: seq<real>, v: seq<real>, t: seq<real>, w: seq<real>, m: Ext, l: Ext, a: Ext,
                    k: real)
    requires IsExp(e) && |s| == |v| && |t| == |w|
    requires Summary(e, t, w, m, l, a)
    ensures Add(Fin(WeightAt(e, s, k)), Mul(l, Exp(e, Sub(m, Fin(k))))) == Fin(WeightAt(e, s + t, k))
    ensures Add(Fin(WeightedSumAt(e, s, v, k)), Mul(a, Exp(e, Sub(m, Fin(k))))) ==
              Fin(WeightedSumAt(e, s + t, v + w, k))
  {
    SummaryRescale(e, t, w, m, l, a, k);
    SumsConcat(e, s, v, t, w, k);
  }

  /** The division that ends every kernel. */
  lemma Finish(e: real -> real, s: seq<real>, v: seq<real>, m: Ext, l: Ext, a: Ext)
    requires IsExp(e) && |s| == |v| && Summary(e, s, v, m, l, a)
    ensures (if Positive(l) then Div(a, l) else Fin(0.0)) == Fin(Average(e, s, v))
  {
    WeightPositive(e, s);
    if s != [] {
      Unshift(e, s, v, m.r);
      assert PositiveLaw(e, m.r);
      CancelFactor(WeightedSumAt(e, s, v, m.r), WeightAt(e, s, m.r), e(m.r));
    }
  }

  // ---- the same steps on slices of one row ----

  lemma TileSlice(e: real -> real, s: seq<real>, v: seq<real>, lo: nat, mid: nat, hi: nat,
                  qk: seq<Ext>, p: seq<Ext>, vs: seq<real>, m: Ext, l: Ext, a: Ext)
    requires IsExp(e) && |s| == |v| && lo <= mid <= hi <= |s| && lo < hi && |qk| == |vs|
    requires Summary(e, s[lo..mid], v[lo..mid], m, l, a)
    requires Masked(qk, s[mid..hi]) && MaskedValues(vs, v[mid..hi]) && Weights(e, qk, Max(m, RowMax(qk)), p)
    ensures var k := Max(m, RowMax(qk));
            var alpha := Exp(e, Sub(m, k));
            Summary(e, s[lo..hi], v[lo..hi], k, Add(Mul(l, alpha), RowSum(p)), Add(Mul(a, alpha), RowDot(p, vs)))
  {
    assert s[lo..mid] + s[mid..hi] == s[lo..hi] && v[lo..mid] + v[mid..hi] == v[lo..hi];
    TileStep(e, s[lo..mid], v[lo..mid], s[mid..hi], v[mid..hi], qk, p, vs, m, l, a);
  }

  lemma MaxSlice(s: seq<real>, n: nat, n': nat)
    requires n <= n' <= |s|
    ensures Max(MaxOf(s[..n]), MaxOf(s[n..n'])) == MaxOf(s[..n'])
  {
    assert s[..n] + s[n..n'] == s[..n'];
    MaxOfConcat(s[..n], s[n..n']);
  }

  lemma CombineSlice(e: real -> real, s: seq<real>, v: seq<real>, n: nat, n': nat, m: Ext, l: Ext, a: Ext, k: real)
    requires IsExp(e) && |s| == |v| && n <= n' <= |s|
    requires Summary(e, s[n..n'], v[n..n'], m, l, a)
    ensures Add(Fin(WeightAt(e, s[..n], k)), Mul(l, Exp(e, Sub(m, Fin(k))))) == Fin(WeightAt(e, s[..n'], k))
    ensures Add(Fin(WeightedSumAt(e, s[..n], v[..n], k)), Mul(a, Exp(e, Sub(m, Fin(k))))) ==
              Fin(WeightedSumAt(e, s[..n'], v[..n'], k))
  {
    assert s[..n] + s[n..n'] == s[..n'] && v[..n] + v[n..n'] == v[..n'];
    CombineStep(e, s[..n], v[..n], s[n..n'], v[n..n'], m, l, a, k);
  }
}
