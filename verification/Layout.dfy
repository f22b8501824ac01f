/** Contiguous tensors: nested sequences on one side, row-major memory on the other. */
module Layout {
  /** Offset of element j of row i, in rows of width w: i rows are skipped. */
  function Index(i: nat, w: nat, j: nat): (k: nat)
    ensures j <= k
  {
    if i == 0 then j else w + Index(i - 1, w, j)
  }

  lemma {:induction false} IndexValue(i: nat, w: nat, j: nat)
    ensures Index(i, w, j) == i * w + j
  {
    if i > 0 {
      IndexValue(i - 1, w, j);
      assert i * w == w + (i - 1) * w;
    }
  }

  lemma {:induction false} IndexMonotone(i: nat, n: nat, w: nat, j: nat)
    requires i < n && j < w
    ensures Index(i, w, j) < Index(n, w, 0)
  {
    if i > 0 {
      IndexMonotone(i - 1, n - 1, w, j);
    }
  }

  lemma IndexBound(i: nat, n: nat, w: nat, j: nat)
    requires i < n && j < w
    ensures Index(i, w, j) < n * w
  {
    IndexMonotone(i, n, w, j);
    IndexValue(n, w, 0);
  }

  /** Different positions have different offsets. */
  lemma {:induction false} IndexInjective(i: nat, j: nat, i': nat, j': nat, w: nat)
    requires j < w && j' < w
    requires Index(i, w, j) == Index(i', w, j')
    ensures i == i' && j == j'
  {
    if i > 0 && i' > 0 {
      IndexInjective(i - 1, j, i' - 1, j', w);
    }
  }

  /** Row-major memory of a two-dimensional tensor. */
  function Flat<T>(xs: seq<seq<T>>): seq<T> {
    if xs == [] then [] else xs[0] + Flat(xs[1..])
  }

  ghost predicate Uniform<T>(xs: seq<seq<T>>, w: nat) {
    forall i | 0 <= i < |xs| :: |xs[i]| == w
  }

  lemma {:induction false} FlatLength<T>(xs: seq<seq<T>>, w: nat)
    requires Uniform(xs, w)
    ensures |Flat(xs)| == |xs| * w
  {
    if xs != [] {
      FlatLength(xs[1..], w);
      assert (|xs| - 1) * w + w == |xs| * w;
    }
  }

  /** Memory cell i * w + j holds element (i, j). */
  lemma {:induction false} FlatAt<T>(xs: seq<seq<T>>, w: nat, i: nat, j: nat)
    requires Uniform(xs, w) && i < |xs| && j < w
    ensures Index(i, w, j) < |Flat(xs)| && Flat(xs)[Index(i, w, j)] == xs[i][j]
  {
    if i > 0 {
      FlatAt(xs[1..], w, i - 1, j);
    }
  }

  /** A three-dimensional tensor of shape (|xs|, n, w). */
  ghost predicate Uniform3<T>(xs: seq<seq<seq<T>>>, n: nat, w: nat) {
    forall i | 0 <= i < |xs| :: |xs[i]| == n && Uniform(xs[i], w)
  }

  /** A four-dimensional tensor of shape (|xs|, n, m, w). */
  ghost predicate Uniform4<T>(xs: seq<seq<seq<seq<T>>>>, n: nat, m: nat, w: nat) {
    forall i | 0 <= i < |xs| :: |xs[i]| == n && Uniform3(xs[i], m, w)
  }

  lemma {:induction false} FlatRows3<T>(xs: seq<seq<seq<T>>>, n: nat, w: nat)
    requires Uniform3(xs, n, w)
    ensures Uniform(Flat(xs), w)
  {
    if xs != [] {
      FlatRows3(xs[1..], n, w);
      assert Uniform(xs[0], w);
    }
  }

  lemma {:induction false} FlatRows4<T>(xs: seq<seq<seq<seq<T>>>>, n: nat, m: nat, w: nat)
    requires Uniform4(xs, n, m, w)
    ensures Uniform3(Flat(xs), m, w)
  {
    if xs != [] {
      FlatRows4(xs[1..], n, m, w);
      assert Uniform3(xs[0], m, w);
    }
  }

  /** Row-major memory of a three-dimensional tensor. */
  lemma FlatAt3<T>(xs: seq<seq<seq<T>>>, n: nat, w: nat, i: nat, j: nat, k: nat)
    requires Uniform3(xs, n, w)
    requires i < |xs| && j < |xs[i]| && k < |xs[i][j]|
    ensures Index(Index(i, n, j), w, k) < |Flat(Flat(xs))|
    ensures Flat(Flat(xs))[Index(Index(i, n, j), w, k)] == xs[i][j][k]
  {
    assert Uniform(xs[i], w);
    FlatAt(xs, n, i, j);
    FlatRows3(xs, n, w);
    FlatAt(Flat(xs), w, Index(i, n, j), k);
  }

  /** Row-major memory of a four-dimensional tensor. */
  lemma FlatAt4<T>(xs: seq<seq<seq<seq<T>>>>, n: nat, m: nat, w: nat, i: nat, j: nat, k: nat, l: nat)
    requires Uniform4(xs, n, m, w)
    requires i < |xs| && j < |xs[i]| && k < |xs[i][j]| && l < |xs[i][j][k]|
    ensures Index(Index(Index(i, n, j), m, k), w, l) < |Flat(Flat(Flat(xs)))|
    ensures Flat(Flat(Flat(xs)))[Index(Index(Index(i, n, j), m, k), w, l)] == xs[i][j][k][l]
  {
    assert Uniform3(xs[i], m, w);
    FlatAt(xs, n, i, j);
    FlatRows4(xs, n, m, w);
    FlatAt3(Flat(xs), m, w, Index(i, n, j), k, l);
  }
}
