/** The key and value caches as views of one kv_cache tensor, and when such a view is contiguous. */
module KvCacheViews {
  function Numel(sizes: seq<nat>): nat {
    if sizes == [] then 1 else sizes[0] * Numel(sizes[1..])
  }

  /** A strided view. */
  datatype View = View(sizes: seq<nat>, strides: seq<nat>)

  ghost predicate RowMajor(v: View) {
    |v.strides| == |v.sizes| && forall i | 0 <= i < |v.sizes| :: v.strides[i] == Numel(v.sizes[i + 1..])
  }

  /** is_contiguous(): axes of size 1 do not count, and an empty tensor is contiguous. */
  ghost predicate IsContiguous(v: View) {
    |v.strides| == |v.sizes|
        && (Numel(v.sizes) == 0 || forall i | 0 <= i < |v.sizes| :: v.sizes[i] != 1 ==>
            v.strides[i] == Numel(v.sizes[i + 1..]))
  }

  /** One of the views that unbind(1) returns: the same strides without axis 1. */
  function Unbind1(v: View): View
    requires |v.sizes| == |v.strides| >= 2
  {
    View([v.sizes[0]] + v.sizes[2..], [v.strides[0]] + v.strides[2..])
  }

  /** Taking the keys out of a row-major (blocks, 2, ...) cache leaves a contiguous view exactly when there is at most
      one block, or nothing in a block. */
  lemma UnboundIsContiguousIff(v: View)
    requires RowMajor(v) && |v.sizes| >= 2 && v.sizes[1] == 2
    ensures IsContiguous(Unbind1(v)) <==> v.sizes[0] <= 1 || Numel(v.sizes[2..]) == 0
  {
    var u, block := Unbind1(v), Numel(v.sizes[2..]);
    assert u.sizes[1..] == v.sizes[2..];
    assert v.sizes[1..][1..] == v.sizes[2..];
    assert Numel(u.sizes) == v.sizes[0] * block && u.strides[0] == Numel(v.sizes[1..]) == 2 * block;
    forall i | 0 < i < |u.sizes| ensures u.strides[i] == Numel(u.sizes[i + 1..]) {
      assert u.sizes[i + 1..] == v.sizes[i + 2..];
    }
    if v.sizes[0] > 1 && block != 0 {
      assert v.sizes[0] * block > 0;
      assert u.sizes[0] != 1 && u.strides[0] != Numel(u.sizes[1..]);
    }
  }

  /** Where an element lies. */
  function Offset(strides: seq<nat>, index: seq<nat>): nat
    requires |strides| == |index|
  {
    if index == [] then 0 else index[0] * strides[0] + Offset(strides[1..], index[1..])
  }

  lemma ProductOfSizes(blocks: nat, blockSize: nat, heads: nat, dim: nat)
    ensures var sizes := [blocks, 2, blockSize, heads, dim];
            && Numel(sizes[5..]) == 1 && Numel(sizes[4..]) == dim && Numel(sizes[3..]) == heads * dim
            && Numel(sizes[2..]) == blockSize * (heads * dim) && Numel(sizes[1..]) == 2 * (blockSize * (heads * dim))
  {
    var sizes := [blocks, 2, blockSize, heads, dim];
    assert sizes[1..][1..] == sizes[2..] && sizes[2..][1..] == sizes[3..] && sizes[3..][1..] == sizes[4..];
    assert sizes[4..][1..] == sizes[5..] == [];
  }

  lemma FourTerms(strides: seq<nat>, i: nat, j: nat, k: nat, l: nat)
    requires |strides| == 4
    ensures Offset(strides, [i, j, k, l]) == i * strides[0] + j * strides[1] + k * strides[2] + l * strides[3]
  {
    assert [i, j, k, l][1..] == [j, k, l] && [j, k, l][1..] == [k, l] && [k, l][1..] == [l] && [l][1..] == [];
    assert strides[1..][1..] == strides[2..] && strides[2..][1..] == strides[3..];
    assert Offset(strides[3..], [l]) == l * strides[3];
    assert Offset(strides[2..], [k, l]) == k * strides[2] + l * strides[3];
    assert Offset(strides[1..], [j, k, l]) == j * strides[1] + k * strides[2] + l * strides[3];
  }

  lemma Distribute(i: nat, j: nat, k: nat, blockSize: nat, heads: nat, dim: nat)
    ensures ((i * blockSize + j) * heads + k) * dim == i * (blockSize * (heads * dim)) + j * (heads * dim) + k * dim
  {
  }

  lemma KeyOffsets(blocks: nat, blockSize: nat, heads: nat, dim: nat)
    ensures var strides := [2 * (blockSize * (heads * dim)), heads * dim, dim, 1];
            (forall i: nat, j: nat, k: nat, l: nat | i < blocks && j < blockSize && k < heads && l < dim ::
               Offset(strides, [i, j, k, l]) == ((i * blockSize + j) * heads + k) * dim + l)
            <==> blocks <= 1 || blockSize * (heads * dim) == 0
  {
    var strides := [2 * (blockSize * (heads * dim)), heads * dim, dim, 1];
    forall i: nat, j: nat, k: nat, l: nat
      ensures Offset(strides, [i, j, k, l]) == i * (2 * (blockSize * (heads * dim))) + j * (heads * dim) + k * dim + l
      ensures ((i * blockSize + j) * heads + k) * dim + l ==
              i * (blockSize * (heads * dim)) + j * (heads * dim) + k * dim + l
    {
      FourTerms(strides, i, j, k, l);
      Distribute(i, j, k, blockSize, heads, dim);
    }
    if blocks > 1 && blockSize * (heads * dim) != 0 {
      assert 0 < blockSize && 0 < heads * dim;
      assert 0 < heads && 0 < dim;
      assert Offset(strides, [1, 0, 0, 0]) == 2 * (blockSize * (heads * dim));
      assert ((1 * blockSize + 0) * heads + 0) * dim + 0 == blockSize * (heads * dim);
    }
  }

  /** The key cache that unbind(1) takes out of a row-major cache of shape (blocks, 2, blockSize, heads, dim), in plain
      numbers: it is contiguous exactly when its elements lie in memory in row-major order. */
  lemma KeyViewIsContiguousIff(blocks: nat, blockSize: nat, heads: nat, dim: nat)
    ensures var v := View([blocks, 2, blockSize, heads, dim],
                          [2 * (blockSize * (heads * dim)), blockSize * (heads * dim), heads * dim, dim, 1]);
            && RowMajor(v)
            && (IsContiguous(Unbind1(v)) <==> blocks <= 1 || blockSize * (heads * dim) == 0)
            && (IsContiguous(Unbind1(v)) <==>
                forall i: nat, j: nat, k: nat, l: nat | i < blocks && j < blockSize && k < heads && l < dim ::
                  Offset(Unbind1(v).strides, [i, j, k, l]) == ((i * blockSize + j) * heads + k) * dim + l)
  {
    var v := View([blocks, 2, blockSize, heads, dim],
                  [2 * (blockSize * (heads * dim)), blockSize * (heads * dim), heads * dim, dim, 1]);
    ProductOfSizes(blocks, blockSize, heads, dim);
    UnboundIsContiguousIff(v);
    KeyOffsets(blocks, blockSize, heads, dim);
  }
}
