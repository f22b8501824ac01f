/** The paged key/value cache: logical tokens, the attention they define, and the pointer arithmetic
    that reaches them in memory. */
module PagedCache {
  import opened ExtReal
  import opened Softmax
  import opened Layout

  /** Token slots in a block; the kernels have it built in. */
  const BLOCK_SIZE: nat := 16

  datatype Shape = Shape(batch: nat, numQ: nat, numKv: nat, group: nat, headDim: nat, maxBlocks: nat)

  /** The operands as tensors: query (batch, numQ, headDim), keys and values (blocks, 16, numKv, headDim),
      table (batch, maxBlocks), lens (batch). */
  datatype Tensors = Tensors(query: seq<seq<seq<real>>>, keys: seq<seq<seq<seq<real>>>>,
                             values: seq<seq<seq<seq<real>>>>, table: seq<seq<int>>, lens: seq<int>)

  /** The operands as the kernels see them: flat memory. */
  datatype Memory = Memory(q: seq<real>, k: seq<real>, v: seq<real>, table: seq<int>, lens: seq<int>)

  ghost predicate WellShaped(s: Shape, t: Tensors) {
    && s.numQ == s.numKv * s.group
    && |t.query| == s.batch && Uniform3(t.query, s.numQ, s.headDim)
    && |t.values| == |t.keys|
    && Uniform4(t.keys, BLOCK_SIZE, s.numKv, s.headDim) && Uniform4(t.values, BLOCK_SIZE, s.numKv, s.headDim)
    && |t.table| == s.batch && Uniform(t.table, s.maxBlocks)
    && |t.lens| == s.batch
  }

  /** The first n tokens of a row lie in existing blocks. */
  ghost predicate PagesValid(numBlocks: nat, row: seq<int>, n: int) {
    && n <= |row| * BLOCK_SIZE
    && forall i | 0 <= i < |row| && i * BLOCK_SIZE < n :: 0 <= row[i] < numBlocks
  }

  ghost predicate RowsFit(s: Shape, t: Tensors)
    requires WellShaped(s, t)
  {
    forall b | 0 <= b < s.batch :: PagesValid(|t.keys|, t.table[b], t.lens[b])
  }

  ghost predicate Contiguous(t: Tensors, mem: Memory) {
    && mem.q == Flat(Flat(t.query))
    && mem.k == Flat(Flat(Flat(t.keys))) && mem.v == Flat(Flat(Flat(t.values)))
    && mem.table == Flat(t.table) && mem.lens == t.lens
  }

  ghost predicate Ready(s: Shape, t: Tensors, mem: Memory) {
    WellShaped(s, t) && RowsFit(s, t) && Contiguous(t, mem)
  }

  // ---- the reference ----

  /** The first n tokens of a row, gathered block by block; each token is a (numKv, headDim) matrix. */
  ghost function Gather(cache: seq<seq<seq<seq<real>>>>, row: seq<int>, n: int): seq<seq<seq<real>>>
    requires PagesValid(|cache|, row, n) && forall p | 0 <= p < |cache| :: |cache[p]| == BLOCK_SIZE
    decreases |row|
  {
    if n <= 0 then []
    else if n <= BLOCK_SIZE then cache[row[0]][..n]
    else cache[row[0]] + Gather(cache, row[1..], n - BLOCK_SIZE)
  }

  /** Token t lives in block row[t / 16] at offset t % 16. */
  lemma {:induction false} GatherAt(cache: seq<seq<seq<seq<real>>>>, row: seq<int>, n: int, t: nat)
    requires PagesValid(|cache|, row, n) && forall p | 0 <= p < |cache| :: |cache[p]| == BLOCK_SIZE
    requires t < n
    ensures t / BLOCK_SIZE < |row| && 0 <= row[t / BLOCK_SIZE] < |cache|
    ensures t < |Gather(cache, row, n)|
    ensures Gather(cache, row, n)[t] == cache[row[t / BLOCK_SIZE]][t % BLOCK_SIZE]
    decreases t
  {
    if t >= BLOCK_SIZE {
      assert t / BLOCK_SIZE == (t - BLOCK_SIZE) / BLOCK_SIZE + 1 && t % BLOCK_SIZE == (t - BLOCK_SIZE) % BLOCK_SIZE;
      assert PagesValid(|cache|, row[1..], n - BLOCK_SIZE) by {
        forall i | 0 <= i < |row[1..]| && i * BLOCK_SIZE < n - BLOCK_SIZE ensures 0 <= row[1..][i] < |cache| {
          assert row[1..][i] == row[i + 1];
        }
      }
      GatherAt(cache, row[1..], n - BLOCK_SIZE, t - BLOCK_SIZE);
    } else {
      assert t / BLOCK_SIZE == 0 && t % BLOCK_SIZE == t;
    }
  }

  lemma {:induction false} GatherLength(cache: seq<seq<seq<seq<real>>>>, row: seq<int>, n: int)
    requires PagesValid(|cache|, row, n) && forall p | 0 <= p < |cache| :: |cache[p]| == BLOCK_SIZE
    ensures |Gather(cache, row, n)| == if n <= 0 then 0 else n
    decreases |row|
  {
    if n > BLOCK_SIZE {
      GatherLength(cache, row[1..], n - BLOCK_SIZE);
    }
  }

  function Dot(x: seq<real>, y: seq<real>): real
    requires |x| == |y|
  {
    if x == [] then 0.0 else Times(x[0], y[0]) + Dot(x[1..], y[1..])
  }

  /** The scaled score of a query row against a key row. */
  function Score(q: seq<real>, k: seq<real>, scale: real): real
    requires |q| == |k|
  {
    Times(Dot(q, k), scale)
  }

  /** Number of tokens of row b. */
  function Len(t: Tensors, b: nat): nat
    requires b < |t.lens|
  {
    if t.lens[b] <= 0 then 0 else t.lens[b]
  }

  /** Logical token i of row b. */
  ghost function Token(s: Shape, t: Tensors, cache: seq<seq<seq<seq<real>>>>, b: nat, i: nat): (r: seq<seq<real>>)
    requires WellShaped(s, t) && RowsFit(s, t) && b < s.batch && i < Len(t, b)
    requires cache == t.keys || cache == t.values
    ensures |r| == s.numKv && Uniform(r, s.headDim)
  {
    GatherAt(cache, t.table[b], t.lens[b], i);
    assert Uniform3(cache[t.table[b][i / BLOCK_SIZE]], s.numKv, s.headDim);
    Gather(cache, t.table[b], t.lens[b])[i]
  }

  /** Element (kv, d) of every logical token of row b. */
  ghost function TokenColumn(s: Shape, t: Tensors, cache: seq<seq<seq<seq<real>>>>, b: nat, kv: nat,
                             d: nat): (r: seq<real>)
    requires WellShaped(s, t) && RowsFit(s, t) && b < s.batch && kv < s.numKv && d < s.headDim
    requires cache == t.keys || cache == t.values
    ensures |r| == Len(t, b)
  {
    seq(Len(t, b), i requires 0 <= i < Len(t, b) => Token(s, t, cache, b, i)[kv][d])
  }

  /** The scaled scores of query head qh against the tokens of row b. */
  ghost function Scores(s: Shape, t: Tensors, scale: real, b: nat, kv: nat, qh: nat): (r: seq<real>)
    requires WellShaped(s, t) && RowsFit(s, t) && b < s.batch && kv < s.numKv && qh < s.numQ
    ensures |r| == Len(t, b)
  {
    assert Uniform(t.query[b], s.headDim);
    seq(Len(t, b), i requires 0 <= i < Len(t, b) => Score(t.query[b][qh], Token(s, t, t.keys, b, i)[kv], scale))
  }

  /** Attention of query head qh = kv * group + h, dimension d, over the first n tokens of row b. */
  ghost function Attention(e: real -> real, s: Shape, t: Tensors, scale: real, b: nat, kv: nat, h: nat, d: nat,
                           n: nat): real
    requires WellShaped(s, t) && RowsFit(s, t) && b < s.batch && kv < s.numKv && h < s.group && d < s.headDim
    requires n <= Len(t, b)
  {
    IndexBound(kv, s.numKv, s.group, h);
    Average(e, Scores(s, t, scale, b, kv, Index(kv, s.group, h))[..n], TokenColumn(s, t, t.values, b, kv, d)[..n])
  }

  // ---- loads ----

  /** The masked load of a block id. */
  function LoadBlock(s: Shape, ghost t: Tensors, mem: Memory, b: nat, i: nat): (p: int)
    requires Ready(s, t, mem) && b < s.batch
    ensures i < mem.lens[b] ==> 0 <= p < |t.keys| && i / BLOCK_SIZE < s.maxBlocks && p == t.table[b][i / BLOCK_SIZE]
  {
    if i < mem.lens[b] then
      GatherAt(t.keys, t.table[b], t.lens[b], i);
      FlatAt(t.table, s.maxBlocks, b, i / BLOCK_SIZE);
      IndexValue(b, s.maxBlocks, i / BLOCK_SIZE);
      mem.table[b * s.maxBlocks + i / BLOCK_SIZE]
    else 0
  }

  lemma KvOffsetIsRowMajor(s: Shape, block: nat, offset: nat, kv: nat, d: nat)
    ensures ((block * BLOCK_SIZE + offset) * s.numKv + kv) * s.headDim + d ==
            Index(Index(Index(block, BLOCK_SIZE, offset), s.numKv, kv), s.headDim, d)
  {
    IndexValue(block, BLOCK_SIZE, offset);
    IndexValue(Index(block, BLOCK_SIZE, offset), s.numKv, kv);
    IndexValue(Index(Index(block, BLOCK_SIZE, offset), s.numKv, kv), s.headDim, d);
  }

  /** The masked load of one key or value element. It stays inside the cache and reads exactly the logical token's
      element. */
  function LoadKv(s: Shape, ghost t: Tensors, mem: Memory, ghost cache: seq<seq<seq<seq<real>>>>, data: seq<real>,
                  b: nat, kv: nat, i: nat, d: nat): (r: real)
    requires Ready(s, t, mem) && b < s.batch && kv < s.numKv && d < s.headDim
    requires cache == t.keys || cache == t.values
    requires data == Flat(Flat(Flat(cache)))
    ensures r == if i < mem.lens[b] then Token(s, t, cache, b, i)[kv][d] else 0.0
  {
    if i < mem.lens[b] then
      var block := LoadBlock(s, t, mem, b, i);
      var offset := i - i / BLOCK_SIZE * BLOCK_SIZE;
      assert Uniform3(cache[block], s.numKv, s.headDim);
      assert Uniform(cache[block][offset], s.headDim);
      GatherAt(cache, t.table[b], t.lens[b], i);
      FlatAt4(cache, BLOCK_SIZE, s.numKv, s.headDim, block, offset, kv, d);
      KvOffsetIsRowMajor(s, block, offset, kv, d);
      data[((block * BLOCK_SIZE + offset) * s.numKv + kv) * s.headDim + d]
    else 0.0
  }

  /** Offset of (b, qh, d) in the query and in the output. */
  function HeadOffset(s: Shape, b: nat, qh: nat, d: nat): nat {
    b * s.numQ * s.headDim + qh * s.headDim + d
  }

  lemma HeadOffsetIsRowMajor(s: Shape, b: nat, qh: nat, d: nat)
    ensures HeadOffset(s, b, qh, d) == Index(Index(b, s.numQ, qh), s.headDim, d)
  {
    IndexValue(b, s.numQ, qh);
    IndexValue(Index(b, s.numQ, qh), s.headDim, d);
    assert (b * s.numQ + qh) * s.headDim == b * s.numQ * s.headDim + qh * s.headDim;
  }

  function LoadQ(s: Shape, ghost t: Tensors, mem: Memory, b: nat, qh: nat, d: nat): (r: real)
    requires Ready(s, t, mem) && b < s.batch && qh < s.numQ && d < s.headDim
    ensures |t.query[b]| == s.numQ && |t.query[b][qh]| == s.headDim && r == t.query[b][qh][d]
  {
    assert Uniform(t.query[b], s.headDim);
    FlatAt3(t.query, s.numQ, s.headDim, b, qh, d);
    HeadOffsetIsRowMajor(s, b, qh, d);
    mem.q[HeadOffset(s, b, qh, d)]
  }

  /** Renumbering the physical blocks, contents and table together, changes nothing. */
  lemma RenumberingIsInvisible(e: real -> real, s: Shape, t: Tensors, u: Tensors, renumber: seq<nat>, scale: real,
                               b: nat, kv: nat, h: nat, d: nat, n: nat)
    requires WellShaped(s, t) && RowsFit(s, t) && WellShaped(s, u) && RowsFit(s, u)
    requires u.query == t.query && u.lens == t.lens
    requires |renumber| == |t.keys|
             && forall p | 0 <= p < |renumber| ::
                   renumber[p] < |u.keys| && u.keys[renumber[p]] == t.keys[p] && u.values[renumber[p]] == t.values[p]
    requires forall r, i | 0 <= r < s.batch && 0 <= i < s.maxBlocks && i * BLOCK_SIZE < t.lens[r] ::
               0 <= t.table[r][i] < |renumber| && u.table[r][i] == renumber[t.table[r][i]]
    requires b < s.batch && kv < s.numKv && h < s.group && d < s.headDim && n <= Len(t, b)
    ensures Attention(e, s, u, scale, b, kv, h, d, n) == Attention(e, s, t, scale, b, kv, h, d, n)
  {
    forall i: nat | i < Len(t, b)
      ensures Token(s, u, u.keys, b, i) == Token(s, t, t.keys, b, i)
      ensures Token(s, u, u.values, b, i) == Token(s, t, t.values, b, i)
    {
      GatherAt(t.keys, t.table[b], t.lens[b], i);
      GatherAt(t.values, t.table[b], t.lens[b], i);
      GatherAt(u.keys, u.table[b], u.lens[b], i);
      GatherAt(u.values, u.table[b], u.lens[b], i);
    }
    IndexBound(kv, s.numKv, s.group, h);
    var qh := Index(kv, s.group, h);
    assert Scores(s, u, scale, b, kv, qh) == Scores(s, t, scale, b, kv, qh);
    assert TokenColumn(s, u, u.values, b, kv, d) == TokenColumn(s, t, t.values, b, kv, d);
  }
}
