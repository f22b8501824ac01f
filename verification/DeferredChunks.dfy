/** What deferred chunks write: sorting, coalescing, and independence of staging order. */
module DeferredChunks {
  import opened Layout
  import opened CacheRows

  /** Rows of consecutive tokens from start on. */
  datatype Chunk = Chunk(start: nat, rows: seq<Row>)

  /** One request's row of the block table. Its first used entries are blocks of the cache, all different; what
      the other entries hold is not known. */
  datatype BlockRow = BlockRow(table: seq<nat>, used: nat, blockSize: nat, numBlocks: nat)

  ghost predicate RowOk(t: BlockRow) {
    && 0 < t.blockSize && t.used <= |t.table|
    && (forall i | 0 <= i < t.used :: t.table[i] < t.numBlocks)
    && (forall i, j | 0 <= i < j < t.used :: t.table[i] != t.table[j])
  }

  function CacheSize(t: BlockRow): nat {
    Index(t.numBlocks, t.blockSize, 0)
  }

  /** A token either has a used block, or lies past the table. */
  ghost predicate PosOk(t: BlockRow, pos: nat)
    requires RowOk(t)
  {
    BlockOf(pos, t.blockSize) < t.used || |t.table| <= BlockOf(pos, t.blockSize)
  }

  ghost predicate RangeOk(t: BlockRow, start: nat, n: nat)
    requires RowOk(t)
  {
    forall pos: nat | start <= pos < start + n :: PosOk(t, pos)
  }

  /** Different tokens have different slots. */
  lemma SlotInjective(t: BlockRow, p: nat, q: nat)
    requires RowOk(t) && BlockOf(p, t.blockSize) < t.used && BlockOf(q, t.blockSize) < t.used
    requires Slot(t.table, t.blockSize, p) == Slot(t.table, t.blockSize, q)
    ensures p == q
  {
    var bs := t.blockSize;
    IndexInjective(t.table[BlockOf(p, bs)], OffsetOf(p, bs), t.table[BlockOf(q, bs)], OffsetOf(q, bs), bs);
    BlockAndOffset(p, bs);
    BlockAndOffset(q, bs);
  }

  lemma SlotBound(t: BlockRow, p: nat)
    requires RowOk(t) && BlockOf(p, t.blockSize) < t.used
    ensures Slot(t.table, t.blockSize, p) < CacheSize(t)
  {
    IndexMonotone(t.table[BlockOf(p, t.blockSize)], t.numBlocks, t.blockSize, OffsetOf(p, t.blockSize));
  }

  /** The slots of a token range are distinct slots of the cache. */
  lemma SlotsOk(t: BlockRow, start: nat, n: nat)
    requires RowOk(t) && RangeOk(t, start, n)
    ensures InRange(SlotIds(t.table, t.blockSize, start, n), CacheSize(t))
    ensures Distinct(SlotIds(t.table, t.blockSize, start, n))
  {
    var slots := SlotIds(t.table, t.blockSize, start, n);
    forall i | 0 <= i < |slots| ensures slots[i] < CacheSize(t) {
      SlotIdsAt(t.table, t.blockSize, start, n, i);
      assert PosOk(t, start + i);
      SlotBound(t, start + i);
    }
    forall i, j | 0 <= i < j < |slots| ensures slots[i] != slots[j] {
      SlotIdsAt(t.table, t.blockSize, start, n, i);
      SlotIdsAt(t.table, t.blockSize, start, n, j);
      assert PosOk(t, start + i) && PosOk(t, start + j);
      if slots[i] == slots[j] {
        SlotInjective(t, start + i, start + j);
      }
    }
  }

  /** Writing a chunk: every token that has a block gets its own row; the rest of the rows are dropped. */
  ghost function WriteChunk(t: BlockRow, cache: seq<Row>, c: Chunk): (r: seq<Row>)
    requires RowOk(t) && |cache| == CacheSize(t) && RangeOk(t, c.start, |c.rows|)
    ensures |r| == |cache|
  {
    SlotsOk(t, c.start, |c.rows|);
    var slots := SlotIds(t.table, t.blockSize, c.start, |c.rows|);
    IndexCopy(cache, slots, c.rows[..|slots|])
  }

  /** Token i of a chunk ends up in its own slot. */
  lemma WriteChunkAt(t: BlockRow, cache: seq<Row>, c: Chunk, i: nat)
    requires RowOk(t) && |cache| == CacheSize(t) && RangeOk(t, c.start, |c.rows|)
    requires i < |SlotIds(t.table, t.blockSize, c.start, |c.rows|)|
    ensures SlotIds(t.table, t.blockSize, c.start, |c.rows|)[i] < |cache|
    ensures WriteChunk(t, cache, c)[SlotIds(t.table, t.blockSize, c.start, |c.rows|)[i]] == c.rows[i]
  {
    SlotsOk(t, c.start, |c.rows|);
    var slots := SlotIds(t.table, t.blockSize, c.start, |c.rows|);
    IndexCopyAt(cache, slots, c.rows[..|slots|], i);
  }

  lemma WriteChunkElsewhere(t: BlockRow, cache: seq<Row>, c: Chunk, x: nat)
    requires RowOk(t) && |cache| == CacheSize(t) && RangeOk(t, c.start, |c.rows|)
    requires x < |cache| && x !in SlotIds(t.table, t.blockSize, c.start, |c.rows|)
    ensures WriteChunk(t, cache, c)[x] == cache[x]
  {
    SlotsOk(t, c.start, |c.rows|);
    var slots := SlotIds(t.table, t.blockSize, c.start, |c.rows|);
    IndexCopyElsewhere(cache, slots, c.rows[..|slots|], x);
  }

  lemma RangeJoin(t: BlockRow, start: nat, n: nat, m: nat)
    requires RowOk(t) && RangeOk(t, start, n) && RangeOk(t, start + n, m)
    ensures RangeOk(t, start, n + m)
  {
  }

  /** WriteChunk, with its slots named. */
  lemma WriteChunkIs(t: BlockRow, cache: seq<Row>, c: Chunk, slots: seq<nat>, rows: seq<Row>)
    requires RowOk(t) && |cache| == CacheSize(t) && RangeOk(t, c.start, |c.rows|)
    requires slots == SlotIds(t.table, t.blockSize, c.start, |c.rows|) && rows == c.rows[..|slots|]
    ensures InRange(slots, |cache|) && WriteChunk(t, cache, c) == IndexCopy(cache, slots, rows)
  {
    SlotsOk(t, c.start, |c.rows|);
  }

  lemma SlotsSplit(t: BlockRow, start: nat, n: nat, m: nat)
    requires RowOk(t)
    ensures SlotIds(t.table, t.blockSize, start, n + m) ==
              SlotIds(t.table, t.blockSize, start, n) + SlotIds(t.table, t.blockSize, start + n, m)
    ensures |SlotIds(t.table, t.blockSize, start, n)| < n ==> SlotIds(t.table, t.blockSize, start + n, m) == []
  {
    var whole, left, right := SlotIds(t.table, t.blockSize, start, n + m), SlotIds(t.table, t.blockSize, start, n),
          SlotIds(t.table, t.blockSize, start + n, m);
    forall i | 0 <= i < |whole| ensures whole[i] == (left + right)[i] {
      SlotIdsAt(t.table, t.blockSize, start, n + m, i);
      if i < |left| {
        SlotIdsAt(t.table, t.blockSize, start, n, i);
      } else {
        assert |left| == n;
        SlotIdsAt(t.table, t.blockSize, start + n, m, i - n);
      }
    }
  }

  lemma RowsSplit(a: seq<Row>, b: seq<Row>, n: nat, m: nat)
    requires n <= |a| && m <= |b| && (n < |a| ==> m == 0)
    ensures (a + b)[..n + m] == a[..n] + b[..m]
  {
  }

  /** Chunks that touch each other may be written as one. */
  lemma WriteAdjacent(t: BlockRow, cache: seq<Row>, a: Chunk, b: Chunk)
    requires RowOk(t) && |cache| == CacheSize(t) && RangeOk(t, a.start, |a.rows|) && RangeOk(t, b.start, |b.rows|)
    requires b.start == a.start + |a.rows|
    ensures RangeOk(t, a.start, |a.rows + b.rows|)
    ensures WriteChunk(t, cache, Chunk(a.start, a.rows + b.rows)) == WriteChunk(t, WriteChunk(t, cache, a), b)
  {
    RangeJoin(t, a.start, |a.rows|, |b.rows|);
    var sa, sb := SlotIds(t.table, t.blockSize, a.start, |a.rows|), SlotIds(t.table, t.blockSize, b.start, |b.rows|);
    SlotsSplit(t, a.start, |a.rows|, |b.rows|);
    RowsSplit(a.rows, b.rows, |sa|, |sb|);
    WriteChunkIs(t, cache, a, sa, a.rows[..|sa|]);
    WriteChunkIs(t, WriteChunk(t, cache, a), b, sb, b.rows[..|sb|]);
    WriteChunkIs(t, cache, Chunk(a.start, a.rows + b.rows), sa + sb, a.rows[..|sa|] + b.rows[..|sb|]);
    IndexCopyConcat(cache, sa, a.rows[..|sa|], sb, b.rows[..|sb|]);
  }

  /** No token is in both chunks. */
  ghost predicate Disjoint(a: Chunk, b: Chunk) {
    a.start + |a.rows| <= b.start || b.start + |b.rows| <= a.start || a.rows == [] || b.rows == []
  }

  lemma DisjointSlots(t: BlockRow, a: Chunk, b: Chunk)
    requires RowOk(t) && RangeOk(t, a.start, |a.rows|) && RangeOk(t, b.start, |b.rows|) && Disjoint(a, b)
    ensures forall i, j | 0 <= i < |SlotIds(t.table, t.blockSize, a.start, |a.rows|)|
          && 0 <= j < |SlotIds(t.table, t.blockSize, b.start, |b.rows|)| ::
              SlotIds(t.table, t.blockSize, a.start, |a.rows|)[i] != SlotIds(t.table, t.blockSize, b.start, |b.rows|)[j]
  {
    var sa, sb := SlotIds(t.table, t.blockSize, a.start, |a.rows|), SlotIds(t.table, t.blockSize, b.start, |b.rows|);
    forall i, j | 0 <= i < |sa| && 0 <= j < |sb| ensures sa[i] != sb[j] {
      SlotIdsAt(t.table, t.blockSize, a.start, |a.rows|, i);
      SlotIdsAt(t.table, t.blockSize, b.start, |b.rows|, j);
      assert PosOk(t, a.start + i) && PosOk(t, b.start + j);
      if sa[i] == sb[j] {
        SlotInjective(t, a.start + i, b.start + j);
      }
    }
  }

  /** Chunks of different tokens commute. */
  lemma WriteCommutes(t: BlockRow, cache: seq<Row>, a: Chunk, b: Chunk)
    requires RowOk(t) && |cache| == CacheSize(t) && RangeOk(t, a.start, |a.rows|) && RangeOk(t, b.start, |b.rows|)
    requires Disjoint(a, b)
    ensures WriteChunk(t, WriteChunk(t, cache, a), b) == WriteChunk(t, WriteChunk(t, cache, b), a)
  {
    var sa, sb := SlotIds(t.table, t.blockSize, a.start, |a.rows|), SlotIds(t.table, t.blockSize, b.start, |b.rows|);
    var wa, wb := WriteChunk(t, cache, a), WriteChunk(t, cache, b);
    var ab, ba := WriteChunk(t, wa, b), WriteChunk(t, wb, a);
    DisjointSlots(t, a, b);
    forall x | 0 <= x < |cache| ensures ab[x] == ba[x] {
      if i :| 0 <= i < |sa| && sa[i] == x {
        WriteChunkAt(t, cache, a, i);
        WriteChunkAt(t, wb, a, i);
        WriteChunkElsewhere(t, wa, b, x);
      } else if j :| 0 <= j < |sb| && sb[j] == x {
        WriteChunkAt(t, cache, b, j);
        WriteChunkAt(t, wa, b, j);
        WriteChunkElsewhere(t, wb, a, x);
      } else {
        WriteChunkElsewhere(t, cache, a, x);
        WriteChunkElsewhere(t, cache, b, x);
        WriteChunkElsewhere(t, wa, b, x);
        WriteChunkElsewhere(t, wb, a, x);
      }
    }
  }

  // ---- lists of chunks ----

  ghost predicate ChunksOk(t: BlockRow, cs: seq<Chunk>)
    requires RowOk(t)
  {
    forall c | c in cs :: RangeOk(t, c.start, |c.rows|)
  }

  /** Each chunk written alone, in list order. */
  ghost function WriteAll(t: BlockRow, cache: seq<Row>, cs: seq<Chunk>): (r: seq<Row>)
    requires RowOk(t) && |cache| == CacheSize(t) && ChunksOk(t, cs)
    ensures |r| == |cache|
    decreases |cs|
  {
    if cs == [] then cache
    else WriteAll(t, WriteChunk(t, cache, cs[0]), cs[1..])
  }

  lemma {:induction false} WriteAllSnoc(t: BlockRow, cache: seq<Row>, cs: seq<Chunk>, c: Chunk)
    requires RowOk(t) && |cache| == CacheSize(t) && ChunksOk(t, cs + [c])
    ensures ChunksOk(t, cs) && RangeOk(t, c.start, |c.rows|)
    ensures WriteAll(t, cache, cs + [c]) == WriteChunk(t, WriteAll(t, cache, cs), c)
    decreases |cs|
  {
    assert c in cs + [c];
    assert ChunksOk(t, cs) by {
      forall x | x in cs ensures RangeOk(t, x.start, |x.rows|) { assert x in cs + [c]; }
    }
    if cs == [] {
      assert WriteAll(t, WriteChunk(t, cache, c), [c][1..]) == WriteChunk(t, cache, c);
      assert cs + [c] == [c];
    } else {
      assert (cs + [c])[1..] == cs[1..] + [c];
      WriteAllSnoc(t, WriteChunk(t, cache, cs[0]), cs[1..], c);
    }
  }

  // ---- sorted(chunks, key=start) ----

  function Insert(c: Chunk, cs: seq<Chunk>): seq<Chunk> {
    if cs == [] || c.start <= cs[0].start then [c] + cs else [cs[0]] + Insert(c, cs[1..])
  }

  /** The stable sort by start. */
  function SortByStart(cs: seq<Chunk>): seq<Chunk> {
    if cs == [] then [] else Insert(cs[0], SortByStart(cs[1..]))
  }

  ghost predicate Sorted(cs: seq<Chunk>) {
    |cs| <= 1 || (cs[0].start <= cs[1].start && Sorted(cs[1..]))
  }

  /** The chunks of one start, in order. */
  function WithStart(cs: seq<Chunk>, start: nat): seq<Chunk> {
    if cs == [] then [] else (if cs[0].start == start then [cs[0]] else []) + WithStart(cs[1..], start)
  }

  lemma {:induction false} InsertSorts(c: Chunk, cs: seq<Chunk>)
    requires Sorted(cs)
    ensures Sorted(Insert(c, cs))
  {
    if cs != [] && cs[0].start < c.start {
      InsertSorts(c, cs[1..]);
      var rest := Insert(c, cs[1..]);
      assert rest[0] == c || (cs[1..] != [] && rest[0] == cs[1]);
      assert ([cs[0]] + rest)[1..] == rest;
    } else {
      assert ([c] + cs)[1..] == cs;
    }
  }

  lemma {:induction false} InsertKeepsChunks(c: Chunk, cs: seq<Chunk>)
    ensures multiset(Insert(c, cs)) == multiset{c} + multiset(cs)
  {
    if cs != [] && cs[0].start < c.start {
      InsertKeepsChunks(c, cs[1..]);
      assert cs == [cs[0]] + cs[1..];
    }
  }

  lemma {:induction false} InsertIsStable(c: Chunk, cs: seq<Chunk>, start: nat)
    ensures WithStart(Insert(c, cs), start) == WithStart([c] + cs, start)
  {
    if cs == [] || c.start <= cs[0].start {
    } else {
      InsertIsStable(c, cs[1..], start);
      var rest := Insert(c, cs[1..]);
      assert ([cs[0]] + rest)[1..] == rest && ([c] + cs)[1..] == cs && ([c] + cs[1..])[1..] == cs[1..];
    }
  }

  /** SortByStart is what a stable sort returns: sorted, the same chunks, equal starts in their original order. */
  lemma {:induction false} SortByStartIsStable(cs: seq<Chunk>, start: nat)
    ensures Sorted(SortByStart(cs)) && multiset(SortByStart(cs)) == multiset(cs)
    ensures WithStart(SortByStart(cs), start) == WithStart(cs, start)
  {
    if cs != [] {
      var rest := SortByStart(cs[1..]);
      SortByStartIsStable(cs[1..], start);
      InsertSorts(cs[0], rest);
      InsertKeepsChunks(cs[0], rest);
      InsertIsStable(cs[0], rest, start);
      assert ([cs[0]] + rest)[1..] == rest;
      assert cs == [cs[0]] + cs[1..];
    }
  }

  ghost predicate PairwiseDisjoint(cs: seq<Chunk>) {
    forall i, j | 0 <= i < j < |cs| :: Disjoint(cs[i], cs[j])
  }

  lemma {:induction false} InsertWritesTheSame(t: BlockRow, cache: seq<Row>, c: Chunk, cs: seq<Chunk>)
    requires RowOk(t) && |cache| == CacheSize(t) && ChunksOk(t, [c] + cs)
    requires forall x | x in cs :: Disjoint(c, x)
    ensures ChunksOk(t, Insert(c, cs)) && WriteAll(t, cache, Insert(c, cs)) == WriteAll(t, cache, [c] + cs)
    decreases |cs|
  {
    if cs == [] || c.start <= cs[0].start {
    } else {
      assert cs[0] in [c] + cs && c in [c] + cs;
      assert ChunksOk(t, [c] + cs[1..]) by {
        forall x | x in [c] + cs[1..] ensures RangeOk(t, x.start, |x.rows|) { assert x in [c] + cs; }
      }
      InsertWritesTheSame(t, WriteChunk(t, cache, cs[0]), c, cs[1..]);
      assert ([cs[0]] + Insert(c, cs[1..]))[1..] == Insert(c, cs[1..]);
      assert ([c] + cs)[1..] == cs && ([c] + cs[1..])[1..] == cs[1..];
      WriteCommutes(t, cache, c, cs[0]);
    }
  }

  /** For pairwise disjoint chunks the staging order does not matter: sorted or as staged, they write the same. */
  lemma {:induction false} SortWritesTheSame(t: BlockRow, cache: seq<Row>, cs: seq<Chunk>)
    requires RowOk(t) && |cache| == CacheSize(t) && ChunksOk(t, cs) && PairwiseDisjoint(cs)
    ensures ChunksOk(t, SortByStart(cs)) && WriteAll(t, cache, SortByStart(cs)) == WriteAll(t, cache, cs)
    decreases |cs|
  {
    if cs != [] {
      var rest := cs[1..];
      assert ChunksOk(t, rest) && PairwiseDisjoint(rest);
      SortWritesTheSame(t, WriteChunk(t, cache, cs[0]), rest);
      var sorted := SortByStart(rest);
      SortByStartIsStable(rest, 0);
      forall x | x in sorted ensures Disjoint(cs[0], x) && RangeOk(t, x.start, |x.rows|) {
        assert x in multiset(sorted);
        var j :| 0 <= j < |rest| && rest[j] == x;
        assert Disjoint(cs[0], cs[j + 1]);
      }
      InsertWritesTheSame(t, cache, cs[0], sorted);
      assert ([cs[0]] + sorted)[1..] == sorted;
    }
  }
}
