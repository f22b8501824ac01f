/** Flat row caches: row scatter, slot arithmetic, and what a list of token chunks writes. */
module CacheRows {
  import opened Layout

  /** One token's feature vector. */
  type Row = seq<real>

  function Zeros(n: nat, width: nat): (r: seq<Row>)
    ensures |r| == n
  {
    seq(n, _ => seq(width, _ => 0.0))
  }

  ghost predicate InRange(slots: seq<nat>, n: nat) {
    forall i | 0 <= i < |slots| :: slots[i] < n
  }

  ghost predicate Distinct(slots: seq<nat>) {
    forall i, j | 0 <= i < j < |slots| :: slots[i] != slots[j]
  }

  /** Row scatter: row i of src goes to slot i, in order. */
  ghost function IndexCopy(cache: seq<Row>, slots: seq<nat>, src: seq<Row>): (r: seq<Row>)
    requires |slots| == |src| && InRange(slots, |cache|)
    ensures |r| == |cache|
    decreases |slots|
  {
    if slots == [] then cache
    else IndexCopy(cache[slots[0] := src[0]], slots[1..], src[1..])
  }

  lemma {:induction false} IndexCopyConcat(cache: seq<Row>, slots: seq<nat>, src: seq<Row>, slots': seq<nat>,
                                           src': seq<Row>)
    requires |slots| == |src| && |slots'| == |src'| && InRange(slots, |cache|) && InRange(slots', |cache|)
    ensures InRange(slots + slots', |cache|)
    ensures IndexCopy(cache, slots + slots', src + src') == IndexCopy(IndexCopy(cache, slots, src), slots', src')
    decreases |slots|
  {
    if slots == [] {
      assert slots + slots' == slots' && src + src' == src';
    } else {
      assert (slots + slots')[1..] == slots[1..] + slots' && (src + src')[1..] == src[1..] + src';
      IndexCopyConcat(cache[slots[0] := src[0]], slots[1..], src[1..], slots', src');
    }
  }

  /** A slot that is not written keeps its row. */
  lemma {:induction false} IndexCopyElsewhere(cache: seq<Row>, slots: seq<nat>, src: seq<Row>, c: nat)
    requires |slots| == |src| && InRange(slots, |cache|) && c < |cache| && c !in slots
    ensures IndexCopy(cache, slots, src)[c] == cache[c]
    decreases |slots|
  {
    if slots != [] {
      IndexCopyElsewhere(cache[slots[0] := src[0]], slots[1..], src[1..], c);
    }
  }

  /** With distinct slots, slot i holds row i. */
  lemma {:induction false} IndexCopyAt(cache: seq<Row>, slots: seq<nat>, src: seq<Row>, i: nat)
    requires |slots| == |src| && InRange(slots, |cache|) && Distinct(slots) && i < |slots|
    ensures IndexCopy(cache, slots, src)[slots[i]] == src[i]
    decreases |slots|
  {
    var cache' := cache[slots[0] := src[0]];
    if i == 0 {
      forall j | 0 <= j < |slots[1..]| ensures slots[1..][j] != slots[0] {
        assert slots[1..][j] == slots[j + 1];
      }
      IndexCopyElsewhere(cache', slots[1..], src[1..], slots[0]);
    } else {
      IndexCopyAt(cache', slots[1..], src[1..], i - 1);
    }
  }

  /** index_copy_ on a cache tensor viewed as rows; the slots are distinct, so the order of the row stores is free. */
  method IndexCopyInPlace(flat: array<Row>, slots: seq<nat>, src: seq<Row>)
    requires |slots| == |src| && InRange(slots, flat.Length) && Distinct(slots)
    modifies flat
    ensures flat[..] == IndexCopy(old(flat[..]), slots, src)
  {
    forall i | 0 <= i < |slots| {
      flat[slots[i]] := src[i];
    }
    ghost var was := old(flat[..]);
    forall c | 0 <= c < flat.Length ensures flat[c] == IndexCopy(was, slots, src)[c] {
      if i :| 0 <= i < |slots| && slots[i] == c {
        IndexCopyAt(was, slots, src, i);
      } else {
        IndexCopyElsewhere(was, slots, src, c);
      }
    }
  }

  // ---- slots of logical tokens ----

  /** pos // blockSize, by counting blocks. */
  function BlockOf(pos: nat, blockSize: nat): nat
    requires 0 < blockSize
  {
    if pos < blockSize then 0 else 1 + BlockOf(pos - blockSize, blockSize)
  }

  /** pos % blockSize */
  function OffsetOf(pos: nat, blockSize: nat): (r: nat)
    requires 0 < blockSize
    ensures r < blockSize
  {
    if pos < blockSize then pos else OffsetOf(pos - blockSize, blockSize)
  }

  lemma {:induction false} BlockAndOffset(pos: nat, blockSize: nat)
    requires 0 < blockSize
    ensures Index(BlockOf(pos, blockSize), blockSize, OffsetOf(pos, blockSize)) == pos
  {
    if pos >= blockSize {
      BlockAndOffset(pos - blockSize, blockSize);
    }
  }

  /** The cache slot of a token position, through a row of the block table: block id * blockSize + offset. */
  function Slot(table: seq<nat>, blockSize: nat, pos: nat): nat
    requires 0 < blockSize && BlockOf(pos, blockSize) < |table|
  {
    Index(table[BlockOf(pos, blockSize)], blockSize, OffsetOf(pos, blockSize))
  }

  lemma QuotientAndRemainder(pos: nat, blockSize: nat)
    requires 0 < blockSize
    ensures BlockOf(pos, blockSize) == pos / blockSize && OffsetOf(pos, blockSize) == pos % blockSize
  {
    var q, r := pos / blockSize, pos % blockSize;
    assert q * blockSize + r == pos;
    IndexValue(q, blockSize, r);
    BlockAndOffset(pos, blockSize);
    IndexInjective(BlockOf(pos, blockSize), OffsetOf(pos, blockSize), q, r, blockSize);
  }

  /** Slot is the tensor arithmetic of the source. */
  lemma SlotIsArithmetic(table: seq<nat>, blockSize: nat, pos: nat)
    requires 0 < blockSize && BlockOf(pos, blockSize) < |table|
    ensures pos / blockSize < |table|
            && Slot(table, blockSize, pos) == table[pos / blockSize] * blockSize + pos % blockSize
  {
    QuotientAndRemainder(pos, blockSize);
    IndexValue(table[BlockOf(pos, blockSize)], blockSize, OffsetOf(pos, blockSize));
  }

  /** The boolean-mask index: keeps the positions whose block is in the table. */
  function InTable(positions: seq<nat>, blockSize: nat, maxBlocks: nat): seq<nat>
    requires 0 < blockSize
  {
    if positions == [] then []
    else (if BlockOf(positions[0], blockSize) < maxBlocks then [positions[0]] else []) +
          InTable(positions[1..], blockSize, maxBlocks)
  }

  function Arange(start: nat, n: nat): (r: seq<nat>)
    ensures |r| == n && forall i | 0 <= i < n :: r[i] == start + i
  {
    seq(n, i requires 0 <= i < n => start + i)
  }

  /** How many of the n tokens from start on have a block in the table. */
  function Fitting(maxBlocks: nat, blockSize: nat, start: nat, n: nat): (r: nat)
    ensures r <= n
  {
    var capacity := Index(maxBlocks, blockSize, 0);
    if capacity <= start then 0
    else if start + n <= capacity then n
    else capacity - start
  }

  lemma {:induction false} BlockInTable(maxBlocks: nat, blockSize: nat, pos: nat)
    requires 0 < blockSize
    ensures BlockOf(pos, blockSize) < maxBlocks <==> pos < Index(maxBlocks, blockSize, 0)
  {
    if pos >= blockSize && maxBlocks > 0 {
      BlockInTable(maxBlocks - 1, blockSize, pos - blockSize);
    }
  }

  lemma ArangeCons(start: nat, n: nat)
    ensures [start] + Arange(start + 1, n) == Arange(start, n + 1)
  {
  }

  /** Dropping the positions outside the table keeps a prefix of the token range. */
  lemma {:induction false} InTableIsPrefix(maxBlocks: nat, blockSize: nat, start: nat, n: nat)
    requires 0 < blockSize
    ensures InTable(Arange(start, n), blockSize, maxBlocks) == Arange(start, Fitting(maxBlocks, blockSize, start, n))
    decreases n
  {
    if n > 0 {
      BlockInTable(maxBlocks, blockSize, start);
      ArangeCons(start, n - 1);
      InTableIsPrefix(maxBlocks, blockSize, start + 1, n - 1);
      var k := Fitting(maxBlocks, blockSize, start + 1, n - 1);
      if BlockOf(start, blockSize) < maxBlocks {
        ArangeCons(start, k);
      }
    }
  }

  lemma AllInTable(maxBlocks: nat, blockSize: nat, start: nat, n: nat)
    requires 0 < blockSize
    ensures forall i | 0 <= i < |InTable(Arange(start, n), blockSize, maxBlocks)| ::
              BlockOf(InTable(Arange(start, n), blockSize, maxBlocks)[i], blockSize) < maxBlocks
  {
    InTableIsPrefix(maxBlocks, blockSize, start, n);
    var positions := InTable(Arange(start, n), blockSize, maxBlocks);
    forall i | 0 <= i < |positions| ensures BlockOf(positions[i], blockSize) < maxBlocks {
      BlockInTable(maxBlocks, blockSize, positions[i]);
    }
  }

  /** _get_slot_ids_for_token_range, for one row of the block table. */
  function SlotIds(table: seq<nat>, blockSize: nat, start: nat, n: nat): (r: seq<nat>)
    requires 0 < blockSize
    ensures |r| == Fitting(|table|, blockSize, start, n)
  {
    InTableIsPrefix(|table|, blockSize, start, n);
    var positions := InTable(Arange(start, n), blockSize, |table|);
    AllInTable(|table|, blockSize, start, n);
    seq(|positions|, i requires 0 <= i < |positions| => Slot(table, blockSize, positions[i]))
  }

  /** Slot i belongs to token start + i. */
  lemma SlotIdsAt(table: seq<nat>, blockSize: nat, start: nat, n: nat, i: nat)
    requires 0 < blockSize && i < |SlotIds(table, blockSize, start, n)|
    ensures BlockOf(start + i, blockSize) < |table|
            && SlotIds(table, blockSize, start, n)[i] == Slot(table, blockSize, start + i)
  {
    InTableIsPrefix(|table|, blockSize, start, n);
    AllInTable(|table|, blockSize, start, n);
    var positions := InTable(Arange(start, n), blockSize, |table|);
    assert positions[i] == start + i;
  }
}
