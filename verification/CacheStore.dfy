/** The prefix cache as a value: the hidden-state rows and one row table per multimodal key, and what each
    write route does to them. */
module CacheStore {
  import opened Collections
  import opened Layout
  import opened CacheRows
  import opened DeferredChunks
  import opened Options

  datatype Store = Store(hidden: seq<Row>, mm: map<string, seq<Row>>)

  /** All tables have the same number of slots. */
  ghost predicate StoreOk(st: Store) {
    forall k | k in st.mm :: |st.mm[k]| == |st.hidden|
  }

  /** A multimodal output: a tensor with one row per token, or anything else (a list, a scalar, a 1-D tensor). */
  datatype Output = Tokens(rows: seq<Row>, width: nat) | Other

  /** One forward step's outputs. slots covers at least the n unpadded tokens. */
  datatype Step = Step(hidden: Option<seq<Row>>, outputs: map<string, Output>, slots: seq<nat>, n: nat, padded: nat,
                       skip: set<string>)

  predicate Cacheable(o: Output, seqLen: nat) {
    o.Tokens? && |o.rows| == seqLen
  }

  /** maybe_init_missing_mm_cache_keys */
  function InitKeys(st: Store, outputs: map<string, Output>, seqLen: nat): Store {
    st.(mm := map k | k in st.mm.Keys + outputs.Keys && (k in st.mm || Cacheable(outputs[k], seqLen)) ::
                if k in st.mm then st.mm[k] else Zeros(|st.hidden|, outputs[k].width))
  }

  /** Rows on their way into the cache; row i of every table goes to slots[i]. */
  datatype Write = Write(slots: seq<nat>, hidden: Option<seq<Row>>, mm: map<string, seq<Row>>)

  ghost predicate WriteOk(w: Write, size: nat) {
    && InRange(w.slots, size) && Distinct(w.slots)
    && (w.hidden.Some? ==> |w.hidden.value| == |w.slots|)
    && forall k | k in w.mm :: |w.mm[k]| == |w.slots|
  }

  ghost function Apply(st: Store, w: Write): (r: Store)
    requires StoreOk(st) && WriteOk(w, |st.hidden|)
    ensures StoreOk(r) && |r.hidden| == |st.hidden| && r.mm.Keys == st.mm.Keys
  {
    Store(if w.hidden.Some? then IndexCopy(st.hidden, w.slots, w.hidden.value) else st.hidden,
          map k | k in st.mm :: if k in w.mm then IndexCopy(st.mm[k], w.slots, w.mm[k]) else st.mm[k])
  }

  // ---- what a write and a new table are, slot by slot ----

  /** Every row is in its slot, and every other slot is as before; without rows nothing changes. */
  ghost predicate RowsLanded(before: seq<Row>, slots: seq<nat>, rows: Option<seq<Row>>, after: seq<Row>) {
    && |after| == |before|
    && (rows == None ==> after == before)
    && (rows.Some? ==>
          && |rows.value| == |slots|
          && (forall i | 0 <= i < |slots| :: slots[i] < |after| && after[slots[i]] == rows.value[i])
          && forall c | 0 <= c < |before| && c !in slots :: after[c] == before[c])
  }

  /** The write has reached the hidden states and each of its tables; no other table has changed. */
  ghost predicate Landed(before: Store, w: Write, after: Store) {
    && after.mm.Keys == before.mm.Keys
    && RowsLanded(before.hidden, w.slots, w.hidden, after.hidden)
    && forall k | k in before.mm ::
         RowsLanded(before.mm[k], w.slots, if k in w.mm then Some(w.mm[k]) else None, after.mm[k])
  }

  lemma CopyLands(cache: seq<Row>, slots: seq<nat>, src: seq<Row>)
    requires |slots| == |src| && InRange(slots, |cache|) && Distinct(slots)
    ensures RowsLanded(cache, slots, Some(src), IndexCopy(cache, slots, src))
  {
    var after := IndexCopy(cache, slots, src);
    forall i | 0 <= i < |slots| ensures after[slots[i]] == src[i] {
      IndexCopyAt(cache, slots, src, i);
    }
    forall c | 0 <= c < |cache| && c !in slots ensures after[c] == cache[c] {
      IndexCopyElsewhere(cache, slots, src, c);
    }
  }

  lemma ApplyLands(st: Store, w: Write)
    requires StoreOk(st) && WriteOk(w, |st.hidden|)
    ensures Landed(st, w, Apply(st, w))
  {
    if w.hidden.Some? {
      CopyLands(st.hidden, w.slots, w.hidden.value);
    }
    forall k | k in st.mm && k in w.mm
      ensures RowsLanded(st.mm[k], w.slots, Some(w.mm[k]), IndexCopy(st.mm[k], w.slots, w.mm[k]))
    {
      CopyLands(st.mm[k], w.slots, w.mm[k]);
    }
  }

  /** A table of zeros. */
  ghost predicate ZeroTable(table: seq<Row>, size: nat, width: nat) {
    |table| == size
    && forall c | 0 <= c < |table| :: |table[c]| == width && forall j | 0 <= j < width :: table[c][j] == 0.0
  }

  /** A key has a table if it had one, or if its output is a tensor with one row per token of the step; the old tables
      are as before, and the new ones hold zeros. */
  ghost predicate TablesAdded(before: Store, outputs: map<string, Output>, seqLen: nat, after: Store) {
    && after.hidden == before.hidden
    && (forall k :: k in after.mm <==>
                    k in before.mm || (k in outputs && outputs[k].Tokens? && |outputs[k].rows| == seqLen))
    && (forall k | k in before.mm :: after.mm[k] == before.mm[k])
    && forall k | k in after.mm && k !in before.mm :: ZeroTable(after.mm[k], |before.hidden|, outputs[k].width)
  }

  lemma InitKeysAdds(st: Store, outputs: map<string, Output>, seqLen: nat)
    ensures TablesAdded(st, outputs, seqLen, InitKeys(st, outputs, seqLen))
  {
  }

  /** Covers the unpadded tokens. */
  predicate Covers(o: Output, n: nat) {
    o.Tokens? && n <= |o.rows|
  }

  /** The rows a step writes, given the keys that have a table. */
  function StepWrite(keys: set<string>, step: Step): Write
    requires step.n <= |step.slots| && (step.hidden.Some? ==> step.n <= |step.hidden.value|)
  {
    Write(step.slots[..step.n],
          if step.hidden.Some? then Some(step.hidden.value[..step.n]) else None,
          map k | k in keys && k in step.outputs && k !in step.skip && Covers(step.outputs[k], step.n) ::
                step.outputs[k].rows[..step.n])
  }

  /** What a step assumes of its caller: slots of the unpadded tokens exist and differ, and the hidden states cover
      them. */
  ghost predicate StepOk(step: Step, size: nat) {
    && step.n <= |step.slots| && InRange(step.slots[..step.n], size) && Distinct(step.slots[..step.n])
    && (step.hidden.Some? ==> step.n <= |step.hidden.value|)
  }

  /** Every multimodal output that has a table and is not skipped covers the unpadded tokens. */
  ghost predicate OutputsCover(keys: set<string>, step: Step) {
    forall k | k in keys && k in step.outputs && k !in step.skip :: Covers(step.outputs[k], step.n)
  }

  // ---- one key at a time ----

  lemma InitOneMore(st: Store, outputs: map<string, Output>, seqLen: nat, done: set<string>, key: string)
    requires key in outputs && key !in done
    ensures var before := InitKeys(st, Restrict(outputs, done), seqLen);
            InitKeys(st, Restrict(outputs, done + {key}), seqLen) ==
            if Cacheable(outputs[key], seqLen) && key !in before.mm
            then before.(mm := before.mm[key := Zeros(|st.hidden|, outputs[key].width)]) else before
  {
  }

  lemma ApplyOneMore(st: Store, slots: seq<nat>, rows: map<string, seq<Row>>, done: set<string>, key: string)
    requires StoreOk(st) && WriteOk(Write(slots, None, rows), |st.hidden|)
    requires key in rows && key in st.mm && key !in done
    ensures var before := Apply(st, Write(slots, None, Restrict(rows, done)));
            Apply(st, Write(slots, None, Restrict(rows, done + {key}))) ==
            before.(mm := before.mm[key := IndexCopy(before.mm[key], slots, rows[key])])
  {
  }

  // ---- the synchronous route ----

  ghost function SyncStep(st: Store, step: Step): (r: Store)
    requires StoreOk(st) && StepOk(step, |st.hidden|)
    ensures StoreOk(r) && |r.hidden| == |st.hidden|
  {
    var st' := InitKeys(st, step.outputs, step.padded);
    Apply(st', StepWrite(st'.mm.Keys, step))
  }

  /** What a step writes into the tables there are: the hidden states and, for every key that is not skipped, the
      tensor's rows, if it has a row for every unpadded token. */
  ghost predicate IsStepWrite(keys: set<string>, step: Step, w: Write)
    requires step.n <= |step.slots| && (step.hidden.Some? ==> step.n <= |step.hidden.value|)
  {
    && w.slots == step.slots[..step.n]
    && w.hidden == (if step.hidden.Some? then Some(step.hidden.value[..step.n]) else None)
    && (forall k :: k in w.mm <==> k in keys && k in step.outputs && k !in step.skip
                                   && step.outputs[k].Tokens? && step.n <= |step.outputs[k].rows|)
    && forall k | k in w.mm :: w.mm[k] == step.outputs[k].rows[..step.n]
  }

  /** A synchronous step, slot by slot: the new tables, then every row of the step in its slot. */
  lemma SyncStepLands(st: Store, step: Step)
    requires StoreOk(st) && StepOk(step, |st.hidden|)
    ensures exists mid, w ::
              && TablesAdded(st, step.outputs, step.padded, mid) && IsStepWrite(mid.mm.Keys, step, w)
              && Landed(mid, w, SyncStep(st, step))
  {
    var mid := InitKeys(st, step.outputs, step.padded);
    InitKeysAdds(st, step.outputs, step.padded);
    assert IsStepWrite(mid.mm.Keys, step, StepWrite(mid.mm.Keys, step));
    ApplyLands(mid, StepWrite(mid.mm.Keys, step));
  }

  // ---- the asynchronous route ----

  /** The cache and at most one write in flight. */
  datatype Async = Async(store: Store, pending: Option<Write>)

  ghost predicate AsyncOk(a: Async) {
    && StoreOk(a.store)
    && (a.pending.Some? ==>
          WriteOk(a.pending.value, |a.store.hidden|) && a.pending.value.mm.Keys <= a.store.mm.Keys)
  }

  /** _consume_pending_write */
  ghost function Consume(a: Async): (r: Async)
    requires AsyncOk(a)
    ensures AsyncOk(r) && r.pending == None && |r.store.hidden| == |a.store.hidden|
  {
    if a.pending.Some? then Async(Apply(a.store, a.pending.value), None) else a
  }

  /** schedule_async_write: new tables first, then the previous write, then this step's copy is put in flight. */
  ghost function Schedule(a: Async, step: Step): (r: Async)
    requires AsyncOk(a) && StepOk(step, |a.store.hidden|)
    ensures AsyncOk(r) && |r.store.hidden| == |a.store.hidden|
  {
    var st := InitKeys(a.store, step.outputs, step.padded);
    var w := StepWrite(st.mm.Keys, step);
    var consumed := Consume(Async(st, a.pending)).store;
    Async(consumed, if w.hidden == None && w.mm == map[] then None else Some(w))
  }

  lemma ScheduleIs(a: Async, step: Step, rows: map<string, seq<Row>>)
    requires AsyncOk(a) && StepOk(step, |a.store.hidden|)
    requires rows == StepWrite(InitKeys(a.store, step.outputs, step.padded).mm.Keys, step).mm
    ensures forall k | k in rows :: |rows[k]| == step.n
    ensures Schedule(a, step).store == Consume(Async(InitKeys(a.store, step.outputs, step.padded), a.pending)).store
    ensures Schedule(a, step).pending == if step.hidden == None && rows == map[] then None
      else Some(Write(step.slots[..step.n],
                      if step.hidden.Some? then Some(step.hidden.value[..step.n]) else None, rows))
  {
  }

  /** A scheduled step, slot by slot: the new tables, then the earlier write in its slots; the step's own rows are in
      flight, if it has any. */
  lemma ScheduleLands(a: Async, step: Step)
    requires AsyncOk(a) && StepOk(step, |a.store.hidden|)
    ensures exists mid, w ::
              && TablesAdded(a.store, step.outputs, step.padded, mid) && IsStepWrite(mid.mm.Keys, step, w)
              && (if a.pending.Some? then Landed(mid, a.pending.value, Schedule(a, step).store)
                  else Schedule(a, step).store == mid)
              && Schedule(a, step).pending == if step.hidden == None && w.mm == map[] then None else Some(w)
  {
    var mid := InitKeys(a.store, step.outputs, step.padded);
    InitKeysAdds(a.store, step.outputs, step.padded);
    assert IsStepWrite(mid.mm.Keys, step, StepWrite(mid.mm.Keys, step));
    if a.pending.Some? {
      ApplyLands(mid, a.pending.value);
    }
  }

  /** drain_ready_async_writes */
  ghost function Drain(a: Async, ready: bool): (r: Async)
    requires AsyncOk(a)
    ensures AsyncOk(r) && |r.store.hidden| == |a.store.hidden|
  {
    if ready then Consume(a) else a
  }

  /** A drain applies a ready write and clears it; an unready one stays in flight. */
  lemma DrainLands(a: Async, ready: bool)
    requires AsyncOk(a)
    ensures a.pending == None || !ready ==> Drain(a, ready) == a
    ensures a.pending.Some? && ready ==>
              Drain(a, ready).pending == None && Landed(a.store, a.pending.value, Drain(a, ready).store)
  {
    if a.pending.Some? {
      ApplyLands(a.store, a.pending.value);
    }
  }

  // ---- the deferred route ----

  function Kept(c: Chunk): (r: seq<Chunk>)
    ensures forall x | x in r :: x.rows != []
  {
    if c.rows == [] then [] else [c]
  }

  function NonEmpty(cs: seq<Chunk>): (r: seq<Chunk>)
    ensures forall c | c in r :: c.rows != []
  {
    if cs == [] then [] else Kept(cs[0]) + NonEmpty(cs[1..])
  }

  /** The non-empty chunks in the order they are written. */
  function CommitOrder(chunks: seq<Chunk>): (r: seq<Chunk>)
    ensures forall c | c in r :: c.rows != []
  {
    NonEmpty(SortByStart(chunks))
  }

  lemma {:induction false} NonEmptyIn(cs: seq<Chunk>, c: Chunk)
    requires c in NonEmpty(cs)
    ensures c in cs
  {
    if c != cs[0] {
      NonEmptyIn(cs[1..], c);
    }
  }

  lemma {:induction false} SortedBound(cs: seq<Chunk>, c: Chunk)
    requires Sorted(cs) && c in cs
    ensures cs[0].start <= c.start
  {
    if c != cs[0] {
      SortedBound(cs[1..], c);
    }
  }

  lemma {:induction false} NonEmptySorted(cs: seq<Chunk>)
    requires Sorted(cs)
    ensures forall i, j | 0 <= i < j < |NonEmpty(cs)| :: NonEmpty(cs)[i].start <= NonEmpty(cs)[j].start
  {
    if cs != [] {
      var rest := NonEmpty(cs[1..]);
      NonEmptySorted(cs[1..]);
      forall j | 0 <= j < |rest| ensures cs[0].start <= rest[j].start {
        NonEmptyIn(cs[1..], rest[j]);
        SortedBound(cs, rest[j]);
      }
    }
  }

  lemma {:induction false} NonEmptyWithStart(cs: seq<Chunk>, start: nat)
    ensures WithStart(NonEmpty(cs), start) == NonEmpty(WithStart(cs, start))
  {
    if cs != [] {
      NonEmptyWithStart(cs[1..], start);
      var rest, same := NonEmpty(cs[1..]), WithStart(cs[1..], start);
      assert ([cs[0]] + rest)[1..] == rest && ([cs[0]] + same)[1..] == same;
      assert [] + rest == rest && [] + same == same;
    }
  }

  lemma {:induction false} NonEmptyHas(cs: seq<Chunk>, c: Chunk)
    requires c in cs && c.rows != []
    ensures c in NonEmpty(cs)
  {
    if c != cs[0] {
      NonEmptyHas(cs[1..], c);
    }
  }

  /** CommitOrder drops the empty chunks and nothing else, and sorts by start; chunks of one start stay in staging
      order. */
  lemma CommitOrderIs(chunks: seq<Chunk>, start: nat)
    ensures var cs := CommitOrder(chunks);
            && (forall c :: c in cs <==> c in chunks && c.rows != [])
            && (forall i, j | 0 <= i < j < |cs| :: cs[i].start <= cs[j].start)
            && WithStart(cs, start) == NonEmpty(WithStart(chunks, start))
  {
    var sorted := SortByStart(chunks);
    SortByStartIsStable(chunks, start);
    forall c ensures c in CommitOrder(chunks) <==> c in chunks && c.rows != [] {
      assert c in multiset(sorted) <==> c in multiset(chunks);
      if c in sorted && c.rows != [] {
        NonEmptyHas(sorted, c);
      }
      if c in CommitOrder(chunks) {
        NonEmptyIn(sorted, c);
      }
    }
    NonEmptySorted(sorted);
    NonEmptyWithStart(sorted, start);
  }

  ghost predicate CommitOk(t: BlockRow, chunks: seq<Chunk>, size: nat) {
    RowOk(t) && CacheSize(t) == size && ChunksOk(t, CommitOrder(chunks))
  }

  function TableBefore(st: Store, key: string, width: nat): seq<Row> {
    if key in st.mm then st.mm[key] else Zeros(|st.hidden|, width)
  }

  /** A key's table, created if need be, with the chunks written. */
  ghost function TableAfter(t: BlockRow, st: Store, key: string, cs: seq<Chunk>): (r: seq<Row>)
    requires StoreOk(st) && RowOk(t) && CacheSize(t) == |st.hidden| && ChunksOk(t, cs) && cs != [] && cs[0].rows != []
    ensures |r| == |st.hidden|
  {
    WriteAll(t, TableBefore(st, key, |cs[0].rows[0]|), cs)
  }

  /** CommitKey, for chunks that are already in order and non-empty. */
  ghost function CommitInOrder(t: BlockRow, st: Store, key: string, cs: seq<Chunk>): (r: Store)
    requires StoreOk(st) && RowOk(t) && CacheSize(t) == |st.hidden| && ChunksOk(t, cs)
             && forall c | c in cs :: c.rows != []
    ensures StoreOk(r) && r.hidden == st.hidden
  {
    if cs == [] then st else st.(mm := st.mm[key := TableAfter(t, st, key, cs)])
  }

  /** Committing one key of one request: its table is created if need be, then each chunk is written, by start. */
  ghost function CommitKey(t: BlockRow, st: Store, key: string, chunks: seq<Chunk>): (r: Store)
    requires StoreOk(st) && CommitOk(t, chunks, |st.hidden|)
    ensures StoreOk(r) && r.hidden == st.hidden
  {
    CommitInOrder(t, st, key, CommitOrder(chunks))
  }

  /** What committing a key changes: the key's own table, if any chunk has rows. The chunks are written over base: the
      key's table, or zeros as wide as the first row that is written. */
  lemma CommitKeyIs(t: BlockRow, st: Store, key: string, chunks: seq<Chunk>) returns (base: seq<Row>)
    requires StoreOk(st) && CommitOk(t, chunks, |st.hidden|)
    ensures CommitOrder(chunks) == [] <==> forall c | c in chunks :: c.rows == []
    ensures CommitOrder(chunks) == [] ==> CommitKey(t, st, key, chunks) == st
    ensures CommitOrder(chunks) != [] ==>
              && |base| == |st.hidden|
              && (if key in st.mm then base == st.mm[key]
                  else ZeroTable(base, |st.hidden|, |CommitOrder(chunks)[0].rows[0]|))
              && CommitKey(t, st, key, chunks) == st.(mm := st.mm[key := WriteAll(t, base, CommitOrder(chunks))])
  {
    CommitOrderIs(chunks, 0);
    var cs := CommitOrder(chunks);
    if cs == [] {
      base := [];
    } else {
      assert cs[0] in cs;
      base := TableBefore(st, key, |cs[0].rows[0]|);
    }
  }

  /** The hidden states first, then the tables: the same write. */
  lemma ApplyHiddenFirst(st: Store, w: Write)
    requires StoreOk(st) && WriteOk(w, |st.hidden|)
    ensures Apply(Apply(st, Write(w.slots, w.hidden, map[])), Write(w.slots, None, w.mm)) == Apply(st, w)
  {
  }

  /** Writing hidden states and adding tables commute. */
  lemma HiddenThenInit(st: Store, slots: seq<nat>, hidden: Option<seq<Row>>, outputs: map<string, Output>, seqLen: nat)
    requires StoreOk(st) && WriteOk(Write(slots, hidden, map[]), |st.hidden|)
    ensures InitKeys(Apply(st, Write(slots, hidden, map[])), outputs, seqLen) ==
              Apply(InitKeys(st, outputs, seqLen), Write(slots, hidden, map[]))
  {
  }

  lemma EmptyWriteIsNothing(st: Store, w: Write)
    requires StoreOk(st) && WriteOk(w, |st.hidden|) && w.slots == []
    ensures Apply(st, w) == st
  {
  }

  // ---- coalescing ----

  /** The chunks of run lie end to end from first on, and rows are their rows joined. */
  ghost predicate EndToEnd(run: seq<Chunk>, first: nat, rows: seq<Row>) {
    if run == [] then rows == []
    else
      && run[0].start == first
      && run[0].rows <= rows
      && EndToEnd(run[1..], first + |run[0].rows|, rows[|run[0].rows|..])
  }

  lemma {:induction false} EndToEndSnoc(run: seq<Chunk>, first: nat, rows: seq<Row>, c: Chunk)
    requires EndToEnd(run, first, rows) && c.start == first + |rows|
    ensures EndToEnd(run + [c], first, rows + c.rows)
    decreases |run|
  {
    if run == [] {
      assert rows + c.rows == c.rows && c.rows[|c.rows|..] == [];
      assert (run + [c])[1..] == [];
    } else {
      var n := |run[0].rows|;
      assert (run + [c])[1..] == run[1..] + [c] && (rows + c.rows)[n..] == rows[n..] + c.rows;
      EndToEndSnoc(run[1..], first + n, rows[n..], c);
    }
  }

  /** A run of chunks that lie end to end may be written as one chunk. */
  lemma {:induction false} RunWritesAsOne(t: BlockRow, cache: seq<Row>, run: seq<Chunk>, first: nat, rows: seq<Row>)
    requires RowOk(t) && |cache| == CacheSize(t) && ChunksOk(t, run) && EndToEnd(run, first, rows)
    ensures RangeOk(t, first, |rows|) && WriteChunk(t, cache, Chunk(first, rows)) == WriteAll(t, cache, run)
    decreases |run|
  {
    if run != [] {
      var n := |run[0].rows|;
      assert run[0] in run && ChunksOk(t, run[1..]);
      RunWritesAsOne(t, WriteChunk(t, cache, run[0]), run[1..], first + n, rows[n..]);
      assert rows == run[0].rows + rows[n..];
      WriteAdjacent(t, cache, run[0], Chunk(first + n, rows[n..]));
    }
  }

  lemma {:induction false} WriteAllConcat(t: BlockRow, cache: seq<Row>, a: seq<Chunk>, b: seq<Chunk>)
    requires RowOk(t) && |cache| == CacheSize(t) && ChunksOk(t, a) && ChunksOk(t, b)
    ensures ChunksOk(t, a + b) && WriteAll(t, cache, a + b) == WriteAll(t, WriteAll(t, cache, a), b)
    decreases |a|
  {
    if a == [] {
      assert a + b == b;
    } else {
      assert (a + b)[1..] == a[1..] + b;
      WriteAllConcat(t, WriteChunk(t, cache, a[0]), a[1..], b);
    }
  }

  lemma WriteAllOne(t: BlockRow, cache: seq<Row>, c: Chunk)
    requires RowOk(t) && |cache| == CacheSize(t) && RangeOk(t, c.start, |c.rows|)
    ensures ChunksOk(t, [c]) && WriteAll(t, cache, [c]) == WriteChunk(t, cache, c)
  {
    assert [c][1..] == [];
  }

  /** Flushing one coalesced run after the runs before it. */
  lemma FlushRun(t: BlockRow, st: Store, key: string, flushed: seq<Chunk>, run: seq<Chunk>, first: nat, rows: seq<Row>)
    requires StoreOk(st) && RowOk(t) && CacheSize(t) == |st.hidden| && ChunksOk(t, flushed) && ChunksOk(t, run)
    requires (forall c | c in flushed :: c.rows != []) && (forall c | c in run :: c.rows != [])
    requires run != [] && EndToEnd(run, first, rows)
    ensures RangeOk(t, first, |rows|) && rows != [] && ChunksOk(t, flushed + run)
    ensures CommitInOrder(t, st, key, flushed + run) ==
              CommitInOrder(t, CommitInOrder(t, st, key, flushed), key, [Chunk(first, rows)])
  {
    assert run[0] in run && rows[0] == run[0].rows[0];
    assert (flushed + run)[0] == if flushed == [] then run[0] else flushed[0];
    var base := TableBefore(st, key, |(flushed + run)[0].rows[0]|);
    WriteAllConcat(t, base, flushed, run);
    RunWritesAsOne(t, WriteAll(t, base, flushed), run, first, rows);
    WriteAllOne(t, WriteAll(t, base, flushed), Chunk(first, rows));
    var mid := CommitInOrder(t, st, key, flushed);
    if flushed == [] {
      assert mid == st && WriteAll(t, base, flushed) == base;
    } else {
      assert mid.mm[key] == WriteAll(t, base, flushed);
    }
    assert TableAfter(t, mid, key, [Chunk(first, rows)]) == TableAfter(t, st, key, flushed + run);
  }

  lemma CommitOneChunk(t: BlockRow, st: Store, key: string, c: Chunk)
    requires StoreOk(st) && RowOk(t) && CacheSize(t) == |st.hidden| && RangeOk(t, c.start, |c.rows|) && c.rows != []
    ensures ChunksOk(t, [c])
    ensures var ready := st.(mm := st.mm[key := TableBefore(st, key, |c.rows[0]|)]);
            CommitInOrder(t, st, key, [c]) == ready.(mm := ready.mm[key := WriteChunk(t, ready.mm[key], c)])
  {
    WriteAllOne(t, TableBefore(st, key, |c.rows[0]|), c);
  }

  lemma {:induction false} NonEmptyAppend(cs: seq<Chunk>, c: Chunk)
    ensures NonEmpty(cs + [c]) == NonEmpty(cs) + Kept(c)
  {
    if cs == [] {
      assert ([c])[1..] == [] && cs + [c] == [c];
    } else {
      NonEmptyAppend(cs[1..], c);
      assert (cs + [c])[1..] == cs[1..] + [c];
    }
  }

  lemma {:induction false} NonEmptySnoc(cs: seq<Chunk>, i: nat)
    requires i < |cs|
    ensures NonEmpty(cs[..i + 1]) == NonEmpty(cs[..i]) + Kept(cs[i])
  {
    assert cs[..i + 1] == cs[..i] + [cs[i]];
    NonEmptyAppend(cs[..i], cs[i]);
  }

  // ---- all keys of a request, all finished requests ----

  ghost predicate KeysOk(t: BlockRow, perKey: map<string, seq<Chunk>>) {
    forall k | k in perKey :: CommitOk(t, perKey[k], CacheSize(t))
  }

  /** A key's table once the request is committed: None when the key has no table even then. */
  ghost function KeyAfter(t: BlockRow, st: Store, perKey: map<string, seq<Chunk>>, key: string): (r: Option<seq<Row>>)
    requires StoreOk(st) && CacheSize(t) == |st.hidden| && KeysOk(t, perKey)
    ensures r.Some? ==> |r.value| == |st.hidden|
  {
    if key in perKey && CommitOrder(perKey[key]) != [] then Some(TableAfter(t, st, key, CommitOrder(perKey[key])))
    else if key in st.mm then Some(st.mm[key])
    else None
  }

  /** Every key of one request committed; keys have tables of their own, so the order is free. */
  ghost function CommitKeys(t: BlockRow, st: Store, perKey: map<string, seq<Chunk>>): (r: Store)
    requires StoreOk(st) && CacheSize(t) == |st.hidden| && KeysOk(t, perKey)
    ensures StoreOk(r) && r.hidden == st.hidden
  {
    st.(mm := map k | k in st.mm.Keys + perKey.Keys
        && KeyAfter(t, st, perKey, k).Some? :: KeyAfter(t, st, perKey, k).value)
  }

  /** A key's table depends on nothing but the key's own table. */
  lemma TableAfterLocal(t: BlockRow, st: Store, st': Store, key: string, cs: seq<Chunk>)
    requires StoreOk(st) && RowOk(t) && CacheSize(t) == |st.hidden| && ChunksOk(t, cs) && cs != [] && cs[0].rows != []
    requires StoreOk(st') && st'.hidden == st.hidden && (key in st.mm <==> key in st'.mm)
             && (key in st.mm ==> st'.mm[key] == st.mm[key])
    ensures TableAfter(t, st', key, cs) == TableAfter(t, st, key, cs)
  {
  }

  /** A key's table, if it has one. */
  function Entry(st: Store, k: string): Option<seq<Row>> {
    if k in st.mm then Some(st.mm[k]) else None
  }

  lemma CommitKeysAt(t: BlockRow, st: Store, perKey: map<string, seq<Chunk>>, k: string)
    requires StoreOk(st) && CacheSize(t) == |st.hidden| && KeysOk(t, perKey)
    ensures KeyAfter(t, st, perKey, k) == Entry(CommitKeys(t, st, perKey), k)
  {
  }

  lemma RestrictOneMore(t: BlockRow, st: Store, perKey: map<string, seq<Chunk>>, done: set<string>, key: string,
                        k: string)
    requires StoreOk(st) && CacheSize(t) == |st.hidden| && KeysOk(t, perKey) && key in perKey && key !in done
    requires KeysOk(t, Restrict(perKey, done)) && KeysOk(t, Restrict(perKey, done + {key}))
    ensures k != key ==>
              KeyAfter(t, st, Restrict(perKey, done + {key}), k) == KeyAfter(t, st, Restrict(perKey, done), k)
    ensures KeyAfter(t, st, Restrict(perKey, done + {key}), key) == KeyAfter(t, st, perKey, key)
    ensures KeyAfter(t, st, Restrict(perKey, done), key) == if key in st.mm then Some(st.mm[key]) else None
  {
  }

  lemma SameTables(a: Store, b: Store)
    requires forall k :: Entry(a, k) == Entry(b, k)
    ensures a.mm == b.mm
  {
    forall k ensures (k in a.mm <==> k in b.mm) && (k in a.mm ==> a.mm[k] == b.mm[k]) {
      assert Entry(a, k) == Entry(b, k);
    }
  }

  lemma CommitOneMore(t: BlockRow, st: Store, perKey: map<string, seq<Chunk>>, done: set<string>, key: string)
    requires StoreOk(st) && CacheSize(t) == |st.hidden| && KeysOk(t, perKey) && key in perKey && key !in done
    ensures KeysOk(t, Restrict(perKey, done)) && KeysOk(t, Restrict(perKey, done + {key}))
    ensures CommitKeys(t, st, Restrict(perKey, done + {key})) ==
              CommitKey(t, CommitKeys(t, st, Restrict(perKey, done)), key, perKey[key])
  {
    var before, after := CommitKeys(t, st, Restrict(perKey, done)), CommitKeys(t, st, Restrict(perKey, done + {key}));
    var cs := CommitOrder(perKey[key]);
    var step := CommitInOrder(t, before, key, cs);
    RestrictOneMore(t, st, perKey, done, key, key);
    CommitKeysAt(t, st, Restrict(perKey, done), key);
    CommitKeysAt(t, st, Restrict(perKey, done + {key}), key);
    if cs != [] {
      TableAfterLocal(t, st, before, key, cs);
    }
    forall k ensures Entry(after, k) == Entry(step, k) {
      RestrictOneMore(t, st, perKey, done, key, k);
      CommitKeysAt(t, st, Restrict(perKey, done), k);
      CommitKeysAt(t, st, Restrict(perKey, done + {key}), k);
    }
    SameTables(after, step);
  }

  // ---- the coalescing loop ----

  /** After i chunks: those flushed, and the run still held back, whose tensors lie end to end. */
  ghost predicate Coalescing(t: BlockRow, cs: seq<Chunk>, i: nat, flushed: seq<Chunk>, run: seq<Chunk>,
                             tensors: seq<seq<Row>>, firstStart: nat, expectedStart: nat)
    requires RowOk(t) && i <= |cs|
  {
    && flushed + run == NonEmpty(cs[..i]) && (run == [] <==> tensors == [])
    && EndToEnd(run, firstStart, Flat(tensors)) && expectedStart == firstStart + |Flat(tensors)|
    && ChunksOk(t, flushed) && ChunksOk(t, run)
    && (forall c | c in flushed :: c.rows != []) && (forall c | c in run :: c.rows != [])
  }

  lemma CoalesceSkip(t: BlockRow, cs: seq<Chunk>, i: nat, flushed: seq<Chunk>, run: seq<Chunk>, tensors: seq<seq<Row>>,
                     firstStart: nat, expectedStart: nat)
    requires RowOk(t) && i < |cs| && cs[i].rows == []
             && Coalescing(t, cs, i, flushed, run, tensors, firstStart, expectedStart)
    ensures Coalescing(t, cs, i + 1, flushed, run, tensors, firstStart, expectedStart)
  {
    NonEmptySnoc(cs, i);
  }

  /** The run held back is flushed, and a new one starts anywhere. */
  lemma CoalesceFlush(t: BlockRow, cs: seq<Chunk>, i: nat, flushed: seq<Chunk>, run: seq<Chunk>, tensors: seq<seq<Row>>,
                      firstStart: nat, expectedStart: nat, start: nat)
    requires RowOk(t) && i <= |cs| && Coalescing(t, cs, i, flushed, run, tensors, firstStart, expectedStart)
    ensures Coalescing(t, cs, i, flushed + run, [], [], start, start)
  {
    assert flushed + run + [] == flushed + run;
  }

  lemma {:induction false} FlatSnoc(xs: seq<seq<Row>>, x: seq<Row>)
    ensures Flat(xs + [x]) == Flat(xs) + x
  {
    if xs == [] {
      assert xs + [x] == [x] && Flat([x]) == x + Flat([x][1..]);
    } else {
      FlatSnoc(xs[1..], x);
      assert (xs + [x])[1..] == xs[1..] + [x];
    }
  }

  lemma CoalesceExtend(t: BlockRow, cs: seq<Chunk>, i: nat, flushed: seq<Chunk>, run: seq<Chunk>,
                       tensors: seq<seq<Row>>, firstStart: nat, expectedStart: nat)
    requires RowOk(t) && i < |cs| && cs[i].rows != [] && cs[i].start == expectedStart && ChunksOk(t, NonEmpty(cs))
    requires Coalescing(t, cs, i, flushed, run, tensors, firstStart, expectedStart)
    ensures Coalescing(t, cs, i + 1, flushed, run + [cs[i]], tensors + [cs[i].rows], firstStart,
                       expectedStart + |cs[i].rows|)
  {
    NonEmptySnoc(cs, i);
    NonEmptyHas(cs, cs[i]);
    EndToEndSnoc(run, firstStart, Flat(tensors), cs[i]);
    FlatSnoc(tensors, cs[i].rows);
    assert flushed + (run + [cs[i]]) == flushed + run + [cs[i]];
  }
}
