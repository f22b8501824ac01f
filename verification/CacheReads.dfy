/** Reading back: cached blocks, merged tensors, and the agreement of the merged tensor with never having cached.
    Also the agreement of the deferred route with the eager one. */
module CacheReads {
  import opened Layout
  import opened CacheRows
  import opened DeferredChunks
  import opened CacheStore
  import opened Options
  import opened CacheRuns

  // ---- block gather ----

  /** cache[block_ids] of a (blocks, blockSize, width) cache, reshaped to rows. */
  function GatherBlocks(cache: seq<Row>, blockSize: nat, ids: seq<nat>): seq<Row>
    requires forall i | 0 <= i < |ids| :: Index(ids[i] + 1, blockSize, 0) <= |cache|
  {
    if ids == [] then []
    else
      assert Index(ids[0] + 1, blockSize, 0) == blockSize + Index(ids[0], blockSize, 0);
      cache[Index(ids[0], blockSize, 0)..Index(ids[0], blockSize, 0) + blockSize] +
            GatherBlocks(cache, blockSize, ids[1..])
  }

  lemma {:induction false} IndexOffset(i: nat, w: nat, j: nat)
    ensures Index(i, w, j) == Index(i, w, 0) + j
  {
    if i > 0 {
      IndexOffset(i - 1, w, j);
    }
  }

  /** Row p of the gathered blocks is the row in token p's slot. */
  lemma {:induction false} GatherBlocksAt(cache: seq<Row>, blockSize: nat, ids: seq<nat>, p: nat)
    requires 0 < blockSize && forall i | 0 <= i < |ids| :: Index(ids[i] + 1, blockSize, 0) <= |cache|
    requires BlockOf(p, blockSize) < |ids|
    ensures p < |GatherBlocks(cache, blockSize, ids)| && Slot(ids, blockSize, p) < |cache|
    ensures GatherBlocks(cache, blockSize, ids)[p] == cache[Slot(ids, blockSize, p)]
    decreases p
  {
    assert Index(ids[0] + 1, blockSize, 0) == blockSize + Index(ids[0], blockSize, 0);
    if p < blockSize {
      IndexOffset(ids[0], blockSize, p);
    } else {
      GatherBlocksAt(cache, blockSize, ids[1..], p - blockSize);
      assert Slot(ids[1..], blockSize, p - blockSize) == Slot(ids, blockSize, p);
    }
  }

  lemma {:induction false} GatherBlocksLength(cache: seq<Row>, blockSize: nat, ids: seq<nat>)
    requires forall i | 0 <= i < |ids| :: Index(ids[i] + 1, blockSize, 0) <= |cache|
    ensures |GatherBlocks(cache, blockSize, ids)| == Index(|ids|, blockSize, 0)
  {
    if ids != [] {
      GatherBlocksLength(cache, blockSize, ids[1..]);
      assert Index(ids[0] + 1, blockSize, 0) == blockSize + Index(ids[0], blockSize, 0);
    }
  }

  // ---- what a run leaves in one slot ----

  /** A table of the store. */
  datatype Table = Hidden | Mm(key: string)

  predicate Has(st: Store, which: Table) {
    which.Mm? ==> which.key in st.mm
  }

  function TableOf(st: Store, which: Table): seq<Row>
    requires Has(st, which)
  {
    match which
    case Hidden => st.hidden
    case Mm(key) => st.mm[key]
  }

  /** Slot c of the table holds row r. */
  predicate HoldsRow(st: Store, which: Table, c: nat, r: Row) {
    Has(st, which) && c < |TableOf(st, which)| && TableOf(st, which)[c] == r
  }

  /** Row scatters, as data. */
  datatype Copy = Copy(slots: seq<nat>, rows: seq<Row>)

  /** A copy that puts nothing but r into slot c. */
  ghost predicate Only(x: Copy, c: nat, r: Row) {
    |x.slots| == |x.rows| && forall i | 0 <= i < |x.slots| :: x.slots[i] == c ==> x.rows[i] == r
  }

  lemma {:induction false} IndexCopyOnly(table: seq<Row>, slots: seq<nat>, rows: seq<Row>, c: nat, r: Row)
    requires |slots| == |rows| && InRange(slots, |table|) && Only(Copy(slots, rows), c, r) && c < |table|
    ensures IndexCopy(table, slots, rows)[c] == if c in slots then r else table[c]
    decreases |slots|
  {
    if slots != [] {
      var table' := table[slots[0] := rows[0]];
      IndexCopyOnly(table', slots[1..], rows[1..], c, r);
    }
  }

  ghost function ChunkCopies(t: BlockRow, cs: seq<Chunk>): seq<Copy>
    requires RowOk(t)
  {
    if cs == [] then []
    else
      var slots := SlotIds(t.table, t.blockSize, cs[0].start, |cs[0].rows|);
      [Copy(slots, cs[0].rows[..|slots|])] + ChunkCopies(t, cs[1..])
  }

  /** What an event copies into a table that exists. */
  ghost function Copies(e: Event, which: Table): seq<Copy>
    requires e.Forward? ==> e.step.n <= |e.step.slots| && (e.step.hidden.Some? ==> e.step.n <= |e.step.hidden.value|)
    requires e.Commit? ==> RowOk(e.t)
  {
    match e
    case DrainReady(_) => []
    case Commit(t, key, chunks) => if which == Mm(key) then ChunkCopies(t, CommitOrder(chunks)) else []
    case Forward(step) =>
      match which {
        case Hidden => if step.hidden.Some? then [Copy(step.slots[..step.n], step.hidden.value[..step.n])] else []
        case Mm(k) =>
          if k in step.outputs && k !in step.skip && Covers(step.outputs[k], step.n)
          then [Copy(step.slots[..step.n], step.outputs[k].rows[..step.n])] else []
      }
  }

  /** The event does not put any other row into slot c. */
  ghost predicate Keeps(e: Event, which: Table, c: nat, r: Row, size: nat, deferred: set<string>)
    requires EventOk(e, size, deferred)
  {
    forall x | x in Copies(e, which) :: Only(x, c, r)
  }

  /** The event puts row r, and nothing else, into slot c. */
  ghost predicate Stores(e: Event, which: Table, c: nat, r: Row, size: nat, deferred: set<string>)
    requires EventOk(e, size, deferred)
  {
    Keeps(e, which, c, r, size, deferred) && exists x :: x in Copies(e, which) && c in x.slots
  }

  ghost predicate AllKeep(es: seq<Event>, which: Table, c: nat, r: Row, size: nat, deferred: set<string>)
    requires RunOk(es, size, deferred)
  {
    forall e | e in es :: Keeps(e, which, c, r, size, deferred)
  }

  lemma {:induction false} WriteAllOnly(t: BlockRow, cache: seq<Row>, cs: seq<Chunk>, c: nat, r: Row)
    requires RowOk(t) && |cache| == CacheSize(t) && ChunksOk(t, cs) && c < |cache|
    requires forall x | x in ChunkCopies(t, cs) :: Only(x, c, r)
    ensures WriteAll(t, cache, cs)[c] == if exists x :: x in ChunkCopies(t, cs) && c in x.slots then r else cache[c]
    decreases |cs|
  {
    if cs != [] {
      var slots := SlotIds(t.table, t.blockSize, cs[0].start, |cs[0].rows|);
      var x0 := Copy(slots, cs[0].rows[..|slots|]);
      SlotsOk(t, cs[0].start, |cs[0].rows|);
      assert x0 == ChunkCopies(t, cs)[0] && x0 in ChunkCopies(t, cs);
      assert forall x | x in ChunkCopies(t, cs[1..]) :: x in ChunkCopies(t, cs);
      IndexCopyOnly(cache, slots, cs[0].rows[..|slots|], c, r);
      WriteAllOnly(t, WriteChunk(t, cache, cs[0]), cs[1..], c, r);
      assert forall x | x in ChunkCopies(t, cs) :: x == x0 || x in ChunkCopies(t, cs[1..]);
    }
  }

  /** An event that stores r into a slot, of a table that exists at least from this event on. */
  lemma EventStores(st: Store, e: Event, deferred: set<string>, which: Table, c: nat, r: Row)
    requires StoreOk(st) && EventOk(e, |st.hidden|, deferred) && c < |st.hidden|
    requires Stores(e, which, c, r, |st.hidden|, deferred) && Has(SyncEvent(st, e, deferred), which)
    ensures HoldsRow(SyncEvent(st, e, deferred), which, c, r)
  {
    match e
    case Commit(t, key, chunks) =>
      var cs := CommitOrder(chunks);
      WriteAllOnly(t, TableBefore(st, key, |cs[0].rows[0]|), cs, c, r);
    case Forward(step) =>
      var st' := InitKeys(st, step.outputs, step.padded);
      var x := Copies(e, which)[0];
      assert x in Copies(e, which);
      IndexCopyOnly(TableOf(st', which), x.slots, x.rows, c, r);
    case DrainReady(_) =>
  }

  /** An event that stores nothing else into a slot keeps its row. */
  lemma EventKeeps(st: Store, e: Event, deferred: set<string>, which: Table, c: nat, r: Row)
    requires StoreOk(st) && EventOk(e, |st.hidden|, deferred) && c < |st.hidden|
    requires Keeps(e, which, c, r, |st.hidden|, deferred) && HoldsRow(st, which, c, r)
    ensures HoldsRow(SyncEvent(st, e, deferred), which, c, r)
  {
    match e
    case DrainReady(_) =>
    case Commit(t, key, chunks) =>
      if which == Mm(key) && CommitOrder(chunks) != [] {
        WriteAllOnly(t, st.mm[key], CommitOrder(chunks), c, r);
      }
    case Forward(step) =>
      if Copies(e, which) != [] {
        var x := Copies(e, which)[0];
        assert x in Copies(e, which);
        IndexCopyOnly(TableOf(st, which), x.slots, x.rows, c, r);
      }
  }

  /** Event i of the run stores r into the slot of a table that it finds or creates, and no later event stores anything
      else there. */
  ghost predicate LastStoredAt(st: Store, es: seq<Event>, deferred: set<string>, which: Table, c: nat, r: Row, i: nat)
    requires StoreOk(st) && RunOk(es, |st.hidden|, deferred)
  {
    && i < |es| && Stores(es[i], which, c, r, |st.hidden|, deferred)
        && AllKeep(es[i..], which, c, r, |st.hidden|, deferred)
    && Has(SyncRun(st, es[..i + 1], deferred), which)
  }

  lemma {:induction false} SlotKept(st: Store, es: seq<Event>, deferred: set<string>, which: Table, c: nat, r: Row)
    requires StoreOk(st) && RunOk(es, |st.hidden|, deferred) && c < |st.hidden| && HoldsRow(st, which, c, r)
    requires AllKeep(es, which, c, r, |st.hidden|, deferred)
    ensures HoldsRow(SyncRun(st, es, deferred), which, c, r)
    decreases |es|
  {
    if es != [] {
      EventKeeps(st, es[0], deferred, which, c, r);
      SlotKept(SyncEvent(st, es[0], deferred), es[1..], deferred, which, c, r);
    }
  }

  /** Such a slot holds r at the end of the run, whether or not the table existed at its start. */
  lemma {:induction false} LastStoreWins(st: Store, es: seq<Event>, deferred: set<string>, which: Table, c: nat, r: Row,
                                         i: nat)
    requires StoreOk(st) && RunOk(es, |st.hidden|, deferred) && c < |st.hidden|
    requires LastStoredAt(st, es, deferred, which, c, r, i)
    ensures HoldsRow(SyncRun(st, es, deferred), which, c, r)
    decreases |es|
  {
    if i > 0 {
      assert es[..i + 1][0] == es[0] && es[..i + 1][1..] == es[1..][..i];
      assert es[1..][i - 1] == es[i] && es[1..][i - 1..] == es[i..];
      LastStoreWins(SyncEvent(st, es[0], deferred), es[1..], deferred, which, c, r, i - 1);
    } else {
      assert es[..1] == [es[0]] && es[i..] == es;
      SingleEvent(st, es[0], deferred);
      EventStores(st, es[0], deferred, which, c, r);
      SlotKept(SyncEvent(st, es[0], deferred), es[1..], deferred, which, c, r);
    }
  }

  // ---- merged tensors ----

  /** The blocks of a prefix hit: the full blocks among the computed tokens, as far as the table goes. */
  function CachedBlocks(table: seq<nat>, blockSize: nat, computed: nat): seq<nat>
    requires 0 < blockSize
  {
    var n := BlockOf(computed, blockSize);
    table[..if n <= |table| then n else |table|]
  }

  ghost predicate BlocksValid(ids: seq<nat>, blockSize: nat, size: nat) {
    forall i | 0 <= i < |ids| :: Index(ids[i] + 1, blockSize, 0) <= size
  }

  /** The merged tensor of a hit request: cached rows, then this step's rows. */
  function Merged(cache: seq<Row>, table: seq<nat>, blockSize: nat, computed: nat, newRows: seq<Row>): seq<Row>
    requires 0 < blockSize && BlocksValid(CachedBlocks(table, blockSize, computed), blockSize, |cache|)
  {
    GatherBlocks(cache, blockSize, CachedBlocks(table, blockSize, computed)) + newRows
  }

  lemma BlockAt(block: nat, offset: nat, blockSize: nat)
    requires offset < blockSize
    ensures BlockOf(block * blockSize + offset, blockSize) == block
    ensures OffsetOf(block * blockSize + offset, blockSize) == offset
  {
    var pos := block * blockSize + offset;
    IndexValue(block, blockSize, offset);
    BlockAndOffset(pos, blockSize);
    IndexInjective(BlockOf(pos, blockSize), OffsetOf(pos, blockSize), block, offset, blockSize);
  }

  /** A merged tensor, row by row: the tokens of the full blocks that are computed and in the table, each from its
      block and offset, and then the new rows. */
  lemma MergedAt(cache: seq<Row>, table: seq<nat>, blockSize: nat, computed: nat, newRows: seq<Row>, blocks: nat,
                 cached: nat, block: nat, offset: nat)
    requires offset < blockSize && BlocksValid(CachedBlocks(table, blockSize, computed), blockSize, |cache|)
    requires blocks == if computed / blockSize <= |table| then computed / blockSize else |table|
    requires cached == blocks * blockSize
    ensures var merged := Merged(cache, table, blockSize, computed, newRows);
            && |merged| == cached + |newRows| && merged[cached..] == newRows
            && (block < blocks ==>
                  && block * blockSize + offset < |merged| && table[block] * blockSize + offset < |cache|
                  && merged[block * blockSize + offset] == cache[table[block] * blockSize + offset])
  {
    var ids := CachedBlocks(table, blockSize, computed);
    QuotientAndRemainder(computed, blockSize);
    GatherBlocksLength(cache, blockSize, ids);
    IndexValue(|ids|, blockSize, 0);
    if block < |ids| {
      BlockAt(block, offset, blockSize);
      GatherBlocksAt(cache, blockSize, ids, block * blockSize + offset);
      IndexValue(table[block], blockSize, offset);
    }
  }

  /** A hit's prefix in the block table: its full blocks are in the table and in the cache. */
  ghost predicate InBlocks(table: seq<nat>, blockSize: nat, computed: nat, size: nat) {
    0 < blockSize && BlockOf(computed, blockSize) <= |table|
        && BlocksValid(CachedBlocks(table, blockSize, computed), blockSize, size)
  }

  /** Token p lies in a full block of the prefix. */
  ghost predicate CachedToken(table: seq<nat>, blockSize: nat, computed: nat, p: nat)
    requires 0 < blockSize
  {
    p < Index(BlockOf(computed, blockSize), blockSize, 0) && BlockOf(p, blockSize) < |table|
  }

  lemma {:induction false} WholeBlocks(computed: nat, blockSize: nat)
    requires 0 < blockSize
    ensures Index(BlockOf(computed, blockSize), blockSize, 0) + OffsetOf(computed, blockSize) == computed
  {
    BlockAndOffset(computed, blockSize);
    IndexOffset(BlockOf(computed, blockSize), blockSize, OffsetOf(computed, blockSize));
  }

  /** Every cached token's own row is in its slot. */
  ghost predicate PrefixHeld(now: Store, which: Table, table: seq<nat>, blockSize: nat, computed: nat, full: seq<Row>)
    requires 0 < blockSize
  {
    forall p: nat | CachedToken(table, blockSize, computed, p) && p < |full| ::
          HoldsRow(now, which, Slot(table, blockSize, p), full[p])
  }

  /** The gathered blocks of such a prefix are its tokens' own rows. */
  lemma CachedRows(now: Store, which: Table, table: seq<nat>, blockSize: nat, computed: nat, full: seq<Row>)
    requires Has(now, which) && InBlocks(table, blockSize, computed, |TableOf(now, which)|) && computed <= |full|
    requires PrefixHeld(now, which, table, blockSize, computed, full)
    ensures Index(BlockOf(computed, blockSize), blockSize, 0) <= computed
    ensures GatherBlocks(TableOf(now, which), blockSize, CachedBlocks(table, blockSize, computed))
            == full[..Index(BlockOf(computed, blockSize), blockSize, 0)]
  {
    var cache, ids := TableOf(now, which), CachedBlocks(table, blockSize, computed);
    var rows := GatherBlocks(cache, blockSize, ids);
    GatherBlocksLength(cache, blockSize, ids);
    WholeBlocks(computed, blockSize);
    forall p | 0 <= p < |rows| ensures rows[p] == full[p] {
      BlockInTable(|ids|, blockSize, p);
      GatherBlocksAt(cache, blockSize, ids, p);
      assert Slot(ids, blockSize, p) == Slot(table, blockSize, p);
      assert CachedToken(table, blockSize, computed, p);
    }
  }

  lemma JoinAt(full: seq<Row>, cut: nat, resume: nat)
    requires cut <= resume <= |full|
    ensures full[..cut] + full[resume..] == full <==> cut == resume
  {
    if cut != resume {
      assert |full[..cut] + full[resume..]| < |full|;
    }
  }

  /** A held prefix and the rows after it make the full sequence exactly when the computed count is a multiple of the
      block size. */
  lemma HeldIsFullSequence(now: Store, which: Table, table: seq<nat>, blockSize: nat, computed: nat, full: seq<Row>)
    requires Has(now, which) && InBlocks(table, blockSize, computed, |TableOf(now, which)|) && computed <= |full|
    requires PrefixHeld(now, which, table, blockSize, computed, full)
    ensures Merged(TableOf(now, which), table, blockSize, computed, full[computed..]) == full <==>
            OffsetOf(computed, blockSize) == 0
  {
    CachedRows(now, which, table, blockSize, computed, full);
    WholeBlocks(computed, blockSize);
    JoinAt(full, Index(BlockOf(computed, blockSize), blockSize, 0), computed);
  }

  ghost predicate LastStored(st: Store, es: seq<Event>, deferred: set<string>, which: Table, c: nat, r: Row)
    requires StoreOk(st) && RunOk(es, |st.hidden|, deferred)
  {
    exists i :: LastStoredAt(st, es, deferred, which, c, r, i)
  }

  /** A live cached prefix: some event of the run stored every cached token's own row, and no later one another row. */
  ghost predicate PrefixLive(st: Store, es: seq<Event>, deferred: set<string>, which: Table, table: seq<nat>,
                             blockSize: nat, computed: nat, full: seq<Row>)
    requires StoreOk(st) && RunOk(es, |st.hidden|, deferred) && 0 < blockSize
  {
    forall p: nat | CachedToken(table, blockSize, computed, p) && p < |full| ::
      LastStored(st, es, deferred, which, Slot(table, blockSize, p), full[p])
  }

  lemma CachedSlotInRange(table: seq<nat>, blockSize: nat, computed: nat, p: nat, size: nat)
    requires InBlocks(table, blockSize, computed, size) && CachedToken(table, blockSize, computed, p)
    ensures Slot(table, blockSize, p) < size
  {
    var ids := CachedBlocks(table, blockSize, computed);
    BlockInTable(|ids|, blockSize, p);
    var b := BlockOf(p, blockSize);
    assert ids[b] == table[b];
    IndexOffset(table[b], blockSize, OffsetOf(p, blockSize));
    assert Index(table[b] + 1, blockSize, 0) == blockSize + Index(table[b], blockSize, 0);
  }

  /** At the end of the run a live prefix is held. */
  lemma LivePrefixIsHeld(st: Store, es: seq<Event>, deferred: set<string>, which: Table, table: seq<nat>,
                         blockSize: nat, computed: nat, full: seq<Row>)
    requires StoreOk(st) && RunOk(es, |st.hidden|, deferred) && InBlocks(table, blockSize, computed, |st.hidden|)
    requires PrefixLive(st, es, deferred, which, table, blockSize, computed, full)
    ensures PrefixHeld(SyncRun(st, es, deferred), which, table, blockSize, computed, full)
  {
    forall p: nat | CachedToken(table, blockSize, computed, p) && p < |full|
      ensures HoldsRow(SyncRun(st, es, deferred), which, Slot(table, blockSize, p), full[p])
    {
      var c := Slot(table, blockSize, p);
      CachedSlotInRange(table, blockSize, computed, p, |st.hidden|);
      assert LastStored(st, es, deferred, which, c, full[p]);
      var i :| LastStoredAt(st, es, deferred, which, c, full[p], i);
      LastStoreWins(st, es, deferred, which, c, full[p], i);
    }
  }

  /** Read after write: for a live prefix the merged tensor of a table that exists by then equals the full sequence, as
      if nothing had been cached, exactly when the computed count is a multiple of the block size. */
  lemma MergedIsFullSequence(st: Store, es: seq<Event>, deferred: set<string>, which: Table, table: seq<nat>,
                             blockSize: nat, computed: nat, full: seq<Row>)
    requires StoreOk(st) && RunOk(es, |st.hidden|, deferred) && Has(SyncRun(st, es, deferred), which)
    requires InBlocks(table, blockSize, computed, |st.hidden|) && computed <= |full|
    requires PrefixLive(st, es, deferred, which, table, blockSize, computed, full)
    ensures Merged(TableOf(SyncRun(st, es, deferred), which), table, blockSize, computed, full[computed..]) == full <==>
            OffsetOf(computed, blockSize) == 0
  {
    LivePrefixIsHeld(st, es, deferred, which, table, blockSize, computed, full);
    HeldIsFullSequence(SyncRun(st, es, deferred), which, table, blockSize, computed, full);
  }

  lemma NewTablesKeepPrefix(was: Store, outputs: map<string, Output>, seqLen: nat, which: Table, table: seq<nat>,
                            blockSize: nat, computed: nat, full: seq<Row>)
    requires 0 < blockSize && PrefixHeld(was, which, table, blockSize, computed, full)
    ensures PrefixHeld(InitKeys(was, outputs, seqLen), which, table, blockSize, computed, full)
  {
    forall p: nat | CachedToken(table, blockSize, computed, p) && p < |full|
      ensures HoldsRow(InitKeys(was, outputs, seqLen), which, Slot(table, blockSize, p), full[p])
    {
      assert HoldsRow(was, which, Slot(table, blockSize, p), full[p]);
    }
  }

  /** The same read through the asynchronous route, right after the hit's own step has been scheduled. */
  lemma AsyncMergedIsFullSequence(a: Async, es: seq<Event>, step: Step, deferred: set<string>, which: Table,
                                  table: seq<nat>, blockSize: nat, computed: nat, full: seq<Row>)
    requires AsyncOk(a) && PendingApart(a, deferred) && RunOk(es, |a.store.hidden|, deferred)
             && EventOk(Forward(step), |a.store.hidden|, deferred)
    requires Has(Schedule(AsyncRun(a, es, deferred), step).store, which)
    requires InBlocks(table, blockSize, computed, |a.store.hidden|) && computed <= |full|
    requires PrefixLive(Consume(a).store, es, deferred, which, table, blockSize, computed, full)
    ensures Merged(TableOf(Schedule(AsyncRun(a, es, deferred), step).store, which), table, blockSize, computed,
                   full[computed..]) == full <==>
            OffsetOf(computed, blockSize) == 0
  {
    var was, now := SyncRun(Consume(a).store, es, deferred), Schedule(AsyncRun(a, es, deferred), step).store;
    EarlierWritesHaveLanded(a, es, step, deferred);
    LivePrefixIsHeld(Consume(a).store, es, deferred, which, table, blockSize, computed, full);
    NewTablesKeepPrefix(was, step.outputs, step.padded, which, table, blockSize, computed, full);
    HeldIsFullSequence(now, which, table, blockSize, computed, full);
  }

  // ---- deferred against eager ----

  /** One forward step of one request: the tokens before it, its rows, and what the computed-token counter reads
      when the rows are staged. */
  datatype RequestStep = RequestStep(before: nat, rows: seq<Row>, counter: nat)

  /** Where staging places the rows of a step. */
  function StagedStart(counter: nat, scheduled: nat): nat {
    if counter <= scheduled then 0 else counter - scheduled
  }

  /** Staging finds the right position exactly when the counter already includes the step, or both positions are 0. */
  lemma StagedStartIsRightIff(before: nat, scheduled: nat, counter: nat)
    ensures StagedStart(counter, scheduled) == before <==>
            counter == before + scheduled || (before == 0 && counter <= scheduled)
  {
  }

  function StagedChunks(steps: seq<RequestStep>): (cs: seq<Chunk>)
    ensures |cs| == |steps|
            && forall i | 0 <= i < |cs| :: cs[i] == Chunk(StagedStart(steps[i].counter, |steps[i].rows|), steps[i].rows)
  {
    seq(|steps|, i requires 0 <= i < |steps| => Chunk(StagedStart(steps[i].counter, |steps[i].rows|), steps[i].rows))
  }

  /** The slot mapping of a step: token before + i goes to its own slot. */
  function KvSlots(t: BlockRow, step: RequestStep): (r: seq<nat>)
    requires 0 < t.blockSize
             && forall p: nat | step.before <= p < step.before + |step.rows| :: BlockOf(p, t.blockSize) < |t.table|
    ensures |r| == |step.rows|
  {
    seq<nat>(|step.rows|, i requires 0 <= i < |step.rows| => Slot(t.table, t.blockSize, step.before + i))
  }

  /** Every token of the step has one of the request's blocks. */
  ghost predicate StepFits(t: BlockRow, step: RequestStep)
    requires RowOk(t)
  {
    forall p: nat | step.before <= p < step.before + |step.rows| :: BlockOf(p, t.blockSize) < t.used
  }

  lemma StepSlots(t: BlockRow, step: RequestStep)
    requires RowOk(t) && StepFits(t, step)
    ensures RangeOk(t, step.before, |step.rows|)
    ensures KvSlots(t, step) == SlotIds(t.table, t.blockSize, step.before, |step.rows|)
  {
    var slots := SlotIds(t.table, t.blockSize, step.before, |step.rows|);
    if step.rows != [] {
      BlockInTable(|t.table|, t.blockSize, step.before + |step.rows| - 1);
    }
    forall i | 0 <= i < |slots| ensures slots[i] == KvSlots(t, step)[i] {
      SlotIdsAt(t.table, t.blockSize, step.before, |step.rows|, i);
    }
  }

  /** The eager route: each step's rows go straight to their slots. */
  ghost function WriteEagerly(t: BlockRow, cache: seq<Row>, steps: seq<RequestStep>): (r: seq<Row>)
    requires RowOk(t) && |cache| == CacheSize(t) && forall x | x in steps :: StepFits(t, x)
    ensures |r| == |cache|
    decreases |steps|
  {
    if steps == [] then cache
    else
      StepSlots(t, steps[0]);
      SlotsOk(t, steps[0].before, |steps[0].rows|);
      WriteEagerly(t, IndexCopy(cache, KvSlots(t, steps[0]), steps[0].rows), steps[1..])
  }

  lemma {:induction false} EagerIsWriteAll(t: BlockRow, cache: seq<Row>, steps: seq<RequestStep>)
    requires RowOk(t) && |cache| == CacheSize(t) && forall x | x in steps :: StepFits(t, x)
    requires forall x | x in steps :: x.counter == x.before + |x.rows|
    ensures ChunksOk(t, StagedChunks(steps)) && WriteAll(t, cache, StagedChunks(steps)) == WriteEagerly(t, cache, steps)
    decreases |steps|
  {
    if steps != [] {
      var x, c := steps[0], StagedChunks(steps)[0];
      StepSlots(t, x);
      SlotsOk(t, x.before, |x.rows|);
      assert c == Chunk(x.before, x.rows) && x.rows[..|x.rows|] == x.rows;
      assert StagedChunks(steps)[1..] == StagedChunks(steps[1..]);
      EagerIsWriteAll(t, WriteChunk(t, cache, c), steps[1..]);
      forall d | d in StagedChunks(steps) ensures RangeOk(t, d.start, |d.rows|) {
        assert d == c || d in StagedChunks(steps)[1..];
      }
    }
  }

  lemma {:induction false} NonEmptyWritesTheSame(t: BlockRow, cache: seq<Row>, cs: seq<Chunk>)
    requires RowOk(t) && |cache| == CacheSize(t) && ChunksOk(t, cs)
    ensures ChunksOk(t, NonEmpty(cs)) && WriteAll(t, cache, NonEmpty(cs)) == WriteAll(t, cache, cs)
    decreases |cs|
  {
    if cs != [] {
      NonEmptyWritesTheSame(t, WriteChunk(t, cache, cs[0]), cs[1..]);
      if cs[0].rows != [] {
        assert ([cs[0]] + NonEmpty(cs[1..]))[1..] == NonEmpty(cs[1..]);
      } else {
        assert WriteChunk(t, cache, cs[0]) == cache && NonEmpty(cs) == NonEmpty(cs[1..]);
      }
    }
  }
}
