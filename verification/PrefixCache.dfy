/** OmniTensorPrefixCache: the class, its tables updated in place, proved against the cache as a value. */
module PrefixCache {
  import opened Collections
  import opened Layout
  import opened CacheRows
  import opened DeferredChunks
  import opened CacheStore
  import opened Options
  import opened CacheReads
  import opened CacheRuns

  /** The batch a step runs with: request ids, their row in the batch, the computed-token counters and the block
      table. */
  datatype Batch = Batch(reqIds: seq<string>, reqIndex: map<string, nat>, computed: seq<nat>, table: seq<seq<nat>>)

  ghost predicate BatchOk(b: Batch) {
    && (forall i, j | 0 <= i < j < |b.reqIds| :: b.reqIds[i] != b.reqIds[j])
    && (forall r | r in b.reqIds :: r in b.reqIndex)
    && (forall r | r in b.reqIndex :: b.reqIndex[r] < |b.computed| && b.reqIndex[r] < |b.table|)
  }

  /** A pre-staged CPU view of the hidden states, or none. */
  datatype Staged = NotStaged | StagedCpu(onCpu: bool, contiguous: bool, sameDtype: bool, sameFeatures: bool,
                                          rows: seq<Row>)

  datatype CacheError =
    | StagedNotOnCpu
    | StagedNotContiguous
    | StagedDtype
    | StagedFeatures
    | StagedTooShort
    | OutputTooShort

  function Prefix(rows: seq<Row>, n: nat): (r: seq<Row>)
    ensures n <= |rows| ==> r == rows[..n]
  {
    if n <= |rows| then rows[..n] else rows
  }

  /** rows[start : start + n], clipped. */
  function Window(rows: seq<Row>, start: nat, n: nat): (r: seq<Row>)
    ensures start + n <= |rows| ==> r == rows[start..start + n]
  {
    if |rows| <= start then [] else Prefix(rows[start..], n)
  }

  /** The rows from start on, as many as there are of the n. */
  lemma WindowIs(rows: seq<Row>, start: nat, n: nat)
    ensures Window(rows, start, n) ==
            if |rows| <= start then [] else rows[start..if start + n <= |rows| then start + n else |rows|]
  {
  }

  /** A pre-staged view that may be used, if it is long enough. */
  predicate Acceptable(staged: Staged) {
    staged.StagedCpu? && staged.onCpu && staged.contiguous && staged.sameDtype && staged.sameFeatures
  }

  /** _resolve_hidden_states_cpu */
  function ResolveHiddenStates(hidden: seq<Row>, n: nat, staged: Staged): (r: Result<seq<Row>, CacheError>)
    ensures r.Ok? <==> staged.NotStaged? || (Acceptable(staged) && n <= |staged.rows|)
    ensures r.Ok? && (n <= |hidden| || staged.StagedCpu?) ==> |r.value| == n
  {
    match staged
    case NotStaged => Ok(Prefix(hidden, n))
    case StagedCpu(onCpu, contiguous, sameDtype, sameFeatures, rows) =>
      if !onCpu then Err(StagedNotOnCpu)
      else if !contiguous then Err(StagedNotContiguous)
      else if !sameDtype then Err(StagedDtype)
      else if !sameFeatures then Err(StagedFeatures)
      else if |rows| < n then Err(StagedTooShort)
      else Ok(rows[..n])
  }

  /** What a read is given: the batch, each batch row's start in the step's rows, and the tokens scheduled per
      request. */
  datatype Query = Query(batch: Batch, starts: seq<nat>, scheduled: map<string, nat>)

  ghost predicate QueryOk(q: Query) {
    BatchOk(q.batch) && forall r | r in q.batch.reqIds :: q.batch.reqIndex[r] < |q.starts| && r in q.scheduled
  }

  /** One past the last of the request's rows. */
  function End(q: Query, req: string): nat
    requires QueryOk(q) && req in q.batch.reqIds
  {
    q.starts[q.batch.reqIndex[req]] + q.scheduled[req]
  }

  /** The cached blocks of every hit in the batch are blocks of the cache. */
  ghost predicate HitsValid(q: Query, hits: set<string>, blockSize: nat, size: nat)
    requires 0 < blockSize && QueryOk(q)
  {
    forall r | r in q.batch.reqIds && r in hits ::
      BlocksValid(CachedBlocks(q.batch.table[q.batch.reqIndex[r]], blockSize, q.batch.computed[q.batch.reqIndex[r]]),
                  blockSize, size)
  }

  /** What a read returns for one request. */
  function RequestRows(cache: seq<Row>, q: Query, hits: set<string>, blockSize: nat, source: seq<Row>,
                       req: string): seq<Row>
    requires 0 < blockSize && QueryOk(q) && req in q.batch.reqIds && HitsValid(q, hits, blockSize, |cache|)
  {
    var idx := q.batch.reqIndex[req];
    var newRows := Window(source, q.starts[idx], q.scheduled[req]);
    if req in hits then Merged(cache, q.batch.table[idx], blockSize, q.batch.computed[idx], newRows) else newRows
  }

  /** The request's rows of this step are those of the tokens after its computed ones. */
  ghost predicate RowsFollow(q: Query, source: seq<Row>, req: string, full: seq<Row>)
    requires QueryOk(q) && req in q.batch.reqIds
  {
    var idx := q.batch.reqIndex[req];
    q.batch.computed[idx] <= |full| && Window(source, q.starts[idx], q.scheduled[req]) == full[q.batch.computed[idx]..]
  }

  /** A read of a request whose prefix, if it is a hit, is live: with the counter at a block boundary, and the step's
      rows those of the tokens after it, a hit gets its whole sequence and a miss the rows of this step. */
  lemma ReadIsFullSequence(st: Store, es: seq<Event>, deferred: set<string>, which: Table, q: Query, hits: set<string>,
                           blockSize: nat, source: seq<Row>, req: string, full: seq<Row>)
    requires StoreOk(st) && RunOk(es, |st.hidden|, deferred) && Has(SyncRun(st, es, deferred), which) && 0 < blockSize
    requires QueryOk(q) && req in q.batch.reqIds && HitsValid(q, hits, blockSize, |st.hidden|)
    requires RowsFollow(q, source, req, full)
    requires var idx := q.batch.reqIndex[req];
             req in hits ==>
               && OffsetOf(q.batch.computed[idx], blockSize) == 0
               && BlockOf(q.batch.computed[idx], blockSize) <= |q.batch.table[idx]|
               && PrefixLive(st, es, deferred, which, q.batch.table[idx], blockSize, q.batch.computed[idx], full)
    ensures RequestRows(TableOf(SyncRun(st, es, deferred), which), q, hits, blockSize, source, req)
            == if req in hits then full else full[q.batch.computed[q.batch.reqIndex[req]]..]
  {
    if req in hits {
      var idx := q.batch.reqIndex[req];
      MergedIsFullSequence(st, es, deferred, which, q.batch.table[idx], blockSize, q.batch.computed[idx], full);
    }
  }

  /** The cache that the constructor leaves. */
  function NewStore(size: nat, width: nat): Store {
    Store(Zeros(size, width), map[])
  }

  /** From a new cache: whatever table the run has created by the time of the read, a hit on a live prefix of whole
      blocks gets its full sequence. */
  lemma HitAfterNewCache(size: nat, width: nat, es: seq<Event>, deferred: set<string>, key: string, q: Query,
                         hits: set<string>, blockSize: nat, source: seq<Row>, req: string, full: seq<Row>)
    requires RunOk(es, size, deferred) && 0 < blockSize
    requires QueryOk(q) && req in q.batch.reqIds && req in hits && HitsValid(q, hits, blockSize, size)
    requires RowsFollow(q, source, req, full)
    requires var idx := q.batch.reqIndex[req];
             && 0 < q.batch.computed[idx] && OffsetOf(q.batch.computed[idx], blockSize) == 0
             && BlockOf(q.batch.computed[idx], blockSize) <= |q.batch.table[idx]|
             && PrefixLive(NewStore(size, width), es, deferred, Mm(key), q.batch.table[idx], blockSize,
                           q.batch.computed[idx], full)
    ensures key in SyncRun(NewStore(size, width), es, deferred).mm
    ensures RequestRows(SyncRun(NewStore(size, width), es, deferred).mm[key], q, hits, blockSize, source, req) == full
  {
    var idx, st := q.batch.reqIndex[req], NewStore(size, width);
    LivePrefixIsHeld(st, es, deferred, Mm(key), q.batch.table[idx], blockSize, q.batch.computed[idx], full);
    WholeBlocks(q.batch.computed[idx], blockSize);
    BlockInTable(BlockOf(q.batch.computed[idx], blockSize), blockSize, 0);
    assert CachedToken(q.batch.table[idx], blockSize, q.batch.computed[idx], 0);
    ReadIsFullSequence(st, es, deferred, Mm(key), q, hits, blockSize, source, req, full);
  }

  /** Cutting the rows after the last one needed does not change a request's window. */
  lemma WindowOfPrefix(rows: seq<Row>, n: nat, start: nat, count: nat)
    requires start + count <= n
    ensures Window(Prefix(rows, n), start, count) == Window(rows, start, count)
  {
    if start < |rows| && n <= |rows| {
      assert rows[..n][start..] == rows[start..n] && rows[start..n][..count] == rows[start..][..count];
    }
  }

  /** The staged chunks of every finished request that is still in the batch fit its block table. */
  ghost predicate CommitsOk(deferred: map<string, map<string, seq<Chunk>>>, finished: seq<string>, batch: Batch,
                            used: seq<nat>, blockSize: nat, numBlocks: nat)
    requires BatchOk(batch) && |used| == |batch.table|
  {
    forall r | r in finished && r in deferred && r in batch.reqIndex ::
      KeysOk(BlockRow(batch.table[batch.reqIndex[r]], used[batch.reqIndex[r]], blockSize, numBlocks), deferred[r])
  }

  /** One finished request committed. */
  ghost function CommitOne(st: Store, deferred: map<string, map<string, seq<Chunk>>>, req: string, batch: Batch,
                           used: seq<nat>, blockSize: nat, numBlocks: nat): (r: Store)
    requires StoreOk(st) && |st.hidden| == Index(numBlocks, blockSize, 0)
    requires BatchOk(batch) && |used| == |batch.table| && CommitsOk(deferred, [req], batch, used, blockSize, numBlocks)
    ensures StoreOk(r) && |r.hidden| == |st.hidden|
  {
    if req in deferred && req in batch.reqIndex then
      assert req in [req];
      CommitKeys(BlockRow(batch.table[batch.reqIndex[req]], used[batch.reqIndex[req]], blockSize, numBlocks), st,
                 deferred[req])
    else st
  }

  /** The finished requests committed one after the other; each one's chunks are dropped even if it has left the
      batch. */
  ghost function CommitRequests(st: Store, deferred: map<string, map<string, seq<Chunk>>>, finished: seq<string>,
                                batch: Batch, used: seq<nat>, blockSize: nat, numBlocks: nat): (r: Store)
    requires StoreOk(st) && |st.hidden| == Index(numBlocks, blockSize, 0)
    requires BatchOk(batch) && |used| == |batch.table|
             && CommitsOk(deferred, finished, batch, used, blockSize, numBlocks)
    ensures StoreOk(r) && |r.hidden| == |st.hidden|
    decreases |finished|
  {
    if finished == [] then st
    else CommitRequests(CommitOne(st, deferred, finished[0], batch, used, blockSize, numBlocks),
                        deferred - {finished[0]}, finished[1..], batch, used, blockSize, numBlocks)
  }

  /** The deferred chunks without the given requests. */
  function Without(deferred: map<string, map<string, seq<Chunk>>>, reqs: seq<string>)
    : map<string, map<string, seq<Chunk>>>
  {
    map r | r in deferred && r !in reqs :: deferred[r]
  }

  lemma WithoutOneMore(deferred: map<string, map<string, seq<Chunk>>>, finished: seq<string>, i: nat)
    requires i < |finished|
    ensures Without(deferred, finished[..i + 1]) == Without(deferred, finished[..i]) - {finished[i]}
  {
    assert finished[..i + 1] == finished[..i] + [finished[i]];
  }

  /** The next finished request committed, and the ones after it still to come. */
  lemma CommitRequestsStep(st: Store, deferred: map<string, map<string, seq<Chunk>>>, finished: seq<string>, i: nat,
                           batch: Batch, used: seq<nat>, blockSize: nat, numBlocks: nat)
    requires StoreOk(st) && |st.hidden| == Index(numBlocks, blockSize, 0) && i < |finished|
    requires BatchOk(batch) && |used| == |batch.table|
             && CommitsOk(deferred, finished[i..], batch, used, blockSize, numBlocks)
    ensures CommitsOk(deferred, [finished[i]], batch, used, blockSize, numBlocks)
    ensures CommitsOk(deferred - {finished[i]}, finished[i + 1..], batch, used, blockSize, numBlocks)
    ensures CommitRequests(st, deferred, finished[i..], batch, used, blockSize, numBlocks)
            == CommitRequests(CommitOne(st, deferred, finished[i], batch, used, blockSize, numBlocks),
                              deferred - {finished[i]}, finished[i + 1..], batch, used, blockSize, numBlocks)
  {
    var rest := finished[i..];
    assert rest[0] == finished[i] && rest[1..] == finished[i + 1..];
  }

  /** What is staged for a request and a key. */
  function StagedFor(deferred: map<string, map<string, seq<Chunk>>>, req: string, key: string): seq<Chunk> {
    if req in deferred && key in deferred[req] then deferred[req][key] else []
  }

  /** The chunk a step stages for a request and a key: its own rows, clipped to the tensor, at the position its counter
      implies. At most one chunk, never empty. */
  function StepChunks(starts: seq<nat>, batch: Batch, outputs: map<string, Output>, scheduled: map<string, nat>,
                      req: string, key: string): (cs: seq<Chunk>)
    requires BatchOk(batch) && req in batch.reqIds && batch.reqIndex[req] < |starts|
    ensures |cs| <= 1 && forall c | c in cs :: c.rows != []
  {
    if key !in outputs || !outputs[key].Tokens? || req !in scheduled || scheduled[req] == 0 then []
    else
      var idx, sched := batch.reqIndex[req], scheduled[req];
      var rows := outputs[key].rows;
      if |rows| <= starts[idx] then []
      else [Chunk(StagedStart(batch.computed[idx], sched), Window(rows, starts[idx], sched))]
  }

  /** What a call stages for a request and a key, written out. */
  lemma StepChunksAre(starts: seq<nat>, batch: Batch, outputs: map<string, Output>, scheduled: map<string, nat>,
                      req: string, key: string)
    requires BatchOk(batch) && req in batch.reqIds && batch.reqIndex[req] < |starts|
    ensures var idx, cs := batch.reqIndex[req], StepChunks(starts, batch, outputs, scheduled, req, key);
            && (cs != [] <==>
                && key in outputs && outputs[key].Tokens? && req in scheduled && scheduled[req] > 0
                && starts[idx] < |outputs[key].rows|)
            && (cs != [] ==>
                  var rows := outputs[key].rows;
                  var end := if |rows| < starts[idx] + scheduled[req] then |rows| else starts[idx] + scheduled[req];
                  && |cs| == 1 && cs[0].rows == rows[starts[idx]..end]
                  && cs[0].start ==
                     if scheduled[req] < batch.computed[idx] then batch.computed[idx] - scheduled[req] else 0)
  {
  }

  /** A finished request that has left the batch, or has nothing staged, changes no table. */
  lemma NothingToCommit(st: Store, deferred: map<string, map<string, seq<Chunk>>>, req: string, batch: Batch,
                        used: seq<nat>, blockSize: nat, numBlocks: nat)
    requires StoreOk(st) && |st.hidden| == Index(numBlocks, blockSize, 0) && BatchOk(batch) && |used| == |batch.table|
    requires req !in deferred || req !in batch.reqIndex
    ensures CommitsOk(deferred, [req], batch, used, blockSize, numBlocks)
    ensures CommitOne(st, deferred, req, batch, used, blockSize, numBlocks) == st
  {
  }

  /** A step's write of hidden states alone. */
  function HiddenPart(step: Step): Write
    requires step.n <= |step.slots| && (step.hidden.Some? ==> step.n <= |step.hidden.value|)
  {
    Write(step.slots[..step.n], if step.hidden.Some? then Some(step.hidden.value[..step.n]) else None, map[])
  }

  /** The pre-staged view, if one is given, is acceptable. */
  predicate HiddenResolves(step: Step, staged: Staged) {
    step.hidden.Some? ==> ResolveHiddenStates(step.hidden.value, step.n, staged).Ok?
  }

  /** A table's output is there to be written, but does not cover the unpadded tokens. */
  predicate FallsShort(step: Step, key: string) {
    key in step.outputs && key !in step.skip && !Covers(step.outputs[key], step.n)
  }

  /** The scatters of the done keys went through, and that of another key does not. */
  ghost predicate StoppedAt(keys: set<string>, step: Step, done: set<string>) {
    done <= keys && OutputsCover(done, step) && exists k :: k in keys && k !in done && FallsShort(step, k)
  }

  /** The step with the hidden states that are written: the pre-staged view when there is one. */
  function ResolvedStep(step: Step, staged: Staged): (r: Step)
    requires HiddenResolves(step, staged) && (step.hidden.Some? ==> step.n <= |step.hidden.value|)
    ensures r.n == step.n && r.slots == step.slots && (r.hidden.Some? ==> |r.hidden.value| == step.n)
  {
    if step.hidden.Some? then step.(hidden := Some(ResolveHiddenStates(step.hidden.value, step.n, staged).value))
    else step
  }

  /** The rows a step writes: those of a staged view if there is one, and its own otherwise. */
  lemma ResolvedRows(step: Step, staged: Staged)
    requires HiddenResolves(step, staged) && step.hidden.Some? && step.n <= |step.hidden.value|
    ensures ResolvedStep(step, staged) ==
            step.(hidden := Some(if staged.NotStaged? then step.hidden.value[..step.n] else staged.rows[..step.n]))
  {
  }

  /** The first requirement that a staged view misses names the error. */
  lemma StagedRefusal(hidden: seq<Row>, n: nat, staged: Staged)
    requires staged.StagedCpu?
    ensures var r := ResolveHiddenStates(hidden, n, staged);
            && (r == Err(StagedNotOnCpu) <==> !staged.onCpu)
            && (r == Err(StagedNotContiguous) <==> staged.onCpu && !staged.contiguous)
            && (r == Err(StagedDtype) <==> staged.onCpu && staged.contiguous && !staged.sameDtype)
            && (r == Err(StagedFeatures) <==>
                staged.onCpu && staged.contiguous && staged.sameDtype && !staged.sameFeatures)
            && (r == Err(StagedTooShort) ==> |staged.rows| < n)
  {
  }

  /** A staged view that holds the step's hidden states is interchangeable with them: it is accepted, and the step
      leaves the same cache as without it. */
  lemma StagedViewIsInvisible(st: Store, step: Step, staged: Staged)
    requires StoreOk(st) && StepOk(step, |st.hidden|) && step.hidden.Some?
    requires Acceptable(staged) && step.n <= |staged.rows| && staged.rows[..step.n] == step.hidden.value[..step.n]
    ensures HiddenResolves(step, staged) && SyncStep(st, ResolvedStep(step, staged)) == SyncStep(st, step)
  {
    var h := step.hidden.value[..step.n];
    assert h[..step.n] == h;
    assert StepWrite(InitKeys(st, step.outputs, step.padded).mm.Keys, ResolvedStep(step, staged))
        == StepWrite(InitKeys(st, step.outputs, step.padded).mm.Keys, step);
  }

  /** And a read returns the same rows with it as without. */
  lemma StagedReadIsInvisible(cache: seq<Row>, q: Query, hits: set<string>, blockSize: nat, hidden: seq<Row>,
                              staged: Staged, req: string)
    requires 0 < blockSize && QueryOk(q) && req in q.batch.reqIds && HitsValid(q, hits, blockSize, |cache|)
    requires Acceptable(staged) && End(q, req) <= |staged.rows| && End(q, req) <= |hidden|
    requires staged.rows[..End(q, req)] == hidden[..End(q, req)]
    ensures RequestRows(cache, q, hits, blockSize, staged.rows, req) ==
              RequestRows(cache, q, hits, blockSize, hidden, req)
  {
    var start, n := q.starts[q.batch.reqIndex[req]], q.scheduled[req];
    WindowOfPrefix(staged.rows, End(q, req), start, n);
    WindowOfPrefix(hidden, End(q, req), start, n);
  }

  /** The tables of the done keys written. */
  ghost function TablesWritten(st: Store, step: Step, keys: set<string>, done: set<string>): Store
    requires StoreOk(st) && StepOk(step, |st.hidden|)
  {
    Apply(st, Write(step.slots[..step.n], None, Restrict(StepWrite(keys, step).mm, done)))
  }

  /** The hidden states and the tables of the done keys written. */
  ghost function PartialWrite(st: Store, step: Step, done: set<string>): Store
    requires StoreOk(st) && StepOk(step, |st.hidden|)
  {
    TablesWritten(Apply(st, HiddenPart(step)), step, st.mm.Keys, done)
  }

  /** With every key done the write is the step's whole write. */
  lemma WholeWrite(before: Store, step: Step)
    requires StoreOk(before) && StepOk(step, |before.hidden|)
    ensures var st := InitKeys(before, step.outputs, step.padded);
            PartialWrite(st, step, st.mm.Keys) == SyncStep(before, step)
  {
    var st := InitKeys(before, step.outputs, step.padded);
    var w := StepWrite(st.mm.Keys, step);
    assert Restrict(w.mm, st.mm.Keys) == w.mm;
    ApplyHiddenFirst(st, w);
  }

  class OmniTensorPrefixCache {
    const numBlocks: nat
    const blockSize: nat
    const hiddenSize: nat
    /** torch.cuda.is_available() */
    const cuda: bool

    const hiddenStates: array<Row>
    var mmOutputs: map<string, array<Row>>
    var mmKeys: set<string>
    var newHits: set<string>
    var deferred: map<string, map<string, seq<Chunk>>>
    var pending: Option<Write>

    function Size(): nat {
      Index(numBlocks, blockSize, 0)
    }

    ghost function Tables(): set<object>
      reads this`mmOutputs
    {
      {hiddenStates} + set k | k in mmOutputs :: mmOutputs[k]
    }

    /** The key set is the table map's domain; the tables are separate and of one size. */
    ghost predicate TablesOk()
      reads this`mmOutputs, this`mmKeys
    {
      && 0 < blockSize && hiddenStates.Length == Size()
      && mmKeys == mmOutputs.Keys
      && (forall k | k in mmOutputs :: mmOutputs[k].Length == Size() && mmOutputs[k] != hiddenStates)
      && (forall k, l | k in mmOutputs && l in mmOutputs && k != l :: mmOutputs[k] != mmOutputs[l])
    }

    /** The write in flight fits the tables. */
    ghost predicate Valid()
      reads this`mmOutputs, this`mmKeys, this`pending
    {
      TablesOk() && (pending.Some? ==> WriteOk(pending.value, Size()) && pending.value.mm.Keys <= mmKeys)
    }

    ghost function View(): (st: Store)
      requires TablesOk()
      reads this`mmOutputs, this`mmKeys, Tables()
      ensures StoreOk(st) && |st.hidden| == Size() && st.mm.Keys == mmOutputs.Keys
    {
      Store(hiddenStates[..], map k | k in mmOutputs :: mmOutputs[k][..])
    }

    ghost function AsyncView(): (a: Async)
      requires Valid()
      reads this`mmOutputs, this`mmKeys, this`pending, Tables()
      ensures AsyncOk(a) && |a.store.hidden| == Size()
    {
      Async(View(), pending)
    }

    constructor (numBlocks: nat, blockSize: nat, hiddenSize: nat, cuda: bool)
      requires 0 < blockSize
      ensures Valid() && fresh(Tables())
      ensures this.numBlocks == numBlocks && this.blockSize == blockSize && this.hiddenSize == hiddenSize
              && this.cuda == cuda
      ensures AsyncView() == Async(NewStore(Size(), hiddenSize), None)
      ensures newHits == {} && deferred == map[] && mmOutputs == map[] && pending == None
      ensures ZeroTable(View().hidden, numBlocks * blockSize, hiddenSize)
    {
      this.numBlocks, this.blockSize, this.hiddenSize, this.cuda := numBlocks, blockSize, hiddenSize, cuda;
      hiddenStates := new Row[Index(numBlocks, blockSize, 0)](_ => seq(hiddenSize, _ => 0.0));
      mmOutputs, mmKeys, newHits, deferred, pending := map[], {}, {}, map[], None;
      new;
      IndexValue(numBlocks, blockSize, 0);
      assert hiddenStates[..] == Zeros(Size(), hiddenSize);
    }

    /** _get_cache_tensor */
    method NewTable(width: nat) returns (table: array<Row>)
      ensures fresh(table) && table.Length == Size() && table[..] == Zeros(Size(), width)
    {
      table := new Row[Size()](_ => seq(width, _ => 0.0));
    }

    /** Enters a table in both the map and the key set. */
    method EnterTable(key: string, table: array<Row>)
      requires TablesOk() && key !in mmOutputs && table !in Tables() && table.Length == Size()
      modifies this`mmOutputs, this`mmKeys
      ensures TablesOk() && mmOutputs.Keys == old(mmOutputs.Keys) + {key} && Tables() <= old(Tables()) + {table}
      ensures View() == old(View()).(mm := old(View()).mm[key := table[..]])
    {
      mmOutputs := mmOutputs[key := table];
      mmKeys := mmKeys + {key};
    }

    /** A new zero table. */
    method AddTable(key: string, width: nat)
      requires TablesOk() && key !in mmOutputs
      modifies this`mmOutputs, this`mmKeys
      ensures TablesOk() && mmOutputs.Keys == old(mmOutputs.Keys) + {key} && fresh(Tables() - old(Tables()))
      ensures View() == old(View()).(mm := old(View()).mm[key := Zeros(Size(), width)])
    {
      var table := NewTable(width);
      assert View() == old(View());
      EnterTable(key, table);
    }

    /** One item of the outputs: its table, if it is to have one and has none. */
    method InitKey(key: string, output: Output, seqLen: nat)
      requires TablesOk()
      modifies this`mmOutputs, this`mmKeys
      ensures TablesOk() && old(mmOutputs.Keys) <= mmOutputs.Keys && fresh(Tables() - old(Tables()))
      ensures View() == if Cacheable(output, seqLen) && key !in old(mmKeys)
                        then old(View()).(mm := old(View()).mm[key := Zeros(Size(), output.width)]) else old(View())
    {
      if Cacheable(output, seqLen) && key !in mmKeys {
        AddTable(key, output.width);
      }
    }

    /** The loop over the items, in any order. */
    method InitEach(outputs: map<string, Output>, seqLen: nat)
      requires TablesOk()
      modifies this`mmOutputs, this`mmKeys
      ensures TablesOk() && old(mmOutputs.Keys) <= mmOutputs.Keys && fresh(Tables() - old(Tables()))
      ensures View() == InitKeys(old(View()), outputs, seqLen)
    {
      ghost var st := View();
      var done: set<string> := {};
      assert InitKeys(st, Restrict(outputs, done), seqLen) == st;
      while done < outputs.Keys
        invariant TablesOk() && old(mmOutputs.Keys) <= mmOutputs.Keys && fresh(Tables() - old(Tables()))
                  && done <= outputs.Keys
        invariant View() == InitKeys(st, Restrict(outputs, done), seqLen)
        decreases outputs.Keys - done
      {
        var key :| key in outputs && key !in done;
        InitOneMore(st, outputs, seqLen, done, key);
        InitKey(key, outputs[key], seqLen);
        done := done + {key};
      }
      assert Restrict(outputs, done) == outputs;
    }

    /** maybe_init_missing_mm_cache_keys */
    method InitMissingKeys(outputs: map<string, Output>, seqLen: nat)
      requires TablesOk()
      modifies this`mmOutputs, this`mmKeys
      ensures TablesOk() && old(mmOutputs.Keys) <= mmOutputs.Keys && fresh(Tables() - old(Tables()))
      ensures View() == InitKeys(old(View()), outputs, seqLen) && TablesAdded(old(View()), outputs, seqLen, View())
    {
      InitKeysAdds(View(), outputs, seqLen);
      InitEach(outputs, seqLen);
    }

    /** index_copy_ into one table. */
    method ScatterKey(key: string, slots: seq<nat>, rows: seq<Row>)
      requires TablesOk() && key in mmOutputs && InRange(slots, Size()) && Distinct(slots) && |rows| == |slots|
      modifies mmOutputs[key]
      ensures View() == old(View()).(mm := old(View()).mm[key := IndexCopy(old(View()).mm[key], slots, rows)])
    {
      IndexCopyInPlace(mmOutputs[key], slots, rows);
    }

    /** Scatters rows into the tables of their keys, one index_copy_ each, in any order. */
    method ScatterKeys(slots: seq<nat>, rows: map<string, seq<Row>>)
      requires TablesOk() && rows.Keys <= mmOutputs.Keys && WriteOk(Write(slots, None, rows), Size())
      modifies Tables()
      ensures View() == Apply(old(View()), Write(slots, None, rows))
    {
      ghost var st := View();
      var done: set<string> := {};
      assert Apply(st, Write(slots, None, Restrict(rows, done))) == st;
      while done < rows.Keys
        invariant done <= rows.Keys
        invariant View() == Apply(st, Write(slots, None, Restrict(rows, done)))
        decreases rows.Keys - done
      {
        var key :| key in rows && key !in done;
        ApplyOneMore(st, slots, rows, done, key);
        ScatterKey(key, slots, rows[key]);
        done := done + {key};
      }
      assert Restrict(rows, done) == rows;
    }

    // ---- the asynchronous route ----

    /** index_copy_ into the hidden states, if there are any. */
    method WriteHidden(slots: seq<nat>, hidden: Option<seq<Row>>)
      requires TablesOk() && WriteOk(Write(slots, hidden, map[]), Size())
      modifies hiddenStates
      ensures View() == Apply(old(View()), Write(slots, hidden, map[]))
    {
      if hidden.Some? {
        IndexCopyInPlace(hiddenStates, slots, hidden.value);
      }
    }

    /** The write itself: nothing for no slots, else the hidden states and then every table. */
    method ApplyWrite(w: Write)
      requires TablesOk() && WriteOk(w, Size()) && w.mm.Keys <= mmKeys
      modifies Tables()
      ensures View() == Apply(old(View()), w)
    {
      if w.slots == [] {
        EmptyWriteIsNothing(View(), w);
        return;
      }
      ApplyHiddenFirst(View(), w);
      WriteHidden(w.slots, w.hidden);
      ScatterKeys(w.slots, w.mm);
    }

    /** _consume_pending_write */
    method ConsumePendingWrite()
      requires Valid()
      modifies this`pending, Tables()
      ensures Valid() && pending == None && AsyncView() == Consume(old(AsyncView()))
      ensures Tables() == old(Tables())
    {
      if pending == None {
        return;
      }
      var w := pending.value;
      pending := None;
      ApplyWrite(w);
    }

    /** The rows of the keys that this step caches. */
    method CacheableRows(step: Step) returns (rows: map<string, seq<Row>>)
      requires TablesOk() && StepOk(step, Size())
      ensures rows == StepWrite(mmKeys, step).mm
      ensures forall k :: k in rows <==> k in mmKeys && k in step.outputs && k !in step.skip
                                         && step.outputs[k].Tokens? && step.n <= |step.outputs[k].rows|
      ensures forall k | k in rows :: rows[k] == step.outputs[k].rows[..step.n]
    {
      rows := map[];
      var done: set<string> := {};
      while done < mmKeys
        invariant done <= mmKeys && rows == StepWrite(done, step).mm
        decreases mmKeys - done
      {
        var k :| k in mmKeys && k !in done;
        done := done + {k};
        if k in step.skip {
          continue;
        }
        if k !in step.outputs || !step.outputs[k].Tokens? {
          continue;
        }
        if |step.outputs[k].rows| < step.n {
          continue;
        }
        rows := rows[k := step.outputs[k].rows[..step.n]];
      }
    }

    /** Leaves this step's copy pending, if there is anything to copy. */
    method PutInFlight(step: Step, rows: map<string, seq<Row>>)
      requires Valid() && StepOk(step, Size()) && pending == None && rows.Keys <= mmKeys
               && forall k | k in rows :: |rows[k]| == step.n
      modifies this`pending
      ensures Valid()
      ensures AsyncView() == Async(old(View()), if step.hidden == None && rows == map[] then None
        else Some(Write(step.slots[..step.n],
                        if step.hidden.Some? then Some(step.hidden.value[..step.n]) else None, rows)))
    {
      if step.hidden == None && rows == map[] {
        return;
      }
      pending := Some(Write(step.slots[..step.n],
                            if step.hidden.Some? then Some(step.hidden.value[..step.n]) else None, rows));
    }

    /** Adds the step's new tables, and picks the rows to copy. */
    method PickRows(step: Step) returns (rows: map<string, seq<Row>>)
      requires Valid() && StepOk(step, Size())
      modifies this`mmOutputs, this`mmKeys
      ensures Valid() && fresh(Tables() - old(Tables()))
      ensures View() == InitKeys(old(View()), step.outputs, step.padded)
      ensures rows == StepWrite(mmKeys, step).mm && rows.Keys <= mmKeys
    {
      InitMissingKeys(step.outputs, step.padded);
      rows := CacheableRows(step);
    }

    /** Adds the step's new tables, picks the rows to copy, and consumes the previous write. */
    method PrepareWrite(step: Step) returns (rows: map<string, seq<Row>>)
      requires Valid() && StepOk(step, Size())
      modifies this`mmOutputs, this`mmKeys, this`pending, Tables()
      ensures Valid() && fresh(Tables() - old(Tables()))
      ensures AsyncView() == Consume(Async(InitKeys(old(View()), step.outputs, step.padded), old(pending)))
      ensures rows == StepWrite(InitKeys(old(View()), step.outputs, step.padded).mm.Keys, step).mm
              && rows.Keys <= mmKeys && pending == None
    {
      rows := PickRows(step);
      ghost var before := AsyncView();
      assert before == Async(InitKeys(old(View()), step.outputs, step.padded), old(pending));
      ConsumePendingWrite();
      assert AsyncView() == Consume(before);
    }

    /** schedule_async_write. Without CUDA nothing happens. */
    method ScheduleAsyncWrite(step: Step)
      requires Valid() && StepOk(step, Size())
      modifies this`mmOutputs, this`mmKeys, this`pending, Tables()
      ensures Valid() && fresh(Tables() - old(Tables()))
      ensures AsyncView() == if cuda then Schedule(old(AsyncView()), step) else old(AsyncView())
    {
      if !cuda {
        return;
      }
      ghost var a := AsyncView();
      var rows := PrepareWrite(step);
      ScheduleIs(a, step, rows);
      PutInFlight(step, rows);
    }

    /** drain_ready_async_writes; ready is what the event's query answers. */
    method DrainReadyAsyncWrites(ready: bool) returns (applied: nat)
      requires Valid()
      modifies this`pending, Tables()
      ensures Valid() && AsyncView() == Drain(old(AsyncView()), ready)
      ensures applied == if old(pending).Some? && ready then 1 else 0
      ensures applied == 0 ==> View() == old(View()) && pending == old(pending)
      ensures applied == 1 ==> pending == None && Landed(old(View()), old(pending).value, View())
    {
      DrainLands(AsyncView(), ready);
      if pending == None || !ready {
        return 0;
      }
      ConsumePendingWrite();
      return 1;
    }

    // ---- the synchronous route ----

    /** One scatter of an update, for a key whose output covers the unpadded tokens if it is written at all. */
    method UpdateTable(step: Step, key: string, ghost st: Store, ghost w: Write, ghost seen: set<string>)
      requires TablesOk() && StepOk(step, Size()) && key in mmKeys && key !in seen
      requires StoreOk(st) && |st.hidden| == Size() && st.mm.Keys == mmKeys
               && w == Write(step.slots[..step.n], None, StepWrite(mmKeys, step).mm)
      requires key in step.outputs && key !in step.skip ==> Covers(step.outputs[key], step.n)
      requires View() == Apply(st, Write(w.slots, None, Restrict(w.mm, seen)))
      modifies Tables()
      ensures View() == Apply(st, Write(w.slots, None, Restrict(w.mm, seen + {key})))
    {
      if key in step.outputs && key !in step.skip {
        ApplyOneMore(st, w.slots, w.mm, seen, key);
        ScatterKey(key, step.slots[..step.n], step.outputs[key].rows[..step.n]);
      } else {
        assert Restrict(w.mm, seen + {key}) == Restrict(w.mm, seen);
      }
    }

    /** The scatters of one step, in any order; stops at an output that does not cover the unpadded tokens. */
    method UpdateTables(step: Step) returns (r: Result<(), CacheError>, ghost done: set<string>)
      requires TablesOk() && StepOk(step, Size())
      modifies Tables()
      ensures r.Ok? <==> OutputsCover(mmKeys, step)
      ensures r.Ok? ==> done == mmKeys
      ensures r.Err? ==> r.error == OutputTooShort && StoppedAt(mmKeys, step, done)
      ensures View() == TablesWritten(old(View()), step, mmKeys, done)
    {
      ghost var st, w := View(), Write(step.slots[..step.n], None, StepWrite(mmKeys, step).mm);
      var seen: set<string> := {};
      assert Apply(st, Write(w.slots, None, Restrict(w.mm, seen))) == st;
      while seen < mmKeys
        invariant seen <= mmKeys && OutputsCover(seen, step)
        invariant View() == Apply(st, Write(w.slots, None, Restrict(w.mm, seen)))
        decreases mmKeys - seen
      {
        var key :| key in mmKeys && key !in seen;
        if FallsShort(step, key) {
          return Err(OutputTooShort), seen;
        }
        UpdateTable(step, key, st, w, seen);
        seen := seen + {key};
      }
      return Ok(()), seen;
    }

    /** The hidden states written and the new tables added. */
    method UpdateHidden(step: Step)
      requires Valid() && StepOk(step, Size())
      modifies this`mmOutputs, this`mmKeys, Tables()
      ensures Valid() && fresh(Tables() - old(Tables()))
      ensures View() == Apply(InitKeys(old(View()), step.outputs, step.padded), HiddenPart(step))
      ensures mmKeys == InitKeys(old(View()), step.outputs, step.padded).mm.Keys
    {
      ghost var before := View();
      var w := HiddenPart(step);
      WriteHidden(w.slots, w.hidden);
      InitMissingKeys(step.outputs, step.padded);
      HiddenThenInit(before, w.slots, w.hidden, step.outputs, step.padded);
    }

    method UpdateResolved(step: Step) returns (r: Result<(), CacheError>, ghost done: set<string>)
      requires Valid() && StepOk(step, Size())
      modifies this`mmOutputs, this`mmKeys, Tables()
      ensures Valid() && fresh(Tables() - old(Tables()))
      ensures r.Ok? <==> OutputsCover(InitKeys(old(View()), step.outputs, step.padded).mm.Keys, step)
      ensures r.Ok? ==> View() == SyncStep(old(View()), step)
      ensures r.Err? ==>
                && r.error == OutputTooShort
                && StoppedAt(InitKeys(old(View()), step.outputs, step.padded).mm.Keys, step, done)
      ensures View() == PartialWrite(InitKeys(old(View()), step.outputs, step.padded), step, done)
    {
      ghost var before, st := View(), InitKeys(View(), step.outputs, step.padded);
      UpdateHidden(step);
      r, done := UpdateTables(step);
      WholeWrite(before, step);
    }

    /** update_omni_tensor_prefix_cache. A bad pre-staged view is refused before anything is written. A cached output
        that does not cover the unpadded tokens makes its own scatter fail, after the scatters before it. */
    method Update(step: Step, staged: Staged) returns (r: Result<(), CacheError>)
      requires Valid() && StepOk(step, Size())
      modifies this`mmOutputs, this`mmKeys, Tables()
      ensures Valid() && fresh(Tables() - old(Tables()))
      ensures !HiddenResolves(step, staged) ==>
              r.Err? && r.error == ResolveHiddenStates(step.hidden.value, step.n, staged).error && View() == old(View())
      ensures HiddenResolves(step, staged) ==>
                (r.Ok? <==> OutputsCover(InitKeys(old(View()), step.outputs, step.padded).mm.Keys, step))
      ensures r.Ok? <==>
              && (step.hidden == None || staged.NotStaged?
                  || (&& staged.onCpu && staged.contiguous && staged.sameDtype && staged.sameFeatures
                      && step.n <= |staged.rows|))
              && forall k | k in step.outputs && k !in step.skip
                  && (k in old(mmKeys) || (step.outputs[k].Tokens? && |step.outputs[k].rows| == step.padded)) ::
                   step.outputs[k].Tokens? && step.n <= |step.outputs[k].rows|
      ensures HiddenResolves(step, staged) && r.Ok? ==> View() == SyncStep(old(View()), ResolvedStep(step, staged))
      ensures HiddenResolves(step, staged) && r.Err? ==>
                && r.error == OutputTooShort
                && exists done ::
                     && StoppedAt(InitKeys(old(View()), step.outputs, step.padded).mm.Keys, step, done)
                     && View() == PartialWrite(InitKeys(old(View()), step.outputs, step.padded),
                                               ResolvedStep(step, staged), done)
    {
      if !HiddenResolves(step, staged) {
        return Err(ResolveHiddenStates(step.hidden.value, step.n, staged).error);
      }
      ghost var done;
      r, done := UpdateResolved(ResolvedStep(step, staged));
    }

    // ---- the deferred route ----

    /** setdefault(req, {}).setdefault(key, []).append(chunk) */
    method StageChunk(req: string, key: string, c: Chunk)
      modifies this`deferred
      ensures forall r, k :: StagedFor(deferred, r, k) ==
                StagedFor(old(deferred), r, k) + if r == req && k == key then [c] else []
    {
      var perKey := if req in deferred then deferred[req] else map[];
      var chunks := if key in perKey then perKey[key] else [];
      deferred := deferred[req := perKey[key := chunks + [c]]];
    }

    /** One request's chunk of one key, if it has one. */
    method StageRequest(starts: seq<nat>, batch: Batch, outputs: map<string, Output>, scheduled: map<string, nat>,
                        req: string, key: string)
      requires BatchOk(batch) && req in batch.reqIds && batch.reqIndex[req] < |starts|
      modifies this`deferred
      ensures forall r, k :: StagedFor(deferred, r, k) == StagedFor(old(deferred), r, k) +
                (if r == req && k == key then StepChunks(starts, batch, outputs, scheduled, req, key) else [])
    {
      var chunks := StepChunks(starts, batch, outputs, scheduled, req, key);
      if chunks != [] {
        StageChunk(req, key, chunks[0]);
      }
    }

    /** The inner loop: every request's chunk of one key. */
    method StageKey(starts: seq<nat>, batch: Batch, outputs: map<string, Output>, scheduled: map<string, nat>,
                    key: string)
      requires BatchOk(batch) && forall r | r in batch.reqIds :: batch.reqIndex[r] < |starts|
      modifies this`deferred
      ensures forall r, k :: StagedFor(deferred, r, k) == StagedFor(old(deferred), r, k) +
                (if k == key && r in batch.reqIds then StepChunks(starts, batch, outputs, scheduled, r, key) else [])
    {
      for i := 0 to |batch.reqIds|
        invariant forall r, k :: StagedFor(deferred, r, k) == StagedFor(old(deferred), r, k) +
                    (if k == key && r in batch.reqIds[..i] then StepChunks(starts, batch, outputs, scheduled, r, key)
                     else [])
      {
        var r := batch.reqIds[i];
        assert r !in batch.reqIds[..i];
        assert forall q | q in batch.reqIds[..i + 1] :: q in batch.reqIds[..i] || q == r;
        StageRequest(starts, batch, outputs, scheduled, r, key);
      }
      assert batch.reqIds[..|batch.reqIds|] == batch.reqIds;
    }

    /** stage_deferred_mm_outputs. */
    method StageDeferred(starts: seq<nat>, batch: Batch, outputs: map<string, Output>, scheduled: map<string, nat>,
                         keys: set<string>)
      requires BatchOk(batch) && forall r | r in batch.reqIds :: batch.reqIndex[r] < |starts|
      modifies this`deferred
      ensures forall r, k :: StagedFor(deferred, r, k) == StagedFor(old(deferred), r, k) +
                (if k in keys && r in batch.reqIds then StepChunks(starts, batch, outputs, scheduled, r, k) else [])
    {
      var done: set<string> := {};
      while done < keys
        invariant done <= keys
        invariant forall r, k :: StagedFor(deferred, r, k) == StagedFor(old(deferred), r, k) +
                    (if k in done && r in batch.reqIds then StepChunks(starts, batch, outputs, scheduled, r, k) else [])
        decreases keys - done
      {
        var key :| key in keys && key !in done;
        StageKey(starts, batch, outputs, scheduled, key);
        done := done + {key};
      }
    }

    /** discard_deferred_mm_outputs: no table is touched. */
    method DiscardDeferred(req: string)
      requires Valid()
      modifies this`deferred
      ensures Valid() && deferred == old(deferred) - {req} && Tables() == old(Tables()) && View() == old(View())
    {
      deferred := deferred - {req};
    }

    /** The key's table, created if need be. */
    method InitDeferredKey(key: string, width: nat)
      requires Valid()
      modifies this`mmOutputs, this`mmKeys
      ensures Valid() && key in mmOutputs && fresh(Tables() - old(Tables()))
      ensures View() == old(View()).(mm := old(View()).mm[key := TableBefore(old(View()), key, width)])
    {
      if key !in mmKeys {
        AddTable(key, width);
      }
    }

    /** Scatters the rows of a chunk that have a block. */
    method ScatterChunk(table: seq<nat>, ghost used: nat, key: string, c: Chunk)
      requires TablesOk() && key in mmOutputs
      requires RowOk(BlockRow(table, used, blockSize, numBlocks))
               && RangeOk(BlockRow(table, used, blockSize, numBlocks), c.start, |c.rows|)
      modifies mmOutputs[key]
      ensures Tables() == old(Tables())
      ensures var now := WriteChunk(BlockRow(table, used, blockSize, numBlocks), old(View()).mm[key], c);
              View() == old(View()).(mm := old(View()).mm[key := now])
    {
      SlotsOk(BlockRow(table, used, blockSize, numBlocks), c.start, |c.rows|);
      var slots := SlotIds(table, blockSize, c.start, |c.rows|);
      if slots == [] {
        assert View().mm[key := View().mm[key]] == View().mm;
        return;
      }
      ScatterKey(key, slots, c.rows[..|slots|]);
    }

    /** _write_deferred_mm_tensor: creates the table if need be, drops the rows past the block table, scatters the
        rest. */
    method WriteDeferredTensor(table: seq<nat>, ghost used: nat, key: string, tensors: seq<seq<Row>>, start: nat)
      requires Valid() && RowOk(BlockRow(table, used, blockSize, numBlocks))
               && RangeOk(BlockRow(table, used, blockSize, numBlocks), start, |Flat(tensors)|)
      requires Flat(tensors) != []
      modifies this`mmOutputs, this`mmKeys, Tables()
      ensures Valid() && fresh(Tables() - old(Tables()))
      ensures View() == CommitInOrder(BlockRow(table, used, blockSize, numBlocks), old(View()), key,
                                      [Chunk(start, Flat(tensors))])
    {
      var rows := Flat(tensors);
      ghost var st := View();
      CommitOneChunk(BlockRow(table, used, blockSize, numBlocks), st, key, Chunk(start, rows));
      InitDeferredKey(key, |rows[0]|);
      ScatterChunk(table, used, key, Chunk(start, rows));
    }

    /** Writes the run held back, if there is one; the next run may start anywhere. */
    method FlushTensors(table: seq<nat>, ghost used: nat, key: string, tensors: seq<seq<Row>>, start: nat,
                        ghost st: Store, ghost cs: seq<Chunk>, ghost i: nat, ghost flushed: seq<Chunk>,
                            ghost run: seq<Chunk>, ghost expectedStart: nat, ghost next: nat)
      requires Valid() && RowOk(BlockRow(table, used, blockSize, numBlocks)) && StoreOk(st) && |st.hidden| == Size()
               && i <= |cs|
      requires Coalescing(BlockRow(table, used, blockSize, numBlocks), cs, i, flushed, run, tensors, start,
                          expectedStart)
      requires View() == CommitInOrder(BlockRow(table, used, blockSize, numBlocks), st, key, flushed)
      modifies this`mmOutputs, this`mmKeys, Tables()
      ensures Valid() && fresh(Tables() - old(Tables()))
      ensures Coalescing(BlockRow(table, used, blockSize, numBlocks), cs, i, flushed + run, [], [], next, next)
      ensures View() == CommitInOrder(BlockRow(table, used, blockSize, numBlocks), st, key, flushed + run)
    {
      CoalesceFlush(BlockRow(table, used, blockSize, numBlocks), cs, i, flushed, run, tensors, start, expectedStart,
                    next);
      if tensors == [] {
        assert flushed + run == flushed;
        return;
      }
      FlushRun(BlockRow(table, used, blockSize, numBlocks), st, key, flushed, run, start, Flat(tensors));
      WriteDeferredTensor(table, used, key, tensors, start);
    }

    /** One chunk: skipped if empty; otherwise held back with the chunks before it, which are written first if it does
        not follow on from them. */
    method Coalesce(table: seq<nat>, ghost used: nat, key: string, cs: seq<Chunk>, i: nat, tensors: seq<seq<Row>>,
                    firstStart: nat, expectedStart: nat,
                    ghost st: Store, ghost flushed: seq<Chunk>, ghost run: seq<Chunk>)
      returns (tensors': seq<seq<Row>>, firstStart': nat, expectedStart': nat, ghost flushed': seq<Chunk>,
               ghost run': seq<Chunk>)
      requires Valid() && RowOk(BlockRow(table, used, blockSize, numBlocks)) && StoreOk(st) && |st.hidden| == Size()
               && i < |cs|
      requires ChunksOk(BlockRow(table, used, blockSize, numBlocks), NonEmpty(cs))
      requires Coalescing(BlockRow(table, used, blockSize, numBlocks), cs, i, flushed, run, tensors, firstStart,
                          expectedStart)
      requires View() == CommitInOrder(BlockRow(table, used, blockSize, numBlocks), st, key, flushed)
      modifies this`mmOutputs, this`mmKeys, Tables()
      ensures Valid() && fresh(Tables() - old(Tables()))
      ensures Coalescing(BlockRow(table, used, blockSize, numBlocks), cs, i + 1, flushed', run', tensors', firstStart',
                         expectedStart')
      ensures View() == CommitInOrder(BlockRow(table, used, blockSize, numBlocks), st, key, flushed')
    {
      ghost var t := BlockRow(table, used, blockSize, numBlocks);
      tensors', firstStart', expectedStart', flushed', run' := tensors, firstStart, expectedStart, flushed, run;
      var c := cs[i];
      if c.rows == [] {
        CoalesceSkip(t, cs, i, flushed, run, tensors, firstStart, expectedStart);
        return;
      }
      if c.start != expectedStart {
        FlushTensors(table, used, key, tensors, firstStart, st, cs, i, flushed, run, expectedStart, c.start);
        tensors', firstStart', expectedStart', flushed', run' := [], c.start, c.start, flushed + run, [];
      }
      CoalesceExtend(t, cs, i, flushed', run', tensors', firstStart', expectedStart');
      tensors', expectedStart', run' := tensors' + [c.rows], expectedStart' + |c.rows|, run' + [c];
    }

    /** The loop over the sorted chunks. */
    method CommitSorted(table: seq<nat>, ghost used: nat, key: string, cs: seq<Chunk>)
      requires Valid() && RowOk(BlockRow(table, used, blockSize, numBlocks))
               && ChunksOk(BlockRow(table, used, blockSize, numBlocks), NonEmpty(cs)) && cs != []
      modifies this`mmOutputs, this`mmKeys, Tables()
      ensures Valid() && fresh(Tables() - old(Tables()))
      ensures View() == CommitInOrder(BlockRow(table, used, blockSize, numBlocks), old(View()), key, NonEmpty(cs))
    {
      ghost var t, st := BlockRow(table, used, blockSize, numBlocks), View();
      var tensors, firstStart, expectedStart := [], cs[0].start, cs[0].start;
      ghost var flushed: seq<Chunk>, run: seq<Chunk> := [], [];
      for i := 0 to |cs|
        invariant Valid() && fresh(Tables() - old(Tables()))
        invariant Coalescing(t, cs, i, flushed, run, tensors, firstStart, expectedStart)
        invariant View() == CommitInOrder(t, st, key, flushed)
      {
        tensors, firstStart, expectedStart, flushed, run :=
          Coalesce(table, used, key, cs, i, tensors, firstStart, expectedStart, st, flushed, run);
      }
      assert cs[..|cs|] == cs;
      FlushTensors(table, used, key, tensors, firstStart, st, cs, |cs|, flushed, run, expectedStart, 0);
    }

    /** _commit_deferred_mm_key: sorts, joins chunks that lie end to end, writes each joined run once. */
    method CommitDeferredKey(table: seq<nat>, ghost used: nat, key: string, chunks: seq<Chunk>)
      requires Valid() && CommitOk(BlockRow(table, used, blockSize, numBlocks), chunks, Size())
      modifies this`mmOutputs, this`mmKeys, Tables()
      ensures Valid() && fresh(Tables() - old(Tables()))
      ensures View() == CommitKey(BlockRow(table, used, blockSize, numBlocks), old(View()), key, chunks)
    {
      if chunks == [] {
        return;
      }
      CommitSorted(table, used, key, SortByStart(chunks));
    }

    /** The keys of one request, in any order. */
    method CommitRequest(table: seq<nat>, ghost used: nat, perKey: map<string, seq<Chunk>>)
      requires Valid() && KeysOk(BlockRow(table, used, blockSize, numBlocks), perKey)
      modifies this`mmOutputs, this`mmKeys, Tables()
      ensures Valid() && fresh(Tables() - old(Tables()))
      ensures View() == CommitKeys(BlockRow(table, used, blockSize, numBlocks), old(View()), perKey)
    {
      ghost var t, st := BlockRow(table, used, blockSize, numBlocks), View();
      var done: set<string> := {};
      assert CommitKeys(t, st, Restrict(perKey, done)) == st;
      while done < perKey.Keys
        invariant Valid() && fresh(Tables() - old(Tables())) && done <= perKey.Keys
        invariant View() == CommitKeys(t, st, Restrict(perKey, done))
        decreases perKey.Keys - done
      {
        var key :| key in perKey && key !in done;
        CommitOneMore(t, st, perKey, done, key);
        CommitDeferredKey(table, used, key, perKey[key]);
        done := done + {key};
      }
      assert Restrict(perKey, done) == perKey;
    }

    /** One finished request: popped, and committed if it is still in the batch. */
    method PopAndCommit(req: string, batch: Batch, ghost used: seq<nat>)
      requires Valid() && BatchOk(batch) && |used| == |batch.table|
               && CommitsOk(deferred, [req], batch, used, blockSize, numBlocks)
      modifies this`deferred, this`mmOutputs, this`mmKeys, Tables()
      ensures Valid() && fresh(Tables() - old(Tables()))
      ensures deferred == old(deferred) - {req}
      ensures View() == CommitOne(old(View()), old(deferred), req, batch, used, blockSize, numBlocks)
    {
      if req !in deferred {
        assert deferred - {req} == deferred;
        return;
      }
      var perKey := deferred[req];
      DiscardDeferred(req);
      if req in batch.reqIndex {
        assert req in [req];
        CommitRequest(batch.table[batch.reqIndex[req]], used[batch.reqIndex[req]], perKey);
      }
    }

    /** commit_deferred_mm_outputs: pops each finished request, and commits its keys if the request is still in the
        batch. used gives, per batch row, how many entries of its block table are in use. */
    method CommitDeferred(finished: seq<string>, batch: Batch, ghost used: seq<nat>)
      requires Valid() && BatchOk(batch) && |used| == |batch.table|
               && CommitsOk(deferred, finished, batch, used, blockSize, numBlocks)
      modifies this`deferred, this`mmOutputs, this`mmKeys, Tables()
      ensures Valid() && fresh(Tables() - old(Tables()))
      ensures deferred == Without(old(deferred), finished)
      ensures forall r :: r in deferred <==> r in old(deferred) && r !in finished
      ensures forall r | r in deferred :: deferred[r] == old(deferred)[r]
      ensures View() == CommitRequests(old(View()), old(deferred), finished, batch, used, blockSize, numBlocks)
    {
      ghost var st, def := View(), deferred;
      for i := 0 to |finished|
        invariant Valid() && fresh(Tables() - old(Tables()))
        invariant deferred == Without(def, finished[..i])
        invariant CommitsOk(deferred, finished[i..], batch, used, blockSize, numBlocks)
        invariant CommitRequests(View(), deferred, finished[i..], batch, used, blockSize, numBlocks) ==
                    CommitRequests(st, def, finished, batch, used, blockSize, numBlocks)
      {
        CommitRequestsStep(View(), deferred, finished, i, batch, used, blockSize, numBlocks);
        WithoutOneMore(def, finished, i);
        PopAndCommit(finished[i], batch, used);
      }
      assert finished[..|finished|] == finished && finished[|finished|..] == [];
    }

    // ---- the read route ----

    method AddHit(req: string)
      modifies this`newHits
      ensures newHits == old(newHits) + {req}
    {
      newHits := newHits + {req};
    }

    method ResetHits()
      modifies this`newHits
      ensures newHits == {}
    {
      newHits := {};
    }

    /** How many scheduled rows the batch needs. */
    method RequiredTokens(q: Query) returns (n: nat)
      requires QueryOk(q)
      ensures forall r | r in q.batch.reqIds :: q.starts[q.batch.reqIndex[r]] + q.scheduled[r] <= n
      ensures n == 0 || exists r :: r in q.batch.reqIds && q.starts[q.batch.reqIndex[r]] + q.scheduled[r] == n
    {
      n := 0;
      for i := 0 to |q.batch.reqIds|
        invariant forall j | 0 <= j < i :: End(q, q.batch.reqIds[j]) <= n
        invariant n == 0 || exists r :: r in q.batch.reqIds && End(q, r) == n
      {
        var r := q.batch.reqIds[i];
        if n < End(q, r) {
          n := End(q, r);
        }
      }
    }

    /** _get_merged_tensors on one table: refuses a staged view that falls short of some request; otherwise a hit gets
        its cached blocks and its new rows, and a miss gets exactly its new rows. */
    method MergedTensors(table: array<Row>, q: Query, hidden: seq<Row>, staged: Staged)
      returns (r: Result<map<string, seq<Row>>, CacheError>)
      requires 0 < blockSize && QueryOk(q) && HitsValid(q, newHits, blockSize, table.Length)
      ensures r.Ok? <==>
              staged.NotStaged?
              || (&& staged.onCpu && staged.contiguous && staged.sameDtype && staged.sameFeatures
                  && forall req | req in q.batch.reqIds ::
                       q.starts[q.batch.reqIndex[req]] + q.scheduled[req] <= |staged.rows|)
      ensures r.Err? ==>
                r.error == if Acceptable(staged) then StagedTooShort else ResolveHiddenStates(hidden, 0, staged).error
      ensures r.Ok? ==> forall req :: req in r.value <==> req in q.batch.reqIds
      ensures r.Ok? ==> forall req | req in r.value ::
                r.value[req] == RequestRows(table[..], q, newHits, blockSize,
                                            if staged.NotStaged? then hidden else staged.rows, req)
    {
      var n := RequiredTokens(q);
      var resolved := ResolveHiddenStates(hidden, n, staged);
      if resolved.Err? {
        return Err(resolved.error);
      }
      var rows: map<string, seq<Row>> := map[];
      ghost var source := if staged.NotStaged? then hidden else staged.rows;
      for i := 0 to |q.batch.reqIds|
        invariant forall req :: req in rows <==> req in q.batch.reqIds[..i]
        invariant forall req | req in rows :: rows[req] == RequestRows(table[..], q, newHits, blockSize, source, req)
      {
        var req := q.batch.reqIds[i];
        var idx := q.batch.reqIndex[req];
        var newRows := Window(resolved.value, q.starts[idx], q.scheduled[req]);
        assert newRows == Window(source, q.starts[idx], q.scheduled[req]) by {
          WindowOfPrefix(source, n, q.starts[idx], q.scheduled[req]);
        }
        if req in newHits {
          rows := rows[req := Merged(table[..], q.batch.table[idx], blockSize, q.batch.computed[idx], newRows)];
        } else {
          rows := rows[req := newRows];
        }
        assert q.batch.reqIds[..i + 1] == q.batch.reqIds[..i] + [req];
      }
      assert q.batch.reqIds[..|q.batch.reqIds|] == q.batch.reqIds;
      return Ok(rows);
    }

    /** get_merged_hidden_states */
    method MergedHiddenStates(q: Query, hidden: seq<Row>, staged: Staged)
      returns (r: Result<map<string, seq<Row>>, CacheError>)
      requires TablesOk() && QueryOk(q) && HitsValid(q, newHits, blockSize, Size())
      ensures r.Ok? <==>
              staged.NotStaged?
              || (&& staged.onCpu && staged.contiguous && staged.sameDtype && staged.sameFeatures
                  && forall req | req in q.batch.reqIds ::
                       q.starts[q.batch.reqIndex[req]] + q.scheduled[req] <= |staged.rows|)
      ensures r.Err? ==>
                r.error == if Acceptable(staged) then StagedTooShort else ResolveHiddenStates(hidden, 0, staged).error
      ensures r.Ok? ==> forall req :: req in r.value <==> req in q.batch.reqIds
      ensures r.Ok? ==> forall req | req in r.value ::
                r.value[req] == RequestRows(View().hidden, q, newHits, blockSize,
                                            if staged.NotStaged? then hidden else staged.rows, req)
    {
      r := MergedTensors(hiddenStates, q, hidden, staged);
    }

    /** The cached half of get_merged_multimodal_states: every key that has a table and an output this step. */
    method MergedMultimodal(q: Query, outputs: map<string, Output>) returns (merged: map<string, map<string, seq<Row>>>)
      requires TablesOk() && QueryOk(q) && HitsValid(q, newHits, blockSize, Size())
      requires forall k | k in mmKeys && k in outputs :: outputs[k].Tokens?
      ensures merged.Keys == mmKeys * outputs.Keys
      ensures forall k | k in merged :: merged[k].Keys == set req | req in q.batch.reqIds
      ensures forall k, req | k in merged && req in merged[k] ::
                merged[k][req] == RequestRows(View().mm[k], q, newHits, blockSize, outputs[k].rows, req)
    {
      merged := map[];
      var done: set<string> := {};
      while done < mmKeys
        invariant done <= mmKeys && merged.Keys == done * outputs.Keys
        invariant forall k | k in merged :: merged[k].Keys == set req | req in q.batch.reqIds
        invariant forall k, req | k in merged && req in merged[k] ::
                    merged[k][req] == RequestRows(View().mm[k], q, newHits, blockSize, outputs[k].rows, req)
        decreases mmKeys - done
      {
        var key :| key in mmKeys && key !in done;
        done := done + {key};
        if key in outputs {
          var r := MergedTensors(mmOutputs[key], q, outputs[key].rows, NotStaged);
          merged := merged[key := r.value];
        }
      }
    }
  }
}
