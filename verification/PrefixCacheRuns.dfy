/** Runs of events carried out on the class, and the reads after them. */
module PrefixCacheRuns {
  import opened Layout
  import opened CacheRows
  import opened DeferredChunks
  import opened CacheStore
  import opened CacheRuns
  import opened CacheReads
  import opened Options
  import opened PrefixCache

  /** A committed block-table row is a row of this cache. */
  predicate RowFits(e: Event, blockSize: nat, numBlocks: nat) {
    e.Commit? ==> e.t.blockSize == blockSize && e.t.numBlocks == numBlocks
  }

  ghost predicate RowsFit(es: seq<Event>, blockSize: nat, numBlocks: nat) {
    forall e | e in es :: RowFits(e, blockSize, numBlocks)
  }

  // ---- the asynchronous route ----

  /** A commit while a write is in flight: the write stays as it was. */
  method CommitAsync(cache: OmniTensorPrefixCache, t: BlockRow, key: string, chunks: seq<Chunk>)
    requires cache.Valid() && CommitOk(t, chunks, cache.Size())
    requires t.blockSize == cache.blockSize && t.numBlocks == cache.numBlocks
    modifies cache`mmOutputs, cache`mmKeys, cache.Tables()
    ensures cache.Valid() && fresh(cache.Tables() - old(cache.Tables()))
    ensures cache.AsyncView() == Async(CommitKey(t, old(cache.View()), key, chunks), old(cache.pending))
  {
    cache.CommitDeferredKey(t.table, t.used, key, chunks);
  }

  method DrainAsync(cache: OmniTensorPrefixCache, ready: bool)
    requires cache.Valid()
    modifies cache`pending, cache.Tables()
    ensures cache.Valid() && cache.AsyncView() == Drain(old(cache.AsyncView()), ready)
    ensures cache.Tables() == old(cache.Tables())
  {
    var _ := cache.DrainReadyAsyncWrites(ready);
  }

  /** One event: a step is scheduled, a write drained if it is ready, a key committed. */
  method DoAsync(cache: OmniTensorPrefixCache, e: Event, ghost deferred: set<string>)
    requires cache.Valid() && cache.cuda && EventOk(e, cache.Size(), deferred)
    requires RowFits(e, cache.blockSize, cache.numBlocks)
    modifies cache`mmOutputs, cache`mmKeys, cache`pending, cache.Tables()
    ensures cache.Valid() && fresh(cache.Tables() - old(cache.Tables()))
    ensures cache.AsyncView() == AsyncEvent(old(cache.AsyncView()), e, deferred)
  {
    ghost var a := cache.AsyncView();
    match e
    case Forward(step) =>
      cache.ScheduleAsyncWrite(step);
      assert cache.AsyncView() == Schedule(a, step);
    case DrainReady(ready) =>
      DrainAsync(cache, ready);
      assert cache.AsyncView() == Drain(a, ready);
    case Commit(t, key, chunks) =>
      CommitAsync(cache, t, key, chunks);
  }

  /** Any run of events leaves the cache that the run leaves as a value. */
  method RunAsync(cache: OmniTensorPrefixCache, es: seq<Event>, ghost deferred: set<string>)
    requires cache.Valid() && cache.cuda && RunOk(es, cache.Size(), deferred)
    requires RowsFit(es, cache.blockSize, cache.numBlocks)
    modifies cache`mmOutputs, cache`mmKeys, cache`pending, cache.Tables()
    ensures cache.Valid() && fresh(cache.Tables() - old(cache.Tables()))
    ensures cache.AsyncView() == AsyncRun(old(cache.AsyncView()), es, deferred)
  {
    ghost var a := cache.AsyncView();
    for i := 0 to |es|
      invariant cache.Valid() && fresh(cache.Tables() - old(cache.Tables()))
      invariant AsyncRun(cache.AsyncView(), es[i..], deferred) == AsyncRun(a, es, deferred)
    {
      assert es[i..][0] == es[i] && es[i..][1..] == es[i + 1..] && es[i] in es;
      DoAsync(cache, es[i], deferred);
    }
  }

  // ---- the synchronous route ----

  ghost predicate EventCovers(st: Store, e: Event) {
    e.Forward? ==> OutputsCover(InitKeys(st, e.step.outputs, e.step.padded).mm.Keys, e.step)
  }

  /** Every step's outputs cover its tokens, for the tables there are by then. */
  ghost predicate RunCovers(st: Store, es: seq<Event>, deferred: set<string>)
    requires StoreOk(st) && RunOk(es, |st.hidden|, deferred)
    decreases |es|
  {
    es != [] ==> EventCovers(st, es[0]) && RunCovers(SyncEvent(st, es[0], deferred), es[1..], deferred)
  }

  lemma UnstagedStep(st: Store, step: Step)
    requires StoreOk(st) && StepOk(step, |st.hidden|)
    ensures HiddenResolves(step, NotStaged) && SyncStep(st, ResolvedStep(step, NotStaged)) == SyncStep(st, step)
  {
    if step.hidden.Some? {
      var h := step.hidden.value[..step.n];
      assert h[..step.n] == h;
      assert StepWrite(InitKeys(st, step.outputs, step.padded).mm.Keys, ResolvedStep(step, NotStaged))
          == StepWrite(InitKeys(st, step.outputs, step.padded).mm.Keys, step);
    }
  }

  /** One event: a step is written at once, so nothing is ever in flight. */
  method DoSync(cache: OmniTensorPrefixCache, e: Event, ghost deferred: set<string>) returns (r: Result<(), CacheError>)
    requires cache.Valid() && cache.pending == None && EventOk(e, cache.Size(), deferred)
    requires RowFits(e, cache.blockSize, cache.numBlocks)
    modifies cache`mmOutputs, cache`mmKeys, cache.Tables()
    ensures cache.Valid() && fresh(cache.Tables() - old(cache.Tables()))
    ensures r.Ok? <==> EventCovers(old(cache.View()), e)
    ensures r.Ok? ==> cache.View() == SyncEvent(old(cache.View()), e, deferred)
  {
    match e
    case Forward(step) =>
      r := cache.Update(step, NotStaged);
      UnstagedStep(old(cache.View()), step);
    case DrainReady(ready) => r := Ok(());
    case Commit(t, key, chunks) =>
      cache.CommitDeferredKey(t.table, t.used, key, chunks);
      r := Ok(());
  }

  /** now is what the first i events left: the rest of the run decides, and ends, as the whole does. */
  ghost predicate OnCourse(st: Store, es: seq<Event>, deferred: set<string>, now: Store, i: nat) {
    && StoreOk(st) && RunOk(es, |st.hidden|, deferred) && StoreOk(now) && |now.hidden| == |st.hidden| && i <= |es|
    && SyncRun(now, es[i..], deferred) == SyncRun(st, es, deferred)
    && (RunCovers(now, es[i..], deferred) <==> RunCovers(st, es, deferred))
  }

  lemma OnCourseNext(st: Store, es: seq<Event>, deferred: set<string>, now: Store, i: nat)
    requires OnCourse(st, es, deferred, now, i) && i < |es|
    ensures es[i] in es && EventOk(es[i], |now.hidden|, deferred)
    ensures EventCovers(now, es[i]) ==> OnCourse(st, es, deferred, SyncEvent(now, es[i], deferred), i + 1)
    ensures !EventCovers(now, es[i]) ==> !RunCovers(st, es, deferred)
  {
    assert es[i..][0] == es[i] && es[i..][1..] == es[i + 1..];
  }

  lemma OnCourseStart(st: Store, es: seq<Event>, deferred: set<string>)
    requires StoreOk(st) && RunOk(es, |st.hidden|, deferred)
    ensures OnCourse(st, es, deferred, st, 0)
  {
    assert es[0..] == es;
  }

  lemma OnCourseEnd(st: Store, es: seq<Event>, deferred: set<string>, now: Store)
    requires OnCourse(st, es, deferred, now, |es|)
    ensures RunCovers(st, es, deferred) && now == SyncRun(st, es, deferred)
  {
    assert es[|es|..] == [];
  }

  /** The next event of a run. */
  method SyncOneMore(cache: OmniTensorPrefixCache, ghost st: Store, es: seq<Event>, ghost deferred: set<string>, i: nat)
    returns (r: Result<(), CacheError>)
    requires cache.Valid() && cache.pending == None && i < |es| && OnCourse(st, es, deferred, cache.View(), i)
    requires RowsFit(es, cache.blockSize, cache.numBlocks)
    modifies cache`mmOutputs, cache`mmKeys, cache.Tables()
    ensures cache.Valid() && fresh(cache.Tables() - old(cache.Tables()))
    ensures if r.Ok? then OnCourse(st, es, deferred, cache.View(), i + 1) else !RunCovers(st, es, deferred)
  {
    OnCourseNext(st, es, deferred, cache.View(), i);
    r := DoSync(cache, es[i], deferred);
  }

  /** A run goes through exactly when every output covers its step, and leaves what it leaves as a value. */
  method RunSync(cache: OmniTensorPrefixCache, es: seq<Event>, ghost deferred: set<string>)
    returns (r: Result<(), CacheError>)
    requires cache.Valid() && cache.pending == None && RunOk(es, cache.Size(), deferred)
    requires RowsFit(es, cache.blockSize, cache.numBlocks)
    modifies cache`mmOutputs, cache`mmKeys, cache.Tables()
    ensures cache.Valid() && fresh(cache.Tables() - old(cache.Tables()))
    ensures r.Ok? <==> RunCovers(old(cache.View()), es, deferred)
    ensures r.Ok? ==> cache.View() == SyncRun(old(cache.View()), es, deferred)
  {
    ghost var st := cache.View();
    r := Ok(());
    OnCourseStart(st, es, deferred);
    var i := 0;
    while i < |es| && r.Ok?
      invariant cache.Valid() && fresh(cache.Tables() - old(cache.Tables())) && i <= |es|
      invariant if r.Ok? then OnCourse(st, es, deferred, cache.View(), i) else !RunCovers(st, es, deferred)
    {
      r := SyncOneMore(cache, st, es, deferred, i);
      i := i + 1;
    }
    if r.Ok? {
      OnCourseEnd(st, es, deferred, cache.View());
    }
  }

  // ---- reads after a run ----

  /** The request's rows follow its computed tokens; and if it is a hit, its prefix is whole blocks and live. */
  ghost predicate ReadLive(st: Store, es: seq<Event>, deferred: set<string>, which: Table, q: Query,
                           hits: set<string>, blockSize: nat, source: seq<Row>, req: string, full: seq<Row>)
    requires StoreOk(st) && RunOk(es, |st.hidden|, deferred) && 0 < blockSize && QueryOk(q) && req in q.batch.reqIds
  {
    var idx := q.batch.reqIndex[req];
    && RowsFollow(q, source, req, full)
    && (req in hits ==>
          && OffsetOf(q.batch.computed[idx], blockSize) == 0
          && BlockOf(q.batch.computed[idx], blockSize) <= |q.batch.table[idx]|
          && PrefixLive(st, es, deferred, which, q.batch.table[idx], blockSize, q.batch.computed[idx], full))
  }

  /** A hit's whole sequence, a miss's rows of this step. */
  function Expected(q: Query, hits: set<string>, req: string, full: seq<Row>): seq<Row>
    requires QueryOk(q) && req in q.batch.reqIds && q.batch.computed[q.batch.reqIndex[req]] <= |full|
  {
    if req in hits then full else full[q.batch.computed[q.batch.reqIndex[req]]..]
  }

  /** The read on the value, through the asynchronous route. */
  lemma AsyncReadIsFull(a: Async, es: seq<Event>, step: Step, deferred: set<string>, which: Table, q: Query,
                        hits: set<string>, blockSize: nat, source: seq<Row>, req: string, full: seq<Row>)
    requires AsyncOk(a) && PendingApart(a, deferred) && RunOk(es, |a.store.hidden|, deferred)
             && EventOk(Forward(step), |a.store.hidden|, deferred)
    requires Has(Schedule(AsyncRun(a, es, deferred), step).store, which)
    requires 0 < blockSize && QueryOk(q) && req in q.batch.reqIds && HitsValid(q, hits, blockSize, |a.store.hidden|)
    requires ReadLive(Consume(a).store, es, deferred, which, q, hits, blockSize, source, req, full)
    ensures RequestRows(TableOf(Schedule(AsyncRun(a, es, deferred), step).store, which), q, hits, blockSize, source,
                        req) == Expected(q, hits, req, full)
  {
    if req in hits {
      var idx := q.batch.reqIndex[req];
      AsyncMergedIsFullSequence(a, es, step, deferred, which, q.batch.table[idx], blockSize, q.batch.computed[idx],
                                full);
    }
  }

  /** Every request whose read is live gets what is expected of the table: a hit with a live prefix of whole blocks its
      full sequence, a miss the rows of its step. */
  ghost predicate ReadInFull(st: Store, es: seq<Event>, deferred: set<string>, which: Table, q: Query,
                             hits: set<string>, blockSize: nat, source: seq<Row>, read: map<string, seq<Row>>)
    requires StoreOk(st) && RunOk(es, |st.hidden|, deferred) && 0 < blockSize && QueryOk(q)
  {
    forall req, full | req in q.batch.reqIds
        && ReadLive(st, es, deferred, which, q, hits, blockSize, source, req, full) ::
      req in read && read[req] == Expected(q, hits, req, full)
  }

  lemma AsyncReadsInFull(a: Async, es: seq<Event>, step: Step, deferred: set<string>, which: Table, q: Query,
                         hits: set<string>, blockSize: nat, source: seq<Row>, read: map<string, seq<Row>>)
    requires AsyncOk(a) && PendingApart(a, deferred) && RunOk(es, |a.store.hidden|, deferred)
             && EventOk(Forward(step), |a.store.hidden|, deferred)
    requires Has(Schedule(AsyncRun(a, es, deferred), step).store, which)
    requires 0 < blockSize && QueryOk(q) && HitsValid(q, hits, blockSize, |a.store.hidden|)
    requires forall req | req in q.batch.reqIds ::
               req in read
               && read[req] == RequestRows(TableOf(Schedule(AsyncRun(a, es, deferred), step).store, which), q, hits,
                                           blockSize, source, req)
    ensures ReadInFull(Consume(a).store, es, deferred, which, q, hits, blockSize, source, read)
  {
    forall req, full | req in q.batch.reqIds
        && ReadLive(Consume(a).store, es, deferred, which, q, hits, blockSize, source, req, full)
      ensures req in read && read[req] == Expected(q, hits, req, full)
    {
      AsyncReadIsFull(a, es, step, deferred, which, q, hits, blockSize, source, req, full);
    }
  }

  lemma {:induction false} AsyncRunSnoc(a: Async, es: seq<Event>, step: Step, deferred: set<string>)
    requires AsyncOk(a) && RunOk(es, |a.store.hidden|, deferred) && EventOk(Forward(step), |a.store.hidden|, deferred)
    ensures RunOk(es + [Forward(step)], |a.store.hidden|, deferred)
    ensures AsyncRun(a, es + [Forward(step)], deferred) == Schedule(AsyncRun(a, es, deferred), step)
    decreases |es|
  {
    if es == [] {
      assert es + [Forward(step)] == [Forward(step)] && [Forward(step)][1..] == [];
    } else {
      assert (es + [Forward(step)])[1..] == es[1..] + [Forward(step)];
      AsyncRunSnoc(AsyncEvent(a, es[0], deferred), es[1..], step, deferred);
    }
  }

  /** All the reads of a step: the hidden states, and every key that is merged. */
  ghost predicate AllReadInFull(st: Store, es: seq<Event>, deferred: set<string>, q: Query, hits: set<string>,
                                blockSize: nat, hidden: seq<Row>, outputs: map<string, Output>,
                                states: map<string, seq<Row>>, merged: map<string, map<string, seq<Row>>>) {
    && StoreOk(st) && RunOk(es, |st.hidden|, deferred) && 0 < blockSize && QueryOk(q)
    && ReadInFull(st, es, deferred, Hidden, q, hits, blockSize, hidden, states)
    && forall key | key in merged ::
         && key in outputs && outputs[key].Tokens?
         && ReadInFull(st, es, deferred, Mm(key), q, hits, blockSize, outputs[key].rows, merged[key])
  }

  /** The outputs of the keys that have a table are tensors; any other output is passed through unread. */
  ghost predicate TensorsRead(st: Store, outputs: map<string, Output>) {
    forall k | k in st.mm && k in outputs :: outputs[k].Tokens?
  }

  /** The reads of a step that has just been scheduled, from the hidden states and from every multimodal table. */
  method ReadScheduled(cache: OmniTensorPrefixCache, ghost a: Async, ghost es: seq<Event>, step: Step,
                       ghost deferred: set<string>, q: Query, hidden: seq<Row>)
    returns (states: map<string, seq<Row>>, merged: map<string, map<string, seq<Row>>>)
    requires cache.Valid() && AsyncOk(a) && |a.store.hidden| == cache.Size() && PendingApart(a, deferred)
    requires RunOk(es, cache.Size(), deferred) && EventOk(Forward(step), cache.Size(), deferred)
    requires cache.AsyncView() == Schedule(AsyncRun(a, es, deferred), step)
    requires QueryOk(q) && HitsValid(q, cache.newHits, cache.blockSize, cache.Size())
    requires TensorsRead(cache.View(), step.outputs)
    ensures cache.Valid() && cache.Tables() == old(cache.Tables())
    ensures cache.AsyncView() == Schedule(AsyncRun(a, es, deferred), step)
    ensures merged.Keys == cache.mmKeys * step.outputs.Keys
    ensures AllReadInFull(Consume(a).store, es, deferred, q, cache.newHits, cache.blockSize, hidden, step.outputs,
                          states, merged)
  {
    var r := cache.MergedHiddenStates(q, hidden, NotStaged);
    states := r.value;
    merged := cache.MergedMultimodal(q, step.outputs);
    AsyncReadsInFull(a, es, step, deferred, Hidden, q, cache.newHits, cache.blockSize, hidden, states);
    forall key | key in merged
      ensures ReadInFull(Consume(a).store, es, deferred, Mm(key), q, cache.newHits, cache.blockSize,
                         step.outputs[key].rows, merged[key])
    {
      AsyncReadsInFull(a, es, step, deferred, Mm(key), q, cache.newHits, cache.blockSize, step.outputs[key].rows,
                       merged[key]);
    }
  }

  /** A run on the class, and the next step scheduled. */
  method RunAndSchedule(cache: OmniTensorPrefixCache, es: seq<Event>, step: Step, ghost deferred: set<string>)
    requires cache.Valid() && cache.cuda && RunOk(es, cache.Size(), deferred)
             && EventOk(Forward(step), cache.Size(), deferred)
    requires RowsFit(es, cache.blockSize, cache.numBlocks)
    modifies cache`mmOutputs, cache`mmKeys, cache`pending, cache.Tables()
    ensures cache.Valid() && fresh(cache.Tables() - old(cache.Tables()))
    ensures cache.AsyncView() == Schedule(AsyncRun(old(cache.AsyncView()), es, deferred), step)
  {
    AsyncRunSnoc(cache.AsyncView(), es, step, deferred);
    RunAsync(cache, es + [Forward(step)], deferred);
  }

  /** A run on the class, the next step scheduled, and then that step's reads. */
  method RunAndRead(cache: OmniTensorPrefixCache, es: seq<Event>, step: Step, ghost deferred: set<string>, q: Query,
                    hidden: seq<Row>)
    returns (states: map<string, seq<Row>>, merged: map<string, map<string, seq<Row>>>)
    requires cache.Valid() && cache.cuda && RunOk(es, cache.Size(), deferred)
             && EventOk(Forward(step), cache.Size(), deferred)
    requires RowsFit(es, cache.blockSize, cache.numBlocks) && PendingApart(cache.AsyncView(), deferred)
    requires QueryOk(q) && HitsValid(q, cache.newHits, cache.blockSize, cache.Size())
    requires TensorsRead(Schedule(AsyncRun(cache.AsyncView(), es, deferred), step).store, step.outputs)
    modifies cache`mmOutputs, cache`mmKeys, cache`pending, cache.Tables()
    ensures cache.Valid() && fresh(cache.Tables() - old(cache.Tables()))
    ensures cache.AsyncView() == Schedule(AsyncRun(old(cache.AsyncView()), es, deferred), step)
    ensures merged.Keys == cache.mmKeys * step.outputs.Keys
    ensures AllReadInFull(Consume(old(cache.AsyncView())).store, es, deferred, q, cache.newHits, cache.blockSize,
                          hidden, step.outputs, states, merged)
  {
    ghost var a := cache.AsyncView();
    RunAndSchedule(cache, es, step, deferred);
    states, merged := ReadScheduled(cache, a, es, step, deferred, q, hidden);
  }

  lemma SyncReadsInFull(st: Store, es: seq<Event>, deferred: set<string>, which: Table, q: Query, hits: set<string>,
                        blockSize: nat, source: seq<Row>, read: map<string, seq<Row>>)
    requires StoreOk(st) && RunOk(es, |st.hidden|, deferred) && Has(SyncRun(st, es, deferred), which) && 0 < blockSize
    requires QueryOk(q) && HitsValid(q, hits, blockSize, |st.hidden|)
    requires forall req | req in q.batch.reqIds ::
               req in read
               && read[req] == RequestRows(TableOf(SyncRun(st, es, deferred), which), q, hits, blockSize, source, req)
    ensures ReadInFull(st, es, deferred, which, q, hits, blockSize, source, read)
  {
    forall req, full | req in q.batch.reqIds
        && ReadLive(st, es, deferred, which, q, hits, blockSize, source, req, full)
      ensures req in read && read[req] == Expected(q, hits, req, full)
    {
      ReadIsFullSequence(st, es, deferred, which, q, hits, blockSize, source, req, full);
    }
  }

  /** The synchronous route: a step is written before its own reads. */
  method RunSyncAndRead(cache: OmniTensorPrefixCache, es: seq<Event>, ghost deferred: set<string>, q: Query,
                        hidden: seq<Row>, outputs: map<string, Output>)
    returns (r: Result<(), CacheError>, states: map<string, seq<Row>>, merged: map<string, map<string, seq<Row>>>)
    requires cache.Valid() && cache.pending == None && RunOk(es, cache.Size(), deferred)
    requires RowsFit(es, cache.blockSize, cache.numBlocks)
    requires QueryOk(q) && HitsValid(q, cache.newHits, cache.blockSize, cache.Size())
    requires RunCovers(cache.View(), es, deferred) ==>
               TensorsRead(SyncRun(cache.View(), es, deferred), outputs)
    modifies cache`mmOutputs, cache`mmKeys, cache.Tables()
    ensures cache.Valid() && fresh(cache.Tables() - old(cache.Tables()))
    ensures r.Ok? <==> RunCovers(old(cache.View()), es, deferred)
    ensures r.Ok? ==>
              && cache.View() == SyncRun(old(cache.View()), es, deferred)
              && merged.Keys == cache.mmKeys * outputs.Keys
              && AllReadInFull(old(cache.View()), es, deferred, q, cache.newHits, cache.blockSize, hidden, outputs,
                               states, merged)
  {
    ghost var st := cache.View();
    states, merged := map[], map[];
    r := RunSync(cache, es, deferred);
    if r.Err? {
      return;
    }
    var found := cache.MergedHiddenStates(q, hidden, NotStaged);
    states := found.value;
    merged := cache.MergedMultimodal(q, outputs);
    SyncReadsInFull(st, es, deferred, Hidden, q, cache.newHits, cache.blockSize, hidden, states);
    forall key | key in merged
      ensures ReadInFull(st, es, deferred, Mm(key), q, cache.newHits, cache.blockSize, outputs[key].rows, merged[key])
    {
      SyncReadsInFull(st, es, deferred, Mm(key), q, cache.newHits, cache.blockSize, outputs[key].rows, merged[key]);
    }
  }

  function HitSet(hits: seq<string>): set<string> {
    set r | r in hits
  }

  /** A new cache with its hits. */
  method NewWithHits(numBlocks: nat, blockSize: nat, hiddenSize: nat, hits: seq<string>)
    returns (cache: OmniTensorPrefixCache)
    requires 0 < blockSize
    ensures cache.Valid() && fresh(cache) && fresh(cache.Tables()) && cache.cuda && cache.newHits == HitSet(hits)
    ensures cache.numBlocks == numBlocks && cache.blockSize == blockSize
    ensures cache.AsyncView() == Async(NewStore(Index(numBlocks, blockSize, 0), hiddenSize), None)
  {
    cache := new OmniTensorPrefixCache(numBlocks, blockSize, hiddenSize, true);
    for i := 0 to |hits|
      invariant cache.Valid() && fresh(cache) && fresh(cache.Tables()) && cache.newHits == HitSet(hits[..i])
      invariant cache.AsyncView() == Async(NewStore(Index(numBlocks, blockSize, 0), hiddenSize), None)
    {
      cache.AddHit(hits[i]);
    }
    assert hits[..|hits|] == hits;
  }

  /** From the constructor on: a cache, its hits, a run of events, and the reads of the step after it. */
  method ServeFromNew(numBlocks: nat, blockSize: nat, hiddenSize: nat, es: seq<Event>, step: Step,
                      ghost deferred: set<string>, q: Query, hits: seq<string>, hidden: seq<Row>)
    returns (states: map<string, seq<Row>>, merged: map<string, map<string, seq<Row>>>)
    requires 0 < blockSize && RunOk(es, Index(numBlocks, blockSize, 0), deferred)
             && EventOk(Forward(step), Index(numBlocks, blockSize, 0), deferred)
    requires RowsFit(es, blockSize, numBlocks)
    requires QueryOk(q) && HitsValid(q, HitSet(hits), blockSize, Index(numBlocks, blockSize, 0))
    requires TensorsRead(Schedule(AsyncRun(Async(NewStore(Index(numBlocks, blockSize, 0), hiddenSize), None), es,
                                           deferred), step).store, step.outputs)
    ensures merged.Keys == Schedule(AsyncRun(Async(NewStore(Index(numBlocks, blockSize, 0), hiddenSize), None), es,
                                             deferred), step).store.mm.Keys * step.outputs.Keys
    ensures AllReadInFull(NewStore(Index(numBlocks, blockSize, 0), hiddenSize), es, deferred, q, HitSet(hits),
                          blockSize, hidden, step.outputs, states, merged)
  {
    var cache := NewWithHits(numBlocks, blockSize, hiddenSize, hits);
    states, merged := RunAndRead(cache, es, step, deferred, q, hidden);
  }
}
