/** Whole deferred runs: what staging a request's steps one by one and committing once leaves in a table, against
    writing every step straight to its slots. */
module DeferredRuns {
  import opened Collections
  import opened Layout
  import opened CacheRows
  import opened DeferredChunks
  import opened CacheStore
  import opened CacheRuns
  import opened CacheReads
  import opened Options
  import opened PrefixCache

  /** One call of stage_deferred_mm_outputs. */
  datatype Staging = Staging(starts: seq<nat>, batch: Batch, outputs: map<string, Output>, scheduled: map<string, nat>)

  ghost predicate StagingOk(s: Staging) {
    BatchOk(s.batch) && forall r | r in s.batch.reqIds :: s.batch.reqIndex[r] < |s.starts|
  }

  /** What a call adds to the chunks of a request and a key, as StageDeferred states it. */
  function Adds(s: Staging, req: string, key: string): seq<Chunk>
    requires StagingOk(s)
  {
    if req in s.batch.reqIds then StepChunks(s.starts, s.batch, s.outputs, s.scheduled, req, key) else []
  }

  /** What is staged after a run of calls. */
  function StagedOver(ss: seq<Staging>, req: string, key: string): seq<Chunk>
    requires forall s | s in ss :: StagingOk(s)
  {
    if ss == [] then [] else Adds(ss[0], req, key) + StagedOver(ss[1..], req, key)
  }

  predicate Runs(s: Staging, req: string) {
    req in s.batch.reqIds && req in s.scheduled && s.scheduled[req] > 0
  }

  /** The request's step behind a call, before tokens into the request. */
  function StepOf(s: Staging, req: string, key: string, before: nat): RequestStep
    requires StagingOk(s)
  {
    if !Runs(s, req) || key !in s.outputs || !s.outputs[key].Tokens? then RequestStep(before, [], before)
    else
      var idx := s.batch.reqIndex[req];
      RequestStep(before, Window(s.outputs[key].rows, s.starts[idx], s.scheduled[req]), s.batch.computed[idx])
  }

  /** The key's tensor holds all the rows of the request, whenever the request runs. */
  ghost predicate Covered(s: Staging, req: string, key: string)
    requires StagingOk(s)
  {
    Runs(s, req) ==>
      && key in s.outputs
      && s.outputs[key].Tokens?
      && s.starts[s.batch.reqIndex[req]] + s.scheduled[req] <= |s.outputs[key].rows|
  }

  function StepsOf(ss: seq<Staging>, befores: seq<nat>, req: string, key: string): (steps: seq<RequestStep>)
    requires |befores| == |ss| && forall s | s in ss :: StagingOk(s)
    ensures |steps| == |ss|
  {
    if ss == [] then [] else [StepOf(ss[0], req, key, befores[0])] + StepsOf(ss[1..], befores[1..], req, key)
  }

  function ChunkOf(x: RequestStep): Chunk {
    Chunk(StagedStart(x.counter, |x.rows|), x.rows)
  }

  lemma AddsIs(s: Staging, req: string, key: string, before: nat)
    requires StagingOk(s) && Covered(s, req, key)
    ensures Adds(s, req, key) == Kept(ChunkOf(StepOf(s, req, key, before)))
  {
  }

  /** Staging call by call leaves the non-empty chunks of the request's steps, in order. */
  lemma {:induction false} StagedOverIs(ss: seq<Staging>, befores: seq<nat>, req: string, key: string)
    requires |befores| == |ss| && forall s | s in ss :: StagingOk(s) && Covered(s, req, key)
    ensures StagedOver(ss, req, key) == NonEmpty(StagedChunks(StepsOf(ss, befores, req, key)))
    decreases |ss|
  {
    if ss == [] {
      assert StagedChunks([]) == [];
    } else {
      AddsIs(ss[0], req, key, befores[0]);
      StagedOverIs(ss[1..], befores[1..], req, key);
      var x, rest := StepOf(ss[0], req, key, befores[0]), StepsOf(ss[1..], befores[1..], req, key);
      assert StagedChunks([x] + rest) == [ChunkOf(x)] + StagedChunks(rest);
      assert ([ChunkOf(x)] + StagedChunks(rest))[1..] == StagedChunks(rest);
    }
  }

  lemma {:induction false} NonEmptyDisjoint(cs: seq<Chunk>)
    requires PairwiseDisjoint(cs)
    ensures PairwiseDisjoint(NonEmpty(cs))
  {
    if cs != [] {
      NonEmptyDisjoint(cs[1..]);
      forall c | c in NonEmpty(cs[1..]) ensures Disjoint(cs[0], c) {
        NonEmptyIn(cs[1..], c);
        var j :| 0 <= j < |cs[1..]| && cs[1..][j] == c;
        assert cs[j + 1] == c;
      }
    }
  }

  /** No two steps hold the same token. */
  ghost predicate NoTokenTwice(steps: seq<RequestStep>) {
    forall i, j | 0 <= i < j < |steps| ::
          Disjoint(Chunk(steps[i].before, steps[i].rows), Chunk(steps[j].before, steps[j].rows))
  }

  lemma ChunksDisjoint(steps: seq<RequestStep>)
    requires (forall x | x in steps :: x.counter == x.before + |x.rows|) && NoTokenTwice(steps)
    ensures PairwiseDisjoint(StagedChunks(steps))
  {
    forall i | 0 <= i < |steps| ensures StagedChunks(steps)[i] == Chunk(steps[i].before, steps[i].rows) {
      assert steps[i] in steps;
    }
  }

  /** Deferred equals eager over a whole request: the chunks that the calls staged, committed once, leave the table that
      writing every step straight to its slots leaves. The counter of each call already includes its step, no token is
      staged twice, and every token has a block in the table that is committed with. */
  lemma DeferredRunEqualsEager(t: BlockRow, cache: seq<Row>, ss: seq<Staging>, befores: seq<nat>, req: string,
                               key: string)
    requires RowOk(t) && |cache| == CacheSize(t) && |befores| == |ss|
    requires forall s | s in ss :: StagingOk(s) && Covered(s, req, key)
    requires forall x | x in StepsOf(ss, befores, req, key) :: StepFits(t, x) && x.counter == x.before + |x.rows|
    requires NoTokenTwice(StepsOf(ss, befores, req, key))
    ensures ChunksOk(t, CommitOrder(StagedOver(ss, req, key)))
    ensures WriteAll(t, cache, CommitOrder(StagedOver(ss, req, key))) ==
              WriteEagerly(t, cache, StepsOf(ss, befores, req, key))
  {
    var steps, staged := StepsOf(ss, befores, req, key), StagedOver(ss, req, key);
    var cs := StagedChunks(steps);
    StagedOverIs(ss, befores, req, key);
    EagerIsWriteAll(t, cache, steps);
    NonEmptyWritesTheSame(t, cache, cs);
    ChunksDisjoint(steps);
    NonEmptyDisjoint(cs);
    SortWritesTheSame(t, cache, staged);
    NonEmptyWritesTheSame(t, cache, SortByStart(staged));
  }

  // ---- what a request's tokens end up with ----

  /** The slot of token j of a step. */
  function TokenSlot(t: BlockRow, x: RequestStep, j: nat): nat
    requires RowOk(t) && StepFits(t, x) && j < |x.rows|
  {
    Slot(t.table, t.blockSize, x.before + j)
  }

  /** Every token of the steps has its own row in its slot. */
  ghost predicate TokensHeld(st: Store, which: Table, t: BlockRow, steps: seq<RequestStep>)
    requires RowOk(t)
  {
    && (forall x | x in steps :: StepFits(t, x))
    && forall i, j | 0 <= i < |steps| && 0 <= j < |steps[i].rows| ::
         HoldsRow(st, which, TokenSlot(t, steps[i], j), steps[i].rows[j])
  }

  lemma TokenSlotIs(t: BlockRow, x: RequestStep, j: nat)
    requires RowOk(t) && StepFits(t, x) && j < |x.rows|
    ensures TokenSlot(t, x, j) == KvSlots(t, x)[j] < CacheSize(t)
  {
    SlotBound(t, x.before + j);
  }

  /** A step that holds other tokens has other slots. */
  lemma OtherTokens(t: BlockRow, x: RequestStep, j: nat, y: RequestStep)
    requires RowOk(t) && StepFits(t, x) && StepFits(t, y) && j < |x.rows|
    requires Disjoint(Chunk(x.before, x.rows), Chunk(y.before, y.rows))
    ensures TokenSlot(t, x, j) !in KvSlots(t, y)
  {
    forall k | 0 <= k < |y.rows| ensures KvSlots(t, y)[k] != TokenSlot(t, x, j) {
      if KvSlots(t, y)[k] == TokenSlot(t, x, j) {
        SlotInjective(t, x.before + j, y.before + k);
      }
    }
  }

  lemma {:induction false} EagerKeeps(t: BlockRow, cache: seq<Row>, steps: seq<RequestStep>, c: nat)
    requires RowOk(t) && |cache| == CacheSize(t) && c < |cache|
    requires forall x | x in steps :: StepFits(t, x) && c !in KvSlots(t, x)
    ensures WriteEagerly(t, cache, steps)[c] == cache[c]
    decreases |steps|
  {
    if steps != [] {
      StepSlots(t, steps[0]);
      SlotsOk(t, steps[0].before, |steps[0].rows|);
      IndexCopyElsewhere(cache, KvSlots(t, steps[0]), steps[0].rows, c);
      EagerKeeps(t, IndexCopy(cache, KvSlots(t, steps[0]), steps[0].rows), steps[1..], c);
    }
  }

  /** Written step by step, every token ends up in its own slot. */
  lemma {:induction false} EagerHolds(t: BlockRow, cache: seq<Row>, steps: seq<RequestStep>, i: nat, j: nat)
    requires RowOk(t) && |cache| == CacheSize(t) && (forall x | x in steps :: StepFits(t, x)) && NoTokenTwice(steps)
    requires i < |steps| && j < |steps[i].rows|
    ensures TokenSlot(t, steps[i], j) < CacheSize(t)
    ensures WriteEagerly(t, cache, steps)[TokenSlot(t, steps[i], j)] == steps[i].rows[j]
    decreases |steps|
  {
    assert steps[0] in steps;
    var slots, c := KvSlots(t, steps[0]), TokenSlot(t, steps[i], j);
    StepSlots(t, steps[0]);
    SlotsOk(t, steps[0].before, |steps[0].rows|);
    TokenSlotIs(t, steps[i], j);
    if i > 0 {
      assert steps[1..][i - 1] == steps[i];
      EagerHolds(t, IndexCopy(cache, slots, steps[0].rows), steps[1..], i - 1, j);
    } else {
      IndexCopyAt(cache, slots, steps[0].rows, j);
      forall y | y in steps[1..] ensures StepFits(t, y) && c !in KvSlots(t, y) {
        var k :| 0 <= k < |steps[1..]| && steps[1..][k] == y;
        assert Disjoint(Chunk(steps[0].before, steps[0].rows), Chunk(steps[k + 1].before, steps[k + 1].rows));
        OtherTokens(t, steps[0], j, y);
      }
      EagerKeeps(t, IndexCopy(cache, slots, steps[0].rows), steps[1..], c);
    }
  }

  // ---- a commit as a run of events ----

  /** One commit event per key. */
  ghost function CommitEvents(t: BlockRow, perKey: map<string, seq<Chunk>>, keys: set<string>): (es: seq<Event>)
    requires keys <= perKey.Keys
    ensures forall e | e in es :: e.Commit? && e.t == t && e.key in perKey && e.chunks == perKey[e.key]
  {
    if keys == {} then []
    else
      var k :| k in keys;
      [Commit(t, k, perKey[k])] + CommitEvents(t, perKey, keys - {k})
  }

  lemma CommitEventsOk(t: BlockRow, perKey: map<string, seq<Chunk>>, keys: set<string>, deferred: set<string>)
    requires KeysOk(t, perKey) && perKey.Keys <= deferred && keys <= perKey.Keys
    ensures RunOk(CommitEvents(t, perKey, keys), CacheSize(t), deferred)
  {
  }

  lemma RestrictOk(t: BlockRow, perKey: map<string, seq<Chunk>>, done: set<string>)
    requires KeysOk(t, perKey)
    ensures KeysOk(t, Restrict(perKey, done))
  {
  }

  lemma OneKeyFirst(t: BlockRow, perKey: map<string, seq<Chunk>>, keys: set<string>)
    requires keys <= perKey.Keys && keys != {}
    ensures var es := CommitEvents(t, perKey, keys);
            es != [] && es[0].key in keys && es[0] == Commit(t, es[0].key, perKey[es[0].key])
            && es[1..] == CommitEvents(t, perKey, keys - {es[0].key})
  {
  }

  /** The keys not yet done, committed one by one. */
  lemma {:induction false} CommitKeysFrom(t: BlockRow, st: Store, perKey: map<string, seq<Chunk>>, keys: set<string>,
                                          deferred: set<string>)
    requires StoreOk(st) && CacheSize(t) == |st.hidden| && KeysOk(t, perKey) && perKey.Keys <= deferred
             && keys <= perKey.Keys
    ensures RunOk(CommitEvents(t, perKey, keys), CacheSize(t), deferred)
            && KeysOk(t, Restrict(perKey, perKey.Keys - keys))
    ensures SyncRun(CommitKeys(t, st, Restrict(perKey, perKey.Keys - keys)), CommitEvents(t, perKey, keys), deferred)
            == CommitKeys(t, st, perKey)
    decreases keys
  {
    CommitEventsOk(t, perKey, keys, deferred);
    RestrictOk(t, perKey, perKey.Keys - keys);
    if keys == {} {
      assert Restrict(perKey, perKey.Keys - keys) == perKey;
    } else {
      var es := CommitEvents(t, perKey, keys);
      var key := es[0].key;
      OneKeyFirst(t, perKey, keys);
      CommitOneMore(t, st, perKey, perKey.Keys - keys, key);
      CommitKeysFrom(t, st, perKey, keys - {key}, deferred);
      assert perKey.Keys - (keys - {key}) == perKey.Keys - keys + {key};
    }
  }

  lemma NothingCommitted(t: BlockRow, st: Store, perKey: map<string, seq<Chunk>>)
    requires StoreOk(st) && CacheSize(t) == |st.hidden|
    ensures KeysOk(t, Restrict(perKey, perKey.Keys - perKey.Keys))
            && CommitKeys(t, st, Restrict(perKey, perKey.Keys - perKey.Keys)) == st
  {
    var none := Restrict(perKey, perKey.Keys - perKey.Keys);
    assert forall k :: k !in none;
    assert CommitKeys(t, st, none).mm == st.mm;
  }

  /** Committing a request is a run of one commit per key. */
  lemma CommitKeysIsRun(t: BlockRow, st: Store, perKey: map<string, seq<Chunk>>, deferred: set<string>)
    requires StoreOk(st) && CacheSize(t) == |st.hidden| && KeysOk(t, perKey) && perKey.Keys <= deferred
    ensures RunOk(CommitEvents(t, perKey, perKey.Keys), CacheSize(t), deferred)
    ensures SyncRun(st, CommitEvents(t, perKey, perKey.Keys), deferred) == CommitKeys(t, st, perKey)
  {
    CommitKeysFrom(t, st, perKey, perKey.Keys, deferred);
    NothingCommitted(t, st, perKey);
  }

  /** What commit_deferred_mm_outputs is given besides the staged chunks. */
  datatype Finish = Finish(batch: Batch, used: seq<nat>, blockSize: nat, numBlocks: nat)

  ghost predicate FinishOk(f: Finish) {
    BatchOk(f.batch) && |f.used| == |f.batch.table|
  }

  function RowOf(f: Finish, req: string): BlockRow
    requires FinishOk(f) && req in f.batch.reqIndex
  {
    BlockRow(f.batch.table[f.batch.reqIndex[req]], f.used[f.batch.reqIndex[req]], f.blockSize, f.numBlocks)
  }

  /** The events of one finished request. */
  ghost function RequestEvents(staged: map<string, map<string, seq<Chunk>>>, req: string, f: Finish): seq<Event>
    requires FinishOk(f)
  {
    if req in staged && req in f.batch.reqIndex then CommitEvents(RowOf(f, req), staged[req], staged[req].Keys) else []
  }

  /** The events of the finished requests, one request after the other. */
  ghost function FinishEvents(staged: map<string, map<string, seq<Chunk>>>, finished: seq<string>,
                              f: Finish): seq<Event>
    requires FinishOk(f)
    decreases |finished|
  {
    if finished == [] then []
    else RequestEvents(staged, finished[0], f) + FinishEvents(staged - {finished[0]}, finished[1..], f)
  }

  lemma {:induction false} SyncRunConcat(st: Store, a: seq<Event>, b: seq<Event>, deferred: set<string>)
    requires StoreOk(st) && RunOk(a, |st.hidden|, deferred) && RunOk(b, |st.hidden|, deferred)
    ensures RunOk(a + b, |st.hidden|, deferred)
    ensures SyncRun(st, a + b, deferred) == SyncRun(SyncRun(st, a, deferred), b, deferred)
    decreases |a|
  {
    if a == [] {
      assert a + b == b;
    } else {
      assert (a + b)[1..] == a[1..] + b;
      SyncRunConcat(SyncEvent(st, a[0], deferred), a[1..], b, deferred);
    }
  }

  lemma CommitOneIsRun(st: Store, staged: map<string, map<string, seq<Chunk>>>, req: string, f: Finish,
                       deferred: set<string>)
    requires StoreOk(st) && FinishOk(f) && |st.hidden| == Index(f.numBlocks, f.blockSize, 0)
    requires CommitsOk(staged, [req], f.batch, f.used, f.blockSize, f.numBlocks)
    requires forall r | r in staged :: staged[r].Keys <= deferred
    ensures RunOk(RequestEvents(staged, req, f), |st.hidden|, deferred)
    ensures CommitOne(st, staged, req, f.batch, f.used, f.blockSize, f.numBlocks) ==
              SyncRun(st, RequestEvents(staged, req, f), deferred)
  {
    if req in staged && req in f.batch.reqIndex {
      assert req in [req];
      CommitKeysIsRun(RowOf(f, req), st, staged[req], deferred);
    }
  }

  /** What CommitDeferred leaves is what a run of commit events leaves, so every theorem about runs speaks of it. */
  lemma {:induction false} CommitRequestsIsRun(st: Store, staged: map<string, map<string, seq<Chunk>>>,
                                               finished: seq<string>, f: Finish, deferred: set<string>)
    requires StoreOk(st) && FinishOk(f) && |st.hidden| == Index(f.numBlocks, f.blockSize, 0)
    requires CommitsOk(staged, finished, f.batch, f.used, f.blockSize, f.numBlocks)
    requires forall r | r in staged :: staged[r].Keys <= deferred
    ensures RunOk(FinishEvents(staged, finished, f), |st.hidden|, deferred)
    ensures CommitRequests(st, staged, finished, f.batch, f.used, f.blockSize, f.numBlocks)
            == SyncRun(st, FinishEvents(staged, finished, f), deferred)
    decreases |finished|
  {
    if finished != [] {
      var mid := CommitOne(st, staged, finished[0], f.batch, f.used, f.blockSize, f.numBlocks);
      CommitOneIsRun(st, staged, finished[0], f, deferred);
      CommitRequestsIsRun(mid, staged - {finished[0]}, finished[1..], f, deferred);
      SyncRunConcat(st, RequestEvents(staged, finished[0], f), FinishEvents(staged - {finished[0]}, finished[1..], f),
                    deferred);
    }
  }

  // ---- a whole request through the class ----

  /** Everything the equality of the routes assumes of a request: its steps follow each other with counters that include
      the step, no token is staged twice, and every token has a block in the table that is committed with. */
  ghost predicate RequestOk(t: BlockRow, ss: seq<Staging>, befores: seq<nat>, req: string, key: string)
    requires RowOk(t) && |befores| == |ss| && forall s | s in ss :: StagingOk(s)
  {
    && (forall s | s in ss :: Covered(s, req, key))
    && (forall x | x in StepsOf(ss, befores, req, key) :: StepFits(t, x) && x.counter == x.before + |x.rows|)
    && NoTokenTwice(StepsOf(ss, befores, req, key))
  }

  /** The table that writing every step straight to its slots leaves; None while no step has any rows and the key has no
      table. A table that does not exist yet starts as zeros, as wide as the first row that is committed. */
  ghost function EagerTable(t: BlockRow, st: Store, ss: seq<Staging>, befores: seq<nat>, req: string,
                            key: string): Option<seq<Row>>
    requires StoreOk(st) && RowOk(t) && CacheSize(t) == |st.hidden| && |befores| == |ss|
             && forall s | s in ss :: StagingOk(s)
    requires RequestOk(t, ss, befores, req, key)
  {
    var cs := CommitOrder(StagedOver(ss, req, key));
    if cs == [] then Entry(st, key)
    else Some(WriteEagerly(t, TableBefore(st, key, |cs[0].rows[0]|), StepsOf(ss, befores, req, key)))
  }

  /** What the calls stage for the request, over the deferred keys. */
  function StagedBy(ss: seq<Staging>, keys: set<string>, req: string, key: string): seq<Chunk>
    requires forall s | s in ss :: StagingOk(s)
  {
    if key in keys then StagedOver(ss, req, key) else []
  }

  function ChunksFor(perKey: map<string, seq<Chunk>>, key: string): seq<Chunk> {
    if key in perKey then perKey[key] else []
  }

  /** One key of the commit. */
  lemma CommittedTable(t: BlockRow, st: Store, perKey: map<string, seq<Chunk>>, ss: seq<Staging>, befores: seq<nat>,
                       req: string, key: string)
    requires StoreOk(st) && RowOk(t) && CacheSize(t) == |st.hidden| && |befores| == |ss|
             && forall s | s in ss :: StagingOk(s)
    requires RequestOk(t, ss, befores, req, key) && KeysOk(t, perKey)
    requires ChunksFor(perKey, key) == StagedOver(ss, req, key)
    ensures Entry(CommitKeys(t, st, perKey), key) == EagerTable(t, st, ss, befores, req, key)
  {
    CommitKeysAt(t, st, perKey, key);
    var cs := CommitOrder(StagedOver(ss, req, key));
    if cs != [] {
      DeferredRunEqualsEager(t, TableBefore(st, key, |cs[0].rows[0]|), ss, befores, req, key);
    }
  }

  /** A request with any rows has something to commit. */
  lemma RowsAreStaged(ss: seq<Staging>, befores: seq<nat>, req: string, key: string, i: nat)
    requires |befores| == |ss| && forall s | s in ss :: StagingOk(s) && Covered(s, req, key)
    requires i < |ss| && StepsOf(ss, befores, req, key)[i].rows != []
    ensures CommitOrder(StagedOver(ss, req, key)) != []
  {
    var steps, staged := StepsOf(ss, befores, req, key), StagedOver(ss, req, key);
    StagedOverIs(ss, befores, req, key);
    NonEmptyHas(StagedChunks(steps), StagedChunks(steps)[i]);
    var c := StagedChunks(steps)[i];
    SortByStartIsStable(staged, 0);
    assert c in multiset(staged);
    assert c in multiset(SortByStart(staged));
    NonEmptyHas(SortByStart(staged), c);
  }

  /** Every token of the request is in its slot of the eager table. */
  lemma EagerTableHolds(t: BlockRow, st: Store, ss: seq<Staging>, befores: seq<nat>, req: string, key: string,
                        after: Store)
    requires StoreOk(st) && RowOk(t) && CacheSize(t) == |st.hidden| && |befores| == |ss|
             && forall s | s in ss :: StagingOk(s)
    requires RequestOk(t, ss, befores, req, key) && Entry(after, key) == EagerTable(t, st, ss, befores, req, key)
    ensures TokensHeld(after, Mm(key), t, StepsOf(ss, befores, req, key))
  {
    var steps := StepsOf(ss, befores, req, key);
    forall i, j | 0 <= i < |steps| && 0 <= j < |steps[i].rows|
      ensures HoldsRow(after, Mm(key), TokenSlot(t, steps[i], j), steps[i].rows[j])
    {
      RowsAreStaged(ss, befores, req, key, i);
      var cs := CommitOrder(StagedOver(ss, req, key));
      EagerHolds(t, TableBefore(st, key, |cs[0].rows[0]|), steps, i, j);
    }
  }

  lemma {:induction false} StagedSnoc(ss: seq<Staging>, s: Staging, req: string, key: string)
    requires StagingOk(s) && forall x | x in ss :: StagingOk(x)
    ensures StagedOver(ss + [s], req, key) == StagedOver(ss, req, key) + Adds(s, req, key)
  {
    if ss == [] {
      assert ss + [s] == [s] && [s][1..] == [];
    } else {
      assert (ss + [s])[1..] == ss[1..] + [s];
      StagedSnoc(ss[1..], s, req, key);
    }
  }

  /** One call more, seen from one request. */
  method StageOne(cache: OmniTensorPrefixCache, ghost ss: seq<Staging>, s: Staging, keys: set<string>, req: string)
    requires cache.Valid() && StagingOk(s) && forall x | x in ss :: StagingOk(x)
    requires forall key :: StagedFor(cache.deferred, req, key) == StagedBy(ss, keys, req, key)
    modifies cache`deferred
    ensures cache.Valid() && cache.Tables() == old(cache.Tables()) && cache.View() == old(cache.View())
    ensures forall key :: StagedFor(cache.deferred, req, key) == StagedBy(ss + [s], keys, req, key)
  {
    cache.StageDeferred(s.starts, s.batch, s.outputs, s.scheduled, keys);
    forall key ensures StagedFor(cache.deferred, req, key) == StagedBy(ss + [s], keys, req, key) {
      StagedSnoc(ss, s, req, key);
      assert StagedFor(old(cache.deferred), req, key) == StagedBy(ss, keys, req, key);
    }
  }

  /** The calls, one after the other. */
  method StageAll(cache: OmniTensorPrefixCache, ss: seq<Staging>, keys: set<string>, req: string)
    requires cache.Valid() && req !in cache.deferred && forall s | s in ss :: StagingOk(s)
    modifies cache`deferred
    ensures cache.Valid() && cache.Tables() == old(cache.Tables()) && cache.View() == old(cache.View())
    ensures forall key :: StagedFor(cache.deferred, req, key) == StagedBy(ss, keys, req, key)
  {
    for i := 0 to |ss|
      invariant cache.Valid() && cache.Tables() == old(cache.Tables()) && cache.View() == old(cache.View())
      invariant forall key :: StagedFor(cache.deferred, req, key) == StagedBy(ss[..i], keys, req, key)
    {
      assert ss[i] in ss && ss[..i + 1] == ss[..i] + [ss[i]];
      StageOne(cache, ss[..i], ss[i], keys, req);
    }
    assert ss[..|ss|] == ss;
  }

  /** What has been staged for the request may be committed. */
  lemma StagedIsOk(t: BlockRow, perKey: map<string, seq<Chunk>>, ss: seq<Staging>, befores: seq<nat>, keys: set<string>,
                   req: string)
    requires RowOk(t) && |befores| == |ss| && forall s | s in ss :: StagingOk(s)
    requires forall key | key in keys :: RequestOk(t, ss, befores, req, key)
    requires forall key :: ChunksFor(perKey, key) == StagedBy(ss, keys, req, key)
    ensures KeysOk(t, perKey)
  {
    forall key | key in perKey ensures CommitOk(t, perKey[key], CacheSize(t)) {
      assert ChunksFor(perKey, key) == StagedBy(ss, keys, req, key);
      if key in keys {
        DeferredRunEqualsEager(t, Zeros(CacheSize(t), 0), ss, befores, req, key);
      } else {
        assert perKey[key] == [];
      }
    }
  }

  /** Every key of the commit. */
  lemma CommittedTables(t: BlockRow, st: Store, perKey: map<string, seq<Chunk>>, ss: seq<Staging>, befores: seq<nat>,
                        keys: set<string>, req: string)
    requires StoreOk(st) && RowOk(t) && CacheSize(t) == |st.hidden| && |befores| == |ss|
             && forall s | s in ss :: StagingOk(s)
    requires KeysOk(t, perKey) && forall key | key in keys :: RequestOk(t, ss, befores, req, key)
    requires forall key :: ChunksFor(perKey, key) == StagedBy(ss, keys, req, key)
    ensures forall key :: Entry(CommitKeys(t, st, perKey), key) ==
              if key in keys then EagerTable(t, st, ss, befores, req, key) else Entry(st, key)
    ensures forall key | key in keys ::
              TokensHeld(CommitKeys(t, st, perKey), Mm(key), t, StepsOf(ss, befores, req, key))
  {
    forall key
      ensures Entry(CommitKeys(t, st, perKey), key) ==
              if key in keys then EagerTable(t, st, ss, befores, req, key) else Entry(st, key)
      ensures key in keys ==> TokensHeld(CommitKeys(t, st, perKey), Mm(key), t, StepsOf(ss, befores, req, key))
    {
      assert ChunksFor(perKey, key) == StagedBy(ss, keys, req, key);
      if key in keys {
        CommittedTable(t, st, perKey, ss, befores, req, key);
        EagerTableHolds(t, st, ss, befores, req, key, CommitKeys(t, st, perKey));
      } else {
        CommitKeysAt(t, st, perKey, key);
      }
    }
  }

  function StagedOf(deferred: map<string, map<string, seq<Chunk>>>, req: string): map<string, seq<Chunk>> {
    if req in deferred then deferred[req] else map[]
  }

  /** One finished request that is still in the batch. */
  method CommitOnly(cache: OmniTensorPrefixCache, req: string, f: Finish)
    requires cache.Valid() && FinishOk(f) && f.blockSize == cache.blockSize && f.numBlocks == cache.numBlocks
    requires req in f.batch.reqIndex && KeysOk(RowOf(f, req), StagedOf(cache.deferred, req))
    modifies cache`deferred, cache`mmOutputs, cache`mmKeys, cache.Tables()
    ensures cache.Valid() && cache.deferred == old(cache.deferred) - {req}
    ensures cache.View() == CommitKeys(RowOf(f, req), old(cache.View()), StagedOf(old(cache.deferred), req))
  {
    ghost var t, st, deferred := RowOf(f, req), cache.View(), cache.deferred;
    cache.CommitDeferred([req], f.batch, f.used);
    assert Without(deferred, [req]) == deferred - {req};
    if req !in deferred {
      assert CommitKeys(t, st, map[]).mm == st.mm;
    }
  }

  /** Stages a request call by call and commits it once: its deferred tables end up as if every step had been written
      straight to its slots, with every token's own row in its slot; hidden states and all other tables stay as they
      were. */
  method StageAndCommit(cache: OmniTensorPrefixCache, ss: seq<Staging>, keys: set<string>, req: string, f: Finish,
                        ghost befores: seq<nat>)
    requires cache.Valid() && FinishOk(f) && f.blockSize == cache.blockSize && f.numBlocks == cache.numBlocks
    requires req !in cache.deferred && req in f.batch.reqIndex && RowOk(RowOf(f, req))
    requires |befores| == |ss| && forall s | s in ss :: StagingOk(s)
    requires forall key | key in keys :: RequestOk(RowOf(f, req), ss, befores, req, key)
    modifies cache`deferred, cache`mmOutputs, cache`mmKeys, cache.Tables()
    ensures cache.Valid() && req !in cache.deferred
    ensures cache.View().hidden == old(cache.View()).hidden
    ensures forall key :: Entry(cache.View(), key) ==
              if key in keys then EagerTable(RowOf(f, req), old(cache.View()), ss, befores, req, key)
              else Entry(old(cache.View()), key)
    ensures forall key | key in keys ::
              TokensHeld(cache.View(), Mm(key), RowOf(f, req), StepsOf(ss, befores, req, key))
  {
    ghost var t, st := RowOf(f, req), cache.View();
    StageAll(cache, ss, keys, req);
    ghost var perKey := StagedOf(cache.deferred, req);
    forall key ensures ChunksFor(perKey, key) == StagedBy(ss, keys, req, key) {
      assert StagedFor(cache.deferred, req, key) == StagedBy(ss, keys, req, key);
    }
    StagedIsOk(t, perKey, ss, befores, keys, req);
    CommitOnly(cache, req, f);
    CommittedTables(t, st, perKey, ss, befores, keys, req);
  }
}
