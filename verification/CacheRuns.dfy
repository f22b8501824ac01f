/** Whole runs of the prefix cache: the asynchronous route against the synchronous one, deferred commits
    interleaved with both, and what a later prefix hit reads back. */
module CacheRuns {
  import opened DeferredChunks
  import opened CacheStore
  import opened Options

  /** A forward step's write, a drain with the readiness the CUDA event happens to have, or a deferred commit. */
  datatype Event = Forward(step: Step) | DrainReady(ready: bool) | Commit(t: BlockRow, key: string, chunks: seq<Chunk>)

  /** Every step skips the deferred keys, perhaps others too, and only deferred keys are committed. */
  ghost predicate EventOk(e: Event, size: nat, deferred: set<string>) {
    match e
    case Forward(step) => StepOk(step, size) && deferred <= step.skip
    case DrainReady(_) => true
    case Commit(t, key, chunks) => key in deferred && CommitOk(t, chunks, size)
  }

  ghost predicate RunOk(es: seq<Event>, size: nat, deferred: set<string>) {
    forall e | e in es :: EventOk(e, size, deferred)
  }

  ghost function SyncEvent(st: Store, e: Event, deferred: set<string>): (r: Store)
    requires StoreOk(st) && EventOk(e, |st.hidden|, deferred)
    ensures StoreOk(r) && |r.hidden| == |st.hidden|
  {
    match e
    case Forward(step) => SyncStep(st, step)
    case DrainReady(_) => st
    case Commit(t, key, chunks) => CommitKey(t, st, key, chunks)
  }

  ghost function AsyncEvent(a: Async, e: Event, deferred: set<string>): (r: Async)
    requires AsyncOk(a) && EventOk(e, |a.store.hidden|, deferred)
    ensures AsyncOk(r) && |r.store.hidden| == |a.store.hidden|
  {
    match e
    case Forward(step) => Schedule(a, step)
    case DrainReady(ready) => Drain(a, ready)
    case Commit(t, key, chunks) => Async(CommitKey(t, a.store, key, chunks), a.pending)
  }

  ghost function SyncRun(st: Store, es: seq<Event>, deferred: set<string>): (r: Store)
    requires StoreOk(st) && RunOk(es, |st.hidden|, deferred)
    ensures StoreOk(r) && |r.hidden| == |st.hidden|
    decreases |es|
  {
    if es == [] then st else SyncRun(SyncEvent(st, es[0], deferred), es[1..], deferred)
  }

  ghost function AsyncRun(a: Async, es: seq<Event>, deferred: set<string>): (r: Async)
    requires AsyncOk(a) && RunOk(es, |a.store.hidden|, deferred)
    ensures AsyncOk(r) && |r.store.hidden| == |a.store.hidden|
    decreases |es|
  {
    if es == [] then a else AsyncRun(AsyncEvent(a, es[0], deferred), es[1..], deferred)
  }

  lemma SingleEvent(st: Store, e: Event, deferred: set<string>)
    requires StoreOk(st) && EventOk(e, |st.hidden|, deferred)
    ensures SyncRun(st, [e], deferred) == SyncEvent(st, e, deferred)
  {
    assert [e][1..] == [];
  }

  /** The write in flight never touches a deferred key. */
  ghost predicate PendingApart(a: Async, deferred: set<string>) {
    a.pending.Some? ==> a.pending.value.mm.Keys !! deferred
  }

  /** New tables and the pending write commute. */
  lemma InitCommutes(a: Async, outputs: map<string, Output>, seqLen: nat)
    requires AsyncOk(a)
    ensures Consume(Async(InitKeys(a.store, outputs, seqLen), a.pending)).store ==
              InitKeys(Consume(a).store, outputs, seqLen)
  {
  }

  /** A deferred commit and the pending write commute. */
  lemma CommitCommutes(a: Async, t: BlockRow, key: string, chunks: seq<Chunk>, deferred: set<string>)
    requires AsyncOk(a) && CommitOk(t, chunks, |a.store.hidden|) && PendingApart(a, deferred) && key in deferred
    ensures Consume(Async(CommitKey(t, a.store, key, chunks), a.pending)).store ==
              CommitKey(t, Consume(a).store, key, chunks)
  {
  }

  /** One event: the synchronous cache is the asynchronous one plus the write in flight. */
  lemma EventTracks(a: Async, e: Event, deferred: set<string>)
    requires AsyncOk(a) && EventOk(e, |a.store.hidden|, deferred) && PendingApart(a, deferred)
    ensures PendingApart(AsyncEvent(a, e, deferred), deferred)
    ensures Consume(AsyncEvent(a, e, deferred)).store == SyncEvent(Consume(a).store, e, deferred)
    ensures AsyncEvent(a, e, deferred).store.mm.Keys == SyncEvent(Consume(a).store, e, deferred).mm.Keys
  {
    match e
    case Forward(step) => InitCommutes(a, step.outputs, step.padded);
    case DrainReady(_) =>
    case Commit(t, key, chunks) => CommitCommutes(a, t, key, chunks, deferred);
  }

  /** Over any run, with drains anywhere and events ready or not: applying the one write in flight to the asynchronous
      cache gives the synchronous cache, and both have the same keys. */
  lemma {:induction false} AsyncTracksSync(a: Async, es: seq<Event>, deferred: set<string>)
    requires AsyncOk(a) && RunOk(es, |a.store.hidden|, deferred) && PendingApart(a, deferred)
    ensures Consume(AsyncRun(a, es, deferred)).store == SyncRun(Consume(a).store, es, deferred)
    ensures AsyncRun(a, es, deferred).store.mm.Keys == SyncRun(Consume(a).store, es, deferred).mm.Keys
    decreases |es|
  {
    if es != [] {
      EventTracks(a, es[0], deferred);
      AsyncTracksSync(AsyncEvent(a, es[0], deferred), es[1..], deferred);
    }
  }

  /** Right after a step is scheduled, every earlier write has landed: the cache equals the synchronous one before the
      step, with the step's new tables added. */
  lemma EarlierWritesHaveLanded(a: Async, es: seq<Event>, step: Step, deferred: set<string>)
    requires AsyncOk(a) && RunOk(es, |a.store.hidden|, deferred) && PendingApart(a, deferred)
    requires EventOk(Forward(step), |a.store.hidden|, deferred)
    ensures Schedule(AsyncRun(a, es, deferred), step).store ==
              InitKeys(SyncRun(Consume(a).store, es, deferred), step.outputs, step.padded)
  {
    AsyncTracksSync(a, es, deferred);
    InitCommutes(AsyncRun(a, es, deferred), step.outputs, step.padded);
  }

  /** Right after a drain that finds its write ready, or nothing in flight, the asynchronous cache is the synchronous
      one. */
  lemma ReadyDrainIsSync(a: Async, es: seq<Event>, deferred: set<string>)
    requires AsyncOk(a) && RunOk(es, |a.store.hidden|, deferred) && PendingApart(a, deferred)
    ensures Drain(AsyncRun(a, es, deferred), true) == Async(SyncRun(Consume(a).store, es, deferred), None)
  {
    AsyncTracksSync(a, es, deferred);
  }
}
