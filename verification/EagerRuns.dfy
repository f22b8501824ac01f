/** The deferred route against the synchronous one, step by step and for batches of several requests: with a key
    skipped, staged and committed, every token of a request ends up with the row that a run which does not skip the key
    leaves. */
module EagerRuns {
  import opened CacheRows
  import opened DeferredChunks
  import opened CacheStore
  import opened CacheRuns
  import opened CacheReads
  import opened PrefixCache
  import opened DeferredRuns

  /** The slot belongs to no token of the request. */
  ghost predicate Foreign(t: BlockRow, c: nat)
    requires RowOk(t)
  {
    forall pos: nat | BlockOf(pos, t.blockSize) < t.used :: Slot(t.table, t.blockSize, pos) != c
  }

  /** Row k of the step's tensors is one of the request's. */
  predicate InWindow(s: Staging, req: string, k: nat)
    requires StagingOk(s)
  {
    Runs(s, req) && s.starts[s.batch.reqIndex[req]] <= k < s.starts[s.batch.reqIndex[req]] + s.scheduled[req]
  }

  /** The forward step behind a staging call. Its slot mapping sends the request's rows to the slots of their tokens,
      and the rows of other requests to slots of other requests. */
  ghost predicate Carries(t: BlockRow, step: Step, s: Staging, x: RequestStep, req: string, key: string)
    requires RowOk(t) && StagingOk(s) && StepFits(t, x) && step.n <= |step.slots|
  {
    && step.outputs == s.outputs && key !in step.skip
    && (Runs(s, req) ==>
          && key in step.outputs && Covers(step.outputs[key], step.n)
          && s.starts[s.batch.reqIndex[req]] + s.scheduled[req] <= step.n
          && forall j | 0 <= j < |x.rows| ::
               j < s.scheduled[req] && step.slots[s.starts[s.batch.reqIndex[req]] + j] == TokenSlot(t, x, j))
    && forall k | 0 <= k < step.n && !InWindow(s, req, k) :: Foreign(t, step.slots[k])
  }

  /** All that the comparison of the routes is about: a request's staging calls, the forward steps behind them, and
      whose slots are whose. */
  ghost predicate RunMatches(t: BlockRow, steps: seq<Step>, ss: seq<Staging>, befores: seq<nat>, req: string,
                             key: string) {
    && RowOk(t) && |steps| == |ss| == |befores| && (forall s | s in ss :: StagingOk(s))
    && RequestOk(t, ss, befores, req, key)
    && forall i | 0 <= i < |steps| ::
         var x := StepsOf(ss, befores, req, key)[i];
         && ss[i] in ss && x in StepsOf(ss, befores, req, key)
         && StepOk(steps[i], CacheSize(t)) && Carries(t, steps[i], ss[i], x, req, key)
  }

  /** The steps as events that write the key. */
  function Writing(steps: seq<Step>): seq<Event> {
    seq(|steps|, i requires 0 <= i < |steps| => Forward(steps[i]))
  }

  /** The steps as events that skip the key. */
  function Skipping(steps: seq<Step>, key: string): seq<Event> {
    seq(|steps|, i requires 0 <= i < |steps| => Forward(steps[i].(skip := steps[i].skip + {key})))
  }

  lemma {:induction false} StepsOfAt(ss: seq<Staging>, befores: seq<nat>, req: string, key: string, i: nat)
    requires |befores| == |ss| && (forall s | s in ss :: StagingOk(s)) && i < |ss|
    ensures ss[i] in ss && StepsOf(ss, befores, req, key)[i] == StepOf(ss[i], req, key, befores[i])
  {
    if i > 0 {
      assert ss[1..][i - 1] == ss[i] && befores[1..][i - 1] == befores[i];
      StepsOfAt(ss[1..], befores[1..], req, key, i - 1);
    }
  }

  /** No row of the step is another row for token x.before + j. */
  ghost predicate Agrees(x: RequestStep, j: nat, y: RequestStep)
    requires j < |x.rows|
  {
    forall l | 0 <= l < |y.rows| && y.before + l == x.before + j :: y.rows[l] == x.rows[j]
  }

  /** Seen from the slot of a token, a step that carries no other row for it stores the token's own row or nothing. */
  lemma StepKeepsToken(t: BlockRow, step: Step, s: Staging, before: nat, req: string, key: string, x: RequestStep,
                       j: nat, m: nat)
    requires RowOk(t) && StagingOk(s) && Covered(s, req, key) && StepFits(t, StepOf(s, req, key, before))
    requires step.n <= |step.slots| && Carries(t, step, s, StepOf(s, req, key, before), req, key)
    requires StepFits(t, x) && j < |x.rows| && Agrees(x, j, StepOf(s, req, key, before))
    requires key in step.outputs && Covers(step.outputs[key], step.n) && m < step.n
    requires step.slots[m] == TokenSlot(t, x, j)
    ensures step.outputs[key].rows[m] == x.rows[j]
  {
    var y := StepOf(s, req, key, before);
    assert BlockOf(x.before + j, t.blockSize) < t.used;
    assert InWindow(s, req, m);
    var l: nat := m - s.starts[s.batch.reqIndex[req]];
    assert y.rows[l] == step.outputs[key].rows[m] && step.slots[m] == TokenSlot(t, y, l);
    SlotInjective(t, x.before + j, y.before + l);
  }

  lemma SameToken(xs: seq<RequestStep>, i: nat, j: nat, k: nat, l: nat)
    requires NoTokenTwice(xs) && i < |xs| && k < |xs| && j < |xs[i].rows| && l < |xs[k].rows|
    requires xs[i].before + j == xs[k].before + l
    ensures i == k && j == l
  {
  }

  /** Such a step as an event. */
  lemma EventKeepsToken(t: BlockRow, step: Step, s: Staging, before: nat, req: string, key: string, x: RequestStep,
                        j: nat)
    requires RowOk(t) && StagingOk(s) && Covered(s, req, key) && StepFits(t, StepOf(s, req, key, before))
    requires StepOk(step, CacheSize(t)) && Carries(t, step, s, StepOf(s, req, key, before), req, key)
    requires StepFits(t, x) && j < |x.rows| && Agrees(x, j, StepOf(s, req, key, before))
    ensures Keeps(Forward(step), Mm(key), TokenSlot(t, x, j), x.rows[j], CacheSize(t), {})
  {
    forall z, m | z in Copies(Forward(step), Mm(key)) && 0 <= m < |z.slots| && z.slots[m] == TokenSlot(t, x, j)
      ensures z.rows[m] == x.rows[j]
    {
      StepKeepsToken(t, step, s, before, req, key, x, j, m);
    }
  }

  /** The token's own step stores its row. */
  lemma EventStoresToken(t: BlockRow, step: Step, s: Staging, before: nat, req: string, key: string, j: nat)
    requires RowOk(t) && StagingOk(s) && Covered(s, req, key) && StepFits(t, StepOf(s, req, key, before))
    requires StepOk(step, CacheSize(t)) && Carries(t, step, s, StepOf(s, req, key, before), req, key)
    requires j < |StepOf(s, req, key, before).rows|
    ensures var x := StepOf(s, req, key, before);
            Stores(Forward(step), Mm(key), TokenSlot(t, x, j), x.rows[j], CacheSize(t), {})
  {
    EventKeepsToken(t, step, s, before, req, key, StepOf(s, req, key, before), j);
    var m := s.starts[s.batch.reqIndex[req]] + j;
    var z := Copies(Forward(step), Mm(key))[0];
    assert z in Copies(Forward(step), Mm(key)) && z.slots[m] == step.slots[m];
  }

  lemma StepAgrees(xs: seq<RequestStep>, i: nat, j: nat, k: nat)
    requires NoTokenTwice(xs) && i < |xs| && k < |xs| && j < |xs[i].rows|
    ensures Agrees(xs[i], j, xs[k])
  {
    forall l | 0 <= l < |xs[k].rows| && xs[k].before + l == xs[i].before + j ensures xs[k].rows[l] == xs[i].rows[j] {
      SameToken(xs, i, j, k, l);
    }
  }

  /** No step of the run stores another row for the token. */
  lemma TokenIsKept(t: BlockRow, steps: seq<Step>, ss: seq<Staging>, befores: seq<nat>, req: string, key: string,
                    i: nat, j: nat, k: nat)
    requires RunMatches(t, steps, ss, befores, req, key) && i < |steps| && k < |steps|
    requires j < |StepsOf(ss, befores, req, key)[i].rows|
    ensures var x := StepsOf(ss, befores, req, key)[i];
            Keeps(Forward(steps[k]), Mm(key), TokenSlot(t, x, j), x.rows[j], CacheSize(t), {})
  {
    StepsOfAt(ss, befores, req, key, k);
    StepAgrees(StepsOf(ss, befores, req, key), i, j, k);
    EventKeepsToken(t, steps[k], ss[k], befores[k], req, key, StepsOf(ss, befores, req, key)[i], j);
  }

  /** The key has a table by the end of step i: it had one before the run, or the tensor of a step up to i has one row
      per padded token. */
  predicate TableThere(st: Store, steps: seq<Step>, key: string, i: nat)
    requires i < |steps|
  {
    || key in st.mm
    || exists k :: 0 <= k <= i && key in steps[k].outputs && steps[k].outputs[key].Tokens?
                   && |steps[k].outputs[key].rows| == steps[k].padded
  }

  lemma {:induction false} TableAppears(st: Store, steps: seq<Step>, key: string, i: nat)
    requires StoreOk(st) && RunOk(Writing(steps), |st.hidden|, {}) && i < |steps| && TableThere(st, steps, key, i)
    ensures key in SyncRun(st, Writing(steps)[..i + 1], {}).mm
    decreases i
  {
    var es := Writing(steps);
    var st' := SyncEvent(st, es[0], {});
    assert es[..i + 1][0] == es[0] && es[..i + 1][1..] == es[1..][..i] && Writing(steps[1..]) == es[1..];
    if i > 0 {
      if key !in st'.mm {
        var k :| 0 <= k <= i && key in steps[k].outputs && steps[k].outputs[key].Tokens?
                 && |steps[k].outputs[key].rows| == steps[k].padded;
        assert steps[1..][k - 1] == steps[k];
      }
      TableAppears(st', steps[1..], key, i - 1);
    } else {
      assert es[..1] == [es[0]];
      SingleEvent(st, es[0], {});
    }
  }

  lemma WritingOk(t: BlockRow, steps: seq<Step>, ss: seq<Staging>, befores: seq<nat>, req: string, key: string)
    requires RunMatches(t, steps, ss, befores, req, key)
    ensures RunOk(Writing(steps), CacheSize(t), {})
  {
  }

  lemma RunKeepsToken(t: BlockRow, steps: seq<Step>, ss: seq<Staging>, befores: seq<nat>, req: string, key: string,
                      i: nat, j: nat)
    requires RunMatches(t, steps, ss, befores, req, key) && i < |steps|
    requires j < |StepsOf(ss, befores, req, key)[i].rows|
    ensures RunOk(Writing(steps), CacheSize(t), {})
    ensures var x := StepsOf(ss, befores, req, key)[i];
            AllKeep(Writing(steps), Mm(key), TokenSlot(t, x, j), x.rows[j], CacheSize(t), {})
  {
    var x, es := StepsOf(ss, befores, req, key)[i], Writing(steps);
    WritingOk(t, steps, ss, befores, req, key);
    forall e | e in es ensures Keeps(e, Mm(key), TokenSlot(t, x, j), x.rows[j], CacheSize(t), {}) {
      var k :| 0 <= k < |es| && es[k] == e;
      TokenIsKept(t, steps, ss, befores, req, key, i, j, k);
    }
  }

  /** The token's own step is the last to store into its slot. */
  lemma LastStoredByOwnStep(st: Store, es: seq<Event>, which: Table, c: nat, r: Row, i: nat)
    requires StoreOk(st) && RunOk(es, |st.hidden|, {}) && i < |es| && AllKeep(es, which, c, r, |st.hidden|, {})
    requires Stores(es[i], which, c, r, |st.hidden|, {}) && Has(SyncRun(st, es[..i + 1], {}), which)
    ensures LastStoredAt(st, es, {}, which, c, r, i)
  {
  }

  lemma StoredTokenHolds(st: Store, steps: seq<Step>, key: string, c: nat, r: Row, i: nat)
    requires StoreOk(st) && RunOk(Writing(steps), |st.hidden|, {}) && c < |st.hidden| && i < |steps|
    requires TableThere(st, steps, key, i) && AllKeep(Writing(steps), Mm(key), c, r, |st.hidden|, {})
    requires StepOk(steps[i], |st.hidden|) && Stores(Forward(steps[i]), Mm(key), c, r, |st.hidden|, {})
    ensures HoldsRow(SyncRun(st, Writing(steps), {}), Mm(key), c, r)
  {
    TableAppears(st, steps, key, i);
    LastStoredByOwnStep(st, Writing(steps), Mm(key), c, r, i);
    LastStoreWins(st, Writing(steps), {}, Mm(key), c, r, i);
  }

  /** The run that writes the key leaves every token's row in its slot. */
  lemma WritingHolds(t: BlockRow, st: Store, steps: seq<Step>, ss: seq<Staging>, befores: seq<nat>, req: string,
                     key: string, i: nat, j: nat)
    requires StoreOk(st) && RunMatches(t, steps, ss, befores, req, key) && CacheSize(t) == |st.hidden|
    requires i < |steps| && j < |StepsOf(ss, befores, req, key)[i].rows| && TableThere(st, steps, key, i)
    ensures RunOk(Writing(steps), |st.hidden|, {})
    ensures var x := StepsOf(ss, befores, req, key)[i];
            HoldsRow(SyncRun(st, Writing(steps), {}), Mm(key), TokenSlot(t, x, j), x.rows[j])
  {
    var x := StepsOf(ss, befores, req, key)[i];
    StepsOfAt(ss, befores, req, key, i);
    TokenSlotIs(t, x, j);
    RunKeepsToken(t, steps, ss, befores, req, key, i, j);
    EventStoresToken(t, steps[i], ss[i], befores[i], req, key, j);
    StoredTokenHolds(st, steps, key, TokenSlot(t, x, j), x.rows[j], i);
  }

  /** The run that skips the key, and commits what was staged, leaves every token's row in its slot. */
  lemma SkippingHolds(t: BlockRow, st: Store, steps: seq<Step>, ss: seq<Staging>, befores: seq<nat>, req: string,
                      key: string)
    requires StoreOk(st) && RunMatches(t, steps, ss, befores, req, key) && CacheSize(t) == |st.hidden|
    ensures RunOk(Skipping(steps, key), |st.hidden|, {key})
    ensures CommitOk(t, StagedOver(ss, req, key), |st.hidden|)
    ensures TokensHeld(CommitKey(t, SyncRun(st, Skipping(steps, key), {key}), key, StagedOver(ss, req, key)), Mm(key),
                       t, StepsOf(ss, befores, req, key))
  {
    var mid := SyncRun(st, Skipping(steps, key), {key});
    DeferredRunEqualsEager(t, Zeros(CacheSize(t), 0), ss, befores, req, key);
    var after := CommitKey(t, mid, key, StagedOver(ss, req, key));
    var cs := CommitOrder(StagedOver(ss, req, key));
    if cs != [] {
      DeferredRunEqualsEager(t, TableBefore(mid, key, |cs[0].rows[0]|), ss, befores, req, key);
    }
    EagerTableHolds(t, mid, ss, befores, req, key, after);
  }

  /** The skipping run, then the commit, as one run. */
  lemma SkippingThenCommit(st: Store, steps: seq<Step>, t: BlockRow, key: string, chunks: seq<Chunk>)
    requires StoreOk(st) && RunOk(Skipping(steps, key), |st.hidden|, {key}) && CommitOk(t, chunks, |st.hidden|)
    ensures RunOk(Skipping(steps, key) + [Commit(t, key, chunks)], |st.hidden|, {key})
    ensures SyncRun(st, Skipping(steps, key) + [Commit(t, key, chunks)], {key})
            == CommitKey(t, SyncRun(st, Skipping(steps, key), {key}), key, chunks)
  {
    var commit := Commit(t, key, chunks);
    assert RunOk([commit], |st.hidden|, {key});
    SyncRunConcat(st, Skipping(steps, key), [commit], {key});
    SingleEvent(SyncRun(st, Skipping(steps, key), {key}), commit, {key});
  }

  /** Deferring a key changes no token: for every step of every run, the run that skips the key and commits the staged
      chunks at the end holds in each slot of the request the row that the run which writes the key holds there. */
  lemma RoutesAgree(t: BlockRow, st: Store, steps: seq<Step>, ss: seq<Staging>, befores: seq<nat>, req: string,
                    key: string, i: nat, j: nat)
    requires StoreOk(st) && RunMatches(t, steps, ss, befores, req, key) && CacheSize(t) == |st.hidden|
    requires i < |steps| && j < |StepsOf(ss, befores, req, key)[i].rows| && TableThere(st, steps, key, i)
    ensures RunOk(Writing(steps), |st.hidden|, {})
    ensures RunOk(Skipping(steps, key) + [Commit(t, key, StagedOver(ss, req, key))], |st.hidden|, {key})
    ensures var x := StepsOf(ss, befores, req, key)[i];
            var written := SyncRun(st, Writing(steps), {});
            var committed := SyncRun(st, Skipping(steps, key) + [Commit(t, key, StagedOver(ss, req, key))], {key});
            && key in written.mm && key in committed.mm && TokenSlot(t, x, j) < |st.hidden|
            && committed.mm[key][TokenSlot(t, x, j)] == written.mm[key][TokenSlot(t, x, j)] == x.rows[j]
  {
    var x := StepsOf(ss, befores, req, key)[i];
    WritingHolds(t, st, steps, ss, befores, req, key, i, j);
    SkippingHolds(t, st, steps, ss, befores, req, key);
    SkippingThenCommit(st, steps, t, key, StagedOver(ss, req, key));
    assert HoldsRow(SyncRun(st, Skipping(steps, key) + [Commit(t, key, StagedOver(ss, req, key))], {key}), Mm(key),
                    TokenSlot(t, x, j), x.rows[j]);
  }
}
