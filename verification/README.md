# Verified models of vLLM-Omni's decode attention, prefix cache, payload codec and two benchmark helpers

This project models five parts of vLLM-Omni in Dafny and proves what they promise. `dafny verify dfyconfig.toml`
checks all of it.

**Paged decode attention** (`ExtReal`, `Softmax`, `Layout`, `PagedCache`, `Kernels`, `Buffers`, `DecodePrograms`,
`AttentionFormula`, `FishDecode`, `Interleavings`, `MergedLaunches`, `Dispatch`, `WorkspaceCache`, `KvCacheViews`,
`FishForward`, `DecodeRuns`). Three kernels compute softmax attention over a key/value cache cut into blocks of 16
tokens. The reference is the softmax-weighted average of a row's logical tokens, defined by plain sums over the token
sequence that the block table spells out; nothing of the kernels enters it, and `AttentionFormula` spells it out in
plain arithmetic. Numbers are exact reals extended by minus infinity and an undefined value that absorbs everything it
meets, so a stray `-inf - -inf` in a real head lane would be visible in the result. The exponential is a parameter with
two laws: it is positive, and it turns sums into products. Tensors are nested sequences on one side and flat row-major
memory on the other; the programs load and store through the kernels' own offset arithmetic. Output and scratch buffers
are arrays that the programs of a grid fill in any order; `MergedLaunches` lets the stores of a grid's programs
interleave one by one and reaches the same output. `FishForward.ForwardDecode` puts the pieces together: dispatch
length, guard, workspace, launch. It handles a call exactly when the guard accepts it, its heads group, and its
workspace is there or may be allocated; the output is then the reference for every row in full. `DecodeRuns` serves any
sequence of such calls over one workspace cache: after prewarming, no call of the run that is a capture at a prewarmed
size misses its workspace, and it is handled if the guard accepts it.

**Prefix cache** (`CacheRows`, `DeferredChunks`, `CacheStore`, `CacheRuns`, `CacheReads`, `DeferredRuns`, `EagerRuns`,
`PrefixCache`, `PrefixCacheRuns`). The class keeps one array of rows per table, a key set, a pending write and the
staged chunks, and its methods are proved against the cache as a value. About the value it is proved that the
asynchronous route tracks the synchronous one over every run, that staging a request's steps and committing them once
leaves in each of its slots the row that a run which writes the key step by step leaves there, that coalescing chunks
changes nothing, that a commit is itself a run of events, and that a merged read of a live prefix is the full sequence
exactly when the computed count is a multiple of the block size. Runs may start from a new, empty cache: the event that
creates a table may be the one that stores the prefix. `PrefixCacheRuns` carries any run of events out on the class, by
either route, and reads after it. A CUDA event is a readiness flag that may be true or false at every drain; a
device-to-host copy is a snapshot taken when it is scheduled.

**Payload codec** (`PayloadKeys`, `Payload`, `PayloadCodec`, `PayloadWire`). Dictionaries are maps whose items come in
any order, so what is proved holds for every insertion order. Keys, layer numbers, dtype names and element widths are
also stated as text and digits. Each round trip comes with the exact condition under which it holds.

**Event-stream reader** (`SseEvents`, `SseCuts`, `SseReader`, `SseStreams`). The reader follows the event-stream format
of sections 9.2.5 ("Parsing an event stream") and 9.2.6 ("Interpreting an event stream") of the WHATWG HTML Living
Standard, more narrowly than the standard: blank lines made of lone CRs end no event here. What is proved is not
conformance but independence of the chunking, and that a stream of events is read as it was sent. The texts whose events
depend on the chunking are given exactly, and so are those for which the events together with the unread rest do. For
the total the same condition is sufficient; different events may still add up to the same total.

**Playback deficit** (`AudioContinuity`). The reported worst underrun is shown to be the least start delay with which a
player never starves, at the arrivals and at every real instant between them.

`Collections`, `Options` and `Text` hold what several of these share.

Three things the code does that its comments do not say:

- The event-stream reader normalises its whole buffer again with every chunk. A CR CR LF therefore loses a second CR when
  the network happens to cut right behind it, which can split one event into two (`SseEvents.ChunkingChangesEvents`).
- `stage_deferred_mm_outputs` needs a computed-token counter that already includes the step, whereas a prefix-hit read
  takes the same counter as the cached prefix length. `CacheReads.StagedStartIsRightIff` says exactly when staging is
  right; `DeferredRuns` and the read theorems name the moment of each read.
- `kv_cache.unbind(1)` on a cache laid out row-major as (blocks, 2, ...) gives views that are not contiguous once there are
  two blocks, and the guard then refuses the fast path (`KvCacheViews.UnboundIsContiguousIff`). The attention theorems
  hold for the calls that the guard accepts.

What the theorems assume of the surrounding system, and the code does not establish: the slots of one step are in range
and distinct; the blocks that hold a row's tokens exist; a deferred request's block-table entries stay fixed until its
commit, and no other request's rows go to its slots; every step skips the deferred keys, and may skip others; a step's
hidden states and tensors hold its unpadded tokens; attached length bounds are the counts before the step plus those of
the step.

## Model

| member | source | states |
|---|---|---|
| ExtReal.UndefSpoilsRow | vllm_omni/attention/fish_kvcache_triton.py:91-95 | one undefined entry makes the maximum and the sum of its row undefined |
| Softmax.MaxOfIsGreatest | vllm_omni/attention/fish_kvcache_triton.py:91 | the running maximum's reference is a greatest element of the scores |
| Softmax.TileStep | vllm_omni/attention/fish_kvcache_triton.py:87-96 | one tile of the online softmax keeps `l*e^m` equal to the sum of `e^score` and `acc*e^m` equal to the weighted sum over the tokens so far; a dead lane adds nothing and no undefined number arises |
| Softmax.Merge | vllm_omni/attention/fish_kvcache_triton.py:227-231 | rescaling two summaries to their joint maximum and adding them summarises both ranges |
| Softmax.CombineStep | vllm_omni/attention/fish_kvcache_triton.py:223-231 | one split of the combine kernel extends the sums by the split's tokens; an empty split has weight 0 |
| Softmax.Finish | vllm_omni/attention/fish_kvcache_triton.py:99-100 | the guarded division turns a summary into the softmax-weighted average, and into 0 for no tokens |
| Layout.FlatAt4 | vllm_omni/attention/fish_kvcache_triton.py:83-85 | cell (i, j, k, l) of a four-dimensional contiguous tensor is at its row-major offset |
| PagedCache.GatherAt | vllm_omni/attention/fish_kvcache_triton.py:75-81 | logical token t lives in block `row[t // 16]` at offset `t % 16` |
| PagedCache.KvOffsetIsRowMajor | vllm_omni/attention/fish_kvcache_triton.py:83-85 | the kernels' key/value offset is the row-major index of (block, offset, kv head, dim), within the cache |
| PagedCache.LoadKv | vllm_omni/attention/fish_kvcache_triton.py:77-90 | a masked load stays in bounds and reads the logical token's element, or 0 past the end of the row |
| PagedCache.LoadQ | vllm_omni/attention/fish_kvcache_triton.py:57-61 | the kernels' query offset reads the head's own element |
| PagedCache.RenumberingIsInvisible | vllm_omni/attention/fish_kvcache_triton.py:71-90 | renumbering physical blocks together with their contents leaves every row's attention unchanged |
| AttentionFormula.ScoreOfUnit | vllm_omni/attention/fish_kvcache_triton.py:87 | a query with the single entry q[d] scores `q[d] * k[d] * scale` against a key |
| AttentionFormula.ScoreOfSum | vllm_omni/attention/fish_kvcache_triton.py:87 | the score of a sum of queries is the sum of their scores |
| AttentionFormula.ScoreIsScaledProduct | vllm_omni/attention/fish_kvcache_triton.py:87 | a score is the sum of the products of the entries, times the scale |
| AttentionFormula.OutputIsSoftmax | vllm_omni/attention/fish_kvcache_triton.py:71-100 | the reference in plain arithmetic: the sum of weight times value entry over the sum of the weights, each weight the exponential of the scaled inner product of the query row with the key at block `row[i // 16]`, offset `i % 16` |
| Kernels.QueryLanes | vllm_omni/attention/fish_kvcache_triton.py:57-61 | the masked query load gives every real lane its head's row of the query, and zeros to the padding lanes |
| Kernels.NextPow2Is | vllm_omni/attention/fish_kvcache_triton.py:266 | the number of head lanes is the least power of two that is at least the group size |
| Kernels.LoadTile | vllm_omni/attention/fish_kvcache_triton.py:73-90 | a loaded tile holds the row's tokens from its start on, and zeros past the end |
| Kernels.ScoreTileIsSlice | vllm_omni/attention/fish_kvcache_triton.py:87-88 | the live part of a tile's scores is the next slice of the row's scores; dead positions hold -inf |
| Kernels.AccumulateTile | vllm_omni/attention/fish_kvcache_triton.py:73-97 | the shared tile body moves every real lane's registers on to the tokens up to the tile's end; a tile wholly past the end changes nothing |
| DecodePrograms.NormaliseIsAttention | vllm_omni/attention/fish_kvcache_triton.py:99-102 | registers that summarise the first n tokens divide out to attention over them |
| DecodePrograms.SmallDecodeRow | vllm_omni/attention/fish_kvcache_triton.py:67-100 | the one-pass loop yields the reference attention for every sequence length |
| DecodePrograms.SmallDecodeProgram | vllm_omni/attention/fish_kvcache_triton.py:51-102 | one program writes its own heads' attention and no other cell; a guarded row is left alone |
| DecodePrograms.SplitPartialRow | vllm_omni/attention/fish_kvcache_triton.py:143-181 | a split's registers summarise exactly the tokens of its range that the row has |
| DecodePrograms.SplitPartialProgram | vllm_omni/attention/fish_kvcache_triton.py:126-185 | one program leaves its split done in scratch and undoes no other split |
| DecodePrograms.CombineMax | vllm_omni/attention/fish_kvcache_triton.py:215-219 | the first loop finds the maximum score over all splits |
| DecodePrograms.MaxRound | vllm_omni/attention/fish_kvcache_triton.py:215-219 | one round of the first loop moves every real lane from the greatest score of the tokens before split k to that of the tokens before split k + 1 |
| DecodePrograms.LoadSplit | vllm_omni/attention/fish_kvcache_triton.py:224-229 | a split's scratch cells read back as the summary its program stored |
| DecodePrograms.CombineSplit | vllm_omni/attention/fish_kvcache_triton.py:223-231 | one round of the second loop extends every real lane's sums by the split |
| DecodePrograms.CombineSums | vllm_omni/attention/fish_kvcache_triton.py:221-231 | the second loop's sums are those of all the tokens that the splits cover |
| DecodePrograms.CombineRow | vllm_omni/attention/fish_kvcache_triton.py:215-234 | combining a row's splits gives the reference attention over the covered tokens |
| DecodePrograms.SplitCombineProgram | vllm_omni/attention/fish_kvcache_triton.py:203-236 | one combine program writes its own heads' attention and no other cell; a short row is left alone |
| Buffers.CellIsOffset | vllm_omni/attention/fish_kvcache_triton.py:101 | the model's output cell is the kernels' offset arithmetic |
| Buffers.CellInjective | vllm_omni/attention/fish_kvcache_triton.py:101-102 | no two (row, kv head, head, dim) of the grid share an output cell |
| Buffers.CellSurjective | vllm_omni/attention/fish_kvcache_triton.py:101-102 | every output cell belongs to a head of the grid |
| Buffers.HeadCellInjective | vllm_omni/attention/fish_kvcache_triton.py:136-137 | no two splits or heads share a scratch cell |
| Buffers.ScratchCellsAreOffsets | vllm_omni/attention/fish_kvcache_triton.py:136-137 | the model's scratch cells are the kernels' offset arithmetic |
| Buffers.StoreHeads | vllm_omni/attention/fish_kvcache_triton.py:101-102 | a masked store changes the program's own cells and no other |
| Buffers.StorePartial | vllm_omni/attention/fish_kvcache_triton.py:136-185 | a partial store fills the split's own scratch cells and no other |
| FishDecode.LaunchSmall | vllm_omni/attention/fish_kvcache_triton.py:270-289 | in any program order, unguarded rows end up with their attention and guarded rows keep what they held |
| FishDecode.LaunchPartial | vllm_omni/attention/fish_kvcache_triton.py:319-341 | in any program order, every split of every long row ends up in scratch |
| FishDecode.LaunchCombine | vllm_omni/attention/fish_kvcache_triton.py:342-358 | in any program order, long rows end up with attention over the covered tokens, short rows keep what they held |
| FishDecode.DecodeAttention | vllm_omni/attention/fish_kvcache_triton.py:255-359 | a call raises exactly on an unsupported shape, indivisible heads or a mis-shaped workspace; otherwise every output cell holds its row's attention, whatever scratch held on entry |
| FishDecode.CoveredIsAll | vllm_omni/attention/fish_kvcache_triton.py:292-312 | a row no longer than the dispatch length is attended to in full, on either path |
| FishDecode.CoveredIsAllIff | vllm_omni/attention/fish_kvcache_triton.py:292-312 | a longer row is cut short exactly when it exceeds what the splits cover, and then to that |
| FishDecode.CeilDivIsLeast | vllm_omni/attention/fish_kvcache_triton.py:312 | the split count is the least number of splits that reaches the dispatch length |
| Interleavings.OutputGridInterleaves | vllm_omni/attention/fish_kvcache_triton.py:63-236 | however the stores of a grid's programs are merged, a live row's cell ends up with its attention and any other cell of the output with what it held |
| Interleavings.PartialGridInterleaves | vllm_omni/attention/fish_kvcache_triton.py:126-185 | however the partial grid's stores are merged, every program's scratch cells end up with that program's own registers |
| Interleavings.PartialGridKeeps | vllm_omni/attention/fish_kvcache_triton.py:126-185 | however the partial grid's stores are merged, the scratch cells of a split without a program keep what they held |
| Interleavings.SplitSurvives | vllm_omni/attention/fish_kvcache_triton.py:126-185 | so after any merge the scratch cells of a split summarise its tokens, as the combine grid reads them |
| MergedLaunches.LongRowInCells | vllm_omni/attention/fish_kvcache_triton.py:319-341 | after any merge of the partial grid every split of every long row is in scratch |
| MergedLaunches.LongCallInterleaves | vllm_omni/attention/fish_kvcache_triton.py:270-358 | the small, the partial and the combine grid one after the other, each with its stores merged in any order, leave in every output cell the attention over the covered tokens, whatever memory held |
| Dispatch.DispatchCoversEveryRow | vllm_omni/attention/fish_kvcache_backend.py:182-215 | the dispatch length, bucketed or not, is at least every active row's length if the bounds are real, and in required mode whatever the bounds are |
| Dispatch.DispatchKeepsPath | vllm_omni/attention/fish_kvcache_backend.py:60-215 | bucketing never moves a call between the small and the long path |
| Dispatch.DispatchOutcome | vllm_omni/attention/fish_kvcache_backend.py:182-212 | exactly when a decode call falls back and when it raises, and with what: without usable bounds the default mode falls back and the required mode raises; the required mode also raises when a row exceeds every bound |
| Dispatch.DispatchLength | vllm_omni/attention/fish_kvcache_backend.py:60-215 | up to 1024 the length is the least of 64, 128, 256, 512 and 1024 that covers every active bound, beyond it the greatest active bound |
| Dispatch.AttachUpperBound | vllm_omni/attention/fish_kvcache_backend.py:140-179 | what is attached and when, what the buffer then holds row by row, and that the rest of the buffer is untouched |
| Dispatch.AttachedBoundsHold | vllm_omni/attention/fish_kvcache_backend.py:166-179 | attached bounds are real when a length is what was computed plus what is scheduled |
| WorkspaceCache.DecodeWorkspaces.Get | vllm_omni/attention/fish_kvcache_attn.py:123-157 | a hit returns the cached buffers, a miss allocates new ones of the key's shape or raises during capture; nothing else in the cache changes, and what it owns grows by new buffers only |
| WorkspaceCache.DecodeWorkspaces.PrewarmWorkspace | vllm_omni/attention/fish_kvcache_attn.py:160-164 | one workspace is added for the given shape, by new buffers only, and every entry is kept |
| WorkspaceCache.DecodeWorkspaces.Prewarm | vllm_omni/attention/fish_kvcache_backend.py:72-111 | prewarming keeps every entry, adds exactly the empty one and one per positive capture size, by new buffers only, and counts them |
| WorkspaceCache.KeyIs | vllm_omni/attention/fish_kvcache_attn.py:123-157 | up to 1024 tokens a call has the shared empty workspace, beyond that one of its batch and heads with a split for every 1024 tokens begun |
| WorkspaceCache.CaptureHits | vllm_omni/attention/fish_kvcache_backend.py:128-215 | after prewarming, a capture-time dispatch with a positive capture size finds its workspace, on either path |
| WorkspaceCache.FoundWorkspaceFits | vllm_omni/attention/fish_kvcache_triton.py:312-318 | a workspace found for a long dispatch length has the shape the launch expects; one found for a short length is empty |
| KvCacheViews.UnboundIsContiguousIff | vllm_omni/attention/fish_kvcache_backend.py:236-241 | the key view of a row-major cache is contiguous exactly when there is at most one block or blocks are empty |
| KvCacheViews.KeyViewIsContiguousIff | vllm_omni/attention/fish_kvcache_backend.py:236-241 | the same from the element offsets: for a cache of (blocks, 2, block size, heads, head dim) |
| FishForward.RowsFitTable | vllm_omni/attention/fish_kvcache_attn.py:98-101 | the guard's capacity condition keeps every covered row inside its block table |
| FishForward.GuardAccepts | vllm_omni/attention/fish_kvcache_attn.py:76-109 | the guard accepts a decode call that is eligible exactly when it has a table, head dim 128, block size 16 and a length from 1 to the table's columns times 16 |
| FishForward.DecodeWithWorkspace | vllm_omni/attention/fish_kvcache_attn.py:167-193 | with a matching workspace the call fails only on indivisible heads, and otherwise computes the reference for every row |
| FishForward.ForwardDecode | vllm_omni/attention/fish_kvcache_backend.py:234-315 | exactly which decode calls are handled, refused, passed on or raise, and with what, in terms of the shapes and the dispatch length; a handled call's output is the reference in full, any other leaves the output alone, and the cache keeps its entries |
| DecodeRuns.Serve | vllm_omni/attention/fish_kvcache_backend.py:234-315 | over any sequence of calls on one cache, every call that the guard accepts with grouping heads is handled, unless it is a capture whose key was missing, and leaves the reference |
| DecodeRuns.PrewarmAndServe | vllm_omni/attention/fish_kvcache_backend.py:72-315 | after prewarming, in any sequence of calls, a call with the capture bounds at a prewarmed size does not end without its workspace, and is handled if its table holds the capture bound and its heads group |
| CacheRows.IndexCopyAt | vllm_omni/core/prefix_cache.py:390 | with distinct slots a row scatter puts row i into slot i |
| CacheRows.IndexCopyElsewhere | vllm_omni/core/prefix_cache.py:390 | a row scatter leaves every other slot alone |
| CacheRows.IndexCopyInPlace | vllm_omni/core/prefix_cache.py:283-297 | the in-place scatter is the scatter on values |
| CacheRows.QuotientAndRemainder | vllm_omni/core/prefix_cache.py:565-575 | block and offset of a position are its quotient and remainder by the block size |
| CacheRows.SlotIsArithmetic | vllm_omni/core/prefix_cache.py:574-575 | a token's slot is `block_id * block_size + position % block_size` |
| CacheRows.InTableIsPrefix | vllm_omni/core/prefix_cache.py:564-570 | dropping the positions outside the block table keeps a prefix of the token range |
| CacheRows.SlotIdsAt | vllm_omni/core/prefix_cache.py:553-575 | slot i of a token range belongs to token start + i, so cutting the rows to the slot count pairs rows with their own slots |
| DeferredChunks.SlotsOk | vllm_omni/core/prefix_cache.py:553-575 | slots are in range and distinct when the block ids are |
| DeferredChunks.WriteAdjacent | vllm_omni/core/prefix_cache.py:498-521 | two chunks end to end write what their concatenation writes |
| DeferredChunks.WriteCommutes | vllm_omni/core/prefix_cache.py:494-511 | disjoint chunks may be written in either order |
| DeferredChunks.SortByStartIsStable | vllm_omni/core/prefix_cache.py:494 | the sort is sorted by start, keeps every chunk, and keeps the staging order of equal starts |
| DeferredChunks.SortWritesTheSame | vllm_omni/core/prefix_cache.py:494-511 | for pairwise disjoint chunks the result does not depend on the staging order |
| CacheStore.RunWritesAsOne | vllm_omni/core/prefix_cache.py:498-521 | a run of chunks that lie end to end may be written as one tensor |
| CacheStore.InitKeysAdds | vllm_omni/core/prefix_cache.py:84-116 | a key gets a table exactly when it has one or its output is a tensor of one row per padded token; a new table is zeros of the tensor's width, an old one stays |
| CacheStore.SyncStepLands | vllm_omni/core/prefix_cache.py:373-413 | a synchronous step slot by slot: the new tables, then every written row in its slot, every other slot as before |
| CacheStore.ScheduleLands | vllm_omni/core/prefix_cache.py:162-250 | a scheduled step slot by slot: the new tables, the earlier write in its slots, the step's own rows in flight |
| CacheStore.DrainLands | vllm_omni/core/prefix_cache.py:252-297 | a ready write lands in its slots and is cleared, an unready one stays in flight |
| CacheStore.CommitOrderIs | vllm_omni/core/prefix_cache.py:494-511 | a commit writes the non-empty chunks and no others, by start, those of one start in staging order |
| CacheStore.CommitKeyIs | vllm_omni/core/prefix_cache.py:494-541 | a commit changes the key's own table and no other; the chunks go over the old table, or over zeros as wide as the first row written |
| CacheStore.FlushRun | vllm_omni/core/prefix_cache.py:501-511 | flushing a coalesced run equals writing its chunks one by one after the ones before, creating the table if need be |
| CacheStore.CommitOneMore | vllm_omni/core/prefix_cache.py:477-478 | committing a request key by key, in any order, builds up the commit of all its keys |
| CacheStore.HiddenThenInit | vllm_omni/core/prefix_cache.py:373-400 | writing hidden states and adding missing tables commute |
| CacheRuns.InitCommutes | vllm_omni/core/prefix_cache.py:199-215 | adding tables before or after the pending write lands makes no difference |
| CacheRuns.CommitCommutes | vllm_omni/core/prefix_cache.py:456-478 | a deferred commit and a pending write that skips deferred keys commute |
| CacheRuns.EventTracks | vllm_omni/core/prefix_cache.py:162-297 | each schedule, drain or commit keeps the synchronous cache equal to the asynchronous one plus the pending write |
| CacheRuns.AsyncTracksSync | vllm_omni/core/prefix_cache.py:162-414 | over every run, whatever the events' readiness and whichever further keys each step skips, the synchronous cache is the asynchronous one plus the single pending write, with the same keys |
| CacheRuns.ReadyDrainIsSync | vllm_omni/core/prefix_cache.py:252-297 | after any run, a ready drain leaves the asynchronous cache equal to the synchronous one |
| CacheRuns.EarlierWritesHaveLanded | vllm_omni/core/prefix_cache.py:211-215 | right after a step is scheduled every earlier write has landed |
| CacheReads.GatherBlocksAt | vllm_omni/core/prefix_cache.py:713-714 | row p of the gathered blocks is the row in token p's slot |
| CacheReads.EventStores | vllm_omni/core/prefix_cache.py:345-414 | an event that stores a row into a slot leaves it there, even if it creates the table |
| CacheReads.EventKeeps | vllm_omni/core/prefix_cache.py:345-414 | an event that does not store into a slot, or stores the same row again, leaves the slot's row |
| CacheReads.LastStoreWins | vllm_omni/core/prefix_cache.py:345-414 | a slot holds the row last stored into it, over any run of steps, drains and commits, from a cache with or without the table |
| CacheReads.LivePrefixIsHeld | vllm_omni/core/prefix_cache.py:345-414 | if the row of every cached token was last stored into its slot, the table holds the prefix |
| CacheReads.HeldIsFullSequence | vllm_omni/core/prefix_cache.py:711-737 | from a table that holds the prefix, cached blocks and new rows together are the full sequence exactly when the computed count is a multiple of the block size |
| CacheReads.MergedAt | vllm_omni/core/prefix_cache.py:711-737 | a merged tensor row by row: the tokens of the full computed blocks in the table, each from its block and offset, then the new rows |
| CacheReads.MergedIsFullSequence | vllm_omni/core/prefix_cache.py:711-737 | the same after every run that leaves the prefix live, also one that creates the table on the way |
| CacheReads.AsyncMergedIsFullSequence | vllm_omni/core/prefix_cache.py:162-737 | the same equivalence through the asynchronous route, right after the hit's own step is scheduled, whatever is pending at the start |
| CacheReads.StagedStartIsRightIff | vllm_omni/core/prefix_cache.py:451-452 | staging places rows right exactly when the counter includes the step, or everything starts at 0 |
| CacheReads.EagerIsWriteAll | vllm_omni/core/prefix_cache.py:393-454 | writing each step to its slots equals writing the chunks that staging records |
| DeferredRuns.StagedOverIs | vllm_omni/core/prefix_cache.py:434-454 | staging call by call leaves the non-empty chunks of the request's steps in order |
| DeferredRuns.DeferredRunEqualsEager | vllm_omni/core/prefix_cache.py:416-575 | the chunks of a request staged step by step and committed once leave the table that scattering each step's rows to their slots, one step after the other, leaves |
| DeferredRuns.CommitKeysIsRun | vllm_omni/core/prefix_cache.py:477-478 | committing a request is a run of one commit event per key |
| DeferredRuns.CommitRequestsIsRun | vllm_omni/core/prefix_cache.py:456-478 | what committing the finished requests leaves is what a run of commit events leaves, so the theorems about runs cover it |
| DeferredRuns.CommittedTable | vllm_omni/core/prefix_cache.py:477-551 | each table after a request's commit is the table that eager writes leave, and an untouched one where nothing was staged |
| DeferredRuns.StageAndCommit | vllm_omni/core/prefix_cache.py:416-478 | staging any list of calls on the cache and committing one request leaves each deferred table as eager scatters would have left it, with every token's own row in its slot, the hidden states and all other tables as they were, and nothing staged for that request |
| EagerRuns.WritingHolds | vllm_omni/core/prefix_cache.py:345-414 | a run of synchronous steps over batches of several requests leaves each token's own row in its slot |
| EagerRuns.RoutesAgree | vllm_omni/core/prefix_cache.py:345-575 | the run of synchronous steps that skips a key and commits the staged chunks holds in each of the request's slots the same row as the run that writes the key |
| PrefixCache.StagedViewIsInvisible | vllm_omni/core/prefix_cache.py:345-391 | a staged view that holds the step's hidden states is accepted, and the step leaves the cache that it leaves without it |
| PrefixCache.ResolvedRows | vllm_omni/core/prefix_cache.py:316-343 | a step with a staged view writes the view's rows, one without it its own |
| PrefixCache.StagedReadIsInvisible | vllm_omni/core/prefix_cache.py:673-721 | a staged view that agrees with the step's rows up to a request's end reads the same for that request |
| PrefixCache.OmniTensorPrefixCache.constructor | vllm_omni/core/prefix_cache.py:50-82 | a new cache holds zero hidden states, no tables, no hits, no staged chunks and no pending write |
| PrefixCache.OmniTensorPrefixCache.InitMissingKeys | vllm_omni/core/prefix_cache.py:84-116 | zero tables of the tensor's width are added for exactly the tensors with one row per padded token, and old tables stay; the key set stays the table map's domain |
| PrefixCache.OmniTensorPrefixCache.ConsumePendingWrite | vllm_omni/core/prefix_cache.py:266-297 | the pending write is applied to its tables, once |
| PrefixCache.OmniTensorPrefixCache.CacheableRows | vllm_omni/core/prefix_cache.py:197-209 | which keys' rows a step copies, and which rows |
| PrefixCache.OmniTensorPrefixCache.ScheduleAsyncWrite | vllm_omni/core/prefix_cache.py:162-250 | new tables, then the previous write, then this step's snapshot is pending; without CUDA nothing changes |
| PrefixCache.OmniTensorPrefixCache.DrainReadyAsyncWrites | vllm_omni/core/prefix_cache.py:252-264 | a ready write lands in its slots, is cleared and counted; without one, or unready, nothing changes |
| PrefixCache.OmniTensorPrefixCache.UpdateTables | vllm_omni/core/prefix_cache.py:402-413 | the scatters in any table order; one fails exactly when some cached output does not cover the tokens, and then every table done was covered and a failing one was not done |
| PrefixCache.OmniTensorPrefixCache.Update | vllm_omni/core/prefix_cache.py:345-414 | a view that is not on the CPU, contiguous, of the right dtype and width and long enough is refused with its own error and changes nothing; otherwise the step is written, or fails at an output that does not cover the tokens after the tables done before it |
| PrefixCache.WholeWrite | vllm_omni/core/prefix_cache.py:373-413 | hidden states first and the tables after them make the step's whole write |
| PrefixCache.OmniTensorPrefixCache.StageDeferred | vllm_omni/core/prefix_cache.py:416-454 | every request of the batch gets its own clipped rows of every deferred key appended, at the position its counter implies; nothing else changes |
| PrefixCache.StepChunks | vllm_omni/core/prefix_cache.py:434-454 | a call stages at most one chunk per request and key, never an empty one |
| PrefixCache.StepChunksAre | vllm_omni/core/prefix_cache.py:434-454 | which rows a call stages for a request and a key, and at which position |
| PrefixCache.OmniTensorPrefixCache.CommitDeferred | vllm_omni/core/prefix_cache.py:456-478 | every finished request's chunks are dropped, and committed in turn if it is still in the batch |
| PrefixCache.NothingToCommit | vllm_omni/core/prefix_cache.py:469-478 | a finished request that has left the batch or has nothing staged changes no table |
| PrefixCache.OmniTensorPrefixCache.CommitRequest | vllm_omni/core/prefix_cache.py:477-478 | the keys of a request are committed, in any order |
| PrefixCache.OmniTensorPrefixCache.CommitDeferredKey | vllm_omni/core/prefix_cache.py:484-511 | the coalescing loop leaves what writing the sorted non-empty chunks one by one leaves |
| PrefixCache.OmniTensorPrefixCache.WriteDeferredTensor | vllm_omni/core/prefix_cache.py:513-551 | the table is created if need be, and the rows that have a slot are written to it |
| PrefixCache.OmniTensorPrefixCache.RequiredTokens | vllm_omni/core/prefix_cache.py:695-700 | the least row count that holds every request's rows |
| PrefixCache.WindowIs | vllm_omni/core/prefix_cache.py:711-724 | a request's new rows are those from its start on, cut off at the end of the step's rows |
| PrefixCache.OmniTensorPrefixCache.MergedTensors | vllm_omni/core/prefix_cache.py:673-726 | refused exactly when a staged view is unacceptable or too short for some request; otherwise a hit gets its cached blocks and new rows, a miss exactly its new rows |
| PrefixCache.OmniTensorPrefixCache.MergedHiddenStates | vllm_omni/core/prefix_cache.py:649-671 | the same from the hidden-state table |
| PrefixCache.OmniTensorPrefixCache.MergedMultimodal | vllm_omni/core/prefix_cache.py:624-634 | the same for every key that has a table and an output this step |
| PrefixCache.ReadIsFullSequence | vllm_omni/core/prefix_cache.py:673-737 | after any run, a read at a block boundary gives a hit with a live prefix its whole sequence and a miss its new rows |
| PrefixCache.HitAfterNewCache | vllm_omni/core/prefix_cache.py:50-737 | from a new cache on: a multimodal key whose live prefix was stored in the run has its table, and a hit reads its whole sequence |
| PrefixCacheRuns.RunAsync | vllm_omni/core/prefix_cache.py:162-551 | scheduling, draining and committing any run of events on the class leaves the cache that the run leaves as a value |
| PrefixCacheRuns.RunSync | vllm_omni/core/prefix_cache.py:345-551 | updating and committing a run on the class goes through exactly when every output covers its step, and then leaves what the run leaves as a value |
| PrefixCacheRuns.RunAndRead | vllm_omni/core/prefix_cache.py:162-737 | after any asynchronous run and the next step scheduled, the hidden states and every multimodal table give a hit with a live prefix of whole blocks its full sequence and a miss its new rows |
| PrefixCacheRuns.RunSyncAndRead | vllm_omni/core/prefix_cache.py:345-737 | the same after a synchronous run that goes through |
| PrefixCacheRuns.ServeFromNew | vllm_omni/core/prefix_cache.py:50-737 | the same from the constructor on |
| PayloadKeys.ParsePrintInt | vllm_omni/data_entry_keys.py:320-342 | a printed layer number parses back to itself, negative ones too |
| PayloadKeys.PrintIntIs | vllm_omni/data_entry_keys.py:321 | a printed layer number is decimal: its digits times their powers of ten add up to it, without a leading zero, behind a minus sign if it is negative |
| PayloadKeys.ParseIntIff | vllm_omni/data_entry_keys.py:342 | a text reads as a number exactly when it is white space, a sign or none, digits that may be grouped by single underscores, and white space; the number is the signed sum of the digits times their powers of ten |
| PayloadKeys.SplitIsUnique | vllm_omni/data_entry_keys.py:338 | splitting at the first dot recovers category and qualifier |
| PayloadKeys.KeyReadsBackIff | vllm_omni/data_entry_keys.py:317-346 | an entry's dotted key reads back as the entry exactly when its top-level key has no dot and it is no disguised layer |
| PayloadKeys.KeyTexts | vllm_omni/data_entry_keys.py:314-326 | the keys of a plain value, a category's value and a layer, as text |
| PayloadKeys.KeyReads | vllm_omni/data_entry_keys.py:335-347 | a key without a dot is top-level; any other that is not a layer's is split at its first dot |
| PayloadKeys.LayerKeyReads | vllm_omni/data_entry_keys.py:337-343 | `hidden_states.layer_` and a number reads as that layer; with anything else behind it, it does not read |
| Payload.PruneKeepsEntries | vllm_omni/data_entry_keys.py:314-324 | dropping empty categories and empty layer dicts keeps every entry |
| Payload.EntriesDetermine | vllm_omni/data_entry_keys.py:327-348 | a payload with nothing empty in it is determined by its entries |
| PayloadCodec.FlattenPayload | vllm_omni/data_entry_keys.py:302-326 | every entry's key is in the flat map and every key holds the value of an entry with that key, for every dict order |
| PayloadCodec.ExpandedDicts | vllm_omni/data_entry_keys.py:302-319 | the dicts that flattening expands, by name: five categories, and `layers` in `hidden_states` |
| PayloadCodec.FlattenKeys | vllm_omni/data_entry_keys.py:302-326 | a key is in the flat map exactly when the payload has a value under it: as it is, as `category.qualifier`, or as `hidden_states.layer_` and the number's digits; it holds that value |
| PayloadCodec.UnflattenPayload | vllm_omni/data_entry_keys.py:329-348 | the result is what storing the items one by one in some order leaves; for every order, an unambiguous map is rebuilt entry by entry, and a success means that every layer number parsed, and leaves nothing empty, no dotted key and no entry that no key gives |
| PayloadCodec.UnflattenValues | vllm_omni/data_entry_keys.py:329-348 | where each value of an unambiguous map ends up: under its key, in its category, or as the layer that the text behind `hidden_states.layer_` reads as |
| PayloadCodec.OneLayer | vllm_omni/data_entry_keys.py:336-343 | a map with one layer key unflattens to that layer under `layers` of `hidden_states` and nothing else |
| PayloadCodec.UnflattenErrors | vllm_omni/data_entry_keys.py:334-347 | an error means a layer key without a number, or a value under a key where another key needs a dict |
| PayloadCodec.PutIs | vllm_omni/data_entry_keys.py:334-347 | one store fails exactly when an entry is in the place of a dict it needs; otherwise it leaves its value, takes away the entries under its own key, and keeps every other |
| PayloadCodec.PutAt | vllm_omni/data_entry_keys.py:337-347 | one store that no entry stands in the way of and that replaces no dict adds or replaces its own entry and no other |
| PayloadCodec.FlattenRoundTripIff | vllm_omni/data_entry_keys.py:302-348 | unflatten after flatten returns the payload without empty categories and empty layers exactly when no top-level key has a dot and no hidden_states key starts with `layer_` |
| PayloadCodec.UnflattenRoundTripIff | vllm_omni/data_entry_keys.py:302-348 | for a map of known categories, unflattening succeeds and flattening gives the map back exactly when no two keys give one entry or shadow each other and its layer numbers are canonical |
| PayloadWire.ChunksOfFlat | vllm_omni/data_entry_keys.py:351-366 | cutting a tensor's bytes into elements undoes joining them |
| PayloadWire.TensorRoundTripIff | vllm_omni/data_entry_keys.py:351-366 | bytes, shape and dtype rebuild a tensor; serialising fails exactly for the dtype numpy lacks |
| PayloadWire.TensorOnWire | vllm_omni/data_entry_keys.py:283-359 | a tensor's entry has its shape, the name of its dtype, and so many bytes for an element as the table of names and widths says; bfloat16 is refused |
| PayloadWire.DeserializeTensorIs | vllm_omni/data_entry_keys.py:362-366 | exactly when a tensor entry rebuilds and with which error it does not; the elements put together are the bytes, and float32 is the dtype of an entry that names none |
| PayloadWire.UnknownDTypeIff | vllm_omni/data_entry_keys.py:362-363 | a dtype is unknown exactly when its name is not in the table |
| PayloadWire.ProductOfParts | vllm_omni/data_entry_keys.py:365 | the element count of a shape is multiplicative over its parts |
| PayloadWire.EntryForms | vllm_omni/data_entry_keys.py:407-413 | a list and a scalar travel in a field of their own; of an entry, the tensor counts before the list and the list before the scalar |
| PayloadWire.EntryRoundTrip | vllm_omni/data_entry_keys.py:386-413 | a value's wire entry decodes to the value |
| PayloadWire.SerializePayload | vllm_omni/data_entry_keys.py:369-394 | fails exactly on a tensor numpy cannot hold; otherwise one entry per value that is not None, or no payload at all |
| PayloadWire.DeserializePayload | vllm_omni/data_entry_keys.py:397-415 | fails exactly when some tensor entry is bad; otherwise the decoded values, without empty entries, are unflattened |
| PayloadWire.WireRoundTrip | vllm_omni/data_entry_keys.py:369-415 | what arrives is what was sent, without None values, empty categories and empty layers |
| PayloadWire.NothingSentIff | vllm_omni/data_entry_keys.py:394 | nothing is sent exactly when only None values and empty dicts are there |
| SseEvents.NormalInSteps | benchmarks/fish-speech/fish_bench_utils.py:149-150 | normalising a first piece early changes nothing unless the piece holds a CR CR LF |
| SseEvents.DrainInSteps | benchmarks/fish-speech/fish_bench_utils.py:152-153 | draining a first piece early gives the events of the whole |
| SseEvents.AnyChunkingAgrees | benchmarks/fish-speech/fish_bench_utils.py:146-153 | without a CR CR LF before the last byte, every chunking gives the events and the rest of the text in one piece |
| SseEvents.ChunkingIndependentIff | benchmarks/fish-speech/fish_bench_utils.py:146-153 | every chunking of a text gives the same events and the same unread rest exactly when no CR CR LF is followed by another byte |
| SseEvents.ChunkingChangesEvents | benchmarks/fish-speech/fish_bench_utils.py:149-153 | texts whose events differ with the chunking: one event in one piece, two when cut behind a CR CR LF |
| SseCuts.EventsIndependentIff | benchmarks/fish-speech/fish_bench_utils.py:146-153 | every chunking of a text gives the same events exactly when it has no CR CR LF before its last byte, or from the first one on no LF can come to follow an LF by losing the CRs between them, one for each byte still to come |
| SseReader.ExtractSsePayload | benchmarks/fish-speech/fish_bench_utils.py:121-133 | the payload is the stripped, LF-joined data of the event's data lines, None without one |
| SseReader.PayloadOfDataLine | benchmarks/fish-speech/fish_bench_utils.py:121-133 | a one-line payload sent behind `data: ` is extracted unchanged |
| SseStreams.LinesStep | benchmarks/fish-speech/fish_bench_utils.py:123 | an event's lines end at LF, CR, CR LF or the end of its text |
| SseStreams.PayloadOfEvent | benchmarks/fish-speech/fish_bench_utils.py:121-133 | the payload of an event is the values of its data lines, one a line, stripped: what follows `data: `, or what follows `data:` and other white space; other lines count for nothing, and without a data line there is none |
| SseReader.DrainPending | benchmarks/fish-speech/fish_bench_utils.py:152-184 | the inner loop handles the buffer's events in order and keeps the rest, or stops at the first that ends the read |
| SseReader.ReadSseAudioStream | benchmarks/fish-speech/fish_bench_utils.py:136-186 | the result is the total up to `[DONE]` or the end, or an exception, over the events of all chunks |
| SseReader.TotalIgnoresChunking | benchmarks/fish-speech/fish_bench_utils.py:136-186 | the total does not depend on the chunking of a text whose events do not |
| SseStreams.ReadsWhatWasSent | benchmarks/fish-speech/fish_bench_utils.py:136-186 | a stream of events, each with any data lines and other lines and with LF or CR LF line ends, cut anywhere, is read as the sum of its payloads' sizes up to `[DONE]`; the start of a further event counts for nothing |
| AudioContinuity.ComputeContinuityStats | vllm_omni/benchmarks/audio_continuity.py:39-92 | empty, mismatched or rateless input is continuous; otherwise the worst deficit, the number of chunks after the first at which the bytes before have run out, and the threshold test |
| AudioContinuity.Measure | vllm_omni/benchmarks/audio_continuity.py:75-91 | the loop finds the greatest deficit over the chunks after the first, and counts the positive ones |
| AudioContinuity.WorstIsLeastDelay | vllm_omni/benchmarks/audio_continuity.py:79-91 | a start delay suffices at every arrival exactly when it is at least the worst underrun |
| AudioContinuity.WorstIsZeroIff | vllm_omni/benchmarks/audio_continuity.py:84-90 | the worst underrun is zero exactly when no underrun was counted |
| AudioContinuity.SufficientDelayNeverStarves | vllm_omni/benchmarks/audio_continuity.py:79-91 | a delay that suffices at the arrivals suffices at every real instant up to the last one |
| AudioContinuity.WorstUnderrunIsOptimal | vllm_omni/benchmarks/audio_continuity.py:64-92 | the delays with which playback never starves at any real instant are exactly those of at least the worst underrun |

## Left out

- Floating-point rounding, the cast of the weights to the value dtype, and the 32-bit range of the length bounds and offsets: numbers are exact and unbounded.
- Warps, pipeline stages, CUDA streams and pinned memory: a grid is its programs in some order, or their stores in some order, the launches of a call follow each other, and a copy is a snapshot.
- CacheRuns.AsyncTracksSync: the synchronous step it compares with skips an output shorter than the unpadded tokens, as the asynchronous route does; `PrefixCache.OmniTensorPrefixCache.Update` raises there, so the two routes agree on steps whose outputs cover the tokens.
- FishForward.ForwardDecode: the boolean conditions of the guard that concern neither shape nor capacity (enabled, available, cascade, context parallelism, ALiBi, sliding window, output scale, dtypes, contiguity) are one flag, and a call that is not a decode goes to the original attention unmodelled.
- SseReader.TotalIgnoresChunking: one direction only, because events that differ can add up to the same total.
- Dispatch.AttachUpperBound: returns the attached rows as values, so later writes to the CPU buffer through the attached view are not modelled, nor is the walk over nested metadata containers.
- PrefixCache.OmniTensorPrefixCache.Update: slots out of range or repeated are a precondition, and a cached output that is not a 2-D tensor fails like one that is too short.
- Tensors of three and more dimensions in the cache, tables whose rows change width, and element types of the cached tensors.
- The passthrough half of `get_merged_multimodal_states`: `build_mm_cpu` and `to_payload_element` are not part of this model.
- vLLM's block allocator and scheduler: environment assumptions only.
- PayloadKeys.ParsePrintInt: `int()` is modelled for ASCII text, with sign, surrounding whitespace and underscores; other digits and the interpreter's limit on digit counts are not modelled.
- PayloadCodec.UnflattenPayload: in an ambiguous map a plain value that happens to be a dict or a list is treated like any other plain value, an error, where Python would store into it.
- PayloadWire.TensorRoundTripIff: covers the ten dtypes of the name table; other numpy type names are rejected, and shapes are not negative.
- `to_struct`, `validate_payload`, `to_dict` and what msgspec does to lists and scalars between the two ends.
- Iteration order of dictionaries and sets: every loop over one takes any order, and results are stated for all of them.
- SseReader.ReadSseAudioStream: JSON and base64 decoding are a function from a payload to a byte count, no audio or an exception, and the time of the first audio is left out.
- The HTTP client, the raw audio stream reader and the aggregation of benchmark results.
- Environment-variable parsing, hit and fallback counters, logging, method installation and the original attention.
