# Mivi: verified models of the inference core

Mivi runs a hybrid model (attention layers with a KV cache, short-convolution layers with a recurrent state) on a small
machine. Its speed comes from fast paths: a prefix cache of KV deltas, tiled prefill, a rotated and bit-packed KV cache, a
JSON automaton that masks logits, a nucleus sampler without a sort, a streaming stop detector with a small window, a
quantised batch kernel. Each fast path must mean what a simple one means. This project models the fast paths as they are
written and proves that.

Mutable state is modelled as mutable state: `PrefixCache`, `KvCache`, `Engine`, `Session`, `Automaton`, `TokenBitMask`,
`GgufWriter` and the generators are classes, the in-place algorithms work on arrays, and the loops that update state are loops
with invariants. Each method is proved against a function of its inputs or of its old state, and the theorems are about
those functions. Numbers of the forward pass are reals; 64-bit hashes and bit masks are bit-vectors.

| Files | What they model |
|---|---|
| `ChunkHash`, `PrefixCache`, `PrefixInvariant`, `PrefixLookup`, `CacheGrowth` | the chained hash and the cache of delta chunks: its invariant, its lookup, and that what has room is kept |
| `KvCache`, `KvSizes`, `Layout` | KV buffers in four precisions, export and import |
| `Grid`, `Layers`, `HybridMemory`, `Forward` | a stack of causal layers over a flat memory, token by token and tile by tile |
| `ColdRun`, `WarmCache`, `WarmRestore`, `Prefill`, `WarmIsCold` | restoring, prefilling, and the theorem that warm equals cold |
| `Vectors`, `Hadamard`, `SplitMix`, `Rotation`, `RotationFacts`, `TurboQuant` | the rotated 4-bit and 2-bit quantiser |
| `JsonGrammar`, `JsonSyntax`, `JsonCompleteness`, `JsonSoundness`, `JsonTheorems` | the JSON automaton and the language it accepts |
| `Bits`, `TokenMask`, `ConstrainedDecoding`, `Selection`, `LogitFilters`, `LogitLaws`, `Nucleus`, `Sampler` | masks, logit filters, the nucleus sampler |
| `StopStream` | streaming stop detection |
| `OnlineSoftmax`, `ShortConv` | the two layer kernels |
| `Bytes`, `GgufReader`, `GgufWriter`, `GgufBytes`, `GgufRoundTrip`, `GgufLanguage` | the model file, written and read, and the language of the reader |
| `QuantTypes`, `QuantBlocks`, `QuantValues`, `FusedDot`, `QuantMatmul` | quantised blocks, fused row kernels, the batched product |

`dafny verify dfyconfig.toml` checks the project.

## Findings

Eight places where the code does other than a reader may expect. The first six have an input and an exact condition; the last
two are spelled out in the definitions the theorems use.

- A prompt at position 0 that finds nothing in the prefix cache starts from whatever recurrent cells the context holds;
  callers reset first (model.rs:494-497, 869), `generate_tokens_incremental` itself does not (model.rs:1067-1111).
  `WarmIsCold.StaleCellsShow`: for any cells but zeros there is a model whose answer differs from a cold run.
  `Prefill.Session.Prompt` needs zero cells or a cached beginning, nothing else; stale KV rows are harmless
  (`WarmIsCold.ResetRetains`).
- The GGUF writer always aligns its data section to 32, the reader to `general.alignment` (convert_to_gguf.py:94-130,
  gguf.rs:182-188). `GgufRoundTrip.AlignmentDecides`: every tensor comes back, whatever its data, if and only if both round
  the front to the same place. `GgufRoundTrip.Alignment64`: 64 declared and a front of 90 bytes give 96 and 128.
- Logits at index 262144 and beyond are never masked (grammar.rs:70-99), although `is_allowed` says no. `TokenMask.MaskIsPerToken`:
  the word-skipping mask is the per-token mask if and only if all those logits are minus infinity already.
- The chained hash has one alias: predecessor 0 and the single other value with the same seed (prefix.rs:70-87).
  `ChunkHash.KeyDeterminesPredecessor` is an if-and-only-if with that exception.
- `dequantize` leaves the cells that the packed codes do not reach, and rotates them back with the rest
  (turboquant.rs:279-304). `TurboQuant.ScoreIsDotIff`: the table score is the dot product for every query if and only if the
  norm is zero or those cells were zero.
- A categorical draw of exactly 0 returns token 0, whatever its probability, even if it was masked (sampler.rs:138-148).
  `Nucleus.SampleCategorical` and `Sampler.SampleWithMask` say if and only if; `Nucleus.ZeroDraw` is an input.
- The automaton takes one comma straight after `{` (grammar.rs:340-501), and a top-level number completes only with the
  whitespace after it. Both are part of `JsonCompleteness.IsText`; `JsonCompleteness.NumberStaysOpen` states the second.
- When a stop sequence ends the stream, the bytes that the decoder still holds are delivered after it
  (model.rs:1232-1255). `StopStream.Stream` says exactly what is delivered in that case.

## Model

Lines are those of the repository's files. `Span(n, h)` is n rows of h cells.

| member | source | states |
|---|---|---|
| WarmIsCold.WarmAnswer | crates/mivi-model/src/model.rs:854-1111 | From a new session, through any history of prompts in a reset context (complete, cancelled, too long or refused), continuations where the context stands, prompts at any other later position, generated tokens, prunings and clearings, an uncancelled prompt leaves the KV rows, the recurrent cells and the final activation of a cold run over the prompt with its beginning-of-text token, in either prefill order, and recomputes at least its last token; hypothesis: the chains of the prompts in use do not collide |
| WarmIsCold.Repeat | crates/mivi-model/src/model.rs:854-1111 | The same prompt twice in a reset context, in any orders: where the cache had room for its chunks, the second time all whole chunks before the last token are reused, and both end in the cold memory and activation |
| WarmIsCold.Replay | crates/mivi-model/src/model.rs:1017-1229 | At the end of any such history the memory is that of a run of the layers which ends at the next position; without a prompt at a position other than the next one it is the cold run over the text so far |
| WarmIsCold.Handle | crates/mivi-model/src/model.rs:1017-1229 | One event keeps the session's invariant; a prompt leaves a beginning of itself, a continuation or a generated token extends the run by the tokens done, a prompt elsewhere builds on what the memory holds below its position, cache maintenance changes nothing |
| WarmIsCold.Generate | crates/mivi-model/src/model.rs:854-1111 | A prompt in a reset context, with the beginning-of-text token put before it where the model asks for one: which calls are refused (exactly), that an uncompleted call was cancelled, and that the memory holds the cold run over the tokens done |
| WarmIsCold.Start | crates/mivi-kv/src/prefix.rs:148-170 | A new session with an empty cache and a reset context satisfies the invariant the histories keep |
| WarmIsCold.ResetRetains | crates/mivi-model/src/model.rs:494-497 | After a reset any memory, whatever its KV rows, retains the empty beginning of every prompt |
| WarmIsCold.StaleCellsShow | crates/mivi-model/src/model.rs:1067-1084 | For any recurrent cells other than zeros there is a model and a token whose uncached answer differs from the cold one |
| Prefill.Session.Prompt | crates/mivi-model/src/model.rs:1067-1111 | Reuses exactly the longest cached beginning that leaves a token; afterwards the memory holds the cold run over the tokens done, the cache has had exactly the boundaries in between inserted, and a completed call has the cold activation; where there was room, every whole beginning of a completed prompt is cached |
| Prefill.Session.Reuse | crates/mivi-model/src/model.rs:1067-1084 | Lookup and restore of all but the last token never fail and leave the cold memory over the matched tokens |
| Prefill.Session.RestoreLongestPrefix | crates/mivi-kv/src/prefix.rs:305-346 | Never errors when the prompt fits; matches the longest cached beginning; no match leaves the memory, a match makes it the cold one over the matched tokens |
| Prefill.Session.TokenPrefill | crates/mivi-model/src/model.rs:546-589 | From a memory that retains `from` tokens: cold memory over the tokens done, the activation of the last one, every chunk boundary in (from, done] inserted in order with its chained hash |
| Prefill.Session.ChunkedPrefill | crates/mivi-model/src/model.rs:670-833 | The same result as token order for every tile size: same memory, same activation, same boundaries, same hashes; refuses only tile size 0 |
| Prefill.Session.Continue | crates/mivi-model/src/model.rs:1030-1111 | A prompt at a later position, either order, wherever the context stands: the run it stands for goes on by the tokens done, which are all unless cancelled; refused exactly when the first cancellation check passes and the context overflows or the tile is 0; nothing done changes nothing; the cache is untouched |
| Prefill.Session.AppendToken | crates/mivi-model/src/model.rs:1227-1229 | A decode step extends the run the context stands for by that token, with its activation |
| ColdRun.StandsHere | crates/mivi-model/src/model.rs:1017-1111 | At every position the context stands at the end of the empty run from the states its memory holds there, so a prompt at any position has a run it extends |
| ColdRun.ColdLayer | crates/mivi-model/src/model.rs:336-433 | A cold run spelled out layer by layer: an attention layer gives post(x, attend(query(pre(x), p), the rows of tokens 0..p, the own one included)), each row made at its own position from its own prepared input; a recurrent layer gives post(x, emit(cells, pre(x))) with the cells advanced from zeros by tokens 0..p |
| ColdRun.RetainedRow | crates/mivi-model/src/transformer.rs:114-126 | The memory keeps of each token the row its layer makes of it at its position |
| ColdRun.RetainedCells | crates/mivi-model/src/model.rs:336-433 | And of a recurrent layer the cells advanced by every token in turn |
| Prefill.Session.TileEnd | crates/mivi-model/src/model.rs:708-716 | A tile is never empty, never longer than its capacity, contains no chunk boundary in its interior, and stops only at capacity, a boundary or the end |
| Prefill.Session.CacheBoundary | crates/mivi-model/src/model.rs:591-606 | At a boundary the cache gets the delta node of the chain so far with the cold snapshot, and the chained hash moves on; `CacheGrowth.BoundaryStored` says when the node is stored |
| CacheGrowth.BoundaryStored | crates/mivi-kv/src/prefix.rs:251-302 | A boundary whose earlier beginning is cached, or which is the first, and for which both budgets have room is in the cache afterwards, with its chunk, snapshot, start, index and parent, and every old node stays |
| CacheGrowth.BoundariesStored | crates/mivi-model/src/model.rs:583-606 | With room for all boundaries of a stretch, all of them are cached after it |
| CacheGrowth.PromptStored | crates/mivi-model/src/model.rs:1067-1111 | So after a prompt for which there was room all its whole beginnings are cached |
| CacheGrowth.LongestOfAll | crates/mivi-kv/src/prefix.rs:200-236 | And then a lookup of any n of its tokens matches n / size whole chunks |
| Prefill.BoundariesKeepSound | crates/mivi-model/src/model.rs:583-586 | Inserting all boundaries of a stretch keeps the cache's structural invariant |
| WarmCache.BoundariesKeepFaithful | crates/mivi-model/src/model.rs:583-606 | Inserting all boundaries of a stretch keeps every node faithful: its key is its chain's hash, its snapshot the cold one |
| WarmCache.BoundaryKeepsFaithful | crates/mivi-model/src/model.rs:591-606 | So does one insertion, with the evictions it causes |
| WarmCache.PruneKeepsFaithful | crates/mivi-kv/src/prefix.rs:401-414 | So does pruning to any target |
| WarmCache.NextBoundaryIs | crates/mivi-model/src/model.rs:710-714 | (n / size + 1) * size is the first whole number of chunks beyond n |
| WarmRestore.CachedPath | crates/mivi-kv/src/prefix.rs:314-329 | The parent walk from a cached chain is the list of the keys of its beginnings, root first |
| WarmRestore.RestoreSnap | crates/mivi-kv/src/prefix.rs:330-344 | Importing the next chunk's snapshot into rows that hold n tokens passes the size checks and gives rows that hold n + chunk tokens |
| WarmRestore.RestoreSnapCells | crates/mivi-model/src/model.rs:1075-1083 | With the rows in place, the deepest snapshot's recurrent cells make the memory the cold one |
| ColdRun.SnapshotIsSnap | crates/mivi-model/src/model.rs:591-606 | The exported snapshot at the end of a text depends on the text alone, not on the memory that held it |
| ColdRun.RestoreChunk | crates/mivi-kv/src/prefix.rs:330-344 | Rows exported from one memory over tokens [n, n + len) and imported behind n retained tokens are n + len retained tokens |
| ColdRun.RetainsPrefix | crates/mivi-model/src/model.rs:1067-1084 | A memory that retains n tokens of one prompt retains them of every prompt with the same beginning |
| Forward.Engine.ForwardStep | crates/mivi-model/src/model.rs:336-433 | One token through all layers turns the layer states after p tokens into those after p + 1 and yields the final activation |
| Forward.Engine.ForwardTile | crates/mivi-model/src/model.rs:723-790 | Layer-major over a tile: the same states and the activation of the tile's last token |
| Forward.Engine.MixRows | crates/mivi-model/src/transformer.rs:451-479 | One layer over the rows of a tile in token order, after preparing all rows first, gives each row the token-order result |
| Grid.SharedAct | crates/mivi-model/src/model.rs:336-433 | Activations at a position depend only on the tokens up to it |
| Layers.AttentionOutput | crates/mivi-model/src/transformer.rs:114-167 | From any state, an attention layer lets a token look at the rows it started with and those of the run up to its own |
| Layers.RecurrentOutput | crates/mivi-model/src/ssm.rs:81-140 | From any state, a recurrent layer emits from its cells after the token |
| HybridMemory.RowStands | crates/mivi-kv/src/cache.rs:292-318 | Row p of slot s stands in the flat buffers from cell (s * maxSeq + p) * rowCells on |
| HybridMemory.CellsStand | crates/mivi-model/src/model.rs:336-433 | Layer i's recurrent cells stand from cell i * cells on |
| HybridMemory.StepView | crates/mivi-model/src/transformer.rs:114-126 | One layer's write into the flat buffers is one causal step of that layer's state |
| HybridMemory.StepOther | crates/mivi-model/src/transformer.rs:114-126 | It leaves every other layer's state alone |
| ChunkHash.ComputeChunkHash | crates/mivi-kv/src/prefix.rs:70-87 | The byte loop computes the chained key, seeded by the predecessor, with 64-bit wrap-around |
| ChunkHash.KnownKeys | crates/mivi-kv/src/prefix.rs:70-87 | The keys of the one-token chunk 0x04030201, as a first chunk and behind key 1 |
| ChunkHash.HashOfA | crates/mivi-kv/src/prefix.rs:70-87 | One byte is mixed in as published for FNV-1a: "a" gives AF63DC4C8601EC8C |
| ChunkHash.MixTokensInjective | crates/mivi-kv/src/prefix.rs:70-87 | For one token sequence, different starting states never merge |
| ChunkHash.KeyDeterminesPredecessor | crates/mivi-kv/src/prefix.rs:70-87 | Equal keys of one chunk mean equal predecessors, or predecessor 0 and its one alias: if and only if |
| ChunkHash.DifferentParentsDifferentKeys | crates/mivi-kv/src/prefix.rs:70-87 | One chunk under two different nonzero parents never shares a key |
| PrefixCache.PrefixCache.DoInsertDelta | crates/mivi-kv/src/prefix.rs:251-302 | The new state and the error of every refused call, as functions of the old state |
| CacheGrowth.DeltaInserts | crates/mivi-kv/src/prefix.rs:251-302 | A chunk is inserted, as a node with its start and parent, exactly if it has the cache's chunk size, its state ends where it does within 64 bits, and it is the first without a predecessor or stands behind a cached node of the index before that ends where it starts; otherwise the cache stays as it was |
| PrefixCache.PrefixCache.DoInsertNode | crates/mivi-kv/src/prefix.rs:348-392 | An existing key is only touched; a new node is stored, then the chunk and byte budgets evict |
| CacheGrowth.NodeStored | crates/mivi-kv/src/prefix.rs:348-392 | A new node with room in both budgets is stored and nothing is evicted |
| CacheGrowth.NodeCharge | crates/mivi-kv/src/prefix.rs:58-121 | A node is charged 288 bytes and four for each token and each cell |
| PrefixCache.PrefixCache.PruneToBytes | crates/mivi-kv/src/prefix.rs:401-414 | The loop terminates in the pruned state and counts the nodes removed |
| CacheGrowth.PruneNeeded | crates/mivi-kv/src/prefix.rs:401-414 | No eviction is superfluous: before the last one the bytes were above the target |
| CacheGrowth.EvictionNeeded | crates/mivi-kv/src/prefix.rs:348-392 | Nor is one for the number of nodes |
| PrefixCache.PrefixCache.SelectEvictionHash | crates/mivi-kv/src/prefix.rs:417-428 | Picks the deepest key of the queue, the oldest of equals, or the queue's head when none is stored |
| PrefixCache.PrefixCache.FindLongestPrefix | crates/mivi-kv/src/prefix.rs:200-236 | The scan's length and key, and the touched queue |
| CacheGrowth.TouchMoves | crates/mivi-kv/src/prefix.rs:200-236 | A touched key moves to the end of the queue, the others keep their order |
| PrefixInvariant.Reachable | crates/mivi-kv/src/prefix.rs:190-443 | Every history of inserts, delta inserts, lookups, prunings and clearings keeps: parents present, one index lower, at the child's start; the queue a duplicate-free listing of the map; both budgets met; recorded bytes the exact sum until some insertion saturates |
| PrefixInvariant.ApplyKeeps | crates/mivi-kv/src/prefix.rs:190-443 | One operation keeps all of that; the byte count stays exact when the sum fits in 64 bits |
| PrefixInvariant.InsertNodeMeets | crates/mivi-kv/src/prefix.rs:348-392 | After an insertion both budgets are met |
| PrefixInvariant.ForestWithout | crates/mivi-kv/src/prefix.rs:417-428 | Removing a node of greatest index never orphans a child |
| PrefixInvariant.DeepestIsDeepest | crates/mivi-kv/src/prefix.rs:417-428 | The victim's index is the greatest among the queue's stored keys |
| PrefixInvariant.DeepestIsLeastRecent | crates/mivi-kv/src/prefix.rs:417-428 | No key before the victim in the queue has its index: it is the least recently used of the deepest |
| PrefixInvariant.PruneToMeets | crates/mivi-kv/src/prefix.rs:401-414 | Pruning reaches its target |
| PrefixInvariant.StoredKeeps | crates/mivi-kv/src/prefix.rs:348-392 | Storing an attachable node keeps the invariant; the byte count stays exact if and only if it does not saturate |
| PrefixInvariant.PathCovers | crates/mivi-kv/src/prefix.rs:321-329 | Along a parent path each node's interval starts where its parent's ends |
| PrefixInvariant.WalkParents | crates/mivi-kv/src/prefix.rs:321-329 | The parent walk terminates and collects the path, root first |
| PrefixLookup.LongestIsMaximum | crates/mivi-kv/src/prefix.rs:200-236 | Without collisions in a delta-only forest, the break-on-first-miss scan returns the maximum of all cached beginnings, and the matched node's position is that length |
| PrefixLookup.OwnerOfChain | crates/mivi-kv/src/prefix.rs:200-236 | Without collisions a key names one chain only |
| KvCache.SlotsDisjoint | crates/mivi-kv/src/cache.rs:292-381 | The rows of different (layer, position) pairs do not overlap |
| KvCache.KvCache.CheckedOffset | crates/mivi-kv/src/cache.rs:292-381 | The offset, or the layer error, or the overflow error, in that order |
| KvCache.KvCache.Store | crates/mivi-kv/src/cache.rs:395-460 | Refuses wrong dimensions first, K before V, then a bad layer or position; otherwise writes exactly the encoded row of K and of V and advances the position; a refusal changes nothing |
| KvCache.TryNew | crates/mivi-kv/src/cache.rs:95-217 | Succeeds exactly when the layer count and the buffer sizes fit; then exactly the attention layers are mapped |
| KvSizes.Q8Row | crates/mivi-kv/src/cache.rs:143-157 | A Q8 row is the fewest whole blocks of 34 bytes that hold the vector |
| KvSizes.TurboRows | crates/mivi-kv/src/cache.rs:168-205 | A packed row is a four-byte norm and the fewest bytes that hold its codes |
| KvSizes.CarrierIs | crates/mivi-kv/src/cache.rs:688-746 | An exported row travels in the fewest whole floats that hold it |
| KvCache.BuildLayerMap | crates/mivi-kv/src/cache.rs:95-145 | Maps exactly the attention layers, one to one, each to its own slot |
| KvCache.MappedBelowSlots | crates/mivi-kv/src/cache.rs:669-679 | The greatest slot alone gives the number of allocated layers |
| KvCache.KvCache.ExportStateRange | crates/mivi-kv/src/cache.rs:688-746 | An interval's cells, packed bytes inside padded float carriers, or an overflow error |
| KvCache.KvCache.ExportState | crates/mivi-kv/src/cache.rs:682-685 | The interval from 0, clamped to the context |
| KvCache.ExportedRow | crates/mivi-kv/src/cache.rs:688-746 | Row j of layer l of an export is that layer's row start + j |
| KvCache.KvCache.ImportStateAt | crates/mivi-kv/src/cache.rs:827-914 | Succeeds exactly when interval and sizes, counted in floats, fit; then exactly that interval is replaced; the copy guards always hold |
| KvCache.KvCache.ImportStateRange | crates/mivi-kv/src/cache.rs:814-824 | The same and the position moves to the interval's end |
| KvCache.ImportedRow | crates/mivi-kv/src/cache.rs:827-914 | And an import puts it there |
| KvCache.UnimportedRow | crates/mivi-kv/src/cache.rs:827-914 | Every other row keeps its contents |
| KvCache.MovedSlot | crates/mivi-kv/src/cache.rs:827-914 | Importing an exported interval gives every slot inside it the source's cells and leaves every slot outside |
| KvCache.RestoredExports | crates/mivi-kv/src/cache.rs:669-914 | For every partition of [0, n) into consecutive intervals, importing the exported intervals in order gives a buffer that exports the same [0, n), in all precisions |
| KvCache.Transfer | crates/mivi-kv/src/cache.rs:669-914 | The loop over two caches does that to K and V, ends at position n, and succeeds exactly when each piece can be addressed |
| Hadamard.FwhtInPlace | crates/mivi-core/src/turboquant.rs:50-82 | The in-place butterfly computes the recursive transform of its slice, scaled, and touches nothing else |
| Hadamard.HadEntry | crates/mivi-core/src/turboquant.rs:50-82 | The transform is the Walsh-Hadamard matrix: entry i is the sum of all cells, each negated where i and its index have an odd number of ones in common |
| Hadamard.FwhtSelfInverse | crates/mivi-core/src/turboquant.rs:50-82 | With c * c * 2^k == 1 the transform is its own inverse |
| Hadamard.FwhtDot | crates/mivi-core/src/turboquant.rs:50-82 | It preserves dot products |
| SplitMix.SplitMix64.NextU64 | crates/mivi-core/src/turboquant.rs:34-46 | The n-th draw is word n of the seed's stream |
| SplitMix.KnownOutputs | crates/mivi-core/src/turboquant.rs:34-46 | For seed 0 the first three words are those published with SplitMix64 |
| SplitMix.KnownView | crates/mivi-core/src/turboquant.rs:34-46 | A word's upper half and its bits from the lowest on |
| SplitMix.KnownSeed | crates/mivi-core/src/turboquant.rs:85-99 | The seed for 64 coordinates |
| Rotation.RotateInPlace | crates/mivi-core/src/turboquant.rs:85-124 | Two rounds of shuffle, sign flips and block transforms, in place, for every stream of draws |
| Rotation.ChooseBlockSize | crates/mivi-core/src/turboquant.rs:91-97 | 8, 16, 32 or 64; above 8 it divides the dimension; every one of 16, 32 and 64 that divides the dimension is at most it |
| RotationFacts.BlockIs | crates/mivi-core/src/turboquant.rs:118-123 | Block q of the result is the transform of block q |
| RotationFacts.TailStays | crates/mivi-core/src/turboquant.rs:118-123 | What is left behind the last whole block is not transformed |
| RotationFacts.EveryOrder | crates/mivi-core/src/turboquant.rs:99-106 | The shuffle can give every order: some stream gives any rearrangement |
| RotationFacts.UnitExample | crates/mivi-core/src/turboquant.rs:85-124 | With idle swaps and one flipped sign, a unit vector of 64 coordinates becomes 31/32 followed by sixty-three times -1/32: one block of 64, two rounds |
| Rotation.UnrotateInPlace | crates/mivi-core/src/turboquant.rs:127-187 | Records both rounds' draws, then undoes them in reverse: the inverse function |
| Rotation.RotationInverse | crates/mivi-core/src/turboquant.rs:85-187 | For every dimension, vector and stream, unrotate(rotate(v)) == v and rotate(unrotate(v)) == v |
| Rotation.SeededRotationInverse | crates/mivi-core/src/turboquant.rs:85-187 | In particular for the stream of the generator seeded with the dimension |
| Rotation.RotateVectorInPlace | crates/mivi-core/src/turboquant.rs:85-124 | The entry point rotates by the stream of the seed 0x517cc1b727220a95 mixed with the dimension |
| Rotation.RotationDot | crates/mivi-core/src/turboquant.rs:85-124 | Rotation preserves dot products |
| Rotation.RotationLinear | crates/mivi-core/src/turboquant.rs:85-124 | It is linear |
| TurboQuant.Quantize | crates/mivi-core/src/turboquant.rs:235-276 | Every coordinate of the rotated unit vector is in its code's cell, in both widths; a zero vector packs the fixed middle code |
| TurboQuant.CodesAreNearest | crates/mivi-core/src/turboquant.rs:10-19 | Each code names a level no other level is closer than |
| TurboQuant.PutCrumbReads | crates/mivi-core/src/turboquant.rs:425-441 | Packing one 2-bit code into a byte writes that code and leaves the other three |
| TurboQuant.KnownCodes | crates/mivi-core/src/turboquant.rs:326-353 | Codes are packed from the low bits up |
| TurboQuant.Dequantize | crates/mivi-core/src/turboquant.rs:279-304 | Scaled levels where there are codes, the old cells elsewhere, rotated back; zeros for norm 0 |
| TurboQuant.BuildQueryLut | crates/mivi-core/src/turboquant.rs:307-323 | The table holds the product of every rotated query coordinate with every level |
| TurboQuant.ScoreQueryLut4 | crates/mivi-core/src/turboquant.rs:326-353 | Adds the selected table cells up to the shorter of codes and dimension, times the norm |
| TurboQuant.ScoreQueryLut2 | crates/mivi-core/src/turboquant.rs:488-508 | The same for 2-bit codes |
| TurboQuant.ScoreIsDot | crates/mivi-core/src/turboquant.rs:279-353 | For every query, norm and packing, the table score is the dot product of the query with the dequantised vector, when the norm is zero or the uncovered cells were zero |
| TurboQuant.ScoreIsDotIff | crates/mivi-core/src/turboquant.rs:279-353 | And for all queries at once only then: if and only if |
| TurboQuant.ScoreIsDotButTail | crates/mivi-core/src/turboquant.rs:279-353 | Otherwise the two differ by the uncovered cells' part of the dot product |
| TurboQuant.ReconstructionError | crates/mivi-core/src/turboquant.rs:235-304 | If no rotated unit coordinate exceeds 2.4265 sigma (4-bit) or 2.0385 sigma (2-bit), the squared error is at most (0.2745)^2 or (0.5285)^2 times the squared norm |
| JsonGrammar.Automaton.DoFeed | crates/mivi-model/src/grammar.rs:340-501 | Feeding a chunk into the mutable automaton is the pure step function, with the early exits |
| JsonGrammar.Automaton.CanAccept | crates/mivi-model/src/grammar.rs:183-192 | True exactly when a copy of the automaton reads the chunk without an error |
| JsonSoundness.CompletesIffText | crates/mivi-model/src/grammar.rs:194-501 | For every text: it completes without an error if and only if it is whitespace, a printed JSON value nested at most 32 deep, whitespace - with the code's relaxations spelled out in the value's definition |
| JsonSyntax.AcceptedNumbers | crates/mivi-model/src/grammar.rs:268-333 | The finished numbers are those of section 6 of RFC 8259: an integer part without leading zeros, a point with digits after it, an exponent with digits, a sign only there; stated on the digits, not on the automaton's states |
| JsonTheorems.WhitespaceIs | crates/mivi-model/src/grammar.rs:268-270 | Whitespace is what Unicode calls so, listed by code point |
| JsonTheorems.WordsComplete | crates/mivi-model/src/grammar.rs:274-300 | true, false and null are complete texts |
| JsonTheorems.DepthIs | crates/mivi-model/src/grammar.rs:194-202 | 32 brackets can be open at once, the 33rd is refused |
| JsonSoundness.RunParses | crates/mivi-model/src/grammar.rs:274-501 | Every error-free beginning has a parse that prints it and determines the automaton's state |
| JsonCompleteness.TextCompletes | crates/mivi-model/src/grammar.rs:274-501 | Every such text is accepted, complete, with all scopes closed |
| JsonCompleteness.CompletesAtLastCharacter | crates/mivi-model/src/grammar.rs:226-234 | Any value but a number completes at its own last character |
| JsonCompleteness.NumberStaysOpen | crates/mivi-model/src/grammar.rs:274-337 | A top-level number does not complete by itself |
| JsonTheorems.ChunksDoNotMatter | crates/mivi-model/src/grammar.rs:340-501 | Any split into chunks, up to the chunk that completes, is read as the whole text |
| JsonTheorems.StrictCompletes | crates/mivi-model/src/grammar.rs:194-501 | Every array or object of sections 2 to 7 of RFC 8259, nested at most 32 deep, is accepted and completes at its last bracket |
| JsonTheorems.StrictExample | crates/mivi-model/src/grammar.rs:194-501 | {"k":[-10.5E+3, "\n"]} is such a text for a depth of two and not of one |
| JsonTheorems.NeverStuck | crates/mivi-model/src/grammar.rs:183-192 | Every error-free beginning has an explicit completion |
| JsonTheorems.AcceptedIffViable | crates/mivi-model/src/grammar.rs:183-192 | A chunk is accepted if and only if text and chunk together begin some complete text |
| TokenMask.TokenBitMask.ApplyToLogits | crates/mivi-model/src/grammar.rs:70-99 | The word-skipping, lowest-bit loop computes the mask function in place |
| TokenMask.TokenBitMask.Allow | crates/mivi-model/src/grammar.rs:40-47 | Sets one token's bit and no other; ids beyond the bitset change nothing |
| TokenMask.TokenBitMask.Disallow | crates/mivi-model/src/grammar.rs:49-56 | Clears one token's bit and no other |
| TokenMask.MaskIsPerToken | crates/mivi-model/src/grammar.rs:70-99 | The mask is the per-token mask if and only if all logits beyond the bitset are minus infinity |
| Bits.TrailingZeros | crates/mivi-model/src/grammar.rs:88-97 | The index of the lowest set bit |
| Bits.ClearLowest | crates/mivi-model/src/grammar.rs:88-97 | x & (x - 1) clears the lowest set bit and no other |
| ConstrainedDecoding.ComputeMask | crates/mivi-model/src/grammar.rs:503-517 | Allows exactly the vocabulary entries the automaton accepts |
| ConstrainedDecoding.AcceptableIffViable | crates/mivi-model/src/grammar.rs:503-517 | Which, for nonempty tokens in an open text, are exactly those that begin some complete JSON text together with the text so far |
| LogitFilters.ApplyPenalties | crates/mivi-model/src/sampler.rs:222-261 | Each recent token's logit gets its penalties once, by its number of occurrences |
| LogitLaws.PenalizedIs | crates/mivi-model/src/sampler.rs:222-261 | The repetition penalty divides a positive logit and multiplies the others; presence is subtracted once, frequency for every occurrence |
| LogitLaws.CountIs | crates/mivi-model/src/sampler.rs:222-261 | An occurrence count is the token's multiplicity |
| LogitLaws.PenaltyLowers | crates/mivi-model/src/sampler.rs:222-261 | No penalty at or above its neutral value raises a logit |
| LogitFilters.Argmax | crates/mivi-model/src/sampler.rs:305-315 | The first greatest finite logit; 0 when there is none |
| LogitFilters.ApplyMinP | crates/mivi-model/src/sampler.rs:263-280 | Keeps exactly the logits at or above the maximum plus ln p |
| LogitLaws.MinPKeeps | crates/mivi-model/src/sampler.rs:263-280 | A logit stays exactly when no finite one exceeds it by more than -ln p |
| LogitFilters.ApplyTopK | crates/mivi-model/src/sampler.rs:290-303 | Keeps exactly the logits not below the k-th greatest |
| LogitFilters.Softmax | crates/mivi-core/src/math.rs:32-72 | Each weight over the sum of the weights, or uniform when no logit is finite; a distribution for every slice but the empty one, positive exactly where the logit was finite unless none was |
| LogitLaws.SoftmaxIs | crates/mivi-core/src/math.rs:32-72 | A probability times the sum of all exponentials is the logit's own exponential: the shift by the maximum cancels |
| LogitLaws.ScaledIs | crates/mivi-model/src/sampler.rs:282-288 | Scaling divides by the temperature and keeps minus infinity |
| Nucleus.SampleTopP | crates/mivi-model/src/sampler.rs:150-218 | Returns a token of positive probability that lies in a nucleus: a smallest nonempty descending beginning with mass at least top_p, for every top_p below 1; of the nucleus it is the first entry whose cumulated probability reaches the draw times the mass; 0 for no tokens |
| Nucleus.SampleCategorical | crates/mivi-model/src/sampler.rs:138-148 | Returns the token in whose share of [0, 1] the draw falls; its probability is positive if and only if the draw is not 0 or the first token's is |
| Nucleus.ZeroDraw | crates/mivi-model/src/sampler.rs:138-148 | With probabilities 0 and 1, a draw of 0 can only give the first token |
| Nucleus.FilteredMass | crates/mivi-model/src/sampler.rs:150-165 | The cutoff (1 - top_p) / (n - 1) drops at most 1 - top_p of the mass |
| Nucleus.NothingPasses | crates/mivi-model/src/sampler.rs:167-170 | When nothing passes the cutoff, the greatest token alone is exactly the nucleus |
| Nucleus.GrowWindow | crates/mivi-model/src/sampler.rs:172-195 | Quickselect and doubling end, with a sorted beginning of a permutation that holds mass top_p or is everything |
| Nucleus.WindowNucleus | crates/mivi-model/src/sampler.rs:172-218 | The shortest beginning of that window with mass top_p is a nucleus of the whole distribution |
| Nucleus.NucleusUnique | crates/mivi-model/src/sampler.rs:150-218 | Two nuclei agree up to ties: same length, same probabilities in order |
| Sampler.Sample | crates/mivi-model/src/sampler.rs:92-136 | At temperature 0 the first greatest penalised logit; otherwise the slice becomes the softmax of the penalised, scaled logits that reach min-p's floor and then top-k's, and the token is drawn from its nucleus, or from everything when top_p is 1 or more; with some finite logit the token had one, unless that last draw was 0: then it is token 0 |
| Sampler.PenaltiesAlways | crates/mivi-model/src/sampler.rs:222-261 | Skipping penalties that are off changes nothing |
| Sampler.SampleWithMask | crates/mivi-model/src/sampler.rs:79-90 | If some finite logit is left by the mask, the token is one of those if and only if temperature <= 0, top_p < 1, the draw is not 0, or token 0 is one |
| StopStream.MatchesAnyStopSuffix | crates/mivi-model/src/model.rs:1410-1417 | The length of the first listed stop sequence the text ends with |
| StopStream.LongestStopPrefixLen | crates/mivi-model/src/model.rs:1360-1376 | The longest proper beginning of some stop sequence the text ends with: no longer one exists |
| StopStream.WindowHeld | crates/mivi-model/src/model.rs:1209-1224 | What the window holds back is what the whole output must hold back, and fits the window |
| StopStream.WindowStop | crates/mivi-model/src/model.rs:1189-1207 | The window ends with a stop sequence if and only if the whole output does, and with the same one |
| StopStream.Step | crates/mivi-model/src/model.rs:1189-1225 | One chunk: delivered plus pending is the output and pending exactly what must be held, or the output ends with a stop and is delivered without it |
| StopStream.Stream | crates/mivi-model/src/model.rs:1130-1255 | The whole loop and flush, for any stops, chunks and receiver: no earlier step ended with a stop, and what is delivered is the output without the stop that ends it, plus the decoder's leftovers |
| OnlineSoftmax.OneScore | crates/mivi-model/src/transformer.rs:128-167 | One score, greater or not than the running maximum, keeps: running sum and accumulator are those of the scores seen, relative to the maximum |
| OnlineSoftmax.AttendHead | crates/mivi-model/src/transformer.rs:116-167 | For any scores in any order, the single pass gives the two-pass softmax mixture of positions 0..pos, or zero when no score is finite, with exp given by its laws only |
| OnlineSoftmax.Attend | crates/mivi-model/src/transformer.rs:114-298 | All query heads, head h with key and value head h / group (Dafny's division), each in its own slice of the output |
| OnlineSoftmax.AttendIs | crates/mivi-model/src/transformer.rs:114-167 | In plain sums: every output cell times the sum of exp(score) is the sum of exp(score) times value, over positions 0..pos, with score the scaled dot product of query head h with row h / group of the keys |
| OnlineSoftmax.Normalized | reference/reference_engine.py:146-166 | Accumulator over sum is the two-pass form: each value times its softmax probability |
| ShortConv.ConvToken | crates/mivi-model/src/ssm.rs:81-140 | With at least one tap and cells that remember the last inputs, each output is gate times the causal convolution of the whole history, and the cells remember one more; the three-tap path agrees |
| ShortConv.ConvTile | crates/mivi-model/src/ssm.rs:258-305 | A tile yields row by row what its tokens yield one at a time, and leaves the same cells |
| ShortConv.ZeroRemembers | crates/mivi-model/src/ssm.rs:81-140 | Reset cells remember the empty history, so the first convolution sees zeros before its input |
| ShortConv.SsmForward | crates/mivi-model/src/ssm.rs:51-167 | One token through the layer: the finished, gated convolution of all inputs so far; without taps the activation passes and no cell changes |
| ShortConv.OutputIs | crates/mivi-model/src/ssm.rs:51-167 | In plain sums: from reset cells the output is finished from C times the weighted sum of the last products B times X, channel by channel, with B, C and X the three thirds of the projection |
| ShortConv.SsmForwardTile | crates/mivi-model/src/ssm.rs:184-387 | Refuses a bad row count, then adapters, changing nothing; otherwise all rows projected, convolved in order and finished are the outputs of the tokens one at a time, with the same cells |
| GgufReader.Open | crates/mivi-model/src/gguf.rs:106-197 | The cursor loops compute the pure parse, errors included |
| GgufLanguage.OpensIff | crates/mivi-model/src/gguf.rs:106-197 | The reader opens exactly the byte sequences that begin with GGUF, version 2 or 3, at most 50,000 tensors and 100,000 entries, then well-formed entries and tensor descriptions, and reports exactly what these say, later keys and names replacing earlier ones: if and only if |
| GgufLanguage.HeaderRefused | crates/mivi-model/src/gguf.rs:106-140 | Which error a short file, another magic number and another version give |
| GgufLanguage.ValueReadIff | crates/mivi-model/src/gguf.rs:275-310 | A value is read, up to a position, exactly where the bytes of one of its type stand up to there |
| GgufLanguage.TensorDataIff | crates/mivi-model/src/gguf.rs:199-255 | A tensor's data is d exactly if the tensor is described, its length is defined and that of d, and d stands at the data offset plus its own |
| GgufBytes.AlignUpIs | crates/mivi-model/src/gguf.rs:182-188 | For a power of two the data starts at the next multiple of the alignment |
| GgufBytes.ElementsAre | crates/mivi-model/src/gguf.rs:199-255 | A tensor has the product of its dimensions as elements; refused exactly when a partial product leaves 64 bits |
| GgufBytes.LengthIs | crates/mivi-model/src/gguf.rs:199-255 | Its bytes are those of the fewest whole blocks that hold them |
| GgufBytes.Utf8Is | crates/mivi-model/src/gguf.rs:257-268 | The strings accepted are exactly the encodings of sequences of Unicode characters |
| GgufBytes.ItemRead | crates/mivi-model/src/gguf.rs:275-310 | A value of any of the thirteen types, lists of lists included, written with its width lowest byte first, is read back |
| GgufBytes.FlagRead | crates/mivi-model/src/gguf.rs:275-310 | Any byte but zero is true |
| GgufBytes.UnknownCodes | crates/mivi-model/src/gguf.rs:275-310 | Type codes above 12 are refused by number |
| GgufWriter.GgufWriter.Write | training/export/convert_to_gguf.py:78-130 | The sequential writes with the running offset are the pure layout |
| GgufBytes.FileBegins | training/export/convert_to_gguf.py:78-130 | A file begins with GGUF, version 3 and the two counts in eight bytes each |
| GgufWriter.GgufWriter.AddStringArray | training/export/convert_to_gguf.py:62-68 | The entry's bytes: element type, count, then the strings |
| GgufRoundTrip.FileOpens | crates/mivi-model/src/gguf.rs:106-197 | For all content within the reader's limits, opening the written bytes succeeds with the written metadata and tensor descriptions |
| GgufRoundTrip.MetadataHas | crates/mivi-model/src/gguf.rs:144-150 | With distinct keys every entry is found with its value |
| GgufRoundTrip.MetadataOnly | crates/mivi-model/src/gguf.rs:144-150 | And nothing else is found |
| GgufRoundTrip.InfosHas | crates/mivi-model/src/gguf.rs:152-180 | With distinct names every tensor is found with its dimensions, type and offset |
| GgufRoundTrip.InfosOnly | crates/mivi-model/src/gguf.rs:152-180 | And no other tensor is found |
| GgufRoundTrip.ContentRead | crates/mivi-model/src/gguf.rs:257-310 | Each of the five kinds of entry reads back as the value written |
| GgufRoundTrip.TensorRecovered | crates/mivi-model/src/gguf.rs:199-255 | Looking a tensor up returns exactly its bytes, when names are distinct and both sides start the data section at the same place |
| GgufRoundTrip.DefaultAlignment | training/export/convert_to_gguf.py:94-130 | Which they do when no 32-bit alignment is declared, or 32 |
| GgufRoundTrip.AlignmentDecides | crates/mivi-model/src/gguf.rs:182-255 | For tensors not all empty: every data is recovered if and only if the declared alignment rounds the front as 32 does |
| GgufRoundTrip.Alignment64 | crates/mivi-model/src/gguf.rs:182-188 | A case where it does not |
| GgufRoundTrip.RangesAlignedAndDisjoint | training/export/convert_to_gguf.py:94-130 | Tensor ranges start at multiples of 32 and do not overlap |
| GgufRoundTrip.OffsetsApart | training/export/convert_to_gguf.py:94-117 | An earlier tensor's data ends before a later one's recorded offset |
| QuantMatmul.QuantizedMatmulRows | crates/mivi-quant/src/lib.rs:143-251 | For every batch size, row count, odd tail, thread count and order of chunks: the outcome of every call, the product with the decoded matrix in every cell, and nothing written beyond batch * rows |
| QuantMatmul.SucceedsIff | crates/mivi-quant/src/types.rs:183-236 | For operands of addressable length a call succeeds exactly when the columns are whole blocks, a row of weights can be addressed, and output, inputs and weights hold batch * rows, batch * cols and rows * row_bytes |
| QuantMatmul.ComputeBatchedRows | crates/mivi-quant/src/lib.rs:254-342 | A chunk of rows: all its rows done in each of the three modes, other rows untouched |
| QuantMatmul.ComputeChunks | crates/mivi-quant/src/lib.rs:206-231 | Chunks in any order fill every row |
| QuantMatmul.ChunkOf | crates/mivi-quant/src/lib.rs:208-214 | Every row lies in one of the chunks |
| QuantMatmul.TransposeInto | crates/mivi-quant/src/lib.rs:193-199 | The transposing loops move every cell and write nothing beyond |
| QuantMatmul.ColumnsAreCells | crates/mivi-core/src/simd/mod.rs:87-129 | Accumulating over transposed columns gives a row of the product |
| QuantMatmul.QuantizedMatvec | crates/mivi-quant/src/types.rs:240-269 | The fused kernels, in chunks of 128 in any order or in sequence, give the product row by row and write nothing beyond |
| QuantMatmul.BatchIsSingles | crates/mivi-quant/src/lib.rs:136-251 | A batch gives every input what it would get alone |
| QuantBlocks.UnpackPacked | crates/mivi-quant/src/q4_k_m.rs:12-22 | The six-bit scales and minimums unpack to what the layout packed |
| QuantBlocks.PackUnpacked | crates/mivi-quant/src/q4_k_m.rs:12-22 | And packing the unpacked gives the twelve bytes back |
| QuantBlocks.Decode4 | crates/mivi-quant/src/q4_k_m.rs:26-58 | Writes the 256 values of a Q4_K block, low and high nibbles in one loop, and nothing else |
| QuantValues.Value4At | crates/mivi-quant/src/q4_k_m.rs:26-58 | Each value from the block's bytes: its nibble times scale and d, minus minimum and dmin |
| QuantBlocks.Decode6 | crates/mivi-quant/src/q6_k.rs:10-38 | Writes the 256 values of a Q6_K block and nothing else |
| QuantValues.Value6At | crates/mivi-quant/src/q6_k.rs:10-38 | Each value from the block's bytes: its six bits less 32, times the scale of its 16 values and d |
| QuantValues.HalvesAt | crates/mivi-quant/src/q6_k.rs:10-38 | The two halves of a block stand one after the other |
| QuantBlocks.DequantizeSlice | crates/mivi-quant/src/lib.rs:35-72 | The values of the blocks decoded, for all six types, at the front of the output and nothing behind them; refuses exactly the other types and, for F32, an output too short |
| QuantValues.Value8At | crates/mivi-quant/src/q8_0.rs:13-23 | A Q8_0 value is a signed byte times the block's scale |
| QuantValues.KnownHalves | crates/mivi-quant/src/f16.rs:9-32 | Half-precision patterns for 1, -2, 65504 and 2^-24 |
| QuantValues.KnownSingles | crates/mivi-quant/src/lib.rs:35-72 | Single-precision patterns for 1, its successor, 42 and -1/2; bfloat16 is the upper half |
| QuantValues.BlockBytes | crates/mivi-quant/src/types.rs:90-135 | The size of each block type as the sum of its fields |
| FusedDot.GroupTerm | crates/mivi-quant/src/q4_k_m.rs:112-133 | Four running sums, combined once, are the dot product with the decoded group |
| FusedDot.AffineDot | crates/mivi-quant/src/q4_k_m.rs:112-133 | Scale and minimum may be applied after summing, for any length |
| FusedDot.HalfSum | crates/mivi-quant/src/q6_k.rs:84-109 | The unscaled four-way sum, scaled once, is the dot product with the decoded half |
| FusedDot.FusedRow | crates/mivi-quant/src/q4_k_m.rs:89-139 | The fused row kernel of each type is the dot product with the decoded row |
| FusedDot.UnalignedRow | crates/mivi-quant/src/lib.rs:105-129 | The chunked fallback for unaligned single-precision weights is too |

## Left out

- Rounding, NaN and infinities in f32 and f16 arithmetic, and the AVX2 and NEON kernels: the numbers are reals, logits have an added minus infinity, and the SIMD helpers are given by their scalar form; an f16 or f32 pattern for infinity or NaN gets the value of the formula for finite numbers.
- exp and ln are parameters with their algebraic laws; the scales c (c * c * n == 1), sigma and the norm are values with their defining equations.
- The packed-precision arms of `compute_gqa_attention`: they rotate the query per head while keys are rotated at the full width (transformer.rs:220-228, cache.rs:188), so the table identity does not apply there.
- KvCache.KvCache.Store: the row encoder of the precision is a parameter; the quantiser itself is `TurboQuant`.
- WarmIsCold.WarmAnswer: a position-0 call in a context that was not reset is no event of a history, because it may put a wrong snapshot into the cache; `Prefill.Session.Prompt` says under which condition it is right.
- CacheGrowth.NodeCharge: the cache charges four bytes for each cell in every precision; the source counts the carrier floats of packed rows, four bytes for four cells, so there it has room for more.
- The random draws are parameters; xorshift64* is not modelled.
- The suppression of end tokens on the first step, and the trimming of the returned text after the stream has ended.
- Layers are abstract causal functions with a prepared input, a state step and an output: rope, projections, normalisation and feed-forward are not spelled out; embedding failures and invalid tokens are not modelled.
- Freedom from hash collisions is a hypothesis on the chains of the prompts in use; the code never compares tokens on lookup.
- LoRA adapters: a fixed, empty set; the prefix key does not include them.
- `find_longest_suffix_match`, semantic anchors and the `.kvc` disk format.
- `ToolCallGrammar` and schema compaction.
- Tokenizer and UTF-8 decoder: decoded chunks are arbitrary strings, the decoder's leftovers a parameter.
- File access and memory mapping: the reader works on bytes; strings in files are byte sequences checked as UTF-8.
- The Python packing errors of numbers that do not fit: the writer's number methods require that they fit.
- GgufReader.Open: a declared alignment of zero, which underflows in the source, is given offset zero.
- Rayon: chunks run one at a time, in any order; the memory model of threads is not modelled.
- HTTP server, authentication, command line, engine actors, agent loop, prompt-lookup drafting, training and evaluation scripts, memory and context stores.
