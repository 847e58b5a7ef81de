# VGI worker engines: a verified model

The repository is a TypeScript SDK for VGI workers, processes that serve table
functions, aggregates and catalogs to DuckDB. This project models the stateful
engines among them in Dafny and proves what each promises over every input and
every run:

- **Split scans** (`SplitPlan`, `SplitScan`). A planner cuts `[0, n)` into ranges,
  mints one opaque token per range, and may hand the plan out in pages. Any number of
  readers claim tokens in any grouping and order, and emit one batch per call from a
  resumable cursor.
- **Shared work queue** (`WorkQueue`). Workers pop chunks from one first-in first-out
  queue and tag every batch with its chunk's id; a replay sorts by tag.
- **Tensors** (`NestTensor`, `NestTensorGroups`, `UnnestTensor`). An aggregate builds a
  dense N-D array per group from rows over any mixture of updates and combines; two
  independent functions take it apart again.
- **Filter deltas over HTTP** (`FilterHistory`, `FilterStream`, `FilterGuarantees`,
  `FilterHistoryCounterexample`, `HistoryToken`, `Utf8`). A stateless stream carries a
  compacted list of the delta documents it received inside its state token and replays
  it on every turn, instead of keeping the filters in memory. Predicate ids are
  UTF-16 text and cross the token as UTF-8.
- **Filter bounds** (`FilterBounds`, `FilterText`). A filter tree is rendered as one
  inclusive interval per column, and these as text.
- **Accumulator** (`Accumulator`, `AccumulatorRuns`). Named collections, stored as one byte string of
  time-stamped segments each, evicted by age and by row count.
- **Continued output** (`PagedOutput`). One input is answered by several replies,
  resumed from a small saved position.
- **Revalidated catalog** (`Catalog`, `CatalogGuarantees`, `CatalogObjects`,
  `CatalogServing`). Per-attachment DDL behind a generation etag: a state machine, what
  its callers may rely on, the maps and view objects changed in place that refine it,
  and the checks its contents must pass to be served.
- **Buffered operators** (`Buffering`), **string aggregation** (`ListAgg`) and
  **decimal addition** (`DecimalAdd`).

`Seqs`, `Bytes` and `Numerals` hold the shared sequence facts (flattening, stable sort),
the little-endian integer codecs and the decimal numerals.

Code that updates state in place is modelled as classes and loops whose contracts tie
them to specification functions; the run-level properties are lemmas about those
functions. What a function computes is said once more of the inputs alone, without
naming it: `Depicts` for tensors, `Says` for the rendered bounds, `RunsApart` and
`RefusedIff` for the accumulator, `Achieves` for DDL, `HttpKeepsRequired` for deltas.
Interleavings are schedules: sequences of steps, each naming the reader or worker that
moves.

## Where the code keeps less than it promises

- `split_skewed` with one split drops about 1% of the rows (`SkewedCoversIff`).
- `split_batch_index` hands out colliding batch indices once `n > 64000 * splits`, for
  two or more splits (`CollisionIff`). One connection's indices ascend only if there are
  a thousand indices per ordinal between any two splits it claims (`StreamAscendsIff`).
- A filter update that is stale on arrival is not parsed. When compaction later drops
  the delta that made it stale, replay parses it and can fail, although the comments
  say every carried delta was validated. It fails for an expression that does not
  parse, and also for well-formed updates that together exceed the 10000 nodes one
  document may have (`StaleMalformedUpdateFailsReplay`, `StaleHeavyUpdateFailsReplay`;
  `StaleUpdateBreaksReplay` is the family, `ReplayRebuilds` the exact condition).
- The history token brings a predicate id back if and only if it holds no lone
  surrogate and does not start with U+FEFF (`HistoryRoundTrip`): the encoder replaces
  the one, the decoder drops the other. A live id that does not survive fails the next
  turn and every later one, although each document was accepted
  (`LossyIdEndsTheStream`; `MarkedIdFailsNextTurn` is one upsert of U+FEFF `a`).
  `HttpIff` says exactly when an HTTP stream gets through its turns.
- The bounds rendering ignores `negated` on IN, so NOT IN renders an interval its own
  rows lie outside (`InSoundIff`). An OR is rendered soundly only if no branch notes a
  bound on a side, or every branch guards it (`OrSoundIff`); `TreesSoundIff` has the
  condition for any nesting of tests that can hold together.
- `vgi_listagg` depends on the partitioning exactly when some partition puts an empty
  string behind text (`PartitionsAgreeIff`).
- Decimal addition at the 38-digit cap can exceed its declared precision;
  `NeverOverflowsIff` says for which pairs of types.
- `DROP SCHEMA` leaves child schemas behind, after which the contents have a schema
  without its parent and are refused (`CascadeOrphans`).
- The catalogs look schemas up by their path joined with NULs; the server compares paths
  by component. A schema named `a` NUL `b` therefore passes for the parent of `a.b.c`,
  and the contents are refused (`NulPassesForParent`). `ServableIff` is the exact
  condition for every call; without NULs only the drop is left (`PlainServableIff`).

## Model

| member | source | states |
|---|---|---|
| `SplitPlan.EvenRanges` | examples/splits.ts:107-120 | the accumulating loop produces the division `Even`, for every `n` and `k` including non-positive ones |
| `SplitPlan.EvenCovers` | examples/splits.ts:107-120 | `k` ordered, disjoint ranges cover `[0, n)` exactly (iff `k > 0` or nothing to cover), with sizes that differ by at most one, larger ones first |
| `SplitPlan.WithEmptiesCovers` | examples/splits.ts:340-345 | interleaving empty ranges keeps any exact cover exact |
| `SplitPlan.WithEmptiesAlternates` | examples/splits.ts:340-345 | every other range is empty, the ones between are the given ones in order |
| `SplitPlan.SkewedCoversIff` | examples/splits.ts:351-365 | the skewed plan covers `[0, n)` if and only if `n <= 0` or `splits >= 2` |
| `SplitPlan.SkewedSizes` | examples/splits.ts:351-365 | the first of the skewed ranges has 99% of the rows, rounded down, and the others share the rest with sizes that differ by at most one |
| `SplitPlan.ManyCovers` | examples/splits.ts:370-374 | the many-splits plan covers `[0, n)` whatever split count is asked for, with a thousand splits when none is |
| `SplitPlan.DecodeMint` | examples/splits.ts:69-104 | a token decodes to exactly the range (and ordinal) it was minted for |
| `SplitPlan.PlanTokenNames` | examples/splits.ts:226-240 | token `i` of a plan decodes to range `i`, and to ordinal `i` where ordinals are carried |
| `SplitPlan.FollowCursor` | examples/splits.ts:274-299 | following the plan cursor to exhaustion gives the unpaged plan, ordinals included, in exactly `max(1, ceil(k / perPage))` pages |
| `SplitPlan.PageCursor` | examples/splits.ts:278-299 | page `p` is window `p` of the unpaged plan and ends the plan exactly when the windows reach its end |
| `SplitPlan.FirstPage` | examples/splits.ts:278-299 | without a cursor, or with one that is not eight bytes long, the plan starts over |
| `SplitScan.StepEmitsNext` | examples/splits.ts:181-223 | a call emits the next owed batch, non-empty and within the size limit, and ends the stream if and only if nothing is owed: empty ranges never end it early |
| `SplitScan.SplitReader.EmitNext` | examples/splits.ts:181-223 | the in-place loop over `idx`, `cur`, `emittedInSplit` refines that step; only a stream's first batch advertises a cache lifetime |
| `SplitScan.ChopSizes` | examples/splits.ts:181-223 | a split is emitted in batches of exactly the size limit, only the last may be shorter; batch `i` has index `ordinal * stride + i` |
| `SplitScan.SeedOwesClaims` | examples/splits.ts:131-162 | a fresh reader owes exactly the batches of the tokens it claimed, in claim order |
| `SplitScan.SeedIff` | examples/splits.ts:69-162 | a reader starts if and only if a list of tokens was given at all and each token has 16 bytes, or 24 with ordinals |
| `SplitScan.PlanTokensSeed` | examples/splits.ts:131-162 | seeding from any group of tokens of a plan succeeds |
| `SplitScan.PlanBatchRows` | examples/splits.ts:226-240 | redeeming a whole plan in order reads its rows in order, each once |
| `SplitScan.InitKeepsInv` | examples/splits.ts:131-162 | claiming a group keeps: per reader, emitted followed by owed batches are those of its claims; no token is lost or shared |
| `SplitScan.ProcessKeepsInv` | examples/splits.ts:181-223 | a process call keeps the same invariant |
| `SplitScan.RunKeepsInv` | examples/splits.ts:131-223 | every schedule of claims and calls keeps it |
| `SplitScan.RowsArePartitioned` | examples/splits.ts:107-223 | at every moment of every schedule, emitted rows, owed rows and rows of unclaimed tokens partition `[0, n)` |
| `SplitScan.BatchesConserved` | examples/splits.ts:181-223 | batches are conserved too, boundaries and indices included |
| `SplitScan.CompleteBatches` | examples/splits.ts:131-223 | a complete scan emitted each batch of the plan exactly once |
| `SplitScan.CompleteScanReadsAll` | examples/splits.ts:107-223 | when every token is claimed and every reader has finished, the emitted rows are `0 .. n-1` once each |
| `SplitScan.ReaderFinishes` | examples/splits.ts:181-223 | a reader reaches end of stream within one call more than it owes batches, disturbing no other |
| `SplitScan.EveryScanCanComplete` | examples/splits.ts:131-223 | no schedule gets stuck: any scan in progress with at least one reader can be extended to a complete one |
| `SplitScan.AscendingClaimsIff` | examples/splits.ts:193-220 | tokens claimed in ascending order give strictly ascending batch indices if and only if, for any two of them, the earlier has at most 64000 rows per ordinal between them or the later has none |
| `SplitScan.StreamAscendsIff` | examples/splits.ts:434-439 | for every `n` and `splits`, at every moment of every schedule: a reader with ascending claims emits ascending indices if its claims leave that room, and, once it has finished, only if they do |
| `SplitScan.StreamIndicesAscend` | examples/splits.ts:434-439 | for `n <= 64000 * splits`, a reader with ascending claims emits strictly ascending indices at every moment of every schedule |
| `SplitScan.IndexOrderIsRowOrder` | examples/splits.ts:311-316 | within that bound, sorting a complete scan's batches by index gives distinct indices and rows `0 .. n-1` in order |
| `SplitScan.PlanCollisionIff` | examples/splits.ts:434-439 | for every `n` and `splits`, two different batches of the plan share an index if and only if `splits >= 2` and `n > 64000 * splits` |
| `SplitScan.CollisionIff` | examples/splits.ts:434-439 | the same condition decides collisions in the output of every complete scan |
| `WorkQueue.OnInit` | examples/cache.ts:719-730 | the queued chunks and the reader limit `max(1, chunks)` |
| `WorkQueue.ChunkFacts` | examples/table_partition.ts:102-113 | chunk `i` has id `i`, none is empty, and their number is the ceiling of rows over chunk size |
| `WorkQueue.ChunkSizes` | examples/table_partition.ts:102-113 | chunk `i` is the `i`-th run of `size` rows; only the last may be shorter |
| `WorkQueue.AtMostTwentyFour` | examples/cache.ts:644-648 | `cache_parallel` never queues more than 24 chunks |
| `WorkQueue.SharedQueue.Pop` | src/functions/storage.ts:377-389 | popping removes and returns the oldest item, or reports an empty queue |
| `WorkQueue.QueueWorker.ProcessCall` | examples/cache.ts:732-753 | the in-place worker refines one step: continue the current chunk, else pop, else end of stream; only its first batch advertises a cache lifetime |
| `WorkQueue.PieceSizes` | examples/cache.ts:732-753 | a chunk is emitted in batches of exactly `size` rows; only its last may be shorter |
| `WorkQueue.CallKeepsInv` | examples/table_partition.ts:116-135 | a call keeps: the queue is a suffix of the work; each worker's output plus what its chunk still owes is what it popped, in ascending id order |
| `WorkQueue.RunKeepsInv` | examples/cache.ts:732-753 | every interleaving of any number of workers keeps it |
| `WorkQueue.StreamTagsNeverDecrease` | examples/cache.ts:732-753 | at every moment of every interleaving, each worker's batch indices never decrease |
| `WorkQueue.SortRestoresQueueOrder` | examples/cache.ts:686-690 | stably sorting the batches of the chunks in any order restores the batches in queue order |
| `WorkQueue.ReplayRestoresOrder` | examples/cache.ts:719-753 | stably sorting a complete run's concatenated substreams by batch index gives the rows `0 .. rows-1` in order |
| `WorkQueue.RowsReadOnce` | examples/cache.ts:644-672 | without tags, a complete run still reads each row exactly once |
| `WorkQueue.EveryScanCanComplete` | examples/cache.ts:732-753 | no interleaving gets stuck: any scan in progress with at least one worker can be extended to a complete one |
| `WorkQueue.WorkerFinishes` | examples/cache.ts:732-753 | one worker, called often enough, empties the queue and its own chunk without touching the others |
| `NestTensor.Update` | examples/aggregate.ts:639-688 | a batch is accepted if and only if no input has a null coordinate and no two have the same coordinates; then its rows, appended, list the inputs in order, coordinate by coordinate, null structs left out |
| `NestTensor.Accumulate` | examples/aggregate.ts:639-692 | any tree of updates and combines collects rows that list its inputs in target-before-source order |
| `NestTensor.CleanInputsAccepted` | examples/aggregate.ts:639-692 | inputs without null or repeated coordinates are accepted under every batching and combine tree |
| `NestTensor.DistinctSorted` | examples/aggregate.ts:715-730 | an axis is the strictly ascending sequence of exactly the values that occur |
| `NestTensor.AxisIsAxis` | examples/aggregate.ts:715-730 | the insertion-ordered deduplication followed by sorting is that axis |
| `NestTensor.PutFill` | examples/aggregate.ts:741-767 | writing one cell of the nested lists changes the represented function at exactly that cell's coordinates |
| `NestTensor.Finalize` | examples/aggregate.ts:693-777 | succeeds if and only if coordinates are distinct and the cell product is within the cap; then every cell holds its row's value or null |
| `NestTensor.ReferenceDepicts` | examples/aggregate.ts:693-777 | said of the inputs alone: axis `a` is the strictly ascending sequence of the numbers some input has there, each value stands in the cell whose index on axis `a` is where its coordinate stands, every cell nobody names is null |
| `NestTensor.DepictedOnce` | examples/aggregate.ts:693-777 | no other tensor and axes meet that description |
| `NestTensor.EmptyGroup` | examples/aggregate.ts:707-713 | a group without rows denotes the empty tensor of the right depth with empty axes |
| `NestTensor.Aggregate` | examples/aggregate.ts:639-777 | over every batching and combine tree, succeeds if and only if no coordinate is null, no two inputs have the same coordinates and the product of the axes is within the cap, with the tensor `Depicts` describes |
| `NestTensor.ReferenceDependsOnSet` | examples/aggregate.ts:693-777 | tensor, axes and cell count depend only on the set of (coordinates, value) rows |
| `NestTensorGroups.UpdateGroups` | examples/aggregate.ts:639-688 | a batch of interleaved groups is accepted if and only if each group's inputs are clean, and then extends each group by rows that list its own inputs |
| `NestTensorGroups.CombineGroups` | src/protocol/handlers/aggregate.ts:204-215 | merging a group into another appends its rows and leaves all other groups alone; two absent groups stay absent |
| `NestTensorGroups.RunSteps` | examples/aggregate.ts:639-692 | over any sequence of calls, accepted if and only if every batch is clean group by group, each group's state lists the inputs of its own updates and merges |
| `NestTensorGroups.AggregateGroups` | examples/aggregate.ts:639-777 | the call succeeds if and only if every batch is clean and every requested group is free of repeats and within the cap; each group then gets the tensor `Depicts` describes for its own inputs |
| `NestTensorGroups.OthersLeaveNoTrace` | examples/aggregate.ts:639-692 | a batch without rows of a group leaves that group's rows as they were |
| `UnnestTensor.CartesianProduct` | examples/scalar.ts:1423-1439 | the recursion over a pushed and popped accumulator enumerates the index tuples in lexicographic order |
| `UnnestTensor.IndexTuplesAscend` | examples/scalar.ts:1423-1439 | the index tuples come in lexicographic order: the last axis runs fastest |
| `UnnestTensor.EnumerateIsWalk` | examples/table_in_out.ts:441-457 | on every tensor whose nesting matches its axes, zero-length axes included, index enumeration and recursive walk give the same cells in the same order |
| `UnnestTensor.UnnestTensor` | examples/scalar.ts:1490-1536 | a null stays null; otherwise one cell per index tuple within the axes, in the order of nested loops, with the coordinates at that index and the value found there, null where a ragged tensor has none |
| `UnnestTensor.UnnestInvertsNest` | examples/scalar.ts:1515-1536 | unnesting a nested group gives one cell per tuple of the axes' product, in order, with the row's value or null |
| `UnnestTensor.TupleMember` | examples/scalar.ts:1423-1439 | the enumerated tuples are exactly those that take each coordinate from its axis |
| `UnnestTensor.TuplesDistinct` | examples/scalar.ts:1423-1439 | no tuple is enumerated twice |
| `UnnestTensor.RoundTrip` | examples/aggregate.ts:705-773 | as many cells as the shape's product, coordinates never repeated, every row returned once with its value, every other cell null |
| `UnnestTensor.InputsComeBack` | examples/scalar.ts:1499-1537 | of the tensor of some inputs, unnesting gives every input back with its own value, and null for every other combination of coordinates |
| `FilterHistory.ApplyDelta` | src/filter-pushdown/deserialize.ts:361-405 | a delta is accepted if and only if its ids are distinct, non-empty, of at most 128 bytes and none required, its upserts advisory, its non-stale expressions well-formed within 10000 nodes, and at most 4096 ids result; what is known of required ids stays as it was |
| `FilterHistory.ParseUpdates` | src/filter-pushdown/deserialize.ts:370-395 | a delta is refused exactly for an empty or overlong id, a repeated id, a required id, a non-advisory upsert, or non-stale updates of which one is malformed or which together exceed the node budget; otherwise the non-stale updates remain |
| `FilterHistory.ApplyTrack` | src/filter-pushdown/deserialize.ts:393-404 | a delta moves each id's revision and live predicate independently of all others, and only forward |
| `FilterHistory.RequiredUntouched` | src/filter-pushdown/deserialize.ts:384 | an accepted delta has no update of a required id, and changes neither predicate nor revision of one |
| `FilterHistory.ApplyOrder` | src/filter-pushdown/deserialize.ts:366-404 | predicates that stay keep their order; new ones come behind them, in the order of their updates |
| `FilterHistory.CompactKeepsId` | src/filter-pushdown/history.ts:112-149 | compaction preserves what every id's history folds to |
| `FilterHistory.CompactIsBounded` | src/filter-pushdown/history.ts:112-149 | at most one delta is kept per wanted revision |
| `FilterHistory.ReplayHistory` | src/filter-pushdown/history.ts:231-240 | replays the deltas through the parser, then restores the carried predicate order |
| `FilterHistory.ReplayAllIff` | src/filter-pushdown/history.ts:221-240 | replay succeeds if and only if, in every delta, the updates newer than all before them parse within one document's budget; it then folds every id |
| `FilterHistory.RecordKeepsInv` | src/filter-pushdown/history.ts:127-149 | recording keeps the history a stand-in for the filters |
| `FilterHistory.ReplayRebuilds` | src/filter-pushdown/history.ts:221-240 | replaying a reachable history rebuilds exactly the live filters, order and revisions included, if and only if the updates that wake parse |
| `FilterStream.RecordFilterDelta` | src/filter-pushdown/history.ts:127-149 | new filters and compacted documents, or the prior ones untouched when the document is no delta or its delta is refused |
| `FilterStream.CompactDeltas` | src/filter-pushdown/history.ts:136-147 | the loop that deletes wanted keys keeps exactly the first document carrying each |
| `FilterStream.RecordOpens` | src/filter-pushdown/history.ts:127-149 | recording a document does to the history what recording its updates does |
| `FilterStream.ServeTurn` | src/protocol/handlers/function.ts:411-455 | one turn as served, from the bytes of one token to the bytes of the next: decode, replay, take the delta, encode |
| `FilterStream.TokenFits` | src/filter-pushdown/history.ts:162-186 | counts and lengths of every reachable history fit their 32-bit fields, thanks to the limits on documents and ids |
| `FilterStream.CarriedOrder` | src/filter-pushdown/evaluate.ts:483-491 | the order that comes back from the token is accepted if and only if every id came back as it was: altered ids can never happen to be a permutation of the live ones |
| `FilterStream.RebuildIff` | src/protocol/state-serializer.ts:245-309 | after any turns, the filters can be rebuilt from the token if and only if no delta is kept, or no unparsable update wakes and every live id survives; they are then the in-memory filters |
| `FilterStream.HttpFollowsMemory` | src/filter-pushdown/history.ts:112-240 | as long as no turn fails, the token is that of the in-memory history, and the next turn fails exactly under that condition |
| `FilterStream.HttpIff` | src/filter-pushdown/history.ts:112-240 | an HTTP stream gets through a sequence of turns, with or without deltas, if and only if each of them could be resumed from what those before it left |
| `FilterGuarantees.MemoryKeepsRequired` | src/filter-pushdown/deserialize.ts:384 | over every sequence of ticks, predicate and revision of every required id stay those of the first snapshot |
| `FilterGuarantees.RebuiltKeepsRequired` | src/filter-pushdown/history.ts:221-240 | whatever a token holds, a turn that can start from it starts with the snapshot's required predicates |
| `FilterGuarantees.HttpKeepsRequired` | src/protocol/handlers/function.ts:411-455 | in every turn of every HTTP stream, before and after its document, the required predicates are the snapshot's |
| `FilterGuarantees.TargetingChangesNothing` | src/filter-pushdown/deserialize.ts:384 | a document with an update of a required id, stale or not, leaves filters, history and token as they were, at whatever point it comes |
| `FilterGuarantees.MemoryBringsInAdvisory` | src/filter-pushdown/deserialize.ts:385-392 | every live predicate is the snapshot's own or an advisory one |
| `FilterStream.WellFormedStreamsAgree` | src/filter-pushdown/history.ts:112-240 | for clients whose documents parse whole, within the node budget, and whose ids have no lone surrogate and no leading U+FEFF, stateless and in-memory streams agree after every sequence of turns, refused documents included |
| `FilterHistory.AwakeIsFresh` | src/filter-pushdown/deserialize.ts:393-394 | what is newer than the folded deltas is what the parser does not skip as stale |
| `FilterStream.HistoryIsBounded` | src/filter-pushdown/history.ts:112-149 | the carried history has at most one document per predicate id ever seen |
| `FilterHistoryCounterexample.StaleMalformedUpdateFailsReplay` | src/filter-pushdown/history.ts:221-240 | three accepted deltas whose compacted history cannot be replayed, for a stale expression that does not parse |
| `FilterHistoryCounterexample.StaleHeavyUpdateFailsReplay` | src/filter-pushdown/deserialize.ts:460-463 | three accepted deltas of well-formed updates whose compacted history exceeds the node budget on replay |
| `FilterHistoryCounterexample.StaleUpdateBreaksReplay` | src/filter-pushdown/history.ts:112-240 | for any two surviving ids and any revisions: all three documents are accepted, and the next turn fails if and only if the stale update and its neighbour do not parse together |
| `FilterHistoryCounterexample.LossyIdEndsTheStream` | src/filter-pushdown/history.ts:151-219 | after any turns, a live id that does not survive the token makes every continuation of the HTTP stream fail once a delta is carried |
| `FilterHistoryCounterexample.OneUpsertThenNextTurn` | src/filter-pushdown/deserialize.ts:407-411 | one well-formed upsert is accepted whatever its id; the turn after it works if and only if all live ids survive |
| `FilterHistoryCounterexample.MarkedIdFailsNextTurn` | src/filter-pushdown/history.ts:152-153 | for example with the id U+FEFF `a`, or half of a surrogate pair |
| `HistoryToken.EncodeFilterHistory` | src/filter-pushdown/history.ts:162-186 | the sized buffer, filled at an advancing offset, is the counted and length-prefixed layout; nothing when no delta was applied |
| `HistoryToken.DecodeFilterHistory` | src/filter-pushdown/history.ts:189-219 | the reading loops, each chunk checked before it is taken, refine the decoder |
| `HistoryToken.DecodeIff` | src/filter-pushdown/history.ts:189-219 | the decoder accepts exactly the empty token and the layouts of what it returns |
| `HistoryToken.EncodedDecodes` | src/filter-pushdown/history.ts:162-219 | an encoded history decodes to its own deltas and to its ids as the text codec leaves them |
| `HistoryToken.HistoryRoundTrip` | src/filter-pushdown/history.ts:162-219 | an encoded history decodes to itself if and only if none of its ids holds a lone surrogate or starts with U+FEFF |
| `HistoryToken.MarkedIdIsLost` | src/filter-pushdown/history.ts:152-153 | the history of the one id U+FEFF `a` comes back as that of `a` |
| `HistoryToken.TokensArePrefixFree` | src/filter-pushdown/history.ts:189-219 | no accepted token is a proper prefix of another: truncated tokens and trailing bytes are refused |
| `Utf8.DecodeEncode` | src/filter-pushdown/history.ts:152-153 | every UTF-16 text encodes to bytes the fatal decoder accepts; it comes back with lone surrogates replaced and without one leading byte order mark |
| `Utf8.CarriedIff` | src/filter-pushdown/history.ts:152-153 | a text comes back as it was if and only if it has no lone surrogate and no leading U+FEFF |
| `Utf8.DecodeIff` | src/filter-pushdown/history.ts:153 | the decoder accepts exactly the encodings of texts without lone surrogates, marked or not: no overlong form, no encoded surrogate, nothing above U+10FFFF |
| `Utf8.CarryingLoses` | src/filter-pushdown/history.ts:152-153 | what the codec alters gets shorter or loses its lone surrogates, so no sequence of round trips restores it |
| `FilterBounds.BoundsWalk.NoteBound` | examples/splits.ts:859-866 | absorbing a bound widens exactly the named side of the named column, entering a new column at the end of the map |
| `FilterBounds.BoundsWalk.Walk` | examples/splits.ts:870-912 | the recursive walk over and/or/comparison/in absorbs the noted bounds, and fails exactly on a null literal compared with a column |
| `FilterBounds.AbsorbedBound` | examples/splits.ts:859-866 | a side's bound is the widest of those noted for it, and absent if none was |
| `FilterBounds.BoundIsExtreme` | examples/splits.ts:876-908 | each bound is the least or the greatest value that passes some test of the tree, a negated IN taken for the plain one: rewriting exclusive comparisons loses nothing |
| `FilterBounds.GuardWitness` | src/filter-pushdown/evaluate.ts:332-370 | a true guarded filter, under three-valued evaluation, noted a bound that the row respects |
| `FilterBounds.GuardedBoundsAreSound` | examples/splits.ts:856-922 | wherever a filter guards a column's side, the rendering has a bound there and every passing row lies within it, for any nesting |
| `FilterBounds.InSoundIff` | examples/splits.ts:891-908 | the bound of an IN predicate is sound if and only if it is not negated, or its set has a null or no value |
| `FilterBounds.OrSoundIff` | examples/splits.ts:870-912 | for every OR of comparisons and IN tests on columns, the bound is sound if and only if no branch notes one on that side or every branch guards it |
| `FilterBounds.TreesSoundIff` | examples/splits.ts:856-922 | for any AND/OR nesting of such tests, those on other columns holding together in some row, the rendered bound is sound if and only if no test notes one on that side or some filter guards it |
| `FilterBounds.OneTestPerColumnSoundIff` | examples/splits.ts:856-922 | in particular for every nesting in which each other column has one test |
| `FilterBounds.UnguardedEscapes` | src/filter-pushdown/evaluate.ts:332-370 | whatever the bound, some row passes an unguarded test and lies outside it |
| `FilterBounds.UnguardedOrIsUnsound` | examples/splits.ts:872-875 | for example `a >= 5 OR b >= 3` |
| `FilterText.RenderDependsOnNotes` | examples/splits.ts:859-866 | bounds and rendered text depend only on which bounds were noted, not on the order in which columns entered the map |
| `FilterText.RenderingIsCanonical` | examples/splits.ts:856-922 | filters with the same leaf predicates render to the same text, however their children are permuted, regrouped or repeated |
| `FilterText.RenderFilters` | examples/splits.ts:856-922 | throws if and only if some test in the trees compares a column with null; otherwise the text says exactly what the bounds are |
| `FilterText.TextSays` | examples/splits.ts:913-921 | the text is the comma-joined list with one part for each side that has a bound, columns strictly ascending and lower before upper: `column>=t` or `column<=t`, where the numeral `t` reads back as the bound |
| `FilterText.OnlyText` | examples/splits.ts:838-854 | no other text says the same, so every conforming renderer produces it byte for byte |
| `FilterText.NoneIff` | examples/splits.ts:857-921 | the text is `(none)` if and only if no side of any column has a bound |
| `FilterText.BeforeMeans` | examples/splits.ts:915 | the column order is lexicographic by character |
| `Numerals.ReadIntText` | examples/splits.ts:917-918 | a strict reader (no leading zero, a sign only on negative numbers) reads every written numeral back |
| `Numerals.ReadIntUnique` | examples/splits.ts:917-918 | and reads no number from two numerals |
| `FilterText.SortNamesFacts` | examples/splits.ts:914-921 | the sorted columns are the noted ones, in strictly ascending order |
| `Accumulator.EncodeSegments` | examples/accumulate.ts:187-202 | the sized buffer filled at an advancing offset is the segments' encoding |
| `Accumulator.DecodeSegments` | examples/accumulate.ts:204-218 | reads segments until fewer than twelve bytes are left, truncating the last as a subarray does |
| `Accumulator.DecodeEncode` | examples/accumulate.ts:187-218 | decoding the encoding gives the segments back |
| `Accumulator.SliceRows` | examples/accumulate.ts:306-318 | a cut segment holds exactly the rows of the cut and is still a proper stored segment |
| `Accumulator.EvictTtlRows` | examples/accumulate.ts:325-328 | dropping old segments drops exactly the rows of that age |
| `Accumulator.EvictMaxRows` | examples/accumulate.ts:331-355 | the loop with `overflow` and `dropping` drops exactly the excess oldest rows |
| `Accumulator.DropRowsFacts` | examples/accumulate.ts:331-355 | dropping `k` rows leaves the rows from `k` on, in non-empty segments |
| `Accumulator.CombineSegments` | examples/accumulate.ts:456-463 | append, evict by age, evict by count |
| `Accumulator.CombineRefines` | examples/accumulate.ts:441-465 | on stored segments the combine step refines the flat list and never stores an empty segment |
| `Accumulator.ExecuteReply` | examples/accumulate.ts:467-475 | every accumulate, read and clear reply is the flat list's: all rows, the new rows, none, or the number cleared |
| `AccumulatorRuns.RunsApart` | examples/accumulate.ts:231-266 | in any run, the replies to the calls of one attachment and name are those of these calls run alone, whatever other attachments and names did; an empty attach id shares exactly the scope `default` |
| `AccumulatorRuns.PinnedSchema` | examples/accumulate.ts:412-433 | over any run, a collection has the schema of the accepted calls since it was last cleared, which all agree |
| `AccumulatorRuns.RefusedIff` | examples/accumulate.ts:412-527 | after any run, a call is refused if and only if its name is blank or over 255 bytes, its input has a `_timestamp` column or a schema other than the pinned one, or it reads what nothing has pinned |
| `AccumulatorRuns.ReadsWhatWasGiven` | examples/accumulate.ts:441-545 | a read gives back, in order and with their times, rows given since the last clear: all of them when no call asked for a limit |
| `AccumulatorRuns.LimitsMean` | examples/accumulate.ts:325-355 | a positive cutoff keeps exactly the rows not older than it, as far as the cap has room for them; a cap alone keeps exactly the newest rows; a cutoff that is not positive drops nothing |
| `AccumulatorRuns.IntervalMeans` | examples/accumulate.ts:149-177 | a month counts thirty days, a day 86400 seconds, and what is left of the nanoseconds is cut towards zero |
| `AccumulatorRuns.SinceAppend` | examples/accumulate.ts:325-328 | eviction by age decides row by row |
| `AccumulatorRuns.RepliesByMode` | examples/accumulate.ts:467-475 | an accepted call returns nothing, its new rows, or what a read would give next |
| `Accumulator.StoreRefinesFlatLists` | examples/accumulate.ts:187-476 | over every run of calls, every reply and every stored collection and schema is what the flat lists give |
| `Accumulator.Store.GetSegments` | examples/accumulate.ts:251-253 | a name's decoded segments, none when absent or cleared |
| `Accumulator.Store.PutSegments` | examples/accumulate.ts:255-257 | overwrites one name's bytes and nothing else |
| `Accumulator.Store.ClearName` | examples/accumulate.ts:259-265 | returns the number of rows dropped and leaves empty data and a schema tombstone |
| `Accumulator.Store.AccumulateCall` | examples/accumulate.ts:412-476 | bind and combine in place: name checked, schema pinned or refused, interval read as microseconds, rows stored, reply staged; the collections of every other name and of every attachment that does not share the scope stay as they were |
| `PagedOutput.ReadCounts` | examples/table_in_out.ts:1177-1184 | a positive fan-out count is read as it is, null, zero and negative ones as zero |
| `PagedOutput.Explode` | examples/table_in_out.ts:732-750 | the one-shot fan-out has exactly the rows asked for, `0 .. n-1` for an input row with count `n`, each once, by input row and then by value |
| `PagedOutput.PagesFacts` | examples/table_in_out.ts:1232-1250 | replies add up to the output; all but the last are full and say more, the last does not; there are `max(1, ceil(total / size))` |
| `PagedOutput.PagedState.Begin` | examples/table_in_out.ts:1201-1224 | starting an input leaves nothing of an abandoned one, and says what the first reply tells a cache |
| `PagedOutput.PagedState.NextPage` | examples/table_in_out.ts:1232-1250 | a page is the next rows of the unsent output, across input rows, and says more exactly when some remain |
| `PagedOutput.PagedState.Next` | examples/table_in_out.ts:1253-1264 | the next reply, the asked-for failure, the empty first reply or the bumped values |
| `PagedOutput.Drive` | examples/table_in_out.ts:1201-1279 | from any left-over state, the replies to an input depend only on it and its arguments |
| `PagedOutput.PagedEqualsUnpaged` | examples/table_in_out.ts:1232-1279 | with the fault options off, concatenated replies are the one-shot output, in exactly `max(1, ceil(total / page_size))` replies |
| `PagedOutput.ExchangeMeans` | examples/table_in_out.ts:1201-1279 | the replies add up to the fan-out, a thousand higher on a conditional request, in one reply when a revalidating function is asked first, behind an empty one when asked for; a failure asked for comes exactly at its reply |
| `PagedOutput.StreamConserves` | src/functions/continuation.ts:99-154 | in every stream the framework accepts, replies followed by what is pending are the fan-out of the inputs, and the last reply says more exactly when output is pending; without `resume` nothing is ever pending |
| `PagedOutput.RefusedIff` | src/functions/continuation.ts:99-154 | after an accepted stream an input is refused if and only if it is a tick and the last reply did not say more or the tick has rows, or an input while it did, or yields more than a page from a function that cannot resume |
| `PagedOutput.Continuation.TurnCall` | src/functions/continuation.ts:99-154 | one framework turn over the paged state: a tick with nothing pending, a tick with rows, an input while output is pending and "more" without `resume` are refused; otherwise the reply is the next rows of what is owed |
| `PagedOutput.RunStream` | src/functions/continuation.ts:99-154 | driving the paged state turn by turn gives exactly the stream's replies, or is refused where the stream is |
| `PagedOutput.SlicesJoin` | examples/table_in_out.ts:1312-1355 | for every cut of an input, fan-outs of the slices with parents offset join to the fan-out of the whole |
| `PagedOutput.RunSlices` | examples/table_in_out.ts:1312-1355 | driving the paged state slice by slice, refused exactly when a slice has more than three rows, gives the one-shot output of the whole input |
| `PagedOutput.SlicedCall` | examples/table_in_out.ts:1312-1355 | from any left-over position, one call's replies are the pages of its slice, each row reporting how many input rows the call had; refused if and only if the slice has more than three rows |
| `PagedOutput.SlicedFans` | examples/table_in_out.ts:1312-1355 | one call's replies add up to the fan-out of its slice |
| `PagedOutput.Interleave` | examples/table_in_out.ts:830-852 | the round-robin loops produce exactly the rows asked for, each once, by value and then by input row |
| `PagedOutput.InterleavingPreservesMeaning` | examples/table_in_out.ts:830-852 | it is a permutation of the one-shot output, keeps each parent's values `0 .. n-1` in order, and sorts back to it by parent |
| `Catalog.DropUndoesCreate` | examples/catalog_contents.ts:190-299 | dropping a schema, table or view right after creating it gives the contents back, two versions later |
| `CatalogGuarantees.ChangeAccepts` | examples/catalog_contents.ts:190-328 | a call is accepted if and only if its path is one, its object is there or may be missing, and nothing is in its way: a taken name with FAIL, a missing parent, a schema with tables or views to be dropped without CASCADE |
| `CatalogGuarantees.ChangeKeeps` | examples/catalog_contents.ts:190-328 | every table, view and schema is still there as it was, unless the call drops it, replaces it or its schema, or is a CASCADE on its schema; commenting on a view keeps its definition |
| `CatalogGuarantees.ChangeAdds` | examples/catalog_contents.ts:190-328 | what is new is what the call creates |
| `CatalogGuarantees.ChangeAchieves` | examples/catalog_contents.ts:190-328 | after a create the old object is there if it was to be kept and otherwise exactly the new one; after a drop there is none; a comment call sets one comment and leaves the others |
| `CatalogGuarantees.TableSurvives` | examples/catalog_contents.ts:204-274 | over any run of events on any attachments, a table stays as it is while nothing aims at it |
| `CatalogGuarantees.ViewSurvives` | examples/catalog_contents.ts:204-318 | so does a view's definition, even when its comments change |
| `CatalogGuarantees.AttachmentKeys` | examples/catalog_contents.ts:339-347 | two attach ids reach the same state if and only if they differ in the first byte at most |
| `CatalogGuarantees.PathsMatchIff` | src/schema-path.ts:10-16 | without NULs, two paths are looked up alike if and only if they differ in the case of letters only |
| `CatalogServing.CheckContents` | src/protocol/handlers/catalog/contents.ts:70-78 | the builder's loop accepts a listing if and only if no folded path occurs twice and every parent is listed |
| `CatalogServing.ReadContents` | src/catalog/contents-codec.ts:41-52 | the reader's one pass accepts a listing if and only if no folded path occurs twice and every parent is listed earlier |
| `CatalogServing.ReaderAcceptsWhatIsBuilt` | src/protocol/handlers/catalog/contents.ts:80 | for every listing: once it is sorted by depth, the reader accepts it if and only if the builder does |
| `CatalogServing.AnyListingWillDo` | src/protocol/handlers/catalog/contents.ts:70-78 | whether a state can be served does not depend on the order in which its schemas are listed |
| `CatalogServing.ServableByKey` | src/schema-path.ts:11-17 | under the catalog's keys no path can occur twice, so only the parents need checking, and each is decided by what is filed under its key |
| `CatalogServing.ServableIff` | examples/catalog_contents.ts:190-216 | servable contents stay servable under an accepted call if and only if it does not drop a schema that others lie below, create one whose parent's key belongs to another path, or replace a schema of another path that others lie below |
| `CatalogServing.PlainKeysAreExact` | src/schema-path.ts:11-17 | without NULs in components, equal keys mean equal folded paths |
| `CatalogServing.PlainServableIff` | examples/catalog_contents.ts:190-216 | where no component holds a NUL, contents stay servable if and only if no schema is dropped that others lie below |
| `CatalogServing.SoundIff` | src/protocol/handlers/catalog/contents.ts:70-78 | the exact condition for one event on all attachments |
| `CatalogServing.RunStaysServable` | src/protocol/handlers/catalog/contents.ts:70-78 | over any run without such a call, every attachment's contents can be served |
| `CatalogServing.CascadeOrphans` | examples/catalog_contents.ts:204-216 | dropping `a` with CASCADE while `a.b` exists leaves contents that cannot be served |
| `CatalogServing.NulPassesForParent` | examples/catalog_contents.ts:190-202 | for any names `a`, `b`, `c`: creating the one schema `a` NUL `b` and then `a.b.c` is accepted and leaves contents that cannot be served |
| `Catalog.EtagInjective` | examples/catalog_contents.ts:372 | equal etags mean equal generations |
| `Catalog.RoutesDoNotMatter` | examples/catalog_contents.ts:337-341 | however byte 0 of the attach ids is overwritten along the way, a run reaches the same state and gets the same answers |
| `Catalog.OnlyOwnEventsCount` | examples/catalog_contents.ts:343-347 | over any run, an attachment ends as if only the events on it had happened |
| `Catalog.RunMovesOn` | examples/catalog_contents.ts:190-316 | over any run, an attachment kept its contents or has a larger version |
| `Catalog.NotModifiedMeansUnchanged` | examples/catalog_contents.ts:368-377 | after any run since an etag was issued, "not modified" means the contents are those it was issued for |
| `Catalog.InterleavedBuildIsSafe` | src/catalog/interface.ts:1142-1180 | the etag is read before the snapshot is built; a later "not modified" answer to it means that at every moment in between the contents were the same, so pieces read at different times agree |
| `Catalog.UnchangedIsNotRebuilt` | examples/catalog_contents.ts:368-377 | an etag is answered "not modified" if and only if the catalog is the one it was issued for |
| `Catalog.FetchThenAsk` | examples/catalog_contents.ts:368-377 | the first answer carries the contents and their etag; asked again after any events, the second is "not modified" if and only if the catalog is what it was |
| `CatalogObjects.AttachObject.PutViewColumnComment` | examples/catalog_contents.ts:308-317 | the view object's comments are replaced by a changed copy, null removing the entry; nothing else in the attachment changes |
| `CatalogObjects.AttachObject.Alter` | examples/catalog_contents.ts:190-317 | the DDL methods, in the source's order of checks, change maps and view objects in place; the value they stand for changes as the state machine says, and all other objects they leave behind are new; it is accepted and leaves the contents exactly as `Accepts` and `Achieves` of `CatalogGuarantees` say |
| `CatalogObjects.RevalidatingCatalog.Alter` | examples/catalog_contents.ts:337-347 | a call through an attach id changes the objects of that attachment only; on the whole heap it is one event of the state machine; that state keeps the same promises |
| `CatalogObjects.RevalidatingCatalog.AttachCatalog` | examples/catalog_contents.ts:152-158 | attaching enters a new state object with nothing but `main`, leaving all others as they were |
| `CatalogObjects.RevalidatingCatalog.DetachCatalog` | examples/catalog_contents.ts:172-174 | detaching forgets one state object and changes no other |
| `CatalogObjects.RevalidatingCatalog.CatalogContents` | examples/catalog_contents.ts:368-377 | answers from the version, changing no object; one more build is counted exactly when a snapshot was copied out |
| `CatalogObjects.RevalidatingCatalog.Play` | examples/catalog_contents.ts:142-377 | any sequence of events on the heap ends in the state the state machine reaches |
| `CatalogObjects.RevalidatingCatalog.FetchAndRevalidate` | examples/catalog_contents.ts:368-377 | a client that fetches, lets any events happen, and asks again is told "not modified" if and only if the objects hold what its snapshot holds |
| `Buffering.ScanResumes` | src/functions/storage.ts:289-313 | resuming a log scan after its first row gives the rest of it |
| `Buffering.UnpackPack` | examples/table_buffering.ts:512-521 | unpacking an indexed batch gives index and bytes back |
| `Buffering.Execution.Sink` | examples/table_buffering.ts:528-541 | appends one packed batch to the unsorted namespace only; a missing index is refused |
| `Buffering.Execution.Combine` | examples/table_buffering.ts:542-550 | the staged entries are the arrived batches, stably sorted by index |
| `Buffering.Execution.Tick` | examples/table_buffering.ts:67-81 | emits the first entry after the cursor and moves the cursor there, or ends |
| `Buffering.Execution.Drain` | examples/table_buffering.ts:67-81 | ticking to the end emits every entry of the namespace once, in append order |
| `Buffering.BufferByIndex` | examples/table_buffering.ts:523-554 | sink, combine and drain together emit every arrived batch once, ordered by index |
| `Buffering.ArrivalOrderDoesNotMatter` | examples/table_buffering.ts:542-550 | with distinct indices, every arrival order reproduces the source order |
| `Buffering.PartialSum` | examples/table_buffering.ts:135-162 | the sum of one integer column, nulls skipped |
| `Buffering.TotalAppend` | examples/table_buffering.ts:135-162 | sums of adjoining columns add up (`TotalOfOne`: a null counts for nothing, a number for itself) |
| `Buffering.SumColumn` | examples/table_buffering.ts:180-218 | sinks append partial sums to the log, one combine adds them, the source emits one value: the sum over all input modulo 2^64 under every batching, and so the sum itself if and only if it fits 64 bits |
| `Buffering.CellIsCongruent` | examples/table_buffering.ts:244-272 | a 64-bit cell holds a value congruent to what was stored |
| `ListAgg.Update` | examples/aggregate.ts:226-236 | folds the non-null values into the group's state in order; a group comes into being with its first value, even an empty one |
| `ListAgg.CellOnto` | examples/aggregate.ts:226-236 | one more cell: a null changes nothing, a value starts the text or is put behind a comma |
| `ListAgg.CombineIsFoldIff` | examples/aggregate.ts:237-240 | combining two partitions equals folding the whole list if and only if the first is empty text, or the second has no value or does not start with `""` |
| `ListAgg.PartitionsAgreeIff` | examples/aggregate.ts:226-248 | for any number of partitions, merging their states gives the whole list's if and only if no partition puts an empty string behind text; the result is null if and only if no partition has a value |
| `ListAgg.PartitionsDoNotMatter` | examples/aggregate.ts:226-240 | without empty strings, every ordered cut into partitions, all-null ones included, gives the state of the whole list |
| `DecimalAdd.AddIsExact` | examples/scalar.ts:474-486 | the result is null if and only if a cell is; otherwise its unscaled integer denotes the exact sum at the output scale |
| `DecimalAdd.AlwaysFitsIff` | examples/scalar.ts:447-461 | it is enough to look at the largest sum of two types |
| `DecimalAdd.NeverOverflowsIff` | examples/scalar.ts:447-461 | every sum of two decimal types fits the declared type if and only if the uncapped precision is at most 38, or one type has no scale, the other nothing but scale, and their digits add up to 38 |
| `DecimalAdd.UncappedNeverOverflows` | examples/scalar.ts:447-461 | below the 38-digit cap every sum fits its declared precision |
| `DecimalAdd.PrecisionIsMinimalIff` | examples/scalar.ts:447-461 | the declared scale is the larger one and no digit is to spare: below the cap some sum needs them all if and only if the digits of the two types can meet |
| `DecimalAdd.CappedCanOverflow` | examples/scalar.ts:455-460 | two DECIMAL(38,0) columns have a sum that does not fit their declared result type |
| `Bytes.I64RoundTrip` | examples/splits.ts:69-83 | a signed 64-bit little-endian field reads back as written if and only if the value fits it |
| `Bytes.U64RoundTrip` | examples/splits.ts:284-295 | an unsigned 64-bit little-endian field reads back as written if and only if the value is below 2^64 |
| `Bytes.LEDigits` | examples/splits.ts:69-98 | byte `i` of a field is digit `i` of the number to the base 256 |
| `Bytes.U32RoundTrip` | examples/accumulate.ts:196-213 | an unsigned 32-bit little-endian field reads back as written if and only if the value is below 2^32 |

## Left out

Deliberate limits of the model:

- FilterBounds.GuardedBoundsAreSound: one direction only for trees whose tests on other columns contradict each other or are not comparisons and INs; an unguarded side can then be sound by accident, which the shape of the tree does not show. Exact conditions are proved for IN (`InSoundIff`), for OR over column tests (`OrSoundIff`) and for any nesting of column tests that can hold together (`TreesSoundIff`).
- FilterText.RenderFilters: literals are integers or null, and names compare by character rather than by UTF-16 unit.
- FilterHistory.ApplyDelta: expression parsing is abstracted to "parses to a value" or "does not parse", and a node count; document headers, the JSON byte limit and the evaluation-context check do not depend on what was applied before and are outside the model.
- FilterHistory.ReplayHistory: the initial snapshot is always present, and its options do not change between turns.
- FilterStream.ServeTurn: the batch reader is a function from document bytes to updates, which may refuse; a refused document ends its turn with an error, after which the client goes on from the token it has. Sealing, the token's other fields and its total size are not modelled.
- HistoryToken.HistoryRoundTrip: counts and lengths are below 2^32, as their fields require; `FilterStream.TokenFits` shows that every reachable history is so.
- NestTensor.Aggregate: integer coordinates, and one group; `NestTensorGroups.AggregateGroups` covers many at once. The nested lists are values that the loop reassigns cell by cell, so aliasing between sublists is not captured.
- Accumulator.StoreRefinesFlatLists: calls do not overlap (the store reads, changes and writes without a lock); the batch codec is an invertible pair of functions whose output stays below 2^32 bytes.
- Accumulator.Store.AccumulateCall: splitting a stringified interval at its commas is not modelled; it starts from the four numbers.
- WorkQueue.QueueWorker.ProcessCall: the float64 packing of queue items and the (partition_id, seq) row shape of `partitioned_batch_index_marked` are not modelled. A chunk size below one, which only that fixture fails to rule out, would queue forever and is excluded.
- PagedOutput.PagedState.Begin: its cache control is not attached to the first reply; page size is at least one and the lifetime not negative, as the bind check demands.
- PagedOutput.StreamConserves: replies to ticks never carry cache control here, as in the code, so the refusal of those does not arise.
- Catalog.NotModifiedMeansUnchanged: assumes the attach id is not attached again during the run; attaching takes only a name and draws sixteen random bytes (`Catalog.ReattachReusesEtags` is what a repeated draw would do). Lower-casing is ASCII only, and tags, aliases and column validation are not modelled.
- CatalogObjects.RevalidatingCatalog.CatalogContents: the snapshot is copied out in one step; `Catalog.InterleavedBuildIsSafe` covers other calls running meanwhile. Its order of schemas is not modelled.
- CatalogServing.ReadContents: names pass through the batch's own text columns unchanged, and the checks on tables, views and functions are left out.
- SplitScan.CompleteScanReadsAll: numbers are mathematical integers, fixed to signed 64 bits inside tokens; a connection is re-initialized only after its stream ended.
- SplitPlan.FollowCursor: row, byte and version estimates beside the tokens are not modelled.
- Buffering.SumColumn: one integer column, whose cells store modulo 2^64; float and decimal sums round and are left out.
- DecimalAdd.AddIsExact: starts from unscaled integers; decoding a decimal cell and the bit width of the declared type are not modelled.

Not modelled at all:

- The C++ client: result cache, connection pool, token sealing and expiry, page caps.
- HTTP, subprocess and iframe transports, authentication, secrets, attach tickets.
- Fixtures that break the protocols on purpose (`split_fail_at`, `split_endless_cursor`, the `broken_*` and `crash_*` functions), except the fault options of `blended_paged`.
- Single-cursor generators, echo and probe functions, whose output is constant or one counter.
- Floating-point and random functions, SHA-256, `vgi_dynamic_agg`.
- `duckdb-stats.ts`, the versioned-table resolver and the canonical-constraint checks: pure look-ups that would add only easy members.
