# Verified model of the time-series backend

A Dafny 4.11 model of a replicated time-series backend and proofs of what it
promises. One rule runs through all of it: at one series and timestamp the sample with
the higher (generation, value bits) wins. The project proves that the storage engine,
the replication protocol, the on-disk index and the query evaluators all respect it.

`dafny verify dfyconfig.toml` checks everything.

## What is modelled

- **Last write wins** (`Samples`, `Answers`, `Chunks`): the order on samples, the view a
  query has of a set of samples, and the merge algebra that makes answers independent of
  where, how often and in which order samples were read.
- **The storage engine** (`Head`, `HeadShape`, `MemoryStores`, `Engine`, `EngineRuns`,
  `FlushRuns`, `Lifecycle`, `Reclaim`, `Compaction`, `BlockStores`): WAL segments,
  checkpoint file, head chunks with their segment fence, blocks, flushes, compaction, crash
  between any two writes, replay and start-up reclamation as one state machine; what every
  run of it keeps, what a flush achieves, and that it always comes up again.
- **Replication** (`Replication`, `Quorums`, `Reads`, `Rings`, `HeadFlush`, `Gates`): pushes,
  acknowledgements, flushes to a store quorum, drops, restarts and queries that skip a few
  peers, in every interleaving; the quorum collector; the token ring; the ingester's flush
  and drain.
- **Formats** (`BitStreams`, `ChunkCodec`, `Varints`, `ChunkFormat`, `WalFormat`, `Wals`,
  `Postings`, `PostingsFile`, `BlockIndex`, `BlockWriter`, `BlockReader`): the Gorilla bit
  codec and the chunk file, WAL records and segments with torn tails and short writes, the
  inverted index in memory and on disk, and a block's writer and reader end to end; what
  the codes cost and where each number lies (`ChunkCost`, `Layouts`).
- **Queries** (`Eval`, `LogWindow`, `LogMetrics`, `LogLimit`): range evaluation against
  instant evaluation over expression trees, the whole log-metric query over its sliding
  window, and the per-stream limit; what rates, groups and limited answers mean in terms of
  the stored samples and entries (`EvalMeaning`, `LogMeaning`).

Code that updates state is a class or a method with loops, proved against a
specification function; what the functions mean is proved in lemmas beside them, in terms
that do not mention the functions: counts of replicas, members' tokens, samples in a window.
Protocols and the engine are state machines whose steps are the atomic effects of the
code (one file write, one publish, one append under the lock).

## Findings

Two properties the documentation suggests are false of the code as written. Each has a
concrete input and its exact condition.

- **Torn tail.** A last WAL segment cut exactly after a record's 4-byte length prefix is
  refused: the body read returns a plain end of file, which line 104 of
  `internal/storage/wal/replay.go` does not tolerate. `WalFormat.PrefixOnlyIsRefused` is
  the input; `WalFormat.TornTailAcceptedIff` says replay succeeds for exactly the other
  cuts.
- **Writing on after a short write.** When a write stops part way (a full disk), lines 115
  to 117 of `internal/storage/wal/wal.go` report the error but neither remove the bytes
  nor mark the writer broken, so later records are acknowledged behind a partial one.
  `Wals.AckedRecordIsTruncated` is an input: replay drops the acknowledged record.
  `Wals.ShortWriteIff`: after a write the segment is a sequence of records exactly when the
  write was whole or left nothing; `Wals.ShortWriteHidesLater`: all that follows is lost
  while it is shorter than the missing part of the record, and stops the replay once a
  newer segment exists.

A third is by design but easy to overlook: a write that is refused after its WAL record
was written is missing from answers until a restart replays it
(`EngineRuns.RefusedMayBeMissed`, `EngineRuns.QuiescentViewIff`).

Two guards that other code depends on are shown to be needed, and then to be enough.
`BlockWriter.Writer.AddSeries` refuses empty label names; without that a block would be
unreadable (`PostingsFile.EmptyPairIsRefused`), with it every committed block within the
reader's bounds opens (`BlockReader.CommittedOpensIff`). `LogWindow.ValidateEntry` refuses
timestamps that are not positive; without that the clamped window could miss an entry
(`LogWindow.FirstInstantIsMissed`), with it `LogWindow.Accumulate` is exact.

## Model

| member | source | states |
|---|---|---|
| `Samples.SameViewIff` | internal/storage/chunk/chunk.go:659-664 | two sets of samples have the same last-write-wins winners exactly when each holds, for every sample of the other, that sample or one that outranks it |
| `Samples.WinnerIff` | internal/storage/chunk/chunk.go:653-664 | a sample is in the view exactly when it is present and, of those at its series and timestamp, its generation is the largest, and its bits the largest of that generation |
| `Samples.CoversIff` | internal/storage/chunk/chunk.go:653-664 | a set covers a sample exactly when it holds at its key a larger generation, or the same one with bits at least as large |
| `Samples.MergeAlgebra` | internal/metrics/source.go:66-97 | viewing is commutative, associative, idempotent and may be done on either side first, so folding any number of sources in any nesting gives one view |
| `Samples.DedupIsView` | internal/metrics/source.go:75-91 | dedup of a sorted slice lists exactly the view, one sample per timestamp, ascending |
| `Samples.DedupByGeneration` | internal/metrics/source.go:75-91 | the in-place loop over an array leaves in its prefix exactly the dedup of what the array held |
| `Samples.SortAndDedupInPlace` | internal/metrics/source.go:94-97 | sort and dedup in place leave exactly the sorted winners of what the array held |
| `Samples.SortAndDedupIsView` | internal/metrics/source.go:94-97 | sortAndDedup of one series lists exactly the view in timestamp order |
| `Samples.SortAndDedupCanonical` | internal/metrics/source.go:94-97 | two inputs give the same output exactly when they have the same view: order and repetition do not matter |
| `Chunks.ExtremeSpansSeal` | internal/storage/chunk/chunk.go:234-280 | the int64 span test, which may wrap, seals exactly at 120 samples or a true span of two hours in milliseconds, for any timestamps |
| `Answers.SelectFromChunks` | internal/metrics/store.go:586-626 | the scan with chunks skipped by their bounds returns the one right answer, samples and anchor, over everything the chunks hold |
| `Answers.AnswerMeans` | internal/metrics/store.go:586-626 | an answer's samples ascend, are exactly the winners in range, one for each timestamp that has a sample; its anchor, when asked for, is the winner of the latest timestamp before the range |
| `Answers.AnswerDependsOnView` | internal/metrics/source.go:120-167 | two sets with the same view have the same answers to every select, so flushing, compacting and reclaiming change none |
| `Answers.MergeIsAnswerOfUnion` | internal/metrics/merge.go:27-63 | merging two sources' answers for a series is the right answer over everything both hold |
| `Answers.MergeIsSemilattice` | internal/metrics/merge.go:27-63 | merging answers, anchors included, is commutative, associative and idempotent |
| `Answers.MergeSelect` | internal/metrics/merge.go:27-63 | the merged list answers the union of both sources: the first's series in order, merged, then exactly the series only the second knows |
| `Head.AppendSlots` | internal/metrics/store.go:145-180 | an append grows one chunk by the sample and leaves every other chunk and fence as it was |
| `HeadShape.AppendTouchesOneChunk` | internal/metrics/store.go:145-180 | a sample joins its series' last chunk when that is open, whose fence stays; otherwise one new open chunk of that sample is added, fenced at the segment read before the log write; no other chunk of any series changes |
| `HeadShape.SealsEverything` | internal/metrics/store.go:214-228 | where only last chunks are open, sealing leaves no open chunk in the head |
| `Head.DiscardSlots` | internal/metrics/store.go:530-555 | discarding removes exactly the chunks with the listed identities and keeps every other with its fence |
| `Head.ReplayFenced` | internal/metrics/store.go:250-258 | replaying records and fencing gives a head that holds exactly those records, every chunk fenced at the given segment |
| `MemoryStores.MemoryStore.NextGeneration` | internal/metrics/store.go:104-111 | answers max(counter, clock) and advances past it, or reports exhaustion and changes nothing |
| `MemoryStores.MemoryStore.AppendInternal` | internal/metrics/store.go:145-180 | exhaustion changes nothing; otherwise the sample is in the head with its generation, fenced at the WAL segment, and the counter is past it |
| `MemoryStores.MemoryStore.OldestHeadSegment` | internal/metrics/store.go:233-245 | the least fence of any chunk in memory, sealed or not, or -1 when there is none |
| `MemoryStores.MemoryStore.SetHeadFence` | internal/metrics/store.go:250-258 | every chunk in memory is fenced at the given segment and nothing else changes |
| `MemoryStores.MemoryStore.SealHeadChunks` | internal/metrics/store.go:214-228 | every series' last chunk that is open and not empty is sealed, nothing else changes, and the count is the number of such series |
| `MemoryStores.MemoryStore.RemoveEmptySeries` | internal/metrics/store.go:316-327 | a series is forgotten exactly when its head holds no chunk at that moment, and nothing else changes |
| `MemoryStores.MemoryStore.DiscardSealedChunks` | internal/metrics/store.go:530-555 | the new head is the old one without exactly the listed chunks, by identity |
| `MemoryStores.MemoryStore.QueryRange` | internal/metrics/store.go:439-463 | the one right range answer over what the head holds of the series |
| `MemoryStores.MemoryStore.QueryInstant` | internal/metrics/store.go:402-433 | the winner at the latest timestamp at or before t, over what the head holds of the series |
| `MemoryStores.MemoryStore.EnsureGenFloor` | internal/metrics/store.go:186-192 | the counter becomes the maximum of itself and the floor, so it never goes back |
| `MemoryStores.InstantIsWinner` | internal/metrics/store.go:402-433 | an instant answer is the last-write-wins winner of its timestamp, and no winner at or before t is later |
| `MemoryStores.InstantBeforeRangeIsAnchor` | internal/metrics/source.go:12-48 | the anchor of a select is exactly what an instant query just before the range answers |
| `Engine.AppendFenced` | internal/metrics/walstore.go:79-95 | a sample whose record is at segment w or later joins a chunk whose fence is at most w, so every chunk's fence stays at or below the segment of each of its samples |
| `Engine.ComputeInv` | internal/metrics/walstore.go:202-240 | a deletion boundary sampled with no append in flight is below every fence and the active segment, so everything at or below it has left the head |
| `Engine.ComputeIsGreatest` | internal/metrics/walstore.go:216-226 | and it is the greatest such boundary: any number below the active segment and every chunk in memory is at most the one recorded |
| `FlushRuns.SentLeavesMemory` | internal/metrics/walstore.go:202-240 | in every run, once a flush has sent all it set out to send, every chunk that was sealed when it began has left memory and is covered by registered blocks |
| `FlushRuns.RunShaped` | internal/metrics/store.go:145-228 | at every instant of every run no chunk in memory is empty and only a series' last one is open |
| `FlushRuns.SealedFlushTakesAll` | internal/metrics/walstore.go:167-184 | a flush that starts right after sealing and has sent all it set out to send has taken every chunk that was then in memory out of it, and registered blocks cover all those chunks held |
| `FlushRuns.FlushAdvances` | internal/metrics/walstore.go:216-240 | in every run, once a flush has recorded its boundary, the checkpoint is just below the active segment and the oldest chunk in memory at the moment it was computed; once it has ended, no older segment is left |
| `FlushRuns.EmptiedHeadFreesTheLog` | internal/metrics/walstore.go:216-240 | after a flush that emptied the head the log above the checkpoint holds only records of the segment then active and later, and after its deletions no older segment remains |
| `Engine.TearInv` | internal/metrics/walstore.go:202-240 | a checkpoint write torn by a crash, leaving any smaller number, keeps the whole invariant |
| `Engine.VisibleIsDurable` | internal/metrics/walstore.go:79-117 | at every reachable instant, whatever a query can see is in blocks on disk or in the log above the checkpoint |
| `Engine.ReopenedCovers` | internal/metrics/blockstore.go:52-338 | the blocks a restart serves cover every block on disk, and its counter is past every generation on disk |
| `Engine.RestartInv` | internal/metrics/store.go:250-258 | replay with every chunk fenced at checkpoint + 1 restores the whole invariant after any crash |
| `Engine.DownStoreInv` | internal/metrics/blockstore.go:873-999 | while a split ingester is down its stores go on compacting, removing, registering and taking late batches, and keep the invariant and everything a restart can recover |
| `Engine.CutOffBatchMayLand` | internal/metrics/headstore.go:139-167 | every batch a crash cuts off on its way to the stores may still land after it, so the runs include that |
| `EngineRuns.StepInv` | internal/metrics/walstore.go:202-240 | every step of append, rotation, flush, checkpoint, deletion, compaction, removal, crash, retirement and restart keeps the invariant |
| `EngineRuns.AckedIsDurable` | internal/metrics/walstore.go:79-117 | in every run, at every instant after it, an acknowledged write or one that outranks it is in a block or in the log above the checkpoint, and visible whenever the process is up |
| `EngineRuns.OnceVisibleStays` | internal/metrics/blockstore.go:562-659 | what a query could once see, acknowledged or not, or what outranks it, every later query sees, through flushes, compactions and crashes |
| `EngineRuns.HeadSurvivesRestart` | internal/metrics/walstore.go:103-117 | a crash and the following restart lose nothing of what the head held |
| `EngineRuns.QueryIsLastWrite` | internal/metrics/blockstore.go:608-659 | an answer is at least as new as every acknowledged write in range and holds only recorded samples |
| `EngineRuns.QuiescentQueryIsExact` | internal/metrics/blockstore.go:608-659 | with no append in flight, and refused records covered, the answer is the one over everything ever recorded |
| `EngineRuns.QuiescentViewIff` | internal/metrics/blockstore.go:608-659 | with no append in flight, the visible view is the view of everything recorded exactly when every refused record is covered |
| `EngineRuns.RefusedMayBeMissed` | internal/metrics/walstore.go:79-117 | a concrete run whose refused record is written and not shown |
| `EngineRuns.InterleavedQuery` | internal/metrics/blockstore.go:608-659 | reading the head at one instant and the blocks at any later one, with any steps between, misses nothing acknowledged before the query began |
| `Lifecycle.BlocksFirstWouldMiss` | internal/metrics/blockstore.go:602-608 | for every write there is a run that acknowledges it by one instant and flushes it by a later one, such that reading the blocks at the first and the head at the second finds it in neither: the order of the two reads matters |
| `EngineRuns.AssignedGenerationIsNewest` | internal/metrics/store.go:104-111 | a generation the store assigns is above every one ever acknowledged, ever visible, or on disk, across any crashes |
| `EngineRuns.LastAcknowledgedWins` | internal/metrics/store.go:104-111 | so a newly assigned write outranks every acknowledged one at its key |
| `EngineRuns.FloorIsAhead` | internal/metrics/headstore.go:139-167 | a split ingester's floor file is, from then on, above every generation ever handed to the sink, accepted, refused or removed since |
| `EngineRuns.GenerationsNeverReused` | internal/metrics/headstore.go:67-85 | a generation the ingester assigns, after any restarts, is above every one it ever shipped and every one it ever held or replayed |
| `Lifecycle.LogBringsBack` | internal/metrics/walstore.go:79-117 | for every write there is a run that acknowledges it, crashes at once, and comes up with it replayed from the log |
| `Lifecycle.BlockBringsBack` | internal/metrics/walstore.go:202-240 | for every write there is a run that acknowledges it, flushes it, moves the checkpoint and deletes its segment, crashes, and comes up with it from the block, the log being empty |
| `Lifecycle.CanRestart` | internal/metrics/blockstore.go:52-338 | whatever a crash and interrupted deletions left, the start-up step can be taken |
| `Lifecycle.RestartGenIsExact` | internal/metrics/blockstore.go:313-338 | a restarted counter stands just above the newest generation in the kept blocks and the log, or at 1 where there is none |
| `Reclaim.SeriesGensAreWinners` | internal/metrics/blockstore.go:1406-1427 | decoding maps each timestamp of a series to its last-write-wins winner |
| `Reclaim.SurvivorSupersedesSource` | internal/metrics/blockstore.go:1452-1484 | answers yes exactly when the survivor lists the source and holds each of its samples faithfully, a later write, or the attested winner of a tie |
| `Reclaim.SupersederCovers` | internal/metrics/blockstore.go:1452-1484 | a verified superseder covers every sample of its source |
| `Reclaim.VerifyGraph` | internal/metrics/blockstore.go:194-260 | the recorded edges are exactly the verified ones, with every reader still open |
| `Reclaim.ReclaimFixpoint` | internal/metrics/blockstore.go:262-287 | the loop, whatever order its keys come in, ends at the least set closed under verified superseders that are roots or already in; `Reclaim.ReclaimedIffChained` says which blocks those are |
| `Reclaim.ReclaimedIffChained` | internal/metrics/blockstore.go:262-287 | for any graph, exactly the blocks at the end of a chain of verified edges that starts at a block nobody supersedes are reclaimed |
| `Reclaim.SupersededGoes` | internal/metrics/blockstore.go:262-287 | a block that a block with no superseder verifiably supersedes is not kept |
| `Reclaim.AcyclicKeepsRoots` | internal/metrics/blockstore.go:262-287 | on an acyclic graph exactly the blocks nobody supersedes are kept |
| `Reclaim.TieNeedsWitness` | internal/metrics/blockstore.go:1452-1514 | a verified survivor whose winner ties a source's sample in generation and differs in value has another listed block, present or set aside, with that very winner |
| `Reclaim.LeastClosedUnique` | internal/metrics/blockstore.go:262-287 | there is only one such set, so iteration order cannot matter |
| `Reclaim.ReclaimedIsCovered` | internal/metrics/blockstore.go:262-287 | every reclaimed block is covered, sample by sample along verified edges, by one retained block, for any graph, cyclic or forged |
| `Reclaim.ReclaimKeepsView` | internal/metrics/blockstore.go:289-311 | deleting any part of the reclaimed set leaves the view of the block directory unchanged |
| `Reclaim.MutualSupersessionKeepsBoth` | internal/metrics/blockstore.go:262-287 | two blocks that verifiably replace each other, with no third, are both kept |
| `Reclaim.NewBlockStore` | internal/metrics/blockstore.go:52-338 | start-up refuses exactly when a damaged block is listed by no opened one, and names such a block; otherwise it keeps exactly the opened blocks at the end of no chain of verified edges from a root, the view is unchanged, and the generation floor is past everything on disk and one above some kept sample, or 1 |
| `Compaction.Encode` | internal/storage/block/compact.go:120-148 | sorted samples become non-empty chunks, all but the last sealed exactly by the head's rule, that hold them in order |
| `Compaction.Rechunk` | internal/storage/block/compact.go:120-148 | the chunks of a series hold exactly its sorted winners; none for no samples |
| `Compaction.Aggregate` | internal/storage/block/compact.go:22-108 | reports a conflict exactly when sources disagree on a series' labels; otherwise every series with all its samples in source order |
| `Compaction.Compact` | internal/storage/block/compact.go:22-118 | fails exactly for fewer than two sources, mixed tenants or conflicting labels; otherwise the output lists its sources in stable MinTime order and holds per series exactly the sorted winners of the union |
| `Compaction.OutputLevel` | internal/storage/block/compact.go:49-88 | the output's level exceeds every source's and is one above some source's |
| `Compaction.OrderKeepsTies` | internal/storage/block/compact.go:35-43 | sources with one MinTime keep the order they were given in |
| `Compaction.OrderIsCosmetic` | internal/storage/block/compact.go:35-43 | whatever order the same sources are merged in, the output has the same samples and labels |
| `Compaction.CompactedHoldsView` | internal/storage/block/compact.go:22-108 | the output holds exactly the view of the union of its sources |
| `Compaction.OutputSupersedesSample` | internal/metrics/blockstore.go:1452-1514 | every source sample of a kept series is superseded by the output, equal-generation ties always attested |
| `Compaction.CompactedSupersedesIff` | internal/metrics/blockstore.go:1452-1484 | a source passes the check against the output exactly when each of its series has a sample in some source |
| `Compaction.SourcesAreReclaimed` | internal/metrics/blockstore.go:262-287 | after a crash between publishing an output and retiring its sources, where every source series has a sample and no block lists the output, the next start-up keeps the output and none of the sources |
| `Compaction.SwapKeepsView` | internal/metrics/blockstore.go:873-999 | swapping the output in for its sources keeps the view of the block list |
| `Compaction.BlockList.CompactGroup` | internal/metrics/blockstore.go:873-999 | a planned group is skipped, refused or swapped, the view never changes, nothing changes unless it was swapped, the new block records the group in MinTime order, and a refusal means a source with an empty series |
| `BlockStores.QueryRange` | internal/metrics/blockstore.go:608-659 | the one right range answer over head and blocks together |
| `BlockStores.QueryInstant` | internal/metrics/blockstore.go:562-600 | the winner at the latest timestamp at or before t over head and blocks together |
| `BlockStores.CompactionKeepsAnswers` | internal/metrics/blockstore.go:873-999 | a compaction's swap leaves every range and instant answer of every series unchanged |
| `BlockStores.ReclaimKeepsAnswers` | internal/metrics/blockstore.go:289-311 | so does start-up reclamation, whatever part of it has happened |
| `Replication.NoGap` | internal/metrics/merge.go:106-159 | in every interleaving of pushes, flushes, drops, restarts and store compactions, the answer of a query that reads all heads before any store, skipping at most W-1 and W_s-1, lists for every sample acknowledged before it began its series with that sample or one that outranks it, and with an anchor no earlier than any acknowledged one; samples and anchors are ones somebody pushed |
| `Replication.AckedIsReplicated` | internal/rpc/router.go:295-448 | at every instant an acknowledged sample has been acknowledged by more than half of rf replicas, and it is on a store quorum or still with every one of them |
| `Replication.StepInv` | internal/rpc/replicated_sink.go:75-157 | every step of the deployment keeps what the no-gap theorem needs |
| `Replication.DropInv` | internal/metrics/headstore.go:139-167 | dropping what a flush that met its store quorum carried keeps it, because all of it is on a store quorum |
| `Replication.SomeReplicaRead` | internal/metrics/merge.go:239-278 | of W acknowledging replicas at least one is read when at most W-1 are skipped |
| `Replication.MajorityIff` | internal/rpc/router.go:281-282 | a quorum of n is met by exactly more than half, and out of reach exactly when half have failed |
| `Replication.MajoritiesMeet` | internal/rpc/router.go:281-282 | any two majorities of the same replicas have one in common |
| `Quorums.Route` | internal/rpc/router.go:295-357 | every item goes to exactly its key's replicas in batch order, keys are numbered once each, and each member's keys are exactly those it replicates |
| `Quorums.CountsAddUp` | internal/rpc/router.go:359-439 | a key's successes and failures add up to the replicas heard from |
| `Quorums.QuorumOrLost` | internal/rpc/router.go:359-439 | a key never both meets its quorum and passes its failure budget, and once everyone answered it has done one of them |
| `Quorums.TakeResult` | internal/rpc/router.go:359-439 | one result raises exactly its member's keys' tallies, keeps the count of keys still short, and reports whether one just passed its failure budget |
| `Quorums.Collect` | internal/rpc/router.go:359-439 | for every arrival order it answers exactly once, at the first decided moment: nil exactly when for every key more than half of its rf replicas have succeeded, an error exactly when for some key at least half have failed, counting those keys; before that some key has neither and none has failed; the final report is failed exactly when the answer was an error |
| `Quorums.AcknowledgersMeet` | internal/rpc/router.go:359-439 | two batches both answered nil share, at every key, a replica that acknowledged both |
| `Quorums.NilAllowsAck` | internal/rpc/router.go:359-439 | a nil answer means the acknowledging replicas of each key are a quorum, so the deployment's acknowledgement step is enabled |
| `Reads.Gather` | internal/metrics/merge.go:239-278 | succeeds exactly when nothing fatal arrived and at most the tolerated number of heads was skipped, with every other answer kept in its place; an error is one that arrived |
| `Reads.FoldHeads` | internal/metrics/merge.go:186-224 | folding the heads' answers answers the union of what they hold |
| `Reads.Collect` | internal/metrics/merge.go:186-224 | a read answers the union of the heads it read, skipping at most the tolerated number; it fails exactly when something fatal came, too many were out, or all were |
| `Reads.SelectMerged` | internal/metrics/merge.go:27-63 | the querier's whole select fails exactly when the read of the ingesters or of the stores does, and otherwise is the answer, in the form the no-gap theorem takes, over all that the sources read held |
| `Reads.ReplicateFlush` | internal/rpc/replicated_sink.go:75-157 | without requiring all, the failed keys are those of whose owners at most half of rf took the batch; requiring all, those with any owner that did not; none has failed exactly when every owner took it |
| `Reads.AcceptedFlushMayDrop` | internal/rpc/replicated_sink.go:75-157 | where more than half of the owners of each key took a flush, the deployment's drop step is enabled |
| `Reads.SkipsAllowTheNextPhase` | internal/metrics/merge.go:232-278 | a read that skipped at most half of rf heads may go on to the stores under the no-gap theorem |
| `Reads.SkippedStoresAllowTheEnd` | internal/metrics/merge.go:232-278 | a read that skipped at most half of storeRf stores may end under the no-gap theorem |
| `Reads.LastWritePerSample` | internal/rpc/router.go:234-250 | keeps, in order, exactly the positions that are their series' and timestamp's last write in the batch |
| `Reads.Gateway.Stamp` | internal/rpc/router.go:260-272 | the kept samples get one generation, the maximum of counter and clock, and the counter moves past it |
| `Reads.StampedBatchLastWins` | internal/rpc/router.go:234-272 | what a stamped batch leaves at a key is the batch's last write there |
| `Rings.New` | internal/ring/ring.go:34-69 | refuses exactly an empty list, an empty name or a repeated one, naming a repeated one; otherwise the ring holds every member's 128 tokens, 128 times the number of members in all, and nothing else |
| `Rings.TableCounts` | internal/ring/ring.go:52-56 | a token occurs in the table as often as its owner, if a member, has it among its 128, and not at all otherwise |
| `Rings.LessIff` | internal/ring/ring.go:57-62 | names compare by their first differing character, a proper prefix first: the order among equal tokens |
| `Rings.TableOfPermutation` | internal/ring/ring.go:34-69 | the order members are listed in does not change the table, even with colliding tokens |
| `Rings.Lookup` | internal/ring/ring.go:77-83 | the answer owns a token at or after the position with no member's token in between, or, where none is at or after it, the least of all, ties by name: it is the first of the key's replicas |
| `Rings.Replicas` | internal/ring/ring.go:88-104 | succeeds exactly for 1 to the number of members and gives n distinct members, each with a token nearer clockwise than every token of every member not yet named: the first n of the key's preference order |
| `Rings.PreferenceIsEveryone` | internal/ring/ring.go:88-104 | the clockwise walk meets every member, each kept once |
| `Rings.PreferenceIsNearest` | internal/ring/ring.go:88-104 | the k-th of the preference order owns a token nearer clockwise from the position than every token of every member not among the first k + 1, which decides the order |
| `Rings.JoinExtendsTable` | internal/ring/ring.go:34-69 | a joining member adds its own tokens and moves no other |
| `Rings.JoinInsertsIntoPreference` | internal/ring/ring.go:88-104 | striking the joined member from a key's preference order gives its old order |
| `Rings.MinimalMovement` | internal/ring/ring.go:88-104 | striking m from a key's n replicas on the larger ring leaves a prefix, at most one short, of its n replicas on the smaller, for any token function |
| `Rings.OwnerMovesOnlyToOrFrom` | internal/ring/ring.go:72-83 | an owner changes only to or from the member that joined or left |
| `HeadFlush.BatchSeriesChunks` | internal/metrics/headstore.go:187-218 | every chunk is sent once and in order; every group has distinct series, at most max chunks each, and fits the limit unless it is a single chunk; and a group is closed only where the chunk that opens the next one would pass the limit or its series has max chunks there |
| `HeadFlush.BatchesCarryAll` | internal/metrics/headstore.go:139-167 | the groups cut from a snapshot that lists every chunk carry exactly the snapshot |
| `HeadFlush.FlushBlock` | internal/metrics/headstore.go:139-167 | it succeeds exactly when there is something to send, the floor is written durably and every group is accepted, and then the head is the old one without the sent chunks and without series that hold nothing; otherwise exactly the chunks of the groups accepted before the first refusal have left memory; the floor file is the counter unless nothing was published |
| `HeadFlush.Drain` | internal/metrics/walstore.go:167-184 | it fails in the flush exactly when there was something to flush and the floor or a group failed; otherwise it succeeds exactly when every chunk could be sealed, as the heads of all runs allow, and then the head is empty and every sample it held is in a chunk the sink accepted |
| `Gates.Gate.Enter` | internal/drain/gate.go:35-43 | admits exactly while open, counting each admission |
| `Gates.Gate.Leave` | internal/drain/gate.go:45-52 | the last one out of a closed gate closes the idle channel, which was still open |
| `Gates.Gate.StartClose` | internal/drain/gate.go:58-73 | closes the gate and ends at once exactly when nothing is in flight; the idle channel is closed at most once |
| `Gates.ClosedOnce` | internal/drain/gate.go:35-73 | in every run the idle channel is closed exactly once the gate is shut, never twice |
| `Gates.ShutForGood` | internal/drain/gate.go:35-73 | after Close returned nil no append is in flight, admitted or acknowledged again |
| `Gates.DrainIsComplete` | internal/drain/gate.go:58-73 | once Close and Drain have both returned nil, everything acknowledged before, then or later is in blocks the sink took |
| `BitStreams.BitsWriter.WriteBit` | internal/storage/chunk/chunk.go:404-414 | appends exactly one bit to the stream the buffer holds |
| `BitStreams.BitsWriter.WriteBits` | internal/storage/chunk/chunk.go:416-423 | appends exactly the low n bits of the value, most significant first |
| `BitStreams.BitsWriter.Bytes` | internal/storage/chunk/chunk.go:426-436 | the stream as whole bytes, the last padded with zeros |
| `BitStreams.PackBits` | internal/storage/chunk/chunk.go:426-436 | the bits of those bytes are the stream and its zero padding |
| `BitStreams.BitsReader.ReadBit` | internal/storage/chunk/chunk.go:451-464 | the next bit, or the end of the data exactly when none is left |
| `BitStreams.BitsReader.ReadBits` | internal/storage/chunk/chunk.go:466-479 | the number the next n bits, at most 64, spell, or the end of the data exactly when fewer are left |
| `BitStreams.ReadWritten` | internal/storage/chunk/chunk.go:404-479 | what was written is what is read, and nothing more is consumed |
| `ChunkCodec.XorRoundTrip` | internal/storage/chunk/chunk.go:519-551 | whatever window state a coder is in, the exclusive or it writes is read back with the same next window |
| `ChunkCodec.DeltasRoundTrip` | internal/storage/chunk/chunk.go:553-603 | delta and delta of deltas come back through wrapping int64 arithmetic, for every pair of timestamps |
| `ChunkCodec.SampleRoundTrip` | internal/storage/chunk/chunk.go:330-373 | from any coder state one sample written is that sample read, whatever follows |
| `ChunkCodec.StreamRoundTrip` | internal/storage/chunk/chunk.go:234-373 | any sequence of samples, out of order, repeated or wrapping, with any value bits, decodes to exactly itself and consumes exactly its stream |
| `ChunkCodec.StreamInjective` | internal/storage/chunk/chunk.go:234-373 | so no two sequences of one length share a stream |
| `ChunkCost.DodLayout` | internal/storage/chunk/chunk.go:481-517 | the five codes of a delta of deltas: which range takes which control bits and width, with the zigzag number behind them |
| `ChunkCost.ReusesIff` | internal/storage/chunk/chunk.go:519-551 | a window is used again exactly when one was written before and it holds every bit that changed |
| `ChunkCost.NewWindowIsLeast` | internal/storage/chunk/chunk.go:519-551 | a new window is the smallest that holds every changed bit, its leading zeros capped at 31 |
| `ChunkCost.ValueLayout` | internal/storage/chunk/chunk.go:519-551 | the three codes of a value: one bit when unchanged, two and the old window's bits, or two, five, six and the new window's bits |
| `ChunkCost.SteadySeriesCost` | internal/storage/chunk/chunk.go:234-280 | n samples a fixed step apart with one value take 128 bits, the first delta, one bit, and then two bits a sample |
| `ChunkCost.XorDiffers` | internal/storage/chunk/chunk.go:519-551 | the bits written for a value are those where it differs from the one before |
| `Varints.UvarintRoundTrip` | internal/storage/chunk/chunk.go:192-227 | a variable-length number is read back, whatever follows, up to what still fits 64 bits |
| `Layouts.FirstByteCounts` | internal/storage/chunk/chunk.go:65-89 | a fixed-width number has its most significant byte first |
| `Layouts.UvarintSize` | internal/storage/chunk/chunk.go:192-227 | a variable-length number takes as many bytes as it has digits to base 128, the lowest first |
| `Varints.OverflowTestIsExact` | internal/storage/chunk/chunk.go:192-227 | the wrapping sum with its overflow test accepts exactly the sums that are generations |
| `Varints.GensRoundTrip` | internal/storage/chunk/chunk.go:192-227 | every sequence of generations a chunk accepts is decoded back exactly |
| `ChunkFormat.Chunk.Append` | internal/storage/chunk/chunk.go:234-280 | refuses exactly a sealed chunk or a generation out of range; otherwise the sample and generation are added, the stream and bounds follow, and it seals exactly by the rule |
| `ChunkFormat.Chunk.Bytes` | internal/storage/chunk/chunk.go:65-89 | the persisted form of what the chunk holds |
| `ChunkFormat.Iterator.Next` | internal/storage/chunk/chunk.go:330-373 | moves to the next sample of the stream, or stops for good at the end or at an error |
| `ChunkFormat.FromBytes` | internal/storage/chunk/chunk.go:96-188 | the loader, header checks and eager decode included, accepts exactly the bytes the format describes and returns what they hold |
| `ChunkFormat.ChunkRoundTrip` | internal/storage/chunk/chunk.go:65-126 | whatever a chunk accepted, its bytes are accepted and give back exactly its samples, generations and bounds |
| `Layouts.ChunkLayout` | internal/storage/chunk/chunk.go:65-89 | where a chunk's bytes hold the magic, the least and greatest timestamp, the count, the stream's length, the stream and the generations |
| `ChunkFormat.AcceptedIsCoherent` | internal/storage/chunk/chunk.go:131-188 | whatever bytes are accepted hold as many generations as samples and bounds that are the samples' own |
| `WalFormat.RecordRoundTrip` | internal/storage/wal/record.go:63-161 | every record the writer accepts is decoded back exactly |
| `Layouts.RecordLayout` | internal/storage/wal/record.go:63-101 | where a record's bytes hold its length, type, labels, timestamp, value and generation, and how long it is |
| `Layouts.LabelLayout` | internal/storage/wal/record.go:63-101 | a label is the name's length in one byte, the name, the value's length in two, the value |
| `WalFormat.EncodeInto` | internal/storage/wal/record.go:63-101 | the buffer filled position by position is exactly the length prefix and the body |
| `WalFormat.ScanRecord` | internal/storage/wal/record.go:105-161 | the scan with a moving position decodes exactly what the format says, consuming the body exactly |
| `WalFormat.BodyLength` | internal/storage/wal/record.go:35-48 | no record that passes validation exceeds what replay accepts or its length prefix |
| `WalFormat.CutReplay` | internal/storage/wal/replay.go:57-117 | for any records and any cut, replay delivers exactly the records wholly before the cut and truncates to their boundary, except for a cut right after a length prefix |
| `WalFormat.TornTailAcceptedIff` | internal/storage/wal/replay.go:102-109 | replay of the last segment succeeds exactly when the cut is not right after a length prefix |
| `WalFormat.PrefixOnlyIsRefused` | internal/storage/wal/replay.go:102-109 | a record cut after its four length bytes is refused |
| `WalFormat.RepairedReplaysAsNonLast` | internal/storage/wal/replay.go:121-135 | once repaired the segment replays to the same records with newer segments present |
| `WalFormat.UnrepairedStopsReplay` | internal/storage/wal/replay.go:121-135 | unrepaired, the same file stops a later replay exactly when the cut was inside a record |
| `WalFormat.ReplaySegment` | internal/storage/wal/replay.go:57-117 | the read loop with its offset and truncation computes the replay and leaves the repaired file |
| `Wals.Wal.constructor` | internal/storage/wal/wal.go:41-68 | opens a fresh segment one past the highest, leaving every old one as it was |
| `Wals.Wal.WriteRecordGen` | internal/storage/wal/wal.go:102-147 | whatever fails, the write, a sync, the close or the open: the answer, the bytes left in each segment, the active segment and whether the writer still works; a refused record leaves nothing, and a segment rotates exactly when full |
| `Wals.IntactIsComplete` | internal/storage/wal/wal.go:102-147 | with no short write the directory is one of whole records, the form replay is proved for |
| `Wals.ShortWriteIff` | internal/storage/wal/wal.go:115-117 | after a write a segment is a sequence of whole records exactly when the write was not cut part way |
| `Wals.ShortWriteHidesLater` | internal/storage/wal/replay.go:57-117 | records written after a partial one are dropped by replay while they are shorter than what it lacks, and with a newer segment stop the replay |
| `Wals.AckedRecordIsTruncated` | internal/storage/wal/wal.go:115-117 | an acknowledged record, written after one cut at five bytes, that replay truncates away |
| `Wals.ReplayFromGen` | internal/storage/wal/replay.go:33-55 | over a directory whose last segment was cut anywhere: fails exactly for a cut right after a length prefix above the checkpoint; otherwise delivers in order every whole record above the checkpoint and leaves every segment complete |
| `Postings.ListsUnique` | internal/storage/index/postings.go:105-133 | a set has one sorted list, so an answer that lists a set is determined |
| `Postings.TextLessIff` | internal/storage/block/postings.go:53-60 | texts compare by their first differing byte, a proper prefix first |
| `Postings.IntersectSorted` | internal/storage/index/postings.go:117-133 | the two-pointer walk lists exactly the intersection |
| `Postings.MemPostings.Add` | internal/storage/index/postings.go:34-49 | a new id gains exactly its labels and a known one changes nothing; every list stays exact and non-empty |
| `Postings.MemPostings.Delete` | internal/storage/index/postings.go:140-159 | the id is gone, every other series keeps its labels, and lists and names left empty are removed |
| `Postings.MemPostings.Select` | internal/storage/index/postings.go:67-96 | exactly the sorted ids whose labels contain every matcher |
| `PostingsFile.ValidatePairKeySet` | internal/storage/block/postings.go:346-368 | one-way inclusion and equal counts decide exactly whether the key sets are equal |
| `PostingsFile.FileOrderIsEnough` | internal/storage/block/postings.go:303-340 | checking each list against the next in file order is checking every list |
| `PostingsFile.Load` | internal/storage/block/postings.go:170-340 | accepts exactly the files whose table lists the sentinel and the carried pairs once each with exact lists that fill the file, and what it accepts reads as the forward index |
| `PostingsFile.Select` | internal/storage/block/postings.go:439-477 | on any accepted file, exactly the sorted ids whose labels contain every matcher, as in memory |
| `PostingsFile.WrittenIsAccepted` | internal/storage/block/postings.go:43-102 | every file written for distinct ids without the empty pair, in any order of pairs, is accepted |
| `PostingsFile.EmptyPairIsRefused` | internal/storage/block/writer.go:94-100 | why the writer refuses empty label names: no file is accepted when some series carries the empty pair |
| `PostingsFile.WrittenAcceptedIff` | internal/storage/block/postings.go:43-102 | a written file is accepted exactly when no series carries the empty pair, which the writer's guard sees to |
| `PostingsFile.DescribedFits` | internal/storage/block/postings.go:64-94 | bounds on the series alone under which every count, length and offset fits its field |
| `PostingsFile.OneFile` | internal/storage/block/postings.go:53-60 | the file is a function of the series: the order they were added in and the order maps yield their keys leave no trace |
| `Layouts.PostingsLayout` | internal/storage/block/postings.go:43-102 | the file's magic and version, its lists, its offset table behind them, and in the last eight bytes where that table starts |
| `PostingsFile.WritePostings` | internal/storage/block/postings.go:43-102 | the buffers built list by list are the file of the sentinel and then every carried pair in order of name and value, each with its exact list, accepted, when it fits its fields, exactly when no series carries the empty pair |
| `BlockIndex.LabelsRoundTrip` | internal/storage/block/reader.go:296-334 | a label set is read back exactly when its names strictly ascend, and refused otherwise |
| `BlockIndex.IndexRoundTrip` | internal/storage/block/reader.go:236-293 | an index is read back exactly when it keeps the reader's bounds on series and chunks and every label set ascends, and refused otherwise |
| `Layouts.IndexEntryLayout` | internal/storage/block/reader.go:236-293 | where an index entry holds its identity, the size of its labels, the labels, the number of chunks and twelve bytes for each |
| `BlockIndex.ParseIndex` | internal/storage/block/reader.go:236-293 | the nested loops read what the format says, or refuse exactly where it does |
| `BlockWriter.GuardIgnoresOrder` | internal/storage/block/writer.go:93-104 | sorting the labels first does not change which label sets the guard refuses |
| `BlockWriter.Writer.AddSeries` | internal/storage/block/writer.go:89-118 | takes a series exactly when its id is new and its labels have no empty and no repeated name, and holds it with its labels in order; a refusal changes nothing |
| `BlockWriter.NoEmptyPair` | internal/storage/block/writer.go:94-100 | no set of series the writer has taken carries the pair that stands for all of them |
| `BlockWriter.Writer.Commit` | internal/storage/block/writer.go:127-265 | succeeds exactly once; the chunks file, the index with every chunk's place, and the postings are those of the series taken |
| `BlockReader.BuildSeriesByID` | internal/storage/block/reader.go:86-95 | refuses exactly a repeated id, and otherwise finds each series at its place |
| `BlockReader.OpenReader` | internal/storage/block/reader.go:57-80 | opens exactly an index that parses, without a repeated id, whose postings agree with its labels, and then selects by those labels |
| `BlockReader.CommittedOpensIff` | internal/storage/block/writer.go:127-265 | whatever the writer took, the committed block opens exactly when it has at most 1,000,000 series with at most 10,000 chunks each, and then declares exactly the series and labels added |
| `BlockReader.ValidateChunkRefs` | internal/storage/block/reader.go:175-216 | accepts exactly the indexes whose every place lies behind a header naming its series and length |
| `BlockReader.ValidatedIsReadable` | internal/storage/block/reader.go:195-200 | the wrapping end-of-chunk sum lets no place outside the file through, whatever the index says |
| `BlockReader.CommittedChunksReadBack` | internal/storage/block/reader.go:145-173 | in a committed block every chunk place validates exactly when no payload is empty, and reads back the payload that was added |
| `Eval.SumTakesAny` | internal/metrics/eval.go:143-178 | a sum does not depend on the order series are added in |
| `Eval.KeyInjective` | internal/metrics/eval.go:223-236 | length-prefixed group keys are unambiguous: equal keys mean equal group labels |
| `Eval.InstantOf` | internal/metrics/query.go:86-95 | the latest sample at or before t is found from the select's samples or its anchor |
| `EvalMeaning.InstantIsLatest` | internal/metrics/query.go:86-95 | a series has an instant value exactly when it has a sample at or before t, and it is the latest one's |
| `EvalMeaning.RateIsRise` | internal/metrics/eval.go:80-100 | a series with two samples in the window has as rate the rise from the earliest to the latest, divided by the window in seconds |
| `EvalMeaning.NoRate` | internal/metrics/eval.go:87-89 | a series with fewer than two samples in [t - w, t] has no rate |
| `EvalMeaning.RisingHasNoNegativeRate` | internal/metrics/eval.go:80-100 | a series that never falls never has a negative rate |
| `EvalMeaning.SteadyRise` | internal/metrics/eval.go:80-100 | a series rising by c a second, with samples at both ends of the window, has rate exactly c |
| `EvalMeaning.SameGroupIff` | internal/metrics/eval.go:218-236 | two series share a group exactly when they agree on every label it is grouped by, absent and empty being the same |
| `EvalMeaning.GroupExistsIff` | internal/metrics/eval.go:143-178 | a group has a value exactly when some series in it has one |
| `EvalMeaning.GroupGains` | internal/metrics/eval.go:143-178 | one more series adds its value to its group's sum and changes no other group |
| `Eval.PointersFrame` | internal/metrics/eval.go:103-132 | between the two pointers lies exactly the tick's window, so its ends give the tick's rate |
| `Eval.LoopStopsIff` | internal/metrics/query.go:126-137 | at the last tick the wrapping next tick is past the end exactly when the exact one fits int64: the condition the tick loops need, and no more |
| `Eval.RateSeries` | internal/metrics/eval.go:103-132 | the two-pointer loop emits exactly the per-tick rates, which `EvalMeaning.RateIsRise` gives in terms of the samples |
| `Eval.RangeSeries` | internal/metrics/query.go:107-142 | the forward-moving pointer emits exactly the per-tick latest values |
| `Eval.AggregateInstant` | internal/metrics/eval.go:143-178 | the groups are exactly the label groups, each with the sum of its members |
| `Eval.AggregateRange` | internal/metrics/eval.go:180-216 | at every tick the groups are exactly the label groups of the series with a point there, each with their sum |
| `Eval.EvalInstant` | internal/metrics/eval.go:18-35 | computes the per-tick definition for every expression tree |
| `Eval.EvalRange` | internal/metrics/eval.go:43-68 | refuses exactly a bad range; otherwise at every tick a series has a value exactly when the instant definition gives one, and the same value, for every expression tree |
| `LogWindow.Slide` | internal/logs/metriceval.go:158-189 | after moving both edges to a tick the running sum and count are those of the tick's window |
| `LogWindow.StoredAreExact` | internal/logs/validation.go:17-25 | for entries that have passed validation the clamped windows are the exact ones, at every tick and for every range |
| `LogWindow.Accumulate` | internal/logs/metriceval.go:158-189 | visits every tick up to end without overflow, however wide the span, and adds at each scale times its window's weight exactly when the window is non-empty; for entries that passed validation the windows are the exact, unclamped ones |
| `LogWindow.ClampExactIff` | internal/logs/metriceval.go:201-206 | the clamped bound selects an entry as the exact one does, unless it sits at the least int64 in a clamped window |
| `LogWindow.ClampCountIff` | internal/logs/metriceval.go:201-206 | a window holds as many entries clamped as unclamped exactly when it is not clamped or no entry sits at the least int64 |
| `LogWindow.FirstInstantIsMissed` | internal/logs/validation.go:17-20 | why timestamps must be positive: an entry at the least int64 that a window should hold and the clamped one does not |
| `LogWindow.WindowsAreExact` | internal/logs/metriceval.go:158-206 | where the clamp is harmless at every tick the result is that of the unclamped windows |
| `LogMetrics.EvalMetric` | internal/logs/metriceval.go:86-151 | refuses exactly a bad step, an end before the start or a bad range; otherwise over all stored streams that match, at every tick a series has a point exactly when one of its streams has a passing entry in the window, its value the sum over its streams; no series is empty |
| `LogMetrics.ReadKeepsValue` | internal/logs/metriceval.go:97-103 | reading only from the start of the first window to the end changes no value at any tick |
| `LogMetrics.TallyMeans` | internal/logs/metriceval.go:104-126 | what the pass has accumulated for a series is, tick by tick, the sum over the streams seen so far that belong to it |
| `LogMetrics.WindowHolds` | internal/logs/metriceval.go:158-189 | a window holds each entry with a passing line and a timestamp in (lo, hi] as often as it is stored, and nothing else |
| `LogMetrics.StoredWindowIsExact` | internal/logs/metriceval.go:198-206 | for entries later than the epoch the clamped window is (t - range, t] |
| `LogMetrics.CountsEntries` | internal/logs/metriceval.go:191-196 | count_over_time and rate weigh a window by its number of entries; the two byte operations weigh alike |
| `LogMetrics.RateTimesSeconds` | internal/logs/metriceval.go:158-163 | a rate times the range in seconds is the count over the range, and the byte rate times it the bytes, for every series at every tick |
| `LogMetrics.SameSeriesIff` | internal/logs/metriceval.go:208-249 | streams share a series exactly when they agree, after dropped labels are gone, on every label summed by, or on every label not summed without, absent and empty being the same; with no aggregation, on all |
| `LogMetrics.KeyIsLabels` | internal/logs/metriceval.go:251-272 | group keys are equal exactly when the output label sets are |
| `LogLimit.CapIsLossless` | internal/logs/query.go:97-147 | for every set of streams, direction and limit, cutting each stream first does not change the ordered and limited merge |
| `LogLimit.Merge` | internal/logs/query.go:80-147 | filter, per-stream order and cut, numbering, global order and cut return what sorting everything and cutting once returns |
| `LogLimit.Regroup` | internal/logs/query.go:149-190 | one group per key in order of first appearance, each with its entries in merge order |
| `LogLimit.QueryStreams` | internal/logs/query.go:74-190 | the whole query returns the groups of sorting every kept entry and cutting once |
| `LogMeaning.MergeIsFirst` | internal/logs/query.go:80-147 | the limited merge ascends in time going forward and descends going backward, ties by stream, and holds the earliest, or latest, candidates of all streams, as many as the limit allows |
| `LogMeaning.TiesAreStored` | internal/logs/query.go:80-147 | of one stream's entries at one instant it holds the first stored ones, in stored order, in either direction |
| `LogMeaning.GroupsAreInDirection` | internal/logs/query.go:149-190 | every group of the whole query is in the direction asked for |

## Left out

- `Replication.NoGap`: the rings are fixed sets of owners per series, so membership change during a run is not in the theorem (`Rings` treats it separately); restarts keep a superset of memory, which `EngineRuns.HeadSurvivesRestart` proves of the engine.
- `Quorums.Collect`: the error's list of causes and culprits and cancellation by the caller are left out; the counts are kept.
- `Reads.Gather`: whether an error is fatal or an outage is an input, not computed from error values.
- `EngineRuns.AckedIsDurable`: in the engine a log write leaves its whole record or nothing. A short write that nothing follows before the next restart is the same as nothing, because replay repairs it; one that is followed by more records in its segment can lose them, as the second finding says, and is not a step of the engine. A record written whole and then refused is one of its steps.
- `Wals.Wal.WriteRecordGen`: at most one of write, sync, close and open fails in a call; what a failed fsync loses of earlier records at a power failure, and the counters only tests read, are left out.
- `Wals.ShortWriteHidesLater`: says what is lost when the records that follow are shorter than the missing part; when they are longer the partial record's length prefix is followed by bytes of theirs, and replay may stop on them, or go on, depending on their values.
- `Eval.EvalRange`: requires the tick after the last to fit int64, exactly what `Eval.LoopStopsIff` shows the code's loops need; values are exact reals, so rounding and NaN are left out; points are kept per tick rather than as sorted slices.
- `LogWindow.Accumulate`: weights are exact integers and scale a real.
- `LogMetrics.EvalMetric`: the line filters are an arbitrary yes or no per line; the order of points by time and of series by their rendered labels is left out, points being kept per tick and series per label set; values are exact reals.
- `HeadFlush.BatchSeriesChunks`: the encoded wire sizes are inputs, required only to be positive.
- `HeadFlush.FlushBlock`: nothing is appended while it runs; appends between its steps are in the engine's runs. The timeouts and the wait for the flush lock are left out.
- `HeadFlush.Drain`: runs without concurrent appends and maintenance; the drain of a store that keeps its own blocks is covered by the engine model.
- `BlockWriter.Writer.AddSeries`: the time bounds, sample count and maximum generation it sums up for meta.json are left out; start-up recomputes them from the chunks. `EngineRuns` and `Compaction` treat a block as its decoded series.
- `BlockWriter.Writer.Commit`: meta.json, the directory rename and failing file writes are left out; `BlockReader.CommittedOpensIff` asks that every size fits the field that holds it.
- `BlockReader.OpenReader`: meta.json and the rebuild of an absent postings file are left out.
- `Compaction.BlockList.CompactGroup`: the checks of the published block's MaxGen and metadata against its chunks, and failing publication, are left out: they refuse a block whose bytes changed after it was written.
- `Reads.ReplicateFlush`: which stores failed is an input; a straggler's late registration is a step of `Replication`.
- `Reclaim.NewBlockStore`: the MaxGen agreement check, the reconciliation of metadata with chunks, the retiring of corrupt sources and the clearing of temporary directories are left out; the rollback of a failed rename is left out; a crash after moving any part of the reclaimed set is covered. Corrupt blocks reclaimed on a survivor's word were never readable and are outside the view.
- Retention and the garbage collection of empty head series: they delete data on purpose.
- Real file I/O, fsync loss, renames, CRC, DEFLATE, JSON and HTTP: one atomic step or a byte sequence. A crash keeps bytes already written; a checkpoint write may be torn.
- Hash functions and token functions are arbitrary; series identities stand for label sets whose fingerprints are assumed injective.
- Library sorts, binary searches and maps stand for Go's; insertion sorts specify stable ones.
- WAL segment file names are numbered; the lexical order of names equals the numeric one below a million segments.
- Ingesters that take no generations and records without one: replicas may then disagree on generations. Decoding such records is modelled, the theorems are for stamped samples.
- Select's series-only mode, label listing, cardinality and per-tenant counts.
- The logs head and chunk store, the query parsers, and line filters beyond a yes or no per entry; in a log query (not a log-metric one) the label-drop stage is an arbitrary key per stream.
- The admission limits under concurrent flushes, configuration, metrics and handlers.
