# KalpakDB: a verified model

KalpakDB stores content-addressed cache blocks for language-model inference and
keeps, in a replicated log, which agent has bound which prefix to which blocks.
This project models its three cores in Dafny and proves what they keep over
every run:

* **the replicated metadata state machine** - bindings with reference counters
  and a prefix tree, upload leases with commits, cancellations, deadlines and a
  logical clock, per-block fences, and snapshots;
* **the segment store** - the record format and recovery scan, group commit with
  segment roll, compaction, lock-free readers, write coalescing for direct I/O,
  the two cache tiers over a disk that can decay, and the resumable offline
  sweep;
* **upload retention** - the crash-safe journal of generations and the counted
  write guards that release checks exclude;

and, beside them, the canonical messages that agents sign.

State that the program updates in place is a class here (`MetadataState`,
`BlockStore`, `TieredStore`, `Retention`), its loops are loops, and each method
is proved against a function of the old state. The theorems are then proved of
those functions or as invariants of the classes:

| file | what is in it |
|---|---|
| `core.dfy` | identifiers, options and results, sums over maps |
| `control_state.dfy` | the metadata state and its transitions, as values |
| `control_invariant.dfy` | the invariant of every reachable metadata state |
| `chains.dfy` | chains of bindings, and the reference counters |
| `snapshots.dfy` | snapshots and the checks made on them |
| `block_fences.dfy` | what equal fences at two points of a run mean |
| `lease_lifecycle.dfy`, `commit_once.dfy`, `lease_expiry.dfy` | lease statuses, once-only commits, termination of expiry |
| `state_machine.dfy` | the state machine in place, loop by loop |
| `segment.dfy`, `file_io.dfy` | record format, recovery scan, positioned writes |
| `store_layout.dfy`, `block_store.dfy`, `store_history.dfy` | layout on disk, the block store, whole histories |
| `reader_protocol.dfy` | interleavings of readers, writer and compaction |
| `coalesce.dfy`, `direct_reads.dfy` | coalescing of writes and windows of reads for direct I/O |
| `tiered.dfy` | the cache tiers, one call at a time |
| `tier_steps.dfy`, `tier_invariant.dfy`, `tier_runs.dfy` | the calls of the tiers step by step, what every interleaving keeps, calls with nothing in between |
| `tier_quarantine.dfy` | quarantine under every interleaving |
| `tier_backing.dfy`, `tier_lasting.dfy`, `tier_races.dfy` | exactly when the tiers stay backed by the cold store, and runs in which they do not |
| `scrub.dfy` | the offline sweep |
| `retention_journal.dfy`, `retention.dfy` | the journal, the guards |
| `signing.dfy` | signed messages and their parser |

`dafny verify dfyconfig.toml` checks everything.

## Conventions

* The content hash is a parameter (`Hasher`); nothing is assumed of it except
  where a statement says which payloads do not collide
  (`StoreHistory.ReadsWhatWasPut`).
* Faults are parameters: a failing append says how many bytes landed, an
  eviction names the entries dropped, a decaying record what it now reads as, a
  kill how many checkpoints were saved before it.
* The log is a sequence of entries with strictly rising indices; that is all
  that is assumed of Raft.
* Machine integers are bounded where the source's arithmetic depends on it:
  revisions saturate, clocks and lengths are checked, the scan's 64-bit offsets
  can overflow.

## Where the code and its promises part

* The scan is promised to survive any bytes (`tests/model.rs`), but a header
  declaring a length near 2^64 takes its offset arithmetic out of range: a build
  with overflow checks panics there, and one without them wraps around, which
  this model does not follow. `Segment.ScanOverflowsIff` says for exactly which
  files, `Segment.ScanCanOverflow` gives one.
* The cache tiers are documented as never holding the only copy of a block.
  There are three ways in which they come to, and `TierBacking.StepCovered` and
  `TierBacking.CoveredIff` prove them to be all: a compaction drops a block that
  a read, pin, put or repair in flight is about to cache (`TierRaces.GetRace`); a
  pin takes a block that a compaction has dropped and not yet swept out of a tier
  (`TierRaces.PinRace`); a compaction fails, and leaves without its sweeps, with
  a dropped block still cached. It fails before a swap on a damaged record or an
  I/O error, after the swaps of earlier segments
  (`Tiered.StaleAfterFailedCompact`), or right after a swap, on an undamaged disk
  (`Tiered.StaleAfterLateError`, `TierRaces.LateErrorStrands`).
  `TierLasting.StaysBackedIff` says exactly when the tiers stay backed from a
  given moment on.
* Direct reads are said never to cross the end of a segment file, since files
  grow in whole records. An append that failed part way can leave a page cut
  after its header, and then the read of that header fails and the reopen with
  it, where the portable backend drops the torn record
  (`DirectReads.TornPageStopsDirectScan`). `DirectReads.DirectScanIff` and
  `DirectReads.DirectRestartIff` say for exactly which files and stores.
* A write of length zero is not nothing in direct I/O: its buffer is one page of
  zeros. `Coalescing.NoPaddingIff` says exactly which runs gain no byte; the
  store's own records always qualify.

## Model

| member | source | states |
|---|---|---|
| `ControlInvariant.ReleaseExact` | crates/kalpak-control/src/state_machine.rs:516-525 | giving back blocks that are all counted subtracts exactly; no decrement meets a missing or zero counter, so the saturation never acts |
| `ControlInvariant.AcquireExact` | crates/kalpak-control/src/state_machine.rs:526-528 | counting up adds each occurrence once and leaves no zero entry |
| `ControlInvariant.BindOneKeepsRefs` | crates/kalpak-control/src/state_machine.rs:502-542 | after any bind every counter is again the number of occurrences over all bindings |
| `ControlInvariant.ReserveCases` | crates/kalpak-control/src/leases.rs:139-182 | a reservation either changes nothing and is refused, or is accepted and adds at most one record within both capacities; activation never precedes a refusal |
| `ControlInvariant.ReserveKeepsInv` | crates/kalpak-control/src/leases.rs:133-183 | a reservation keeps the whole invariant |
| `ControlInvariant.CommitKeepsInv` | crates/kalpak-control/src/state_machine.rs:416-447 | a lease commit keeps the whole invariant, including that no two leases hold the same key and revision |
| `ControlInvariant.CancelKeepsInv` | crates/kalpak-control/src/leases.rs:233-252 | a cancellation keeps the whole invariant |
| `ControlInvariant.RenewKeepsInv` | crates/kalpak-control/src/leases.rs:286-347 | a renewal keeps the whole invariant |
| `ControlInvariant.AdvanceKeepsInv` | crates/kalpak-control/src/leases.rs:349-361 | a clock tick keeps the whole invariant |
| `ControlInvariant.ExpireKeepsInv` | crates/kalpak-control/src/leases.rs:363-379 | an expiry marker keeps the whole invariant |
| `ControlInvariant.RequireRaises` | crates/kalpak-control/src/state_machine.rs:448-464 | replica requirements rise to the larger number for exactly the listed blocks and never fall |
| `ControlInvariant.RejectedChangesNothing` | crates/kalpak-control/src/state_machine.rs:373-389 | a refused request of any kind leaves the whole state as it was, given only that an uninitialised lease table is empty |
| `ControlInvariant.ApplyOneKeepsInv` | crates/kalpak-control/src/state_machine.rs:347-390 | every request keeps the invariant, fence table included |
| `ControlInvariant.RunKeepsInv` | crates/kalpak-control/src/state_machine.rs:597-618 | the invariant holds after every log with rising indices |
| `ControlInvariant.ReachableInv` | crates/kalpak-control/src/state_machine.rs:597-618 | every state reached from the empty one satisfies the invariant |
| `Chains.LastLinkWins` | crates/kalpak-control/src/state_machine.rs:479-489 | after a chain each key is bound to its last link, or as before, and its revision has risen once per link, saturating |
| `Chains.ChainEdges` | crates/kalpak-control/src/state_machine.rs:536-541 | a chain adds exactly the tree edges its links declare and loses none |
| `Chains.ChainAllOrNothing` | crates/kalpak-control/src/state_machine.rs:357-388 | a chain is refused as a whole exactly when the fence table has no room for all its blocks; otherwise every link applies and every block named or given up has its fence moved |
| `Chains.ReachableRefsExact` | crates/kalpak-control/src/state_machine.rs:502-535 | in every reachable state a counter is the number of occurrences and exists exactly when some binding names the block |
| `Chains.RefsBounded` | crates/kalpak-control/src/state_machine.rs:526-528 | a counter never exceeds the blocks all bindings list together |
| `Snapshots.LeasesPassValidate` | crates/kalpak-control/src/leases.rs:80-130 | the invariant implies every check of the lease table |
| `Snapshots.InvAccepted` | crates/kalpak-control/src/state_machine.rs:272-328 | a snapshot of a state in the invariant is accepted and restores exactly that state |
| `Snapshots.ReplayIsRun` | crates/kalpak-control/src/state_machine.rs:545-583 | snapshots taken and installed anywhere in a run are never refused and leave no trace |
| `Snapshots.NodesAcceptCorrectSnapshots` | crates/kalpak-control/src/state_machine.rs:630-644 | from the empty state, after any log with snapshots anywhere, the next snapshot passes every check |
| `BlockFences.UntouchedKeepsView` | crates/kalpak-control/src/state_machine.rs:348-372 | a request leaves everything recorded about a block it does not touch |
| `BlockFences.AcceptedMovesFence` | crates/kalpak-control/src/state_machine.rs:382-389 | an accepted request sets the fences of exactly the touched blocks to its position and changes nothing about the others |
| `BlockFences.RunMovesFence` | crates/kalpak-control/src/state_machine.rs:347-390 | over a run, either a block and its fence are as they were or its fence is past the starting position |
| `BlockFences.FenceSound` | crates/kalpak-control/src/state_machine.rs:347-390 | equal fence entries, present or absent, at two points of a run mean the same bindings, counter, replica requirement, leases, commits and deadlines for that block |
| `LeaseLifecycle.CountsAreExact` | crates/kalpak-control/src/leases.rs:267-283 | in every reachable state the four reported numbers count the four statuses and add up to the total, so the subtraction never underflows |
| `LeaseLifecycle.RunEvolves` | crates/kalpak-control/src/leases.rs:233-379 | over every run committed, cancelled and expired are final, a record keeps owner, blocks and position, and deadlines strictly rise with generations |
| `LeaseLifecycle.EntryClock` | crates/kalpak-control/src/leases.rs:349-361 | one entry moves the clock by at most one, and only for the tick it names |
| `LeaseLifecycle.TickOnce` | crates/kalpak-control/src/leases.rs:349-361 | a tick proposed any number of times moves the clock exactly once if the run passes it and never otherwise |
| `LeaseLifecycle.RenewAnswers` | crates/kalpak-control/src/leases.rs:306-346 | a renewal answers what it stored, one past the expected generation, and an exact retry answers the same |
| `CommitOnce.CommitConsumes` | crates/kalpak-control/src/leases.rs:187-231 | a commit makes exactly its own lease committed, at the revision the key then had |
| `CommitOnce.CommitAppliedOnce` | crates/kalpak-control/src/state_machine.rs:416-447 | over any run the binding of a lease is applied once if the lease ends committed and never otherwise |
| `CommitOnce.CommittedForever` | crates/kalpak-control/src/leases.rs:207-217 | a committed record never changes again |
| `CommitOnce.RetryAcknowledged` | crates/kalpak-control/src/leases.rs:207-217 | an exact retry of a consumed lease is acknowledged or finds the fences full, and moves fences only |
| `CommitOnce.RetryOnlyMovesFences` | crates/kalpak-control/src/state_machine.rs:422-446 | the same after any further log, whatever was bound since |
| `CommitOnce.EntryRevision` | crates/kalpak-control/src/state_machine.rs:510-513 | after activation the revision of a key never falls |
| `CommitOnce.CommitsAreOrdered` | crates/kalpak-control/src/leases.rs:226-229 | two leases committed to one key expected strictly rising revisions, in order of commit |
| `CommitOnce.CommitSlotsDiffer` | crates/kalpak-control/src/leases.rs:226-229 | in every reachable state two leases committed to one key differ in expected revision |
| `LeaseExpiry.MarkingRun` | crates/kalpak-control/src/leases.rs:363-379 | a marking run marks exactly the leases picked, touches nothing else, and no marker is refused |
| `LeaseExpiry.RoundProgress` | crates/kalpakdb/src/leases.rs:79-96 | a round brings the last deadline one tick closer, or marks every lease it picked |
| `LeaseExpiry.Drain` | crates/kalpak-control/src/lib.rs:323-331 | with nothing running, sixteen markers a round leave no due lease |
| `LeaseExpiry.ExpiryTerminates` | crates/kalpak-control/src/lib.rs:316-332 | from any reachable state 86,400 clock rounds and 256 marking rounds settle every timed lease, and no request of any round is refused |
| `StateMachine.ReservedBlocks` | crates/kalpak-control/src/leases.rs:162-168 | the loop sums the block counts of all reservations |
| `StateMachine.PickDue` | crates/kalpak-control/src/lib.rs:323-330 | picks distinct due leases, sixteen or all of them |
| `StateMachine.MetadataState.Reserve` | crates/kalpak-control/src/leases.rs:133-183 | the in-place reservation computes the reservation transition, the one the invariants are proved of |
| `StateMachine.MetadataState.Cancel` | crates/kalpak-control/src/leases.rs:233-252 | the in-place cancellation computes the cancellation transition |
| `StateMachine.MetadataState.Renew` | crates/kalpak-control/src/leases.rs:286-347 | the in-place renewal computes the renewal transition |
| `StateMachine.MetadataState.Advance` | crates/kalpak-control/src/leases.rs:349-361 | the in-place tick computes the clock transition |
| `StateMachine.MetadataState.Expire` | crates/kalpak-control/src/leases.rs:363-379 | the in-place marker computes the expiry transition |
| `StateMachine.MetadataState.BindOne` | crates/kalpak-control/src/state_machine.rs:502-542 | the counter loops, the revision and the tree edge together compute the bind transition |
| `StateMachine.MetadataState.BindChain` | crates/kalpak-control/src/state_machine.rs:479-489 | the loop over the links computes the chain transition |
| `StateMachine.MetadataState.CommitLease` | crates/kalpak-control/src/state_machine.rs:416-447 | validation, bind and mark together compute the commit transition |
| `StateMachine.MetadataState.RequireReplicas` | crates/kalpak-control/src/state_machine.rs:448-464 | the copy that is checked before it replaces the table computes the requirement transition |
| `StateMachine.MetadataState.TouchedBlocks` | crates/kalpak-control/src/state_machine.rs:348-372 | collects exactly the blocks whose fence the request would move |
| `StateMachine.MetadataState.ApplyOne` | crates/kalpak-control/src/state_machine.rs:347-390 | one request with its capacity check and fences computes the request transition |
| `StateMachine.MetadataState.Apply` | crates/kalpak-control/src/state_machine.rs:597-618 | a batch of entries leaves the state of the run over them and answers in order |
| `StateMachine.MetadataState.ExpiryRound` | crates/kalpakdb/src/leases.rs:79-96 | the round the leader performs is one of those the termination theorem ranges over |
| `Segment.ParseHeaderExact` | crates/kalpak-storage/src/segment.rs:52-63 | a header parses to an id and length exactly when its first 48 bytes are those the encoder writes for them |
| `Segment.ScanFindsRecords` | crates/kalpak-storage/src/segment.rs:77-108 | whatever follows, encoded records are reported first, in order, at their true offsets |
| `Segment.ScanStopsAtTornRecord` | crates/kalpak-storage/src/segment.rs:86-96 | a record cut anywhere short of its end is not reported and the end of valid data is its start |
| `Segment.ScanAfterCut` | crates/kalpak-storage/src/segment.rs:77-108 | a segment cut at any byte yields exactly its longest run of whole records and their exact end |
| `Segment.ScanOverflowsIff` | crates/kalpak-storage/src/segment.rs:91-96 | with overflow checks, the scan leaves the 64-bit range exactly when whole records, each where the last ends, lead to a header declaring a length past it |
| `Segment.ScanCanOverflow` | crates/kalpak-storage/tests/model.rs:159-173 | one such file, against the promise that no bytes make the scan fail |
| `Segment.EncodeRecord` | crates/kalpak-storage/src/segment.rs:34-43 | the buffer filled in place is the record |
| `Segment.Scan` | crates/kalpak-storage/src/segment.rs:77-108 | the loop reports what the scan function reports |
| `StoreLayout.RebuildIsLiveIndex` | crates/kalpak-storage/src/store.rs:124-134 | on an undamaged disk scanning all segments rebuilds the live index |
| `StoreLayout.RebuildAfterTear` | crates/kalpak-storage/src/store.rs:124-134 | with the last segment cut anywhere past the published records, all of those are found in place and anything else found is a whole record of the failed batch |
| `ColdStore.RebuildIndex` | crates/kalpak-storage/src/store.rs:124-134 | the scan loop over all segments computes that index and the tail, and fails only on a length overflow |
| `ColdStore.BlockStore.constructor` | crates/kalpak-storage/src/store.rs:135-139 | an empty directory gets one empty segment |
| `ColdStore.BlockStore.FlushPending` | crates/kalpak-storage/src/store.rs:479-491 | the pending records land whole, or a failing write leaves any part of them |
| `ColdStore.BlockStore.RollSegment` | crates/kalpak-storage/src/store.rs:225-241 | a full segment is flushed and sealed and the next one starts empty |
| `ColdStore.BlockStore.StagePayload` | crates/kalpak-storage/src/store.rs:212-254 | a payload is staged once, at the tail, unless the index or the batch already has its block |
| `ColdStore.BlockStore.FinishBatch` | crates/kalpak-storage/src/store.rs:256-272 | records are published only after the last flush; a failure publishes nothing |
| `ColdStore.BlockStore.PutMany` | crates/kalpak-storage/src/store.rs:181-273 | a batch returns the ids in order and serves the old blocks plus the new ones; a failure serves the old ones only and refuses all later appends |
| `ColdStore.BlockStore.Get` | crates/kalpak-storage/src/store.rs:276-296 | an indexed block reads back its payload, hashing to its id; any other id is not found |
| `ColdStore.BlockStore.CompactSegment` | crates/kalpak-storage/src/store.rs:323-393 | a rewritten segment loses exactly its dead blocks and keeps the rest readable, in the same segment |
| `ColdStore.BlockStore.Compact` | crates/kalpak-storage/src/store.rs:312-395 | compaction removes exactly the dead ids of sealed segments and counts them |
| `ColdStore.BlockStore.SwapSegment` | crates/kalpak-storage/src/store.rs:372-387 | file and index entries change together and every block kept still reads back |
| `ColdStore.BlockStore.IndexIsRebuilt` | crates/kalpak-storage/src/store.rs:111-151 | at every moment between operations the live index and tail are those a reopen would scan |
| `ColdStore.BlockStore.Reopen` | crates/kalpak-storage/src/store.rs:111-151 | reopening gives the same index and tail |
| `ColdStore.BlockStore.RestartKeepsServed` | crates/kalpak-storage/src/store.rs:111-151 | whatever a failed append left, a restart serves every block served before, and only blocks that verify |
| `StoreHistory.Perform` | crates/kalpak-storage/tests/model.rs:65-143 | one operation keeps the store equal to a plain map, block by block in its segment, and replies what the map does: the ids of a batch in order, the payload or nothing, the number of blocks swept |
| `StoreHistory.RunHistory` | crates/kalpak-storage/tests/model.rs:54-157 | for every history of puts, batches, gets, compactions and reopens, and every hash, the store serves exactly the map, each block in the segment the roll rule gives, every reply is the map's, ids and counts included, and the index is the rebuilt one |
| `StoreHistory.ReadsWhatWasPut` | crates/kalpak-storage/tests/model.rs:92-97 | without hash collisions a block read back is byte for byte the one put |
| `ReaderProtocol.StepKeepsInv` | crates/kalpak-storage/src/store.rs:181-273 | each step of a reader, the writer or a compaction keeps published locations inside synced bytes and other readers' handles intact |
| `ReaderProtocol.ReadersSeeTheirBlock` | crates/kalpak-storage/src/store.rs:283-295 | in every interleaving a captured location and handle still read the payload of their id however much later, and everything published is durable |
| `ReaderProtocol.SwapKeepsInv` | crates/kalpak-storage/src/store.rs:369-387 | swapping a rewritten file under the index disturbs no reader of the old one |
| `Coalescing.AlignWrites` | crates/kalpak-storage/src/uring.rs:196-226 | the nested loops compute one padded buffer per contiguous run, or refuse an unaligned start |
| `Coalescing.FillBuffer` | crates/kalpak-storage/src/uring.rs:215-221 | the buffer holds the joined writes and zeros |
| `Coalescing.NoPaddingIff` | crates/kalpak-storage/src/uring.rs:52-60 | a buffer adds no byte exactly when its run is a non-empty multiple of the alignment |
| `Coalescing.ApplyByte` | crates/kalpak-storage/src/io.rs:40-48 | each byte after a batch of disjoint writes is the one some write puts there or what was there |
| `Coalescing.RunsPutTheSame` | crates/kalpak-storage/src/uring.rs:196-226 | the runs put exactly the bytes of the writes |
| `Coalescing.RunsDisjoint` | crates/kalpak-storage/src/uring.rs:196-226 | runs of disjoint writes are disjoint |
| `Coalescing.ChainIsOneRun` | crates/kalpak-storage/src/uring.rs:193-195 | the pending records of a segment become one aligned write of exactly their bytes |
| `Coalescing.CoalescingPreservesFile` | crates/kalpak-storage/src/uring.rs:228-243 | the runs, applied in any order, leave the file that the writes one by one leave |
| `DirectReads.DirectReadIff` | crates/kalpak-storage/src/uring.rs:251-266 | a direct read gives the bytes asked for, or fails exactly when its window of whole pages crosses the end of the file |
| `DirectReads.DirectPayload` | crates/kalpak-storage/src/uring.rs:256-259 | the payload of every whole record is read as by a plain read |
| `DirectReads.DirectScanIff` | crates/kalpak-storage/src/segment.rs:77-109 | for every file, the scan over direct reads gives what the plain scan gives, or fails exactly when the plain scan ends at a page cut after its header |
| `DirectReads.DirectScanAfterCut` | crates/kalpak-storage/src/segment.rs:77-109 | of a segment cut at any byte: for exactly which cuts the direct scan fails, and what it recovers for all others |
| `DirectReads.TornPageStopsDirectScan` | crates/kalpak-storage/src/uring.rs:256-264 | a record torn right after its header is dropped by the plain scan and fails the direct one |
| `DirectReads.DirectRestartIff` | crates/kalpak-storage/src/store.rs:111-151 | a store's segments scan the same over direct reads, except exactly an active segment that a failed append left cut in a page after a header |
| `Tiered.ColdGet` | crates/kalpak-storage/src/store.rs:276-296 | a cold read that succeeds hashes to its id; only an unindexed id is not found |
| `Tiered.ColdPutAllAdds` | crates/kalpak-storage/src/store.rs:212-272 | storing a batch changes no stored record, adds exactly the batch, and what it adds reads back |
| `Tiered.ColdPutAllServes` | crates/kalpak-storage/src/store.rs:165-170 | on an undamaged store it is the content map of the segment store |
| `Tiered.ColdCompact` | crates/kalpak-storage/src/store.rs:312-395 | compaction drops the dead blocks of the segments before the first one whose rewrite fails, and of that one too if it fails after its swap; it fails exactly if there is one, and with which error |
| `Tiered.TieredStore.constructor` | crates/kalpak-storage/src/tiered.rs:62-80 | both tiers start empty, the pinned budget a quarter of the warm one |
| `Tiered.TieredStore.PutMany` | crates/kalpak-storage/src/tiered.rs:118-128 | taken alone: written through before cached; a failed write caches nothing and leaves the segments it opened |
| `Tiered.TieredStore.Get` | crates/kalpak-storage/src/tiered.rs:133-149 | taken alone: a successful read hashes to its id, quarantine comes first, and a cold hit is promoted |
| `Tiered.TieredStore.Pin` | crates/kalpak-storage/src/tiered.rs:85-101 | taken alone: pins what can be read while the exact sum of pinned lengths stays within budget |
| `Tiered.TieredStore.VerifyCold` | crates/kalpak-storage/src/tiered.rs:158-176 | damage quarantines the block and drops both cached copies; a good read lifts it; an unknown id changes nothing |
| `Tiered.TieredStore.Repair` | crates/kalpak-storage/src/tiered.rs:178-183 | a payload that hashes to the id makes the block readable again and lifts its quarantine; any other changes nothing |
| `Tiered.TieredStore.Compact` | crates/kalpak-storage/src/tiered.rs:191-224 | with no other call in flight: after success both tiers have lost exactly the dropped blocks; after a failure the cache is still backed exactly if nothing cached was dropped, a segment that failed after its swap counted |
| `Tiered.StaleAfterFailedCompact` | crates/kalpak-storage/src/tiered.rs:195-223 | a damaged record leaves the cache serving a block the cold store has dropped |
| `Tiered.StaleAfterLateError` | crates/kalpak-storage/src/store.rs:374-388 | on an undamaged disk, an error after the swap leaves the cache serving the block the same compaction dropped |
| `Tiered.RunTier` | crates/kalpak-storage/src/tiered.rs:85-224 | for calls taken one at a time, with any evictions and any disk decay, reads that answer hash to their id, a block found damaged is refused until verified or repaired, and the cache stays backed if no compaction failed |
| `TierInvariant.StepKeepsInv` | crates/kalpak-storage/src/tiered.rs:85-224 | each step between locks of any call keeps cached bytes and bytes in flight true to their ids, the pinned counter the exact sum within budget, and every answer given true to its id |
| `TierInvariant.RunKeepsInv` | crates/kalpak-storage/src/tiered.rs:85-224 | the same over every interleaving of calls, evictions and disk decay |
| `TierQuarantine.QuarantineRefuses` | crates/kalpak-storage/src/tiered.rs:134-136 | in every interleaving, whatever reads are already past the check, a quarantined block stays so until a verification or repair of it succeeds, and every read that gets to the check meanwhile is refused |
| `TierQuarantine.QuarantineSilences` | crates/kalpak-storage/src/tiered.rs:134-136 | if no read of the block was past the check when it was quarantined, no answer at all serves it meanwhile |
| `TierRuns.GetAlone` | crates/kalpak-storage/src/tiered.rs:133-149 | the steps of a read with nothing in between give the answer of the read taken as one call |
| `TierBacking.StepCovered` | crates/kalpak-storage/src/tiered.rs:85-224 | a step leaves something cached or carried that is neither indexed nor still to be swept exactly if it drops a block some call carries, fails before or after a swap with a dropped block still cached, or takes a dropped block from a tier to pin it |
| `TierBacking.CoveredIff` | crates/kalpak-storage/src/tiered.rs:85-224 | over every interleaving, everything stays covered exactly as long as no step is of those three kinds |
| `TierLasting.StaysBackedIff` | crates/kalpak-storage/src/tiered.rs:85-183 | with no compaction under way, the tiers stay backed whatever calls go on exactly if every block cached or carried by a call in flight is in the cold index |
| `TierLasting.CompactionsKeepBacked` | crates/kalpak-storage/src/tiered.rs:191-224 | compactions that overlap with other calls in any way leave the tiers backed for good if no step was of the three kinds |
| `TierLasting.RunsFromFresh` | crates/kalpak-storage/src/tiered.rs:62-80 | from fresh tiers over any cold store, every run answers only blocks true to their ids and keeps the pinned bytes exact and within budget, and leaves the tiers backed for good if no step was of the three kinds |
| `TierRaces.GetRace` | crates/kalpak-storage/src/tiered.rs:146-147 | a compaction that succeeds and sweeps between a read's cold read and its insert leaves the cache with the only copy |
| `TierRaces.PinRace` | crates/kalpak-storage/src/tiered.rs:89-99 | a pin that begins between the two sweeps of a successful compaction keeps a dropped block pinned |
| `TierRaces.LateErrorStrands` | crates/kalpak-storage/src/store.rs:374-388 | a compaction alone, failing after its first swap, leaves the cache with the only copy |
| `Scrub.VerifiedIff` | crates/kalpak-storage/src/scrub.rs:208-254 | an offset verifies exactly when some whole encoded record with its own hash stands there |
| `Scrub.FindingMeans` | crates/kalpak-storage/src/scrub.rs:214-253 | which header and payload each kind of finding stands for, and the id it names |
| `Scrub.VisitsCover` | crates/kalpak-storage/src/scrub.rs:199-272 | every aligned offset is looked at or lies strictly inside a verified record |
| `Scrub.UndamagedIsClean` | crates/kalpak-storage/src/scrub.rs:199-272 | an undamaged segment has each record looked at once, in place, and nothing to report |
| `Scrub.TallyVisits` | crates/kalpak-storage/src/scrub.rs:199-272 | every offset looked at counts once, as verified or as a finding |
| `Scrub.StepAccepted` | crates/kalpak-storage/src/scrub.rs:170-181 | every checkpoint the sweep saves is one it accepts |
| `Scrub.ResumeAnywhere` | crates/kalpak-storage/src/scrub.rs:163-184 | stopping after any number of checkpoints and resuming ends where an uninterrupted sweep ends |
| `Scrub.FinishTotals` | crates/kalpak-storage/src/scrub.rs:193-276 | the final summary is the starting one plus the totals of the files, each saturated once |
| `Scrub.ReadPayload` | crates/kalpak-storage/src/scrub.rs:227-239 | the 64 KiB chunks fed to the hash are the payload |
| `Scrub.Inspect` | crates/kalpak-storage/src/scrub.rs:203-254 | looking at one offset, branch by branch |
| `Scrub.Sweep` | crates/kalpak-storage/src/scrub.rs:163-276 | one run is refused exactly on a bad checkpoint; otherwise it completes where an uninterrupted sweep ends, or is killed at exactly the checkpoint its budget reached |
| `Scrub.SweepWithRestarts` | crates/kalpak-storage/src/scrub.rs:107-276 | killed and restarted any number of times, it reports exactly the totals of the files |
| `RetentionJournal.ReadBack` | crates/kalpakdb/src/retention.rs:86-122 | a record in place is read back, whatever follows it |
| `RetentionJournal.ReadTorn` | crates/kalpakdb/src/retention.rs:87-109 | a record cut short anywhere ends the journal before it |
| `RetentionJournal.LatestIsLargest` | crates/kalpakdb/src/retention.rs:113-116 | each id maps to the largest sequence number whose batch holds it, and only named ids are mapped |
| `RetentionJournal.RecoverAfterCut` | crates/kalpakdb/src/retention.rs:71-137 | a journal cut at any byte opens, recovers exactly the longest run of whole records, and truncates to the journal of those |
| `RetentionJournal.AcknowledgedSurvives` | crates/kalpakdb/src/retention.rs:123-127 | ids acknowledged before the cut keep their generation unless a surviving later batch names them again |
| `Retention.RecoverFile` | crates/kalpakdb/src/retention.rs:78-122 | the read loop, for any file at all, errors included |
| `Retention.BuildRecord` | crates/kalpakdb/src/retention.rs:182-191 | the bytes appended are the record of the batch |
| `Retention.Retention.Open` | crates/kalpakdb/src/retention.rs:71-137 | opening what an earlier process left gives a healthy store over the records that survived |
| `Retention.Retention.Append` | crates/kalpakdb/src/retention.rs:192-202 | an append is whole and durable before anything else changes, or leaves any part of the record and refuses later appends |
| `Retention.Retention.Protect` | crates/kalpakdb/src/retention.rs:141-210 | a request is refused in the source's order of reasons without effect; otherwise its ids get the next generation and one live guard |
| `Retention.Retention.TryReleaseCheck` | crates/kalpakdb/src/retention.rs:225-251 | a check is granted exactly for the current generation of a block with no writer and no other check |
| `Retention.Retention.DropGuard` | crates/kalpakdb/src/retention.rs:57-68 | dropping a guard finds every counter present and positive and leaves the counts of the guards still alive |
| `Retention.Retention.DropCheck` | crates/kalpakdb/src/retention.rs:46-55 | dropping a check releases that block only |
| `Retention.Retention.Exclusion` | crates/kalpakdb/src/retention.rs:154-161 | no block is under a release check and held by a write guard |
| `Retention.Retention.Restart` | crates/kalpakdb/src/retention.rs:123-127 | a restart over whatever the file holds keeps every acknowledged generation, and at most the failed batch is new |
| `Retention.RunSessions` | crates/kalpakdb/src/retention.rs:71-137 | over any number of processes, each making any calls and ended by a crash at any byte past what was synced, every open succeeds; the generations granted strictly rise over all calls of all processes, each numbers the record of exactly the ids requested, and every such id ends with at least that generation; a request that meets no failing append and no check of its blocks is granted while there is room; beyond the grants only a failed append can use up a number, one a process |
| `Retention.Interleave` | crates/kalpakdb/src/retention.rs:225-251 | in every interleaving of calls, while a check is held its block keeps the generation checked and no writer of it is admitted |
| `Signing.ParseExact` | crates/kalpak-core/src/signing.rs:104-174 | the total parser accepts exactly the bytes the builders write and returns the message they came from |
| `Signing.SignedApart` | crates/kalpak-core/src/signing.rs:22-24 | equal signed bytes come from one of the seven domains only, and a lease message equals no other operation |
| `Signing.PushKey` | crates/kalpak-core/src/signing.rs:104-114 | appends the three length-prefixed strings and the prefix hash |
| `Signing.LeaseBegin` | crates/kalpak-core/src/signing.rs:118-127 | the bytes its loop appends are those that parse to this reservation only |
| `Signing.LeaseCancel` | crates/kalpak-core/src/signing.rs:131-136 | the bytes it appends are those that parse to this cancellation only |
| `Signing.LeaseRenew` | crates/kalpak-core/src/signing.rs:138-150 | the bytes it appends are those that parse to this renewal only |
| `Signing.LeaseCommit` | crates/kalpak-core/src/signing.rs:152-174 | the bytes it appends, optional parent in full, are those that parse to this commit only |

## Left out

- AcquireExact: counters are unbounded here and 32-bit in the source; `Chains.RefsBounded` says what keeps them in range.
- NodesAcceptCorrectSnapshots: the snapshot codec is taken to be lossless, and only the current format is built and read; formats V2 to V5 and the unversioned one, which copy fields, are not modelled.
- ReachableInv: binding keys are the cache keys themselves, not their JSON text, which is one to one.
- ExpiryTerminates: rounds follow one another with no client request between them and with the leader in office; leader changes and failed proposals are not modelled.
- RunHistory: histories have no disk damage and no failing append; failing appends are covered call by call in `PutMany`, `FinishBatch` and `RestartKeepsServed`, damage in the tiers.
- RebuildIndex: a length overflow ends it, as in a build with overflow checks; what a build that wraps around would index is not modelled.
- Reopen: reopens a store whose appends went well; a reopen after a failed append is `RestartKeepsServed`.
- Get: the block store's read is on an undamaged disk, where no record fails its hash; damaged records are read in `Tiered.ColdGet`.
- RestartKeepsServed: is about reads that take only the bytes asked for, as the portable backend's do; over direct reads the reopen may fail, exactly as `DirectReads.DirectRestartIff` says. A failed append is taken to leave a prefix of what it was writing, and bytes past a torn tail that a later, shorter record does not overwrite are not modelled.
- RunTier: takes the calls one at a time; `TierSteps` and the modules over it take them step by step, with the rewrite of one segment up to its swap, and each sweep's look at the index, as single steps.
- StepKeepsInv: for the tiers, that the cache's total weight stays within its budget is left to the cache library; what it evicts is arbitrary.
- StepAccepted: is stated for files of up to 2^64 - 4096 bytes, which no file reaches, as positioned reads take signed 64-bit offsets.
- Sweep: a kill between reporting a finding and saving the checkpoint reports that finding again after the restart; only the counts are modelled, and pacing, file stamps and the digest of the segment list are not.
- SignedApart: the older register, bind and chain messages are only told apart, not decoded; decoding needs strings without NUL bytes.
- Open: a journal is opened from what this program wrote and a crash cut; what any other file does is in `Retention.RecoverFile`, and loss of synced bytes is not modelled.
- Raft itself, its log store, elections, membership changes beyond recording them, and the network transport.
- The HTTP and gRPC servers, clients, authentication, the dashboard, benchmarks and backup.
- BLAKE3, Ed25519, JSON and bincode, which are opaque functions or absent.
- The background scrubber, the repair driver, the manifest and the reclamation endpoint, which repeat the arguments above in easier form.
- Repair in `ColdStore.BlockStore`, which appends a second record of the same block; it is modelled on values in `Tiered.TieredStore.Repair`.
- Statistics counters other than cache hits and misses, and space accounting of compaction.
