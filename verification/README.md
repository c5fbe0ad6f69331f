# A verified model of the mempool observer's consistency core

The observer keeps three views of one changing mempool in agreement: the node's,
an in-memory one and the database's. This project models the code that keeps them
together and proves what it keeps, for every run, every interleaving or every
input:

- **The mempool ledger and its flush** (`MempoolLedger`, `LedgerStore`, `FlushRun`,
  `LedgerEdges`, `GatedFlush`): a live set, a bounded journal and an overflow flag; a consumer
  that reads a prefix, writes it in one transaction and only then drains it.
- **The block gate** (`BlockGate`): the shut flag, the in-flight lock and the time
  ceiling, interleaved with any number of blocks and ticks and a clock.
- **Cluster maintenance** (`ClusterDb`, `ClusterInvariant`, `MembershipRepository`,
  `ClusterStore`, `SpendGraph`, `ClusterRound`, `ClusterUpsert`, `MinedClusters`,
  `ClusterResync`, `ClusterSweep`, `ClusterHistory`, `ClusterReports`, `ClusterSync`,
  `SyncRounds`): versioned tables
  with a denormalised index and a back-link, a work queue that asks the node, and
  the theorem that an incremental resync is a full recomputation of the connected
  components, with the exact condition under which it is.
- **Change streaming** (`ClusterDelta`, `ClusterStream`, `StreamRun`): change sets,
  the server's snapshot, and a browser that starts from a chunked snapshot and
  replays overlapping events.
- **Catching up with the chain** (`CatchUp`): the block table after any run of
  catch-up passes, and what the gauge of missing heights counts.
- **Two algorithms of the browser** (`Deviation`, `Splits`, `Jenks`, `ColorTiers`;
  `CycleCut`): Fisher-Jenks natural breaks over exact reals, and the cycle cut of
  the transaction graph layout.

Code that updates state in place is modelled by classes and loops, each proved
against a function of the old state; the laws are lemmas about those functions and
about runs of the state machines built from them.

## How to read it

The main results, each a statement about all inputs or all runs:

| result | where |
|---|---|
| Incremental resync = full recompute, if and only if no untouched component was mined whole by one block | `ClusterSync.ClusterService.SyncClusters`, `ClusterSweep.ResyncExact` |
| The table's last cell is the optimum; tiers are the runs of an optimal split and none is empty | `Jenks.FinalCellIsMinimum`, `ColorTiers.Scale` |
| A flush and a block coexist only past that block's ceiling | `BlockGate.FlushExcludesBlock` |
| Persisted rows then journal fold to `live` | `FlushRun.LedgerImage` |
| Journal entries are delivered exactly once, in order, because of the lease | `FlushRun.DeliveredOnceInOrder`, `GatedFlush.DeliveredUnderLease` |
| A block's removals are never persisted as evictions | `FlushRun.BlockRemovalsLabelled` |
| The work queue terminates whatever the node and the database answer | `ClusterSync.ClusterService.WorkOff` |
| The table invariant (index, totals, back-links, disjointness) survives every operation | `ClusterInvariant` |
| Snapshot tracks the database whichever calls fail, short only of torn batched inserts; subscribers converge | `SyncRounds.SyncClustersAfterFlush`, `ClusterStore.TearsExactly`, `StreamRun.SubscriberConverges` |
| Cycle cut: reported exactly when a cycle leads there; what is kept is acyclic | `CycleCut.FindCyclicTargets` |
| The block table stays contiguous; the gauge is exact if and only if no height repeats | `CatchUp.BlockService.CatchUp`, `CatchUp.GaugeExact` |

## Assumptions

- A non-empty node reply for a txid contains it, and its txids are distinct
  (`World.WellBehaved`). Truthfulness (`World.Truthful`) and the absence of failed
  calls (`World.Reliable`) are assumed only where a clause says so; everything else
  holds for replies that change from call to call and for any failing call.
- A repository call that fails has committed nothing, except the batched insert,
  which commits batch by batch. A database transaction is one atomic step.
- The cluster tables have one writer at a time. That is what the gate provides
  before its ceiling.
- The resync theorem takes the flush's confirmed txids to carry a mined row: the
  flush classifies a removal as confirmed because it found that row, and a row's
  confirmation is never cleared.
- A block has one height, and the node names a block of height h when asked for
  height h.
- The graph layout passes distinct txids and only edges between them.
- Delta rows persisted by earlier runs were labelled as this code labels them.
- Weights are not negative, so that rounding up to vbytes is what the original does.
- Clients start from an empty map, hold one subscription and lose no message;
  publishes do not overlap.
- Hashes inside a block key are naturals, since fixed-length hexadecimal strings
  compare like the numbers they write.

## Where code and documentation part

- `cluster.rs` promises that every unconfirmed transaction ends up in a cluster. A
  resident that still carries the row of a block since reorganised away can be
  dropped: `ClusterSweep.ReorgForgets` shows it, `ClusterSweep.ResyncExact` says
  exactly when, and `ClusterSweep.NoStaleRowsNoLoss` gives the simple sufficient
  condition.
- The comment on `handle_candidates` argues termination from a detached txid never
  detaching anyone else. That needs a truthful node; the measure used here needs
  nothing of the kind.
- `reconcile_against` has no caller outside its tests. It restores the image law
  exactly when the image it is given is right about every txid on which that image agrees
  with `live` and which the pending journal does not mention
  (`LedgerEdges.ReconcileExact`); an image read too early misleads it.
- Bootstrap seeds the ledger after the block sync, which may already have journalled
  additions. The law then holds exactly when the journal does not contradict the node
  about a txid on which node and database agree (`LedgerEdges.BootstrapExact`).
- `reconstruct_snapshot` replays fifteen days only; `LedgerEdges.WindowForgets` shows
  what that can lose and `LedgerEdges.WindowExact` says when it is enough.
- The `mempool.delta` socket starts a client from `live`, which runs ahead of the
  published deltas: `LedgerEdges.MempoolSocketDiverges` strands one, and
  `LedgerEdges.MempoolSocketExact` says when a client converges.
- The snapshot is meant to mirror the active clusters. A batched insert that fails after
  committing a batch leaves clusters in the tables that no change set mentions:
  `SyncRounds.TornInsertLeavesSnapshotBehind` is such a run, `ClusterStore.TearsExactly`
  says when it happens, and nothing else puts the two apart.
- `missing_heights` says it counts absent heights. It does if and only if no height is
  stored twice; `CatchUp.RepeatHidesGap` is the counterexample.
- `scale` promises that no tier is ever empty. With no finite value there is one tier
  and nothing in it; otherwise the promise holds.
- `findCyclicTargets` says a node never dequeued is stuck in a cycle. It also reports
  everything a cycle leads to.

## Model

| member | source | states |
|---|---|---|
| ClusterDb.ActiveClustersDisjoint | api/src/db/repositories/cluster_membership.rs:147-163 | Under the table invariant any two active clusters have disjoint members, because each transaction row points back at one cluster |
| ClusterDb.OverlapIsHolding | api/src/db/repositories/cluster.rs:91-99 | The overlap form of the lookup finds a cluster if and only if it is active and holds one of the txids |
| ClusterDb.JoinIsHolding | api/src/db/repositories/cluster.rs:101-115 | So does the join form, which goes through the current version of the active clusters |
| ClusterDb.LookupFormsAgree | api/src/db/repositories/cluster.rs:82-119 | Both forms, and the size-dependent choice between them, return exactly the active clusters that hold a txid, on all inputs |
| ClusterInvariant.InsertKeeps | api/src/db/repositories/cluster_membership.rs:105-180 | Inserting a cluster disjoint from the others keeps index, totals, back-links and disjointness, and adds exactly that cluster to the active ones |
| ClusterInvariant.InsertClustersKeep | api/src/db/repositories/cluster_membership.rs:80-103 | So does a batch whose members are pairwise disjoint and apart from every active cluster |
| ClusterInvariant.InsertPrefixKeeps | api/src/db/repositories/cluster_membership.rs:80-103 | So does any committed prefix of a batch whose later part failed |
| ClusterInvariant.ReplaceKeeps | api/src/db/repositories/cluster_membership.rs:196-267 | Recording a new version keeps the invariant and replaces exactly that cluster's chunks, in and out of a trim |
| ClusterInvariant.CloseKeeps | api/src/db/repositories/cluster_membership.rs:278-315 | Closing as merged or evicted keeps the invariant, removes exactly those clusters and clears their back-links |
| ClusterInvariant.ConfirmKeeps | api/src/db/repositories/cluster_membership.rs:338-367 | Confirming keeps the invariant, also for clusters whose trimmed version was left out of the index; transaction rows and their links are unchanged, and exactly confirmed clusters have a confirmation time |
| ClusterInvariant.TrimKeeps | api/src/db/repositories/cluster_membership.rs:373-401 | Shrinking a batch of clusters one by one keeps the invariant up to their index flags, and leaves each with a subset of its members |
| ClusterInvariant.TrimAndConfirmKeeps | api/src/db/repositories/cluster_membership.rs:373-401 | The whole trim-and-confirm transaction restores the full invariant and removes exactly those clusters from the active ones; what they end as is `ClusterHistory.TrimHistory` |
| ClusterHistory.InsertHistory | api/src/db/repositories/cluster_membership.rs:105-180 | An insert ends no cluster, keeps every stored version and leaves every other transaction row as it was |
| ClusterHistory.ReplaceHistory | api/src/db/repositories/cluster_membership.rs:196-267 | So does a new version: the superseded one keeps its chunks, and only old and new members' rows move |
| ClusterHistory.CloseHistory | api/src/db/repositories/cluster_membership.rs:278-315 | The clusters closed end with exactly that status, no confirmation time and the chunks they had; all other endings, versions and rows stand |
| ClusterHistory.ConfirmHistory | api/src/db/repositories/cluster_membership.rs:338-367 | The clusters confirmed end as confirmed at that time with the chunks they had; all other endings, versions and every row stand |
| ClusterHistory.TrimStores | api/src/db/repositories/cluster_membership.rs:392-394 | Trimming a batch, one update per cluster, leaves each with exactly its update's chunks and the age it had |
| ClusterHistory.TrimHistory | api/src/db/repositories/cluster_membership.rs:373-401 | Every trimmed cluster ends confirmed at that time with exactly its update's chunks, whose members link to it; all other endings, versions and rows stand |
| ClusterInvariant.LinkKeeps | api/src/db/repositories/cluster_membership.rs:147-163 | Pointing the members' rows at a cluster that nobody else claims keeps every back-link rightful |
| ClusterInvariant.UnlinkKeeps | api/src/db/repositories/cluster_membership.rs:304-308 | Clearing the links of closed clusters leaves every other link rightful |
| ClusterInvariant.WithInsertedGrows | api/src/db/repositories/cluster_membership.rs:105-180 | After a batch every old cluster is unchanged, each new one is there, and nothing else is |
| MembershipRepository.ClusterTables.InsertIn | api/src/db/repositories/cluster_membership.rs:105-180 | The statements of one insert transaction, run in place, amount to inserting the batch |
| MembershipRepository.ClusterTables.InsertRows | api/src/db/repositories/cluster_membership.rs:105-146 | Cluster and chunk rows after the loop are those of the batch inserted one by one |
| MembershipRepository.ClusterTables.LinkRows | api/src/db/repositories/cluster_membership.rs:147-163 | The back-links after the loop are those of the batch inserted one by one |
| MembershipRepository.ClusterTables.ReplaceChunksIn | api/src/db/repositories/cluster_membership.rs:196-267 | A missing cluster is reported; a closed cluster or an unchanged version changes nothing; otherwise the whole new state |
| MembershipRepository.ClusterTables.Close | api/src/db/repositories/cluster_membership.rs:278-315 | Tables in order stay in order; exactly the clusters among the ids stop being active and end with that status and the chunks they had |
| MembershipRepository.ClusterTables.Confirm | api/src/db/repositories/cluster_membership.rs:320-367 | Tables in order stay in order; exactly the clusters among the ids end, confirmed at that time with the chunks they had, and every transaction row keeps its link |
| MembershipRepository.ClusterTables.Insert | api/src/db/repositories/cluster_membership.rs:62-180 | A cluster apart from the active ones joins them under a new id; the tables stay in order |
| MembershipRepository.ClusterTables.Replace | api/src/db/repositories/cluster_membership.rs:186-267 | Exactly that cluster takes the chunks; the tables stay in order |
| MembershipRepository.ClusterTables.TrimAndConfirm | api/src/db/repositories/cluster_membership.rs:373-401 | Tables in order stay in order; exactly the trimmed clusters end, each confirmed at that time with its update's chunks and their members linked to it |
| MembershipRepository.ClusterTables.TrimAndConfirmIn | api/src/db/repositories/cluster_membership.rs:373-401 | In place, either every update and the confirmation, or nothing when an id is unknown: the transaction whose history is `ClusterHistory.TrimHistory` |
| ClusterStore.Store.FindActiveIdsByTxids | api/src/db/repositories/cluster.rs:82-119 | On success, exactly the active clusters holding one of the txids; a failure promises nothing |
| ClusterStore.Store.FindMinedByTxids | api/src/db/repositories/transaction.rs:71-91 | On success, exactly one row for each of the txids that is mined, with its own block, and no other row |
| ClusterStore.Store.InsertWithMembers | api/src/db/repositories/cluster_membership.rs:62-76 | On success a cluster of exactly these members under a new id; on failure nothing; the invariant either way |
| ClusterStore.Store.InsertManyWithMembers | api/src/db/repositories/cluster_membership.rs:80-103 | The invariant holds and the active clusters grew by exactly the committed batches; callers are told of all of them or, when a batch fails, of none; it succeeds exactly when every needed batch does |
| ClusterStore.StopsShort | api/src/db/repositories/cluster_membership.rs:91-98 | An insert stops short if and only if one of the batches it needs fails |
| ClusterStore.TearsExactly | api/src/db/repositories/cluster_membership.rs:91-98 | It leaves rows behind that nobody is told of if and only if it needs a second batch, the first goes through and a later one fails; ten thousand rows or fewer never tear |
| ClusterStore.Store.ReplaceChunks | api/src/db/repositories/cluster_membership.rs:186-267 | On success exactly that cluster has the new chunks; the invariant either way |
| ClusterStore.Store.ConfirmMany | api/src/db/repositories/cluster_membership.rs:320-367 | On success exactly those clusters stop being active and end confirmed at that time; the invariant either way |
| ClusterStore.Store.TrimAndConfirmMany | api/src/db/repositories/cluster_membership.rs:373-401 | On success exactly those clusters stop being active, each confirmed at that time with exactly its update's chunks and their members linked to it; the invariant either way |
| ClusterStore.Store.MarkEvicted | api/src/db/repositories/cluster_membership.rs:269-271 | On success exactly those clusters stop being active and end as evicted, with the chunks they had |
| ClusterStore.Store.MarkMerged | api/src/db/repositories/cluster_membership.rs:273-275 | On success exactly those clusters stop being active and end as merged, with the chunks they had |
| ClusterDelta.MergeComposes | api/src/services/cluster.rs:797-826 | Applying a merged change set equals applying the first and then the second, and merged sets never upsert and remove the same id |
| ClusterDelta.UpsertApplies | api/src/services/cluster.rs:798-807 | Marking an active cluster upserted amounts to putting it into the view |
| ClusterDelta.RemovalsApply | api/src/services/cluster.rs:808-812 | Marking ids removed amounts to taking them out of the view |
| ClusterDelta.InsertedApplies | api/src/services/cluster.rs:241-256 | Marking a freshly inserted batch amounts to inserting it |
| ClusterDelta.ClusterDeltaSet.Upsert | api/src/services/cluster.rs:798-807 | For every view, an active cluster is put into what the change set makes of it and a closed one taken out; no id becomes both upserted and removed |
| ClusterDelta.ClusterDeltaSet.MergeIn | api/src/services/cluster.rs:817-825 | The loops that merge two change sets compute their composition |
| SpendGraph.SameComponent | api/src/services/cluster.rs:153-160 | Every member of a component has that same component: the groups the node reports partition the mempool |
| SpendGraph.SurvivorsStayTogether | api/src/services/cluster.rs:153-160 | A component that loses nobody stays connected, whatever else happens to the mempool |
| SpendGraph.NewcomerJoins | api/src/services/cluster.rs:153-160 | If an intact component is no longer a component, someone who was not there before has joined it |
| ClusterRound.PlacedShrinks | api/src/services/cluster.rs:226-238 | Placing a reported group strictly shrinks the set of txids the queue may still have to ask about |
| ClusterRound.CoverShrinks | api/src/services/cluster.rs:184-204 | So does covering a txid the node does not know |
| ClusterRound.PlacedComplete | api/src/services/cluster.rs:226-238 | Placing a component keeps: nothing wanted is lost, what was covered is settled, nobody turns up unasked |
| ClusterRound.FlushedAchieves | api/src/services/cluster.rs:239-256 | Once the queue is empty and the singletons are inserted, everyone asked about has their component as a cluster |
| ClusterUpsert.MergedUpserts | api/src/services/cluster.rs:527-610 | Folding the overlapped clusters into the oldest keeps or detaches every member and touches nobody else |
| ClusterUpsert.ReplacedUpserts | api/src/services/cluster.rs:527-610 | The kept cluster then has exactly the reported group; whoever left it is detached |
| ClusterSync.ClusterService.Upsert | api/src/services/cluster.rs:527-610 | Inserts, or merges into the oldest overlapped cluster; on every failing path the change set still matches what callers know, a cluster it sets has exactly the reported chunks and the age it had or the round's, and detached txids are those it left behind |
| ClusterSync.ClusterService.MergeInto | api/src/services/cluster.rs:550-610 | The merging branch, with each of its repository calls allowed to fail |
| ClusterSync.ClusterService.Advance | api/src/services/cluster.rs:179-239 | One dequeue: the work left strictly decreases, buffered singletons stay apart from active clusters, every cluster set or buffered has exactly a reply's chunks; a reply admits its members to the ledger, a miss dismisses the txid, each journalled when it flips |
| ClusterSync.ClusterService.WorkOff | api/src/services/cluster.rs:169-239 | The queue empties for any replies and any failures; the measure is the txids still to ask about, then the queue length |
| ClusterSync.ClusterService.InsertBuffered | api/src/services/cluster.rs:241-259 | Singletons are inserted apart from every active cluster; whether or not the insert fails, the change set accounts for exactly what callers were told of |
| ClusterSync.ClusterService.HandleCandidatesCovering | api/src/services/cluster.rs:169-259 | Terminates; whichever calls fail, every active cluster stands as it stood or has exactly the chunks of a reply, with the age it had or the round's, and the change set accounts for exactly the clusters callers were told of; with a truthful node every candidate has its component and no resident is lost |
| ClusterReports.SetsKnown | api/src/services/cluster.rs:527-610 | Setting a cluster to reported chunks keeps every cluster untouched or as reported, and its age |
| ClusterReports.GrownKnown | api/src/services/cluster.rs:621-626 | So does inserting buffered singletons, all of them or only the batches that committed |
| ClusterReports.KnownAlong | api/src/services/cluster.rs:100-151 | Rounds in a row: what the first left and the second set is untouched since the first or as reported |
| ClusterSync.BufferSeparate | api/src/services/cluster.rs:221-229 | The buffered singletons overlap neither an active cluster nor each other |
| ClusterSync.UntoldBatch | api/src/db/repositories/cluster_membership.rs:91-98 | With a batch left behind, no change set that fitted the tables before fits them after |
| MinedClusters.SplitCluster | api/src/services/cluster.rs:677-699 | The loop splits the members into mined and pending, both in mining order, with nothing lost or doubled |
| MinedClusters.TrimConserves | api/src/services/cluster.rs:671-707 | For every cluster and block, mined and pending are the two sides of one sieve of its members |
| MinedClusters.TrimConservesValue | api/src/services/cluster.rs:656-699 | Where chunks are worth the sum of their members and the block values its members alike, fees and weights of the mined chunks and of the pending txids add up to the cluster's |
| MinedClusters.WholeChunksKept | api/src/services/cluster.rs:678-699 | A chunk the block mined whole is kept verbatim |
| MinedClusters.GroupedHolds | api/src/services/cluster.rs:718-737 | Each mined row lands in its own block's group and nothing else does |
| MinedClusters.GroupedValues | api/src/services/cluster.rs:718-737 | With one row per txid, each group has the fee and weight of exactly its rows and the time of one of them |
| MinedClusters.ByBlock | api/src/services/cluster.rs:716-746 | The groups come in chain order, hold exactly the rows of their block and are valued by them |
| ClusterSync.TrimsOf | api/src/services/cluster.rs:320-326 | One trim per partly mined cluster, holding exactly what the block mined of it; the pending txids are exactly their members outside the block |
| ClusterSync.ClusterService.ConfirmMinedInner | api/src/services/cluster.rs:282-363 | Every cluster with a member in the block closes, confirmed at the block's time with exactly its mined chunks; pending members are asked about; nobody returns who was not held outside the block or in such a one's component |
| ClusterReports.BlockIsLogged | api/src/services/cluster.rs:282-345 | Confirming the wholly mined clusters and trimming the others confirms every cluster the block touched, whole or with exactly what it mined |
| ClusterSync.ClusterService.ConfirmMined | api/src/services/cluster.rs:261-281 | With no failed call and a node silent about the block, no active cluster holds a block txid |
| ClusterSync.ClusterService.FindActiveClustersContaining | api/src/services/cluster.rs:365-390 | The active clusters holding one of the txids; none when a lookup fails |
| ClusterSync.ClusterService.HandleConfirmed | api/src/services/cluster.rs:396-441 | Untouched clusters hold no confirmed txid; a component is let go exactly when its cluster has a confirmed member and one block mined all of it |
| ClusterSync.ClusterService.HandleEvicted | api/src/services/cluster.rs:445-521 | Untouched clusters hold no evicted txid, no other resident is lost, and every cluster left with nobody is closed as evicted |
| ClusterSync.SortEvicted | api/src/services/cluster.rs:476-503 | Emptied clusters are exactly those with no resident member left outside the eviction; survivors are the remaining residents of the others |
| ClusterSync.ClusterService.SyncClusters | api/src/services/cluster.rs:100-151 | With a truthful node and no failed call, clusters that were the old mempool's components become exactly the new one's if and only if no component that nothing joined is swept out; in every run active clusters stay disjoint, each is as it was or as reported, and the change set accounts for exactly what callers were told of |
| ClusterResync.UntouchedSurvives | api/src/services/cluster.rs:100-151 | An old component that no departure and no arrival touched is a component still |
| ClusterResync.ResyncIsRecompute | api/src/services/cluster.rs:95-259 | Given what the stages guarantee, the active clusters are exactly the components of the new mempool |
| ClusterSweep.WipedIff | api/src/services/cluster.rs:411-438 | The blocks grouped from the looked-up rows wipe a component exactly when one block mined all of it and its cluster was looked up |
| ClusterSweep.SweepOne | api/src/services/cluster.rs:436-438 | Confirming one more block lets go of the components it mined whole, keeps those already let go away, and keeps every other one in one cluster |
| ClusterSweep.BlocksSweep | api/src/services/cluster.rs:396-441 | The same in terms of the inputs: confirmed txids, old clusters and mined rows |
| ClusterSweep.ResyncExact | api/src/services/cluster.rs:95-151 | The resync is a full recomputation if and only if no quiet component lies whole in one mined block while its old cluster has a confirmed member |
| ClusterSweep.NoStaleRowsNoLoss | api/src/services/cluster.rs:153-160 | As long as no resident outside the added list carries a mined row, nobody is dropped |
| ClusterSweep.ReorgForgets | api/src/services/cluster.rs:396-441 | A concrete family in which a resident with a stale mined row is dropped |
| SyncRounds.SyncClustersAfterFlush | api/src/services/cluster.rs:95-151 | Whichever calls failed, the published snapshot is what callers were told of the tables: part of them always, all of them unless a batched insert has ever torn; the resync theorem carries over |
| SyncRounds.ConfirmMined | api/src/services/cluster.rs:261-281 | The same for a block; with no failed call and a node silent about it, neither tables nor snapshot hold a block txid |
| SyncRounds.TornInsertLeavesSnapshotBehind | api/src/db/repositories/cluster_membership.rs:80-103 | A run in which one row past a full batch and a failing second call leave the snapshot short of the tables |
| SyncRounds.FlushCovers | api/src/services/mempool_reconciler.rs:140-179 | A batch's removals and additions cover whoever left, arrived, or did both: what the resync theorem asks of its caller |
| MempoolLedger.FoldTwice | shared/src/snapshot/mempool.rs:221-233 | Folding a batch twice equals folding it once, so an image that already includes an undrained batch does no harm |
| MempoolLedger.FoldPointwise | api/src/db/repositories/mempool_delta.rs:105-136 | After a fold, a txid's residency depends on the start only if no entry mentions it |
| MempoolLedger.PushAllAppends | shared/src/snapshot/mempool.rs:35-46 | Pushing a list appends exactly what fits under the cap and degrades exactly when something did not |
| MempoolLedger.DiffFolds | shared/src/snapshot/mempool.rs:113-130 | Folding the difference of two residencies onto the first gives the second |
| MempoolLedger.DiffSpells | shared/src/snapshot/mempool.rs:116-128 | A difference spells out every arrival and then every departure, each once and with its time |
| MempoolLedger.PresentMoves | shared/src/snapshot/mempool.rs:133-140 | Asserting presence adds exactly the listed txids to `live` and journals exactly those that were missing, each once, in list order and dated, as far as the journal has room |
| MempoolLedger.AbsentMoves | shared/src/snapshot/mempool.rs:143-150 | Asserting absence takes exactly the listed txids out of `live` and journals exactly those that were there, each once, in list order and dated, as far as the journal has room |
| MempoolLedger.NetDelta | shared/src/snapshot/mempool.rs:84-103 | For a batch whose entries flip membership, the net change equals folding the whole batch, added is disjoint from the image and removed inside it |
| MempoolLedger.BatchCovers | shared/src/snapshot/mempool.rs:261-269 | A batch's distinct adds and removes cover the difference it makes to any image |
| LedgerStore.SharedLedger.PushEntry | shared/src/snapshot/mempool.rs:35-46 | Accepted below the cap; otherwise nothing but the flag changes |
| LedgerStore.SharedLedger.MarkPresent | shared/src/snapshot/mempool.rs:133-140 | The loop: `live` gains exactly the listed txids; whoever was missing is journalled once, in list order, as far as the journal has room |
| LedgerStore.SharedLedger.MarkAbsent | shared/src/snapshot/mempool.rs:143-150 | The loop: `live` loses exactly the listed txids; whoever was there is journalled once, in list order, as far as the journal has room |
| LedgerStore.SharedLedger.SubmitAuthoritative | shared/src/snapshot/mempool.rs:113-130 | `live` becomes the submitted set and the journal gets the difference, adds before removes |
| LedgerStore.SharedLedger.ReconcileAgainst | shared/src/snapshot/mempool.rs:217-257 | The journal gets the difference between `live` and the image with the pending journal folded in; the flag clears exactly when it all fits |
| LedgerStore.SharedLedger.BeginFlush | shared/src/snapshot/mempool.rs:156-167 | None exactly when nothing is pending; otherwise a batch that stays the front of the journal however it grows, and that by itself brings any image the journal brings to `live` there |
| LedgerStore.SharedLedger.Commit | shared/src/snapshot/mempool.rs:61-68 | If the front of the journal is the batch, a database that has written it lacks exactly what is left: the two fold to what the whole journal did |
| LedgerStore.ResidencyDelta | shared/src/snapshot/mempool.rs:84-103 | The two loops compute the net added and net removed txids |
| LedgerStore.DistinctTxids | shared/src/snapshot/mempool.rs:261-269 | Exactly the txids moving in the direction, each once |
| FlushRun.NextKeeps | api/src/services/mempool_reconciler.rs:91-145 | Every step of producers, blocks and the consumer keeps delivery, image, flips and labels |
| FlushRun.LedgerImage | shared/src/snapshot/mempool.rs:32-167 | In every reachable state that is not degraded, persisted rows followed by the journal fold from the empty set to exactly `live`, reconciliation included |
| FlushRun.DeliveredOnceInOrder | api/src/services/mempool_reconciler.rs:91-145 | Over every run of appends, failed, preempted and successful writes and commits of one consumer, persisted rows followed by the pending journal are the accepted entries, once and in order |
| GatedFlush.OneBatchOutstanding | api/src/services/mempool_reconciler.rs:99-110 | With any number of ticks, at most one has a batch outstanding, because having one means holding the lease |
| GatedFlush.DeliveredUnderLease | api/src/services/mempool_reconciler.rs:91-145 | In every interleaving of ticks, blocks, producers and the clock under the gate, delivery is exactly once and in order and the image law holds |
| FlushRun.BlockRemovalsLabelled | api/src/services/block.rs:199-204 | A removal journalled by a block after its transaction committed is, wherever persisted, persisted as confirmed, even past the gate's ceiling |
| FlushRun.ReasonsJustified | api/src/db/repositories/mempool_ledger.rs:112-130 | In every reachable state a row is persisted as an addition if and only if its entry is one, and a row persisted as confirmed is a removal of a confirmed txid |
| FlushRun.EvictionsUnconfirmed | api/src/db/repositories/mempool_ledger.rs:98-130 | A removal written as evicted had no confirmation when its flush began; one written as confirmed has one |
| FlushRun.PublishedDeltaIsNet | shared/src/snapshot/mempool.rs:84-103 | In every run free of overflow since the seed, applying a written batch's net change to the image before it gives the residency the database then holds |
| LedgerEdges.ReconcileExact | shared/src/snapshot/mempool.rs:217-257 | A repair that fits restores the image law if and only if the image it was given is right about every txid on which that image agrees with `live` and which the pending journal does not mention |
| LedgerEdges.StaleImageMisleads | shared/src/snapshot/mempool.rs:217-257 | An image read before a batch was drained clears the flag and leaves the law broken |
| LedgerEdges.BootstrapExact | api/src/services/bootstrap.rs:137-200 | Seeding and submitting over a journal keeps the law if and only if the journal does not contradict the node where node and database agree |
| LedgerEdges.BootstrapOverJournalDiverges | api/src/services/bootstrap.rs:77-91 | A journalled addition the node has dropped since breaks the law |
| LedgerEdges.WindowExact | api/src/db/repositories/mempool_delta.rs:105-136 | Replaying the window gives the true residency if and only if everyone resident at the cutoff has moved since |
| LedgerEdges.WindowForgets | api/src/db/repositories/mempool_delta.rs:105-136 | A txid that arrived before the cutoff and was never mentioned again is forgotten |
| LedgerEdges.MempoolSocketDiverges | api/src/controllers/websocket/streams.rs:25-35 | A client started from `live` keeps a txid that left before its arrival was flushed |
| LedgerEdges.StrandedExactly | shared/src/snapshot/mempool.rs:84-103 | After the batch that publishes what it had already seen, such a client is wrong about exactly the txids the batch cancels out and it has the wrong way round |
| LedgerEdges.MempoolSocketExact | api/src/controllers/websocket/streams.rs:25-35 | It ends up right if and only if every txid that batch strands is moved on net by a later one |
| LedgerEdges.LookUpConfirmed | api/src/db/repositories/mempool_ledger.rs:98-110 | Chunk by chunk, exactly removed txids with a confirmation, at least those confirmed before the first lookup; preemption stops it |
| LedgerEdges.WriteDeltas | api/src/db/repositories/mempool_ledger.rs:93-144 | One row per entry in order, an addition exactly for an add, confirmed exactly for a removal found confirmed, evicted exactly for any other; confirmed and evicted partition the removed txids; a preempted write yields nothing |
| BlockGate.Gate.IsHeld | api/src/infra/block_gate.rs:94-108 | Held exactly below the ceiling; an expired gate is reopened by the test |
| BlockGate.Gate.TryBeginFlush | api/src/infra/block_gate.rs:81-89 | A lease exactly when nobody is in flight and the gate is not shut |
| BlockGate.NextKeepsFlag | api/src/infra/block_gate.rs:58-115 | Every step keeps: while a guard lives the flag carries its arrival or the ceiling has passed |
| BlockGate.FlushExcludesBlock | api/src/infra/block_gate.rs:58-115 | In every interleaving, a tick with a lease and a block past `acquire` coexist only at or after that block's arrival plus the ceiling |
| BlockGate.ShutExactlyWhileGuarded | api/src/infra/block_gate.rs:94-115 | The gate is shut if and only if some guard lives that is below its ceiling, cancelled acquires included |
| BlockGate.OneLease | api/src/services/mempool_reconciler.rs:99-106 | At most one tick holds the lease, so at most one batch is outstanding |
| ClusterStream.ClusterDeltaService.Upsert | shared/src/snapshot/cluster.rs:109-122 | The snapshot holds the cluster; it is reported exactly when that changed something, with its members, fees, sizes and age |
| ClusterStream.ClusterDeltaService.Remove | shared/src/snapshot/cluster.rs:124-131 | The snapshot no longer holds the id; true exactly when it did |
| ClusterStream.ClusterDeltaService.Publish | api/src/services/cluster_delta.rs:59-91 | The snapshot becomes the change set applied to it, and the event sent, if any, turns any picture of the old clusters into a picture of the new |
| ClusterStream.ClusterDeltaService.GetCurrentChunked | shared/src/snapshot/cluster.rs:169-191 | Frames of bounded size that carry each active cluster exactly once, with its members, fees, sizes and age |
| ClusterStream.ClusterDeltaService.GetCurrentSnapshot | api/src/services/cluster_delta.rs:45-53 | At least one frame, even when nothing is active; together each cluster exactly once, with its members, fees, sizes and age |
| ClusterStream.ShownOnce | shared/src/snapshot/cluster.rs:61-77 | There is exactly one reference with the cluster's fee and age, its size in vbytes rounded up, and chunk by chunk the same |
| ClusterStream.RefsShow | shared/src/snapshot/cluster.rs:61-77 | The references of a view are exactly the map that shows each of its clusters |
| ClusterStream.InFrames | shared/src/snapshot/cluster.rs:169-191 | Cutting into frames loses and reorders nothing |
| ClusterStream.ListingRebuilds | web/src/hooks/useClusterDeltaSocket.ts:38-59 | Consuming a listing from an empty map rebuilds the listed clusters exactly |
| ClusterStream.ApplyDelta | web/src/hooks/useClusterDeltaSocket.ts:38-59 | The two loops over copies amount to applying the event to the live map, removals last, with a frozen view untouched |
| ClusterStream.ReduceFollows | web/src/hooks/useClusterDeltaSocket.ts:38-77 | The live map follows events whether or not the view is paused; every cluster shown has a revision and is marked new exactly at its first |
| ClusterStream.PauseHolds | web/src/hooks/useClusterDeltaSocket.ts:61-77 | Pausing freezes what is visible, events do not disturb it, and resuming shows what is live by then |
| StreamRun.NextKeeps | api/src/services/cluster_delta.rs:59-91 | Every step keeps: replaying what a client has not consumed onto its map gives the server's snapshot |
| StreamRun.SubscriberConverges | api/src/controllers/websocket/streams.rs:15-24 | For every interleaving of subscribing, reading and publishing, a client that has consumed everything shows exactly the server's clusters, with their members, fees, sizes and ages |
| CatchUp.HeightsPerRow | api/src/db/repositories/block.rs:72-88 | There are never more heights than rows, and as many if and only if no height repeats |
| CatchUp.GaugeExact | api/src/db/repositories/block.rs:71-88 | The gauge equals the number of absent heights if and only if no height is stored twice, and never exceeds it |
| CatchUp.RepeatHidesGap | api/src/db/repositories/block.rs:71-88 | Two blocks at one height make the gauge read zero over a gap |
| CatchUp.ContiguousGauge | api/src/db/repositories/block.rs:72-88 | With one row per height, the gauge reads zero if and only if the heights are contiguous |
| CatchUp.AppendKeeps | api/src/db/repositories/block.rs:45-54 | Storing the block right above the highest is never a repeat and keeps the table contiguous |
| CatchUp.BlockService.ApplyBlock | api/src/services/block.rs:164-201 | Stores that block or nothing; the table stays contiguous and starts where it did, or at this block if it was empty |
| CatchUp.BlockService.Backfill | api/src/services/block.rs:131-149 | In height order up to the first failure; the table starts where it did, or at the first of the heights; on success the highest row is the tip |
| CatchUp.BlockService.CatchUp | api/src/services/block.rs:99-151 | Whatever fails and however the tip moves, the table only grows and stays contiguous; it starts where it did, or, once something is stored in an empty one, at the first tip read; success means the tip of the last pass was reached |
| CatchUp.BlockService.SyncMissingBlocks | api/src/services/block.rs:85-95 | Retrying ends with a reached tip or with the process; the gauge reads zero and no height is missing |
| Deviation.MeanIsBest | web/src/lib/colorTiers.ts:70-75 | The running-sum form of the deviation is the least sum of squared distances to any centre, attained only at the mean |
| Deviation.SplitPays | web/src/lib/colorTiers.ts:46-88 | Splitting a sorted run at a step strictly lowers the total deviation |
| Splits.Refine | web/src/lib/colorTiers.ts:47-53 | A split with fewer runs than distinct values can be refined at a strict gain |
| Splits.NoStraddle | web/src/lib/colorTiers.ts:89-98 | An optimal split with a distinct value for every run never separates equal values |
| Jenks.CellBelow | web/src/lib/colorTiers.ts:61-88 | No split into that many runs undercuts the table cell |
| Jenks.PathCosts | web/src/lib/colorTiers.ts:65-88 | The remembered boundaries form a split that costs exactly the cell |
| Jenks.PathOptimal | web/src/lib/colorTiers.ts:46-98 | With a distinct value for every class, the remembered split has exactly that many runs and none is cheaper |
| Jenks.FinalCellIsMinimum | web/src/lib/colorTiers.ts:46-88 | The last cell is the least total deviation over all splits into that many non-empty runs |
| Jenks.BoundaryEarliest | web/src/lib/colorTiers.ts:79-82 | Of equally cheap last boundaries the table remembers the first |
| Jenks.RelaxRow | web/src/lib/colorTiers.ts:78-83 | The innermost loop, in place: every cell of the row is relaxed through one boundary, ties going to the earlier one |
| Jenks.FillRow | web/src/lib/colorTiers.ts:65-88 | The running sums and the descending boundaries leave the row at the recurrence's values |
| Jenks.FillTables | web/src/lib/colorTiers.ts:55-88 | Both tables, filled in place, hold the recurrence and its earliest minimisers |
| Jenks.Backtrack | web/src/lib/colorTiers.ts:89-98 | The breaks are the last values of the remembered runs, and no step of the backtrack needs either clamp |
| ColorTiers.QuantileBreaks | web/src/lib/colorTiers.ts:30-36 | The interpolated quantiles at equal shares, all of them defined |
| ColorTiers.QuantileMonotone | web/src/lib/colorTiers.ts:17-27 | The quantile grows with p |
| ColorTiers.QuantileAtRank | web/src/lib/colorTiers.ts:17-27 | A rank that is a whole number gives the value at that rank |
| ColorTiers.QuantileLinear | web/src/lib/colorTiers.ts:17-27 | On evenly spaced data the quantile is the value at the fractional rank |
| ColorTiers.BreakInGap | web/src/lib/colorTiers.ts:17-27 | With as many classes as values, each quantile falls strictly inside its own gap |
| ColorTiers.DistinctCount | web/src/lib/colorTiers.ts:39-43 | The loop over sorted data counts the set of its values |
| ColorTiers.JenksBreaks | web/src/lib/colorTiers.ts:46-99 | With enough values, the ends of the runs of the optimal split; otherwise the quantiles |
| ColorTiers.NaturalSeparates | web/src/lib/colorTiers.ts:89-99 | Breaks read off an optimal split fall between its runs |
| ColorTiers.TiersAreRuns | web/src/lib/colorTiers.ts:116-121 | Breaks between the runs of a split make those runs the tiers |
| ColorTiers.SeparatesAscending | web/src/lib/colorTiers.ts:144-145 | Such breaks strictly ascend, so the defensive sort changes nothing |
| ColorTiers.Scale | web/src/lib/colorTiers.ts:128-146 | A tier per distinct value, at least one and at most six; breaks strictly ascend; tiers are the runs of an optimal split of the finite values; no tier is empty if and only if there is a finite value |
| ColorTiers.FiniteOnlyKeeps | web/src/lib/colorTiers.ts:132-132 | Every finite value is kept as often as it occurs |
| CycleCut.NoCycleInOrder | web/src/lib/txDagLayout.ts:186-197 | No cycle meets a dequeue order that lists parents first |
| CycleCut.CycleLeftOut | web/src/lib/txDagLayout.ts:186-199 | Whatever a cycle leads to is never dequeued |
| CycleCut.StuckFromCycle | web/src/lib/txDagLayout.ts:186-199 | Whatever is never dequeued is led to by a cycle |
| CycleCut.KeptAcyclic | web/src/lib/txDagLayout.ts:376-383 | The edges into unreported nodes form no cycle |
| CycleCut.Tally | web/src/lib/txDagLayout.ts:179-184 | The loop counts parents and lists children of every node, repeated edges included |
| CycleCut.Release | web/src/lib/txDagLayout.ts:190-196 | Finishing a node queues exactly the children that wait for nobody else, after all their parents |
| CycleCut.FindCyclicTargets | web/src/lib/txDagLayout.ts:178-200 | A txid is reported if and only if some cycle leads to it; the dequeue order is a topological order of the rest; the kept edges are acyclic |
| CycleCut.ParentLists | web/src/lib/txDagLayout.ts:376-383 | The parent lists hold exactly the edges into nodes no cycle leads to, and climbing them never returns |

## Left out

- RPC and ZMQ clients, retrievers, watchers, HTTP routing and the websocket plumbing: the node is an oracle with the assumptions above.
- SQL planning and isolation levels; id-sorted locking order; insert chunk sizes other than those that decide what can be committed.
- `closed_at`, observation clocks finer than one timestamp per call, metrics, tracing and timers.
- Integer widths: heights, fees, weights and ids are unbounded here and 64-bit in the original; browser numbers are exact reals.
- `insert_hollow_transactions`, backfill queues and the hollow rows' fee upserts: they never touch the delta rows or the cluster tables' invariant.
- `counter_sample.rs`, `count_deltas_in`, `find_by_txid`, snapshot `stats` and `missing_member_count`: easy members that no hard property needs.
- The `quantile` method of `scale`, the colour ramp and `reTier`: the tier theorem is about the default method, and colours only follow the tier count.
- Stub and aggregate nodes of the graph layout: they have no parents, so they cannot close a cycle.
- Backoff and jitter, search-parameter codecs, enum adapters, configuration: true but easy.
- Lagged websocket messages and reconnecting clients: the browser never clears its map, so no convergence can be claimed for them.
- React components, SVG, formatting and `sim.ts`.
