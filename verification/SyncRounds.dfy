/** A mutation round from end to end: bring the tables in line, then publish the change set. */
module SyncRounds {
  import opened Common
  import opened ClusterDb
  import opened ClusterDelta
  import opened ClusterResync
  import opened ClusterSweep
  import opened ClusterInvariant
  import opened ClusterStore
  import opened ClusterStream
  import opened ClusterSync
  import opened MempoolLedger
  import opened MinedClusters

  /**
   After a flush: whichever calls failed, the snapshot is what callers were told of
   the tables, which is all of them unless a batched insert ever failed half-way;
   and the tables keep up with the mempool.
   */
  method SyncClustersAfterFlush(service: ClusterService, stream: ClusterDeltaService, added: seq<Txid>,
                                confirmed: seq<Txid>, evicted: seq<Txid>, at: int, ghost was: set<Txid>)
    requires service.store.Valid() && service.World().WellBehaved()
    requires stream.snapshot == service.store.shown
    modifies service.store, service.store.tables, service.store.outside, service.ledger, stream
    ensures service.store.Valid() && service.store.mined == old(service.store.mined)
    ensures stream.snapshot == service.store.shown && PartOf(stream.snapshot, service.store.view)
    ensures !service.store.torn ==> stream.snapshot == service.store.view
    ensures old(service.store.torn) ==> service.store.torn
    ensures service.World().Reliable() ==> service.store.torn == old(service.store.torn)
    ensures
      && old(service.Ideal())
      && Recomputed(service.World().spends, was, old(service.store.view))
      && Covers(was, service.World().pool, Elements(confirmed) + Elements(evicted), Elements(added))
      && Elements(confirmed) <= service.store.mined.Keys
      ==> (Recomputed(service.World().spends, service.World().pool, service.store.view)
           <==> !Forgets(service.World(), old(service.store.view), Elements(confirmed), service.store.mined,
               Elements(added)))
    ensures PairwiseDisjoint(service.store.view)
  {
    var changes := service.SyncClusters(added, confirmed, evicted, at, was);
    NoChangeApplies(stream.snapshot);
    if changes != NoChange {
      stream.Publish(changes);
    }
  }

  /** A new block: its clusters close, and the snapshot follows. */
  method ConfirmMined(service: ClusterService, stream: ClusterDeltaService, block: MinedBlock, at: int)
    requires service.store.Valid() && service.World().WellBehaved()
    requires stream.snapshot == service.store.shown
    modifies service.store, service.store.tables, service.store.outside, service.ledger, stream
    ensures service.store.Valid()
    ensures stream.snapshot == service.store.shown && PartOf(stream.snapshot, service.store.view)
    ensures !service.store.torn ==> stream.snapshot == service.store.view
    ensures old(service.store.torn) ==> service.store.torn
    ensures service.World().Reliable() ==> service.store.torn == old(service.store.torn)
    ensures service.World().Reliable() && service.World().Shunning() && block.Members() <= service.World().shunned ==>
      HeldBy(service.store.view) !! block.Members() && HeldBy(stream.snapshot) !! block.Members()
  {
    var changes := service.ConfirmMined(block, at);
    stream.Publish(changes);
    PartHeld(stream.snapshot, service.store.view);
  }

  /** One row past a full batch, with the second call failing: the tables move on and the snapshot stays behind. */
  method TornInsertLeavesSnapshotBehind(store: Store, stream: ClusterDeltaService, news: seq<NewCluster>)
    requires store.Valid() && Separate(store.view, news) && stream.snapshot == store.shown == store.view
    requires |news| == INSERT_BATCH_SIZE + 1
    requires store.outside.world.ok(store.outside.calls) && !store.outside.world.ok(store.outside.calls + 1)
    modifies store, store.tables, store.outside
    ensures store.Valid() && store.torn
    ensures stream.snapshot == store.shown && stream.snapshot != store.view
  {
    assert FailsAt(store.outside.world.ok, store.outside.calls, 0, |news|, 1);
    ghost var before := store.view;
    var ok, firstId, committed := store.InsertManyWithMembers(news);
    WithInsertedGrows(before, firstId, news[..committed]);
    assert Joined(before, store.view, Fresh(news[0].chunks, news[0].firstSeenAt)) by {
      assert news[..committed][0] == news[0];
    }
  }

  /**
   Why a flush has what the resync needs: the batch's removals, however they are
   labelled, and its additions cover the difference between the residency before
   and after it.
   */
  lemma FlushCovers(image: set<Txid>, batch: seq<JournalEntry>, confirmed: set<Txid>, evicted: set<Txid>)
    requires confirmed + evicted == Moving(batch, Remove)
    ensures Covers(image, Fold(image, batch), confirmed + evicted, Moving(batch, Add))
  {
    BatchCovers(image, batch);
  }
}
