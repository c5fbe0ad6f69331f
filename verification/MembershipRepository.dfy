/**
 The cluster tables as the repository updates them: one statement after another
 inside each transaction. Every method is proved to leave the tables exactly as
 the corresponding transaction in `ClusterDb` says.
 */
module MembershipRepository {
  import opened Common
  import opened ClusterDb
  import opened ClusterInvariant
  import opened ClusterHistory

  lemma LinkThenHollow(txs: map<Txid, TxRow>, members: set<Txid>, everyone: set<Txid>, id: int)
    requires members <= everyone
    ensures Link(InsertHollow(txs, everyone), members, id)
         == InsertHollow(Link(InsertHollow(txs, members), members, id), everyone)
  {
  }

  function BatchMembers(batch: seq<NewCluster>): set<Txid> {
    if batch == [] then {} else BatchMembers(batch[..|batch| - 1]) + MembersOf(batch[|batch| - 1].chunks)
  }

  lemma {:induction false} BatchMembersHold(batch: seq<NewCluster>, i: int)
    requires 0 <= i < |batch|
    ensures MembersOf(batch[i].chunks) <= BatchMembers(batch)
  {
    if i < |batch| - 1 {
      BatchMembersHold(batch[..|batch| - 1], i);
    }
  }

  lemma {:induction false} BatchMembersStored(db: Db, batch: seq<NewCluster>)
    ensures BatchMembers(batch) <= InsertClusters(db, batch).txs.Keys
    ensures db.txs.Keys <= InsertClusters(db, batch).txs.Keys
  {
    if batch != [] {
      BatchMembersStored(db, batch[..|batch| - 1]);
    }
  }

  lemma InsertNext(db: Db, batch: seq<NewCluster>, k: int)
    requires 0 <= k < |batch|
    ensures InsertClusters(db, batch[..k + 1])
         == InsertCluster(InsertClusters(db, batch[..k]), batch[k].chunks, batch[k].firstSeenAt)
  {
    assert batch[..k + 1][..k] == batch[..k];
  }

  lemma LinkNext(db: Db, batch: seq<NewCluster>, k: int)
    requires 0 <= k < |batch|
    ensures var before, after := InsertClusters(db, batch[..k]), InsertClusters(db, batch[..k + 1]);
            && after.nextId == before.nextId + 1
            && InsertHollow(after.txs, BatchMembers(batch))
               == Link(InsertHollow(before.txs, BatchMembers(batch)), MembersOf(batch[k].chunks), before.nextId)
  {
    InsertNext(db, batch, k);
    BatchMembersHold(batch, k);
    var before := InsertClusters(db, batch[..k]);
    LinkThenHollow(before.txs, MembersOf(batch[k].chunks), BatchMembers(batch), before.nextId);
  }

  lemma NothingHollow(txs: map<Txid, TxRow>, members: set<Txid>)
    requires members <= txs.Keys
    ensures InsertHollow(txs, members) == txs
  {
  }

  class ClusterTables {
    var clusters: map<int, ClusterRow>
    var chunks: map<VersionKey, seq<StoredChunk>>
    var txs: map<Txid, TxRow>
    var nextId: int

    constructor ()
      ensures Contents() == Db(map[], map[], map[], 1)
    {
      clusters, chunks, txs, nextId := map[], map[], map[], 1;
    }

    function Contents(): Db
      reads this
    {
      Db(clusters, chunks, txs, nextId)
    }

    /** Rows and chunks, then member rows, then links, for a whole batch of new clusters. */
    method InsertIn(batch: seq<NewCluster>)
      modifies this
      ensures Contents() == InsertClusters(old(Contents()), batch)
    {
      ghost var before := Contents();
      var firstId := nextId;
      InsertRows(batch);
      txs := InsertHollow(txs, BatchMembers(batch));
      LinkRows(before, firstId, batch);
    }

    method InsertRows(batch: seq<NewCluster>)
      modifies this`clusters, this`chunks, this`nextId
      ensures clusters == InsertClusters(old(Contents()), batch).clusters
      ensures chunks == InsertClusters(old(Contents()), batch).chunks
      ensures nextId == InsertClusters(old(Contents()), batch).nextId
    {
      ghost var before := Contents();
      for k := 0 to |batch|
        invariant nextId == InsertClusters(before, batch[..k]).nextId
        invariant clusters == InsertClusters(before, batch[..k]).clusters
        invariant chunks == InsertClusters(before, batch[..k]).chunks
      {
        InsertNext(before, batch, k);
        var sums := batch[k].chunks;
        clusters := clusters[nextId := ClusterRow(Active, 1, WeightOf(sums), FeeOf(sums), batch[k].firstSeenAt, None)];
        chunks := chunks[VersionKey(nextId, 1) := Stored(sums, true)];
        nextId := nextId + 1;
      }
      assert batch[..|batch|] == batch;
    }

    method LinkRows(ghost before: Db, firstId: int, batch: seq<NewCluster>)
      requires firstId == before.nextId
      requires txs == InsertHollow(before.txs, BatchMembers(batch))
      modifies this`txs
      ensures txs == InsertClusters(before, batch).txs
    {
      for k := 0 to |batch|
        invariant InsertClusters(before, batch[..k]).nextId == firstId + k
        invariant txs == InsertHollow(InsertClusters(before, batch[..k]).txs, BatchMembers(batch))
      {
        LinkNext(before, batch, k);
        txs := Link(txs, MembersOf(batch[k].chunks), firstId + k);
      }
      assert batch[..|batch|] == batch;
      BatchMembersStored(before, batch);
      NothingHollow(InsertClusters(before, batch).txs, BatchMembers(batch));
    }

    /** Records a new version; `found` is false when the cluster does not exist. */
    method ReplaceChunksIn(id: int, newChunks: seq<Chunk>, live: bool) returns (found: bool)
      modifies this
      ensures found <==> id in old(clusters)
      ensures Contents() == if id in old(clusters) then ReplaceChunks(old(Contents()), id, newChunks, live)
          else old(Contents())
    {
      if id !in clusters {
        return false;
      }
      found := true;
      var row := clusters[id];
      if row.status != Active || Current(Contents(), id) == newChunks {
        return;
      }
      var superseded := VersionKey(id, row.version);
      if superseded in chunks {
        chunks := chunks[superseded := Retired(chunks[superseded])];
      }
      chunks := chunks[VersionKey(id, row.version + 1) := Stored(newChunks, live)];
      clusters := clusters[id := row.(version := row.version + 1, totalWeight := WeightOf(newChunks),
          totalFee := FeeOf(newChunks))];
      var members := MembersOf(newChunks);
      txs := Unlink(txs, {id}, members);
      txs := InsertHollow(txs, members);
      txs := Link(txs, members, id);
    }

    method CloseManyIn(ids: set<int>, status: Status)
      modifies this
      ensures Contents() == CloseMany(old(Contents()), ids, status)
    {
      var closing := StillActive(Contents(), ids);
      clusters := map id | id in clusters :: if id in closing then clusters[id].(status := status) else clusters[id];
      chunks := RetireChunks(chunks, closing);
      txs := Unlink(txs, closing, {});
    }

    method ConfirmManyIn(ids: set<int>, at: int)
      modifies this
      ensures Contents() == ConfirmMany(old(Contents()), ids, at)
    {
      var pending := StillActive(Contents(), ids);
      clusters := map id | id in clusters ::
        if id in pending then clusters[id].(status := Confirmed, confirmedAt := Some(at)) else clusters[id];
      chunks := RetireChunks(chunks, pending);
    }

    /** Every trim and then the confirmation; a missing cluster rolls the whole transaction back. */
    method TrimAndConfirmIn(updates: seq<VersionUpdate>, at: int) returns (ok: bool)
      modifies this
      ensures ok <==> UpdateIds(updates) <= old(clusters).Keys
      ensures Contents() == if UpdateIds(updates) <= old(clusters).Keys
                            then TrimAndConfirmMany(old(Contents()), updates, at) else old(Contents())
    {
      ghost var before := Contents();
      var savedClusters, savedChunks, savedTxs := clusters, chunks, txs;
      for k := 0 to |updates|
        invariant UpdateIds(updates[..k]) <= before.clusters.Keys
        invariant Contents() == TrimAll(before, updates[..k])
      {
        assert updates[..k + 1][..k] == updates[..k];
        assert updates[..k + 1] == updates[..k] + [updates[k]];
        var found := ReplaceChunksIn(updates[k].id, updates[k].chunks, false);
        if !found {
          clusters, chunks, txs := savedClusters, savedChunks, savedTxs;
          assert updates[k].id in UpdateIds(updates);
          TrimKeepsNextId(before, updates[..k]);
          return false;
        }
      }
      assert updates[..|updates|] == updates;
      ConfirmManyIn(UpdateIds(updates), at);
      return true;
    }

    // -------------------------------------------- what each transaction does to tables in order

    ghost predicate InOrder(view: View, mined: map<Txid, MinedAs>)
      reads this
    {
      Inv(Contents()) && ActiveView(Contents()) == view && MinedRows(Contents()) == mined
    }

    /** A cluster apart from the active ones joins them under a new id. */
    method Insert(chunks: seq<Chunk>, at: int, ghost view: View, ghost mined: map<Txid, MinedAs>) returns (id: int)
      requires InOrder(view, mined) && Holding(view, MembersOf(chunks)) == {}
      modifies this
      ensures id == old(nextId) && nextId == id + 1 && id !in view && InOrder(view[id := Fresh(chunks, at)], mined)
    {
      id := nextId;
      NoneHolding(view, id, chunks);
      InsertKeeps(Contents(), chunks, at);
      InsertIn([NewCluster(chunks, at)]);
      assert [NewCluster(chunks, at)][..0] == [];
    }

    /** Exactly that cluster takes the chunks, which nobody else holds. */
    method Replace(id: int, chunks: seq<Chunk>, ghost view: View, ghost mined: map<Txid, MinedAs>)
      returns (cluster: ActiveCluster)
      requires InOrder(view, mined) && id in view && OthersClear(view, id, chunks)
      modifies this
      ensures cluster == Fresh(chunks, view[id].firstSeenAt) && InOrder(view[id := cluster], mined)
      ensures nextId == old(nextId)
    {
      cluster := Fresh(chunks, clusters[id].firstSeenAt);
      ReplaceKeeps(Contents(), id, chunks, true, {});
      var found := ReplaceChunksIn(id, chunks, true);
    }

    /** Exactly the clusters among `ids` stop being active; they end with that status and the chunks they had. */
    method Close(ids: set<int>, status: Status, ghost view: View, ghost mined: map<Txid, MinedAs>)
      requires InOrder(view, mined) && status in {Evicted, Merged}
      modifies this
      ensures InOrder(view - ids, mined) && EndedAs(Contents(), view, ids, status, None) && nextId == old(nextId)
    {
      CloseKeeps(Contents(), ids, status);
      CloseHistory(Contents(), ids, status);
      ghost var closed := ClosedView(Contents());
      CloseManyIn(ids, status);
      ClosedEnded(Contents(), closed, view, ids, status, None);
    }

    /** Exactly the clusters among `ids` end as confirmed at `at`, and every transaction row keeps its link. */
    method Confirm(ids: set<int>, at: int, ghost view: View, ghost mined: map<Txid, MinedAs>)
      requires InOrder(view, mined)
      modifies this
      ensures InOrder(view - ids, mined) && EndedAs(Contents(), view, ids, Confirmed, Some(at))
      ensures txs == old(txs) && nextId == old(nextId)
    {
      LiveStays(Contents(), ids);
      ConfirmKeeps(Contents(), ids, at);
      ConfirmHistory(Contents(), ids, at);
      ghost var closed := ClosedView(Contents());
      ConfirmManyIn(ids, at);
      ClosedEnded(Contents(), closed, view, ids, Confirmed, Some(at));
    }

    /** Exactly the trimmed clusters end, confirmed at `at` with their updates' chunks, whose members link to them. */
    method TrimAndConfirm(updates: seq<VersionUpdate>, at: int, ghost view: View, ghost mined: map<Txid, MinedAs>)
      requires InOrder(view, mined) && Shrinking(view, updates)
      modifies this
      ensures InOrder(view - UpdateIds(updates), mined) && nextId == old(nextId)
      ensures OneEach(updates) ==> TrimmedAs(Contents(), view, updates, at)
    {
      ShrinkingKnown(Contents(), updates);
      TrimAndConfirmKeeps(Contents(), updates, at);
      TrimKeepsNextId(Contents(), updates);
      ghost var closed := ClosedView(Contents());
      if OneEach(updates) {
        TrimHistory(Contents(), updates, at);
      }
      var ok := TrimAndConfirmIn(updates, at);
      if OneEach(updates) {
        TrimmedEnded(Contents(), closed, view, updates, at);
      }
    }
  }

  lemma LiveStays(db: Db, ids: set<int>)
    requires Inv(db)
    ensures InvExcept(db, ids)
  {
  }

  lemma ShrinkingKnown(db: Db, updates: seq<VersionUpdate>)
    requires Shrinking(ActiveView(db), updates)
    ensures UpdateIds(updates) <= db.clusters.Keys
  {
  }

  lemma {:induction false} TrimKeepsNextId(db: Db, updates: seq<VersionUpdate>)
    requires UpdateIds(updates) <= db.clusters.Keys
    ensures TrimAll(db, updates).nextId == db.nextId
  {
    if updates != [] {
      var rest := updates[..|updates| - 1];
      assert forall u :: u in rest ==> u in updates;
      assert updates[|updates| - 1] in updates;
      TrimKeepsNextId(db, rest);
    }
  }
}
