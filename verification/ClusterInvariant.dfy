/** What each database transaction keeps, and what it does to the set of active clusters. */
module ClusterInvariant {
  import opened Common
  import opened ClusterDb

  function Fresh(chunks: seq<Chunk>, firstSeenAt: int): ActiveCluster {
    ActiveCluster(chunks, WeightOf(chunks), FeeOf(chunks), firstSeenAt)
  }

  lemma PlainStored(chunks: seq<Chunk>, live: bool)
    ensures Plain(Stored(chunks, live)) == chunks
  {
  }

  lemma PlainRetired(rows: seq<StoredChunk>)
    ensures Plain(Retired(rows)) == Plain(rows)
  {
  }

  /** Tables that agree on a cluster's row and on its current chunks load it alike. */
  lemma SameCurrent(before: Db, after: Db, id: int)
    requires id in before.clusters && id in after.clusters
    requires before.clusters[id].version == after.clusters[id].version
    requires var key := VersionKey(id, before.clusters[id].version);
             key in before.chunks && key in after.chunks
             && (after.chunks[key] == before.chunks[key] || after.chunks[key] == Retired(before.chunks[key]))
    ensures Current(before, id) == Current(after, id)
  {
    PlainRetired(before.chunks[VersionKey(id, before.clusters[id].version)]);
  }

  // ---------------------------------------------------------------- links

  lemma LinkedRow(txs: map<Txid, TxRow>, members: set<Txid>, id: int, t: Txid)
    ensures var linked := Link(InsertHollow(txs, members), members, id);
            && (t in linked <==> t in txs || t in members)
            && (t in members ==> linked[t].clusterId == Some(id))
            && (t in txs && t !in members ==> linked[t] == txs[t])
            && (t in txs ==> linked[t].minedIn == txs[t].minedIn)
            && (t in linked && t !in txs ==> linked[t].minedIn == None)
  {
  }

  lemma UnlinkedRow(txs: map<Txid, TxRow>, ids: set<int>, keep: set<Txid>, t: Txid)
    requires t in txs
    ensures var row := Unlink(txs, ids, keep)[t];
            && row.minedIn == txs[t].minedIn
            && (txs[t].clusterId.Some? && txs[t].clusterId.value in ids && t !in keep ==> row.clusterId == None)
            && (!(txs[t].clusterId.Some? && txs[t].clusterId.value in ids && t !in keep) ==> row == txs[t])
  {
  }

  ghost predicate OthersFree(roster: map<int, Entry>, id: int, members: set<Txid>) {
    forall other, t :: Claims(roster, other, t) && other != id && roster[other].status == Active ==> t !in members
  }

  /** Linking a cluster's members, whether it is new or takes a new version. */
  lemma LinkKeeps(txs: map<Txid, TxRow>, roster: map<int, Entry>, id: int, members: set<Txid>)
    requires MembersLinked(txs, roster) && LinksRightful(txs, roster)
    requires id in roster ==> roster[id].status == Active
    requires OthersFree(roster, id, members)
    ensures var linked := Link(InsertHollow(Unlink(txs, {id}, members), members), members, id);
            var grown := roster[id := Entry(Active, members)];
            MembersLinked(linked, grown) && LinksRightful(linked, grown)
  {
    var unlinked := Unlink(txs, {id}, members);
    var linked := Link(InsertHollow(unlinked, members), members, id);
    var grown := roster[id := Entry(Active, members)];
    forall other, t | Claims(grown, other, t) && grown[other].status == Active
      ensures t in linked && linked[t].clusterId == Some(other)
    {
      LinkedRow(unlinked, members, id, t);
      if other != id {
        assert Claims(roster, other, t);
        UnlinkedRow(txs, {id}, members, t);
      }
    }
    forall t | t in linked && linked[t].clusterId.Some?
      ensures Claims(grown, linked[t].clusterId.value, t)
      ensures grown[linked[t].clusterId.value].status in {Active, Confirmed}
    {
      LinkedRow(unlinked, members, id, t);
      if t !in members {
        UnlinkedRow(txs, {id}, members, t);
        assert Claims(roster, txs[t].clusterId.value, t);
      }
    }
  }

  /** Nothing links to a cluster that does not exist, so unlinking from it changes nothing. */
  lemma UnlinkFromNowhere(txs: map<Txid, TxRow>, roster: map<int, Entry>, id: int, members: set<Txid>)
    requires LinksRightful(txs, roster) && id !in roster
    ensures Unlink(txs, {id}, members) == txs
  {
    forall t | t in txs
      ensures Unlink(txs, {id}, members)[t] == txs[t]
    {
      UnlinkedRow(txs, {id}, members, t);
      if txs[t].clusterId.Some? {
        assert Claims(roster, txs[t].clusterId.value, t);
      }
    }
  }

  function Restatus(roster: map<int, Entry>, ids: set<int>, status: Status): map<int, Entry> {
    map id | id in roster :: if id in ids then roster[id].(status := status) else roster[id]
  }

  lemma UnlinkKeeps(txs: map<Txid, TxRow>, roster: map<int, Entry>, ids: set<int>, status: Status)
    requires MembersLinked(txs, roster) && LinksRightful(txs, roster)
    requires status != Active
    ensures var cut := Unlink(txs, ids, {});
            MembersLinked(cut, Restatus(roster, ids, status)) && LinksRightful(cut, Restatus(roster, ids, status))
  {
    var cut := Unlink(txs, ids, {});
    var after := Restatus(roster, ids, status);
    forall id, t | Claims(after, id, t) && after[id].status == Active
      ensures t in cut && cut[t].clusterId == Some(id)
    {
      assert Claims(roster, id, t);
      UnlinkedRow(txs, ids, {}, t);
    }
    forall t | t in cut && cut[t].clusterId.Some?
      ensures Claims(after, cut[t].clusterId.value, t) && after[cut[t].clusterId.value].status in {Active, Confirmed}
    {
      UnlinkedRow(txs, ids, {}, t);
      assert Claims(roster, txs[t].clusterId.value, t);
    }
  }

  lemma ConfirmLinksKeep(txs: map<Txid, TxRow>, roster: map<int, Entry>, ids: set<int>)
    requires MembersLinked(txs, roster) && LinksRightful(txs, roster)
    ensures MembersLinked(txs, Restatus(roster, ids, Confirmed)) && LinksRightful(txs, Restatus(roster, ids, Confirmed))
  {
    var after := Restatus(roster, ids, Confirmed);
    forall id, t | Claims(after, id, t) && after[id].status == Active
      ensures t in txs && txs[t].clusterId == Some(id)
    {
      assert Claims(roster, id, t);
    }
    forall t | t in txs && txs[t].clusterId.Some?
      ensures Claims(after, txs[t].clusterId.value, t) && after[txs[t].clusterId.value].status in {Active, Confirmed}
    {
      assert Claims(roster, txs[t].clusterId.value, t);
    }
  }

  // ---------------------------------------------------------------- views

  /** `after` differs from `db` in one cluster, which is active with `chunks` there. */
  ghost predicate OneChanged(db: Db, after: Db, id: int, chunks: seq<Chunk>, firstSeenAt: int) {
    && after.clusters.Keys == db.clusters.Keys + {id}
    && after.clusters[id].status == Active
    && Current(after, id) == chunks
    && after.clusters[id].totalWeight == WeightOf(chunks)
    && after.clusters[id].totalFee == FeeOf(chunks)
    && after.clusters[id].firstSeenAt == firstSeenAt
    && (forall other :: other in db.clusters && other != id ==>
          after.clusters[other] == db.clusters[other] && Current(after, other) == Current(db, other))
  }

  lemma OneChangedRoster(db: Db, after: Db, id: int, chunks: seq<Chunk>, firstSeenAt: int)
    requires OneChanged(db, after, id, chunks, firstSeenAt)
    ensures Roster(after) == Roster(db)[id := Entry(Active, MembersOf(chunks))]
  {
  }

  lemma OneChangedView(db: Db, after: Db, id: int, chunks: seq<Chunk>, firstSeenAt: int)
    requires OneChanged(db, after, id, chunks, firstSeenAt)
    ensures ActiveView(after) == ActiveView(db)[id := Fresh(chunks, firstSeenAt)]
  {
  }

  lemma OneChangedTotals(db: Db, after: Db, id: int, chunks: seq<Chunk>, firstSeenAt: int)
    requires OneChanged(db, after, id, chunks, firstSeenAt)
    requires TotalsOk(db)
    ensures TotalsOk(after)
  {
  }

  // ---------------------------------------------------------------- inserting

  lemma InsertMoves(db: Db, chunks: seq<Chunk>, firstSeenAt: int)
    requires RowsOk(db)
    ensures db.nextId !in db.clusters
    ensures OneChanged(db, InsertCluster(db, chunks, firstSeenAt), db.nextId, chunks, firstSeenAt)
  {
    var after := InsertCluster(db, chunks, firstSeenAt);
    PlainStored(chunks, true);
    forall other | other in db.clusters
      ensures Current(after, other) == Current(db, other)
    {
      SameCurrent(db, after, other);
    }
  }

  lemma InsertLive(db: Db, chunks: seq<Chunk>, firstSeenAt: int)
    requires RowsOk(db) && LiveOk(db, {})
    ensures RowsOk(InsertCluster(db, chunks, firstSeenAt)) && LiveOk(InsertCluster(db, chunks, firstSeenAt), {})
  {
    var after := InsertCluster(db, chunks, firstSeenAt);
    forall key, i | key in after.chunks && 0 <= i < |after.chunks[key]|
      ensures after.chunks[key][i].live ==> IsCurrent(after, key)
      ensures IsCurrent(after, key) ==> after.chunks[key][i].live
    {
      if key != VersionKey(db.nextId, 1) {
        assert key in db.chunks;
      }
    }
  }

  /** The clusters other than `id` have no member among `chunks`. */
  ghost predicate OthersClear(view: View, id: int, chunks: seq<Chunk>) {
    forall other :: other in view && other != id ==> MembersOf(view[other].chunks) !! MembersOf(chunks)
  }

  lemma NoneHolding(view: View, id: int, chunks: seq<Chunk>)
    requires Holding(view, MembersOf(chunks)) == {}
    ensures OthersClear(view, id, chunks)
  {
    forall other | other in view && other != id
      ensures MembersOf(view[other].chunks) !! MembersOf(chunks)
    {
      assert other !in Holding(view, MembersOf(chunks));
    }
  }

  lemma ClearIsFree(db: Db, id: int, chunks: seq<Chunk>)
    requires OthersClear(ActiveView(db), id, chunks)
    ensures OthersFree(Roster(db), id, MembersOf(chunks))
  {
    var roster := Roster(db);
    forall other, t | Claims(roster, other, t) && other != id && roster[other].status == Active
      ensures t !in MembersOf(chunks)
    {
      assert other in ActiveView(db);
      assert t in MembersOf(ActiveView(db)[other].chunks);
    }
  }

  lemma InsertMined(db: Db, chunks: seq<Chunk>, firstSeenAt: int)
    ensures MinedRows(InsertCluster(db, chunks, firstSeenAt)) == MinedRows(db)
  {
  }

  lemma InsertKeeps(db: Db, chunks: seq<Chunk>, firstSeenAt: int)
    requires Inv(db)
    requires OthersClear(ActiveView(db), db.nextId, chunks)
    ensures var after := InsertCluster(db, chunks, firstSeenAt);
            && Inv(after)
            && db.nextId !in db.clusters
            && ActiveView(after) == ActiveView(db)[db.nextId := Fresh(chunks, firstSeenAt)]
            && MinedRows(after) == MinedRows(db)
  {
    var id, members := db.nextId, MembersOf(chunks);
    var after := InsertCluster(db, chunks, firstSeenAt);
    InsertMoves(db, chunks, firstSeenAt);
    InsertLive(db, chunks, firstSeenAt);
    OneChangedTotals(db, after, id, chunks, firstSeenAt);
    OneChangedRoster(db, after, id, chunks, firstSeenAt);
    OneChangedView(db, after, id, chunks, firstSeenAt);
    ClearIsFree(db, id, chunks);
    UnlinkFromNowhere(db.txs, Roster(db), id, members);
    LinkKeeps(db.txs, Roster(db), id, members);
    InsertMined(db, chunks, firstSeenAt);
  }

  // ---------------------------------------------------------------- new versions

  ghost predicate Replacing(db: Db, id: int, chunks: seq<Chunk>, live: bool, trimming: set<int>) {
    && RowsOk(db) && LiveOk(db, trimming) && TotalsOk(db)
    && IsActive(db, id) && (live || id in trimming) && Current(db, id) != chunks
  }

  lemma ReplaceMoves(db: Db, id: int, chunks: seq<Chunk>, live: bool, trimming: set<int>)
    requires Replacing(db, id, chunks, live, trimming)
    ensures OneChanged(db, ReplaceChunks(db, id, chunks, live), id, chunks, db.clusters[id].firstSeenAt)
  {
    var after := ReplaceChunks(db, id, chunks, live);
    PlainStored(chunks, live);
    forall other | other in db.clusters && other != id
      ensures Current(after, other) == Current(db, other)
    {
      SameCurrent(db, after, other);
    }
  }

  lemma ReplaceLive(db: Db, id: int, chunks: seq<Chunk>, live: bool, trimming: set<int>)
    requires Replacing(db, id, chunks, live, trimming)
    ensures RowsOk(ReplaceChunks(db, id, chunks, live)) && LiveOk(ReplaceChunks(db, id, chunks, live), trimming)
  {
    var after := ReplaceChunks(db, id, chunks, live);
    forall key, i | key in after.chunks && 0 <= i < |after.chunks[key]|
      ensures after.chunks[key][i].live ==> IsCurrent(after, key)
      ensures IsCurrent(after, key) && key.id !in trimming ==> after.chunks[key][i].live
    {
      if key != VersionKey(id, db.clusters[id].version + 1) {
        assert key in db.chunks;
      }
    }
  }

  lemma ReplaceMined(db: Db, id: int, chunks: seq<Chunk>, live: bool)
    requires id in db.clusters
    ensures MinedRows(ReplaceChunks(db, id, chunks, live)) == MinedRows(db)
  {
  }

  lemma ReplaceKeeps(db: Db, id: int, chunks: seq<Chunk>, live: bool, trimming: set<int>)
    requires InvExcept(db, trimming)
    requires id in db.clusters
    requires live || id in trimming
    requires OthersClear(ActiveView(db), id, chunks)
    ensures var after := ReplaceChunks(db, id, chunks, live);
            && InvExcept(after, trimming)
            && MinedRows(after) == MinedRows(db)
            && (IsActive(db, id) ==>
                  ActiveView(after) == ActiveView(db)[id := Fresh(chunks, db.clusters[id].firstSeenAt)])
            && (!IsActive(db, id) ==> after == db)
  {
    if IsActive(db, id) {
      if Current(db, id) == chunks {
        assert ActiveView(db)[id] == Fresh(chunks, db.clusters[id].firstSeenAt);
      } else {
        ReplaceMoves(db, id, chunks, live, trimming);
        ReplaceLive(db, id, chunks, live, trimming);
        var after, seen := ReplaceChunks(db, id, chunks, live), db.clusters[id].firstSeenAt;
        OneChangedTotals(db, after, id, chunks, seen);
        OneChangedRoster(db, after, id, chunks, seen);
        OneChangedView(db, after, id, chunks, seen);
        ClearIsFree(db, id, chunks);
        LinkKeeps(db.txs, Roster(db), id, MembersOf(chunks));
        ReplaceMined(db, id, chunks, live);
      }
    }
  }

  // ---------------------------------------------------------------- closing

  /** `closing` leaves the active clusters and the index; versions and chunks stay as they are. */
  ghost predicate Retires(db: Db, after: Db, closing: set<int>, status: Status) {
    && after.clusters.Keys == db.clusters.Keys
    && after.nextId == db.nextId
    && after.chunks == RetireChunks(db.chunks, closing)
    && (forall id :: id in db.clusters ==>
          && after.clusters[id].status == (if id in closing then status else db.clusters[id].status)
          && after.clusters[id].version == db.clusters[id].version
          && after.clusters[id].totalWeight == db.clusters[id].totalWeight
          && after.clusters[id].totalFee == db.clusters[id].totalFee
          && after.clusters[id].firstSeenAt == db.clusters[id].firstSeenAt
          && (if id in closing && status == Confirmed then after.clusters[id].confirmedAt.Some?
              else after.clusters[id].confirmedAt == db.clusters[id].confirmedAt))
  }

  lemma RetireCurrent(db: Db, after: Db, closing: set<int>, status: Status, id: int)
    requires RowsOk(db) && Retires(db, after, closing, status)
    requires id in db.clusters
    ensures Current(after, id) == Current(db, id)
  {
    SameCurrent(db, after, id);
  }

  lemma RetireLive(db: Db, after: Db, ids: set<int>, status: Status)
    requires RowsOk(db) && LiveOk(db, ids)
    requires Retires(db, after, StillActive(db, ids), status) && status != Active
    ensures RowsOk(after) && LiveOk(after, {})
  {
    forall key, i | key in after.chunks && 0 <= i < |after.chunks[key]|
      ensures after.chunks[key][i].live ==> IsCurrent(after, key)
      ensures IsCurrent(after, key) ==> after.chunks[key][i].live
    {
      assert key in db.chunks && 0 <= i < |db.chunks[key]|;
    }
  }

  lemma RetireLoaded(db: Db, after: Db, closing: set<int>, status: Status, id: int)
    requires RowsOk(db) && Retires(db, after, closing, status)
    requires id in db.clusters
    ensures Loaded(after, id) == Loaded(db, id)
    ensures db.clusters[id].totalWeight == WeightOf(Current(db, id)) ==>
              after.clusters[id].totalWeight == WeightOf(Current(after, id))
    ensures db.clusters[id].totalFee == FeeOf(Current(db, id)) ==>
              after.clusters[id].totalFee == FeeOf(Current(after, id))
  {
    RetireCurrent(db, after, closing, status, id);
  }

  lemma RetireTotals(db: Db, after: Db, closing: set<int>, status: Status)
    requires RowsOk(db) && TotalsOk(db) && Retires(db, after, closing, status)
    ensures TotalsOk(after)
  {
    forall id | id in after.clusters
      ensures after.clusters[id].totalWeight == WeightOf(Current(after, id))
      ensures after.clusters[id].totalFee == FeeOf(Current(after, id))
    {
      RetireLoaded(db, after, closing, status, id);
    }
  }

  lemma RetireRoster(db: Db, after: Db, closing: set<int>, status: Status)
    requires RowsOk(db) && Retires(db, after, closing, status)
    ensures Roster(after) == Restatus(Roster(db), closing, status)
  {
    forall id | id in db.clusters
      ensures Roster(after)[id] == Restatus(Roster(db), closing, status)[id]
    {
      RetireCurrent(db, after, closing, status, id);
    }
  }

  lemma RetireView(db: Db, after: Db, ids: set<int>, status: Status)
    requires RowsOk(db)
    requires Retires(db, after, StillActive(db, ids), status) && status != Active
    ensures ActiveView(after) == ActiveView(db) - ids
  {
    forall id | id in db.clusters
      ensures id in ActiveView(after) <==> id in ActiveView(db) && id !in ids
      ensures id in ActiveView(after) ==> ActiveView(after)[id] == ActiveView(db)[id]
    {
      RetireLoaded(db, after, StillActive(db, ids), status, id);
    }
  }

  /** Closing clusters, given that the links have been brought in line. */
  lemma RetireKeeps(db: Db, after: Db, ids: set<int>, status: Status)
    requires InvExcept(db, ids)
    requires Retires(db, after, StillActive(db, ids), status) && status != Active
    requires MembersLinked(after.txs, Restatus(Roster(db), StillActive(db, ids), status))
    requires LinksRightful(after.txs, Restatus(Roster(db), StillActive(db, ids), status))
    ensures Inv(after)
    ensures ActiveView(after) == ActiveView(db) - ids
  {
    RetireLive(db, after, ids, status);
    RetireView(db, after, ids, status);
    RetireTotals(db, after, StillActive(db, ids), status);
    RetireRoster(db, after, StillActive(db, ids), status);
  }

  lemma CloseRetires(db: Db, ids: set<int>, status: Status)
    requires status != Confirmed
    ensures Retires(db, CloseMany(db, ids, status), StillActive(db, ids), status)
  {
  }

  lemma UnlinkMined(db: Db, after: Db, ids: set<int>, keep: set<Txid>)
    requires after.txs == Unlink(db.txs, ids, keep)
    ensures MinedRows(after) == MinedRows(db)
  {
  }

  lemma CloseKeeps(db: Db, ids: set<int>, status: Status)
    requires Inv(db)
    requires status == Evicted || status == Merged
    ensures var after := CloseMany(db, ids, status);
            && Inv(after)
            && ActiveView(after) == ActiveView(db) - ids
            && MinedRows(after) == MinedRows(db)
  {
    CloseRetires(db, ids, status);
    UnlinkMined(db, CloseMany(db, ids, status), StillActive(db, ids), {});
    UnlinkKeeps(db.txs, Roster(db), StillActive(db, ids), status);
    RetireKeeps(db, CloseMany(db, ids, status), ids, status);
  }

  lemma ConfirmRetires(db: Db, ids: set<int>, at: int)
    ensures Retires(db, ConfirmMany(db, ids, at), StillActive(db, ids), Confirmed)
  {
  }

  /** Confirming also completes a trim: the chunks it left out of the index belong to closed clusters again. */
  lemma ConfirmKeeps(db: Db, ids: set<int>, at: int)
    requires InvExcept(db, ids)
    ensures var after := ConfirmMany(db, ids, at);
            && Inv(after) && after.txs == db.txs
            && ActiveView(after) == ActiveView(db) - ids
            && MinedRows(after) == MinedRows(db)
  {
    ConfirmRetires(db, ids, at);
    ConfirmLinksKeep(db.txs, Roster(db), StillActive(db, ids));
    RetireKeeps(db, ConfirmMany(db, ids, at), ids, Confirmed);
  }

  // ---------------------------------------------------------------- batches

  /** Each update shrinks a cluster that is active. */
  ghost predicate Shrinking(view: View, updates: seq<VersionUpdate>) {
    forall u :: u in updates ==> u.id in view && MembersOf(u.chunks) <= MembersOf(view[u.id].chunks)
  }

  /** `after` has the same clusters, with no more members than before. */
  ghost predicate Shrunk(view: View, after: View) {
    && after.Keys == view.Keys
    && (forall id :: id in view ==> MembersOf(after[id].chunks) <= MembersOf(view[id].chunks))
  }

  lemma ShrunkClear(view: View, after: View, u: VersionUpdate)
    requires PairwiseDisjoint(view) && Shrunk(view, after)
    requires u.id in view && MembersOf(u.chunks) <= MembersOf(view[u.id].chunks)
    ensures OthersClear(after, u.id, u.chunks)
  {
    forall other | other in after && other != u.id
      ensures MembersOf(after[other].chunks) !! MembersOf(u.chunks)
    {
      assert MembersOf(view[other].chunks) !! MembersOf(view[u.id].chunks);
    }
  }

  lemma ShrunkFurther(view: View, after: View, u: VersionUpdate, firstSeenAt: int)
    requires Shrunk(view, after)
    requires u.id in view && MembersOf(u.chunks) <= MembersOf(view[u.id].chunks)
    ensures Shrunk(view, after[u.id := Fresh(u.chunks, firstSeenAt)])
  {
  }

  /** One trim of a transaction that started from `db` and has reached `mid`. */
  lemma TrimStep(db: Db, mid: Db, u: VersionUpdate, ids: set<int>)
    requires Inv(db) && InvExcept(mid, ids)
    requires Shrunk(ActiveView(db), ActiveView(mid))
    requires u.id in ids && u.id in mid.clusters
    requires u.id in ActiveView(db) && MembersOf(u.chunks) <= MembersOf(ActiveView(db)[u.id].chunks)
    ensures var after := ReplaceChunks(mid, u.id, u.chunks, false);
            && InvExcept(after, ids)
            && Shrunk(ActiveView(db), ActiveView(after))
            && MinedRows(after) == MinedRows(mid)
  {
    ActiveClustersDisjoint(db);
    ShrunkClear(ActiveView(db), ActiveView(mid), u);
    ReplaceKeeps(mid, u.id, u.chunks, false, ids);
    assert u.id in ActiveView(mid) && IsActive(mid, u.id);
    ShrunkFurther(ActiveView(db), ActiveView(mid), u, mid.clusters[u.id].firstSeenAt);
  }

  lemma {:induction false} TrimKeeps(db: Db, updates: seq<VersionUpdate>, ids: set<int>)
    requires Inv(db) && Shrinking(ActiveView(db), updates)
    requires UpdateIds(updates) <= ids && UpdateIds(updates) <= db.clusters.Keys
    ensures var after := TrimAll(db, updates);
            && InvExcept(after, ids)
            && Shrunk(ActiveView(db), ActiveView(after))
            && MinedRows(after) == MinedRows(db)
  {
    if updates != [] {
      var rest, last := updates[..|updates| - 1], updates[|updates| - 1];
      assert last in updates && forall u :: u in rest ==> u in updates;
      assert last.id in UpdateIds(updates);
      TrimKeeps(db, rest, ids);
      TrimStep(db, TrimAll(db, rest), last, ids);
    }
  }

  lemma ReplaceOthersStay(db: Db, u: VersionUpdate, id: int)
    requires RowsOk(db)
    requires u.id in db.clusters && id in db.clusters && id != u.id
    ensures var after := ReplaceChunks(db, u.id, u.chunks, false);
            RowsOk(after) && after.clusters[id] == db.clusters[id] && Current(after, id) == Current(db, id)
  {
    var after := ReplaceChunks(db, u.id, u.chunks, false);
    SameCurrent(db, after, id);
  }

  lemma {:induction false} TrimOthersStay(db: Db, updates: seq<VersionUpdate>, id: int)
    requires UpdateIds(updates) <= db.clusters.Keys
    requires RowsOk(db)
    requires id in db.clusters && id !in UpdateIds(updates)
    ensures var after := TrimAll(db, updates);
            RowsOk(after) && after.clusters[id] == db.clusters[id] && Current(after, id) == Current(db, id)
  {
    if updates != [] {
      var rest, last := updates[..|updates| - 1], updates[|updates| - 1];
      assert last in updates && forall u :: u in rest ==> u in updates;
      assert last.id in UpdateIds(updates);
      TrimOthersStay(db, rest, id);
      ReplaceOthersStay(TrimAll(db, rest), last, id);
    }
  }

  lemma LoadedAlike(db: Db, after: Db, id: int)
    requires id in db.clusters && id in after.clusters
    requires after.clusters[id] == db.clusters[id] && Current(after, id) == Current(db, id)
    ensures id in ActiveView(db) <==> id in ActiveView(after)
    ensures id in ActiveView(db) ==> ActiveView(after)[id] == ActiveView(db)[id]
  {
  }

  lemma TrimView(db: Db, updates: seq<VersionUpdate>)
    requires RowsOk(db)
    requires UpdateIds(updates) <= db.clusters.Keys
    requires ActiveView(TrimAll(db, updates)).Keys == ActiveView(db).Keys
    ensures ActiveView(TrimAll(db, updates)) - UpdateIds(updates) == ActiveView(db) - UpdateIds(updates)
  {
    var mid := TrimAll(db, updates);
    forall id | id in ActiveView(db) && id !in UpdateIds(updates)
      ensures ActiveView(mid)[id] == ActiveView(db)[id]
    {
      TrimOthersStay(db, updates, id);
      LoadedAlike(db, mid, id);
    }
  }

  /** A trim closes the clusters it names and leaves every other active cluster exactly as it was. */
  lemma TrimAndConfirmKeeps(db: Db, updates: seq<VersionUpdate>, at: int)
    requires Inv(db) && Shrinking(ActiveView(db), updates)
    requires UpdateIds(updates) <= db.clusters.Keys
    ensures var after := TrimAndConfirmMany(db, updates, at);
            && Inv(after)
            && ActiveView(after) == ActiveView(db) - UpdateIds(updates)
            && MinedRows(after) == MinedRows(db)
  {
    TrimKeeps(db, updates, UpdateIds(updates));
    ConfirmKeeps(TrimAll(db, updates), UpdateIds(updates), at);
    TrimView(db, updates);
  }

  /** The new clusters share no member with each other or with an active cluster. */
  ghost predicate Separate(view: View, batch: seq<NewCluster>) {
    && (forall i, id :: 0 <= i < |batch| && id in view ==> MembersOf(view[id].chunks) !! MembersOf(batch[i].chunks))
    && (forall i, j :: 0 <= i < j < |batch| ==> MembersOf(batch[i].chunks) !! MembersOf(batch[j].chunks))
  }

  /** The active clusters after a batch of inserts: the ids follow on from `nextId`. */
  function WithInserted(view: View, nextId: int, batch: seq<NewCluster>): View {
    if batch == [] then view
    else
      var last := batch[|batch| - 1];
      WithInserted(view, nextId, batch[..|batch| - 1])[nextId + |batch| - 1 := Fresh(last.chunks, last.firstSeenAt)]
  }

  lemma WithInsertedLast(view: View, nextId: int, batch: seq<NewCluster>, mid: View, id: int)
    requires batch != [] && id == nextId + |batch| - 1
    requires mid == WithInserted(view, nextId, batch[..|batch| - 1])
    ensures mid[id := Fresh(batch[|batch| - 1].chunks, batch[|batch| - 1].firstSeenAt)]
         == WithInserted(view, nextId, batch)
  {
  }

  lemma SeparateInit(view: View, batch: seq<NewCluster>)
    requires Separate(view, batch) && batch != []
    ensures var rest, last := batch[..|batch| - 1], batch[|batch| - 1];
            && Separate(view, rest)
            && (forall id :: id in view ==> MembersOf(view[id].chunks) !! MembersOf(last.chunks))
            && (forall i :: 0 <= i < |rest| ==> MembersOf(rest[i].chunks) !! MembersOf(last.chunks))
  {
  }

  lemma {:induction false} SeparateClear(view: View, nextId: int, batch: seq<NewCluster>, chunks: seq<Chunk>)
    requires forall id :: id in view ==> MembersOf(view[id].chunks) !! MembersOf(chunks)
    requires forall i :: 0 <= i < |batch| ==> MembersOf(batch[i].chunks) !! MembersOf(chunks)
    ensures OthersClear(WithInserted(view, nextId, batch), nextId + |batch|, chunks)
  {
    if batch != [] {
      SeparateClear(view, nextId, batch[..|batch| - 1], chunks);
    }
  }

  lemma InsertOneMore(view: View, nextId: int, batch: seq<NewCluster>, mid: Db)
    requires batch != []
    requires OthersClear(ActiveView(mid), mid.nextId, batch[|batch| - 1].chunks)
    requires Inv(mid) && mid.nextId == nextId + |batch| - 1
    requires ActiveView(mid) == WithInserted(view, nextId, batch[..|batch| - 1])
    ensures var last := batch[|batch| - 1];
            var after := InsertCluster(mid, last.chunks, last.firstSeenAt);
            && Inv(after)
            && ActiveView(after) == WithInserted(view, nextId, batch)
            && MinedRows(after) == MinedRows(mid)
  {
    var last := batch[|batch| - 1];
    InsertKeeps(mid, last.chunks, last.firstSeenAt);
    WithInsertedLast(view, nextId, batch, ActiveView(mid), mid.nextId);
  }

  lemma {:induction false} InsertClustersKeep(db: Db, batch: seq<NewCluster>)
    requires Inv(db) && Separate(ActiveView(db), batch)
    ensures var after := InsertClusters(db, batch);
            && Inv(after)
            && after.nextId == db.nextId + |batch|
            && ActiveView(after) == WithInserted(ActiveView(db), db.nextId, batch)
            && MinedRows(after) == MinedRows(db)
  {
    if batch != [] {
      SeparateInit(ActiveView(db), batch);
      SeparateClear(ActiveView(db), db.nextId, batch[..|batch| - 1], batch[|batch| - 1].chunks);
      InsertClustersKeep(db, batch[..|batch| - 1]);
      InsertOneMore(ActiveView(db), db.nextId, batch, InsertClusters(db, batch[..|batch| - 1]));
    }
  }

  lemma {:induction false} InsertClustersConcat(db: Db, a: seq<NewCluster>, b: seq<NewCluster>)
    ensures InsertClusters(db, a + b) == InsertClusters(InsertClusters(db, a), b)
  {
    if b == [] {
      assert a + b == a;
    } else {
      assert (a + b)[..|a + b| - 1] == a + b[..|b| - 1];
      InsertClustersConcat(db, a, b[..|b| - 1]);
    }
  }

  /** The batch joined the active clusters, and nothing else changed. */
  ghost predicate Grown(view: View, after: View, batch: seq<NewCluster>) {
    && (forall id :: id in view ==> id in after && after[id] == view[id])
    && (forall i :: 0 <= i < |batch| ==> Joined(view, after, Fresh(batch[i].chunks, batch[i].firstSeenAt)))
    && (forall id :: id in after ==> id in view || FromBatch(batch, after[id]))
  }

  ghost predicate FromBatch(batch: seq<NewCluster>, cluster: ActiveCluster) {
    exists i :: 0 <= i < |batch| && cluster == Fresh(batch[i].chunks, batch[i].firstSeenAt)
  }

  ghost predicate Joined(view: View, after: View, cluster: ActiveCluster) {
    exists id :: id in after && id !in view && after[id] == cluster
  }

  lemma {:induction false} WithInsertedGrows(view: View, nextId: int, batch: seq<NewCluster>)
    requires forall id :: id in view ==> id < nextId
    ensures var after := WithInserted(view, nextId, batch);
            Grown(view, after, batch) && forall id :: id in after ==> id < nextId + |batch|
  {
    if batch != [] {
      var rest := batch[..|batch| - 1];
      WithInsertedGrows(view, nextId, rest);
      var mid, id := WithInserted(view, nextId, rest), nextId + |batch| - 1;
      WithInsertedLast(view, nextId, batch, mid, id);
      GrownOneMore(view, mid, id, batch);
    } else {
      assert WithInserted(view, nextId, batch) == view;
    }
  }

  lemma GrownOneMore(view: View, mid: View, id: int, batch: seq<NewCluster>)
    requires batch != [] && Grown(view, mid, batch[..|batch| - 1]) && id !in mid
    ensures var last := batch[|batch| - 1];
            Grown(view, mid[id := Fresh(last.chunks, last.firstSeenAt)], batch)
  {
    var rest, last := batch[..|batch| - 1], batch[|batch| - 1];
    var after := mid[id := Fresh(last.chunks, last.firstSeenAt)];
    forall i | 0 <= i < |batch|
      ensures Joined(view, after, Fresh(batch[i].chunks, batch[i].firstSeenAt))
    {
      if i < |rest| {
        assert Joined(view, mid, Fresh(rest[i].chunks, rest[i].firstSeenAt));
        var other :| other in mid && other !in view && mid[other] == Fresh(rest[i].chunks, rest[i].firstSeenAt);
        assert other in after && after[other] == mid[other];
      } else {
        assert after[id] == Fresh(last.chunks, last.firstSeenAt);
      }
    }
    forall other | other in after && other !in view
      ensures FromBatch(batch, after[other])
    {
      if other != id {
        assert FromBatch(rest, mid[other]);
        var i :| 0 <= i < |rest| && mid[other] == Fresh(rest[i].chunks, rest[i].firstSeenAt);
        assert batch[i] == rest[i];
      } else {
        assert batch[|batch| - 1] == last;
      }
    }
  }

  lemma SeparatePrefix(view: View, batch: seq<NewCluster>, k: nat)
    requires k <= |batch| && Separate(view, batch)
    ensures Separate(view, batch[..k])
  {
  }

  /** Any prefix of a batch, committed on its own, keeps the tables in order. */
  lemma InsertPrefixKeeps(db: Db, batch: seq<NewCluster>, k: nat)
    requires Inv(db) && k <= |batch| && Separate(ActiveView(db), batch)
    ensures var after := InsertClusters(db, batch[..k]);
            && Inv(after)
            && ActiveView(after) == WithInserted(ActiveView(db), db.nextId, batch[..k])
            && MinedRows(after) == MinedRows(db)
            && after.nextId == db.nextId + k && (forall id :: id in ActiveView(after) ==> id < after.nextId)
  {
    SeparatePrefix(ActiveView(db), batch, k);
    InsertClustersKeep(db, batch[..k]);
    WithInsertedGrows(ActiveView(db), db.nextId, batch[..k]);
  }
}
