/**
 What the tables never forget: how each cluster ended, every version it went
 through, and the rows of transactions nobody moved.
 */
module ClusterHistory {
  import opened Common
  import opened ClusterDb
  import opened ClusterInvariant

  /** How a cluster ended: as what, when it was confirmed, and with which chunks. */
  datatype Closed = Closed(status: Status, confirmedAt: Option<int>, cluster: ActiveCluster)

  type Closures = map<int, Closed>

  function ClosedView(db: Db): Closures {
    map id | id in db.clusters && db.clusters[id].status != Active ::
      Closed(db.clusters[id].status, db.clusters[id].confirmedAt, Loaded(db, id))
  }

  /** The active clusters among `ids` have ended alike. */
  function ClosedInto(closed: Closures, view: View, ids: set<int>, status: Status, at: Option<int>): Closures {
    closed + map id | id in ids && id in view :: Closed(status, at, view[id])
  }

  /** Every trimmed cluster is confirmed at `at` with exactly the chunks of its update; nothing else has ended. */
  ghost predicate TrimmedInto(closed: Closures, after: Closures, view: View, updates: seq<VersionUpdate>, at: int) {
    && after.Keys == closed.Keys + UpdateIds(updates)
    && (forall u :: u in updates ==>
          u.id in view && after[u.id] == Closed(Confirmed, Some(at), Fresh(u.chunks, view[u.id].firstSeenAt)))
    && (forall id :: id in closed ==> after[id] == closed[id])
  }

  /** Every version that was stored still is, chunk by chunk. */
  ghost predicate KeepsVersions(db: Db, after: Db) {
    forall key :: key in db.chunks ==> key in after.chunks && Plain(after.chunks[key]) == Plain(db.chunks[key])
  }

  /** The transaction rows outside `moved` are as they were. */
  ghost predicate Unmoved(db: Db, after: Db, moved: set<Txid>) {
    forall t :: t !in moved ==> (t in db.txs <==> t in after.txs) && (t in db.txs ==> after.txs[t] == db.txs[t])
  }

  /** The clusters among `ids` that were active in `view` have ended with that status and the chunks they had. */
  ghost predicate EndedAs(db: Db, view: View, ids: set<int>, status: Status, at: Option<int>) {
    forall id :: id in ids && id in view ==> Ended(db, id, Closed(status, at, view[id]))
  }

  ghost predicate Ended(db: Db, id: int, closed: Closed) {
    && id in db.clusters && db.clusters[id].status == closed.status
    && db.clusters[id].confirmedAt == closed.confirmedAt && Loaded(db, id) == closed.cluster
  }

  /** Every updated cluster has ended confirmed at `at`, with exactly its update's chunks, and they link to it. */
  ghost predicate TrimmedAs(db: Db, view: View, updates: seq<VersionUpdate>, at: int) {
    && StayLinked(db, updates)
    && forall u :: u in updates && u.id in view ==>
         Ended(db, u.id, Closed(Confirmed, Some(at), Fresh(u.chunks, view[u.id].firstSeenAt)))
  }

  lemma ClosedEnded(db: Db, closed: Closures, view: View, ids: set<int>, status: Status, at: Option<int>)
    requires ClosedView(db) == ClosedInto(closed, view, ids, status, at)
    ensures EndedAs(db, view, ids, status, at)
  {
    forall id | id in ids && id in view ensures Ended(db, id, Closed(status, at, view[id])) {
      assert id in ClosedView(db) && ClosedView(db)[id] == Closed(status, at, view[id]);
    }
  }

  lemma TrimmedEnded(db: Db, closed: Closures, view: View, updates: seq<VersionUpdate>, at: int)
    requires TrimmedInto(closed, ClosedView(db), view, updates, at) && StayLinked(db, updates)
    ensures TrimmedAs(db, view, updates, at)
  {
    forall u | u in updates && u.id in view
      ensures Ended(db, u.id, Closed(Confirmed, Some(at), Fresh(u.chunks, view[u.id].firstSeenAt)))
    {
      assert u.id in UpdateIds(updates) && u.id in ClosedView(db);
    }
  }

  ghost predicate OneEach(updates: seq<VersionUpdate>) {
    forall i, j :: 0 <= i < j < |updates| ==> updates[i].id != updates[j].id
  }

  lemma OneChangedClosed(db: Db, after: Db, id: int, chunks: seq<Chunk>, firstSeenAt: int)
    requires OneChanged(db, after, id, chunks, firstSeenAt) && (id in db.clusters ==> IsActive(db, id))
    ensures ClosedView(after) == ClosedView(db)
  {
    forall other | other in db.clusters && other != id ensures Loaded(after, other) == Loaded(db, other) {
    }
  }

  // ----------------------------------------------------------------- one operation each

  lemma InsertHistory(db: Db, chunks: seq<Chunk>, firstSeenAt: int)
    requires RowsOk(db)
    ensures var after := InsertCluster(db, chunks, firstSeenAt);
            && ClosedView(after) == ClosedView(db) && KeepsVersions(db, after)
            && Unmoved(db, after, MembersOf(chunks))
  {
    InsertMoves(db, chunks, firstSeenAt);
    OneChangedClosed(db, InsertCluster(db, chunks, firstSeenAt), db.nextId, chunks, firstSeenAt);
  }

  lemma {:induction false} InsertClustersHistory(db: Db, batch: seq<NewCluster>)
    requires Inv(db) && Separate(ActiveView(db), batch)
    ensures var after := InsertClusters(db, batch); ClosedView(after) == ClosedView(db) && KeepsVersions(db, after)
  {
    if batch != [] {
      var rest, last := batch[..|batch| - 1], batch[|batch| - 1];
      SeparateInit(ActiveView(db), batch);
      InsertClustersKeep(db, rest);
      InsertClustersHistory(db, rest);
      InsertHistory(InsertClusters(db, rest), last.chunks, last.firstSeenAt);
    }
  }

  lemma ReplaceHistory(db: Db, id: int, chunks: seq<Chunk>, live: bool, trimming: set<int>)
    requires InvExcept(db, trimming) && id in db.clusters && (live || id in trimming)
    ensures var after := ReplaceChunks(db, id, chunks, live);
            && ClosedView(after) == ClosedView(db) && KeepsVersions(db, after)
            && Unmoved(db, after, MembersOf(Current(db, id)) + MembersOf(chunks))
  {
    if IsActive(db, id) && Current(db, id) != chunks {
      var after := ReplaceChunks(db, id, chunks, live);
      ReplaceMoves(db, id, chunks, live, trimming);
      OneChangedClosed(db, after, id, chunks, db.clusters[id].firstSeenAt);
      ReplaceVersions(db, id, chunks, live);
      ReplaceUnmoved(db, id, chunks, live);
    }
  }

  lemma ReplaceVersions(db: Db, id: int, chunks: seq<Chunk>, live: bool)
    requires RowsOk(db) && IsActive(db, id) && Current(db, id) != chunks
    ensures KeepsVersions(db, ReplaceChunks(db, id, chunks, live))
  {
    var after := ReplaceChunks(db, id, chunks, live);
    forall key | key in db.chunks ensures key in after.chunks && Plain(after.chunks[key]) == Plain(db.chunks[key]) {
      PlainRetired(db.chunks[key]);
    }
  }

  lemma ReplaceUnmoved(db: Db, id: int, chunks: seq<Chunk>, live: bool)
    requires LinksRightful(db.txs, Roster(db)) && IsActive(db, id) && Current(db, id) != chunks
    ensures Unmoved(db, ReplaceChunks(db, id, chunks, live), MembersOf(Current(db, id)) + MembersOf(chunks))
  {
    forall t | t in db.txs && db.txs[t].clusterId == Some(id) ensures t in MembersOf(Current(db, id)) {
      assert Claims(Roster(db), id, t);
    }
  }

  lemma RetireClosed(db: Db, after: Db, ids: set<int>, status: Status, at: Option<int>)
    requires RowsOk(db) && Retires(db, after, StillActive(db, ids), status) && status != Active
    requires forall id :: id in StillActive(db, ids) ==> after.clusters[id].confirmedAt == at
    ensures ClosedView(after) == ClosedInto(ClosedView(db), ActiveView(db), ids, status, at)
  {
    var closed, into := ClosedView(after), ClosedInto(ClosedView(db), ActiveView(db), ids, status, at);
    forall id | id in db.clusters
      ensures id in closed <==> id in into
      ensures id in closed ==> closed[id] == into[id]
    {
      RetireOne(db, after, ids, status, at, id);
    }
    ClosedWithin(db, ids, status, at);
    assert closed.Keys <= db.clusters.Keys;
    Alike(closed, into, db.clusters.Keys);
  }

  lemma ClosedWithin(db: Db, ids: set<int>, status: Status, at: Option<int>)
    ensures ClosedInto(ClosedView(db), ActiveView(db), ids, status, at).Keys <= db.clusters.Keys
  {
  }

  lemma Alike(a: Closures, b: Closures, ids: set<int>)
    requires a.Keys <= ids && b.Keys <= ids
    requires forall id :: id in ids ==> (id in a <==> id in b) && (id in a ==> a[id] == b[id])
    ensures a == b
  {
    forall id ensures id in a.Keys <==> id in b.Keys {
      assert id in a.Keys || id in b.Keys ==> id in ids;
    }
    assert a.Keys == b.Keys;
    forall id | id in a ensures a[id] == b[id] {
      assert id in a.Keys && id in ids;
    }
  }

  lemma RetireOne(db: Db, after: Db, ids: set<int>, status: Status, at: Option<int>, id: int)
    requires RowsOk(db) && Retires(db, after, StillActive(db, ids), status) && status != Active && id in db.clusters
    requires forall other :: other in StillActive(db, ids) ==> after.clusters[other].confirmedAt == at
    ensures var closed, into := ClosedView(after), ClosedInto(ClosedView(db), ActiveView(db), ids, status, at);
            (id in closed <==> id in into) && (id in closed ==> closed[id] == into[id])
  {
    RetireLoaded(db, after, StillActive(db, ids), status, id);
    assert id in StillActive(db, ids) <==> id in ids && id in ActiveView(db);
  }

  lemma RetireVersions(db: Db, after: Db, closing: set<int>)
    requires after.chunks == RetireChunks(db.chunks, closing)
    ensures KeepsVersions(db, after)
  {
    forall key | key in db.chunks ensures key in after.chunks && Plain(after.chunks[key]) == Plain(db.chunks[key]) {
      PlainRetired(db.chunks[key]);
    }
  }

  lemma CloseHistory(db: Db, ids: set<int>, status: Status)
    requires Inv(db) && status in {Evicted, Merged}
    ensures var after := CloseMany(db, ids, status);
            && ClosedView(after) == ClosedInto(ClosedView(db), ActiveView(db), ids, status, None)
            && KeepsVersions(db, after)
            && Unmoved(db, after, HeldIn(ActiveView(db), ids))
  {
    CloseRetires(db, ids, status);
    RetireClosed(db, CloseMany(db, ids, status), ids, status, None);
    RetireVersions(db, CloseMany(db, ids, status), StillActive(db, ids));
    CloseUnmoved(db, ids, status);
  }

  /** Members of the active clusters among `ids`. */
  function HeldIn(view: View, ids: set<int>): set<Txid> {
    set id, t | id in ids && id in view && t in MembersOf(view[id].chunks) :: t
  }

  lemma CloseUnmoved(db: Db, ids: set<int>, status: Status)
    requires LinksRightful(db.txs, Roster(db))
    ensures Unmoved(db, CloseMany(db, ids, status), HeldIn(ActiveView(db), ids))
  {
    forall t | t in db.txs && db.txs[t].clusterId.Some? && db.txs[t].clusterId.value in StillActive(db, ids)
      ensures t in HeldIn(ActiveView(db), ids)
    {
      var id := db.txs[t].clusterId.value;
      assert Claims(Roster(db), id, t);
      assert id in ids && id in ActiveView(db) && t in MembersOf(ActiveView(db)[id].chunks);
    }
  }

  lemma ConfirmHistory(db: Db, ids: set<int>, at: int)
    requires RowsOk(db)
    ensures var after := ConfirmMany(db, ids, at);
            && ClosedView(after) == ClosedInto(ClosedView(db), ActiveView(db), ids, Confirmed, Some(at))
            && KeepsVersions(db, after) && after.txs == db.txs
  {
    ConfirmRetires(db, ids, at);
    RetireClosed(db, ConfirmMany(db, ids, at), ids, Confirmed, Some(at));
    RetireVersions(db, ConfirmMany(db, ids, at), StillActive(db, ids));
  }

  // -------------------------------------------------------------------------- trims

  lemma OneEachRest(updates: seq<VersionUpdate>)
    requires OneEach(updates) && updates != []
    ensures var rest, last := updates[..|updates| - 1], updates[|updates| - 1];
            && OneEach(rest) && last.id !in UpdateIds(rest) && UpdateIds(updates) == UpdateIds(rest) + {last.id}
            && (forall u :: u in rest ==> u in updates) && (forall u :: u in updates ==> u in rest || u == last)
  {
    var rest, last := updates[..|updates| - 1], updates[|updates| - 1];
    assert updates == rest + [last];
  }

  /** The trimmed clusters are active with exactly their updates' chunks. */
  ghost predicate TrimsHold(view: View, mid: View, updates: seq<VersionUpdate>) {
    forall u :: u in updates ==>
      u.id in view && u.id in mid && mid[u.id] == Fresh(u.chunks, view[u.id].firstSeenAt)
  }

  ghost predicate HistoryKept(db: Db, after: Db, moved: set<Txid>) {
    ClosedView(after) == ClosedView(db) && KeepsVersions(db, after) && Unmoved(db, after, moved)
  }

  /** After the trims every trimmed cluster is active with exactly its update's chunks, and history stands. */
  lemma {:induction false} TrimStores(db: Db, updates: seq<VersionUpdate>, ids: set<int>)
    requires Inv(db) && Shrinking(ActiveView(db), updates) && OneEach(updates)
    requires UpdateIds(updates) <= ids && UpdateIds(updates) <= db.clusters.Keys
    ensures var mid := TrimAll(db, updates);
            HistoryKept(db, mid, HeldIn(ActiveView(db), ids)) && TrimsHold(ActiveView(db), ActiveView(mid), updates)
  {
    if updates != [] {
      var rest, last := updates[..|updates| - 1], updates[|updates| - 1];
      OneEachRest(updates);
      TrimStores(db, rest, ids);
      TrimKeeps(db, rest, ids);
      TrimOthersStay(db, rest, last.id);
      LoadedAlike(db, TrimAll(db, rest), last.id);
      TrimOneMore(db, TrimAll(db, rest), rest, last, ids);
    }
  }

  lemma TrimOneMore(db: Db, mid: Db, rest: seq<VersionUpdate>, last: VersionUpdate, ids: set<int>)
    requires Inv(db) && InvExcept(mid, ids) && last.id in ids && last.id in mid.clusters && last.id !in UpdateIds(rest)
    requires Shrunk(ActiveView(db), ActiveView(mid)) && Shrinking(ActiveView(db), [last])
    requires ActiveView(mid)[last.id] == ActiveView(db)[last.id]
    requires HistoryKept(db, mid, HeldIn(ActiveView(db), ids)) && TrimsHold(ActiveView(db), ActiveView(mid), rest)
    ensures var after := ReplaceChunks(mid, last.id, last.chunks, false);
            && HistoryKept(db, after, HeldIn(ActiveView(db), ids))
            && TrimsHold(ActiveView(db), ActiveView(after), rest + [last])
  {
    var id, after := last.id, ReplaceChunks(mid, last.id, last.chunks, false);
    assert last in [last];
    ActiveClustersDisjoint(db);
    ShrunkClear(ActiveView(db), ActiveView(mid), last);
    ReplaceKeeps(mid, id, last.chunks, false, ids);
    ReplaceHistory(mid, id, last.chunks, false, ids);
    HeldInside(ActiveView(db), ids, id, last.chunks);
    KeptAlong(db, mid, after, HeldIn(ActiveView(db), ids), MembersOf(Current(mid, id)) + MembersOf(last.chunks));
    TrimsHoldMore(ActiveView(db), ActiveView(mid), rest, last);
  }

  lemma HeldInside(view: View, ids: set<int>, id: int, chunks: seq<Chunk>)
    requires id in ids && id in view && MembersOf(chunks) <= MembersOf(view[id].chunks)
    ensures MembersOf(view[id].chunks) + MembersOf(chunks) <= HeldIn(view, ids)
  {
  }

  lemma KeptAlong(db: Db, mid: Db, after: Db, moved: set<Txid>, more: set<Txid>)
    requires HistoryKept(db, mid, moved) && HistoryKept(mid, after, more) && more <= moved
    ensures HistoryKept(db, after, moved)
  {
  }

  lemma TrimsHoldMore(view: View, mid: View, rest: seq<VersionUpdate>, last: VersionUpdate)
    requires TrimsHold(view, mid, rest) && last.id in view && last.id !in UpdateIds(rest)
    ensures TrimsHold(view, mid[last.id := Fresh(last.chunks, view[last.id].firstSeenAt)], rest + [last])
  {
    forall u | u in rest ensures u.id != last.id {
      assert u.id in UpdateIds(rest);
    }
  }

  /** A trim confirms every named cluster at `at` with exactly its mined chunks, and its members stay linked to it. */
  lemma TrimHistory(db: Db, updates: seq<VersionUpdate>, at: int)
    requires Inv(db) && Shrinking(ActiveView(db), updates) && OneEach(updates)
    requires UpdateIds(updates) <= db.clusters.Keys
    ensures var after := TrimAndConfirmMany(db, updates, at);
            && TrimmedInto(ClosedView(db), ClosedView(after), ActiveView(db), updates, at)
            && KeepsVersions(db, after) && Unmoved(db, after, HeldIn(ActiveView(db), UpdateIds(updates)))
            && StayLinked(after, updates)
  {
    var ids, mid := UpdateIds(updates), TrimAll(db, updates);
    TrimKeeps(db, updates, ids);
    TrimStores(db, updates, ids);
    TrimEnds(db, mid, updates, at);
    TrimLinked(mid, ActiveView(db), updates);
    ConfirmHistory(mid, ids, at);
    TrimRows(db, mid, ConfirmMany(mid, ids, at), updates, HeldIn(ActiveView(db), ids));
  }

  lemma TrimEnds(db: Db, mid: Db, updates: seq<VersionUpdate>, at: int)
    requires RowsOk(mid) && ClosedView(mid) == ClosedView(db) && TrimsHold(ActiveView(db), ActiveView(mid), updates)
    ensures var after := ConfirmMany(mid, UpdateIds(updates), at);
            TrimmedInto(ClosedView(db), ClosedView(after), ActiveView(db), updates, at)
  {
    ConfirmHistory(mid, UpdateIds(updates), at);
    ClosedApart(mid);
    TrimmedClosed(ClosedView(db), ActiveView(db), ActiveView(mid), updates, at);
  }

  lemma TrimRows(db: Db, mid: Db, after: Db, updates: seq<VersionUpdate>, moved: set<Txid>)
    requires KeepsVersions(db, mid) && KeepsVersions(mid, after) && after.txs == mid.txs
    requires Unmoved(db, mid, moved) && StayLinked(mid, updates)
    ensures KeepsVersions(db, after) && Unmoved(db, after, moved) && StayLinked(after, updates)
  {
  }

  lemma ClosedApart(db: Db)
    ensures ClosedView(db).Keys !! ActiveView(db).Keys
  {
  }

  lemma TrimmedClosed(closed: Closures, view: View, mid: View, updates: seq<VersionUpdate>, at: int)
    requires TrimsHold(view, mid, updates) && closed.Keys !! mid.Keys
    ensures TrimmedInto(closed, ClosedInto(closed, mid, UpdateIds(updates), Confirmed, Some(at)), view, updates, at)
  {
    forall id | id in UpdateIds(updates) ensures id in mid {
      var u :| u in updates && u.id == id;
    }
    forall u | u in updates ensures u.id in UpdateIds(updates) {
    }
  }

  /** The members of every updated cluster link to it. */
  ghost predicate StayLinked(db: Db, updates: seq<VersionUpdate>) {
    forall u, t :: u in updates && t in MembersOf(u.chunks) ==> t in db.txs && db.txs[t].clusterId == Some(u.id)
  }

  lemma TrimLinked(mid: Db, view: View, updates: seq<VersionUpdate>)
    requires MembersLinked(mid.txs, Roster(mid)) && TrimsHold(view, ActiveView(mid), updates)
    ensures StayLinked(mid, updates)
  {
    forall u, t | u in updates && t in MembersOf(u.chunks)
      ensures t in mid.txs && mid.txs[t].clusterId == Some(u.id)
    {
      assert u.id in ActiveView(mid) && Claims(Roster(mid), u.id, t);
    }
  }
}
