/**
 The three tables behind the clusters: `clusters`, its versioned `cluster_chunks`
 and the `transactions` rows that link back to a cluster. Every function below is
 one database transaction; the repository class further down runs the same
 transactions statement by statement.
 */
module ClusterDb {
  import opened Common

  datatype Chunk = Chunk(txids: seq<Txid>, fee: int, weight: int)

  datatype Status = Active | Confirmed | Evicted | Merged

  datatype ClusterRow = ClusterRow(
    status: Status,
    version: int,
    totalWeight: int,
    totalFee: int,
    firstSeenAt: int,
    confirmedAt: Option<int>)

  /** Rows of `cluster_chunks` that share a cluster and a version, by position. */
  datatype VersionKey = VersionKey(id: int, version: int)
  datatype StoredChunk = StoredChunk(chunk: Chunk, live: bool)

  /** The block a transaction was mined in. */
  datatype BlockKey = BlockKey(height: int, hash: nat)

  /** What the database knows of a mined transaction: its block, and its own fee and weight. */
  datatype MinedAs = MinedAs(block: BlockKey, at: int, fee: Option<int>, weight: int)

  datatype TxRow = TxRow(clusterId: Option<int>, minedIn: Option<MinedAs>)

  datatype Db = Db(
    clusters: map<int, ClusterRow>,
    chunks: map<VersionKey, seq<StoredChunk>>,
    txs: map<Txid, TxRow>,
    nextId: int)

  /** A cluster as the service and its subscribers see it while it is active. */
  datatype ActiveCluster = ActiveCluster(
    chunks: seq<Chunk>,
    totalWeight: int,
    totalFee: int,
    firstSeenAt: int)

  type View = map<int, ActiveCluster>

  // ---------------------------------------------------------------- reading

  /** Member txids in mining order. */
  function Txids(chunks: seq<Chunk>): seq<Txid> {
    if chunks == [] then [] else chunks[0].txids + Txids(chunks[1..])
  }

  function MembersOf(chunks: seq<Chunk>): set<Txid> {
    Elements(Txids(chunks))
  }

  function WeightOf(chunks: seq<Chunk>): int {
    if chunks == [] then 0 else chunks[0].weight + WeightOf(chunks[1..])
  }

  function FeeOf(chunks: seq<Chunk>): int {
    if chunks == [] then 0 else chunks[0].fee + FeeOf(chunks[1..])
  }

  function Plain(rows: seq<StoredChunk>): seq<Chunk> {
    seq(|rows|, i requires 0 <= i < |rows| => rows[i].chunk)
  }

  function Current(db: Db, id: int): seq<Chunk>
    requires id in db.clusters
  {
    var key := VersionKey(id, db.clusters[id].version);
    if key in db.chunks then Plain(db.chunks[key]) else []
  }

  predicate IsActive(db: Db, id: int) {
    id in db.clusters && db.clusters[id].status == Active
  }

  function Loaded(db: Db, id: int): ActiveCluster
    requires id in db.clusters
  {
    var row := db.clusters[id];
    ActiveCluster(Current(db, id), row.totalWeight, row.totalFee, row.firstSeenAt)
  }

  function ActiveView(db: Db): View {
    map id | id in db.clusters && db.clusters[id].status == Active :: Loaded(db, id)
  }

  /** Txids some active cluster holds. */
  function HeldBy(view: View): set<Txid> {
    set id, t | id in view && t in MembersOf(view[id].chunks) :: t
  }

  predicate Overlaps(a: seq<Txid>, b: seq<Txid>) {
    exists t :: t in a && t in b
  }

  /** What the by-txid lookup means: the active clusters holding any of `wanted`. */
  function Holding(view: View, wanted: set<Txid>): set<int> {
    set id | id in view && !(MembersOf(view[id].chunks) !! wanted)
  }

  /** The short form: live chunks whose txids overlap. */
  function OverlapLookup(db: Db, txids: seq<Txid>): set<int> {
    set key | key in db.chunks
              && (exists i :: 0 <= i < |db.chunks[key]| && db.chunks[key][i].live
                              && Overlaps(db.chunks[key][i].chunk.txids, txids))
            :: key.id
  }

  /** The long form: current chunks of active clusters, joined on txid. */
  function JoinLookup(db: Db, txids: seq<Txid>): set<int> {
    set id | id in db.clusters && db.clusters[id].status == Active
             && (exists i :: 0 <= i < |Current(db, id)| && Overlaps(Current(db, id)[i].txids, txids))
  }

  const ACTIVE_IDS_JOIN_MIN_TXIDS := 64

  function FindActiveIds(db: Db, txids: seq<Txid>): set<int> {
    if |txids| == 0 then {}
    else if |txids| < ACTIVE_IDS_JOIN_MIN_TXIDS then OverlapLookup(db, txids)
    else JoinLookup(db, txids)
  }

  /** The mined transactions, each with the block that mined it. */
  function MinedRows(db: Db): map<Txid, MinedAs> {
    map t | t in db.txs && db.txs[t].minedIn.Some? :: db.txs[t].minedIn.value
  }

  // ---------------------------------------------------------------- writing

  function Stored(chunks: seq<Chunk>, live: bool): seq<StoredChunk> {
    seq(|chunks|, i requires 0 <= i < |chunks| => StoredChunk(chunks[i], live))
  }

  function Retired(rows: seq<StoredChunk>): seq<StoredChunk> {
    seq(|rows|, i requires 0 <= i < |rows| => rows[i].(live := false))
  }

  function RetireChunks(chunks: map<VersionKey, seq<StoredChunk>>, ids: set<int>): map<VersionKey, seq<StoredChunk>> {
    map key | key in chunks :: if key.id in ids then Retired(chunks[key]) else chunks[key]
  }

  function InsertHollow(txs: map<Txid, TxRow>, members: set<Txid>): map<Txid, TxRow> {
    map t | t in txs.Keys + members :: if t in txs then txs[t] else TxRow(None, None)
  }

  function Link(txs: map<Txid, TxRow>, members: set<Txid>, id: int): map<Txid, TxRow> {
    map t | t in txs :: if t in members then txs[t].(clusterId := Some(id)) else txs[t]
  }

  /** Unlinks from the clusters `ids` every transaction outside `keep`. */
  function Unlink(txs: map<Txid, TxRow>, ids: set<int>, keep: set<Txid>): map<Txid, TxRow> {
    map t | t in txs ::
      if txs[t].clusterId.Some? && txs[t].clusterId.value in ids && t !in keep
      then txs[t].(clusterId := None) else txs[t]
  }

  /** A brand-new cluster as its version 1, its members linked to it. */
  function InsertCluster(db: Db, chunks: seq<Chunk>, firstSeenAt: int): Db {
    var id := db.nextId;
    Db(db.clusters[id := ClusterRow(Active, 1, WeightOf(chunks), FeeOf(chunks), firstSeenAt, None)],
       db.chunks[VersionKey(id, 1) := Stored(chunks, true)],
       Link(InsertHollow(db.txs, MembersOf(chunks)), MembersOf(chunks), id),
       id + 1)
  }

  datatype NewCluster = NewCluster(chunks: seq<Chunk>, firstSeenAt: int)

  function InsertClusters(db: Db, batch: seq<NewCluster>): Db {
    if batch == [] then db
    else InsertCluster(InsertClusters(db, batch[..|batch| - 1]), batch[|batch| - 1].chunks,
        batch[|batch| - 1].firstSeenAt)
  }

  /** Records `chunks` as the cluster's next version, unless it is closed or nothing changed. */
  function ReplaceChunks(db: Db, id: int, chunks: seq<Chunk>, live: bool): Db
    requires id in db.clusters
  {
    var row := db.clusters[id];
    if row.status != Active || Current(db, id) == chunks then db
    else
      var superseded := VersionKey(id, row.version);
      var stale := if superseded in db.chunks then db.chunks[superseded := Retired(db.chunks[superseded])]
          else db.chunks;
      Db(db.clusters[id := row.(version := row.version + 1, totalWeight := WeightOf(chunks),
          totalFee := FeeOf(chunks))],
         stale[VersionKey(id, row.version + 1) := Stored(chunks, live)],
         Link(InsertHollow(Unlink(db.txs, {id}, MembersOf(chunks)), MembersOf(chunks)), MembersOf(chunks), id),
         db.nextId)
  }

  function StillActive(db: Db, ids: set<int>): set<int> {
    set id | id in ids && id in db.clusters && db.clusters[id].status == Active
  }

  /** Ends the active life of clusters that merged away or lost their members. */
  function CloseMany(db: Db, ids: set<int>, status: Status): Db {
    var closing := StillActive(db, ids);
    Db(map id | id in db.clusters :: if id in closing then db.clusters[id].(status := status) else db.clusters[id],
       RetireChunks(db.chunks, closing),
       Unlink(db.txs, closing, {}),
       db.nextId)
  }

  /** Confirms the still-active clusters among `ids`; their members stay linked. */
  function ConfirmMany(db: Db, ids: set<int>, at: int): Db {
    var pending := StillActive(db, ids);
    Db(map id | id in db.clusters ::
         if id in pending then db.clusters[id].(status := Confirmed, confirmedAt := Some(at)) else db.clusters[id],
       RetireChunks(db.chunks, pending),
       db.txs,
       db.nextId)
  }

  datatype VersionUpdate = VersionUpdate(id: int, chunks: seq<Chunk>)

  function UpdateIds(updates: seq<VersionUpdate>): set<int> {
    set u | u in updates :: u.id
  }

  function TrimAll(db: Db, updates: seq<VersionUpdate>): (r: Db)
    requires UpdateIds(updates) <= db.clusters.Keys
    ensures r.clusters.Keys == db.clusters.Keys
  {
    if updates == [] then db
    else
      var last := updates[|updates| - 1];
      assert last in updates;
      assert forall u :: u in updates[..|updates| - 1] ==> u in updates;
      ReplaceChunks(TrimAll(db, updates[..|updates| - 1]), last.id, last.chunks, false)
  }

  /** All the trims, then the confirmation of every trimmed cluster, as one transaction. */
  function TrimAndConfirmMany(db: Db, updates: seq<VersionUpdate>, at: int): Db
    requires UpdateIds(updates) <= db.clusters.Keys
  {
    ConfirmMany(TrimAll(db, updates), UpdateIds(updates), at)
  }

  // ------------------------------------------------------------- invariants

  predicate IsCurrent(db: Db, key: VersionKey) {
    key.id in db.clusters && db.clusters[key.id].status == Active && key.version == db.clusters[key.id].version
  }

  /**
   Chunk rows belong to known versions, the current one is stored, and only confirmed clusters have
   a confirmation time.
   */
  ghost predicate RowsOk(db: Db) {
    && (forall id :: id in db.clusters ==> id < db.nextId && VersionKey(id, db.clusters[id].version) in db.chunks)
    && (forall key :: key in db.chunks ==>
          key.id in db.clusters && key.version <= db.clusters[key.id].version)
    && (forall id :: id in db.clusters ==> (db.clusters[id].status == Confirmed <==> db.clusters[id].confirmedAt.Some?))
  }

  /** A chunk is `live` exactly when it is current; within `trimming` only the "only if" is left. */
  ghost predicate LiveOk(db: Db, trimming: set<int>) {
    forall key, i :: key in db.chunks && 0 <= i < |db.chunks[key]| ==>
      && (db.chunks[key][i].live ==> IsCurrent(db, key))
      && (IsCurrent(db, key) && key.id !in trimming ==> db.chunks[key][i].live)
  }

  ghost predicate TotalsOk(db: Db) {
    forall id :: id in db.clusters ==>
      db.clusters[id].totalWeight == WeightOf(Current(db, id)) && db.clusters[id].totalFee == FeeOf(Current(db, id))
  }

  /** A cluster as the links see it. */
  datatype Entry = Entry(status: Status, members: set<Txid>)

  function Roster(db: Db): map<int, Entry> {
    map id | id in db.clusters :: Entry(db.clusters[id].status, MembersOf(Current(db, id)))
  }

  ghost predicate Claims(roster: map<int, Entry>, id: int, t: Txid) {
    id in roster && t in roster[id].members
  }

  /** Every member of an active cluster has a row pointing back at that cluster. */
  ghost predicate MembersLinked(txs: map<Txid, TxRow>, roster: map<int, Entry>) {
    forall id, t :: Claims(roster, id, t) && roster[id].status == Active ==>
      t in txs && txs[t].clusterId == Some(id)
  }

  /** Every link points at an active or confirmed cluster whose current version holds the txid. */
  ghost predicate LinksRightful(txs: map<Txid, TxRow>, roster: map<int, Entry>) {
    forall t :: t in txs && txs[t].clusterId.Some? ==>
      Claims(roster, txs[t].clusterId.value, t) && roster[txs[t].clusterId.value].status in {Active, Confirmed}
  }

  ghost predicate InvExcept(db: Db, trimming: set<int>) {
    RowsOk(db) && LiveOk(db, trimming) && TotalsOk(db)
    && MembersLinked(db.txs, Roster(db)) && LinksRightful(db.txs, Roster(db))
  }

  ghost predicate Inv(db: Db) {
    InvExcept(db, {})
  }

  ghost predicate PairwiseDisjoint(view: View) {
    forall a, b :: a in view && b in view && a != b ==> MembersOf(view[a].chunks) !! MembersOf(view[b].chunks)
  }

  // ------------------------------------------------------------------ facts

  lemma {:induction false} TxidsSpread(chunks: seq<Chunk>, t: Txid)
    ensures t in MembersOf(chunks) <==> exists i :: 0 <= i < |chunks| && t in chunks[i].txids
  {
    if chunks != [] {
      TxidsSpread(chunks[1..], t);
      assert t in Txids(chunks) <==> t in chunks[0].txids || t in Txids(chunks[1..]);
      if i :| 0 <= i < |chunks| && t in chunks[i].txids {
        if i != 0 {
          assert chunks[1..][i - 1] == chunks[i];
        }
      }
      if j :| 0 <= j < |chunks[1..]| && t in chunks[1..][j].txids {
        assert chunks[j + 1] == chunks[1..][j];
      }
    }
  }

  /** A transaction row holds one link, so no txid sits in two active clusters. */
  lemma ActiveClustersDisjoint(db: Db)
    requires MembersLinked(db.txs, Roster(db))
    ensures PairwiseDisjoint(ActiveView(db))
  {
    var view := ActiveView(db);
    forall a, b | a in view && b in view && a != b
      ensures MembersOf(view[a].chunks) !! MembersOf(view[b].chunks)
    {
      forall t | t in MembersOf(view[a].chunks)
        ensures t !in MembersOf(view[b].chunks)
      {
        assert Claims(Roster(db), a, t);
        if t in MembersOf(view[b].chunks) {
          assert Claims(Roster(db), b, t);
        }
      }
    }
  }

  lemma OverlapIsHolding(db: Db, txids: seq<Txid>, id: int)
    requires RowsOk(db) && LiveOk(db, {})
    ensures id in OverlapLookup(db, txids) <==> id in Holding(ActiveView(db), Elements(txids))
  {
    if id in OverlapLookup(db, txids) {
      var key :| key in db.chunks && key.id == id
                 && exists i :: 0 <= i < |db.chunks[key]| && db.chunks[key][i].live
                     && Overlaps(db.chunks[key][i].chunk.txids, txids);
      var i :| 0 <= i < |db.chunks[key]| && db.chunks[key][i].live && Overlaps(db.chunks[key][i].chunk.txids, txids);
      var t :| t in db.chunks[key][i].chunk.txids && t in txids;
      assert IsCurrent(db, key);
      assert Current(db, id)[i] == db.chunks[key][i].chunk;
      TxidsSpread(Current(db, id), t);
      assert t in MembersOf(ActiveView(db)[id].chunks) && t in Elements(txids);
    }
    if id in Holding(ActiveView(db), Elements(txids)) {
      var t :| t in MembersOf(ActiveView(db)[id].chunks) && t in Elements(txids);
      TxidsSpread(Current(db, id), t);
      var i :| 0 <= i < |Current(db, id)| && t in Current(db, id)[i].txids;
      var key := VersionKey(id, db.clusters[id].version);
      assert IsCurrent(db, key) && db.chunks[key][i].live;
      assert db.chunks[key][i].chunk == Current(db, id)[i];
      assert Overlaps(db.chunks[key][i].chunk.txids, txids);
      assert key.id == id;
    }
  }

  lemma JoinIsHolding(db: Db, txids: seq<Txid>, id: int)
    ensures id in JoinLookup(db, txids) <==> id in Holding(ActiveView(db), Elements(txids))
  {
    if id in JoinLookup(db, txids) {
      var i :| 0 <= i < |Current(db, id)| && Overlaps(Current(db, id)[i].txids, txids);
      var t :| t in Current(db, id)[i].txids && t in txids;
      TxidsSpread(Current(db, id), t);
      assert t in MembersOf(ActiveView(db)[id].chunks) && t in Elements(txids);
    }
    if id in Holding(ActiveView(db), Elements(txids)) {
      var t :| t in MembersOf(ActiveView(db)[id].chunks) && t in Elements(txids);
      TxidsSpread(Current(db, id), t);
      var i :| 0 <= i < |Current(db, id)| && t in Current(db, id)[i].txids;
      assert Overlaps(Current(db, id)[i].txids, txids);
    }
  }

  /** Both query forms return the active clusters that hold any of the txids, whatever the list's length. */
  lemma LookupFormsAgree(db: Db, txids: seq<Txid>)
    requires Inv(db)
    ensures OverlapLookup(db, txids) == JoinLookup(db, txids)
    ensures FindActiveIds(db, txids) == Holding(ActiveView(db), Elements(txids))
  {
    forall id
      ensures id in OverlapLookup(db, txids) <==> id in Holding(ActiveView(db), Elements(txids))
      ensures id in JoinLookup(db, txids) <==> id in Holding(ActiveView(db), Elements(txids))
    {
      OverlapIsHolding(db, txids, id);
      JoinIsHolding(db, txids, id);
    }
    if txids == [] {
      assert Elements(txids) == {};
    }
  }
}
