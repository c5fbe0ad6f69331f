/**
 The repository calls the service makes, each of which may fail as a whole, and
 what each does to the set of active clusters.
 */
module ClusterStore {
  import opened Common
  import opened ClusterDb
  import opened ClusterInvariant
  import opened ClusterHistory
  import opened MembershipRepository
  import opened ClusterRound
  import opened MinedClusters

  /** Calls that leave the process, numbered in the order they are made. */
  class Outside {
    const world: World
    var calls: nat

    constructor (world: World)
      ensures this.world == world
    {
      this.world := world;
      calls := 0;
    }

    method AskNode(t: Txid) returns (r: Reply)
      modifies this
      ensures r == world.node(old(calls), t)
    {
      r := world.node(calls, t);
      calls := calls + 1;
    }

    method Attempt() returns (ok: bool)
      modifies this
      ensures ok == world.ok(old(calls)) && calls == old(calls) + 1
      ensures world.Reliable() ==> ok
    {
      ok := world.ok(calls);
      calls := calls + 1;
    }
  }

  const INSERT_BATCH_SIZE := 10_000

  /** A transaction that ended clusters. */
  datatype Closing =
    | Closing(ids: set<int>, status: Status, at: Option<int>)
    | Trimming(updates: seq<VersionUpdate>, confirmedAt: int)

  class Store {
    const tables: ClusterTables
    const outside: Outside
    ghost var view: View
    ghost var mined: map<Txid, MinedAs>
    /** The active clusters that callers have been told of; a batched insert that fails half-way leaves some out. */
    ghost var shown: View
    /** Whether some batched insert has ever failed half-way. */
    ghost var torn: bool
    /** The closing transactions that went through, in order. */
    ghost var log: seq<Closing>
    /** Every id handed out so far is below this one. */
    ghost var ceiling: int

    constructor (tables: ClusterTables, outside: Outside)
      requires Inv(tables.Contents())
      ensures Valid()
      ensures this.tables == tables && this.outside == outside
      ensures view == ActiveView(tables.Contents()) && mined == MinedRows(tables.Contents())
      ensures shown == view && !torn && log == []
    {
      this.tables, this.outside := tables, outside;
      view, mined := ActiveView(tables.Contents()), MinedRows(tables.Contents());
      shown, torn, log, ceiling := ActiveView(tables.Contents()), false, [], tables.nextId;
    }

    /** The tables keep their invariant, and the two views are theirs. */
    ghost predicate Sound()
      reads this`view, this`mined, tables
    {
      tables.InOrder(view, mined)
    }

    ghost predicate Valid()
      reads this, tables
    {
      && Sound() && PartOf(shown, view) && (!torn ==> shown == view)
      && ceiling == tables.nextId && (forall id :: id in view ==> id < ceiling)
    }

    method FindActiveIdsByTxids(txids: seq<Txid>) returns (ok: bool, ids: set<int>)
      requires Valid()
      modifies outside
      ensures Valid()
      ensures ok ==> ids == Holding(view, Elements(txids))
      ensures outside.world.Reliable() ==> ok
    {
      LookupFormsAgree(tables.Contents(), txids);
      ok, ids := true, {};
      if txids == [] {
        return;
      }
      ok := outside.Attempt();
      if ok {
        ids := FindActiveIds(tables.Contents(), txids);
      }
    }

    /** Rows of clusters known to be active. */
    method FindByIds(ids: set<int>) returns (ok: bool, rows: View)
      requires Valid() && ids <= view.Keys
      modifies outside
      ensures Valid()
      ensures ok ==> rows == map id | id in ids :: view[id]
      ensures outside.world.Reliable() ==> ok
    {
      rows := map[];
      ok := outside.Attempt();
      if ok {
        var db := tables.Contents();
        rows := map id | id in ids :: Loaded(db, id);
      }
    }

    method InsertWithMembers(chunks: seq<Chunk>, at: int) returns (ok: bool, id: int)
      requires Valid() && Holding(view, MembersOf(chunks)) == {}
      modifies this, tables, outside
      ensures Valid() && mined == old(mined) && torn == old(torn)
      ensures log == old(log) && old(ceiling) <= ceiling && (ok ==> id !in old(view) && old(ceiling) <= id < ceiling)
      ensures view == if ok then old(view)[id := Fresh(chunks, at)] else old(view)
      ensures shown == if ok then old(shown)[id := Fresh(chunks, at)] else old(shown)
      ensures outside.world.Reliable() ==> ok
    {
      id := 0;
      ok := outside.Attempt();
      if ok {
        id := InsertRow(chunks, at);
      }
    }

    method InsertRow(chunks: seq<Chunk>, at: int) returns (id: int)
      requires Valid() && Holding(view, MembersOf(chunks)) == {}
      modifies this, tables
      ensures Valid() && mined == old(mined) && torn == old(torn) && log == old(log)
      ensures id !in old(view) && old(ceiling) <= id < ceiling
      ensures view == old(view)[id := Fresh(chunks, at)] && shown == old(shown)[id := Fresh(chunks, at)]
    {
      id := tables.Insert(chunks, at, view, mined);
      PartWith(shown, view, id, Fresh(chunks, at));
      view, shown, ceiling := view[id := Fresh(chunks, at)], shown[id := Fresh(chunks, at)], id + 1;
    }

    method MarkMerged(ids: set<int>) returns (ok: bool)
      requires Valid()
      modifies this, tables, outside
      ensures Valid() && mined == old(mined) && torn == old(torn)
      ensures view == if ok then old(view) - ids else old(view)
      ensures shown == if ok then old(shown) - ids else old(shown)
      ensures ceiling == old(ceiling) && log == if ok then old(log) + [Closing(ids, Merged, None)] else old(log)
      ensures ok ==> EndedAs(tables.Contents(), old(view), ids, Merged, None)
      ensures outside.world.Reliable() ==> ok
    {
      ok := Close(ids, Merged);
    }

    method MarkEvicted(ids: set<int>) returns (ok: bool)
      requires Valid()
      modifies this, tables, outside
      ensures Valid() && mined == old(mined) && torn == old(torn)
      ensures view == if ok then old(view) - ids else old(view)
      ensures shown == if ok then old(shown) - ids else old(shown)
      ensures ceiling == old(ceiling) && log == if ok then old(log) + [Closing(ids, Evicted, None)] else old(log)
      ensures ok ==> EndedAs(tables.Contents(), old(view), ids, Evicted, None)
      ensures outside.world.Reliable() ==> ok
    {
      ok := Close(ids, Evicted);
    }

    method Close(ids: set<int>, status: Status) returns (ok: bool)
      requires Valid() && status in {Evicted, Merged}
      modifies this, tables, outside
      ensures Valid() && mined == old(mined) && torn == old(torn)
      ensures view == if ok then old(view) - ids else old(view)
      ensures shown == if ok then old(shown) - ids else old(shown)
      ensures ceiling == old(ceiling) && log == if ok then old(log) + [Closing(ids, status, None)] else old(log)
      ensures ok ==> EndedAs(tables.Contents(), old(view), ids, status, None)
      ensures outside.world.Reliable() ==> ok
    {
      ok := outside.Attempt();
      if ok {
        tables.Close(ids, status, view, mined);
        PartWithout(shown, view, ids);
        view, shown, log := view - ids, shown - ids, log + [Closing(ids, status, None)];
      }
    }

    method ReplaceChunks(id: int, chunks: seq<Chunk>) returns (ok: bool, cluster: ActiveCluster)
      requires Valid() && id in view && OthersClear(view, id, chunks)
      modifies this, tables, outside
      ensures Valid() && mined == old(mined) && torn == old(torn) && log == old(log) && ceiling == old(ceiling)
      ensures ok ==> cluster == Fresh(chunks, old(view)[id].firstSeenAt)
      ensures view == if ok then old(view)[id := cluster] else old(view)
      ensures shown == if ok then old(shown)[id := cluster] else old(shown)
      ensures outside.world.Reliable() ==> ok
    {
      cluster := Fresh([], 0);
      ok := outside.Attempt();
      if ok {
        cluster := ReplaceRow(id, chunks);
      }
    }

    method ReplaceRow(id: int, chunks: seq<Chunk>) returns (cluster: ActiveCluster)
      requires Valid() && id in view && OthersClear(view, id, chunks)
      modifies this, tables
      ensures Valid() && mined == old(mined) && torn == old(torn) && log == old(log) && ceiling == old(ceiling)
      ensures cluster == Fresh(chunks, old(view)[id].firstSeenAt)
      ensures view == old(view)[id := cluster] && shown == old(shown)[id := cluster]
    {
      cluster := tables.Replace(id, chunks, view, mined);
      PartWith(shown, view, id, cluster);
      view, shown := view[id := cluster], shown[id := cluster];
    }

    method ConfirmMany(ids: set<int>, at: int) returns (ok: bool)
      requires Valid()
      modifies this, tables, outside
      ensures Valid() && mined == old(mined) && torn == old(torn)
      ensures view == if ok then old(view) - ids else old(view)
      ensures shown == if ok then old(shown) - ids else old(shown)
      ensures ceiling == old(ceiling) && log == if ok then old(log) + [Closing(ids, Confirmed, Some(at))] else old(log)
      ensures ok ==> EndedAs(tables.Contents(), old(view), ids, Confirmed, Some(at))
      ensures outside.world.Reliable() ==> ok
    {
      ok := outside.Attempt();
      if ok {
        tables.Confirm(ids, at, view, mined);
        PartWithout(shown, view, ids);
        view, shown, log := view - ids, shown - ids, log + [Closing(ids, Confirmed, Some(at))];
      }
    }

    method TrimAndConfirmMany(updates: seq<VersionUpdate>, at: int) returns (ok: bool)
      requires Valid() && Shrinking(view, updates)
      modifies this, tables, outside
      ensures Valid() && mined == old(mined) && torn == old(torn)
      ensures view == if ok then old(view) - UpdateIds(updates) else old(view)
      ensures shown == if ok then old(shown) - UpdateIds(updates) else old(shown)
      ensures ceiling == old(ceiling) && log == if ok then old(log) + [Trimming(updates, at)] else old(log)
      ensures ok && OneEach(updates) ==> TrimmedAs(tables.Contents(), old(view), updates, at)
      ensures outside.world.Reliable() ==> ok
    {
      ok := outside.Attempt();
      if ok {
        tables.TrimAndConfirm(updates, at, view, mined);
        PartWithout(shown, view, UpdateIds(updates));
        view, shown, log := view - UpdateIds(updates), shown - UpdateIds(updates), log + [Trimming(updates, at)];
      }
    }

    /** The mined among the given txids, one row each, with the block that mined it. */
    method FindMinedByTxids(txids: set<Txid>) returns (ok: bool, rows: seq<MinedRow>)
      requires Valid()
      modifies outside
      ensures Valid()
      ensures ok ==> RowsOf(rows, txids, mined)
      ensures outside.world.Reliable() ==> ok
    {
      rows := [];
      ok := outside.Attempt();
      if ok {
        var found := Enumerate(set t | t in tables.txs && tables.txs[t].minedIn.Some? && t in txids);
        assert forall i :: 0 <= i < |found| ==> found[i] in Elements(found);
        rows := seq(|found|, i requires 0 <= i < |found| && found[i] in tables.txs && tables.txs[found[i]].minedIn.Some?
                               reads tables
                               => MinedRow(found[i], tables.txs[found[i]].minedIn.value));
        forall t | t in txids && t in mined
          ensures exists i :: 0 <= i < |rows| && rows[i].txid == t
        {
          assert t in Elements(found);
          var i :| 0 <= i < |found| && found[i] == t;
          assert rows[i].txid == t;
        }
      }
    }

    lemma Disjoint()
      requires Valid()
      ensures PairwiseDisjoint(view)
    {
      ActiveClustersDisjoint(tables.Contents());
    }

    /** One transaction per batch of ten thousand, so a failure may leave earlier batches behind, and untold. */
    method InsertManyWithMembers(news: seq<NewCluster>) returns (ok: bool, firstId: int, committed: nat)
      requires Valid() && Separate(view, news)
      modifies this, tables, outside
      ensures Valid() && mined == old(mined) && log == old(log) && old(ceiling) <= ceiling
      ensures committed <= |news| && (ok <==> committed == |news|)
      ensures ok <==> !SomeBatchFails(outside.world.ok, old(outside.calls), 0, |news|)
      ensures 0 < committed <==> news != [] && outside.world.ok(old(outside.calls))
      ensures view == WithInserted(old(view), firstId, news[..committed])
      ensures shown == if ok then WithInserted(old(shown), firstId, news) else old(shown)
      ensures torn == (old(torn) || (!ok && 0 < committed))
      ensures firstId == old(ceiling)
      ensures outside.world.Reliable() ==> ok
    {
      ok, firstId, committed := InsertAll(news);
      Tell(firstId, news, committed, old(view));
      ceiling := tables.nextId;
    }

    /** Callers learn of an insert that went through; of one that tore they learn nothing. */
    ghost method Tell(firstId: int, news: seq<NewCluster>, committed: nat, before: View)
      requires PartOf(shown, before) && (!torn ==> shown == before) && committed <= |news|
      requires view == WithInserted(before, firstId, news[..committed]) && forall id :: id in before ==> id < firstId
      modifies this`shown, this`torn
      ensures shown == if committed == |news| then WithInserted(old(shown), firstId, news) else old(shown)
      ensures torn == (old(torn) || 0 < committed < |news|)
      ensures PartOf(shown, view) && (!torn ==> shown == view)
    {
      InsertTold(shown, before, torn, firstId, news, committed, view);
      shown := if committed == |news| then WithInserted(shown, firstId, news) else shown;
      torn := torn || 0 < committed < |news|;
    }

    method InsertAll(news: seq<NewCluster>) returns (ok: bool, firstId: int, committed: nat)
      requires Sound() && Separate(view, news)
      modifies this`view, tables, outside
      ensures Sound()
      ensures committed <= |news| && (ok <==> committed == |news|)
      ensures ok <==> !SomeBatchFails(outside.world.ok, old(outside.calls), 0, |news|)
      ensures 0 < committed <==> news != [] && outside.world.ok(old(outside.calls))
      ensures view == WithInserted(old(view), firstId, news[..committed])
      ensures firstId == old(tables.nextId) <= tables.nextId && forall id :: id in view ==> id < tables.nextId
      ensures outside.world.Reliable() ==> ok
    {
      ghost var db := tables.Contents();
      firstId := tables.nextId;
      StopsShort(outside.world.ok, outside.calls, 0, |news|);
      FirstBatch(outside.world.ok, outside.calls, |news|);
      ok, committed := InsertBatches(news);
      InsertPrefixKeeps(db, news, committed);
      view := WithInserted(view, firstId, news[..committed]);
    }

    method InsertBatches(news: seq<NewCluster>) returns (ok: bool, committed: nat)
      modifies tables, outside
      ensures committed == Committed(outside.world.ok, old(outside.calls), 0, |news|) <= |news|
      ensures ok <==> committed == |news|
      ensures tables.Contents() == InsertClusters(old(tables.Contents()), news[..committed])
      ensures outside.world.Reliable() ==> ok
    {
      ghost var db := tables.Contents();
      committed, ok := 0, true;
      while committed < |news|
        invariant committed <= |news|
        invariant Committed(outside.world.ok, outside.calls, committed, |news|)
               == Committed(outside.world.ok, old(outside.calls), 0, |news|)
        invariant tables.Contents() == InsertClusters(db, news[..committed])
        invariant ok
      {
        var next := NextBatch(committed, |news|);
        ok := outside.Attempt();
        if !ok {
          break;
        }
        assert news[..next] == news[..committed] + news[committed..next];
        InsertClustersConcat(db, news[..committed], news[committed..next]);
        tables.InsertIn(news[committed..next]);
        committed := next;
      }
    }
  }

  // ------------------------------------------------------------------ batched inserts

  /** Every cluster of `some` is in `all`, unchanged. */
  ghost predicate PartOf(some: View, all: View) {
    forall id :: id in some ==> id in all && some[id] == all[id]
  }

  lemma PartHeld(some: View, all: View)
    requires PartOf(some, all)
    ensures HeldBy(some) <= HeldBy(all)
  {
  }

  lemma PartWith(some: View, all: View, id: int, cluster: ActiveCluster)
    requires PartOf(some, all)
    ensures PartOf(some[id := cluster], all[id := cluster])
  {
  }

  lemma PartWithout(some: View, all: View, ids: set<int>)
    requires PartOf(some, all)
    ensures PartOf(some - ids, all - ids)
  {
  }

  lemma {:induction false} WithInsertedPart(some: View, all: View, nextId: int, batch: seq<NewCluster>)
    requires PartOf(some, all)
    ensures PartOf(WithInserted(some, nextId, batch), WithInserted(all, nextId, batch))
  {
    if batch != [] {
      WithInsertedPart(some, all, nextId, batch[..|batch| - 1]);
    }
  }

  /** What is told of an insert stays part of the tables, and all of them unless it tore. */
  lemma InsertTold(shown: View, view: View, torn: bool, firstId: int, news: seq<NewCluster>, committed: nat,
      after: View)
    requires PartOf(shown, view) && (!torn ==> shown == view) && committed <= |news|
    requires after == WithInserted(view, firstId, news[..committed]) && forall id :: id in view ==> id < firstId
    ensures committed == |news| ==>
              PartOf(WithInserted(shown, firstId, news), after)
                  && (!torn ==> WithInserted(shown, firstId, news) == after)
    ensures PartOf(shown, after) && (!torn && committed == 0 ==> shown == after)
  {
    WithInsertedPart(shown, view, firstId, news[..committed]);
    WithInsertedGrows(view, firstId, news[..committed]);
    if committed == |news| {
      assert news[..committed] == news;
    }
    if committed == 0 {
      assert news[..committed] == [];
    }
  }

  function NextBatch(done: nat, n: nat): (next: nat)
    requires done < n
    ensures done < next <= n
  {
    if done + INSERT_BATCH_SIZE < n then done + INSERT_BATCH_SIZE else n
  }

  /** How many of `n` rows are committed when the next batch is call number `call` and `done` already are. */
  function Committed(ok: nat -> bool, call: nat, done: nat, n: nat): nat
    requires done <= n
    decreases n - done
  {
    if done == n || !ok(call) then done else Committed(ok, call + 1, NextBatch(done, n), n)
  }

  /** The batch `j` after the next one is needed, and its call fails. */
  ghost predicate FailsAt(ok: nat -> bool, call: nat, done: nat, n: nat, j: nat) {
    done + j * INSERT_BATCH_SIZE < n && !ok(call + j)
  }

  ghost predicate SomeBatchFails(ok: nat -> bool, call: nat, done: nat, n: nat) {
    exists j: nat :: FailsAt(ok, call, done, n, j)
  }

  /** An insert stops short exactly when one of its batches fails. */
  lemma {:induction false} StopsShort(ok: nat -> bool, call: nat, done: nat, n: nat)
    requires done <= n
    ensures done <= Committed(ok, call, done, n) <= n
    ensures Committed(ok, call, done, n) < n <==> SomeBatchFails(ok, call, done, n)
    decreases n - done
  {
    if done < n {
      if !ok(call) {
        assert FailsAt(ok, call, done, n, 0);
      } else {
        var next := NextBatch(done, n);
        StopsShort(ok, call + 1, next, n);
        if j: nat :| FailsAt(ok, call, done, n, j) {
          assert FailsAt(ok, call + 1, next, n, j - 1);
        }
        if SomeBatchFails(ok, call + 1, next, n) {
          var rest := call + 1;
          var j: nat :| FailsAt(ok, rest, next, n, j);
          assert FailsAt(ok, call, done, n, j + 1);
        }
      }
    }
  }

  lemma FirstBatch(ok: nat -> bool, call: nat, n: nat)
    ensures 0 < Committed(ok, call, 0, n) <==> 0 < n && ok(call)
  {
    if 0 < n && ok(call) {
      StopsShort(ok, call + 1, NextBatch(0, n), n);
    }
  }

  /**
   An insert of `n` rows tears exactly when it needs a second batch, the first
   goes through and a later one does not. A single batch never tears.
   */
  lemma TearsExactly(ok: nat -> bool, call: nat, n: nat)
    ensures 0 < Committed(ok, call, 0, n) < n <==>
              INSERT_BATCH_SIZE < n && ok(call) && SomeBatchFails(ok, call + 1, INSERT_BATCH_SIZE, n)
    ensures n <= INSERT_BATCH_SIZE ==> Committed(ok, call, 0, n) in {0, n}
  {
    FirstBatch(ok, call, n);
    if 0 < n && ok(call) {
      StopsShort(ok, call + 1, NextBatch(0, n), n);
    }
  }
}
