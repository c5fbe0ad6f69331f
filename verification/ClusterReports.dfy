/**
 Where clusters come from: every active cluster stands as it stood, or carries the
 chunks of some reply of the node, with the age it had or the time of the round.
 */
module ClusterReports {
  import opened Common
  import opened ClusterDb
  import opened ClusterInvariant
  import opened ClusterRound
  import opened ClusterHistory
  import opened ClusterStore
  import opened MinedClusters

  /** A cluster keeps its age for as long as it is there; a new one has the age of the round. */
  function Age(start: View, id: int, at: int): int {
    if id in start then start[id].firstSeenAt else at
  }

  /** Untouched since `start`, or as the node reported it; new ids lie at or above `ceiling`. */
  ghost predicate Known(w: World, at: int, ceiling: int, start: View, view: View) {
    forall id :: id in view ==>
      || (id in start && view[id] == start[id])
      || (w.Reported(view[id].chunks) && view[id] == Fresh(view[id].chunks, Age(start, id, at))
          && (id !in start ==> ceiling <= id))
  }

  /** The buffered singletons are what the node reported, with the age of the round. */
  ghost predicate BufferKnown(w: World, at: int, buffer: map<Txid, NewCluster>) {
    forall t :: t in buffer ==> w.Reported(buffer[t].chunks) && buffer[t].firstSeenAt == at
  }

  /** What an upsert of reported `chunks` may set: one cluster's chunks, keeping its age, or a new cluster. */
  ghost predicate Sets(view: View, after: View, chunks: seq<Chunk>, at: int, ceiling: int) {
    forall id :: id in after ==>
      || (id in view && after[id] == view[id])
      || (after[id] == Fresh(chunks, Age(view, id, at)) && (id !in view ==> ceiling <= id))
  }

  lemma KnownSelf(w: World, at: int, ceiling: int, view: View)
    ensures Known(w, at, ceiling, view, view) && BufferKnown(w, at, map[])
  {
  }

  lemma KnownLess(w: World, at: int, ceiling: int, view: View, ids: set<int>)
    ensures Known(w, at, ceiling, view, view - ids)
  {
  }

  /** Rounds that follow each other. */
  lemma KnownAlong(w: World, at: int, first: int, second: int, a: View, b: View, c: View)
    requires Known(w, at, first, a, b) && Known(w, at, second, b, c)
    requires first <= second && forall id :: id in a ==> id < first
    ensures Known(w, at, first, a, c)
  {
  }

  lemma SetsKnown(w: World, at: int, ceiling: int, start: View, view: View, after: View, chunks: seq<Chunk>, now: int)
    requires Known(w, at, ceiling, start, view) && w.Reported(chunks)
    requires Sets(view, after, chunks, at, now) && ceiling <= now && forall id :: id in start ==> id < ceiling
    ensures Known(w, at, ceiling, start, after)
  {
  }

  /** Inserting buffered clusters, all of them or only some. */
  lemma GrownKnown(w: World, at: int, ceiling: int, start: View, view: View, batch: seq<NewCluster>, firstId: int)
    requires Known(w, at, ceiling, start, view)
    requires forall id :: id in start ==> id < ceiling
    requires ceiling <= firstId && forall id :: id in view ==> id < firstId
    requires forall i :: 0 <= i < |batch| ==> w.Reported(batch[i].chunks) && batch[i].firstSeenAt == at
    ensures Known(w, at, ceiling, start, WithInserted(view, firstId, batch))
    decreases |batch|
  {
    if batch != [] {
      var n := |batch| - 1;
      GrownKnown(w, at, ceiling, start, view, batch[..n], firstId);
      WithInsertedLast(view, firstId, batch, WithInserted(view, firstId, batch[..n]), firstId + n);
    }
  }

  lemma InsertSets(view: View, id: int, chunks: seq<Chunk>, at: int, ceiling: int)
    requires ceiling <= id && id !in view
    ensures Sets(view, view[id := Fresh(chunks, at)], chunks, at, ceiling)
  {
  }

  lemma MergeSets(view: View, gone: set<int>, keep: int, chunks: seq<Chunk>, at: int, ceiling: int)
    requires keep in view && keep !in gone
    ensures Sets(view, view, chunks, at, ceiling) && Sets(view, view - gone, chunks, at, ceiling)
    ensures Sets(view, (view - gone)[keep := Fresh(chunks, view[keep].firstSeenAt)], chunks, at, ceiling)
  {
  }

  // ------------------------------------------------------------------- closings

  /** Whatever was closed since was merged into another cluster. */
  ghost predicate MergesOnly(log: seq<Closing>, after: seq<Closing>) {
    log <= after && forall k :: |log| <= k < |after| ==> after[k].Closing? && after[k].status == Merged
  }

  lemma MergesAlong(a: seq<Closing>, b: seq<Closing>, c: seq<Closing>)
    requires MergesOnly(a, b) && MergesOnly(b, c)
    ensures MergesOnly(a, c)
  {
    forall k | |a| <= k < |c| ensures c[k].Closing? && c[k].status == Merged {
      if k < |b| {
        assert c[k] == b[k];
      }
    }
  }

  /** One closing since `log` confirmed the cluster for the block: whole, or trimmed to what the block mined of it. */
  ghost predicate ConfirmedSince(log: seq<Closing>, after: seq<Closing>, id: int, cluster: ActiveCluster,
                                 block: MinedBlock) {
    exists k :: |log| <= k < |after| && Confirms(after[k], id, cluster, block)
  }

  ghost predicate Confirms(c: Closing, id: int, cluster: ActiveCluster, block: MinedBlock) {
    if c.Closing? then
      id in c.ids && c.status == Confirmed && c.at == Some(block.at) && MembersOf(cluster.chunks) <= block.Members()
    else
      c.confirmedAt == block.at && VersionUpdate(id, MinedChunks(block, cluster.chunks)) in c.updates
  }

  /** Every cluster the block touched was confirmed at the block's time, with exactly its mined chunks. */
  ghost predicate BlockLogged(view: View, block: MinedBlock, log: seq<Closing>, after: seq<Closing>) {
    forall id :: id in Holding(view, block.Members()) ==> ConfirmedSince(log, after, id, view[id], block)
  }

  /** One trim per cluster: what the block mined of it. */
  ghost predicate TrimsFor(partial: View, block: MinedBlock, updates: seq<VersionUpdate>) {
    && UpdateIds(updates) == partial.Keys && OneEach(updates)
    && forall u :: u in updates ==> u.id in partial && u.chunks == MinedChunks(block, partial[u.id].chunks)
  }

  /** The first closing since `log` was the trim of `partial`. */
  ghost predicate TrimLogged(partial: View, block: MinedBlock, log: seq<Closing>, after: seq<Closing>) {
    && |log| < |after| && after[|log|].Trimming? && after[|log|].confirmedAt == block.at
    && TrimsFor(partial, block, after[|log|].updates)
  }

  lemma TrimConfirms(partial: View, block: MinedBlock, updates: seq<VersionUpdate>, id: int)
    requires TrimsFor(partial, block, updates) && id in partial
    ensures VersionUpdate(id, MinedChunks(block, partial[id].chunks)) in updates
  {
    assert id in UpdateIds(updates);
    var u :| u in updates && u.id == id;
    assert u == VersionUpdate(id, MinedChunks(block, partial[id].chunks));
  }

  lemma BlockIsLogged(view: View, block: MinedBlock, rows: View, full: set<int>,
                      log: seq<Closing>, mid: seq<Closing>, after: seq<Closing>)
    requires rows.Keys == Holding(view, block.Members()) && forall id :: id in rows ==> rows[id] == view[id]
    requires full == set id | id in rows && MembersOf(rows[id].chunks) <= block.Members()
    requires log <= mid <= after
    requires full != {} ==> mid == log + [Closing(full, Confirmed, Some(block.at))]
    requires rows - full != map[] ==> TrimLogged(rows - full, block, mid, after)
    ensures BlockLogged(view, block, log, after)
  {
    forall id | id in Holding(view, block.Members()) ensures ConfirmedSince(log, after, id, view[id], block) {
      if id in full {
        assert after[|log|] == mid[|log|] && Confirms(after[|log|], id, view[id], block);
      } else {
        assert id in rows - full;
        TrimConfirms(rows - full, block, after[|mid|].updates, id);
        assert Confirms(after[|mid|], id, view[id], block);
      }
    }
  }

  /** The cluster was closed as evicted since. */
  ghost predicate EvictedSince(log: seq<Closing>, after: seq<Closing>, id: int) {
    exists k :: |log| <= k < |after| && after[k].Closing? && after[k].status == Evicted && id in after[k].ids
  }
}
