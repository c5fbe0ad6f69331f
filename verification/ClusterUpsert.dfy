/** What inserting, merging and replacing clusters does to the set of active clusters. */
module ClusterUpsert {
  import opened Common
  import opened ClusterDb
  import opened ClusterInvariant
  import opened ClusterRound

  /** Members of the named clusters. */
  function MembersIn(view: View, ids: set<int>): set<Txid>
    requires ids <= view.Keys
  {
    set id, t | id in ids && t in MembersOf(view[id].chunks) :: t
  }

  /** The cluster a merge keeps: the one seen first, the lowest id among equals. */
  ghost predicate Oldest(view: View, ids: set<int>, keep: int)
    requires ids <= view.Keys
  {
    keep in ids && forall id :: id in ids ==>
      view[keep].firstSeenAt < view[id].firstSeenAt
      || (view[keep].firstSeenAt == view[id].firstSeenAt && keep <= id)
  }

  /** Of several overlapping clusters the oldest takes over the reported chunks and keeps its age. */
  ghost predicate Survives(view: View, after: View, chunks: seq<Chunk>) {
    var existing := Holding(view, MembersOf(chunks));
    exists id :: id in after && after[id].chunks == chunks
      && (existing != {} ==> Oldest(view, existing, id) && after[id].firstSeenAt == view[id].firstSeenAt)
  }

  lemma InsertUpserts(view: View, id: int, cluster: ActiveCluster)
    requires id !in view && Holding(view, MembersOf(cluster.chunks)) == {}
    ensures var after, group := view[id := cluster], MembersOf(cluster.chunks);
            Upserts(view, after, group, []) && UpsertsFully(view, after, group) && Survives(view, after, cluster.chunks)
  {
    var after, group := view[id := cluster], MembersOf(cluster.chunks);
    forall t | t in HeldBy(view)
      ensures t in HeldBy(after)
    {
      HeldIff(view, t);
      var other :| Holds(view, other, t);
      assert Holds(after, other, t);
      HeldIff(after, t);
    }
    assert after[id].chunks == cluster.chunks;
  }

  lemma UntouchedUpserts(view: View, group: set<Txid>)
    ensures Upserts(view, view, group, [])
  {
  }

  /** After the merge only: the other clusters are gone, the kept one still has its old members. */
  lemma MergedUpserts(view: View, existing: set<int>, keep: int, group: set<Txid>, detached: seq<Txid>)
    requires existing <= view.Keys && keep in existing
    requires Elements(detached) == MembersIn(view, existing) - group
    ensures Upserts(view, view - (existing - {keep}), group, detached)
  {
    var after := view - (existing - {keep});
    forall t | t in HeldBy(view)
      ensures t in HeldBy(after) || t in detached || t in group
    {
      HeldIff(view, t);
      var id :| Holds(view, id, t);
      if id in existing {
        assert t in MembersIn(view, existing);
        assert t in group || t in Elements(detached);
      } else {
        assert Holds(after, id, t);
        HeldIff(after, t);
      }
    }
    DetachedHeld(view, existing, group, detached);
  }

  lemma DetachedHeld(view: View, existing: set<int>, group: set<Txid>, detached: seq<Txid>)
    requires existing <= view.Keys
    requires Elements(detached) == MembersIn(view, existing) - group
    ensures forall t :: t in detached ==> t in HeldBy(view) && t !in group
  {
    forall t | t in detached
      ensures t in HeldBy(view) && t !in group
    {
      assert t in Elements(detached);
      var id :| id in existing && t in MembersOf(view[id].chunks);
      assert Holds(view, id, t);
      HeldIff(view, t);
    }
  }

  lemma ReplacedUpserts(view: View, keep: int, cluster: ActiveCluster, detached: seq<Txid>)
    requires var group := MembersOf(cluster.chunks);
             var existing := Holding(view, group);
             && Oldest(view, existing, keep)
             && cluster.firstSeenAt == view[keep].firstSeenAt
             && Elements(detached) == MembersIn(view, existing) - group
    ensures var group := MembersOf(cluster.chunks);
            var after := (view - (Holding(view, group) - {keep}))[keep := cluster];
            Upserts(view, after, group, detached) && UpsertsFully(view, after, group)
                && Survives(view, after, cluster.chunks)
  {
    var group := MembersOf(cluster.chunks);
    var existing := Holding(view, group);
    var after := (view - (existing - {keep}))[keep := cluster];
    forall t | t in HeldBy(view)
      ensures t in HeldBy(after) || t in detached || t in group
    {
      HeldIff(view, t);
      var id :| Holds(view, id, t);
      if id in existing {
        assert t in MembersIn(view, existing);
        assert t in group || t in Elements(detached);
      } else {
        assert Holds(after, id, t);
        HeldIff(after, t);
      }
    }
    DetachedHeld(view, existing, group, detached);
    assert after[keep].chunks == cluster.chunks;
  }

  /** Once the other overlapping clusters are closed, nothing else holds a member of the group. */
  lemma MergeClears(view: View, keep: int, chunks: seq<Chunk>)
    requires keep in Holding(view, MembersOf(chunks))
    ensures OthersClear(view - (Holding(view, MembersOf(chunks)) - {keep}), keep, chunks)
  {
  }
}
