/** The change set one mutation round hands to the streaming side. */
module ClusterDelta {
  import opened Common
  import opened ClusterDb
  import opened ClusterInvariant

  datatype Delta = Delta(upserted: View, removed: set<int>)

  const NoChange := Delta(map[], {})

  /** What a change set means: its upserts, then its removals. */
  function Apply(view: View, d: Delta): View {
    (view + d.upserted) - d.removed
  }

  predicate Coherent(d: Delta) {
    d.upserted.Keys !! d.removed
  }

  function MarkRemoved(d: Delta, id: int): Delta {
    Delta(d.upserted - {id}, d.removed + {id})
  }

  /** A closed cluster counts as removed. */
  function MarkUpserted(d: Delta, id: int, status: Status, cluster: ActiveCluster): Delta {
    if status != Active then MarkRemoved(d, id)
    else Delta(d.upserted[id := cluster], d.removed - {id})
  }

  function MarkAllRemoved(d: Delta, ids: set<int>): Delta {
    Delta(d.upserted - ids, d.removed + ids)
  }

  function Merge(d: Delta, later: Delta): Delta {
    Delta((d.upserted + later.upserted) - later.removed, (d.removed - later.upserted.Keys) + later.removed)
  }

  /** Merging change sets is composing them, and no id ends up both upserted and removed. */
  lemma MergeComposes(view: View, d: Delta, later: Delta)
    ensures Apply(view, Merge(d, later)) == Apply(Apply(view, d), later)
    ensures Coherent(d) ==> Coherent(Merge(d, later))
  {
    assert Apply(view, Merge(d, later)).Keys == Apply(Apply(view, d), later).Keys;
  }

  lemma NoChangeApplies(view: View)
    ensures Apply(view, NoChange) == view && Coherent(NoChange)
  {
  }

  lemma RemovalsApply(view: View, d: Delta, ids: set<int>)
    ensures Apply(view, MarkAllRemoved(d, ids)) == Apply(view, d) - ids
    ensures Coherent(d) ==> Coherent(MarkAllRemoved(d, ids))
  {
  }

  lemma UpsertApplies(view: View, d: Delta, id: int, cluster: ActiveCluster)
    ensures Apply(view, MarkUpserted(d, id, Active, cluster)) == Apply(view, d)[id := cluster]
    ensures Coherent(d) ==> Coherent(MarkUpserted(d, id, Active, cluster))
  {
  }

  /** Marks a batch of new clusters as upserted, one row after another. */
  function MarkInserted(d: Delta, nextId: int, batch: seq<NewCluster>): Delta {
    if batch == [] then d
    else
      var last := batch[|batch| - 1];
      MarkUpserted(MarkInserted(d, nextId, batch[..|batch| - 1]), nextId + |batch| - 1, Active,
          Fresh(last.chunks, last.firstSeenAt))
  }

  lemma InsertedStep(before: View, after: View, base: View, nextId: int, batch: seq<NewCluster>, id: int)
    requires batch != [] && id == nextId + |batch| - 1
    requires before == WithInserted(base, nextId, batch[..|batch| - 1])
    requires after == before[id := Fresh(batch[|batch| - 1].chunks, batch[|batch| - 1].firstSeenAt)]
    ensures after == WithInserted(base, nextId, batch)
  {
    WithInsertedLast(base, nextId, batch, before, id);
  }

  lemma {:induction false} InsertedApplies(view: View, d: Delta, nextId: int, batch: seq<NewCluster>)
    ensures Apply(view, MarkInserted(d, nextId, batch)) == WithInserted(Apply(view, d), nextId, batch)
  {
    if batch != [] {
      var n := |batch| - 1;
      var mid, last, id := MarkInserted(d, nextId, batch[..n]), batch[n], nextId + |batch| - 1;
      var cluster := Fresh(last.chunks, last.firstSeenAt);
      InsertedApplies(view, d, nextId, batch[..n]);
      UpsertApplies(view, mid, id, cluster);
      InsertedStep(Apply(view, mid), Apply(view, MarkUpserted(mid, id, Active, cluster)), Apply(view, d), nextId,
          batch, id);
    }
  }

  lemma {:induction false} InsertedCoherent(d: Delta, nextId: int, batch: seq<NewCluster>)
    requires Coherent(d)
    ensures Coherent(MarkInserted(d, nextId, batch))
  {
    if batch != [] {
      InsertedCoherent(d, nextId, batch[..|batch| - 1]);
    }
  }

  class ClusterDeltaSet {
    var upserted: View
    var removed: set<int>

    constructor ()
      ensures Changes() == NoChange
    {
      upserted, removed := map[], {};
    }

    function Changes(): Delta
      reads this
    {
      Delta(upserted, removed)
    }

    /** An active cluster is put into any view, a closed one taken out; no id is ever both upserted and removed. */
    method Upsert(id: int, status: Status, cluster: ActiveCluster)
      modifies this
      ensures Changes() == MarkUpserted(old(Changes()), id, status, cluster)
      ensures Coherent(old(Changes())) ==> Coherent(Changes())
      ensures status == Active ==> forall view :: Apply(view, Changes()) == Apply(view, old(Changes()))[id := cluster]
      ensures status != Active ==> forall view :: Apply(view, Changes()) == Apply(view, old(Changes())) - {id}
    {
      ghost var before := Changes();
      forall view
        ensures Apply(view, MarkUpserted(before, id, status, cluster))
             == (if status == Active then Apply(view, before)[id := cluster] else Apply(view, before) - {id})
      {
        UpsertApplies(view, before, id, cluster);
        RemovalsApply(view, before, {id});
      }
      if status != Active {
        Remove(id);
        return;
      }
      removed := removed - {id};
      upserted := upserted[id := cluster];
    }

    method Remove(id: int)
      modifies this
      ensures Changes() == MarkRemoved(old(Changes()), id)
    {
      upserted := upserted - {id};
      removed := removed + {id};
    }

    /** The later set wins on every id it names, in whatever order its entries come. */
    method MergeIn(later: ClusterDeltaSet)
      requires later != this
      modifies this
      ensures Changes() == Merge(old(Changes()), later.Changes())
    {
      UpsertAll(later.upserted);
      RemoveAll(later.removed);
    }

    method UpsertAll(news: View)
      modifies this
      ensures Changes() == Delta(old(upserted) + news, old(removed) - news.Keys)
    {
      var left := news.Keys;
      ghost var base, gone := upserted, removed;
      TakeEnds(base, news);
      while left != {}
        invariant left <= news.Keys
        invariant upserted == base + (news - left)
        invariant removed == gone - (news.Keys - left)
        decreases |left|
      {
        var id := PickOne(left);
        TakeOne(base, gone, news, left, id);
        removed := removed - {id};
        upserted := upserted[id := news[id]];
        left := left - {id};
      }
    }

    method RemoveAll(gone: set<int>)
      modifies this
      ensures Changes() == MarkAllRemoved(old(Changes()), gone)
    {
      var left := gone;
      while left != {}
        invariant left <= gone
        invariant upserted == old(upserted) - (gone - left)
        invariant removed == old(removed) + (gone - left)
        decreases |left|
      {
        var id := PickOne(left);
        assert gone - (left - {id}) == (gone - left) + {id};
        Remove(id);
        left := left - {id};
      }
    }
  }

  lemma TakeEnds(base: View, news: View)
    ensures base + (news - news.Keys) == base
    ensures news - {} == news
  {
  }

  lemma TakeOne(base: View, gone: set<int>, news: View, left: set<int>, id: int)
    requires left <= news.Keys && id in left
    ensures base + (news - (left - {id})) == (base + (news - left))[id := news[id]]
    ensures gone - (news.Keys - (left - {id})) == gone - (news.Keys - left) - {id}
  {
  }
}
