/**
 From the stages of one resync to its whole: what confirmations, evictions and
 candidates do to the active clusters adds up to the components of the new
 mempool.
 */
module ClusterResync {
  import opened Common
  import opened ClusterDb
  import opened SpendGraph
  import opened ClusterRound
  import opened ClusterUpsert

  /** Every active cluster is untouched since `start` and free of the `gone`, or one the node reported. */
  ghost predicate DerivedClear(w: World, start: View, view: View, gone: set<Txid>) {
    forall id :: id in view ==>
      || (id in start && view[id] == start[id] && MembersOf(view[id].chunks) !! gone)
      || w.Vouched(MembersOf(view[id].chunks))
  }

  /** Resident txids stay in some cluster, except the `dropped`. */
  ghost predicate Retains(w: World, before: View, after: View, dropped: set<Txid>) {
    forall t :: t in w.pool && t in HeldBy(before) && t !in dropped ==> t in HeldBy(after)
  }

  lemma DerivedIsClear(w: World, start: View, view: View)
    requires Derived(w, start, view)
    ensures DerivedClear(w, start, view, {})
  {
  }

  lemma ClearCompose(w: World, a: View, b: View, c: View, first: set<Txid>, second: set<Txid>)
    requires DerivedClear(w, a, b, first) && DerivedClear(w, b, c, second)
    ensures DerivedClear(w, a, c, first + second)
  {
  }

  lemma StaysClear(w: World, view: View)
    ensures DerivedClear(w, view, view, {}) && Retains(w, view, view, {})
  {
  }

  // ------------------------------------------------------------------- a block

  /** Closing every cluster that holds one of the txids leaves none of them in an untouched cluster. */
  lemma ClosedClear(w: World, view: View, gone: set<Txid>, after: View)
    requires Derived(w, view - Holding(view, gone), after)
    ensures DerivedClear(w, view, after, gone)
  {
    forall id | id in view && id !in Holding(view, gone)
      ensures MembersOf(view[id].chunks) !! gone
    {
    }
  }

  /** What was in a closed cluster and is not gone has been asked about again. */
  lemma ClosedRetains(w: World, view: View, gone: set<Txid>, pending: seq<Txid>, after: View)
    requires MembersIn(view, Holding(view, gone)) - gone <= Elements(pending)
    requires forall t :: t in w.pool && (t in HeldBy(view - Holding(view, gone)) || t in pending) ==> t in HeldBy(after)
    ensures Retains(w, view, after, gone)
  {
    var closed := Holding(view, gone);
    forall t | t in w.pool && t in HeldBy(view) && t !in gone
      ensures t in HeldBy(after)
    {
      HeldIff(view, t);
      var id :| Holds(view, id, t);
      if id in closed {
        assert t in MembersIn(view, closed);
        assert t in Elements(pending);
      } else {
        assert Holds(view - closed, id, t);
        HeldIff(view - closed, t);
      }
    }
  }

  /** Mined clusters close: with the node silent about the block, none of its txids stays in an active cluster. */
  lemma BlockCleared(w: World, start: View, view: View, block: set<Txid>)
    requires DerivedClear(w, start, view, block)
    requires w.Shunning() && block <= w.shunned
    ensures HeldBy(view) !! block
  {
    forall t | t in HeldBy(view)
      ensures t !in block
    {
      HeldIff(view, t);
      var id :| Holds(view, id, t);
      assert MembersOf(view[id].chunks) !! block;
    }
  }

  // ----------------------------------------------------------------- evictions

  /** Members of a cluster that are still resident after the eviction. */
  function Remaining(members: set<Txid>, evicted: set<Txid>, live: set<Txid>): set<Txid> {
    (members - evicted) * live
  }

  /** `emptied` are the clusters the eviction emptied, `survivors` who is left in the others. */
  ghost predicate Sorted(view: View, evicted: set<Txid>, live: set<Txid>, emptied: set<int>, survivors: set<Txid>) {
    && emptied <= Holding(view, evicted)
    && (forall id :: id in Holding(view, evicted) ==>
          && (id in emptied <==> Remaining(MembersOf(view[id].chunks), evicted, live) == {})
          && Remaining(MembersOf(view[id].chunks), evicted, live) <= survivors)
    && survivors <= live && survivors !! evicted
  }

  lemma EvictedClear(w: World, view: View, evicted: set<Txid>, emptied: set<int>, survivors: set<Txid>, after: View)
    requires w.Truthful() && Sorted(view, evicted, w.pool, emptied, survivors)
    requires Derived(w, view - emptied, after) && PairwiseDisjoint(after)
    requires forall t :: t in survivors ==> HasGroup(after, Component(w.spends, w.pool, t))
    ensures DerivedClear(w, view, after, evicted)
  {
    forall id | id in after && !w.Vouched(MembersOf(after[id].chunks))
      ensures id in view && after[id] == view[id] && MembersOf(after[id].chunks) !! evicted
    {
      if id in Holding(view, evicted) {
        var t :| t in Remaining(MembersOf(view[id].chunks), evicted, w.pool);
        UntouchedIsComponent(w, after, id, t);
        ComponentVouched(w, t);
      }
    }
  }

  lemma ComponentVouched(w: World, t: Txid)
    requires w.Truthful() && t in w.pool
    ensures w.Vouched(Component(w.spends, w.pool, t))
  {
    assert w.node(0, t).Found? && MembersOf(w.node(0, t).chunks) == Component(w.spends, w.pool, t);
  }

  /** A cluster sharing a member with a component that stands as a cluster is that component. */
  lemma UntouchedIsComponent(w: World, view: View, id: int, t: Txid)
    requires PairwiseDisjoint(view) && Holds(view, id, t) && t in w.pool
    requires HasGroup(view, Component(w.spends, w.pool, t))
    ensures MembersOf(view[id].chunks) == Component(w.spends, w.pool, t)
    ensures IsComponent(w.spends, w.pool, MembersOf(view[id].chunks))
  {
    ConnectedSelf(w.spends, w.pool, t);
    var other :| other in view && MembersOf(view[other].chunks) == Component(w.spends, w.pool, t);
    if other != id {
      assert MembersOf(view[other].chunks) !! MembersOf(view[id].chunks);
    }
  }

  lemma EvictedRetains(w: World, view: View, evicted: set<Txid>, emptied: set<int>, survivors: set<Txid>, after: View)
    requires Sorted(view, evicted, w.pool, emptied, survivors)
    requires forall t :: t in w.pool && t in HeldBy(view - emptied) && t !in evicted ==> t in HeldBy(after)
    ensures Retains(w, view, after, evicted)
  {
    forall t | t in w.pool && t in HeldBy(view) && t !in evicted
      ensures t in HeldBy(after)
    {
      HeldIff(view, t);
      var id :| Holds(view, id, t);
      assert t in Remaining(MembersOf(view[id].chunks), evicted, w.pool);
      assert Holds(view - emptied, id, t);
      HeldIff(view - emptied, t);
    }
  }

  // --------------------------------------------------------------- the whole sync

  /** The active clusters are exactly the components of the pool. */
  ghost predicate Recomputed(spends: Spends, pool: set<Txid>, view: View) {
    && (forall id :: id in view ==> IsComponent(spends, pool, MembersOf(view[id].chunks)))
    && (forall t :: t in pool ==> HasGroup(view, Component(spends, pool, t)))
  }

  /** What a flush must tell the resync: who left, who arrived, and who did both. */
  ghost predicate Covers(was: set<Txid>, pool: set<Txid>, left: set<Txid>, added: set<Txid>) {
    was - pool <= left && pool - was <= added && left * pool <= added
  }

  /** A resident whose component nobody has joined or returned to. */
  ghost predicate Quiet(w: World, added: set<Txid>, t: Txid) {
    t in w.pool && Component(w.spends, w.pool, t) !! added
  }

  lemma HeldAfterRecompute(spends: Spends, pool: set<Txid>, view: View, t: Txid)
    requires Recomputed(spends, pool, view) && t in pool
    ensures t in HeldBy(view)
  {
    ConnectedSelf(spends, pool, t);
    var id :| id in view && MembersOf(view[id].chunks) == Component(spends, pool, t);
    assert Holds(view, id, t);
    HeldIff(view, t);
  }

  /**
   Incremental resync is full recomputation. The clusters were the components
   of the old mempool; what is left untouched of them is free of departures,
   whatever arrived has had its component placed, and no component without
   arrivals has been let go.
   */
  lemma ResyncIsRecompute(w: World, was: set<Txid>, before: View, after: View, left: set<Txid>, added: set<Txid>)
    requires w.Truthful() && Recomputed(w.spends, was, before)
    requires Covers(was, w.pool, left, added)
    requires DerivedClear(w, before, after, left)
    requires forall t :: Quiet(w, added, t) ==> t in HeldBy(after)
    requires forall t :: t in added && t in w.pool ==> HasGroup(after, Component(w.spends, w.pool, t))
    requires PairwiseDisjoint(after)
    ensures Recomputed(w.spends, w.pool, after)
  {
    forall id | id in after
      ensures IsComponent(w.spends, w.pool, MembersOf(after[id].chunks))
    {
      if !w.Vouched(MembersOf(after[id].chunks)) {
        UntouchedSurvives(w, was, before, after, left, added, id);
      }
    }
    forall t | t in w.pool
      ensures HasGroup(after, Component(w.spends, w.pool, t))
    {
      if Quiet(w, added, t) {
        HeldIff(after, t);
        var id :| Holds(after, id, t);
        ComponentOfMember(w.spends, w.pool, MembersOf(after[id].chunks), t);
      } else {
        var x :| x in Component(w.spends, w.pool, t) && x in added;
        SameComponent(w.spends, w.pool, t, x);
      }
    }
  }

  /** An old component that no departure and no arrival touched is a component still. */
  lemma UntouchedSurvives(w: World, was: set<Txid>, before: View, after: View, left: set<Txid>, added: set<Txid>,
      id: int)
    requires Recomputed(w.spends, was, before) && Covers(was, w.pool, left, added)
    requires PairwiseDisjoint(after)
    requires forall t :: t in added && t in w.pool ==> HasGroup(after, Component(w.spends, w.pool, t))
    requires id in after && id in before && after[id] == before[id]
    requires MembersOf(after[id].chunks) !! left
    ensures IsComponent(w.spends, w.pool, MembersOf(after[id].chunks))
  {
    var group := MembersOf(after[id].chunks);
    var t :| t in was && group == Component(w.spends, was, t);
    ConnectedSelf(w.spends, was, t);
    assert group <= was;
    assert group <= w.pool;
    if Component(w.spends, w.pool, t) != group {
      var x := NewcomerJoins(w.spends, was, w.pool, group, t);
      SameComponent(w.spends, w.pool, t, x);
      assert HasGroup(after, Component(w.spends, w.pool, x));
      UntouchedIsComponent(w, after, id, t);
    }
  }
}
