/**
 What becomes, in a resync, of components that nothing has joined: which of them
 the confirmations sweep out, and why nothing else moves them.
 */
module ClusterSweep {
  import opened Common
  import opened ClusterDb
  import opened SpendGraph
  import opened ClusterRound
  import opened MinedClusters
  import opened ClusterResync

  /** The component of `t` sits inside one active cluster. */
  ghost predicate Whole(w: World, view: View, t: Txid) {
    exists id :: id in view && Component(w.spends, w.pool, t) <= MembersOf(view[id].chunks)
  }

  /** Nobody is held who is not in `from` or in the component of someone who is. */
  ghost predicate Sources(w: World, from: set<Txid>, after: View) {
    forall t :: t in HeldBy(after) ==> Sourced(w, from, t)
  }

  lemma SourcesGrow(w: World, from: set<Txid>, more: set<Txid>, after: View)
    requires Sources(w, from, after) && from <= more
    ensures Sources(w, more, after)
  {
    forall t | t in HeldBy(after) && t !in from ensures Sourced(w, more, t) {
      var u :| u in from && u in w.pool && t in Component(w.spends, w.pool, u);
      assert u in more;
    }
  }

  /** A component with no member among the sources is not held. */
  lemma AbsentStays(w: World, from: set<Txid>, after: View, t: Txid)
    requires Sources(w, from, after) && t in w.pool && Component(w.spends, w.pool, t) !! from
    ensures Component(w.spends, w.pool, t) !! HeldBy(after)
  {
    ConnectedSelf(w.spends, w.pool, t);
    forall x | x in Component(w.spends, w.pool, t) ensures x !in HeldBy(after) {
      SameComponent(w.spends, w.pool, t, x);
      if x in HeldBy(after) {
        var u :| u in from && u in w.pool && x in Component(w.spends, w.pool, u);
        SameComponent(w.spends, w.pool, u, x);
        ConnectedSelf(w.spends, w.pool, u);
      }
    }
  }

  lemma WholeHeld(w: World, view: View, t: Txid, u: Txid)
    requires Whole(w, view, t) && u in Component(w.spends, w.pool, t)
    ensures u in HeldBy(view)
  {
    var id :| id in view && Component(w.spends, w.pool, t) <= MembersOf(view[id].chunks);
    assert Holds(view, id, u);
    HeldIff(view, u);
  }

  /** A component stays in one cluster while any of its members is not dropped. */
  lemma WholeStays(w: World, before: View, after: View, gone: set<Txid>, dropped: set<Txid>, t: Txid, u: Txid)
    requires w.Truthful() && PairwiseDisjoint(before)
    requires DerivedClear(w, before, after, gone) && Retains(w, before, after, dropped)
    requires Whole(w, before, t) && u in Component(w.spends, w.pool, t) && u !in dropped
    ensures Whole(w, after, t)
  {
    WholeHeld(w, before, t, u);
    HeldIff(after, u);
    var id :| Holds(after, id, u);
    var home :| home in before && Component(w.spends, w.pool, t) <= MembersOf(before[home].chunks);
    if w.Vouched(MembersOf(after[id].chunks)) {
      ComponentOfMember(w.spends, w.pool, MembersOf(after[id].chunks), u);
      SameComponent(w.spends, w.pool, t, u);
    } else {
      assert id == home;
    }
  }

  // ------------------------------------------------------------- block by block

  /** Some block mined the whole component. */
  ghost predicate Wiped(w: World, blocks: seq<MinedBlock>, t: Txid) {
    exists k :: 0 <= k < |blocks| && Component(w.spends, w.pool, t) <= blocks[k].Members()
  }

  /** Confirming the blocks lets go of the components they wipe and of no other. */
  ghost predicate Swept(w: World, before: View, after: View, blocks: seq<MinedBlock>) {
    forall t :: t in w.pool ==>
      && (Wiped(w, blocks, t) ==> t !in HeldBy(after))
      && (!Wiped(w, blocks, t) && Whole(w, before, t) ==> Whole(w, after, t))
  }

  lemma WipedAlike(w: World, blocks: seq<MinedBlock>, t: Txid, u: Txid)
    requires u in Component(w.spends, w.pool, t)
    ensures Wiped(w, blocks, u) <==> Wiped(w, blocks, t)
  {
    SameComponent(w.spends, w.pool, t, u);
  }

  lemma WipedMore(w: World, blocks: seq<MinedBlock>, block: MinedBlock, t: Txid)
    ensures Wiped(w, blocks + [block], t) <==> Wiped(w, blocks, t) || Component(w.spends, w.pool, t) <= block.Members()
  {
    var all := blocks + [block];
    if k :| 0 <= k < |blocks| && Component(w.spends, w.pool, t) <= blocks[k].Members() {
      assert all[k] == blocks[k];
    }
    if Component(w.spends, w.pool, t) <= block.Members() {
      assert all[|blocks|] == block;
    }
  }

  lemma NothingSwept(w: World, view: View)
    ensures Swept(w, view, view, [])
  {
  }

  lemma SweepOne(w: World, start: View, before: View, after: View, blocks: seq<MinedBlock>, block: MinedBlock)
    requires w.Truthful() && PairwiseDisjoint(before) && Swept(w, start, before, blocks)
    requires DerivedClear(w, before, after, block.Members()) && Retains(w, before, after, block.Members())
    requires Sources(w, HeldBy(before) - block.Members(), after)
    ensures Swept(w, start, after, blocks + [block])
  {
    forall t | t in w.pool
      ensures Wiped(w, blocks + [block], t) ==> t !in HeldBy(after)
      ensures !Wiped(w, blocks + [block], t) && Whole(w, start, t) ==> Whole(w, after, t)
    {
      var mine := Component(w.spends, w.pool, t);
      ConnectedSelf(w.spends, w.pool, t);
      WipedMore(w, blocks, block, t);
      if Wiped(w, blocks + [block], t) {
        forall u | u in mine ensures u !in HeldBy(before) - block.Members() {
          WipedAlike(w, blocks, t, u);
        }
        AbsentStays(w, HeldBy(before) - block.Members(), after, t);
      } else if Whole(w, start, t) {
        var u :| u in mine && u !in block.Members();
        WholeStays(w, before, after, block.Members(), block.Members(), t, u);
      }
    }
  }

  // --------------------------------------------------------- in terms of the input

  /** One block mined every member of the component. */
  ghost predicate MinedTogether(w: World, mined: map<Txid, MinedAs>, t: Txid) {
    exists key :: MinedBy(w, mined, key, t)
  }

  ghost predicate MinedBy(w: World, mined: map<Txid, MinedAs>, key: BlockKey, t: Txid) {
    forall u :: u in Component(w.spends, w.pool, t) ==> u in mined && mined[u].block == key
  }

  /** The cluster around the component of `t` has a confirmed member, and one block mined the whole component. */
  ghost predicate SweptOut(w: World, view: View, confirmed: set<Txid>, mined: map<Txid, MinedAs>, t: Txid) {
    && (exists id :: id in Holding(view, confirmed) && Component(w.spends, w.pool, t) <= MembersOf(view[id].chunks))
    && MinedTogether(w, mined, t)
  }

  /** What confirming by flush does to the components it finds whole. */
  ghost predicate ConfirmSweeps(w: World, before: View, after: View, confirmed: set<Txid>, mined: map<Txid, MinedAs>) {
    forall t :: t in w.pool && Whole(w, before, t) ==>
      && (SweptOut(w, before, confirmed, mined, t) ==> t !in HeldBy(after))
      && (!SweptOut(w, before, confirmed, mined, t) ==> Whole(w, after, t))
  }

  ghost predicate BlocksOf(rows: seq<MinedRow>, blocks: seq<MinedBlock>, keys: seq<BlockKey>) {
    && |keys| == |blocks| && Elements(keys) == KeysOf(rows)
    && forall i, t :: 0 <= i < |keys| ==> (t in blocks[i].Members() <==> HasRow(rows, keys[i], t))
  }

  lemma RowIff(rows: seq<MinedRow>, wanted: set<Txid>, mined: map<Txid, MinedAs>, key: BlockKey, t: Txid)
    requires RowsOf(rows, wanted, mined)
    ensures HasRow(rows, key, t) <==> t in wanted && t in mined && mined[t].block == key
    ensures HasRow(rows, key, t) ==> key in KeysOf(rows)
  {
    if t in wanted && t in mined && mined[t].block == key {
      var i :| 0 <= i < |rows| && rows[i].txid == t;
      assert HasRow(rows, key, t);
    }
    if i :| 0 <= i < |rows| && rows[i].mined.block == key && rows[i].txid == t {
      assert rows[i] in rows;
    }
  }

  /**
   The blocks grouped from the rows wipe a whole component exactly when one block mined it and its
   cluster was looked up.
   */
  lemma WipedIff(w: World, rows: seq<MinedRow>, wanted: set<Txid>, mined: map<Txid, MinedAs>,
      blocks: seq<MinedBlock>, keys: seq<BlockKey>, t: Txid)
    requires RowsOf(rows, wanted, mined) && BlocksOf(rows, blocks, keys) && t in w.pool
    ensures Wiped(w, blocks, t) <==> Component(w.spends, w.pool, t) <= wanted && MinedTogether(w, mined, t)
  {
    var mine := Component(w.spends, w.pool, t);
    ConnectedSelf(w.spends, w.pool, t);
    if k :| 0 <= k < |blocks| && mine <= blocks[k].Members() {
      forall u | u in mine ensures u in wanted && u in mined && mined[u].block == keys[k] {
        RowIff(rows, wanted, mined, keys[k], u);
      }
      assert MinedBy(w, mined, keys[k], t);
    }
    if mine <= wanted && MinedTogether(w, mined, t) {
      var key :| MinedBy(w, mined, key, t);
      RowIff(rows, wanted, mined, key, t);
      assert key in Elements(keys);
      var k :| 0 <= k < |keys| && keys[k] == key;
      forall u | u in mine ensures u in blocks[k].Members() {
        RowIff(rows, wanted, mined, key, u);
      }
    }
  }

  /** Confirming the mined blocks of the clusters that hold a confirmed txid. */
  lemma BlocksSweep(w: World, view: View, after: View, confirmed: set<Txid>, mined: map<Txid, MinedAs>,
                    wanted: set<Txid>, rows: seq<MinedRow>, blocks: seq<MinedBlock>, keys: seq<BlockKey>)
    requires PairwiseDisjoint(view) && Swept(w, view, after, blocks)
    requires wanted == HeldBy(map id | id in view && id in Holding(view, confirmed) :: view[id])
    requires RowsOf(rows, wanted, mined) && BlocksOf(rows, blocks, keys)
    ensures ConfirmSweeps(w, view, after, confirmed, mined)
  {
    var touched := map id | id in view && id in Holding(view, confirmed) :: view[id];
    forall t | t in w.pool && Whole(w, view, t)
      ensures Wiped(w, blocks, t) <==> SweptOut(w, view, confirmed, mined, t)
    {
      var mine := Component(w.spends, w.pool, t);
      ConnectedSelf(w.spends, w.pool, t);
      WipedIff(w, rows, wanted, mined, blocks, keys, t);
      var home :| home in view && mine <= MembersOf(view[home].chunks);
      if mine <= wanted {
        HeldIff(touched, t);
        var id :| Holds(touched, id, t);
        assert id == home;
      }
      if id :| id in Holding(view, confirmed) && mine <= MembersOf(view[id].chunks) {
        forall u | u in mine ensures u in wanted {
          assert Holds(touched, id, u);
          HeldIff(touched, u);
        }
      }
    }
  }

  // ------------------------------------------------------------------ the whole sync

  /** A quiet component was part of one old component. */
  lemma QuietWhole(w: World, was: set<Txid>, before: View, left: set<Txid>, added: set<Txid>, t: Txid)
    requires Recomputed(w.spends, was, before) && Covers(was, w.pool, left, added) && Quiet(w, added, t)
    ensures Whole(w, before, t)
  {
    var mine := Component(w.spends, w.pool, t);
    ConnectedSelf(w.spends, w.pool, t);
    assert mine <= was;
    assert IsComponent(w.spends, w.pool, mine);
    SurvivorsStayTogether(w.spends, w.pool, was, mine, t);
    assert HasGroup(before, Component(w.spends, was, t));
  }

  /** Some quiet component gets swept out. */
  ghost predicate Forgets(w: World, before: View, confirmed: set<Txid>, mined: map<Txid, MinedAs>, added: set<Txid>) {
    exists t :: Quiet(w, added, t) && SweptOut(w, before, confirmed, mined, t)
  }

  /** The three stages of a resync, as far as quiet components are concerned. */
  ghost predicate Stages(w: World, v0: View, v1: View, v2: View, v3: View,
                         confirmed: set<Txid>, evicted: set<Txid>, added: set<Txid>, mined: map<Txid, MinedAs>) {
    && ConfirmSweeps(w, v0, v1, confirmed, mined)
    && DerivedClear(w, v1, v2, evicted) && Retains(w, v1, v2, evicted) && Sources(w, HeldBy(v1), v2)
    && Derived(w, v2, v3) && Retains(w, v2, v3, {}) && Sources(w, HeldBy(v2) + added, v3)
  }

  lemma QuietStays(w: World, was: set<Txid>, v0: View, v1: View, v2: View, v3: View,
                   confirmed: set<Txid>, evicted: set<Txid>, added: set<Txid>, mined: map<Txid, MinedAs>, t: Txid)
    requires w.Truthful() && Stages(w, v0, v1, v2, v3, confirmed, evicted, added, mined)
    requires PairwiseDisjoint(v1) && PairwiseDisjoint(v2)
    requires Recomputed(w.spends, was, v0) && Covers(was, w.pool, confirmed + evicted, added)
    requires Quiet(w, added, t) && !SweptOut(w, v0, confirmed, mined, t)
    ensures t in HeldBy(v3)
  {
    QuietWhole(w, was, v0, confirmed + evicted, added, t);
    ConnectedSelf(w.spends, w.pool, t);
    assert t !in evicted;
    WholeStays(w, v1, v2, evicted, evicted, t, t);
    DerivedIsClear(w, v2, v3);
    WholeStays(w, v2, v3, {}, {}, t, t);
    WholeHeld(w, v3, t, t);
  }

  lemma SweptStaysOut(w: World, was: set<Txid>, v0: View, v1: View, v2: View, v3: View,
                      confirmed: set<Txid>, evicted: set<Txid>, added: set<Txid>, mined: map<Txid, MinedAs>, t: Txid)
    requires Stages(w, v0, v1, v2, v3, confirmed, evicted, added, mined)
    requires Recomputed(w.spends, was, v0) && Covers(was, w.pool, confirmed + evicted, added)
    requires Quiet(w, added, t) && SweptOut(w, v0, confirmed, mined, t)
    ensures t !in HeldBy(v3)
  {
    var mine := Component(w.spends, w.pool, t);
    ConnectedSelf(w.spends, w.pool, t);
    forall u | u in mine ensures u !in HeldBy(v1) {
      SameComponent(w.spends, w.pool, t, u);
      QuietWhole(w, was, v0, confirmed + evicted, added, u);
      assert SweptOut(w, v0, confirmed, mined, u) by {
        var key :| MinedBy(w, mined, key, t);
        assert MinedBy(w, mined, key, u);
      }
    }
    AbsentStays(w, HeldBy(v1), v2, t);
    AbsentStays(w, HeldBy(v2) + added, v3, t);
  }

  /**
   A resync is a full recomputation if and only if it forgets nobody: no
   component that nothing joined lies whole in one mined block while its old
   cluster has a confirmed member.
   */
  lemma ResyncExact(w: World, was: set<Txid>, v0: View, v1: View, v2: View, v3: View,
                    confirmed: set<Txid>, evicted: set<Txid>, added: set<Txid>, mined: map<Txid, MinedAs>)
    requires w.Truthful() && Stages(w, v0, v1, v2, v3, confirmed, evicted, added, mined)
    requires PairwiseDisjoint(v1) && PairwiseDisjoint(v2) && PairwiseDisjoint(v3)
    requires DerivedClear(w, v0, v1, confirmed)
    requires forall t :: t in added && t in w.pool ==> HasGroup(v3, Component(w.spends, w.pool, t))
    requires Recomputed(w.spends, was, v0) && Covers(was, w.pool, confirmed + evicted, added)
    ensures Recomputed(w.spends, w.pool, v3) <==> !Forgets(w, v0, confirmed, mined, added)
  {
    ClearCompose(w, v0, v1, v2, confirmed, evicted);
    DerivedIsClear(w, v2, v3);
    ClearCompose(w, v0, v2, v3, confirmed + evicted, {});
    assert confirmed + evicted + {} == confirmed + evicted;
    if t :| Quiet(w, added, t) && SweptOut(w, v0, confirmed, mined, t) {
      SweptStaysOut(w, was, v0, v1, v2, v3, confirmed, evicted, added, mined, t);
      if Recomputed(w.spends, w.pool, v3) {
        HeldAfterRecompute(w.spends, w.pool, v3, t);
      }
    } else {
      forall t | Quiet(w, added, t) ensures t in HeldBy(v3) {
        QuietStays(w, was, v0, v1, v2, v3, confirmed, evicted, added, mined, t);
      }
      ResyncIsRecompute(w, was, v0, v3, confirmed + evicted, added);
    }
  }

  /** As long as no resident outside `added` carries a mined row, nobody is forgotten. */
  lemma NoStaleRowsNoLoss(w: World, before: View, confirmed: set<Txid>, mined: map<Txid, MinedAs>, added: set<Txid>)
    requires mined.Keys * w.pool <= added
    ensures !Forgets(w, before, confirmed, mined, added)
  {
    forall t | Quiet(w, added, t) ensures !SweptOut(w, before, confirmed, mined, t) {
      ConnectedSelf(w.spends, w.pool, t);
    }
  }

  /**
   The failing family has members: `c` was mined and left, its child `x` still
   carries the row of a block since reorganised away and has stayed resident.
   */
  lemma ReorgForgets(w: World, c: Txid, x: Txid, byNow: MinedAs, stale: MinedAs)
    requires c != x && w.spends == {(c, x)} && w.pool == {x}
    ensures var view := map[1 := ActiveCluster([Chunk([c, x], 0, 0)], 0, 0, 0)];
            var mined := map[c := byNow, x := stale];
            && Recomputed(w.spends, {c, x}, view) && Covers({c, x}, w.pool, {c}, {}) && {c} <= mined.Keys
            && Forgets(w, view, {c}, mined, {})
  {
    var chunks := [Chunk([c, x], 0, 0)];
    var view := map[1 := ActiveCluster(chunks, 0, 0, 0)];
    var mined := map[c := byNow, x := stale];
    PairMembers(c, x);
    PairTogether(c, x, c);
    PairTogether(c, x, x);
    assert 1 in view && view[1].chunks == chunks && MembersOf(view[1].chunks) == {c, x};
    assert HasGroup(view, {c, x}) && IsComponent(w.spends, {c, x}, {c, x});
    ConnectedSelf(w.spends, w.pool, x);
    assert Component(w.spends, w.pool, x) == {x};
    assert MinedBy(w, mined, stale.block, x);
    assert 1 in Holding(view, {c});
    assert Quiet(w, {}, x) && SweptOut(w, view, {c}, mined, x);
  }

  lemma PairMembers(c: Txid, x: Txid)
    ensures MembersOf([Chunk([c, x], 0, 0)]) == {c, x}
  {
    var chunks := [Chunk([c, x], 0, 0)];
    assert Txids(chunks) == [c, x] + Txids(chunks[1..]);
  }

  lemma PairTogether(c: Txid, x: Txid, t: Txid)
    requires t in {c, x}
    ensures Component({(c, x)}, {c, x}, t) == {c, x}
  {
    forall u | u in {c, x} ensures Connected({(c, x)}, {c, x}, t, u) {
      if t == u {
        ConnectedSelf({(c, x)}, {c, x}, t);
      } else {
        assert PathBetween({(c, x)}, {c, x}, [t, u], t, u);
      }
    }
  }
}
