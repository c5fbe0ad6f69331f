/**
 The cluster service: it asks the node which group a txid belongs to now and
 brings the stored clusters in line, through merges, replacements and a batched
 insert of singletons.
 */
module ClusterSync {
  import opened Common
  import opened ClusterDb
  import opened ClusterInvariant
  import opened ClusterDelta
  import opened ClusterRound
  import opened ClusterUpsert
  import opened ClusterStore
  import opened ClusterResync
  import opened ClusterSweep
  import opened ClusterHistory
  import opened ClusterReports
  import opened MinedClusters
  import opened MempoolLedger
  import SpendGraph
  import opened LedgerStore

  lemma MembersInOneMore(view: View, ids: set<int>, id: int)
    requires ids <= view.Keys && id in view
    ensures MembersIn(view, ids + {id}) == MembersIn(view, ids) + MembersOf(view[id].chunks)
  {
  }

  lemma MembersInSame(view: View, rows: View, ids: set<int>)
    requires ids <= view.Keys && rows == map id | id in ids :: view[id]
    ensures MembersIn(view, ids) == MembersIn(rows, rows.Keys)
  {
    forall t
      ensures t in MembersIn(view, ids) <==> t in MembersIn(rows, rows.Keys)
    {
      if t in MembersIn(view, ids) {
        var id :| id in ids && t in MembersOf(view[id].chunks);
        assert id in rows && t in MembersOf(rows[id].chunks);
      }
      if t in MembersIn(rows, rows.Keys) {
        var id :| id in rows && t in MembersOf(rows[id].chunks);
        assert id in ids && t in MembersOf(view[id].chunks);
      }
    }
  }

  lemma OldestSame(view: View, rows: View, ids: set<int>, keep: int)
    requires ids <= view.Keys && rows == map id | id in ids :: view[id]
    requires Oldest(rows, rows.Keys, keep)
    ensures Oldest(view, ids, keep)
  {
    assert rows.Keys == ids;
  }

  lemma MinusNothing(view: View)
    ensures view - {} == view
  {
  }

  /** The oldest of the clusters. */
  method PickOldest(rows: View) returns (keep: int)
    requires rows != map[]
    ensures Oldest(rows, rows.Keys, keep)
  {
    var ids := Enumerate(rows.Keys);
    assert forall id :: id in rows ==> id in Elements(ids);
    keep := ids[0];
    assert keep in Elements(ids);
    for k := 1 to |ids|
      invariant keep in rows
      invariant forall i :: 0 <= i < k ==>
        rows[keep].firstSeenAt < rows[ids[i]].firstSeenAt
        || (rows[keep].firstSeenAt == rows[ids[i]].firstSeenAt && keep <= ids[i])
    {
      var id := ids[k];
      assert id in Elements(ids);
      var a, b := rows[id].firstSeenAt, rows[keep].firstSeenAt;
      if a < b || (a == b && id < keep) {
        keep := id;
      }
    }
  }

  /** Members of the clusters that are not in the reported group. */
  method Leaving(rows: View, group: set<Txid>) returns (detached: seq<Txid>)
    ensures Elements(detached) == MembersIn(rows, rows.Keys) - group
  {
    var ids := Enumerate(rows.Keys);
    assert forall i :: 0 <= i < |ids| ==> ids[i] in Elements(ids);
    detached := [];
    ghost var done: set<int> := {};
    for k := 0 to |ids|
      invariant done == Elements(ids[..k]) && done <= rows.Keys
      invariant Elements(detached) == MembersIn(rows, done) - group
    {
      assert ids[..k + 1] == ids[..k] + [ids[k]];
      MembersInOneMore(rows, done, ids[k]);
      var more := Uncovered(Txids(rows[ids[k]].chunks), group);
      assert Elements(more) == MembersOf(rows[ids[k]].chunks) - group;
      assert Elements(detached + more) == Elements(detached) + Elements(more);
      done := done + {ids[k]};
      detached := detached + more;
    }
    assert ids[..|ids|] == ids;
  }

  /** Where a round started: the active clusters, what callers knew of them, the ids in use and the closings so far. */
  datatype Origin = Origin(start: View, told: View, ceiling: int, log: seq<Closing>)
  {
    ghost predicate Below() {
      forall id :: id in start ==> id < ceiling
    }
  }

  /** What one dequeue does to the ledger: a reply admits its members, a miss dismisses the txid, else nothing. */
  ghost predicate Answered(l: Ledger, after: Ledger, r: Round, reply: Reply, at: int)
    requires r.queue != []
  {
    if r.queue[0] in r.covered || reply.Failed? then after == l
    else if reply.NotFound? || Txids(reply.chunks) == [] then Dismisses(l, after, [r.queue[0]], at)
    else Admits(l, after, Txids(reply.chunks), at)
  }

  class ClusterService {
    const store: Store
    const ledger: SharedLedger

    constructor (store: Store, ledger: SharedLedger)
      ensures this.store == store && this.ledger == ledger
    {
      this.store, this.ledger := store, ledger;
    }

    function World(): World {
      store.outside.world
    }

    ghost function Here(): Origin
      reads store
    {
      Origin(store.view, store.shown, store.ceiling, store.log)
    }

    /** Every active cluster is as it was or as the node reported it since, and nothing logged is undone. */
    ghost predicate Since(at: int, from: Origin)
      reads store
    {
      && Known(World(), at, from.ceiling, from.start, store.view)
      && from.ceiling <= store.ceiling && from.log <= store.log
    }

    // ------------------------------------------------------------------ upsert

    /** Inserts a cluster for the reported group, or merges the ones it overlaps into the oldest of them. */
    method Upsert(chunks: seq<Chunk>, existing: set<int>, at: int) returns (changes: Delta, detached: seq<Txid>)
      requires store.Valid()
      requires existing == Holding(store.view, MembersOf(chunks))
      modifies store, store.tables, store.outside
      ensures store.Valid() && store.mined == old(store.mined) && store.torn == old(store.torn)
      ensures store.shown == Apply(old(store.shown), changes) && Coherent(changes)
      ensures Upserts(old(store.view), store.view, MembersOf(chunks), detached)
      ensures Sets(old(store.view), store.view, chunks, at, old(store.ceiling))
      ensures old(store.ceiling) <= store.ceiling && MergesOnly(old(store.log), store.log)
      ensures World().Reliable() ==>
        UpsertsFully(old(store.view), store.view, MembersOf(chunks)) && Survives(old(store.view), store.view, chunks)
    {
      if existing == {} {
        changes := InsertNew(chunks, at);
        detached := [];
      } else {
        changes, detached := MergeInto(chunks, existing, at);
      }
    }

    method InsertNew(chunks: seq<Chunk>, at: int) returns (changes: Delta)
      requires store.Valid()
      requires Holding(store.view, MembersOf(chunks)) == {}
      modifies store, store.tables, store.outside
      ensures store.Valid() && store.mined == old(store.mined) && store.torn == old(store.torn)
      ensures store.shown == Apply(old(store.shown), changes) && Coherent(changes)
      ensures Upserts(old(store.view), store.view, MembersOf(chunks), [])
      ensures Sets(old(store.view), store.view, chunks, at, old(store.ceiling))
      ensures old(store.ceiling) <= store.ceiling && MergesOnly(old(store.log), store.log)
      ensures World().Reliable() ==>
        UpsertsFully(old(store.view), store.view, MembersOf(chunks)) && Survives(old(store.view), store.view, chunks)
    {
      ghost var view, told := store.view, store.shown;
      NoChangeApplies(told);
      UntouchedUpserts(view, MembersOf(chunks));
      changes := NoChange;
      var ok, id := store.InsertWithMembers(chunks, at);
      if ok {
        InsertUpserts(view, id, Fresh(chunks, at));
        InsertSets(view, id, chunks, at, old(store.ceiling));
        UpsertApplies(told, NoChange, id, Fresh(chunks, at));
        changes := MarkUpserted(NoChange, id, Active, Fresh(chunks, at));
      }
    }

    method MergeInto(chunks: seq<Chunk>, existing: set<int>, at: int) returns (changes: Delta, detached: seq<Txid>)
      requires store.Valid()
      requires existing == Holding(store.view, MembersOf(chunks)) && existing != {}
      modifies store, store.tables, store.outside
      ensures store.Valid() && store.mined == old(store.mined) && store.torn == old(store.torn)
      ensures store.shown == Apply(old(store.shown), changes) && Coherent(changes)
      ensures Upserts(old(store.view), store.view, MembersOf(chunks), detached)
      ensures Sets(old(store.view), store.view, chunks, at, old(store.ceiling))
      ensures old(store.ceiling) <= store.ceiling && MergesOnly(old(store.log), store.log)
      ensures World().Reliable() ==>
        UpsertsFully(old(store.view), store.view, MembersOf(chunks)) && Survives(old(store.view), store.view, chunks)
    {
      ghost var view, told := store.view, store.shown;
      NoChangeApplies(told);
      UntouchedUpserts(view, MembersOf(chunks));
      changes, detached := NoChange, [];
      var loaded, rows := store.FindByIds(existing);
      if !loaded {
        return;
      }
      assert rows.Keys == existing;
      var keep := PickOldest(rows);
      var leaving := Leaving(rows, MembersOf(chunks));
      MembersInSame(view, rows, existing);
      OldestSame(view, rows, existing, keep);
      changes, detached := FoldInto(chunks, existing, keep, leaving, at);
    }

    /** Closes clusters that merge into another; with none there is no call to fail. */
    method CloseOthers(others: set<int>) returns (ok: bool)
      requires store.Valid()
      modifies store, store.tables, store.outside
      ensures store.Valid() && store.mined == old(store.mined) && store.torn == old(store.torn)
      ensures store.view == if ok then old(store.view) - others else old(store.view)
      ensures store.shown == if ok then old(store.shown) - others else old(store.shown)
      ensures store.ceiling == old(store.ceiling) && MergesOnly(old(store.log), store.log)
      ensures World().Reliable() ==> ok
    {
      ok := true;
      MinusNothing(store.view);
      MinusNothing(store.shown);
      if others != {} {
        ok := store.MarkMerged(others);
      }
    }

    /** Closes the overlapped clusters but the oldest, which takes the chunks; either call may fail. */
    method FoldInto(chunks: seq<Chunk>, existing: set<int>, keep: int, leaving: seq<Txid>, at: int)
      returns (changes: Delta, detached: seq<Txid>)
      requires store.Valid()
      requires existing == Holding(store.view, MembersOf(chunks))
      requires keep in existing && Oldest(store.view, existing, keep)
      requires Elements(leaving) == MembersIn(store.view, existing) - MembersOf(chunks)
      modifies store, store.tables, store.outside
      ensures store.Valid() && store.mined == old(store.mined) && store.torn == old(store.torn)
      ensures store.shown == Apply(old(store.shown), changes) && Coherent(changes)
      ensures Upserts(old(store.view), store.view, MembersOf(chunks), detached)
      ensures Sets(old(store.view), store.view, chunks, at, old(store.ceiling))
      ensures old(store.ceiling) <= store.ceiling && MergesOnly(old(store.log), store.log)
      ensures World().Reliable() ==>
        UpsertsFully(old(store.view), store.view, MembersOf(chunks)) && Survives(old(store.view), store.view, chunks)
    {
      ghost var view, told := store.view, store.shown;
      NoChangeApplies(told);
      UntouchedUpserts(view, MembersOf(chunks));
      changes, detached := NoChange, [];
      var others := existing - {keep};
      MergeSets(view, others, keep, chunks, at, store.ceiling);
      var merged := CloseOthers(others);
      if !merged {
        return;
      }
      RemovalsApply(told, NoChange, others);
      changes, detached := MarkAllRemoved(NoChange, others), leaving;
      MergedUpserts(view, existing, keep, MembersOf(chunks), detached);
      MergeClears(view, keep, chunks);
      var replaced, cluster := store.ReplaceChunks(keep, chunks);
      if replaced {
        UpsertApplies(told, changes, keep, cluster);
        changes := MarkUpserted(changes, keep, Active, cluster);
        ReplacedUpserts(view, keep, cluster, detached);
      }
    }

    // -------------------------------------------------------------- work queue

    /** The node answers truthfully, no repository call fails, and the ledger agrees with the node. */
    ghost predicate Ideal()
      reads ledger
    {
      World().Truthful() && World().Reliable() && ledger.live == World().pool
    }

    ghost predicate RoundOk(at: int, from: Origin, r: Round)
      reads store
    {
      && BufferOk(World(), store.view, r) && Derived(World(), from.start, store.view)
      && Known(World(), at, from.ceiling, from.start, store.view) && BufferKnown(World(), at, r.buffer)
      && from.Below() && from.ceiling <= store.ceiling && MergesOnly(from.log, store.log)
    }

    /** The change set accounts for what callers have been told since they had been told `told`. */
    ghost predicate Accounts(told: View, changes: Delta)
      reads store
    {
      store.shown == Apply(told, changes) && Coherent(changes)
    }

    ghost predicate OnTrack(goal: Goal, r: Round)
      reads store
    {
      Complete(World(), goal.wanted, goal.asked, goal.excused, store.view, r)
    }

    /** Takes one txid off the queue and deals with it. */
    method Advance(r: Round, soFar: Delta, at: int, ghost from: Origin, ghost goal: Goal, ghost ideal: bool)
      returns (next: Round, changes: Delta)
      requires store.Valid() && World().WellBehaved() && r.queue != []
      requires RoundOk(at, from, r) && Accounts(from.told, soFar)
      requires ideal ==> Ideal() && OnTrack(goal, r)
      modifies store, store.tables, store.outside, ledger
      ensures store.Valid() && store.mined == old(store.mined) && store.torn == old(store.torn)
      ensures RoundOk(at, from, next) && Accounts(from.told, changes)
      ensures Answered(old(ledger.State()), ledger.State(), r, World().node(old(store.outside.calls), r.queue[0]), at)
      ensures ideal ==> OnTrack(goal, next) && ledger.State() == old(ledger.State())
      ensures Outstanding(store.view, next) < old(Outstanding(store.view, r))
              || (Outstanding(store.view, next) <= old(Outstanding(store.view, r)) && |next.queue| < |r.queue|)
    {
      var txid := r.queue[0];
      ghost var view := store.view;
      next, changes := Skip(r), soFar;
      CoverBuffer(World(), view, r, {txid});
      SkipShrinks(view, r);
      if txid in r.covered {
        if ideal {
          SkipComplete(World(), goal.wanted, goal.asked, goal.excused, view, r);
        }
        return;
      }
      ghost var call := store.outside.calls;
      var reply := store.outside.AskNode(txid);
      if reply.Failed? {
        assert !World().Truthful() by {
          assert World().node(call, txid).Failed?;
        }
        return;
      }
      if reply.NotFound? || Txids(reply.chunks) == [] {
        CoverShrinks(view, r, {txid});
        if ideal {
          assert txid !in World().pool by {
            TruthfulMiss(World(), call, txid);
          }
          AbsentComplete(World(), goal.wanted, goal.asked, goal.excused, view, r);
          AbsentNoop(ledger.State(), [txid], at);
        }
        ledger.MarkAbsent([txid], at);
        next := Cover(r, {txid});
        return;
      }
      ReplyVouched(World(), call, txid);
      assert World().Replied(call, txid, reply.chunks);
      next, changes := Place(r, reply.chunks, soFar, at, from, goal, ideal);
    }

    /** The node vouches for the reported members, who join the ledger and then a cluster. */
    method Place(r: Round, chunks: seq<Chunk>, soFar: Delta, at: int, ghost from: Origin, ghost goal: Goal,
        ghost ideal: bool)
      returns (next: Round, changes: Delta)
      requires store.Valid() && r.queue != [] && r.queue[0] !in r.covered && r.queue[0] in MembersOf(chunks)
      requires World().Vouched(MembersOf(chunks)) && World().Reported(chunks)
      requires World().Truthful() ==>
        && r.queue[0] in World().pool
        && MembersOf(chunks) == SpendGraph.Component(World().spends, World().pool, r.queue[0])
      requires RoundOk(at, from, r) && Accounts(from.told, soFar)
      requires ideal ==> Ideal() && OnTrack(goal, r)
      modifies store, store.tables, store.outside, ledger
      ensures store.Valid() && store.mined == old(store.mined) && store.torn == old(store.torn)
      ensures RoundOk(at, from, next) && Accounts(from.told, changes)
      ensures Admits(old(ledger.State()), ledger.State(), Txids(chunks), at)
      ensures ideal ==> OnTrack(goal, next) && ledger.State() == old(ledger.State())
      ensures Outstanding(store.view, next) < old(Outstanding(store.view, r))
    {
      if ideal {
        PresentNoop(ledger.State(), Txids(chunks), at);
      }
      ledger.MarkPresent(Txids(chunks), at);
      next, changes := Locate(r, chunks, soFar, at, from, goal, ideal);
    }

    /** Buffers a lone singleton that no active cluster holds, or upserts the group. */
    method Locate(r: Round, chunks: seq<Chunk>, soFar: Delta, at: int, ghost from: Origin, ghost goal: Goal,
        ghost ideal: bool)
      returns (next: Round, changes: Delta)
      requires store.Valid() && r.queue != [] && r.queue[0] !in r.covered && r.queue[0] in MembersOf(chunks)
      requires World().Vouched(MembersOf(chunks)) && World().Reported(chunks)
      requires RoundOk(at, from, r) && Accounts(from.told, soFar)
      requires ideal ==> World().Truthful() && World().Reliable() && OnTrack(goal, r)
      requires ideal ==>
        && r.queue[0] in World().pool
        && MembersOf(chunks) == SpendGraph.Component(World().spends, World().pool, r.queue[0])
      modifies store, store.tables, store.outside
      ensures store.Valid() && store.mined == old(store.mined) && store.torn == old(store.torn)
      ensures RoundOk(at, from, next) && Accounts(from.told, changes)
      ensures ideal ==> OnTrack(goal, next)
      ensures Outstanding(store.view, next) < old(Outstanding(store.view, r))
    {
      ghost var view := store.view;
      var txids, group := Txids(chunks), MembersOf(chunks);
      CoverShrinks(view, r, group);
      CoverBuffer(World(), view, r, group);
      next, changes := Cover(r, group), soFar;
      var ok, existing := store.FindActiveIdsByTxids(txids);
      if !ok {
        return;
      }
      assert existing == Holding(view, group) && store.view == view;
      if existing == {} && |txids| == 1 {
        LoneGroup(chunks, r.queue[0]);
        assert group == {r.queue[0]};
        BufferBuffer(World(), view, r, r.queue[0], chunks, at);
        if ideal {
          BufferComplete(World(), goal.wanted, goal.asked, goal.excused, view, r, chunks, at);
        }
        next := Buffer(r, r.queue[0], chunks, at);
        return;
      }
      next, changes := PlaceGroup(r, chunks, existing, soFar, at, from, goal, ideal);
    }

    method PlaceGroup(r: Round, chunks: seq<Chunk>, existing: set<int>, soFar: Delta, at: int,
                      ghost from: Origin, ghost goal: Goal, ghost ideal: bool)
      returns (next: Round, changes: Delta)
      requires store.Valid() && r.queue != [] && r.queue[0] !in r.covered && r.queue[0] in MembersOf(chunks)
      requires existing == Holding(store.view, MembersOf(chunks))
      requires World().Vouched(MembersOf(chunks)) && World().Reported(chunks)
      requires RoundOk(at, from, r) && Accounts(from.told, soFar)
      requires ideal ==> World().Truthful() && World().Reliable() && OnTrack(goal, r)
      modifies store, store.tables, store.outside
      ensures store.Valid() && store.mined == old(store.mined) && store.torn == old(store.torn)
      ensures RoundOk(at, from, next) && Accounts(from.told, changes)
      ensures ideal ==> OnTrack(goal, next)
      ensures Outstanding(store.view, next) < old(Outstanding(store.view, r))
    {
      ghost var view := store.view;
      var group := MembersOf(chunks);
      var more, detached := Upsert(chunks, existing, at);
      next, changes := Placed(r, group, detached), Merge(soFar, more);
      MergeComposes(from.told, soFar, more);
      PlacedShrinks(view, store.view, r, group, detached);
      PlacedBuffer(World(), view, store.view, r, group, detached);
      PlacedDerived(World(), from.start, view, store.view, group, detached);
      SetsKnown(World(), at, from.ceiling, from.start, view, store.view, chunks, old(store.ceiling));
      MergesAlong(from.log, old(store.log), store.log);
      if ideal {
        PlacedComplete(World(), goal.wanted, goal.asked, goal.excused, view, store.view, r, group, detached);
      }
    }

    /** Works the queue off, then inserts the singletons that merged with nothing. */
    method HandleCandidatesCovering(candidates: seq<Txid>, outOfMempool: set<Txid>, at: int)
      returns (changes: Delta)
      requires store.Valid() && World().WellBehaved()
      modifies store, store.tables, store.outside, ledger
      ensures store.Valid() && store.mined == old(store.mined) && (old(store.torn) ==> store.torn)
      ensures Derived(World(), old(store.view), store.view)
      ensures Known(World(), at, old(store.ceiling), old(store.view), store.view)
      ensures old(store.ceiling) <= store.ceiling && MergesOnly(old(store.log), store.log)
      ensures store.shown == Apply(old(store.shown), changes) && Coherent(changes)
      ensures World().Reliable() ==> store.torn == old(store.torn)
      ensures old(Ideal()) ==> ledger.State() == old(ledger.State())
      ensures old(Ideal()) ==> Achieved(World(), GoalOf(old(store.view), candidates, outOfMempool), store.view)
    {
      ghost var from, ideal := Origin(store.view, store.shown, store.ceiling, store.log), Ideal();
      ghost var goal := GoalOf(from.start, candidates, outOfMempool);
      var r := Round(candidates, outOfMempool, map[]);
      NoChangeApplies(from.told);
      RoundStarts(World(), from.start, candidates, outOfMempool);
      KnownSelf(World(), at, from.ceiling, from.start);
      r, changes := WorkOff(r, at, from, goal, ideal);
      changes := InsertBuffered(r, changes, at, from, goal, ideal);
    }

    /** The queue loop: the measure is the txids still to ask about, then the queue's length. */
    method WorkOff(first: Round, at: int, ghost from: Origin, ghost goal: Goal, ghost ideal: bool)
      returns (r: Round, changes: Delta)
      requires store.Valid() && World().WellBehaved()
      requires RoundOk(at, from, first) && Accounts(from.told, NoChange)
      requires ideal ==> Ideal() && OnTrack(goal, first)
      modifies store, store.tables, store.outside, ledger
      ensures store.Valid() && store.mined == old(store.mined) && store.torn == old(store.torn)
      ensures r.queue == [] && RoundOk(at, from, r) && Accounts(from.told, changes)
      ensures ideal ==> OnTrack(goal, r) && ledger.State() == old(ledger.State())
    {
      r, changes := first, NoChange;
      while r.queue != []
        invariant store.Valid() && store.mined == old(store.mined) && store.torn == old(store.torn)
        invariant RoundOk(at, from, r) && Accounts(from.told, changes)
        invariant ideal ==> ledger.State() == old(ledger.State()) && OnTrack(goal, r)
        decreases |Outstanding(store.view, r)|, |r.queue|
      {
        ghost var before := Outstanding(store.view, r);
        r, changes := Advance(r, changes, at, from, goal, ideal);
        SubsetSize(Outstanding(store.view, r), before);
      }
    }

    method InsertBuffered(r: Round, soFar: Delta, ghost at: int, ghost from: Origin, ghost goal: Goal,
        ghost ideal: bool)
      returns (changes: Delta)
      requires store.Valid() && r.queue == []
      requires RoundOk(at, from, r) && Accounts(from.told, soFar)
      requires ideal ==> World().Reliable() && OnTrack(goal, r)
      modifies store, store.tables, store.outside
      ensures store.Valid() && store.mined == old(store.mined) && (old(store.torn) ==> store.torn)
      ensures Derived(World(), from.start, store.view)
      ensures Known(World(), at, from.ceiling, from.start, store.view)
      ensures from.ceiling <= store.ceiling && MergesOnly(from.log, store.log)
      ensures Accounts(from.told, changes)
      ensures World().Reliable() ==> store.torn == old(store.torn)
      ensures ideal ==> Achieved(World(), goal, store.view)
    {
      changes := soFar;
      if r.buffer == map[] {
        if ideal {
          FlushedAchieves(World(), goal, store.view, r, store.view);
        }
        return;
      }
      ghost var view := store.view;
      var batch := BufferValues(r.buffer);
      BufferSeparate(World(), view, r, batch);
      var ok, firstId, committed := store.InsertManyWithMembers(batch);
      InsertSettles(World(), from.start, view, r, batch, committed, firstId, store.view);
      BatchKnown(World(), at, from, view, r.buffer, batch, committed, firstId);
      if ok {
        changes := MarkInserted(soFar, firstId, batch);
        InsertedApplies(from.told, soFar, firstId, batch);
        InsertedCoherent(soFar, firstId, batch);
        if ideal {
          FlushedAchieves(World(), goal, view, r, store.view);
        }
      }
    }

    method HandleCandidates(candidates: seq<Txid>, at: int) returns (changes: Delta)
      requires store.Valid() && World().WellBehaved()
      modifies store, store.tables, store.outside, ledger
      ensures store.Valid() && store.mined == old(store.mined) && (old(store.torn) ==> store.torn)
      ensures Derived(World(), old(store.view), store.view)
      ensures Known(World(), at, old(store.ceiling), old(store.view), store.view)
      ensures old(store.ceiling) <= store.ceiling && MergesOnly(old(store.log), store.log)
      ensures store.shown == Apply(old(store.shown), changes) && Coherent(changes)
      ensures World().Reliable() ==> store.torn == old(store.torn)
      ensures old(Ideal()) ==> ledger.State() == old(ledger.State())
      ensures old(Ideal()) ==> Achieved(World(), GoalOf(old(store.view), candidates, {}), store.view)
    {
      changes := HandleCandidatesCovering(candidates, {}, at);
    }

    // ------------------------------------------------------------------- blocks

    /** The active clusters that hold any of the txids; none when a lookup fails. */
    method FindActiveClustersContaining(txids: seq<Txid>) returns (rows: View)
      requires store.Valid()
      modifies store.outside
      ensures store.Valid()
      ensures rows.Keys <= Holding(store.view, Elements(txids))
      ensures forall id :: id in rows ==> rows[id] == store.view[id]
      ensures World().Reliable() ==> rows.Keys == Holding(store.view, Elements(txids))
    {
      rows := map[];
      var found, ids := store.FindActiveIdsByTxids(txids);
      if !found || ids == {} {
        return;
      }
      var loaded, clusters := store.FindByIds(ids);
      if loaded {
        rows := clusters;
      }
    }

    method ConfirmFull(full: set<int>, at: int) returns (changes: Delta)
      requires store.Valid()
      modifies store, store.tables, store.outside
      ensures store.Valid() && store.mined == old(store.mined) && store.torn == old(store.torn)
      ensures store.shown == Apply(old(store.shown), changes) && Coherent(changes)
      ensures store.ceiling == old(store.ceiling)
      ensures store.log == old(store.log) || store.log == old(store.log) + [Closing(full, Confirmed, Some(at))]
      ensures World().Reliable() && full != {} ==> store.log == old(store.log) + [Closing(full, Confirmed, Some(at))]
      ensures store.view == old(store.view) || store.view == old(store.view) - full
      ensures World().Reliable() ==> store.view == old(store.view) - full
    {
      changes := NoChange;
      NoChangeApplies(store.shown);
      MinusNothing(store.view);
      if full != {} {
        RemovalsApply(store.shown, NoChange, full);
        var ok := store.ConfirmMany(full, at);
        if ok {
          changes := MarkAllRemoved(NoChange, full);
        }
      }
    }

    /** Splits partly mined clusters: the mined part is kept and confirmed, the rest goes back to the queue. */
    method TrimPartial(partial: View, block: MinedBlock, at: int) returns (changes: Delta, pending: seq<Txid>)
      requires store.Valid() && World().WellBehaved()
      requires forall id :: id in partial ==> id in store.view && partial[id] == store.view[id]
      modifies store, store.tables, store.outside, ledger
      ensures store.Valid() && store.mined == old(store.mined) && (old(store.torn) ==> store.torn)
      ensures store.shown == Apply(old(store.shown), changes) && Coherent(changes)
      ensures Since(at, old(Here()))
      ensures World().Reliable() && partial != map[] ==> TrimLogged(partial, block, old(store.log), store.log)
      ensures Elements(pending) == MembersIn(partial, partial.Keys) - block.Members()
      ensures Derived(World(), old(store.view), store.view)
      ensures World().Reliable() ==> store.torn == old(store.torn)
      ensures World().Reliable() ==> Derived(World(), old(store.view) - partial.Keys, store.view)
      ensures old(Ideal()) ==> ledger.State() == old(ledger.State())
      ensures old(Ideal()) ==> Achieved(World(), GoalOf(old(store.view) - partial.Keys, pending, {}), store.view)
    {
      ghost var view, told, here := store.view, store.shown, Here();
      KnownSelf(World(), at, here.ceiling, view);
      changes, pending := NoChange, [];
      NoChangeApplies(told);
      if partial == map[] {
        NothingAsked(World(), view);
        assert view - partial.Keys == view;
        return;
      }
      var ok;
      ok, pending := StoreTrims(partial, block);
      if ok {
        RemovalsApply(told, NoChange, partial.Keys);
        var gone := MarkAllRemoved(NoChange, partial.Keys);
        assert store.view == view - partial.Keys && store.shown == told - partial.Keys;
        KnownLess(World(), at, here.ceiling, view, partial.Keys);
        var more := HandleCandidates(pending, at);
        KnownAlong(World(), at, here.ceiling, here.ceiling, view, view - partial.Keys, store.view);
        MergeComposes(told, gone, more);
        changes := Merge(gone, more);
        DerivedFromLess(World(), view, partial.Keys, store.view);
      }
    }

    method StoreTrims(partial: View, block: MinedBlock) returns (ok: bool, pending: seq<Txid>)
      requires store.Valid()
      requires forall id :: id in partial ==> id in store.view && partial[id] == store.view[id]
      modifies store, store.tables, store.outside
      ensures store.Valid() && store.mined == old(store.mined) && store.torn == old(store.torn)
      ensures store.view == if ok then old(store.view) - partial.Keys else old(store.view)
      ensures store.shown == if ok then old(store.shown) - partial.Keys else old(store.shown)
      ensures Elements(pending) == MembersIn(partial, partial.Keys) - block.Members()
      ensures store.ceiling == old(store.ceiling) && old(store.log) <= store.log
      ensures ok ==> TrimLogged(partial, block, old(store.log), store.log)
      ensures World().Reliable() ==> ok
    {
      var updates;
      updates, pending := TrimsOf(partial, block);
      ShrinkingThere(partial, store.view, updates);
      ok := store.TrimAndConfirmMany(updates, block.at);
    }

    method ConfirmMinedInner(block: MinedBlock, at: int) returns (changes: Delta)
      requires store.Valid() && World().WellBehaved()
      modifies store, store.tables, store.outside, ledger
      ensures store.Valid() && store.mined == old(store.mined) && (old(store.torn) ==> store.torn)
      ensures store.shown == Apply(old(store.shown), changes) && Coherent(changes)
      ensures Since(at, old(Here()))
      ensures World().Reliable() ==> BlockLogged(old(store.view), block, old(store.log), store.log)
      ensures World().Reliable() ==> store.torn == old(store.torn)
      ensures World().Reliable() ==> DerivedClear(World(), old(store.view), store.view, block.Members())
      ensures old(Ideal()) ==> ledger.State() == old(ledger.State())
      ensures old(Ideal()) ==> Retains(World(), old(store.view), store.view, block.Members())
      ensures old(Ideal()) ==> Sources(World(), old(HeldBy(store.view)) - block.Members(), store.view)
    {
      ghost var view := store.view;
      var rows := FindActiveClustersContaining(block.txids);
      var full := set id | id in rows && MembersOf(rows[id].chunks) <= block.Members();
      var pending;
      ghost var mid;
      changes, pending, mid := ConfirmAndTrim(full, rows - full, block, at);
      if World().Reliable() {
        BlockIsLogged(view, block, rows, full, old(store.log), mid, store.log);
        BlockSettled(World(), view, block.Members(), rows, full, pending, store.view);
      }
    }

    method ConfirmAndTrim(full: set<int>, partial: View, block: MinedBlock, at: int)
      returns (changes: Delta, pending: seq<Txid>, ghost mid: seq<Closing>)
      requires store.Valid() && World().WellBehaved()
      requires forall id :: id in partial ==> id !in full && id in store.view && partial[id] == store.view[id]
      modifies store, store.tables, store.outside, ledger
      ensures store.Valid() && store.mined == old(store.mined) && (old(store.torn) ==> store.torn)
      ensures store.shown == Apply(old(store.shown), changes) && Coherent(changes)
      ensures Since(at, old(Here()))
      ensures old(store.log) <= mid <= store.log
      ensures World().Reliable() && full != {} ==> mid == old(store.log) + [Closing(full, Confirmed, Some(block.at))]
      ensures World().Reliable() && partial != map[] ==> TrimLogged(partial, block, mid, store.log)
      ensures Elements(pending) == MembersIn(partial, partial.Keys) - block.Members()
      ensures World().Reliable() ==> store.torn == old(store.torn)
      ensures World().Reliable() ==> Derived(World(), old(store.view) - full - partial.Keys, store.view)
      ensures old(Ideal()) ==> ledger.State() == old(ledger.State())
      ensures old(Ideal()) ==> Achieved(World(), GoalOf(old(store.view) - full - partial.Keys, pending, {}), store.view)
    {
      ghost var told, here := store.shown, Here();
      changes := ConfirmFull(full, block.at);
      mid := store.log;
      KnownSelf(World(), at, here.ceiling, here.start);
      KnownLess(World(), at, here.ceiling, here.start, full);
      ghost var between := store.view;
      var more;
      more, pending := TrimPartial(partial, block, at);
      MergeComposes(told, changes, more);
      changes := Merge(changes, more);
      KnownAlong(World(), at, here.ceiling, here.ceiling, here.start, between, store.view);
    }

    /** A new block: with every call succeeding and the node silent about it, no active cluster keeps a mined txid. */
    method ConfirmMined(block: MinedBlock, at: int) returns (changes: Delta)
      requires store.Valid() && World().WellBehaved()
      modifies store, store.tables, store.outside, ledger
      ensures store.Valid() && store.mined == old(store.mined) && (old(store.torn) ==> store.torn)
      ensures store.shown == Apply(old(store.shown), changes) && Coherent(changes)
      ensures Since(at, old(Here()))
      ensures World().Reliable() ==> BlockLogged(old(store.view), block, old(store.log), store.log)
      ensures World().Reliable() ==> store.torn == old(store.torn)
      ensures World().Reliable() && World().Shunning() && block.Members() <= World().shunned ==>
        HeldBy(store.view) !! block.Members()
    {
      ghost var view := store.view;
      changes := ConfirmMinedInner(block, at);
      if World().Reliable() && World().Shunning() && block.Members() <= World().shunned {
        BlockCleared(World(), view, store.view, block.Members());
      }
    }

    /** Closes the still-active clusters of txids the flush recorded as mined, block by block. */
    method HandleConfirmed(confirmed: seq<Txid>, at: int) returns (changes: Delta)
      requires store.Valid() && World().WellBehaved()
      modifies store, store.tables, store.outside, ledger
      ensures store.Valid() && store.mined == old(store.mined) && (old(store.torn) ==> store.torn)
      ensures store.shown == Apply(old(store.shown), changes) && Coherent(changes)
      ensures Since(at, old(Here()))
      ensures World().Reliable() ==>
        && store.torn == old(store.torn)
        && DerivedClear(World(), old(store.view), store.view, Elements(confirmed) * store.mined.Keys)
      ensures old(Ideal()) ==> ledger.State() == old(ledger.State())
      ensures old(Ideal()) ==> ConfirmSweeps(World(), old(store.view), store.view, Elements(confirmed), store.mined)
    {
      ghost var view := store.view;
      changes := NoChange;
      NoChangeApplies(store.shown);
      StaysClear(World(), view);
      KnownSelf(World(), at, store.ceiling, view);
      var rows := FindActiveClustersContaining(confirmed);
      if rows == map[] {
        if World().Reliable() {
          UntouchedConfirmed(World(), view, view, rows, Elements(confirmed), store.mined.Keys, {});
          NothingTouched(World(), view, Elements(confirmed), store.mined);
        }
        return;
      }
      store.Disjoint();
      var wanted := MembersIn(rows, rows.Keys);
      var found, minedRows := store.FindMinedByTxids(wanted);
      if !found {
        return;
      }
      var blocks, keys := ByBlock(minedRows);
      changes := ConfirmBlocks(blocks, at);
      if World().Reliable() {
        BlocksHold(minedRows, blocks, keys);
        UntouchedConfirmed(World(), view, store.view, rows, Elements(confirmed), store.mined.Keys,
            BlocksMembers(blocks));
        if old(Ideal()) {
          LookedUp(view, rows, Elements(confirmed));
          BlocksSweep(World(), view, store.view, Elements(confirmed), store.mined, wanted, minedRows, blocks, keys);
        }
      }
    }

    method ConfirmBlocks(blocks: seq<MinedBlock>, at: int) returns (changes: Delta)
      requires store.Valid() && World().WellBehaved()
      modifies store, store.tables, store.outside, ledger
      ensures store.Valid() && store.mined == old(store.mined) && (old(store.torn) ==> store.torn)
      ensures store.shown == Apply(old(store.shown), changes) && Coherent(changes)
      ensures Since(at, old(Here()))
      ensures World().Reliable() ==>
        store.torn == old(store.torn) && DerivedClear(World(), old(store.view), store.view, BlocksMembers(blocks))
      ensures old(Ideal()) ==> ledger.State() == old(ledger.State())
      ensures old(Ideal()) ==> Swept(World(), old(store.view), store.view, blocks)
    {
      ghost var view, told, ideal, here := store.view, store.shown, Ideal(), Here();
      KnownSelf(World(), at, here.ceiling, view);
      changes := NoChange;
      NoChangeApplies(told);
      StaysClear(World(), view);
      NothingSwept(World(), view);
      for k := 0 to |blocks|
        invariant store.Valid() && store.mined == old(store.mined) && (old(store.torn) ==> store.torn)
        invariant Accounts(told, changes) && Since(at, here)
        invariant World().Reliable() ==> store.torn == old(store.torn)
        invariant World().Reliable() ==> DerivedClear(World(), view, store.view, BlocksMembers(blocks[..k]))
        invariant ideal ==> ledger.State() == old(ledger.State()) && Swept(World(), view, store.view, blocks[..k])
      {
        assert blocks[..k + 1] == blocks[..k] + [blocks[k]];
        changes := ConfirmNext(blocks[..k], blocks[k], changes, at, here, ideal);
      }
      assert blocks[..|blocks|] == blocks;
    }

    /** One more block, after those in `done`. */
    method ConfirmNext(ghost done: seq<MinedBlock>, block: MinedBlock, soFar: Delta, at: int,
                       ghost from: Origin, ghost ideal: bool) returns (changes: Delta)
      requires store.Valid() && World().WellBehaved() && Accounts(from.told, soFar) && Since(at, from) && from.Below()
      requires World().Reliable() ==> DerivedClear(World(), from.start, store.view, BlocksMembers(done))
      requires ideal ==> Ideal() && Swept(World(), from.start, store.view, done)
      modifies store, store.tables, store.outside, ledger
      ensures store.Valid() && store.mined == old(store.mined) && (old(store.torn) ==> store.torn)
      ensures Accounts(from.told, changes) && Since(at, from)
      ensures World().Reliable() ==> store.torn == old(store.torn)
      ensures World().Reliable() ==> DerivedClear(World(), from.start, store.view, BlocksMembers(done + [block]))
      ensures ideal ==> ledger.State() == old(ledger.State()) && Swept(World(), from.start, store.view, done + [block])
    {
      ghost var mid := store.view;
      store.Disjoint();
      var more := ConfirmMinedInner(block, at);
      MergeComposes(from.told, soFar, more);
      KnownAlong(World(), at, from.ceiling, old(store.ceiling), from.start, mid, store.view);
      changes := Merge(soFar, more);
      if World().Reliable() {
        OneMoreBlock(done, block);
        ClearCompose(World(), from.start, mid, store.view, BlocksMembers(done), block.Members());
      }
      if ideal {
        SweepOne(World(), from.start, mid, store.view, done, block);
      }
    }

    // ---------------------------------------------------------------- evictions

    /** Closes the clusters an eviction emptied and re-syncs the survivors of the others. */
    method HandleEvicted(evictedTxids: seq<Txid>, at: int) returns (changes: Delta)
      requires store.Valid() && World().WellBehaved()
      modifies store, store.tables, store.outside, ledger
      ensures store.Valid() && store.mined == old(store.mined) && (old(store.torn) ==> store.torn)
      ensures store.shown == Apply(old(store.shown), changes) && Coherent(changes)
      ensures Since(at, old(Here()))
      ensures World().Reliable() ==>
        EmptiedLogged(old(store.view), Elements(evictedTxids), old(ledger.live), old(store.log), store.log)
      ensures World().Reliable() ==> store.torn == old(store.torn)
      ensures old(Ideal()) ==> ledger.State() == old(ledger.State())
      ensures old(Ideal()) ==> DerivedClear(World(), old(store.view), store.view, Elements(evictedTxids))
      ensures old(Ideal()) ==> Retains(World(), old(store.view), store.view, Elements(evictedTxids))
      ensures old(Ideal()) ==> Sources(World(), old(HeldBy(store.view)), store.view)
    {
      ghost var view, ideal := store.view, Ideal();
      var evicted := Elements(evictedTxids);
      var emptied, survivors := FindEvicted(evictedTxids);
      changes := CloseAndResync(emptied, survivors, evicted, at, ideal);
      if World().Reliable() {
        EvictionLogged(view, evicted, old(ledger.live), emptied, old(store.log), store.log);
      }
    }

    method FindEvicted(evictedTxids: seq<Txid>) returns (emptied: set<int>, survivors: seq<Txid>)
      requires store.Valid()
      modifies store.outside
      ensures store.Valid()
      ensures World().Reliable() ==>
        && Sorted(store.view, Elements(evictedTxids), ledger.live, emptied, Elements(survivors))
        && Elements(survivors) <= HeldBy(store.view)
        && forall id :: Emptied(store.view, Elements(evictedTxids), ledger.live, id) ==> id in emptied
    {
      var evicted := Elements(evictedTxids);
      var rows := FindActiveClustersContaining(evictedTxids);
      emptied, survivors := SortEvicted(rows, evicted, ledger.live);
      if World().Reliable() {
        SortedThere(store.view, rows, evicted, ledger.live, emptied, Elements(survivors));
      }
    }

    method CloseAndResync(emptied: set<int>, survivors: seq<Txid>, evicted: set<Txid>, at: int, ghost ideal: bool)
      returns (changes: Delta)
      requires store.Valid() && World().WellBehaved()
      requires ideal ==>
        && Ideal() && Sorted(store.view, evicted, ledger.live, emptied, Elements(survivors))
        && Elements(survivors) <= HeldBy(store.view)
      modifies store, store.tables, store.outside, ledger
      ensures store.Valid() && store.mined == old(store.mined) && (old(store.torn) ==> store.torn)
      ensures store.shown == Apply(old(store.shown), changes) && Coherent(changes)
      ensures Since(at, old(Here()))
      ensures World().Reliable() && emptied != {} ==>
        |old(store.log)| < |store.log| && store.log[|old(store.log)|] == Closing(emptied, Evicted, None)
      ensures World().Reliable() ==> store.torn == old(store.torn)
      ensures ideal ==>
        && ledger.State() == old(ledger.State()) && DerivedClear(World(), old(store.view), store.view, evicted)
        && Retains(World(), old(store.view), store.view, evicted)
        && Sources(World(), old(HeldBy(store.view)), store.view)
    {
      ghost var view, told, here := store.view, store.shown, Here();
      KnownSelf(World(), at, here.ceiling, view);
      KnownLess(World(), at, here.ceiling, view, emptied);
      changes := CloseEmptied(emptied);
      ghost var mid := store.view;
      var more := ResyncSurvivors(survivors, evicted, at);
      MergeComposes(told, changes, more);
      changes := Merge(changes, more);
      KnownAlong(World(), at, here.ceiling, here.ceiling, view, mid, store.view);
      if ideal {
        store.Disjoint();
        assert mid == view - emptied;
        SurvivorsSettled(World(), view, evicted, emptied, survivors, store.view);
      }
    }

    method CloseEmptied(emptied: set<int>) returns (changes: Delta)
      requires store.Valid()
      modifies store, store.tables, store.outside
      ensures store.Valid() && store.mined == old(store.mined) && store.torn == old(store.torn)
      ensures store.shown == Apply(old(store.shown), changes) && Coherent(changes)
      ensures store.view == old(store.view) || store.view == old(store.view) - emptied
      ensures store.ceiling == old(store.ceiling)
      ensures store.log == old(store.log) || store.log == old(store.log) + [Closing(emptied, Evicted, None)]
      ensures World().Reliable() && emptied != {} ==> store.log == old(store.log) + [Closing(emptied, Evicted, None)]
      ensures World().Reliable() ==> store.view == old(store.view) - emptied
    {
      changes := NoChange;
      NoChangeApplies(store.shown);
      MinusNothing(store.view);
      if emptied != {} {
        RemovalsApply(store.shown, NoChange, emptied);
        var ok := store.MarkEvicted(emptied);
        if ok {
          changes := MarkAllRemoved(NoChange, emptied);
        }
      }
    }

    method ResyncSurvivors(survivors: seq<Txid>, evicted: set<Txid>, at: int) returns (changes: Delta)
      requires store.Valid() && World().WellBehaved()
      modifies store, store.tables, store.outside, ledger
      ensures store.Valid() && store.mined == old(store.mined) && (old(store.torn) ==> store.torn)
      ensures Derived(World(), old(store.view), store.view)
      ensures Since(at, old(Here()))
      ensures store.shown == Apply(old(store.shown), changes) && Coherent(changes)
      ensures World().Reliable() ==> store.torn == old(store.torn)
      ensures old(Ideal()) ==> ledger.State() == old(ledger.State())
      ensures old(Ideal()) ==> Achieved(World(), GoalOf(old(store.view), survivors, evicted), store.view)
    {
      changes := NoChange;
      NoChangeApplies(store.shown);
      KnownSelf(World(), at, store.ceiling, store.view);
      if survivors == [] {
        return;
      }
      changes := HandleCandidatesCovering(survivors, evicted, at);
    }

    // ------------------------------------------------------------------ the sync

    /**
     One resync after a flush: confirmed, evicted, then candidates. With a
     truthful node and no failed call, clusters that were the components of the
     mempool `was` become the components of the mempool there is now, unless a
     component that nothing joined was mined whole by one block.
     */
    method SyncClusters(candidates: seq<Txid>, confirmed: seq<Txid>, evicted: seq<Txid>, at: int, ghost was: set<Txid>)
      returns (changes: Delta)
      requires store.Valid() && World().WellBehaved()
      modifies store, store.tables, store.outside, ledger
      ensures store.Valid() && store.mined == old(store.mined) && (old(store.torn) ==> store.torn)
      ensures store.shown == Apply(old(store.shown), changes) && Coherent(changes)
      ensures Since(at, old(Here()))
      ensures World().Reliable() ==> store.torn == old(store.torn)
      ensures
        && old(Ideal())
        && SpendGraphRecomputed(was, old(store.view))
        && Covers(was, World().pool, Elements(confirmed) + Elements(evicted), Elements(candidates))
        && Elements(confirmed) <= store.mined.Keys
        ==> (Recomputed(World().spends, World().pool, store.view)
             <==> !Forgets(World(), old(store.view), Elements(confirmed), store.mined, Elements(candidates)))
      ensures PairwiseDisjoint(store.view)
    {
      ghost var v0, told, here := store.view, store.shown, Here();
      changes := HandleConfirmed(confirmed, at);
      ghost var v1 := store.view;
      store.Disjoint();
      ghost var ceiling := store.ceiling;
      var more := HandleEvicted(evicted, at);
      KnownAlong(World(), at, here.ceiling, ceiling, v0, v1, store.view);
      MergeComposes(told, changes, more);
      changes := Merge(changes, more);
      ghost var v2 := store.view;
      store.Disjoint();
      ceiling := store.ceiling;
      more := HandleCandidates(candidates, at);
      KnownAlong(World(), at, here.ceiling, ceiling, v0, v2, store.view);
      MergeComposes(told, changes, more);
      changes := Merge(changes, more);
      store.Disjoint();
      if old(Ideal()) {
        StagesAddUp(World(), was, v0, v1, v2, store.view, confirmed, evicted, candidates, store.mined);
      }
    }

    ghost predicate SpendGraphRecomputed(was: set<Txid>, view: View) {
      Recomputed(World().spends, was, view)
    }
  }

  function BlocksMembers(blocks: seq<MinedBlock>): set<Txid> {
    if blocks == [] then {} else BlocksMembers(blocks[..|blocks| - 1]) + blocks[|blocks| - 1].Members()
  }

  lemma OneMoreBlock(blocks: seq<MinedBlock>, block: MinedBlock)
    ensures BlocksMembers(blocks + [block]) == BlocksMembers(blocks) + block.Members()
  {
    assert (blocks + [block])[..|blocks|] == blocks;
  }

  lemma {:induction false} BlocksMember(blocks: seq<MinedBlock>, t: Txid)
    ensures t in BlocksMembers(blocks) <==> exists i :: 0 <= i < |blocks| && t in blocks[i].Members()
  {
    if blocks != [] {
      var n := |blocks| - 1;
      BlocksMember(blocks[..n], t);
      if i :| 0 <= i < n && t in blocks[..n][i].Members() {
        assert t in blocks[i].Members();
      }
      if i :| 0 <= i < |blocks| && t in blocks[i].Members() {
        if i < n {
          assert t in blocks[..n][i].Members();
        }
      }
    }
  }

  /** Grouping by block neither loses nor adds a transaction. */
  lemma BlocksHold(rows: seq<MinedRow>, blocks: seq<MinedBlock>, keys: seq<BlockKey>)
    requires |keys| == |blocks| && Elements(keys) == KeysOf(rows)
    requires forall i, t :: 0 <= i < |keys| ==> (t in blocks[i].Members() <==> HasRow(rows, keys[i], t))
    ensures forall t :: t in BlocksMembers(blocks) <==> exists i :: 0 <= i < |rows| && rows[i].txid == t
  {
    forall t
      ensures t in BlocksMembers(blocks) <==> exists i :: 0 <= i < |rows| && rows[i].txid == t
    {
      BlocksMember(blocks, t);
      if i :| 0 <= i < |rows| && rows[i].txid == t {
        var key := rows[i].mined.block;
        assert rows[i] in rows && key in Elements(keys);
        var j :| 0 <= j < |keys| && keys[j] == key;
        assert HasRow(rows, key, t) && t in blocks[j].Members();
      }
      if j :| 0 <= j < |blocks| && t in blocks[j].Members() {
        assert HasRow(rows, keys[j], t);
      }
    }
  }

  /** A cluster still untouched after the mined members of the looked-up clusters were cleared holds none of them. */
  lemma UntouchedConfirmed(w: World, view: View, after: View, rows: View, confirmed: set<Txid>, mined: set<Txid>,
      cleared: set<Txid>)
    requires rows.Keys == Holding(view, confirmed) && forall id :: id in rows ==> rows[id] == view[id]
    requires DerivedClear(w, view, after, cleared)
    requires mined * MembersIn(rows, rows.Keys) <= cleared
    ensures DerivedClear(w, view, after, confirmed * mined)
  {
    forall id | id in after && !w.Vouched(MembersOf(after[id].chunks))
      ensures MembersOf(after[id].chunks) !! confirmed * mined
    {
      forall t | t in MembersOf(after[id].chunks) && t in confirmed
        ensures t !in mined
      {
        assert id in Holding(view, confirmed);
        assert id in rows && t in MembersOf(rows[id].chunks);
        assert t in MembersIn(rows, rows.Keys);
      }
    }
  }

  /** An eviction touched the cluster and left nobody of it. */
  ghost predicate Emptied(view: View, evicted: set<Txid>, live: set<Txid>, id: int) {
    id in Holding(view, evicted) && Remaining(MembersOf(view[id].chunks), evicted, live) == {}
  }

  /** Every cluster the eviction emptied was closed as evicted. */
  ghost predicate EmptiedLogged(view: View, evicted: set<Txid>, live: set<Txid>,
                                log: seq<Closing>, after: seq<Closing>) {
    forall id :: Emptied(view, evicted, live, id) ==> EvictedSince(log, after, id)
  }

  lemma EvictionLogged(view: View, evicted: set<Txid>, live: set<Txid>, emptied: set<int>,
                       log: seq<Closing>, after: seq<Closing>)
    requires forall id :: Emptied(view, evicted, live, id) ==> id in emptied
    requires emptied != {} ==> |log| < |after| && after[|log|] == Closing(emptied, Evicted, None)
    ensures EmptiedLogged(view, evicted, live, log, after)
  {
    forall id | Emptied(view, evicted, live, id) ensures EvictedSince(log, after, id) {
      assert id in emptied && after[|log|] == Closing(emptied, Evicted, None);
    }
  }

  /** Splits the clusters an eviction touched into the emptied ones and the survivors of the rest. */
  method SortEvicted(rows: View, evicted: set<Txid>, live: set<Txid>) returns (emptied: set<int>, survivors: seq<Txid>)
    ensures emptied <= rows.Keys
    ensures forall id :: id in rows ==>
      && (id in emptied <==> Remaining(MembersOf(rows[id].chunks), evicted, live) == {})
      && Remaining(MembersOf(rows[id].chunks), evicted, live) <= Elements(survivors)
    ensures Elements(survivors) <= live && Elements(survivors) !! evicted
    ensures Elements(survivors) <= MembersIn(rows, rows.Keys)
  {
    emptied, survivors := {}, [];
    var left := rows.Keys;
    while left != {}
      invariant left <= rows.Keys && emptied <= rows.Keys && emptied !! left
      invariant forall id :: id in rows && id !in left ==>
        && (id in emptied <==> Remaining(MembersOf(rows[id].chunks), evicted, live) == {})
        && Remaining(MembersOf(rows[id].chunks), evicted, live) <= Elements(survivors)
      invariant Elements(survivors) <= live && Elements(survivors) !! evicted
      invariant Elements(survivors) <= MembersIn(rows, rows.Keys)
      decreases |left|
    {
      var id := PickOne(left);
      var remaining := Within(Uncovered(Txids(rows[id].chunks), evicted), live);
      assert Elements(remaining) == Remaining(MembersOf(rows[id].chunks), evicted, live);
      if remaining == [] {
        emptied := emptied + {id};
      } else {
        assert remaining[0] in Elements(remaining);
        assert Elements(survivors + remaining) == Elements(survivors) + Elements(remaining);
        survivors := survivors + remaining;
      }
      left := left - {id};
    }
  }

  lemma SortedThere(view: View, rows: View, evicted: set<Txid>, live: set<Txid>, emptied: set<int>,
      survivors: set<Txid>)
    requires rows.Keys == Holding(view, evicted) && forall id :: id in rows ==> rows[id] == view[id]
    requires emptied <= rows.Keys
    requires forall id :: id in rows ==>
      && (id in emptied <==> Remaining(MembersOf(rows[id].chunks), evicted, live) == {})
      && Remaining(MembersOf(rows[id].chunks), evicted, live) <= survivors
    requires survivors <= live && survivors !! evicted && survivors <= MembersIn(rows, rows.Keys)
    ensures Sorted(view, evicted, live, emptied, survivors) && survivors <= HeldBy(view)
  {
    forall t | t in survivors ensures t in HeldBy(view) {
      var id :| id in rows && t in MembersOf(rows[id].chunks);
      assert Holds(view, id, t);
      HeldIff(view, t);
    }
  }

  lemma SurvivorsSettled(w: World, view: View, evicted: set<Txid>, emptied: set<int>, survivors: seq<Txid>, after: View)
    requires w.Truthful() && Sorted(view, evicted, w.pool, emptied, Elements(survivors))
    requires Derived(w, view - emptied, after) && PairwiseDisjoint(after)
    requires Achieved(w, GoalOf(view - emptied, survivors, evicted), after)
    requires Elements(survivors) <= HeldBy(view)
    ensures DerivedClear(w, view, after, evicted) && Retains(w, view, after, evicted)
    ensures Sources(w, HeldBy(view), after)
  {
    HeldWithout(view, emptied);
    SourcesGrow(w, HeldBy(view - emptied) + Elements(survivors), HeldBy(view), after);
    EvictedClear(w, view, evicted, emptied, Elements(survivors), after);
    EvictedRetains(w, view, evicted, emptied, Elements(survivors), after);
  }

  lemma StagesAddUp(w: World, was: set<Txid>, v0: View, v1: View, v2: View, v3: View,
                    confirmed: seq<Txid>, evicted: seq<Txid>, added: seq<Txid>, mined: map<Txid, MinedAs>)
    requires w.Truthful() && PairwiseDisjoint(v1) && PairwiseDisjoint(v2) && PairwiseDisjoint(v3)
    requires DerivedClear(w, v0, v1, Elements(confirmed) * mined.Keys)
    requires ConfirmSweeps(w, v0, v1, Elements(confirmed), mined)
    requires DerivedClear(w, v1, v2, Elements(evicted)) && Retains(w, v1, v2, Elements(evicted))
        && Sources(w, HeldBy(v1), v2)
    requires Derived(w, v2, v3) && Achieved(w, GoalOf(v2, added, {}), v3)
    ensures
      && Recomputed(w.spends, was, v0)
      && Covers(was, w.pool, Elements(confirmed) + Elements(evicted), Elements(added))
      && Elements(confirmed) <= mined.Keys
      ==> (Recomputed(w.spends, w.pool, v3) <==> !Forgets(w, v0, Elements(confirmed), mined, Elements(added)))
  {
    if && Recomputed(w.spends, was, v0)
       && Covers(was, w.pool, Elements(confirmed) + Elements(evicted), Elements(added))
       && Elements(confirmed) <= mined.Keys
    {
      assert Elements(confirmed) * mined.Keys == Elements(confirmed);
      assert Stages(w, v0, v1, v2, v3, Elements(confirmed), Elements(evicted), Elements(added), mined);
      ResyncExact(w, was, v0, v1, v2, v3, Elements(confirmed), Elements(evicted), Elements(added), mined);
    }
  }

  lemma NothingAsked(w: World, view: View)
    ensures view - {} == view
    ensures Derived(w, view, view) && Achieved(w, GoalOf(view, [], {}), view)
    ensures Elements<Txid>([]) == {}
  {
  }

  /** Every cluster with a mined member was closed, and whoever it left behind was asked about. */
  lemma BlockSettled(w: World, view: View, gone: set<Txid>, rows: View, full: set<int>, pending: seq<Txid>, after: View)
    requires rows.Keys == Holding(view, gone) && forall id :: id in rows ==> rows[id] == view[id]
    requires full == set id | id in rows && MembersOf(rows[id].chunks) <= gone
    requires Elements(pending) == MembersIn(rows - full, (rows - full).Keys) - gone
    requires Derived(w, view - full - (rows - full).Keys, after)
    ensures DerivedClear(w, view, after, gone)
    ensures Achieved(w, GoalOf(view - full - (rows - full).Keys, pending, {}), after) ==>
              Retains(w, view, after, gone) && Sources(w, HeldBy(view) - gone, after)
  {
    PartsRemoved(view, rows, full);
    ClosedClear(w, view, gone, after);
    PendingEnough(view, rows, full, gone, pending);
    if Achieved(w, GoalOf(view - full - (rows - full).Keys, pending, {}), after) {
      ClosedRetains(w, view, gone, pending, after);
      PendingHeld(view, rows, full, gone, pending);
      SourcesGrow(w, HeldBy(view - rows.Keys) + Elements(pending), HeldBy(view) - gone, after);
    }
  }

  lemma HeldWithout(view: View, ids: set<int>)
    ensures HeldBy(view - ids) <= HeldBy(view)
  {
  }

  /** Whoever the block left behind was held and is not in it. */
  lemma PendingHeld(view: View, rows: View, full: set<int>, gone: set<Txid>, pending: seq<Txid>)
    requires rows.Keys == Holding(view, gone) && forall id :: id in rows ==> rows[id] == view[id]
    requires Elements(pending) == MembersIn(rows - full, (rows - full).Keys) - gone
    ensures HeldBy(view - rows.Keys) + Elements(pending) <= HeldBy(view) - gone
  {
    forall t | t in HeldBy(view - rows.Keys) ensures t in HeldBy(view) && t !in gone {
      HeldIff(view - rows.Keys, t);
      var id :| Holds(view - rows.Keys, id, t);
      assert Holds(view, id, t);
      HeldIff(view, t);
    }
    forall t | t in Elements(pending) ensures t in HeldBy(view) {
      var id :| id in (rows - full).Keys && t in MembersOf((rows - full)[id].chunks);
      assert Holds(view, id, t);
      HeldIff(view, t);
    }
  }

  /** No active cluster has a confirmed member: nothing is swept out. */
  lemma NothingTouched(w: World, view: View, confirmed: set<Txid>, mined: map<Txid, MinedAs>)
    requires Holding(view, confirmed) == {}
    ensures ConfirmSweeps(w, view, view, confirmed, mined)
  {
  }

  lemma LookedUp(view: View, rows: View, confirmed: set<Txid>)
    requires rows.Keys == Holding(view, confirmed) && forall id :: id in rows ==> rows[id] == view[id]
    ensures MembersIn(rows, rows.Keys) == HeldBy(map id | id in view && id in Holding(view, confirmed) :: view[id])
  {
    var touched := map id | id in view && id in Holding(view, confirmed) :: view[id];
    assert touched.Keys == rows.Keys;
    assert forall id :: id in rows ==> touched[id] == rows[id];
    assert rows == touched;
  }

  lemma DerivedFromLess(w: World, view: View, gone: set<int>, after: View)
    requires Derived(w, view - gone, after)
    ensures Derived(w, view, after)
  {
  }

  lemma PartsRemoved(view: View, rows: View, full: set<int>)
    requires full <= rows.Keys
    ensures view - full - (rows - full).Keys == view - rows.Keys
  {
  }

  lemma PendingEnough(view: View, rows: View, full: set<int>, gone: set<Txid>, pending: seq<Txid>)
    requires rows.Keys <= view.Keys && forall id :: id in rows ==> rows[id] == view[id]
    requires full == set id | id in rows && MembersOf(rows[id].chunks) <= gone
    requires Elements(pending) == MembersIn(rows - full, (rows - full).Keys) - gone
    ensures MembersIn(view, rows.Keys) - gone <= Elements(pending)
  {
    var partial := rows - full;
    forall t | t in MembersIn(view, rows.Keys) && t !in gone
      ensures t in Elements(pending)
    {
      var id :| id in rows.Keys && t in MembersOf(view[id].chunks);
      assert id in partial && t in MembersOf(partial[id].chunks);
      assert t in MembersIn(partial, partial.Keys);
    }
  }

  /** One trim per cluster, and everyone the block left behind. */
  method TrimsOf(partial: View, block: MinedBlock) returns (updates: seq<VersionUpdate>, pending: seq<Txid>)
    ensures Shrinking(partial, updates) && UpdateIds(updates) == partial.Keys
    ensures Elements(pending) == MembersIn(partial, partial.Keys) - block.Members()
    ensures TrimsFor(partial, block, updates)
  {
    var ids := Enumerate(partial.Keys);
    assert forall i :: 0 <= i < |ids| ==> ids[i] in Elements(ids);
    updates, pending := [], [];
    ghost var done: set<int> := {};
    for k := 0 to |ids|
      invariant done == Elements(ids[..k]) && done <= partial.Keys
      invariant UpdateIds(updates) == done
      invariant OneEach(updates)
      invariant forall u :: u in updates ==> u.id in partial && u.chunks == MinedChunks(block, partial[u.id].chunks)
      invariant Elements(pending) == MembersIn(partial, done) - block.Members()
    {
      var id := ids[k];
      assert ids[..k + 1] == ids[..k] + [id];
      MembersInOneMore(partial, done, id);
      var mined, left := SplitCluster(block, partial[id].chunks);
      assert Elements(left) == MembersOf(partial[id].chunks) - block.Members();
      assert Elements(pending + left) == Elements(pending) + Elements(left);
      UpdateIdsSnoc(updates, VersionUpdate(id, mined));
      OneEachSnoc(updates, VersionUpdate(id, mined));
      done := done + {id};
      updates, pending := updates + [VersionUpdate(id, mined)], pending + left;
    }
    assert ids[..|ids|] == ids;
    TrimsShrink(partial, block, updates);
  }

  lemma TrimsShrink(partial: View, block: MinedBlock, updates: seq<VersionUpdate>)
    requires TrimsFor(partial, block, updates)
    ensures Shrinking(partial, updates)
  {
    forall u | u in updates
      ensures MembersOf(u.chunks) <= MembersOf(partial[u.id].chunks)
    {
      TrimConserves(block, partial[u.id].chunks);
    }
  }

  lemma OneEachSnoc(updates: seq<VersionUpdate>, u: VersionUpdate)
    requires OneEach(updates) && u.id !in UpdateIds(updates)
    ensures OneEach(updates + [u])
  {
    forall i | 0 <= i < |updates| ensures updates[i].id != u.id {
      assert updates[i] in updates;
    }
  }

  lemma ShrinkingThere(partial: View, view: View, updates: seq<VersionUpdate>)
    requires Shrinking(partial, updates) && PartOf(partial, view)
    ensures Shrinking(view, updates)
  {
  }

  lemma UpdateIdsSnoc(updates: seq<VersionUpdate>, u: VersionUpdate)
    ensures UpdateIds(updates + [u]) == UpdateIds(updates) + {u.id}
  {
    assert u in updates + [u];
    assert forall x :: x in updates ==> x in updates + [u];
    assert forall x :: x in updates + [u] ==> x in updates || x == u;
  }

  /** Keep whatever is held, answer every candidate, except for the txids known to be gone. */
  ghost function GoalOf(start: View, candidates: seq<Txid>, outOfMempool: set<Txid>): Goal {
    Goal(HeldBy(start) + Elements(candidates), Elements(candidates), outOfMempool)
  }

  lemma RoundStarts(w: World, start: View, candidates: seq<Txid>, outOfMempool: set<Txid>)
    ensures var r, goal := Round(candidates, outOfMempool, map[]), GoalOf(start, candidates, outOfMempool);
            && BufferOk(w, start, r) && Derived(w, start, start)
            && Complete(w, goal.wanted, goal.asked, goal.excused, start, r)
  {
  }

  /** The buffered clusters in some order. */
  ghost predicate ValuesOf(buffer: map<Txid, NewCluster>, keys: seq<Txid>, batch: seq<NewCluster>) {
    && |keys| == |batch| && Elements(keys) == buffer.Keys
    && Distinct(keys)
    && (forall i :: 0 <= i < |keys| ==> keys[i] in buffer && batch[i] == buffer[keys[i]])
  }

  method BufferValues(buffer: map<Txid, NewCluster>) returns (batch: seq<NewCluster>)
    ensures exists keys :: ValuesOf(buffer, keys, batch)
  {
    var keys := Enumerate(buffer.Keys);
    assert forall i :: 0 <= i < |keys| ==> keys[i] in Elements(keys);
    batch := seq(|keys|, i requires 0 <= i < |keys| => buffer[keys[i]]);
    assert ValuesOf(buffer, keys, batch);
  }

  /** The buffer never overlaps an active cluster, so its batch may be inserted as it is. */
  lemma BufferSeparate(w: World, view: View, r: Round, batch: seq<NewCluster>)
    requires BufferOk(w, view, r)
    requires exists keys :: ValuesOf(r.buffer, keys, batch)
    ensures Separate(view, batch)
  {
    var keys :| ValuesOf(r.buffer, keys, batch);
    forall i | 0 <= i < |batch|
      ensures MembersOf(batch[i].chunks) == {keys[i]}
      ensures forall id :: id in view ==> keys[i] !in MembersOf(view[id].chunks)
    {
      BufferedAlone(w, view, r, keys[i]);
    }
    SingletonsSeparate(view, keys, batch);
  }

  lemma SingletonsSeparate(view: View, keys: seq<Txid>, batch: seq<NewCluster>)
    requires |keys| == |batch| && Distinct(keys)
    requires forall i :: 0 <= i < |batch| ==> MembersOf(batch[i].chunks) == {keys[i]}
    requires forall i, id :: 0 <= i < |batch| && id in view ==> keys[i] !in MembersOf(view[id].chunks)
    ensures Separate(view, batch)
  {
  }

  lemma BufferedAlone(w: World, view: View, r: Round, t: Txid)
    requires BufferOk(w, view, r) && t in r.buffer
    ensures MembersOf(r.buffer[t].chunks) == {t}
    ensures forall id :: id in view ==> t !in MembersOf(view[id].chunks)
  {
    HeldIff(view, t);
    assert forall id :: id in view ==> !Holds(view, id, t);
  }

  lemma GrownDerived(w: World, start: View, view: View, r: Round, batch: seq<NewCluster>, k: nat, after: View)
    requires BufferOk(w, view, r) && Derived(w, start, view)
    requires exists keys :: ValuesOf(r.buffer, keys, batch)
    requires k <= |batch| && Grown(view, after, batch[..k])
    ensures Derived(w, start, after)
  {
    var keys :| ValuesOf(r.buffer, keys, batch);
    forall id | id in after && id !in view
      ensures w.Vouched(MembersOf(after[id].chunks))
    {
      var i := PlaceInBatch(batch, k, after[id]);
      assert batch[i] == r.buffer[keys[i]] && MembersOf(r.buffer[keys[i]].chunks) == {keys[i]};
    }
  }

  lemma PlaceInBatch(batch: seq<NewCluster>, k: nat, cluster: ActiveCluster) returns (i: nat)
    requires k <= |batch| && FromBatch(batch[..k], cluster)
    ensures i < k && cluster == Fresh(batch[i].chunks, batch[i].firstSeenAt)
  {
    i :| 0 <= i < k && cluster == Fresh(batch[..k][i].chunks, batch[..k][i].firstSeenAt);
  }

  lemma GrownFlushes(view: View, buffer: map<Txid, NewCluster>, batch: seq<NewCluster>, after: View)
    requires exists keys :: ValuesOf(buffer, keys, batch)
    requires forall t :: t in buffer ==> MembersOf(buffer[t].chunks) == {t}
    requires Grown(view, after, batch)
    ensures Flushed(view, after, buffer)
  {
    var keys :| ValuesOf(buffer, keys, batch);
    forall t | t in buffer
      ensures HasGroup(after, {t})
    {
      assert t in Elements(keys);
      var i :| 0 <= i < |keys| && keys[i] == t;
      var cluster := Fresh(batch[i].chunks, batch[i].firstSeenAt);
      assert Joined(view, after, cluster) && MembersOf(cluster.chunks) == {t};
    }
    forall t | t in HeldBy(after)
      ensures t in HeldBy(view) || t in buffer
    {
      GrownHolds(view, buffer, keys, batch, after, t);
    }
  }

  /** Whoever is held after a batch of buffered singletons was held before or buffered. */
  lemma GrownHolds(view: View, buffer: map<Txid, NewCluster>, keys: seq<Txid>, batch: seq<NewCluster>, after: View,
      t: Txid)
    requires ValuesOf(buffer, keys, batch) && t in HeldBy(after)
    requires forall u :: u in buffer ==> MembersOf(buffer[u].chunks) == {u}
    requires forall id :: id in view ==> id in after && after[id] == view[id]
    requires forall id :: id in after ==> id in view || FromBatch(batch, after[id])
    ensures t in HeldBy(view) || t in buffer
  {
    HeldIff(after, t);
    var id :| Holds(after, id, t);
    if id in view {
      assert Holds(view, id, t);
      HeldIff(view, t);
    } else {
      assert batch[..|batch|] == batch;
      var i := PlaceInBatch(batch, |batch|, after[id]);
      assert MembersOf(buffer[keys[i]].chunks) == {keys[i]};
    }
  }

  lemma BatchKnown(w: World, at: int, from: Origin, view: View, buffer: map<Txid, NewCluster>, batch: seq<NewCluster>,
                   committed: nat, firstId: int)
    requires exists keys :: ValuesOf(buffer, keys, batch)
    requires Known(w, at, from.ceiling, from.start, view) && BufferKnown(w, at, buffer) && committed <= |batch|
    requires from.Below() && from.ceiling <= firstId && forall id :: id in view ==> id < firstId
    ensures Known(w, at, from.ceiling, from.start, WithInserted(view, firstId, batch[..committed]))
  {
    var keys :| ValuesOf(buffer, keys, batch);
    forall i | 0 <= i < committed ensures w.Reported(batch[i].chunks) && batch[i].firstSeenAt == at {
      assert batch[i] == buffer[keys[i]];
    }
    GrownKnown(w, at, from.ceiling, from.start, view, batch[..committed], firstId);
  }

  /**
   Whatever of the buffered singletons was committed leaves every cluster untouched or reported;
   all of it flushes them.
   */
  lemma InsertSettles(w: World, start: View, view: View, r: Round, batch: seq<NewCluster>, committed: nat,
      firstId: int, after: View)
    requires BufferOk(w, view, r) && Derived(w, start, view) && committed <= |batch|
    requires exists keys :: ValuesOf(r.buffer, keys, batch)
    requires after == WithInserted(view, firstId, batch[..committed]) && forall id :: id in view ==> id < firstId
    ensures Derived(w, start, after)
    ensures committed == |batch| ==> Flushed(view, after, r.buffer)
  {
    WithInsertedGrows(view, firstId, batch[..committed]);
    GrownDerived(w, start, view, r, batch, committed, after);
    if committed == |batch| {
      assert batch[..committed] == batch;
      GrownFlushes(view, r.buffer, batch, after);
    }
  }

  /** A batch left behind by a failed insert is in the tables and in no change set: only without one do they match. */
  lemma UntoldBatch(told: View, changes: Delta, view: View, batch: seq<NewCluster>, after: View)
    requires Grown(view, after, batch) && PartOf(Apply(told, changes), view)
    ensures after == Apply(told, changes) <==> batch == [] && view == Apply(told, changes)
  {
    if batch != [] {
      assert Joined(view, after, Fresh(batch[0].chunks, batch[0].firstSeenAt));
    } else {
      forall id ensures id in after <==> id in view {
        assert id in after ==> id in view || FromBatch(batch, after[id]);
      }
      assert after.Keys == view.Keys;
      assert forall id :: id in view ==> after[id] == view[id];
      assert after == view;
    }
  }

  lemma LoneGroup(chunks: seq<Chunk>, t: Txid)
    requires t in MembersOf(chunks) && |Txids(chunks)| == 1
    ensures MembersOf(chunks) == {t}
  {
    assert Txids(chunks) == [t];
  }

  lemma TruthfulMiss(w: World, k: nat, t: Txid)
    requires w.Truthful()
    requires w.node(k, t).NotFound? || (w.node(k, t).Found? && Txids(w.node(k, t).chunks) == [])
    ensures t !in w.pool
  {
    if t in w.pool {
      SpendGraph.ConnectedSelf(w.spends, w.pool, t);
    }
  }

  lemma {:induction false} PresentNoop(l: Ledger, txids: seq<Txid>, at: int)
    requires Elements(txids) <= l.live
    ensures AssertPresent(l, txids, at) == l
  {
    if txids != [] {
      assert txids[|txids| - 1] in Elements(txids);
      assert Elements(txids[..|txids| - 1]) <= Elements(txids);
      PresentNoop(l, txids[..|txids| - 1], at);
    }
  }

  lemma {:induction false} AbsentNoop(l: Ledger, txids: seq<Txid>, at: int)
    requires Elements(txids) !! l.live
    ensures AssertAbsent(l, txids, at) == l
  {
    if txids != [] {
      assert txids[|txids| - 1] in Elements(txids);
      assert Elements(txids[..|txids| - 1]) <= Elements(txids);
      AbsentNoop(l, txids[..|txids| - 1], at);
    }
  }
}
