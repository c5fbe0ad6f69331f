/**
 One round of the candidate work queue, as values: what a step may do to the
 active clusters and to the queue, and what every step keeps.
 */
module ClusterRound {
  import opened Common
  import opened ClusterDb
  import opened SpendGraph

  datatype Reply = Found(chunks: seq<Chunk>) | NotFound | Failed

  /**
   Everything outside the service. `node` and `ok` give the answer to the k-th
   call, so replies may change from one call to the next and any repository call
   may fail. `spends` and `pool` are the node's spend graph and mempool, for runs
   in which the node answers truthfully; `shunned` are txids it never reports.
   */
  datatype World = World(
    node: (nat, Txid) -> Reply,
    ok: nat -> bool,
    spends: Spends,
    pool: set<Txid>,
    shunned: set<Txid>)
  {
    /** A non-empty reply for a txid contains it, each member once. */
    ghost predicate WellBehaved() {
      forall k, t :: node(k, t).Found? && Txids(node(k, t).chunks) != [] ==>
        t in Txids(node(k, t).chunks) && Distinct(Txids(node(k, t).chunks))
    }

    ghost predicate Shunning() {
      forall k, t :: node(k, t).Found? ==> MembersOf(node(k, t).chunks) !! shunned
    }

    ghost predicate Truthful() {
      forall k, t ::
        if t in pool then node(k, t).Found? && MembersOf(node(k, t).chunks) == Component(spends, pool, t)
        else node(k, t).NotFound? || (node(k, t).Found? && Txids(node(k, t).chunks) == [])
    }

    ghost predicate Reliable() {
      forall k :: ok(k)
    }

    /** Some reply of the node consists of exactly these chunks. */
    ghost predicate Reported(chunks: seq<Chunk>) {
      exists k, t :: Replied(k, t, chunks)
    }

    ghost predicate Replied(k: nat, t: Txid, chunks: seq<Chunk>) {
      node(k, t).Found? && node(k, t).chunks == chunks && Txids(chunks) != []
    }

    /** What a group the node reported is known to be. */
    ghost predicate Vouched(group: set<Txid>) {
      && (Shunning() ==> group !! shunned)
      && (Truthful() ==> IsComponent(spends, pool, group))
    }
  }

  predicate Holds(view: View, id: int, t: Txid) {
    id in view && t in MembersOf(view[id].chunks)
  }

  lemma HeldIff(view: View, t: Txid)
    ensures t in HeldBy(view) <==> exists id :: Holds(view, id, t)
  {
    if id :| Holds(view, id, t) {
      assert id in view && t in MembersOf(view[id].chunks);
    }
    if t in HeldBy(view) {
      var id :| id in view && t in MembersOf(view[id].chunks);
      assert Holds(view, id, t);
    }
  }

  datatype Round = Round(queue: seq<Txid>, covered: set<Txid>, buffer: map<Txid, NewCluster>)

  // ------------------------------------------------------------- termination

  /** The txids the queue may still have to ask about. */
  function Outstanding(view: View, r: Round): set<Txid> {
    (HeldBy(view) + Elements(r.queue)) - r.covered
  }

  // -------------------------------------------------------------- invariants

  /** The buffered singletons overlap neither an active cluster nor each other. */
  ghost predicate BufferOk(w: World, view: View, r: Round) {
    forall t :: t in r.buffer ==>
      && t in r.covered && t !in HeldBy(view)
      && MembersOf(r.buffer[t].chunks) == {t} && w.Vouched({t})
  }

  /** Every active cluster is one the round started with, untouched, or one the node reported. */
  ghost predicate Derived(w: World, start: View, view: View) {
    forall id :: id in view ==>
      (id in start && view[id] == start[id]) || w.Vouched(MembersOf(view[id].chunks))
  }

  ghost predicate HasGroup(view: View, group: set<Txid>) {
    exists id :: id in view && MembersOf(view[id].chunks) == group
  }

  /** The txid's component already stands as a cluster of its own, or waits in the buffer. */
  ghost predicate Settled(w: World, view: View, buffer: map<Txid, NewCluster>, t: Txid) {
    || HasGroup(view, Component(w.spends, w.pool, t))
    || (t in buffer && Component(w.spends, w.pool, t) == {t})
  }

  /** Wanted, or in the component of someone wanted. */
  ghost predicate Sourced(w: World, wanted: set<Txid>, t: Txid) {
    t in wanted || exists u :: u in wanted && u in w.pool && t in Component(w.spends, w.pool, u)
  }

  /** Whoever is reported with a sourced txid is sourced. */
  lemma GroupSourced(w: World, wanted: set<Txid>, group: set<Txid>, t: Txid, x: Txid)
    requires IsComponent(w.spends, w.pool, group) && t in group && x in group && Sourced(w, wanted, t)
    ensures Sourced(w, wanted, x)
  {
    ComponentOfMember(w.spends, w.pool, group, t);
    if t !in wanted {
      var u :| u in wanted && u in w.pool && t in Component(w.spends, w.pool, u);
      SameComponent(w.spends, w.pool, u, t);
    }
  }

  /** Nothing wanted gets lost, nobody turns up unasked, and what was covered on the way is settled. */
  ghost predicate Complete(w: World, wanted: set<Txid>, asked: set<Txid>, excused: set<Txid>, view: View, r: Round) {
    && (forall t :: t in wanted && t in w.pool && t !in excused ==> t in HeldBy(view) || t in r.queue || t in r.buffer)
    && (forall t :: t in asked ==> t in r.queue || t in r.covered)
    && (forall t :: t in r.covered && t in w.pool && t !in excused ==> Settled(w, view, r.buffer, t))
    && (forall t :: t in HeldBy(view) || t in r.queue || t in r.buffer ==> Sourced(w, wanted, t))
  }

  // -------------------------------------------------------------------- upsert

  /** What an upsert of a reported `group` may do, on every path through it. */
  ghost predicate Upserts(view: View, after: View, group: set<Txid>, detached: seq<Txid>) {
    && (forall id :: id in after ==> (id in view && after[id] == view[id]) || MembersOf(after[id].chunks) == group)
    && (forall t :: t in HeldBy(view) ==> t in HeldBy(after) || t in detached || t in group)
    && (forall t :: t in detached ==> t in HeldBy(view) && t !in group)
  }

  /** What it does when every call succeeds: the group stands, and clusters apart from it are untouched. */
  ghost predicate UpsertsFully(view: View, after: View, group: set<Txid>) {
    && HasGroup(after, group)
    && (forall id :: id in view && MembersOf(view[id].chunks) !! group ==> id in after && after[id] == view[id])
  }

  lemma UpsertHeld(view: View, after: View, group: set<Txid>, detached: seq<Txid>)
    requires Upserts(view, after, group, detached)
    ensures HeldBy(after) <= HeldBy(view) + group
  {
    forall t | t in HeldBy(after)
      ensures t in HeldBy(view) + group
    {
      HeldIff(after, t);
      var id :| Holds(after, id, t);
      if MembersOf(after[id].chunks) != group {
        assert Holds(view, id, t);
        HeldIff(view, t);
      }
    }
  }

  function Uncovered(txids: seq<Txid>, covered: set<Txid>): (r: seq<Txid>)
    ensures forall t :: t in r <==> t in txids && t !in covered
  {
    if txids == [] then []
    else
      var rest := Uncovered(txids[1..], covered);
      if txids[0] in covered then rest else [txids[0]] + rest
  }

  // ------------------------------------------------------------------- branches

  function Skip(r: Round): Round
    requires r.queue != []
  {
    r.(queue := r.queue[1..])
  }

  function Cover(r: Round, group: set<Txid>): Round
    requires r.queue != []
  {
    r.(queue := r.queue[1..], covered := r.covered + group)
  }

  function Buffer(r: Round, t: Txid, chunks: seq<Chunk>, at: int): Round
    requires r.queue != []
  {
    Cover(r, {t}).(buffer := r.buffer[t := NewCluster(chunks, at)])
  }

  function Placed(r: Round, group: set<Txid>, detached: seq<Txid>): Round
    requires r.queue != []
  {
    var covered := r.covered + group;
    Round(r.queue[1..] + Uncovered(detached, covered), covered, r.buffer - group)
  }

  lemma QueueHead(q: seq<Txid>)
    requires q != []
    ensures Elements(q) == {q[0]} + Elements(q[1..])
    ensures forall t :: t in q <==> t == q[0] || t in q[1..]
  {
  }

  /** Dropping the head never leaves more to ask about. */
  lemma SkipShrinks(view: View, r: Round)
    requires r.queue != []
    ensures Outstanding(view, Skip(r)) <= Outstanding(view, r)
    ensures |Skip(r).queue| < |r.queue|
  {
    QueueHead(r.queue);
  }

  /** Covering the head leaves strictly less to ask about. */
  lemma CoverShrinks(view: View, r: Round, group: set<Txid>)
    requires r.queue != [] && r.queue[0] !in r.covered && r.queue[0] in group
    ensures Outstanding(view, Cover(r, group)) < Outstanding(view, r)
  {
    QueueHead(r.queue);
    assert r.queue[0] in Outstanding(view, r);
  }

  /** So does placing the head's group, even though the txids it detaches join the queue. */
  lemma PlacedShrinks(view: View, after: View, r: Round, group: set<Txid>, detached: seq<Txid>)
    requires r.queue != [] && r.queue[0] !in r.covered && r.queue[0] in group
    requires Upserts(view, after, group, detached)
    ensures Outstanding(after, Placed(r, group, detached)) < Outstanding(view, r)
  {
    QueueHead(r.queue);
    UpsertHeld(view, after, group, detached);
    var next := Placed(r, group, detached);
    assert r.queue[0] in Outstanding(view, r) && r.queue[0] !in Outstanding(after, next);
    forall t | t in Outstanding(after, next)
      ensures t in Outstanding(view, r)
    {
      assert t in r.queue[1..] || t in detached || t in HeldBy(after);
    }
  }

  // ----------------------------------------------------- what each branch keeps

  lemma PlacedBuffer(w: World, view: View, after: View, r: Round, group: set<Txid>, detached: seq<Txid>)
    requires BufferOk(w, view, r) && r.queue != []
    requires Upserts(view, after, group, detached)
    ensures BufferOk(w, after, Placed(r, group, detached))
  {
    UpsertHeld(view, after, group, detached);
  }

  lemma PlacedDerived(w: World, start: View, view: View, after: View, group: set<Txid>, detached: seq<Txid>)
    requires Derived(w, start, view) && w.Vouched(group)
    requires Upserts(view, after, group, detached)
    ensures Derived(w, start, after)
  {
  }

  lemma SettledIsHeld(w: World, view: View, buffer: map<Txid, NewCluster>, t: Txid)
    requires Settled(w, view, buffer, t) && t in w.pool
    ensures t in HeldBy(view) || t in buffer
  {
    ConnectedSelf(w.spends, w.pool, t);
    if HasGroup(view, Component(w.spends, w.pool, t)) {
      var id :| id in view && MembersOf(view[id].chunks) == Component(w.spends, w.pool, t);
      assert Holds(view, id, t);
      HeldIff(view, t);
    }
  }

  /** A settled component stays settled when another component is placed. */
  lemma PlacedSettled(w: World, view: View, after: View, buffer: map<Txid, NewCluster>, group: set<Txid>, t: Txid)
    requires Settled(w, view, buffer, t) && t in w.pool
    requires IsComponent(w.spends, w.pool, group) && UpsertsFully(view, after, group)
    ensures Settled(w, after, buffer - group, t)
  {
    var mine := Component(w.spends, w.pool, t);
    if mine !! group {
      ConnectedSelf(w.spends, w.pool, t);
      if HasGroup(view, mine) {
        var id :| id in view && MembersOf(view[id].chunks) == mine;
        assert id in after && MembersOf(after[id].chunks) == mine;
      }
    } else {
      var u :| u in mine && u in group;
      ComponentOfMember(w.spends, w.pool, group, u);
      SameComponent(w.spends, w.pool, t, u);
    }
  }

  lemma PlacedComplete(w: World, wanted: set<Txid>, asked: set<Txid>, excused: set<Txid>,
                       view: View, after: View, r: Round, group: set<Txid>, detached: seq<Txid>)
    requires Complete(w, wanted, asked, excused, view, r)
    requires r.queue != [] && r.queue[0] in group
    requires IsComponent(w.spends, w.pool, group)
    requires Upserts(view, after, group, detached) && UpsertsFully(view, after, group)
    ensures Complete(w, wanted, asked, excused, after, Placed(r, group, detached))
  {
    var next := Placed(r, group, detached);
    QueueHead(r.queue);
    forall t | t in next.covered && t in w.pool && t !in excused
      ensures Settled(w, after, next.buffer, t)
    {
      if t in group {
        ComponentOfMember(w.spends, w.pool, group, t);
      } else {
        PlacedSettled(w, view, after, r.buffer, group, t);
      }
    }
    forall t | t in wanted && t in w.pool && t !in excused
      ensures t in HeldBy(after) || t in next.queue || t in next.buffer
    {
      if t in next.covered {
        SettledIsHeld(w, after, next.buffer, t);
      } else if t in HeldBy(view) {
        assert t in HeldBy(after) || t in detached;
      }
    }
    UpsertHeld(view, after, group, detached);
    forall t | t in HeldBy(after) || t in next.queue || t in next.buffer
      ensures Sourced(w, wanted, t)
    {
      if t in group {
        GroupSourced(w, wanted, group, r.queue[0], t);
      }
    }
  }

  lemma SkipComplete(w: World, wanted: set<Txid>, asked: set<Txid>, excused: set<Txid>, view: View, r: Round)
    requires Complete(w, wanted, asked, excused, view, r)
    requires r.queue != [] && r.queue[0] in r.covered
    ensures Complete(w, wanted, asked, excused, view, Skip(r))
  {
    QueueHead(r.queue);
    forall t | t in wanted && t in w.pool && t !in excused
      ensures t in HeldBy(view) || t in Skip(r).queue || t in r.buffer
    {
      if t == r.queue[0] {
        SettledIsHeld(w, view, r.buffer, t);
      }
    }
  }

  lemma AbsentComplete(w: World, wanted: set<Txid>, asked: set<Txid>, excused: set<Txid>, view: View, r: Round)
    requires Complete(w, wanted, asked, excused, view, r)
    requires r.queue != [] && r.queue[0] !in w.pool
    ensures Complete(w, wanted, asked, excused, view, Cover(r, {r.queue[0]}))
  {
    QueueHead(r.queue);
  }

  lemma BufferComplete(w: World, wanted: set<Txid>, asked: set<Txid>, excused: set<Txid>,
                       view: View, r: Round, chunks: seq<Chunk>, at: int)
    requires Complete(w, wanted, asked, excused, view, r)
    requires r.queue != [] && r.queue[0] in w.pool
    requires Component(w.spends, w.pool, r.queue[0]) == {r.queue[0]}
    ensures Complete(w, wanted, asked, excused, view, Buffer(r, r.queue[0], chunks, at))
  {
    QueueHead(r.queue);
    var next := Buffer(r, r.queue[0], chunks, at);
    forall t | t in next.covered && t in w.pool && t !in excused
      ensures Settled(w, view, next.buffer, t)
    {
      if t != r.queue[0] {
        assert Settled(w, view, r.buffer, t);
      }
    }
  }

  lemma CoverBuffer(w: World, view: View, r: Round, group: set<Txid>)
    requires BufferOk(w, view, r) && r.queue != []
    ensures BufferOk(w, view, Cover(r, group)) && BufferOk(w, view, Skip(r))
  {
  }

  lemma BufferBuffer(w: World, view: View, r: Round, t: Txid, chunks: seq<Chunk>, at: int)
    requires BufferOk(w, view, r) && r.queue != []
    requires MembersOf(chunks) == {t} && w.Vouched({t}) && Holding(view, {t}) == {}
    ensures BufferOk(w, view, Buffer(r, t, chunks, at))
  {
    HeldIff(view, t);
    assert forall id :: Holds(view, id, t) ==> id in Holding(view, {t});
  }

  lemma ReplyVouched(w: World, k: nat, t: Txid)
    requires w.WellBehaved() && w.node(k, t).Found? && Txids(w.node(k, t).chunks) != []
    ensures var group := MembersOf(w.node(k, t).chunks);
            t in group && w.Vouched(group) && (w.Truthful() ==> t in w.pool && group == Component(w.spends, w.pool, t))
  {
  }

  // -------------------------------------------------------------- end of a round

  /** What the caller asked of a round: keep what it `wanted`, answer what it `asked`, except for the `excused`. */
  datatype Goal = Goal(wanted: set<Txid>, asked: set<Txid>, excused: set<Txid>)

  ghost predicate Achieved(w: World, goal: Goal, view: View) {
    && (forall t :: t in goal.wanted && t in w.pool && t !in goal.excused ==> t in HeldBy(view))
    && (forall t :: t in goal.asked && t in w.pool && t !in goal.excused ==>
        HasGroup(view, Component(w.spends, w.pool, t)))
    && (forall t :: t in HeldBy(view) ==> Sourced(w, goal.wanted, t))
  }

  /** `after` keeps every cluster of `view` and adds one for each buffered singleton. */
  ghost predicate Flushed(view: View, after: View, buffer: map<Txid, NewCluster>) {
    && (forall id :: id in view ==> id in after && after[id] == view[id])
    && (forall t :: t in buffer ==> HasGroup(after, {t}))
    && (forall t :: t in HeldBy(after) ==> t in HeldBy(view) || t in buffer)
  }

  lemma FlushedAchieves(w: World, goal: Goal, view: View, r: Round, after: View)
    requires Complete(w, goal.wanted, goal.asked, goal.excused, view, r) && r.queue == []
    requires Flushed(view, after, r.buffer)
    ensures Achieved(w, goal, after)
  {
    forall t | t in goal.wanted && t in w.pool && t !in goal.excused
      ensures t in HeldBy(after)
    {
      if t in HeldBy(view) {
        HeldIff(view, t);
        var id :| Holds(view, id, t);
        assert Holds(after, id, t);
      } else {
        var id :| id in after && MembersOf(after[id].chunks) == {t};
        assert Holds(after, id, t);
      }
      HeldIff(after, t);
    }
    forall t | t in goal.asked && t in w.pool && t !in goal.excused
      ensures HasGroup(after, Component(w.spends, w.pool, t))
    {
      assert Settled(w, view, r.buffer, t);
      if HasGroup(view, Component(w.spends, w.pool, t)) {
        var id :| id in view && MembersOf(view[id].chunks) == Component(w.spends, w.pool, t);
        assert id in after;
      }
    }
  }
}
