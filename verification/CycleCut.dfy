/**
 The cycle cut of the transaction graph layout: a queue of nodes without
 outstanding parents, and what the nodes it never reaches have in common.
 */
module CycleCut {
  import opened Common

  datatype Edge = Edge(parent: Txid, child: Txid)

  /** A walk along the edges; one node alone is a walk. */
  ghost predicate Walk(edges: seq<Edge>, p: seq<Txid>) {
    p != [] && forall i :: 0 <= i < |p| - 1 ==> Hop(edges, p, i)
  }

  ghost predicate Hop(edges: seq<Edge>, p: seq<Txid>, i: nat)
    requires i + 1 < |p|
  {
    Edge(p[i], p[i + 1]) in edges
  }

  lemma WalkSlice(edges: seq<Edge>, p: seq<Txid>, i: nat, j: nat)
    requires Walk(edges, p) && i < j <= |p|
    ensures Walk(edges, p[i..j])
  {
    forall k | 0 <= k < j - i - 1 ensures Hop(edges, p[i..j], k) {
      assert Hop(edges, p, i + k);
    }
  }

  lemma WalkExtends(edges: seq<Edge>, p: seq<Txid>, x: Txid)
    requires Walk(edges, p) && Edge(p[|p| - 1], x) in edges
    ensures Walk(edges, p + [x])
  {
    forall k | 0 <= k < |p| ensures Hop(edges, p + [x], k) {
      assert k + 1 < |p| ==> Hop(edges, p, k);
    }
  }

  ghost predicate Cycle(edges: seq<Edge>, p: seq<Txid>) {
    2 <= |p| && Walk(edges, p) && p[0] == p[|p| - 1]
  }

  /** Some cycle leads to `x`. */
  ghost predicate FromCycle(edges: seq<Edge>, x: Txid) {
    exists c, p :: LeadsTo(edges, c, p, x)
  }

  ghost predicate LeadsTo(edges: seq<Edge>, c: seq<Txid>, p: seq<Txid>, x: Txid) {
    Cycle(edges, c) && Walk(edges, p) && p[0] == c[0] && p[|p| - 1] == x
  }

  /** The edges kept when those into `cut` are dropped. */
  function Kept(edges: seq<Edge>, cut: set<Txid>): seq<Edge> {
    if edges == [] then [] else
      var rest := Kept(edges[..|edges| - 1], cut);
      var e := edges[|edges| - 1];
      if e.child in cut then rest else rest + [e]
  }

  lemma {:induction false} KeptMembers(edges: seq<Edge>, cut: set<Txid>, e: Edge)
    ensures e in Kept(edges, cut) <==> e in edges && e.child !in cut
  {
    if edges != [] {
      KeptMembers(edges[..|edges| - 1], cut, e);
    }
  }

  // ---- What the queue order guarantees -------------------------------------

  /** Whatever leads into `order[k]` stands before it. */
  ghost predicate Topological(edges: seq<Edge>, order: seq<Txid>) {
    forall e, k :: e in edges && 0 <= k < |order| && order[k] == e.child ==> e.parent in order[..k]
  }

  /** A node left out has a parent left out. */
  ghost predicate Stuck(edges: seq<Edge>, txids: seq<Txid>, order: seq<Txid>) {
    forall x :: x in txids && x !in order ==> Held(edges, txids, order, x)
  }

  ghost predicate Held(edges: seq<Edge>, txids: seq<Txid>, order: seq<Txid>, x: Txid) {
    exists y :: y in txids && y !in order && Edge(y, x) in edges
  }

  /** Along a walk that ends in the order, places strictly increase. */
  lemma {:induction false} WalkClimbs(edges: seq<Edge>, order: seq<Txid>, p: seq<Txid>, k: nat)
    requires Topological(edges, order) && Walk(edges, p) && k < |order| && order[k] == p[|p| - 1]
    ensures p[0] in order[..k + 1] && (2 <= |p| ==> p[0] in order[..k])
    decreases |p|
  {
    if 2 <= |p| {
      var before := p[..|p| - 1];
      assert Hop(edges, p, |p| - 2);
      WalkSlice(edges, p, 0, |p| - 1);
      assert p[|p| - 2] in order[..k];
      var j :| 0 <= j < k && order[j] == p[|p| - 2];
      WalkClimbs(edges, order, before, j);
      assert order[..j + 1] <= order[..k];
    } else {
      assert order[..k + 1][k] == p[0];
    }
  }

  /** No cycle meets the order: going round would have to climb for ever. */
  lemma {:induction false} NoCycleInOrder(edges: seq<Edge>, order: seq<Txid>, c: seq<Txid>, k: nat)
    requires Topological(edges, order) && Cycle(edges, c) && k <= |order|
    ensures c[0] !in order[..k]
    decreases k
  {
    if c[0] in order[..k] {
      var j :| 0 <= j < k && order[j] == c[0];
      WalkClimbs(edges, order, c, j);
      NoCycleInOrder(edges, order, c, j);
    }
  }

  /** Completeness: everything a cycle leads to is left out. */
  lemma CycleLeftOut(edges: seq<Edge>, order: seq<Txid>, x: Txid)
    requires Topological(edges, order) && FromCycle(edges, x)
    ensures x !in order
  {
    var c, p :| LeadsTo(edges, c, p, x);
    if x in order {
      var k :| 0 <= k < |order| && order[k] == x;
      WalkClimbs(edges, order, p, k);
      NoCycleInOrder(edges, order, c, k + 1);
    }
  }

  /** Every node left out ends walks of any length among nodes left out. */
  lemma {:induction false} WalkBack(edges: seq<Edge>, txids: seq<Txid>, order: seq<Txid>, x: Txid, n: nat)
    returns (p: seq<Txid>)
    requires Stuck(edges, txids, order) && x in txids && x !in order
    ensures |p| == n + 1 && Walk(edges, p) && p[n] == x
    ensures forall i :: 0 <= i < |p| ==> p[i] in txids
    decreases n
  {
    if n == 0 {
      p := [x];
    } else {
      assert Held(edges, txids, order, x);
      var y :| y in txids && y !in order && Edge(y, x) in edges;
      p := WalkBack(edges, txids, order, y, n - 1);
      WalkExtends(edges, p, x);
      p := p + [x];
    }
  }

  lemma {:induction false} SizeAtMost<T>(s: seq<T>)
    ensures |Elements(s)| <= |s|
  {
    if s != [] {
      var rest := s[..|s| - 1];
      SizeAtMost(rest);
      assert Elements(s) == Elements(rest) + {s[|s| - 1]};
    }
  }

  lemma Repeats<T(!new)>(p: seq<T>, s: seq<T>) returns (i: nat, j: nat)
    requires |s| < |p| && forall k :: 0 <= k < |p| ==> p[k] in s
    ensures i < j < |p| && p[i] == p[j]
  {
    if Distinct(p) {
      DistinctSize(p);
      SizeAtMost(s);
      SubsetSize(Elements(p), Elements(s));
      assert false;
    }
    i, j :| 0 <= i < j < |p| && p[i] == p[j];
  }

  /** Soundness: a node left out is reached from a cycle, as a long enough walk repeats itself. */
  lemma StuckFromCycle(edges: seq<Edge>, txids: seq<Txid>, order: seq<Txid>, x: Txid)
    requires Stuck(edges, txids, order) && x in txids && x !in order
    ensures FromCycle(edges, x)
  {
    var p := WalkBack(edges, txids, order, x, |txids|);
    var i, j := Repeats(p, txids);
    var c, q := p[i..j + 1], p[i..|p|];
    WalkSlice(edges, p, i, j + 1);
    WalkSlice(edges, p, i, |p|);
    assert LeadsTo(edges, c, q, x);
  }

  /** What is kept is acyclic: a cycle among kept edges would be a cycle inside the order. */
  lemma KeptAcyclic(edges: seq<Edge>, txids: seq<Txid>, order: seq<Txid>, cut: set<Txid>, c: seq<Txid>)
    requires Topological(edges, order)
    requires forall e :: e in edges ==> e.child in txids
    requires cut == set x | x in txids && x !in order
    ensures !Cycle(Kept(edges, cut), c)
  {
    if Cycle(Kept(edges, cut), c) {
      var kept := Kept(edges, cut);
      forall i | 0 <= i < |c| - 1 ensures Hop(edges, c, i) {
        assert Hop(kept, c, i);
        KeptMembers(edges, cut, Edge(c[i], c[i + 1]));
      }
      assert Hop(kept, c, |c| - 2);
      KeptMembers(edges, cut, Edge(c[|c| - 2], c[0]));
      assert order[..|order|] == order;
      NoCycleInOrder(edges, order, c, |order|);
    }
  }

  // ---- The counts the queue works with ---------------------------------------

  /** Edges into `x` from parents not yet done, with repetition. */
  function Waiting(edges: seq<Edge>, x: Txid, done: set<Txid>): nat {
    if edges == [] then 0 else
      var e := edges[|edges| - 1];
      Waiting(edges[..|edges| - 1], x, done) + if e.child == x && e.parent !in done then 1 else 0
  }

  lemma {:induction false} WaitingForNobody(edges: seq<Edge>, x: Txid, done: set<Txid>)
    ensures Waiting(edges, x, done) == 0 <==> forall e :: e in edges && e.child == x ==> e.parent in done
  {
    if edges != [] {
      var rest, e := edges[..|edges| - 1], edges[|edges| - 1];
      WaitingForNobody(rest, x, done);
      assert forall d :: d in edges <==> d in rest || d == e;
    }
  }

  /** The children of `u`, with repetition. */
  function Children(edges: seq<Edge>, u: Txid): seq<Txid> {
    if edges == [] then [] else
      var e := edges[|edges| - 1];
      var rest := Children(edges[..|edges| - 1], u);
      if e.parent == u then rest + [e.child] else rest
  }

  lemma {:induction false} ChildrenKnown(edges: seq<Edge>, u: Txid, c: Txid)
    requires c in Children(edges, u)
    ensures Edge(u, c) in edges
  {
    var e := edges[|edges| - 1];
    if !(e.parent == u && e.child == c) {
      ChildrenKnown(edges[..|edges| - 1], u, c);
    } else {
      assert e == Edge(u, c);
    }
  }

  /** Finishing `u` takes one edge off the count for each time a node is its child. */
  lemma {:induction false} DoneWith(edges: seq<Edge>, x: Txid, done: set<Txid>, u: Txid)
    requires u !in done
    ensures Waiting(edges, x, done) == Waiting(edges, x, done + {u}) + multiset(Children(edges, u))[x]
  {
    if edges != [] {
      DoneWith(edges[..|edges| - 1], x, done, u);
    }
  }

  // ---- The algorithm -----------------------------------------------------------

  ghost predicate Internal(edges: seq<Edge>, txids: seq<Txid>) {
    forall e :: e in edges ==> e.parent in txids && e.child in txids
  }

  ghost predicate Tallied(txids: seq<Txid>, edges: seq<Edge>, indeg: map<Txid, int>, childrenOf: map<Txid, seq<Txid>>) {
    && indeg.Keys == Elements(txids) == childrenOf.Keys
    && (forall x :: x in indeg ==> indeg[x] == Waiting(edges, x, {}))
    && (forall x :: x in childrenOf ==> childrenOf[x] == Children(edges, x))
  }

  lemma TallyStep(txids: seq<Txid>, edges: seq<Edge>, e: Edge, indeg: map<Txid, int>, childrenOf: map<Txid, seq<Txid>>)
    requires Tallied(txids, edges, indeg, childrenOf) && e.parent in txids && e.child in txids
    ensures Tallied(txids, edges + [e], indeg[e.child := indeg[e.child] + 1],
        childrenOf[e.parent := childrenOf[e.parent] + [e.child]])
  {
    assert (edges + [e])[..|edges|] == edges;
  }

  /** Counts parents and lists children, edge by edge. */
  method Tally(txids: seq<Txid>, edges: seq<Edge>) returns (indeg: map<Txid, int>, childrenOf: map<Txid, seq<Txid>>)
    requires Internal(edges, txids)
    ensures Tallied(txids, edges, indeg, childrenOf)
  {
    indeg := map x | x in txids :: 0;
    childrenOf := map x | x in txids :: [];
    for i := 0 to |edges|
      invariant Tallied(txids, edges[..i], indeg, childrenOf)
    {
      var e := edges[i];
      TallyStep(txids, edges[..i], e, indeg, childrenOf);
      assert edges[..i + 1] == edges[..i] + [e];
      indeg := indeg[e.child := indeg[e.child] + 1];
      childrenOf := childrenOf[e.parent := childrenOf[e.parent] + [e.child]];
    }
    assert edges[..|edges|] == edges;
  }

  lemma Rootless(edges: seq<Edge>, queue: seq<Txid>)
    requires forall x :: x in queue ==> Waiting(edges, x, {}) == 0
    ensures Topological(edges, queue)
  {
    forall e | e in edges ensures e.child !in queue {
      WaitingForNobody(edges, e.child, {});
    }
  }

  /** The nodes without parents, in the order given. */
  method Sources(txids: seq<Txid>, indeg: map<Txid, int>) returns (queue: seq<Txid>)
    requires Distinct(txids) && indeg.Keys == Elements(txids)
    ensures Distinct(queue)
    ensures forall x :: x in queue <==> x in txids && indeg[x] == 0
  {
    queue := [];
    for i := 0 to |txids|
      invariant Distinct(queue)
      invariant forall x :: x in queue <==> x in txids[..i] && indeg[x] == 0
    {
      if indeg[txids[i]] == 0 {
        queue := queue + [txids[i]];
      }
    }
    assert txids[..|txids|] == txids;
  }

  /** Between dequeues: the queue holds exactly the nodes that wait for nobody. */
  ghost predicate Level(txids: seq<Txid>, edges: seq<Edge>, indeg: map<Txid, int>, queue: seq<Txid>, done: set<Txid>) {
    && indeg.Keys == Elements(txids) && Distinct(queue)
    && (forall x :: x in indeg ==> indeg[x] == Waiting(edges, x, done))
    && (forall x :: x in queue <==> x in txids && indeg[x] == 0)
    && Topological(edges, queue)
  }

  /** The loop over one dequeued node's children. */
  method Release(txids: seq<Txid>, edges: seq<Edge>, children: seq<Txid>, u: Txid, ghost done: set<Txid>,
                 indeg0: map<Txid, int>, queue0: seq<Txid>) returns (indeg: map<Txid, int>, queue: seq<Txid>)
    requires Internal(edges, txids) && Level(txids, edges, indeg0, queue0, done)
    requires u in queue0 && u !in done && done <= Elements(queue0) && children == Children(edges, u)
    ensures Level(txids, edges, indeg, queue, done + {u}) && queue0 <= queue
  {
    indeg, queue := indeg0, queue0;
    assert Draining(txids, edges, indeg, queue, done, []);
    assert children[..0] == [];
    for i := 0 to |children|
      invariant queue0 <= queue && Draining(txids, edges, indeg, queue, done, children[..i])
    {
      var c := children[i];
      ChildrenKnown(edges, u, c);
      Outstanding(children, i);
      DoneWith(edges, c, done, u);
      DrainStep(txids, edges, indeg, queue, done, children[..i], u, c);
      var d := indeg[c] - 1;
      indeg := indeg[c := d];
      if d == 0 {
        queue := queue + [c];
      }
    }
    assert children[..|children|] == children;
    DrainEnd(txids, edges, indeg, queue, done, u);
  }

  lemma DrainEnd(txids: seq<Txid>, edges: seq<Edge>, indeg: map<Txid, int>, queue: seq<Txid>, done: set<Txid>, u: Txid)
    requires Draining(txids, edges, indeg, queue, done, Children(edges, u)) && u !in done
    ensures Level(txids, edges, indeg, queue, done + {u})
  {
    forall x | x in indeg ensures indeg[x] == Waiting(edges, x, done + {u}) {
      DoneWith(edges, x, done, u);
    }
  }

  /** Part-way through a node's children: those `seen` have been counted off. */
  ghost predicate Draining(txids: seq<Txid>, edges: seq<Edge>, indeg: map<Txid, int>, queue: seq<Txid>,
                           done: set<Txid>, seen: seq<Txid>) {
    && indeg.Keys == Elements(txids) && Distinct(queue)
    && (forall x :: x in indeg ==> indeg[x] == Waiting(edges, x, done) - multiset(seen)[x])
    && (forall x :: x in queue <==> x in txids && indeg[x] == 0)
    && Topological(edges, queue)
  }

  lemma DrainStep(txids: seq<Txid>, edges: seq<Edge>, indeg: map<Txid, int>, queue: seq<Txid>, done: set<Txid>,
                  seen: seq<Txid>, u: Txid, c: Txid)
    requires Draining(txids, edges, indeg, queue, done, seen) && c in txids
    requires u in queue && done <= Elements(queue)
    requires multiset(seen)[c] + 1 + Waiting(edges, c, done + {u}) <= Waiting(edges, c, done)
    ensures indeg[c] >= 1
    ensures Draining(txids, edges, indeg[c := indeg[c] - 1], if indeg[c] == 1 then queue + [c] else queue, done,
        seen + [c])
  {
    if indeg[c] == 1 {
      Enqueued(edges, queue, c, done + {u});
    }
  }

  lemma Outstanding(s: seq<Txid>, i: nat)
    requires i < |s|
    ensures multiset(s[..i])[s[i]] + 1 <= multiset(s)[s[i]]
    ensures s[..i + 1] == s[..i] + [s[i]]
  {
    assert s == s[..i] + [s[i]] + s[i + 1..];
  }

  /** A node whose parents are all queued may follow them. */
  lemma Enqueued(edges: seq<Edge>, queue: seq<Txid>, c: Txid, done: set<Txid>)
    requires Topological(edges, queue) && Waiting(edges, c, done) == 0 && done <= Elements(queue)
    ensures Topological(edges, queue + [c])
  {
    var next := queue + [c];
    WaitingForNobody(edges, c, done);
    forall e, k | e in edges && 0 <= k < |next| && next[k] == e.child ensures e.parent in next[..k] {
      if k < |queue| {
        assert next[..k] == queue[..k];
      } else {
        assert next[..k] == queue;
        assert e.parent in Elements(queue);
      }
    }
  }

  /**
   Kahn's algorithm. A node is reported exactly when some cycle leads to it, and
   the dequeue order puts every parent of an unreported node before it.
   */
  method FindCyclicTargets(txids: seq<Txid>, edges: seq<Edge>) returns (cyclic: set<Txid>, ghost order: seq<Txid>)
    requires Distinct(txids) && Internal(edges, txids)
    ensures forall x :: x in cyclic <==> x in txids && FromCycle(edges, x)
    ensures Distinct(order) && Elements(order) == Elements(txids) - cyclic
    ensures Topological(edges, order)
    ensures forall c :: !Cycle(Kept(edges, cyclic), c)
  {
    var indeg, childrenOf := Tally(txids, edges);
    var queue := Sources(txids, indeg);
    var finalized: set<Txid> := {};
    assert Topological(edges, queue) by {
      forall x | x in queue ensures Waiting(edges, x, {}) == 0 {
      }
      Rootless(edges, queue);
    }
    var qi := 0;
    while qi < |queue|
      invariant 0 <= qi <= |queue| && finalized == Elements(queue[..qi])
      invariant Level(txids, edges, indeg, queue, finalized)
      decreases |txids| - qi
    {
      QueueFits(queue, txids);
      var u := queue[qi];
      Ahead(queue, qi);
      ghost var before := queue;
      indeg, queue := Release(txids, edges, childrenOf[u], u, finalized, indeg, queue);
      assert queue[..qi + 1] == before[..qi] + [u];
      qi := qi + 1;
      finalized := finalized + {u};
    }
    order := queue;
    assert queue[..qi] == queue;
    cyclic := set x | x in txids && x !in finalized;
    Verdict(txids, edges, indeg, order, finalized, cyclic);
  }

  lemma QueueFits(queue: seq<Txid>, txids: seq<Txid>)
    requires Distinct(queue) && forall x :: x in queue ==> x in txids
    ensures |queue| <= |txids|
  {
    DistinctSize(queue);
    SizeAtMost(txids);
    SubsetSize(Elements(queue), Elements(txids));
  }

  lemma Ahead(queue: seq<Txid>, qi: nat)
    requires Distinct(queue) && qi < |queue|
    ensures queue[qi] !in Elements(queue[..qi]) && Elements(queue[..qi]) <= Elements(queue)
  {
  }

  lemma Verdict(txids: seq<Txid>, edges: seq<Edge>, indeg: map<Txid, int>, order: seq<Txid>, done: set<Txid>,
      cyclic: set<Txid>)
    requires Internal(edges, txids) && Level(txids, edges, indeg, order, done) && done == Elements(order)
    requires cyclic == set x | x in txids && x !in done
    ensures forall x :: x in cyclic <==> x in txids && FromCycle(edges, x)
    ensures Elements(order) == Elements(txids) - cyclic
    ensures forall c :: !Cycle(Kept(edges, cyclic), c)
  {
    assert Stuck(edges, txids, order) by {
      forall x | x in txids && x !in order ensures Held(edges, txids, order, x) {
        WaitingForNobody(edges, x, done);
        var e :| e in edges && e.child == x && e.parent !in done;
        assert e == Edge(e.parent, x);
      }
    }
    forall x | x in txids ensures x in cyclic <==> FromCycle(edges, x) {
      if x in cyclic {
        StuckFromCycle(edges, txids, order, x);
      } else if FromCycle(edges, x) {
        CycleLeftOut(edges, order, x);
      }
    }
    forall c ensures !Cycle(Kept(edges, cyclic), c) {
      KeptAcyclic(edges, txids, order, cyclic, c);
    }
  }

  /** The parents of `x` along the edges, in edge order. */
  function Parents(edges: seq<Edge>, x: Txid): seq<Txid> {
    if edges == [] then [] else
      var e := edges[|edges| - 1];
      var rest := Parents(edges[..|edges| - 1], x);
      if e.child == x then rest + [e.parent] else rest
  }

  lemma {:induction false} ParentsAreEdges(edges: seq<Edge>, x: Txid, y: Txid)
    ensures y in Parents(edges, x) <==> Edge(y, x) in edges
  {
    if edges != [] {
      var rest, e := edges[..|edges| - 1], edges[|edges| - 1];
      ParentsAreEdges(rest, x, y);
      assert edges == rest + [e];
      assert Parents(edges, x) == if e.child == x then Parents(rest, x) + [e.parent] else Parents(rest, x);
    }
  }

  /** A walk up the parent lists, from a node to one of its parents and on. */
  ghost predicate Ascent(parentsOf: map<Txid, seq<Txid>>, p: seq<Txid>) {
    forall i :: 0 <= i < |p| - 1 ==> AscentStep(parentsOf, p, i)
  }

  ghost predicate AscentStep(parentsOf: map<Txid, seq<Txid>>, p: seq<Txid>, i: nat)
    requires i + 1 < |p|
  {
    p[i + 1] in parentsOf && p[i] in parentsOf[p[i + 1]]
  }

  /** The parent lists handed to the layout: every edge into an unreported node, and no cycle. */
  method ParentLists(txids: seq<Txid>, edges: seq<Edge>) returns (parentsOf: map<Txid, seq<Txid>>)
    requires Distinct(txids) && Internal(edges, txids)
    ensures parentsOf.Keys == Elements(txids)
    ensures forall x, y :: x in parentsOf ==> (y in parentsOf[x] <==> Edge(y, x) in edges && !FromCycle(edges, x))
    ensures forall p :: 2 <= |p| && Ascent(parentsOf, p) ==> p[0] != p[|p| - 1]
  {
    var cyclic, order := FindCyclicTargets(txids, edges);
    parentsOf := map x | x in txids :: [];
    for i := 0 to |edges|
      invariant parentsOf.Keys == Elements(txids)
      invariant forall x :: x in parentsOf ==> parentsOf[x] == Parents(Kept(edges[..i], cyclic), x)
    {
      var e := edges[i];
      KeptStep(edges[..i], e, cyclic);
      assert edges[..i + 1] == edges[..i] + [e];
      if e.child !in cyclic {
        parentsOf := parentsOf[e.child := parentsOf[e.child] + [e.parent]];
      }
    }
    assert edges[..|edges|] == edges;
    ListsAcyclic(parentsOf, edges, cyclic);
  }

  lemma KeptStep(edges: seq<Edge>, e: Edge, cut: set<Txid>)
    ensures var next := Kept(edges + [e], cut);
            forall x :: Parents(next, x) ==
              Parents(Kept(edges, cut), x) + if e.child == x && e.child !in cut then [e.parent] else []
  {
    assert (edges + [e])[..|edges|] == edges;
    var kept := Kept(edges, cut);
    assert (kept + [e])[..|kept|] == kept;
  }

  lemma ListsAcyclic(parentsOf: map<Txid, seq<Txid>>, edges: seq<Edge>, cut: set<Txid>)
    requires forall x :: x in parentsOf ==> parentsOf[x] == Parents(Kept(edges, cut), x)
    requires forall c :: !Cycle(Kept(edges, cut), c)
    requires forall x :: x in parentsOf ==> (x in cut <==> FromCycle(edges, x))
    ensures forall x, y :: x in parentsOf ==> (y in parentsOf[x] <==> Edge(y, x) in edges && !FromCycle(edges, x))
    ensures forall p :: 2 <= |p| && Ascent(parentsOf, p) ==> p[0] != p[|p| - 1]
  {
    var kept := Kept(edges, cut);
    forall x, y | x in parentsOf ensures y in parentsOf[x] <==> Edge(y, x) in edges && !FromCycle(edges, x) {
      ParentsAreEdges(kept, x, y);
      KeptMembers(edges, cut, Edge(y, x));
    }
    forall p | 2 <= |p| && Ascent(parentsOf, p) ensures p[0] != p[|p| - 1] {
      forall i | 0 <= i < |p| - 1 ensures Hop(kept, p, i) {
        assert AscentStep(parentsOf, p, i);
        ParentsAreEdges(kept, p[i + 1], p[i]);
      }
      assert !Cycle(kept, p);
    }
  }
}
