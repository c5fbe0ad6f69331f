/**
 The mempool's spend graph: transactions linked when one spends the other. A
 cluster is a connected component of the transactions currently resident.
 */
module SpendGraph {
  import opened Common

  type Spends = set<(Txid, Txid)>

  predicate Linked(spends: Spends, a: Txid, b: Txid) {
    (a, b) in spends || (b, a) in spends
  }

  ghost predicate IsPath(spends: Spends, pool: set<Txid>, p: seq<Txid>) {
    && p != []
    && (forall i :: 0 <= i < |p| ==> p[i] in pool)
    && (forall i :: 0 < i < |p| ==> Linked(spends, p[i - 1], p[i]))
  }

  ghost predicate PathBetween(spends: Spends, pool: set<Txid>, p: seq<Txid>, a: Txid, b: Txid) {
    IsPath(spends, pool, p) && p[0] == a && p[|p| - 1] == b
  }

  ghost predicate Connected(spends: Spends, pool: set<Txid>, a: Txid, b: Txid) {
    exists p :: PathBetween(spends, pool, p, a, b)
  }

  ghost function Component(spends: Spends, pool: set<Txid>, t: Txid): set<Txid> {
    set u | u in pool && Connected(spends, pool, t, u)
  }

  ghost predicate IsComponent(spends: Spends, pool: set<Txid>, group: set<Txid>) {
    exists t :: t in pool && group == Component(spends, pool, t)
  }

  lemma ConnectedSelf(spends: Spends, pool: set<Txid>, t: Txid)
    requires t in pool
    ensures Connected(spends, pool, t, t)
    ensures t in Component(spends, pool, t)
  {
    assert PathBetween(spends, pool, [t], t, t);
  }

  function Reversed(p: seq<Txid>): (r: seq<Txid>)
    ensures |r| == |p| && forall i :: 0 <= i < |p| ==> r[i] == p[|p| - 1 - i]
  {
    seq(|p|, i requires 0 <= i < |p| => p[|p| - 1 - i])
  }

  lemma ConnectedBack(spends: Spends, pool: set<Txid>, a: Txid, b: Txid)
    requires Connected(spends, pool, a, b)
    ensures Connected(spends, pool, b, a)
  {
    var p :| PathBetween(spends, pool, p, a, b);
    var r := Reversed(p);
    forall i | 0 < i < |r|
      ensures Linked(spends, r[i - 1], r[i])
    {
      assert Linked(spends, p[|p| - 1 - i], p[|p| - i]);
    }
    assert PathBetween(spends, pool, r, b, a);
  }

  lemma ConnectedThrough(spends: Spends, pool: set<Txid>, a: Txid, b: Txid, c: Txid)
    requires Connected(spends, pool, a, b) && Connected(spends, pool, b, c)
    ensures Connected(spends, pool, a, c)
  {
    var p :| PathBetween(spends, pool, p, a, b);
    var q :| PathBetween(spends, pool, q, b, c);
    var r := p + q[1..];
    forall i | 0 < i < |r|
      ensures Linked(spends, r[i - 1], r[i])
    {
      if i >= |p| {
        assert Linked(spends, q[i - |p|], q[i - |p| + 1]);
        assert r[i - 1] == q[i - |p|] && r[i] == q[i - |p| + 1];
      }
    }
    assert PathBetween(spends, pool, r, a, c);
  }

  /** Members of one component have that same component. */
  lemma SameComponent(spends: Spends, pool: set<Txid>, t: Txid, u: Txid)
    requires u in Component(spends, pool, t)
    ensures Component(spends, pool, u) == Component(spends, pool, t)
  {
    ConnectedBack(spends, pool, t, u);
    forall x | x in pool
      ensures Connected(spends, pool, u, x) <==> Connected(spends, pool, t, x)
    {
      if Connected(spends, pool, u, x) {
        ConnectedThrough(spends, pool, t, u, x);
      }
      if Connected(spends, pool, t, x) {
        ConnectedThrough(spends, pool, u, t, x);
      }
    }
  }

  lemma ComponentOfMember(spends: Spends, pool: set<Txid>, group: set<Txid>, t: Txid)
    requires IsComponent(spends, pool, group) && t in group
    ensures t in pool && group == Component(spends, pool, t)
  {
    var s :| s in pool && group == Component(spends, pool, s);
    SameComponent(spends, pool, s, t);
  }

  lemma PrefixConnected(spends: Spends, pool: set<Txid>, p: seq<Txid>, a: Txid, b: Txid, i: int)
    requires PathBetween(spends, pool, p, a, b) && 0 <= i < |p|
    ensures Connected(spends, pool, a, p[i])
  {
    assert PathBetween(spends, pool, p[..i + 1], a, p[i]);
  }

  /** A component that survives whole stays connected, so it lies inside one component of the new pool. */
  lemma SurvivorsStayTogether(spends: Spends, was: set<Txid>, pool: set<Txid>, group: set<Txid>, t: Txid)
    requires IsComponent(spends, was, group) && t in group && group <= pool
    ensures group <= Component(spends, pool, t)
  {
    ComponentOfMember(spends, was, group, t);
    forall u | u in group
      ensures Connected(spends, pool, t, u)
    {
      var p :| PathBetween(spends, was, p, t, u);
      forall i | 0 <= i < |p|
        ensures p[i] in pool
      {
        PrefixConnected(spends, was, p, t, u, i);
        assert p[i] in group;
      }
      assert PathBetween(spends, pool, p, t, u);
    }
  }

  /** What joins an intact old component from outside was not there before. */
  lemma NewcomerJoins(spends: Spends, was: set<Txid>, pool: set<Txid>, group: set<Txid>, t: Txid) returns (x: Txid)
    requires IsComponent(spends, was, group) && t in group && group <= pool
    requires Component(spends, pool, t) != group
    ensures x in Component(spends, pool, t) && x !in was
  {
    SurvivorsStayTogether(spends, was, pool, group, t);
    ComponentOfMember(spends, was, group, t);
    var u :| u in Component(spends, pool, t) && u !in group;
    var p :| PathBetween(spends, pool, p, t, u);
    var i := 0;
    while p[i] in group
      invariant 0 <= i < |p|
      invariant forall j :: 0 <= j < i ==> p[j] in group
      decreases |p| - i
    {
      i := i + 1;
    }
    x := p[i];
    PrefixConnected(spends, pool, p, t, u, i);
    if x in was {
      var edge := p[i - 1];
      assert Linked(spends, edge, x);
      assert PathBetween(spends, was, [edge, x], edge, x);
      ConnectedThrough(spends, was, t, edge, x);
    }
  }
}
