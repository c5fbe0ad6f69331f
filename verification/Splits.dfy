/**
 Splits of a sorted sequence into contiguous runs, what they cost, and what an
 optimal split into as many runs as there are distinct values cannot do.
 */
module Splits {
  import opened Common
  import opened Deviation

  ghost predicate Rising(b: seq<nat>) {
    forall i, j :: 0 <= i < j < |b| ==> b[i] < b[j]
  }

  /** `b` lists the boundaries of a split of the first `n` places: run `k` is `[b[k], b[k + 1])`. */
  ghost predicate Split(b: seq<nat>, n: nat) {
    2 <= |b| && Rising(b) && b[0] == 0 && b[|b| - 1] == n
  }

  function Runs(b: seq<nat>): int {
    |b| - 1
  }

  ghost predicate Fits(v: seq<real>, b: seq<nat>) {
    Rising(b) && (b != [] ==> b[|b| - 1] <= |v|)
  }

  /** Total within-run squared deviation. */
  ghost function Cost(v: seq<real>, b: seq<nat>): real
    requires Fits(v, b)
    decreases |b|
  {
    if |b| <= 1 then 0.0 else
      var k := |b| - 1;
      Cost(v, b[..k]) + Ssd(v, b[k - 1], b[k])
  }

  ghost function Values(v: seq<real>): set<real> {
    set k | 0 <= k < |v| :: v[k]
  }

  lemma CostSnoc(v: seq<real>, b: seq<nat>, p: nat)
    requires Fits(v, b) && b != [] && b[|b| - 1] < p <= |v|
    ensures Fits(v, b + [p]) && Cost(v, b + [p]) == Cost(v, b) + Ssd(v, b[|b| - 1], p)
  {
    var z, n := b + [p], |b|;
    RisingJoined(b, [p]);
    assert z[..n] == b && z[n] == p && z[n - 1] == b[n - 1] && |z| == n + 1;
    assert Fits(v, z) && Cost(v, z) == Cost(v, z[..n]) + Ssd(v, z[n - 1], z[n]);
  }

  lemma LastOff(v: seq<real>, x: seq<nat>, y: seq<nat>, rest: seq<nat>, p: nat)
    requires Fits(v, y) && 2 <= |y| && rest == y[..|y| - 1] && p == y[|y| - 1]
    ensures Fits(v, rest) && rest[|rest| - 1] < p <= |v| && rest[0] == y[0]
    ensures y == rest + [p] && x + y == x + rest + [p] && (x + rest)[|x + rest| - 1] == rest[|rest| - 1]
  {
  }

  /** Two lists of boundaries, joined by the run between them. */
  lemma {:induction false} CostJoined(v: seq<real>, x: seq<nat>, y: seq<nat>)
    requires Fits(v, x) && Fits(v, y) && x != [] && y != [] && x[|x| - 1] < y[0]
    ensures Fits(v, x + y)
    ensures Cost(v, x + y) == Cost(v, x) + Ssd(v, x[|x| - 1], y[0]) + Cost(v, y)
    decreases |y|
  {
    var k := |y| - 1;
    if k == 0 {
      assert y == [y[0]];
      CostSnoc(v, x, y[0]);
    } else {
      var rest, p := y[..k], y[k];
      LastOff(v, x, y, rest, p);
      CostJoined(v, x, rest);
      CostSnoc(v, rest, p);
      CostSnoc(v, x + rest, p);
    }
  }

  lemma {:induction false} RisingJoined(x: seq<nat>, y: seq<nat>)
    requires Rising(x) && Rising(y) && x != [] && y != [] && x[|x| - 1] < y[0]
    ensures Rising(x + y)
  {
    var z := x + y;
    forall i, j | 0 <= i < j < |z| ensures z[i] < z[j] {
      assert i < |x| ==> z[i] <= x[|x| - 1];
      assert j >= |x| ==> y[0] <= z[j];
    }
  }

  /** The boundaries before and after place `k` of a split, when both sides keep one. */
  ghost predicate Sides(v: seq<real>, n: nat, x: seq<nat>, lo: nat, hi: nat, y: seq<nat>) {
    && Fits(v, x) && Fits(v, y) && x != [] && y != []
    && x[0] == 0 && x[|x| - 1] == lo && lo < hi && hi == y[0] && y[|y| - 1] == n
  }

  lemma SidesOf(v: seq<real>, b: seq<nat>, i: nat, j: nat, n: nat) returns (x: seq<nat>, y: seq<nat>)
    requires Split(b, n) && n <= |v| && 0 < i <= j < |b|
    ensures x == b[..i] && y == b[j..] && Sides(v, n, x, b[i - 1], b[j], y)
  {
    x, y := b[..i], b[j..];
  }

  lemma Closed(v: seq<real>, n: nat, x: seq<nat>, lo: nat, hi: nat, y: seq<nat>)
    requires Sides(v, n, x, lo, hi, y)
    ensures Split(x + y, n) && Fits(v, x + y)
    ensures Cost(v, x + y) == Cost(v, x) + Ssd(v, lo, hi) + Cost(v, y)
  {
    CostJoined(v, x, y);
  }

  lemma Around(v: seq<real>, n: nat, x: seq<nat>, lo: nat, p: nat, hi: nat, y: seq<nat>)
    requires Sides(v, n, x, lo, hi, y) && lo < p < hi
    ensures Split(x + [p] + y, n) && Fits(v, x + [p] + y)
    ensures Cost(v, x + [p] + y) == Cost(v, x) + Ssd(v, lo, p) + Ssd(v, p, hi) + Cost(v, y)
  {
    CostJoined(v, x, [p]);
    assert Sides(v, n, x + [p], p, hi, y);
    Closed(v, n, x + [p], p, hi, y);
  }

  lemma CutCost(v: seq<real>, b: seq<nat>, k: nat, p: nat, n: nat) returns (c: seq<nat>)
    requires Split(b, n) && n <= |v| && k + 1 < |b| && b[k] < p < b[k + 1]
    ensures Split(c, n) && Runs(c) == Runs(b) + 1
    ensures Cost(v, c) == Cost(v, b) - Ssd(v, b[k], b[k + 1]) + Ssd(v, b[k], p) + Ssd(v, p, b[k + 1])
  {
    var x, y := SidesOf(v, b, k + 1, k + 1, n);
    assert b == x + y;
    Closed(v, n, x, b[k], b[k + 1], y);
    Around(v, n, x, b[k], p, b[k + 1], y);
    c := x + [p] + y;
  }

  lemma MoveCost(v: seq<real>, b: seq<nat>, k: nat, p: nat, n: nat) returns (c: seq<nat>)
    requires Split(b, n) && n <= |v| && 0 < k < |b| - 1 && b[k - 1] < p < b[k + 1]
    ensures Split(c, n) && Runs(c) == Runs(b)
    ensures Cost(v, c) - Ssd(v, b[k - 1], p) - Ssd(v, p, b[k + 1])
         == Cost(v, b) - Ssd(v, b[k - 1], b[k]) - Ssd(v, b[k], b[k + 1])
  {
    var x, y := SidesOf(v, b, k, k + 1, n);
    assert b == x + [b[k]] + y;
    Around(v, n, x, b[k - 1], b[k], b[k + 1], y);
    Around(v, n, x, b[k - 1], p, b[k + 1], y);
    c := x + [p] + y;
  }

  lemma MergeCost(v: seq<real>, b: seq<nat>, k: nat, n: nat) returns (c: seq<nat>)
    requires Split(b, n) && n <= |v| && 0 < k < |b| - 1
    ensures Split(c, n) && Runs(c) == Runs(b) - 1
    ensures Cost(v, c)
         == Cost(v, b) - Ssd(v, b[k - 1], b[k]) - Ssd(v, b[k], b[k + 1]) + Ssd(v, b[k - 1], b[k + 1])
  {
    var x, y := SidesOf(v, b, k, k + 1, n);
    assert b == x + [b[k]] + y;
    Around(v, n, x, b[k - 1], b[k], b[k + 1], y);
    Closed(v, n, x, b[k - 1], b[k + 1], y);
    c := x + y;
  }

  // ---- Fewer runs than values ---------------------------------------------

  ghost predicate Constant(v: seq<real>, b: seq<nat>, k: nat)
    requires k + 1 < |b| && b[k] < b[k + 1] <= |v|
  {
    v[b[k]] == v[b[k + 1] - 1]
  }

  /** Runs that are all constant show at most one value each. */
  lemma {:induction false} OneValueEach(v: seq<real>, b: seq<nat>, k: nat)
    requires Ascending(v) && Split(b, |v|) && k < |b|
    requires forall i :: 0 <= i < |b| - 1 ==> Constant(v, b, i)
    ensures b[k] <= |v| && |Values(v[..b[k]])| <= k
  {
    if k == 0 {
      assert Values(v[..b[0]]) == {};
    } else {
      OneValueEach(v, b, k - 1);
      assert Constant(v, b, k - 1);
      var before, after := v[..b[k - 1]], v[..b[k]];
      var x := v[b[k - 1]];
      forall y | y in Values(after) ensures y in Values(before) + {x} {
        var i :| 0 <= i < |after| && after[i] == y;
        if i < b[k - 1] {
          assert before[i] == y;
        }
      }
      SubsetSize(Values(after), Values(before) + {x});
    }
  }

  /** A run that is not constant has a step inside. */
  lemma {:induction false} StepInside(v: seq<real>, i: nat, j: nat) returns (p: nat)
    requires Ascending(v) && i < j <= |v| && v[i] != v[j - 1]
    ensures i < p < j && v[p - 1] < v[p]
    decreases j - i
  {
    if v[i] < v[i + 1] {
      p := i + 1;
    } else {
      assert v[i] == v[i + 1];
      p := StepInside(v, i + 1, j);
    }
  }

  /** A split with fewer runs than values can be refined, at a strict gain. */
  lemma Refine(v: seq<real>, b: seq<nat>) returns (c: seq<nat>)
    requires Ascending(v) && Split(b, |v|) && Runs(b) < |Values(v)|
    ensures Split(c, |v|) && Runs(c) == Runs(b) + 1 && Cost(v, c) < Cost(v, b)
  {
    assert v[..|v|] == v;
    if forall i :: 0 <= i < |b| - 1 ==> Constant(v, b, i) {
      OneValueEach(v, b, |b| - 1);
      assert false;
    }
    var k :| 0 <= k < |b| - 1 && !Constant(v, b, k);
    var p := StepInside(v, b[k], b[k + 1]);
    c := CutCost(v, b, k, p, |v|);
    SplitPays(v, b[k], p, b[k + 1]);
  }

  lemma {:induction false} RefineTo(v: seq<real>, b: seq<nat>, runs: nat) returns (c: seq<nat>)
    requires Ascending(v) && Split(b, |v|) && Runs(b) <= runs <= |Values(v)|
    ensures Split(c, |v|) && Runs(c) == runs && Cost(v, c) <= Cost(v, b)
    ensures Runs(b) < runs ==> Cost(v, c) < Cost(v, b)
    decreases runs - Runs(b)
  {
    if Runs(b) == runs {
      c := b;
    } else {
      c := Refine(v, b);
      c := RefineTo(v, c, runs);
    }
  }

  // ---- What an optimal split cannot do --------------------------------------

  /** No split into as many runs is cheaper. */
  ghost predicate Optimal(v: seq<real>, b: seq<nat>) {
    && Split(b, |v|)
    && forall c :: Split(c, |v|) && Runs(c) == Runs(b) ==> Cost(v, b) <= Cost(v, c)
  }

  /** Where equal values meet across a boundary of an optimal split, both runs average that value. */
  lemma BothAverage(v: seq<real>, b: seq<nat>, k: nat)
    requires Ascending(v) && Optimal(v, b) && 0 < k < |b| - 1
    requires v[b[k] - 1] == v[b[k]]
    ensures Mean(v, b[k - 1], b[k]) == v[b[k]] == Mean(v, b[k], b[k + 1])
  {
    var a, p, c := b[k - 1], b[k], b[k + 1];
    var x, left, right := v[p], Mean(v, a, p), Mean(v, p, c);
    if a + 1 == p {
      MeanWithin(v, a, p);
    } else {
      MoveLeft(v, a, p, c, left, right);
      var _ := MoveCost(v, b, k, p - 1, |v|);
    }
    if p + 1 == c {
      MeanWithin(v, p, c);
    } else {
      MoveRight(v, a, p, c, left, right);
      var _ := MoveCost(v, b, k, p + 1, |v|);
    }
    SquareSign(x - left);
    SquareSign(x - right);
  }

  lemma SquareSign(x: real)
    ensures Square(x) >= 0.0 && (x == 0.0 ==> Square(x) == 0.0)
  {
    Positive(1.0, x, Square(x));
  }

  /** An optimal split never separates equal values, given a value for every run. */
  lemma NoStraddle(v: seq<real>, b: seq<nat>, k: nat)
    requires Ascending(v) && Optimal(v, b) && Runs(b) <= |Values(v)| && 0 < k < |b| - 1
    ensures v[b[k] - 1] < v[b[k]]
  {
    if v[b[k] - 1] == v[b[k]] {
      BothAverage(v, b, k);
      MeanWithin(v, b[k - 1], b[k]);
      MeanWithin(v, b[k], b[k + 1]);
      ConstantRun(v, b[k - 1], b[k]);
      ConstantRun(v, b[k], b[k + 1]);
      ConstantRun(v, b[k - 1], b[k + 1]);
      var c := MergeCost(v, b, k, |v|);
      c := Refine(v, c);
      assert false;
    }
  }
}
