/**
 Squared deviation of runs of a sorted sequence, over exact reals: what splitting
 a run, merging two, or moving a boundary does to it.
 */
module Deviation {

  function Square(x: real): real {
    x * x
  }

  function Sum(v: seq<real>, i: nat, j: nat): real
    requires i <= j <= |v|
    decreases j - i
  {
    if i == j then 0.0 else v[i] + Sum(v, i + 1, j)
  }

  function Squares(v: seq<real>, i: nat, j: nat): real
    requires i <= j <= |v|
    decreases j - i
  {
    if i == j then 0.0 else Square(v[i]) + Squares(v, i + 1, j)
  }

  function Count(i: nat, j: nat): real
    requires i <= j
  {
    (j - i) as real
  }

  function Mean(v: seq<real>, i: nat, j: nat): real
    requires i < j <= |v|
  {
    Sum(v, i, j) / Count(i, j)
  }

  /** Within-class squared deviation, in the form the table computes it. */
  function Ssd(v: seq<real>, i: nat, j: nat): real
    requires i < j <= |v|
  {
    Vertex(Squares(v, i, j), Count(i, j), Sum(v, i, j))
  }

  /** What `n` values with sum `s` and square sum `q` deviate from their mean. */
  function Vertex(q: real, n: real, s: real): real
    requires n != 0.0
  {
    q - s * s / n
  }

  /** What they deviate from `c`. */
  function Parabola(q: real, n: real, s: real, c: real): real {
    q - 2.0 * c * s + n * c * c
  }

  /** Sum of squared distances from any centre `c`. */
  function From(v: seq<real>, i: nat, j: nat, c: real): real
    requires i <= j <= |v|
    decreases j - i
  {
    if i == j then 0.0 else Square(v[i] - c) + From(v, i + 1, j, c)
  }

  predicate Ascending(v: seq<real>) {
    forall i, j :: 0 <= i < j < |v| ==> v[i] <= v[j]
  }

  lemma {:induction false} SumSplits(v: seq<real>, i: nat, p: nat, j: nat)
    requires i <= p <= j <= |v|
    ensures Sum(v, i, j) == Sum(v, i, p) + Sum(v, p, j)
    decreases p - i
  {
    if i < p {
      SumSplits(v, i + 1, p, j);
    }
  }

  lemma {:induction false} FromSplits(v: seq<real>, i: nat, p: nat, j: nat, c: real)
    requires i <= p <= j <= |v|
    ensures From(v, i, j, c) == From(v, i, p, c) + From(v, p, j, c)
    decreases p - i
  {
    if i < p {
      FromSplits(v, i + 1, p, j, c);
    }
  }

  lemma {:induction false} FromExpands(v: seq<real>, i: nat, j: nat, c: real)
    requires i <= j <= |v|
    ensures From(v, i, j, c) == Parabola(Squares(v, i, j), Count(i, j), Sum(v, i, j), c)
    decreases j - i
  {
    if i < j {
      FromExpands(v, i + 1, j, c);
      assert Count(i, j) == Count(i + 1, j) + 1.0;
      ParabolaStep(Squares(v, i + 1, j), Count(i + 1, j), Sum(v, i + 1, j), v[i], c);
    }
  }

  lemma ParabolaStep(q: real, n: real, s: real, x: real, c: real)
    ensures Parabola(Square(x) + q, n + 1.0, x + s, c) == Square(x - c) + Parabola(q, n, s, c)
  {
    assert (x - c) * (x - c) == x * x - 2.0 * c * x + c * c;
    assert 2.0 * c * (x + s) == 2.0 * c * x + 2.0 * c * s;
    assert (n + 1.0) * c * c == n * c * c + c * c;
  }

  lemma SquareOfDifference(n: real, s: real, c: real)
    requires n > 0.0
    ensures n * c * c - 2.0 * c * s + s * s / n == n * (c - s / n) * (c - s / n)
  {
    var m := s / n;
    assert s == m * n;
    assert s * s / n == m * m * n by {
      assert s * s == (m * m * n) * n;
    }
    assert n * (c - m) * (c - m) == n * c * c - 2.0 * c * (m * n) + m * m * n;
  }

  /** A quadratic exceeds its least value by `e`, a multiple of a square. */
  lemma Gap(q: real, n: real, s: real, c: real, f: real, least: real, m: real)
    requires n > 0.0 && m == s / n && least == Vertex(q, n, s)
    requires f == Parabola(q, n, s, c)
    ensures f >= least
    ensures c != m ==> f > least
    ensures c == m ==> f == least
  {
    SquareOfDifference(n, s, c);
    var e := n * (c - m) * (c - m);
    assert f - least == e;
    Positive(n, c - m, e);
  }

  lemma Product(a: real, b: real) returns (p: real)
    requires a > 0.0 && b > 0.0
    ensures p == a * b && p > 0.0
  {
    p := a * b;
  }

  lemma NoLess(a: real, b: real) returns (p: real)
    requires a >= 0.0 && b >= 0.0
    ensures p == a * b && p >= 0.0
  {
    p := a * b;
    if a > 0.0 && b > 0.0 {
      p := Product(a, b);
    }
  }

  lemma Positive(n: real, d: real, e: real)
    requires n > 0.0 && e == n * d * d
    ensures e >= 0.0
    ensures d != 0.0 ==> e > 0.0
    ensures d == 0.0 ==> e == 0.0
  {
    if d != 0.0 {
      var size := if d < 0.0 then -d else d;
      var dd := Product(size, size);
      var p := Product(n, dd);
      assert p == e;
    }
  }

  /** The mean is the one centre that minimises the distances. */
  lemma MeanIsBest(v: seq<real>, i: nat, j: nat, c: real)
    requires i < j <= |v|
    ensures From(v, i, j, c) >= Ssd(v, i, j)
    ensures c != Mean(v, i, j) ==> From(v, i, j, c) > Ssd(v, i, j)
    ensures c == Mean(v, i, j) ==> From(v, i, j, c) == Ssd(v, i, j)
  {
    FromExpands(v, i, j, c);
    Gap(Squares(v, i, j), Count(i, j), Sum(v, i, j), c, From(v, i, j, c), Ssd(v, i, j), Mean(v, i, j));
  }

  /** The mean lies between the ends, and touches an end only when the run is constant up to it. */
  lemma MeanWithin(v: seq<real>, i: nat, j: nat)
    requires Ascending(v) && i < j <= |v|
    ensures v[i] <= Mean(v, i, j) <= v[j - 1]
    ensures v[i] < v[j - 1] ==> v[i] < Mean(v, i, j) < v[j - 1]
  {
    SumBounds(v, i, j, v[i], v[j - 1]);
    var n, s := Count(i, j), Sum(v, i, j);
    assert n > 0.0;
    ScaleDown(n, v[i], s);
    ScaleUp(n, v[j - 1], s);
  }

  lemma ScaleDown(n: real, x: real, s: real)
    requires n > 0.0
    ensures n * x <= s ==> x <= s / n
    ensures n * x < s ==> x < s / n
  {
    var m := s / n;
    assert s == n * m;
    if m < x {
      assert n * m < n * x;
    }
    if m <= x {
      assert n * m <= n * x;
    }
  }

  lemma ScaleUp(n: real, y: real, s: real)
    requires n > 0.0
    ensures s <= n * y ==> s / n <= y
    ensures s < n * y ==> s / n < y
  {
    ScaleDown(n, -y, -s);
    assert -s / n == -(s / n) by {
      var m := s / n;
      assert s == n * m;
      assert -s == n * (-m);
    }
    assert n * -y == -(n * y);
  }

  lemma OneMore(n: real, x: real)
    ensures (n + 1.0) * x == n * x + x
  {
  }

  lemma {:induction false} SumBounds(v: seq<real>, i: nat, j: nat, lo: real, hi: real)
    requires Ascending(v) && i < j <= |v|
    requires lo <= v[i] && v[j - 1] <= hi
    ensures Count(i, j) * lo <= Sum(v, i, j) <= Count(i, j) * hi
    ensures lo < v[j - 1] ==> Count(i, j) * lo < Sum(v, i, j)
    ensures v[i] < hi ==> Sum(v, i, j) < Count(i, j) * hi
    decreases j - i
  {
    var n := Count(i + 1, j);
    OneMore(n, lo);
    OneMore(n, hi);
    assert Count(i, j) == n + 1.0;
    if i + 1 == j {
      assert n == 0.0 && n * lo == 0.0 && n * hi == 0.0;
      assert Sum(v, i, j) == v[i];
    } else {
      assert v[i] <= v[i + 1] <= v[j - 1];
      SumBounds(v, i + 1, j, lo, hi);
      assert Sum(v, i, j) == v[i] + Sum(v, i + 1, j);
      assert Count(i, j) * lo == n * lo + lo && Count(i, j) * hi == n * hi + hi;
    }
  }

  /** Splitting a run never costs, and pays off strictly at a step. */
  lemma SplitPays(v: seq<real>, i: nat, p: nat, j: nat)
    requires Ascending(v) && i < p < j <= |v| && v[p - 1] < v[p]
    ensures Ssd(v, i, p) + Ssd(v, p, j) < Ssd(v, i, j)
  {
    var c := Mean(v, i, j);
    MeanIsBest(v, i, j, c);
    FromSplits(v, i, p, j, c);
    MeanIsBest(v, i, p, c);
    MeanIsBest(v, p, j, c);
    MeanWithin(v, i, p);
    MeanWithin(v, p, j);
  }

  /** A constant run has no deviation. */
  lemma ConstantRun(v: seq<real>, i: nat, j: nat)
    requires Ascending(v) && i < j <= |v| && v[i] == v[j - 1]
    ensures Ssd(v, i, j) == 0.0 && Mean(v, i, j) == v[i]
  {
    MeanWithin(v, i, j);
    MeanIsBest(v, i, j, v[i]);
    FromConstant(v, i, j, v[i]);
  }

  lemma {:induction false} FromConstant(v: seq<real>, i: nat, j: nat, x: real)
    requires Ascending(v) && i <= j <= |v| && (i < j ==> v[i] == x == v[j - 1])
    ensures From(v, i, j, x) == 0.0
    decreases j - i
  {
    if i < j {
      if i + 1 < j {
        assert v[i] <= v[i + 1] <= v[j - 1];
      }
      FromConstant(v, i + 1, j, x);
    }
  }

  lemma FromLast(v: seq<real>, i: nat, p: nat, c: real)
    requires i < p <= |v|
    ensures From(v, i, p, c) == From(v, i, p - 1, c) + Square(v[p - 1] - c)
  {
    FromSplits(v, i, p - 1, p, c);
    assert From(v, p, p, c) == 0.0;
  }

  lemma FromFirst(v: seq<real>, i: nat, p: nat, c: real)
    requires i < p <= |v|
    ensures From(v, i, p, c) == Square(v[i] - c) + From(v, i + 1, p, c)
  {
  }

  /** What the neighbouring runs cost once the value at the boundary has changed sides. */
  lemma Rebalance(left: real, right: real, leftRest: real, rightMore: real, p: real, q: real, ssdLeft: real,
      ssdRight: real)
    requires left == leftRest + p && rightMore == q + right
    requires ssdLeft <= leftRest && ssdRight <= rightMore
    ensures ssdLeft + ssdRight <= left + right - p + q
    ensures ssdLeft < leftRest ==> ssdLeft + ssdRight < left + right - p + q
  {
  }

  /** Moving the boundary left past `x`, the last value of the left run. */
  lemma MoveLeft(v: seq<real>, a: nat, p: nat, c: nat, left: real, right: real)
    requires Ascending(v) && a + 1 < p < c <= |v|
    requires left == Mean(v, a, p) && right == Mean(v, p, c)
    ensures var x := v[p - 1];
            var moved, stayed := Ssd(v, a, p - 1) + Ssd(v, p - 1, c), Ssd(v, a, p) + Ssd(v, p, c);
            && moved <= stayed - Square(x - left) + Square(x - right)
            && (x != left ==> moved < stayed - Square(x - left) + Square(x - right))
  {
    var x := v[p - 1];
    MeanIsBest(v, a, p, left);
    MeanIsBest(v, p, c, right);
    FromLast(v, a, p, left);
    FromFirst(v, p - 1, c, right);
    MeanIsBest(v, p - 1, c, right);
    MeanIsBest(v, a, p - 1, left);
    if x != left {
      MeanShrinks(v, a, p);
    }
    Rebalance(From(v, a, p, left), From(v, p, c, right), From(v, a, p - 1, left), From(v, p - 1, c, right),
              Square(x - left), Square(x - right), Ssd(v, a, p - 1), Ssd(v, p - 1, c));
  }

  /** Moving the boundary right past `x`, the first value of the right run. */
  lemma MoveRight(v: seq<real>, a: nat, p: nat, c: nat, left: real, right: real)
    requires Ascending(v) && a < p && p + 1 < c <= |v|
    requires left == Mean(v, a, p) && right == Mean(v, p, c)
    ensures var x := v[p];
            var moved, stayed := Ssd(v, a, p + 1) + Ssd(v, p + 1, c), Ssd(v, a, p) + Ssd(v, p, c);
            && moved <= stayed - Square(x - right) + Square(x - left)
            && (x != right ==> moved < stayed - Square(x - right) + Square(x - left))
  {
    var x := v[p];
    MeanIsBest(v, a, p, left);
    MeanIsBest(v, p, c, right);
    FromLast(v, a, p + 1, left);
    FromFirst(v, p, c, right);
    MeanIsBest(v, a, p + 1, left);
    MeanIsBest(v, p + 1, c, right);
    if x != right {
      MeanGrows(v, p, c);
    }
    Rebalance(From(v, p, c, right), From(v, a, p, left), From(v, p + 1, c, right), From(v, a, p + 1, left),
              Square(x - right), Square(x - left), Ssd(v, p + 1, c), Ssd(v, a, p + 1));
  }

  /** Dropping an extreme value moves the mean away from it. */
  lemma MeanShrinks(v: seq<real>, a: nat, p: nat)
    requires Ascending(v) && a + 1 < p <= |v| && v[p - 1] != Mean(v, a, p)
    ensures Mean(v, a, p - 1) != Mean(v, a, p)
  {
    SumSplits(v, a, p - 1, p);
    assert Sum(v, p - 1, p) == v[p - 1] + Sum(v, p, p);
    OneLess(Count(a, p), Sum(v, a, p), v[p - 1]);
    assert Count(a, p - 1) == Count(a, p) - 1.0;
  }

  lemma MeanGrows(v: seq<real>, p: nat, c: nat)
    requires Ascending(v) && p + 1 < c <= |v| && v[p] != Mean(v, p, c)
    ensures Mean(v, p + 1, c) != Mean(v, p, c)
  {
    OneLess(Count(p, c), Sum(v, p, c), v[p]);
    assert Count(p + 1, c) == Count(p, c) - 1.0;
  }

  lemma OneLess(n: real, s: real, x: real)
    requires n > 1.0 && x != s / n
    ensures (s - x) / (n - 1.0) != s / n
  {
    var m, k := s / n, (s - x) / (n - 1.0);
    assert s == m * n && s - x == k * (n - 1.0);
    assert k * (n - 1.0) == k * n - k;
  }
}
