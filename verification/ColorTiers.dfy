/**
 Colour tiers over exact reals: the breaks `scale` returns cut the data into the
 runs of a cheapest split, so no tier is empty once there is a finite value.
 */
module ColorTiers {
  import opened Common
  import opened Deviation
  import opened Splits
  import opened Jenks

  const TIER_COLORS := 6

  // ---- Quantiles ---------------------------------------------------------------

  /** Linear interpolation over sorted data; `None` where the original reads past it and gets NaN. */
  function Quantile(v: seq<real>, p: real): Option<real> {
    var n := |v|;
    if n == 0 then Some(0.0)
    else if n == 1 then Some(v[0])
    else At(v, Position(p, n))
  }

  function At(v: seq<real>, pos: real): Option<real> {
    var base := pos.Floor;
    var rest := pos - base as real;
    if 0 <= base < |v| then
      var lo := v[base];
      var hi := if base + 1 < |v| then v[base + 1] else lo;
      Some(Interpolate(lo, hi, rest))
    else None
  }

  function Interpolate(lo: real, hi: real, rest: real): real {
    lo + (hi - lo) * rest
  }

  /** Inside the unit interval there is always a quantile. */
  lemma QuantileExists(v: seq<real>, p: real)
    requires 0.0 <= p <= 1.0
    ensures Quantile(v, p).Some?
  {
    if 2 <= |v| {
      var m := (|v| - 1) as real;
      Scaled(p, m);
      assert (p * m).Floor <= |v| - 1;
    }
  }

  lemma Scaled(p: real, m: real)
    requires 0.0 <= p <= 1.0 && 0.0 <= m
    ensures 0.0 <= p * m <= m
  {
    var a := NoLess(p, m);
    var b := NoLess(1.0 - p, m);
    assert b == m - a;
  }

  /** The quantiles that cut the ranks into `classes` equal shares. */
  ghost predicate EqualShares(v: seq<real>, classes: nat, breaks: seq<real>) {
    && |breaks| == classes - 1
    && forall k :: 0 <= k < |breaks| ==> Some(breaks[k]) == Quantile(v, Share(k + 1, classes))
  }

  method QuantileBreaks(v: seq<real>, nBreaks: nat) returns (out: seq<real>)
    ensures EqualShares(v, nBreaks + 1, out)
  {
    out := [];
    for i := 1 to nBreaks + 1
      invariant |out| == i - 1
      invariant forall k :: 0 <= k < |out| ==> Some(out[k]) == Quantile(v, Share(k + 1, nBreaks + 1))
    {
      ShareBounds(i, nBreaks + 1);
      QuantileExists(v, Share(i, nBreaks + 1));
      out := out + [Quantile(v, Share(i, nBreaks + 1)).value];
    }
  }

  function Share(i: nat, n: nat): real
    requires i <= n && 0 < n
  {
    i as real / n as real
  }

  function Position(p: real, n: nat): real {
    p * (n - 1) as real
  }

  lemma ShareBounds(i: nat, n: nat)
    requires i <= n && 0 < n
    ensures 0.0 <= Share(i, n) <= 1.0
    ensures 0 < i < n ==> 0.0 < Share(i, n) < 1.0
  {
    ScaleUp(n as real, 1.0, i as real);
    ScaleDown(n as real, 0.0, i as real);
  }

  lemma SharePosition(i: nat, n: nat)
    requires 1 <= i < n
    ensures Position(Share(i, n), n) == i as real - Share(i, n)
  {
    var p := Share(i, n);
    assert p * n as real == i as real;
    assert p * (n - 1) as real == p * n as real - p;
  }

  lemma InterpolateGrows(lo: real, hi: real, rest: real, more: real)
    requires lo <= hi && 0.0 <= rest <= more <= 1.0
    ensures lo <= Interpolate(lo, hi, rest) <= Interpolate(lo, hi, more) <= hi
  {
    var d := hi - lo;
    var a := NoLess(d, rest);
    var b := NoLess(d, more - rest);
    var c := NoLess(d, 1.0 - more);
    assert b == d * more - a && c == d - d * more;
  }

  lemma InterpolateEnds(lo: real, hi: real)
    ensures Interpolate(lo, hi, 0.0) == lo
  {
  }

  /** A position between two ranks gives a value between theirs. */
  lemma AtBetween(v: seq<real>, pos: real)
    requires Ascending(v) && 0.0 <= pos && pos.Floor < |v|
    ensures var q := At(v, pos); q.Some? && v[pos.Floor] <= q.value
    ensures pos.Floor + 1 < |v| ==> At(v, pos).value <= v[pos.Floor + 1]
    ensures pos.Floor + 1 == |v| ==> At(v, pos).value == v[pos.Floor]
  {
    var base := pos.Floor;
    var lo := v[base];
    var hi := if base + 1 < |v| then v[base + 1] else lo;
    InterpolateGrows(lo, hi, pos - base as real, pos - base as real);
  }

  lemma AtGrows(v: seq<real>, x: real, y: real)
    requires Ascending(v) && 0.0 <= x <= y && y.Floor < |v|
    ensures At(v, x).Some? && At(v, y).Some? && At(v, x).value <= At(v, y).value
  {
    var a, b := x.Floor, y.Floor;
    AtBetween(v, x);
    AtBetween(v, y);
    if a == b {
      var lo := v[a];
      var hi := if a + 1 < |v| then v[a + 1] else lo;
      InterpolateGrows(lo, hi, x - a as real, y - a as real);
    } else {
      assert v[a + 1] <= v[b];
    }
  }

  /** The quantile grows with the rank. */
  lemma QuantileMonotone(v: seq<real>, p: real, q: real)
    requires Ascending(v) && 0.0 <= p <= q <= 1.0
    ensures Quantile(v, p).Some? && Quantile(v, q).Some? && Quantile(v, p).value <= Quantile(v, q).value
  {
    QuantileExists(v, p);
    QuantileExists(v, q);
    if 2 <= |v| {
      Within(p, |v|);
      Within(q, |v|);
      Steeper(p, q, |v|);
      AtGrows(v, Position(p, |v|), Position(q, |v|));
    }
  }

  lemma Within(p: real, n: nat)
    requires 0.0 <= p <= 1.0 && 1 <= n
    ensures 0.0 <= Position(p, n) <= (n - 1) as real && Position(p, n).Floor < n
  {
    Scaled(p, (n - 1) as real);
  }

  lemma Steeper(p: real, q: real, n: nat)
    requires p <= q && 1 <= n
    ensures Position(p, n) <= Position(q, n)
  {
    var m := (n - 1) as real;
    var gain := NoLess(q - p, m);
    assert gain == q * m - p * m;
  }

  function Line(a: real, d: real, x: real): real {
    a + d * x
  }

  /** A rank that is a whole number gives the value at that rank. */
  lemma QuantileAtRank(v: seq<real>, p: real, k: nat)
    requires k < |v| && Position(p, |v|) == k as real
    ensures Quantile(v, p) == Some(v[k])
  {
    assert (k as real).Floor == k;
    InterpolateEnds(v[k], if k + 1 < |v| then v[k + 1] else v[k]);
  }

  /** On evenly spaced data the quantile is the value at the fractional rank. */
  lemma QuantileLinear(v: seq<real>, a: real, d: real, p: real)
    requires v != [] && 0.0 <= p <= 1.0 && forall i :: 0 <= i < |v| ==> v[i] == Line(a, d, i as real)
    ensures Quantile(v, p) == Some(Line(a, d, Position(p, |v|)))
  {
    Within(p, |v|);
    if |v| == 1 {
      assert Position(p, |v|) == 0.0 && v[0] == Line(a, d, 0 as real);
    } else {
      LinearAt(v, a, d, Position(p, |v|));
    }
  }

  lemma LinearAt(v: seq<real>, a: real, d: real, pos: real)
    requires 0.0 <= pos <= (|v| - 1) as real && forall i :: 0 <= i < |v| ==> v[i] == Line(a, d, i as real)
    ensures At(v, pos) == Some(Line(a, d, pos))
  {
    var base := pos.Floor;
    var rest := pos - base as real;
    assert v[base] == Line(a, d, base as real);
    if base + 1 < |v| {
      assert v[base + 1] == Line(a, d, (base + 1) as real) && (base + 1) as real == base as real + 1.0;
      LinearStep(a, d, base as real, rest);
    } else {
      assert rest == 0.0 && pos == base as real;
      InterpolateEnds(v[base], v[base]);
    }
  }

  lemma LinearStep(a: real, d: real, base: real, rest: real)
    ensures Interpolate(Line(a, d, base), Line(a, d, base + 1.0), rest) == Line(a, d, base + rest)
  {
    assert d * (base + 1.0) == d * base + d;
    assert d * (base + rest) == d * base + d * rest;
  }

  lemma AtInGap(v: seq<real>, i: nat, p: real)
    requires 1 <= i < |v| && v[i - 1] < v[i] && 0.0 < p < 1.0
    ensures var q := At(v, i as real - p); q.Some? && v[i - 1] < q.value < v[i]
  {
    assert (i as real - p).Floor == i - 1;
    Inside(v[i - 1], v[i], 1.0 - p);
  }

  /** As many breaks as gaps: each falls strictly inside its own gap. */
  lemma BreakInGap(v: seq<real>, i: nat)
    requires 1 <= i < |v| && v[i - 1] < v[i]
    ensures var q := Quantile(v, Share(i, |v|)); q.Some? && v[i - 1] < q.value < v[i]
  {
    SharePosition(i, |v|);
    ShareBounds(i, |v|);
    AtInGap(v, i, Share(i, |v|));
  }

  lemma Inside(lo: real, hi: real, rest: real)
    requires lo < hi && 0.0 < rest < 1.0
    ensures lo < Interpolate(lo, hi, rest) < hi
  {
    var _ := Product(hi - lo, rest);
    var _ := Product(hi - lo, 1.0 - rest);
  }

  // ---- Distinct values -----------------------------------------------------------

  method DistinctCount(v: seq<real>) returns (d: nat)
    requires Ascending(v)
    ensures d == |Values(v)|
  {
    d := if |v| == 0 then 0 else 1;
    if |v| > 0 {
      assert Values(v[..1]) == {v[0]};
      for i := 1 to |v|
        invariant d == |Values(v[..i])|
      {
        OneMoreValue(v, i);
        if v[i] != v[i - 1] {
          d := d + 1;
        }
      }
      assert v[..|v|] == v;
    }
  }

  lemma OneMoreValue(v: seq<real>, i: nat)
    requires Ascending(v) && 1 <= i < |v|
    ensures |Values(v[..i + 1])| == |Values(v[..i])| + if v[i] != v[i - 1] then 1 else 0
  {
    var before, after, x := v[..i], v[..i + 1], v[i];
    assert after[i] == x;
    assert forall k :: 0 <= k < i ==> after[k] == before[k];
    assert Values(after) == Values(before) + {x};
    if x == v[i - 1] {
      assert before[i - 1] == x;
      assert x in Values(before);
      assert Values(after) == Values(before);
    } else {
      assert forall k :: 0 <= k < i ==> before[k] <= v[i - 1];
      assert x !in Values(before);
    }
  }

  lemma ValuesAtMost(v: seq<real>)
    ensures |Values(v)| <= |v|
    ensures v != [] ==> 1 <= |Values(v)|
  {
    ValuesUpTo(v, |v|);
    assert v[..|v|] == v;
    if v != [] {
      assert v[0] in Values(v);
    }
  }

  lemma {:induction false} ValuesUpTo(v: seq<real>, i: nat)
    requires i <= |v|
    ensures |Values(v[..i])| <= i
  {
    if i == 0 {
      assert Values(v[..0]) == {};
    } else {
      ValuesUpTo(v, i - 1);
      var x := v[i - 1];
      assert Values(v[..i]) <= Values(v[..i - 1]) + {x} by {
        assert forall k :: 0 <= k < i - 1 ==> v[..i][k] == v[..i - 1][k];
      }
      SubsetSize(Values(v[..i]), Values(v[..i - 1]) + {x});
    }
  }

  // ---- Breaks ------------------------------------------------------------------

  ghost predicate Natural(v: seq<real>, classes: nat) {
    classes < |v| && classes <= |Values(v)|
  }

  method JenksBreaks(v: seq<real>, classes: nat) returns (breaks: seq<real>)
    requires Ascending(v) && 1 <= classes
    ensures Natural(v, classes) ==> EndsRuns(v, Path(v, |v|, classes), breaks)
    ensures !Natural(v, classes) ==> EqualShares(v, classes, breaks)
  {
    var n := |v|;
    var distinct := DistinctCount(v);
    if n <= classes || distinct < classes {
      breaks := QuantileBreaks(v, classes - 1);
      return;
    }
    var lower, variance := FillTables(v, classes);
    ReadStarts(v, classes, lower, variance);
    PathOptimal(v, classes);
    ghost var clamped;
    breaks, clamped := Backtrack(v, classes, lower, Path(v, |v|, classes));
  }

  // ---- Tiers -------------------------------------------------------------------

  /** The tier of `x`, looking from tier `i` on: the first whose upper bound it does not pass. */
  function TierFrom(breaks: seq<real>, x: real, i: nat): (t: nat)
    requires i <= |breaks|
    ensures i <= t <= |breaks|
    decreases |breaks| - i
  {
    if i == |breaks| || x <= breaks[i] then i else TierFrom(breaks, x, i + 1)
  }

  function TierOf(breaks: seq<real>, x: real): nat {
    TierFrom(breaks, x, 0)
  }

  /** The breaks fall between the runs of `b`. */
  ghost predicate Separates(v: seq<real>, b: seq<nat>, breaks: seq<real>) {
    && Split(b, |v|) && |breaks| == Runs(b) - 1
    && forall k :: 1 <= k < Runs(b) ==> v[b[k] - 1] <= breaks[k - 1] < v[b[k]]
  }

  /** Breaks that separate the runs of a split make those runs the tiers. */
  lemma TiersAreRuns(v: seq<real>, b: seq<nat>, breaks: seq<real>, k: nat, x: nat)
    requires Ascending(v) && Separates(v, b, breaks) && k < Runs(b) && b[k] <= x < b[k + 1]
    ensures TierOf(breaks, v[x]) == k
  {
    TierReached(v, b, breaks, k, x, 0);
  }

  lemma {:induction false} TierReached(v: seq<real>, b: seq<nat>, breaks: seq<real>, k: nat, x: nat, i: nat)
    requires Ascending(v) && Separates(v, b, breaks) && i <= k < Runs(b) && b[k] <= x < b[k + 1]
    ensures TierFrom(breaks, v[x], i) == k
    decreases k - i
  {
    if i < k {
      assert v[b[i + 1] - 1] <= breaks[i] < v[b[i + 1]];
      assert b[i + 1] <= b[k];
      assert v[b[i + 1]] <= v[x];
      TierReached(v, b, breaks, k, x, i + 1);
    } else if k + 1 < Runs(b) {
      assert v[b[k + 1] - 1] <= breaks[k];
      assert v[x] <= v[b[k + 1] - 1];
    }
  }

  lemma SeparatesAscending(v: seq<real>, b: seq<nat>, breaks: seq<real>, i: nat, j: nat)
    requires Ascending(v) && Separates(v, b, breaks) && i < j < |breaks|
    ensures breaks[i] < breaks[j]
  {
    assert v[b[i + 1] - 1] <= breaks[i] < v[b[i + 1]];
    assert v[b[j + 1] - 1] <= breaks[j];
    assert b[i + 1] < b[j + 1];
  }

  /** Breaks read off an optimal split separate its runs. */
  lemma NaturalSeparates(v: seq<real>, b: seq<nat>, breaks: seq<real>)
    requires Ascending(v) && Optimal(v, b) && Runs(b) <= |Values(v)| && EndsRuns(v, b, breaks)
    ensures Separates(v, b, breaks)
  {
    forall k | 1 <= k < Runs(b) ensures v[b[k] - 1] <= breaks[k - 1] < v[b[k]] {
      NoStraddle(v, b, k);
    }
  }

  /** One value per class: the split is forced, and the quantiles fall in its gaps. */
  lemma SinglesSeparate(v: seq<real>, b: seq<nat>, breaks: seq<real>)
    requires Ascending(v) && Optimal(v, b) && Runs(b) == |Values(v)| == |v| && EqualShares(v, |v|, breaks)
    ensures Separates(v, b, breaks)
  {
    forall k | 1 <= k < Runs(b) ensures v[b[k] - 1] <= breaks[k - 1] < v[b[k]] {
      NoStraddle(v, b, k);
      Pinned(b, k);
      BreakInGap(v, k);
    }
  }

  /** A split into as many runs as places has a boundary at each. */
  lemma Pinned(b: seq<nat>, k: nat)
    requires k < |b| && Split(b, |b| - 1)
    ensures b[k] == k
  {
    AtLeast(b, 0, k);
    AtLeast(b, k, |b| - 1);
  }

  lemma {:induction false} AtLeast(b: seq<nat>, i: nat, j: nat)
    requires Rising(b) && i <= j < |b|
    ensures b[i] + (j - i) <= b[j]
    decreases j - i
  {
    if i < j {
      AtLeast(b, i, j - 1);
    }
  }

  // ---- The scale ---------------------------------------------------------------

  datatype Number = Real(x: real) | NotFinite

  /** The finite values, as often as they occur. */
  lemma {:induction false} FiniteOnlyKeeps(vals: seq<Number>, x: real)
    ensures multiset(FiniteOnly(vals))[x] == multiset(vals)[Real(x)]
  {
    if vals != [] {
      FiniteOnlyKeeps(vals[1..], x);
      assert vals == [vals[0]] + vals[1..];
    }
  }

  function FiniteOnly(vals: seq<Number>): seq<real> {
    if vals == [] then []
    else if vals[0].Real? then [vals[0].x] + FiniteOnly(vals[1..])
    else FiniteOnly(vals[1..])
  }

  function Insert(x: real, s: seq<real>): (r: seq<real>)
    ensures multiset(r) == multiset(s) + multiset{x}
  {
    if s == [] || x <= s[0] then
      [x] + s
    else
      assert s == [s[0]] + s[1..];
      [s[0]] + Insert(x, s[1..])
  }

  /** The one ascending arrangement of `s`. */
  function Sort(s: seq<real>): (r: seq<real>)
    ensures multiset(r) == multiset(s)
  {
    if s == [] then [] else
      assert s == [s[0]] + s[1..];
      Insert(s[0], Sort(s[1..]))
  }

  lemma {:induction false} InsertAscending(x: real, s: seq<real>)
    requires Ascending(s)
    ensures Ascending(Insert(x, s))
  {
    if s != [] && s[0] < x {
      InsertAscending(x, s[1..]);
      var r := Insert(x, s[1..]);
      forall y | y in r ensures s[0] <= y {
        assert y in multiset(r);
        assert y in multiset(s[1..]) || y == x;
        assert y in s[1..] || y == x;
      }
      assert forall j :: 0 <= j < |r| ==> r[j] in r;
    }
  }

  lemma {:induction false} SortAscending(s: seq<real>)
    ensures Ascending(Sort(s))
  {
    if s != [] {
      SortAscending(s[1..]);
      InsertAscending(s[0], Sort(s[1..]));
    }
  }

  /** Sorting again, as the original does with its breaks, changes nothing. */
  lemma {:induction false} SortSettled(s: seq<real>)
    requires Ascending(s)
    ensures Sort(s) == s
  {
    if s != [] {
      SortSettled(s[1..]);
      assert 1 < |s| ==> s[0] <= s[1];
    }
  }

  ghost predicate StrictlyAscending(s: seq<real>) {
    forall i, j :: 0 <= i < j < |s| ==> s[i] < s[j]
  }

  ghost predicate TierUsed(data: seq<real>, breaks: seq<real>, t: nat) {
    exists k :: 0 <= k < |data| && TierOf(breaks, data[k]) == t
  }

  lemma EveryTierUsed(v: seq<real>, b: seq<nat>, breaks: seq<real>, t: nat)
    requires Ascending(v) && Separates(v, b, breaks) && t <= |breaks|
    ensures TierUsed(v, breaks, t)
  {
    TiersAreRuns(v, b, breaks, t, b[t]);
  }

  lemma UsedAnyOrder(data: seq<real>, breaks: seq<real>, t: nat)
    requires TierUsed(Sort(data), breaks, t)
    ensures TierUsed(data, breaks, t)
  {
    var v := Sort(data);
    var k :| 0 <= k < |v| && TierOf(breaks, v[k]) == t;
    assert v[k] in multiset(v);
    assert v[k] in multiset(data);
    var i :| 0 <= i < |data| && data[i] == v[k];
  }

  lemma AllTiersUsed(data: seq<real>, b: seq<nat>, breaks: seq<real>)
    requires Separates(Sort(data), b, breaks)
    ensures forall t :: 0 <= t <= |breaks| ==> TierUsed(data, breaks, t)
  {
    SortAscending(data);
    forall t | 0 <= t <= |breaks| ensures TierUsed(data, breaks, t) {
      EveryTierUsed(Sort(data), b, breaks, t);
      UsedAnyOrder(data, breaks, t);
    }
  }

  /** A tier for every distinct value, but at least one tier and at most six. */
  ghost predicate OneTierPerValue(tiers: nat, distinct: nat) {
    && 1 <= tiers <= 6 && (distinct > 0 ==> tiers <= distinct)
    && (tiers < 6 ==> tiers == if distinct == 0 then 1 else distinct)
  }

  function ClassCount(distinct: nat): (n: nat)
    ensures OneTierPerValue(n, distinct)
  {
    var atLeastOne := if distinct < 1 then 1 else distinct;
    if TIER_COLORS < atLeastOne then TIER_COLORS else atLeastOne
  }

  /** The inner breaks of `scale`, before its last sort. */
  method InnerBreaks(v: seq<real>, classes: nat) returns (inner: seq<real>)
    requires Ascending(v) && v != [] && 1 <= classes <= |Values(v)|
    ensures |inner| == classes - 1
    ensures Separates(v, Path(v, |v|, classes), inner)
  {
    inner := JenksBreaks(v, classes);
    ValuesAtMost(v);
    PathOptimal(v, classes);
    if classes < |v| {
      NaturalSeparates(v, Path(v, |v|, classes), inner);
    } else {
      SinglesSeparate(v, Path(v, |v|, classes), inner);
    }
  }

  /** The tiers are the runs of a cheapest split of the sorted data, and each is used. */
  ghost predicate Tiered(data: seq<real>, breaks: seq<real>, tiers: nat) {
    && StrictlyAscending(breaks) && tiers == |breaks| + 1
    && (exists b :: Optimal(Sort(data), b) && Runs(b) == tiers && Separates(Sort(data), b, breaks))
    && forall t :: 0 <= t < tiers ==> TierUsed(data, breaks, t)
  }

  lemma SeparatedTiers(data: seq<real>, b: seq<nat>, breaks: seq<real>)
    requires Optimal(Sort(data), b) && Separates(Sort(data), b, breaks)
    ensures Tiered(data, breaks, |breaks| + 1)
  {
    SortAscending(data);
    forall i, j | 0 <= i < j < |breaks| ensures breaks[i] < breaks[j] {
      SeparatesAscending(Sort(data), b, breaks, i, j);
    }
    AllTiersUsed(data, b, breaks);
  }

  lemma SingleTier(data: seq<real>)
    requires data != []
    ensures Tiered(data, [], 1)
  {
    var v := Sort(data);
    SortAscending(data);
    SortSize(data);
    ValuesAtMost(v);
    PathOptimal(v, 1);
    assert Separates(v, Path(v, |v|, 1), []);
    SeparatedTiers(data, Path(v, |v|, 1), []);
  }

  lemma SortSize(data: seq<real>)
    ensures |Sort(data)| == |data|
  {
    assert |multiset(Sort(data))| == |multiset(data)|;
  }

  /** The breaks of two tiers or more. */
  method TierBreaks(ghost data: seq<real>, v: seq<real>, tiers: nat) returns (breaks: seq<real>)
    requires v == Sort(data) && Ascending(v) && v != [] && 2 <= tiers <= |Values(v)|
    ensures Tiered(data, breaks, tiers)
  {
    var inner := InnerBreaks(v, tiers);
    PathOptimal(v, tiers);
    SeparatedTiers(data, Path(v, |v|, tiers), inner);
    SortSettled(inner);
    breaks := Sort(inner);
  }

  /**
   The default scale. Its tiers are the runs of a cheapest split of the finite
   values; no tier is empty exactly when there is a finite value.
   */
  method Scale(vals: seq<Number>) returns (tiers: nat, breaks: seq<real>)
    ensures tiers == |breaks| + 1 && OneTierPerValue(tiers, |Values(Sort(FiniteOnly(vals)))|)
    ensures StrictlyAscending(breaks)
    ensures FiniteOnly(vals) != [] ==>
              var v := Sort(FiniteOnly(vals));
              exists b :: Optimal(v, b) && Runs(b) == tiers && Separates(v, b, breaks)
    ensures (forall t :: 0 <= t < tiers ==> TierUsed(FiniteOnly(vals), breaks, t)) <==> FiniteOnly(vals) != []
  {
    ghost var data := FiniteOnly(vals);
    var v := Sort(FiniteOnly(vals));
    SortAscending(data);
    SortSize(data);
    var distinct := DistinctCount(v);
    ValuesAtMost(v);
    tiers := ClassCount(distinct);
    if tiers == 1 {
      breaks := [];
      if data == [] {
        assert !TierUsed(data, breaks, 0);
      } else {
        SingleTier(data);
      }
      return;
    }
    breaks := TierBreaks(data, v, tiers);
  }
}
