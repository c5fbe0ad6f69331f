/**
 Catching up with the chain: which block rows any run of passes can leave behind,
 and what the gauge of missing heights counts.
 */
module CatchUp {
  import opened Common

  type Hash = string

  /** The blocks table: its key and the one column that matters here. */
  type Blocks = map<Hash, int>

  ghost predicate OneRowPerHeight(blocks: Blocks) {
    forall a, b :: a in blocks && b in blocks && blocks[a] == blocks[b] ==> a == b
  }

  ghost predicate NoGaps(heights: set<int>) {
    forall lo, h, hi :: lo in heights && hi in heights && lo <= h <= hi ==> h in heights
  }

  ghost predicate Contiguous(blocks: Blocks) {
    OneRowPerHeight(blocks) && NoGaps(blocks.Values)
  }

  // ---- Aggregates ----------------------------------------------------------

  lemma SomeElement<T>(s: set<T>) returns (x: T)
    requires s != {}
    ensures x in s
  {
    x :| x in s;
  }

  lemma {:induction false} HasMax(s: set<int>) returns (m: int)
    requires s != {}
    ensures m in s && forall x :: x in s ==> x <= m
    decreases |s|
  {
    var y := SomeElement(s);
    if s == {y} {
      m := y;
    } else {
      m := HasMax(s - {y});
      assert forall x :: x in s ==> x == y || x in s - {y};
      m := if m < y then y else m;
    }
  }

  function Max(s: set<int>): (m: int)
    requires s != {}
    ensures m in s && forall x :: x in s ==> x <= m
  {
    assert exists m :: m in s && forall x :: x in s ==> x <= m by {
      var m := HasMax(s);
    }
    var m :| m in s && forall x :: x in s ==> x <= m;
    m
  }

  lemma {:induction false} HasMin(s: set<int>) returns (m: int)
    requires s != {}
    ensures m in s && forall x :: x in s ==> m <= x
    decreases |s|
  {
    var y := SomeElement(s);
    if s == {y} {
      m := y;
    } else {
      m := HasMin(s - {y});
      assert forall x :: x in s ==> x == y || x in s - {y};
      m := if y < m then y else m;
    }
  }

  function Min(s: set<int>): (m: int)
    requires s != {}
    ensures m in s && forall x :: x in s ==> m <= x
  {
    assert exists m :: m in s && forall x :: x in s ==> m <= x by {
      var m := HasMin(s);
    }
    var m :| m in s && forall x :: x in s ==> m <= x;
    m
  }

  function LatestHeight(blocks: Blocks): Option<int> {
    if blocks == map[] then None else Some(Max(blocks.Values))
  }

  function LowestHeight(blocks: Blocks): Option<int> {
    if blocks == map[] then None else Some(Min(blocks.Values))
  }

  /** Where the table starts: where it did, or at `first` once something is stored in an empty one. */
  ghost predicate Founded(before: Blocks, after: Blocks, first: Option<int>) {
    if before != map[] then LowestHeight(after) == LowestHeight(before)
    else after == map[] || LowestHeight(after) == first
  }

  /** The gauge: the span of the stored heights less the number of rows. */
  function MissingHeights(blocks: Blocks): int {
    if blocks == map[] then 0 else Max(blocks.Values) - Min(blocks.Values) + 1 - |blocks|
  }

  function Span(lo: int, hi: int): (s: set<int>)
    ensures forall h :: h in s <==> lo <= h <= hi
    decreases hi - lo
  {
    if hi < lo then {} else Span(lo, hi - 1) + {hi}
  }

  /** The heights absent between the lowest and the highest stored. */
  function Gaps(blocks: Blocks): set<int> {
    if blocks == map[] then {} else Span(Min(blocks.Values), Max(blocks.Values)) - blocks.Values
  }

  lemma {:induction false} SpanSize(lo: int, hi: int)
    requires lo <= hi + 1
    ensures |Span(lo, hi)| == hi - lo + 1
    decreases hi - lo
  {
    if lo <= hi {
      SpanSize(lo, hi - 1);
    }
  }

  /** There are never more heights than rows, and as many only with one row each. */
  lemma {:induction false} HeightsPerRow(blocks: Blocks)
    ensures |blocks.Values| <= |blocks|
    ensures |blocks.Values| == |blocks| <==> OneRowPerHeight(blocks)
    decreases |blocks|
  {
    if blocks != map[] {
      var key := SomeElement(blocks.Keys);
      var rest, h := blocks - {key}, blocks[key];
      HeightsPerRow(rest);
      assert blocks == rest[key := h];
      assert blocks.Values == rest.Values + {h};
      if h in rest.Values {
        var other :| other in rest && rest[other] == h;
        assert blocks[other] == blocks[key];
      } else {
        assert OneRowPerHeight(blocks) <==> OneRowPerHeight(rest) by {
          assert forall k :: k in rest ==> rest[k] in rest.Values;
        }
      }
    }
  }

  /** The gauge counts the absent heights if and only if no height is stored twice. */
  lemma GaugeExact(blocks: Blocks)
    ensures MissingHeights(blocks) == |Gaps(blocks)| <==> OneRowPerHeight(blocks)
    ensures MissingHeights(blocks) <= |Gaps(blocks)|
  {
    HeightsPerRow(blocks);
    if blocks != map[] {
      var heights := blocks.Values;
      var span := Span(Min(heights), Max(heights));
      SpanSize(Min(heights), Max(heights));
      assert heights <= span;
      assert span == heights + Gaps(blocks);
    }
  }

  lemma ThreeKeys(blocks: Blocks)
    requires blocks.Keys == {"a", "b", "c"}
    ensures |blocks| == 3
  {
    assert "a" != "b" && "b" != "c" && "a" != "c";
    assert |blocks| == |blocks.Keys|;
  }

  /** Two blocks stored at one height hide a gap. */
  lemma RepeatHidesGap()
    ensures var blocks: Blocks := map["a" := 1, "b" := 1, "c" := 3];
            MissingHeights(blocks) == 0 && Gaps(blocks) == {2}
  {
    var blocks: Blocks := map["a" := 1, "b" := 1, "c" := 3];
    assert blocks["a"] == 1 && blocks["c"] == 3;
    assert blocks.Values == {1, 3};
    assert Max({1, 3}) == 3 && Min({1, 3}) == 1;
    assert Span(1, 3) - {1, 3} == {2};
    ThreeKeys(blocks);
  }

  /** With one row per height, the gauge reads zero exactly when the heights are contiguous. */
  lemma ContiguousGauge(blocks: Blocks)
    requires OneRowPerHeight(blocks)
    ensures MissingHeights(blocks) == 0 <==> NoGaps(blocks.Values)
    ensures Gaps(blocks) == {} <==> NoGaps(blocks.Values)
  {
    GaugeExact(blocks);
    if blocks != map[] {
      var heights := blocks.Values;
      var lo, hi := Min(heights), Max(heights);
      assert NoGaps(heights) <==> Span(lo, hi) <= heights;
      assert Gaps(blocks) == {} <==> Span(lo, hi) <= heights;
    }
  }

  // ---- Appending the next block --------------------------------------------

  /** `insert_with_transactions` on the blocks table: a known hash is left alone. */
  function InsertBlock(blocks: Blocks, hash: Hash, height: int): Blocks {
    if hash in blocks then blocks else blocks[hash := height]
  }

  /** Where the next block goes: any height in an empty table, else right above the highest. */
  ghost predicate Follows(blocks: Blocks, height: int) {
    blocks != map[] ==> height == Max(blocks.Values) + 1
  }

  lemma AppendKeeps(blocks: Blocks, hash: Hash, height: int)
    requires Contiguous(blocks) && Follows(blocks, height)
    requires hash in blocks ==> blocks[hash] == height
    ensures hash !in blocks
    ensures Contiguous(InsertBlock(blocks, hash, height))
    ensures LatestHeight(InsertBlock(blocks, hash, height)) == Some(height)
    ensures Founded(blocks, InsertBlock(blocks, hash, height), Some(height))
  {
    assert forall k :: k in blocks ==> blocks[k] in blocks.Values && blocks[k] < height;
    var next := blocks[hash := height];
    assert next[hash] == height && forall k :: k in blocks ==> next[k] == blocks[k];
    assert next.Values == blocks.Values + {height};
    TopExtends(blocks.Values, height);
  }

  lemma TopExtends(heights: set<int>, height: int)
    requires NoGaps(heights) && (heights != {} ==> height == Max(heights) + 1)
    ensures NoGaps(heights + {height}) && Max(heights + {height}) == height
    ensures Min(heights + {height}) == if heights == {} then height else Min(heights)
  {
  }

  // ---- The service -----------------------------------------------------------

  /**
   The node and the database, call by call. A call with no answer fails; from call
   `horizon` on nothing answers, which is where the process stops.
   */
  datatype Chain = Chain(tip: nat -> Option<int>, hash: (nat, int) -> Option<Hash>, block: (nat, Hash) -> Option<int>,
                         stored: nat -> bool, horizon: nat)

  /** Asked for the block at a height, the node names a block of that height, and a block has one height. */
  ghost predicate Consistent(chain: Chain, heightOf: Hash -> int) {
    && (forall n, h :: chain.hash(n, h).Some? ==> heightOf(chain.hash(n, h).value) == h)
    && (forall n, b :: chain.block(n, b).Some? ==> chain.block(n, b).value == heightOf(b))
  }

  /** What the table holds agrees with the blocks' heights. */
  ghost predicate Truthful(blocks: Blocks, heightOf: Hash -> int) {
    forall b :: b in blocks ==> blocks[b] == heightOf(b)
  }

  ghost predicate Extends(before: Blocks, after: Blocks) {
    forall b :: b in before ==> b in after && after[b] == before[b]
  }

  /** Stored up to at least `tip`. */
  ghost predicate Reached(blocks: Blocks, tip: int) {
    blocks != map[] && tip <= Max(blocks.Values)
  }

  class BlockService {
    var blocks: Blocks
    var calls: nat
    const chain: Chain
    ghost const heightOf: Hash -> int

    constructor (chain: Chain, ghost heightOf: Hash -> int, blocks: Blocks)
      requires Consistent(chain, heightOf) && Contiguous(blocks) && Truthful(blocks, heightOf)
      ensures Valid() && this.blocks == blocks && this.chain == chain && this.heightOf == heightOf && calls == 0
    {
      this.chain, this.heightOf, this.blocks, this.calls := chain, heightOf, blocks, 0;
    }

    ghost predicate Valid()
      reads this
    {
      Consistent(chain, heightOf) && Contiguous(blocks) && Truthful(blocks, heightOf)
    }

    /** One call to the outside, if there is still anyone to answer. */
    method Call() returns (n: nat, answered: bool)
      modifies this`calls
      ensures n == old(calls) && calls == n + 1 && answered == (n < chain.horizon)
    {
      n, answered := calls, calls < chain.horizon;
      calls := calls + 1;
    }

    /** Fetches a block and stores it; on a failure nothing is stored. */
    method ApplyBlock(hash: Hash) returns (ok: bool)
      requires Valid() && Follows(blocks, heightOf(hash))
      modifies this
      ensures Valid() && old(calls) < calls && Extends(old(blocks), blocks)
      ensures Founded(old(blocks), blocks, Some(heightOf(hash)))
      ensures ok ==> old(calls) < chain.horizon && LatestHeight(blocks) == Some(heightOf(hash))
      ensures ok ==> hash in blocks
      ensures !ok ==> blocks == old(blocks)
    {
      var n, up := Call();
      if !up || chain.block(n, hash).None? {
        return false;
      }
      var height := chain.block(n, hash).value;
      n, up := Call();
      if !up || !chain.stored(n) {
        return false;
      }
      AppendKeeps(blocks, hash, height);
      blocks := InsertBlock(blocks, hash, height);
      return true;
    }

    /** The heights `next..=tip`, in order, up to the first failure. */
    method Backfill(next: int, tip: int) returns (ok: bool)
      requires Valid() && next <= tip && Follows(blocks, next)
      modifies this
      ensures Valid() && old(calls) < calls && Extends(old(blocks), blocks)
      ensures Founded(old(blocks), blocks, Some(next))
      ensures ok ==> old(calls) < chain.horizon && LatestHeight(blocks) == Some(tip)
    {
      var height := next;
      while height <= tip
        invariant Valid() && next <= height <= tip + 1 && Extends(old(blocks), blocks)
        invariant Follows(blocks, height) && old(calls) <= calls
        invariant Founded(old(blocks), blocks, Some(next)) && (blocks == map[] ==> height == next)
        invariant next < height ==> old(calls) < calls && old(calls) < chain.horizon
        invariant next < height ==> LatestHeight(blocks) == Some(height - 1)
        decreases tip - height
      {
        var n, up := Call();
        if !up || chain.hash(n, height).None? {
          return false;
        }
        var hash := chain.hash(n, height).value;
        var applied := ApplyBlock(hash);
        if !applied {
          return false;
        }
        height := height + 1;
      }
      return true;
    }

    /**
     One catch-up: passes until the tip read is stored, or the first failure. Its
     table stays contiguous whatever fails, and success means the last tip was reached.
     */
    method CatchUp() returns (tip: Option<int>)
      requires Valid()
      modifies this
      ensures Valid() && old(calls) < calls && Extends(old(blocks), blocks)
      ensures Founded(old(blocks), blocks, chain.tip(old(calls)))
      ensures tip.Some? ==> Reached(blocks, tip.value)
      ensures tip.Some? ==> old(calls) + 2 <= calls && chain.tip(calls - 2) == tip
    {
      while true
        invariant Valid() && old(calls) <= calls && Extends(old(blocks), blocks)
        invariant Founded(old(blocks), blocks, chain.tip(old(calls))) && (blocks == map[] ==> calls == old(calls))
        decreases chain.horizon - calls
      {
        var n, up := Call();
        if !up || chain.tip(n).None? {
          return None;
        }
        var seen := chain.tip(n);
        var m, answers := Call();
        if !answers || !chain.stored(m) {
          return None;
        }
        var latest := LatestHeight(blocks);
        var next := if latest.Some? then latest.value + 1 else seen.value;
        if seen.value < next {
          return seen;
        }
        var ok := Backfill(next, seen.value);
        if !ok {
          return None;
        }
      }
    }

    /** Retries until a catch-up succeeds or the process stops, then reads the gauge. */
    method SyncMissingBlocks() returns (tip: Option<int>, missing: int)
      requires Valid()
      modifies this
      ensures Valid() && Extends(old(blocks), blocks)
      ensures exists n: nat :: old(calls) <= n < calls && Founded(old(blocks), blocks, chain.tip(n))
      ensures tip.Some? ==> Reached(blocks, tip.value)
      ensures tip.None? ==> chain.horizon <= calls
      ensures missing == 0 && Gaps(blocks) == {}
    {
      ghost var first := calls;
      tip := CatchUp();
      while tip.None? && calls < chain.horizon
        invariant Valid() && Extends(old(blocks), blocks) && old(calls) <= first < calls
        invariant Founded(old(blocks), blocks, chain.tip(first))
        invariant tip.Some? ==> Reached(blocks, tip.value)
        decreases chain.horizon - calls
      {
        first := if blocks == map[] then calls else first;
        tip := CatchUp();
      }
      ContiguousGauge(blocks);
      missing := MissingHeights(blocks);
    }
  }
}
