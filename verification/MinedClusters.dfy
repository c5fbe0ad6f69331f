/** How a block divides the clusters it touches, and how mined rows are grouped back into blocks. */
module MinedClusters {
  import opened Common
  import opened ClusterDb
  import opened ClusterRound

  datatype MinedBlock = MinedBlock(txids: seq<Txid>, fees: map<Txid, int>, weights: map<Txid, int>, at: int)
  {
    function Members(): set<Txid> {
      Elements(txids)
    }
  }

  /** The txids that belong to `chosen`, in order. */
  function Within(txids: seq<Txid>, chosen: set<Txid>): (r: seq<Txid>)
    ensures forall t :: t in r <==> t in txids && t in chosen
  {
    if txids == [] then []
    else
      var rest := Within(txids[1..], chosen);
      if txids[0] in chosen then [txids[0]] + rest else rest
  }

  /** What a transaction is worth, where known. */
  function Worth(t: Txid, values: map<Txid, int>): int {
    if t in values then values[t] else 0
  }

  /** Sum over the txids that have a value. */
  function SumOf(txids: seq<Txid>, values: map<Txid, int>): int {
    if txids == [] then 0
    else SumOf(txids[..|txids| - 1], values) + Worth(txids[|txids| - 1], values)
  }

  /** The part of a chunk this block mined, valued by the block. */
  function SplitChunk(block: MinedBlock, txids: seq<Txid>): Chunk {
    Chunk(txids, SumOf(txids, block.fees), SumOf(txids, block.weights))
  }

  function MinedPart(block: MinedBlock, chunk: Chunk): seq<Chunk> {
    if Uncovered(chunk.txids, block.Members()) == [] then [chunk]
    else if Within(chunk.txids, block.Members()) != [] then [SplitChunk(block, Within(chunk.txids, block.Members()))]
    else []
  }

  /** The chunks a block mined of a cluster, and the members still pending. */
  function MinedChunks(block: MinedBlock, chunks: seq<Chunk>): seq<Chunk> {
    if chunks == [] then []
    else MinedChunks(block, chunks[..|chunks| - 1]) + MinedPart(block, chunks[|chunks| - 1])
  }

  function PendingTxids(block: MinedBlock, chunks: seq<Chunk>): seq<Txid> {
    if chunks == [] then []
    else PendingTxids(block, chunks[..|chunks| - 1]) + Uncovered(chunks[|chunks| - 1].txids, block.Members())
  }

  method SplitCluster(block: MinedBlock, chunks: seq<Chunk>) returns (mined: seq<Chunk>, pending: seq<Txid>)
    ensures mined == MinedChunks(block, chunks) && pending == PendingTxids(block, chunks)
    ensures Txids(mined) == Within(Txids(chunks), block.Members())
    ensures pending == Uncovered(Txids(chunks), block.Members())
    ensures multiset(Txids(chunks)) == multiset(Txids(mined)) + multiset(pending)
  {
    mined, pending := [], [];
    for k := 0 to |chunks|
      invariant mined == MinedChunks(block, chunks[..k]) && pending == PendingTxids(block, chunks[..k])
    {
      assert chunks[..k + 1][..k] == chunks[..k];
      var inBlock, left := Within(chunks[k].txids, block.Members()), Uncovered(chunks[k].txids, block.Members());
      if left == [] {
        mined := mined + [chunks[k]];
      } else if inBlock != [] {
        mined := mined + [SplitChunk(block, inBlock)];
      }
      pending := pending + left;
    }
    assert chunks[..|chunks|] == chunks;
    TrimConserves(block, chunks);
    SieveConserves(Txids(chunks), block.Members());
  }

  // ----------------------------------------------------------- conservation

  lemma {:induction false} TxidsConcat(a: seq<Chunk>, b: seq<Chunk>)
    ensures Txids(a + b) == Txids(a) + Txids(b)
  {
    if a == [] {
      assert a + b == b;
    } else {
      assert (a + b)[1..] == a[1..] + b;
      TxidsConcat(a[1..], b);
    }
  }

  lemma SieveHead(t: Txid, rest: seq<Txid>, chosen: set<Txid>)
    ensures Within([t] + rest, chosen) == (if t in chosen then [t] else []) + Within(rest, chosen)
    ensures Uncovered([t] + rest, chosen) == (if t in chosen then [] else [t]) + Uncovered(rest, chosen)
  {
    assert ([t] + rest)[1..] == rest;
  }

  lemma Regroup(x: seq<Txid>, y: seq<Txid>, z: seq<Txid>)
    ensures x + (y + z) == (x + y) + z
  {
  }

  lemma {:induction false} SieveConcat(a: seq<Txid>, b: seq<Txid>, chosen: set<Txid>)
    ensures Within(a + b, chosen) == Within(a, chosen) + Within(b, chosen)
    ensures Uncovered(a + b, chosen) == Uncovered(a, chosen) + Uncovered(b, chosen)
  {
    if a == [] {
      assert a + b == b;
    } else {
      var t, rest := a[0], a[1..];
      SieveConcat(rest, b, chosen);
      SieveHead(t, rest, chosen);
      SieveHead(t, rest + b, chosen);
      assert [t] + rest == a;
      Regroup([t], rest, b);
      Regroup(if t in chosen then [t] else [], Within(rest, chosen), Within(b, chosen));
      Regroup(if t in chosen then [] else [t], Uncovered(rest, chosen), Uncovered(b, chosen));
    }
  }

  lemma {:induction false} SieveConserves(txids: seq<Txid>, chosen: set<Txid>)
    ensures multiset(txids) == multiset(Within(txids, chosen)) + multiset(Uncovered(txids, chosen))
  {
    if txids != [] {
      assert txids == [txids[0]] + txids[1..];
      SieveConserves(txids[1..], chosen);
    }
  }

  lemma {:induction false} NothingLeft(txids: seq<Txid>, chosen: set<Txid>)
    requires Uncovered(txids, chosen) == []
    ensures Within(txids, chosen) == txids
  {
    if txids != [] {
      NothingLeft(txids[1..], chosen);
    }
  }

  lemma {:induction false} AllInside(txids: seq<Txid>, chosen: set<Txid>)
    requires Elements(txids) <= chosen
    ensures Uncovered(txids, chosen) == []
  {
    if txids != [] {
      assert txids[0] in Elements(txids);
      assert Elements(txids[1..]) <= Elements(txids);
      AllInside(txids[1..], chosen);
    }
  }

  lemma MinedPartTxids(block: MinedBlock, chunk: Chunk)
    ensures Txids(MinedPart(block, chunk)) == Within(chunk.txids, block.Members())
  {
    if Uncovered(chunk.txids, block.Members()) == [] {
      NothingLeft(chunk.txids, block.Members());
      assert Txids([chunk]) == chunk.txids + Txids([chunk][1..]);
    } else if Within(chunk.txids, block.Members()) != [] {
      var part := SplitChunk(block, Within(chunk.txids, block.Members()));
      assert Txids([part]) == part.txids + Txids([part][1..]);
    }
  }

  lemma TxidsSnoc(rest: seq<Chunk>, last: Chunk)
    ensures Txids(rest + [last]) == Txids(rest) + last.txids
  {
    TxidsConcat(rest, [last]);
    assert Txids([last]) == last.txids + Txids([last][1..]);
  }

  lemma TrimSnoc(block: MinedBlock, rest: seq<Chunk>, last: Chunk)
    ensures MinedChunks(block, rest + [last]) == MinedChunks(block, rest) + MinedPart(block, last)
    ensures PendingTxids(block, rest + [last]) == PendingTxids(block, rest) + Uncovered(last.txids, block.Members())
  {
    assert (rest + [last])[..|rest|] == rest;
  }

  /** A trim loses and invents nothing: mined and pending are the two sides of one sieve, in mining order. */
  lemma {:induction false} TrimConserves(block: MinedBlock, chunks: seq<Chunk>)
    ensures Txids(MinedChunks(block, chunks)) == Within(Txids(chunks), block.Members())
    ensures PendingTxids(block, chunks) == Uncovered(Txids(chunks), block.Members())
  {
    if chunks != [] {
      var rest, last := chunks[..|chunks| - 1], chunks[|chunks| - 1];
      assert chunks == rest + [last];
      TrimConserves(block, rest);
      TrimExtends(block, rest, last);
    }
  }

  lemma TrimExtends(block: MinedBlock, rest: seq<Chunk>, last: Chunk)
    requires Txids(MinedChunks(block, rest)) == Within(Txids(rest), block.Members())
    requires PendingTxids(block, rest) == Uncovered(Txids(rest), block.Members())
    ensures Txids(MinedChunks(block, rest + [last])) == Within(Txids(rest + [last]), block.Members())
    ensures PendingTxids(block, rest + [last]) == Uncovered(Txids(rest + [last]), block.Members())
  {
    TrimSnoc(block, rest, last);
    TxidsSnoc(rest, last);
    TxidsConcat(MinedChunks(block, rest), MinedPart(block, last));
    MinedPartTxids(block, last);
    SieveConcat(Txids(rest), last.txids, block.Members());
  }

  /** A chunk the block mined whole is kept as the node valued it. */
  lemma {:induction false} WholeChunksKept(block: MinedBlock, chunks: seq<Chunk>, i: int)
    requires 0 <= i < |chunks| && Elements(chunks[i].txids) <= block.Members()
    ensures chunks[i] in MinedChunks(block, chunks)
  {
    if i == |chunks| - 1 {
      AllInside(chunks[i].txids, block.Members());
    } else {
      WholeChunksKept(block, chunks[..|chunks| - 1], i);
    }
  }

  // ------------------------------------------------------------------ valuations

  /** Chunks valued as the sum of their members, and a block that values its members alike. */
  ghost predicate Consistent(block: MinedBlock, chunks: seq<Chunk>, fees: map<Txid, int>, weights: map<Txid, int>) {
    && (forall i :: 0 <= i < |chunks| ==>
          chunks[i].fee == SumOf(chunks[i].txids, fees) && chunks[i].weight == SumOf(chunks[i].txids, weights))
    && (forall t :: t in block.Members() ==>
          Worth(t, block.fees) == Worth(t, fees) && Worth(t, block.weights) == Worth(t, weights))
  }

  lemma {:induction false} SumOfConcat(a: seq<Txid>, b: seq<Txid>, values: map<Txid, int>)
    ensures SumOf(a + b, values) == SumOf(a, values) + SumOf(b, values)
  {
    if b == [] {
      assert a + b == a;
    } else {
      var n := |b| - 1;
      assert (a + b)[..|a| + n] == a + b[..n];
      SumOfConcat(a, b[..n], values);
    }
  }

  /** A sieve splits a sum, and the chosen side may be valued by anyone who agrees on it. */
  lemma {:induction false} SieveSums(txids: seq<Txid>, chosen: set<Txid>, values: map<Txid, int>, other: map<Txid, int>)
    requires forall t :: t in chosen ==> Worth(t, other) == Worth(t, values)
    ensures SumOf(Within(txids, chosen), other) + SumOf(Uncovered(txids, chosen), values) == SumOf(txids, values)
  {
    if txids != [] {
      var t, rest := txids[0], txids[1..];
      SieveSums(rest, chosen, values, other);
      assert txids == [t] + rest;
      SumOfConcat([t], rest, values);
      SumOfConcat([t], Within(rest, chosen), other);
      SumOfConcat([t], Uncovered(rest, chosen), values);
      assert SumOf([t], values) == Worth(t, values) && SumOf([t], other) == Worth(t, other);
    }
  }

  lemma {:induction false} TotalsConcat(a: seq<Chunk>, b: seq<Chunk>)
    ensures FeeOf(a + b) == FeeOf(a) + FeeOf(b) && WeightOf(a + b) == WeightOf(a) + WeightOf(b)
  {
    if a == [] {
      assert a + b == b;
    } else {
      assert (a + b)[0] == a[0] && (a + b)[1..] == a[1..] + b;
      TotalsConcat(a[1..], b);
    }
  }

  lemma OneTotal(chunk: Chunk)
    ensures FeeOf([chunk]) == chunk.fee && WeightOf([chunk]) == chunk.weight
  {
    assert [chunk][1..] == [];
  }

  lemma PartConservesValue(block: MinedBlock, chunk: Chunk, fees: map<Txid, int>, weights: map<Txid, int>)
    requires Consistent(block, [chunk], fees, weights)
    ensures var part, left := MinedPart(block, chunk), Uncovered(chunk.txids, block.Members());
            FeeOf(part) + SumOf(left, fees) == chunk.fee && WeightOf(part) + SumOf(left, weights) == chunk.weight
  {
    var gone := block.Members();
    assert [chunk][0] == chunk;
    SieveSums(chunk.txids, gone, fees, block.fees);
    SieveSums(chunk.txids, gone, weights, block.weights);
    OneTotal(chunk);
    OneTotal(SplitChunk(block, Within(chunk.txids, gone)));
  }

  lemma PendingSums(block: MinedBlock, rest: seq<Chunk>, last: Chunk, values: map<Txid, int>)
    ensures SumOf(PendingTxids(block, rest + [last]), values)
         == SumOf(PendingTxids(block, rest), values) + SumOf(Uncovered(last.txids, block.Members()), values)
  {
    TrimSnoc(block, rest, last);
    SumOfConcat(PendingTxids(block, rest), Uncovered(last.txids, block.Members()), values);
  }

  /** Fees and weights are conserved: what a trim keeps and what stays pending add up to the cluster. */
  lemma {:induction false} TrimConservesValue(block: MinedBlock, chunks: seq<Chunk>, fees: map<Txid, int>,
      weights: map<Txid, int>)
    requires Consistent(block, chunks, fees, weights)
    ensures Conserved(block, chunks, fees, weights)
  {
    if chunks != [] {
      var rest, last := chunks[..|chunks| - 1], chunks[|chunks| - 1];
      assert chunks == rest + [last];
      TrimConservesValue(block, rest, fees, weights);
      assert Consistent(block, [last], fees, weights);
      ValueExtends(block, rest, last, fees, weights);
    }
  }

  ghost predicate Conserved(block: MinedBlock, chunks: seq<Chunk>, fees: map<Txid, int>, weights: map<Txid, int>) {
    && FeeOf(MinedChunks(block, chunks)) + SumOf(PendingTxids(block, chunks), fees) == FeeOf(chunks)
    && WeightOf(MinedChunks(block, chunks)) + SumOf(PendingTxids(block, chunks), weights) == WeightOf(chunks)
  }

  lemma ValueExtends(block: MinedBlock, rest: seq<Chunk>, last: Chunk, fees: map<Txid, int>, weights: map<Txid, int>)
    requires Conserved(block, rest, fees, weights) && Consistent(block, [last], fees, weights)
    ensures Conserved(block, rest + [last], fees, weights)
  {
    PartConservesValue(block, last, fees, weights);
    PendingSums(block, rest, last, fees);
    PendingSums(block, rest, last, weights);
    TrimSnoc(block, rest, last);
    TotalsConcat(MinedChunks(block, rest), MinedPart(block, last));
    TotalsConcat(rest, [last]);
    OneTotal(last);
  }

  // ------------------------------------------------------------ rows to blocks

  /** A stored transaction joined with the block that mined it. */
  datatype MinedRow = MinedRow(txid: Txid, mined: MinedAs)

  /** The rows of exactly the mined txids among `wanted`, one each. */
  ghost predicate RowsOf(rows: seq<MinedRow>, wanted: set<Txid>, mined: map<Txid, MinedAs>) {
    && (forall i :: 0 <= i < |rows| ==>
          rows[i].txid in wanted && rows[i].txid in mined && rows[i].mined == mined[rows[i].txid])
    && (forall t :: t in wanted && t in mined ==> exists i :: 0 <= i < |rows| && rows[i].txid == t)
    && OneRowEach(rows)
  }

  predicate Before(a: BlockKey, b: BlockKey) {
    a.height < b.height || (a.height == b.height && a.hash < b.hash)
  }

  function KeysOf(rows: seq<MinedRow>): set<BlockKey> {
    set r | r in rows :: r.mined.block
  }

  /** Adds a row to its block's group, which the first row of a block opens. */
  function AddRow(groups: map<BlockKey, MinedBlock>, r: MinedRow): map<BlockKey, MinedBlock> {
    var key := r.mined.block;
    groups[key := AddTo(if key in groups then groups[key] else MinedBlock([], map[], map[], r.mined.at), r)]
  }

  function AddTo(g: MinedBlock, r: MinedRow): MinedBlock {
    MinedBlock(
      g.txids + [r.txid],
      if r.mined.fee.Some? then g.fees[r.txid := r.mined.fee.value] else g.fees,
      g.weights[r.txid := r.mined.weight],
      g.at)
  }

  function Grouped(rows: seq<MinedRow>): map<BlockKey, MinedBlock> {
    if rows == [] then map[] else AddRow(Grouped(rows[..|rows| - 1]), rows[|rows| - 1])
  }

  predicate HasRow(rows: seq<MinedRow>, key: BlockKey, t: Txid) {
    exists i :: 0 <= i < |rows| && rows[i].mined.block == key && rows[i].txid == t
  }

  /** Each row's txid lands in its own block's group, and nothing else does. */
  lemma {:induction false} GroupedHolds(rows: seq<MinedRow>, key: BlockKey, t: Txid)
    ensures key in Grouped(rows) <==> key in KeysOf(rows)
    ensures key in Grouped(rows) ==> (t in Grouped(rows)[key].Members() <==> HasRow(rows, key, t))
    ensures HasRow(rows, key, t) ==> key in KeysOf(rows)
  {
    if rows != [] {
      var n := |rows| - 1;
      var rest, last := rows[..n], rows[n];
      GroupedHolds(rest, key, t);
      assert rows == rest + [last];
      KeysOfSnoc(rest, last);
      HasRowSnoc(rest, last, key, t);
    }
  }

  /** The group values the row as the row does. */
  ghost predicate Values(g: MinedBlock, r: MinedRow) {
    && r.txid in g.weights && g.weights[r.txid] == r.mined.weight
    && (if r.mined.fee.Some? then r.txid in g.fees && g.fees[r.txid] == r.mined.fee.value else r.txid !in g.fees)
  }

  /** The group values its rows as they are and values nobody else. */
  ghost predicate Faithful(g: MinedBlock, rows: seq<MinedRow>, key: BlockKey) {
    && (forall r :: r in rows && r.mined.block == key ==> Values(g, r))
    && (forall t :: t in g.fees || t in g.weights ==> HasRow(rows, key, t))
  }

  /** Faithful, with the time of one of its rows. */
  ghost predicate Valued(g: MinedBlock, rows: seq<MinedRow>, key: BlockKey) {
    Faithful(g, rows, key) && exists r :: r in rows && r.mined.block == key && r.mined.at == g.at
  }

  lemma AddedFaithful(g: MinedBlock, rows: seq<MinedRow>, key: BlockKey, last: MinedRow)
    requires Faithful(g, rows, key) && forall r :: r in rows ==> r.txid != last.txid
    ensures Faithful(if last.mined.block == key then AddTo(g, last) else g, rows + [last], key)
  {
    var after := if last.mined.block == key then AddTo(g, last) else g;
    forall t | t in after.fees || t in after.weights ensures HasRow(rows + [last], key, t) {
      HasRowSnoc(rows, last, key, t);
    }
    assert forall i :: 0 <= i < |rows| ==> rows[i] in rows;
    assert !HasRow(rows, key, last.txid);
  }

  /** With one row per txid, every group is valued by its rows. */
  lemma {:induction false} GroupedValues(rows: seq<MinedRow>, key: BlockKey)
    requires OneRowEach(rows) && key in Grouped(rows)
    ensures Valued(Grouped(rows)[key], rows, key)
    decreases |rows|
  {
    var n := |rows| - 1;
    var rest, last := rows[..n], rows[n];
    assert rows == rest + [last] && last in rows;
    assert OneRowEach(rest);
    var g := if key in Grouped(rest) then Grouped(rest)[key] else MinedBlock([], map[], map[], last.mined.at);
    if key in Grouped(rest) {
      GroupedValues(rest, key);
    } else {
      forall r | r in rest ensures r.mined.block != key {
        GroupedHolds(rest, key, r.txid);
        assert r.mined.block in KeysOf(rest);
      }
    }
    AddedFaithful(g, rest, key, last);
  }

  ghost predicate OneRowEach(rows: seq<MinedRow>) {
    forall i, j :: 0 <= i < j < |rows| ==> rows[i].txid != rows[j].txid
  }

  lemma KeysOfSnoc(rest: seq<MinedRow>, last: MinedRow)
    ensures KeysOf(rest + [last]) == KeysOf(rest) + {last.mined.block}
  {
    assert last in rest + [last];
    assert forall r :: r in rest ==> r in rest + [last];
    assert forall r :: r in rest + [last] ==> r in rest || r == last;
  }

  lemma HasRowSnoc(rest: seq<MinedRow>, last: MinedRow, key: BlockKey, t: Txid)
    ensures HasRow(rest + [last], key, t) <==> HasRow(rest, key, t) || (last.mined.block == key && last.txid == t)
  {
    var rows := rest + [last];
    if i :| 0 <= i < |rest| && rest[i].mined.block == key && rest[i].txid == t {
      assert rows[i] == rest[i];
    }
    if last.mined.block == key && last.txid == t {
      assert rows[|rest|] == last;
    }
  }

  lemma BeforeTotal(a: BlockKey, b: BlockKey)
    ensures a == b || Before(a, b) || Before(b, a)
  {
    assert a == BlockKey(a.height, a.hash) && b == BlockKey(b.height, b.hash);
  }

  method FirstKey(keys: set<BlockKey>) returns (first: BlockKey)
    requires keys != {}
    ensures first in keys && forall k :: k in keys && k != first ==> Before(first, k)
  {
    first := PickOne(keys);
    var left := keys - {first};
    while left != {}
      invariant left <= keys && first in keys
      invariant forall x :: x in keys && x !in left && x != first ==> Before(first, x)
      decreases |left|
    {
      var k := PickOne(left);
      BeforeTotal(k, first);
      if Before(k, first) {
        first := k;
      }
      left := left - {k};
    }
  }

  method Ascending(keys: set<BlockKey>) returns (sorted: seq<BlockKey>)
    ensures Elements(sorted) == keys
    ensures forall i, j :: 0 <= i < j < |sorted| ==> Before(sorted[i], sorted[j])
  {
    sorted := [];
    var left := keys;
    while left != {}
      invariant forall x :: x in keys <==> x in left || x in sorted
      invariant forall i, j :: 0 <= i < j < |sorted| ==> Before(sorted[i], sorted[j])
      invariant forall x, k :: x in sorted && k in left ==> Before(x, k)
      decreases |left|
    {
      var first := FirstKey(left);
      sorted, left := sorted + [first], left - {first};
    }
  }

  /** The mined rows as blocks, in height order. */
  method ByBlock(rows: seq<MinedRow>) returns (blocks: seq<MinedBlock>, keys: seq<BlockKey>)
    ensures |keys| == |blocks| && Elements(keys) == KeysOf(rows)
    ensures forall i, j :: 0 <= i < j < |keys| ==> Before(keys[i], keys[j])
    ensures forall i, t :: 0 <= i < |keys| ==> (t in blocks[i].Members() <==> HasRow(rows, keys[i], t))
    ensures OneRowEach(rows) ==> forall i :: 0 <= i < |keys| ==> Valued(blocks[i], rows, keys[i])
  {
    var groups: map<BlockKey, MinedBlock> := map[];
    for k := 0 to |rows|
      invariant groups == Grouped(rows[..k])
    {
      assert rows[..k + 1][..k] == rows[..k];
      groups := AddRow(groups, rows[k]);
    }
    assert rows[..|rows|] == rows;
    keys := Ascending(groups.Keys);
    assert forall i :: 0 <= i < |keys| ==> keys[i] in Elements(keys);
    blocks := seq(|keys|, i requires 0 <= i < |keys| => groups[keys[i]]);
    GroupsRight(rows);
  }

  /** The groups have a key for every block, hold exactly its rows, and are valued by them. */
  lemma GroupsRight(rows: seq<MinedRow>)
    ensures Grouped(rows).Keys == KeysOf(rows)
    ensures forall key, t :: key in Grouped(rows) ==> (t in Grouped(rows)[key].Members() <==> HasRow(rows, key, t))
    ensures OneRowEach(rows) ==> forall key :: key in Grouped(rows) ==> Valued(Grouped(rows)[key], rows, key)
  {
    forall key, t
      ensures key in Grouped(rows) <==> key in KeysOf(rows)
      ensures key in Grouped(rows) ==> (t in Grouped(rows)[key].Members() <==> HasRow(rows, key, t))
    {
      GroupedHolds(rows, key, t);
    }
    forall key ensures key in Grouped(rows).Keys <==> key in KeysOf(rows) {
      GroupedHolds(rows, key, Txid(""));
    }
    if OneRowEach(rows) {
      forall key | key in Grouped(rows) ensures Valued(Grouped(rows)[key], rows, key) {
        GroupedValues(rows, key);
      }
    }
  }
}
