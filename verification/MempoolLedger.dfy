/**
 The ledger: which txids are in our mempool, and the bounded journal of the
 transitions the database has not seen yet.
 */
module MempoolLedger {
  import opened Common

  datatype Direction = Add | Remove

  datatype JournalEntry = JournalEntry(txid: Txid, direction: Direction, observedAt: int)

  const JOURNAL_CAP := 250_000

  datatype Ledger = Ledger(live: set<Txid>, journal: seq<JournalEntry>, degraded: bool)

  // ------------------------------------------------------------------ folding

  function Step(image: set<Txid>, e: JournalEntry): set<Txid> {
    if e.direction == Add then image + {e.txid} else image - {e.txid}
  }

  /** The residency an image turns into once `entries` have been applied, oldest first. */
  function Fold(image: set<Txid>, entries: seq<JournalEntry>): set<Txid> {
    if entries == [] then image else Step(Fold(image, entries[..|entries| - 1]), entries[|entries| - 1])
  }

  predicate Mentions(entries: seq<JournalEntry>, t: Txid) {
    exists i :: 0 <= i < |entries| && entries[i].txid == t
  }

  lemma FoldSnoc(image: set<Txid>, entries: seq<JournalEntry>, e: JournalEntry)
    ensures Fold(image, entries + [e]) == Step(Fold(image, entries), e)
  {
    assert (entries + [e])[..|entries|] == entries;
  }

  lemma {:induction false} FoldConcat(image: set<Txid>, a: seq<JournalEntry>, b: seq<JournalEntry>)
    ensures Fold(image, a + b) == Fold(Fold(image, a), b)
  {
    if b == [] {
      assert a + b == a;
    } else {
      var rest := b[..|b| - 1];
      assert a + b == (a + rest) + [b[|b| - 1]];
      FoldConcat(image, a, rest);
      FoldSnoc(image, a + rest, b[|b| - 1]);
    }
  }

  /** A txid the entries mention ends up as its last entry says; any other keeps its place in the image. */
  lemma {:induction false} FoldPointwise(image: set<Txid>, other: set<Txid>, entries: seq<JournalEntry>, t: Txid)
    ensures Mentions(entries, t) ==> (t in Fold(image, entries) <==> t in Fold(other, entries))
    ensures !Mentions(entries, t) ==> (t in Fold(image, entries) <==> t in image)
  {
    if entries != [] {
      var n := |entries| - 1;
      FoldPointwise(image, other, entries[..n], t);
      if Mentions(entries, t) && entries[n].txid != t {
        var i :| 0 <= i < |entries| && entries[i].txid == t;
        assert entries[..n][i].txid == t;
      }
      if Mentions(entries[..n], t) {
        var i :| 0 <= i < n && entries[..n][i].txid == t;
        assert entries[i].txid == t;
      }
    }
  }

  /** Applying a batch again, right after it was applied, changes nothing. */
  lemma FoldTwice(image: set<Txid>, batch: seq<JournalEntry>)
    ensures Fold(Fold(image, batch), batch) == Fold(image, batch)
  {
    forall t
      ensures t in Fold(Fold(image, batch), batch) <==> t in Fold(image, batch)
    {
      FoldPointwise(Fold(image, batch), image, batch, t);
      FoldPointwise(image, image, batch, t);
    }
  }

  // ------------------------------------------------------------------ pushing

  function Push(l: Ledger, e: JournalEntry): Ledger {
    if |l.journal| >= JOURNAL_CAP then l.(degraded := true) else l.(journal := l.journal + [e])
  }

  function PushAll(l: Ledger, es: seq<JournalEntry>): Ledger {
    if es == [] then l else Push(PushAll(l, es[..|es| - 1]), es[|es| - 1])
  }

  /** What fits is appended in order; the flag records whether anything was dropped. */
  lemma {:induction false} PushAllAppends(l: Ledger, es: seq<JournalEntry>)
    requires |l.journal| <= JOURNAL_CAP
    ensures var after := PushAll(l, es);
            && after.live == l.live
            && l.journal <= after.journal <= l.journal + es
            && |after.journal| <= JOURNAL_CAP
            && (|l.journal| + |es| <= JOURNAL_CAP ==> after.journal == l.journal + es && after.degraded == l.degraded)
            && (|l.journal| + |es| > JOURNAL_CAP ==> after.degraded && |after.journal| == JOURNAL_CAP)
  {
    if es != [] {
      var rest := es[..|es| - 1];
      PushAllAppends(l, rest);
      assert l.journal + es == l.journal + rest + [es[|es| - 1]];
    } else {
      assert l.journal + es == l.journal;
    }
  }

  function Entries(txids: seq<Txid>, direction: Direction, at: int): seq<JournalEntry> {
    seq(|txids|, i requires 0 <= i < |txids| => JournalEntry(txids[i], direction, at))
  }

  lemma {:induction false} FoldEntries(image: set<Txid>, txids: seq<Txid>, direction: Direction, at: int)
    ensures Fold(image, Entries(txids, direction, at))
         == if direction == Add then image + Elements(txids) else image - Elements(txids)
  {
    if txids != [] {
      var rest := txids[..|txids| - 1];
      FoldEntries(image, rest, direction, at);
      assert Entries(txids, direction, at)[..|txids| - 1] == Entries(rest, direction, at);
      assert txids == rest + [txids[|txids| - 1]];
    }
  }

  // ---------------------------------------------------------------- producers

  function PresentOne(l: Ledger, t: Txid, at: int): Ledger {
    if t in l.live then l else Push(l.(live := l.live + {t}), JournalEntry(t, Add, at))
  }

  function AssertPresent(l: Ledger, txids: seq<Txid>, at: int): Ledger {
    if txids == [] then l else PresentOne(AssertPresent(l, txids[..|txids| - 1], at), txids[|txids| - 1], at)
  }

  function AbsentOne(l: Ledger, t: Txid, at: int): Ledger {
    if t !in l.live then l else Push(l.(live := l.live - {t}), JournalEntry(t, Remove, at))
  }

  function AssertAbsent(l: Ledger, txids: seq<Txid>, at: int): Ledger {
    if txids == [] then l else AbsentOne(AssertAbsent(l, txids[..|txids| - 1], at), txids[|txids| - 1], at)
  }

  /** Where `t` first stands in `s`. */
  function FirstAt(s: seq<Txid>, t: Txid): (i: nat)
    requires t in s
    ensures i < |s| && s[i] == t && t !in s[..i]
  {
    var n := |s| - 1;
    if t in s[..n] then
      var i := FirstAt(s[..n], t);
      assert s[..n][..i] == s[..i];
      i
    else n
  }

  /** Exactly the `moving` txids, each once, in the order the list first names them. */
  ghost predicate Movers(txids: seq<Txid>, moving: set<Txid>, movers: seq<Txid>) {
    && Elements(movers) == moving && moving <= Elements(txids)
    && (forall i :: 0 <= i < |movers| ==> movers[i] in txids)
    && (forall i, j :: 0 <= i < j < |movers| ==> FirstAt(txids, movers[i]) < FirstAt(txids, movers[j]))
  }

  /** The movers change sides in `live`; each is journalled once, dated `at`, as far as the journal has room. */
  ghost predicate Moves(l: Ledger, after: Ledger, movers: seq<Txid>, direction: Direction, at: int) {
    && after.live == (if direction == Add then l.live + Elements(movers) else l.live - Elements(movers))
    && exists entries :: Dated(entries, movers, direction, at) && after == PushAll(l, entries).(live := after.live)
  }

  /** One entry per mover, in order. */
  ghost predicate Dated(entries: seq<JournalEntry>, movers: seq<Txid>, direction: Direction, at: int) {
    && |entries| == |movers|
    && forall i :: 0 <= i < |movers| ==> entries[i] == JournalEntry(movers[i], direction, at)
  }

  /** Whoever of the listed was missing joins `live` and is journalled, once and in list order. */
  ghost predicate Admits(l: Ledger, after: Ledger, txids: seq<Txid>, at: int) {
    && after.live == l.live + Elements(txids)
    && exists movers :: Movers(txids, Elements(txids) - l.live, movers) && Moves(l, after, movers, Add, at)
  }

  /** Whoever of the listed was there leaves `live` and is journalled, once and in list order. */
  ghost predicate Dismisses(l: Ledger, after: Ledger, txids: seq<Txid>, at: int) {
    && after.live == l.live - Elements(txids)
    && exists movers :: Movers(txids, Elements(txids) * l.live, movers) && Moves(l, after, movers, Remove, at)
  }

  lemma FirstAtGrows(rest: seq<Txid>, t: Txid, x: Txid)
    requires x in rest
    ensures x in rest + [t] && FirstAt(rest + [t], x) == FirstAt(rest, x)
  {
    assert (rest + [t])[..|rest|] == rest;
  }

  lemma MoversGrow(rest: seq<Txid>, t: Txid, moving: set<Txid>, movers: seq<Txid>)
    requires Movers(rest, moving, movers)
    ensures Movers(rest + [t], moving, movers)
    ensures t !in rest ==> Movers(rest + [t], moving + {t}, movers + [t])
  {
    var all := rest + [t];
    assert Elements(all) == Elements(rest) + {t};
    forall i | 0 <= i < |movers| ensures FirstAt(rest, movers[i]) == FirstAt(all, movers[i]) < |rest| {
      FirstAtGrows(rest, t, movers[i]);
    }
    if t !in rest {
      assert all[..|rest|] == rest && FirstAt(all, t) == |rest|;
      assert Elements(movers + [t]) == moving + {t};
    }
  }

  lemma MovesOn(l: Ledger, mid: Ledger, movers: seq<Txid>, t: Txid, direction: Direction, at: int, live: set<Txid>)
    requires Moves(l, mid, movers, direction, at)
    requires live == if direction == Add then mid.live + {t} else mid.live - {t}
    ensures Moves(l, Push(mid.(live := live), JournalEntry(t, direction, at)), movers + [t], direction, at)
  {
    var entries :| Dated(entries, movers, direction, at) && mid == PushAll(l, entries).(live := mid.live);
    var e := JournalEntry(t, direction, at);
    DatedOneMore(entries, movers, direction, at, t);
    PushOneMore(l, entries, e);
    MovedOneMore(movers, t);
    LiveApart(PushAll(l, entries), mid.live, live, e);
  }

  lemma DatedOneMore(entries: seq<JournalEntry>, movers: seq<Txid>, direction: Direction, at: int, t: Txid)
    requires Dated(entries, movers, direction, at)
    ensures Dated(entries + [JournalEntry(t, direction, at)], movers + [t], direction, at)
  {
  }

  lemma MovedOneMore(movers: seq<Txid>, t: Txid)
    ensures Elements(movers + [t]) == Elements(movers) + {t}
  {
  }

  /** Pushing looks only at the journal. */
  lemma LiveApart(l: Ledger, before: set<Txid>, live: set<Txid>, e: JournalEntry)
    ensures Push(l.(live := before).(live := live), e) == Push(l, e).(live := live)
  {
  }

  lemma PushOneMore(l: Ledger, es: seq<JournalEntry>, e: JournalEntry)
    ensures PushAll(l, es + [e]) == Push(PushAll(l, es), e)
  {
    assert (es + [e])[..|es|] == es;
  }

  lemma NobodyMoves(l: Ledger, direction: Direction, at: int)
    ensures Movers([], {}, []) && Moves(l, l, [], direction, at)
  {
    var none: seq<JournalEntry> := [];
    assert l == PushAll(l, none).(live := l.live);
  }

  /** Asserting presence admits exactly those who were missing, each once. */
  lemma {:induction false} PresentMoves(l: Ledger, txids: seq<Txid>, at: int) returns (movers: seq<Txid>)
    ensures Movers(txids, Elements(txids) - l.live, movers)
    ensures Moves(l, AssertPresent(l, txids, at), movers, Add, at)
    ensures Admits(l, AssertPresent(l, txids, at), txids, at)
  {
    if txids == [] {
      NobodyMoves(l, Add, at);
      movers := [];
    } else {
      var rest, t := txids[..|txids| - 1], txids[|txids| - 1];
      assert txids == rest + [t] && Elements(txids) == Elements(rest) + {t};
      movers := PresentMoves(l, rest, at);
      var mid := AssertPresent(l, rest, at);
      MoversGrow(rest, t, Elements(rest) - l.live, movers);
      if t in mid.live {
        assert Elements(txids) - l.live == Elements(rest) - l.live;
      } else {
        assert Elements(txids) - l.live == Elements(rest) - l.live + {t};
        MovesOn(l, mid, movers, t, Add, at, mid.live + {t});
        movers := movers + [t];
      }
    }
  }

  /** Asserting absence dismisses exactly those who were there, each once. */
  lemma {:induction false} AbsentMoves(l: Ledger, txids: seq<Txid>, at: int) returns (movers: seq<Txid>)
    ensures Movers(txids, Elements(txids) * l.live, movers)
    ensures Moves(l, AssertAbsent(l, txids, at), movers, Remove, at)
    ensures Dismisses(l, AssertAbsent(l, txids, at), txids, at)
  {
    if txids == [] {
      NobodyMoves(l, Remove, at);
      movers := [];
    } else {
      var rest, t := txids[..|txids| - 1], txids[|txids| - 1];
      assert txids == rest + [t] && Elements(txids) == Elements(rest) + {t};
      movers := AbsentMoves(l, rest, at);
      var mid := AssertAbsent(l, rest, at);
      MoversGrow(rest, t, Elements(rest) * l.live, movers);
      if t !in mid.live {
        assert Elements(txids) * l.live == Elements(rest) * l.live;
      } else {
        assert Elements(txids) * l.live == Elements(rest) * l.live + {t};
        MovesOn(l, mid, movers, t, Remove, at, mid.live - {t});
        movers := movers + [t];
      }
    }
  }

  /** The arrivals in some order, then the departures in some order. */
  ghost predicate DiffParts(from: set<Txid>, to: set<Txid>, adds: seq<Txid>, removes: seq<Txid>) {
    && Elements(adds) == to - from && Distinct(adds)
    && Elements(removes) == from - to && Distinct(removes)
  }

  function DiffEntries(adds: seq<Txid>, removes: seq<Txid>, at: int): seq<JournalEntry> {
    Entries(adds, Add, at) + Entries(removes, Remove, at)
  }

  /** Pushes that turn residency `from` into `to`. */
  ghost predicate IsDiff(from: set<Txid>, to: set<Txid>, diff: seq<JournalEntry>, at: int) {
    exists adds, removes :: DiffParts(from, to, adds, removes) && diff == DiffEntries(adds, removes, at)
  }

  /** A difference spells out every arrival and then every departure, each once and dated `at`. */
  lemma DiffSpells(from: set<Txid>, to: set<Txid>, diff: seq<JournalEntry>, at: int)
    requires IsDiff(from, to, diff, at)
    ensures |diff| == |to - from| + |from - to|
    ensures forall i :: 0 <= i < |diff| ==>
              && diff[i].observedAt == at
              && (diff[i].direction == Add <==> i < |to - from|)
              && diff[i].txid in (if i < |to - from| then to - from else from - to)
    ensures forall i, j :: 0 <= i < j < |diff| ==> diff[i].txid != diff[j].txid
  {
    var adds, removes :| DiffParts(from, to, adds, removes) && diff == DiffEntries(adds, removes, at);
    DistinctSize(adds);
    DistinctSize(removes);
    forall i | 0 <= i < |diff| ensures diff[i].txid == if i < |adds| then adds[i] else removes[i - |adds|] {
    }
    assert forall i :: 0 <= i < |adds| ==> adds[i] in Elements(adds);
    assert forall i :: 0 <= i < |removes| ==> removes[i] in Elements(removes);
  }

  lemma DiffFolds(from: set<Txid>, to: set<Txid>, diff: seq<JournalEntry>, at: int)
    requires IsDiff(from, to, diff, at)
    ensures Fold(from, diff) == to
  {
    var adds, removes :| DiffParts(from, to, adds, removes) && diff == DiffEntries(adds, removes, at);
    FoldConcat(from, Entries(adds, Add, at), Entries(removes, Remove, at));
    FoldEntries(from, adds, Add, at);
    FoldEntries(from + Elements(adds), removes, Remove, at);
  }

  /** The full mempool replaces `live`, and the difference is queued. */
  ghost predicate Submits(l: Ledger, after: Ledger, txids: set<Txid>, at: int) {
    exists diff :: IsDiff(l.live, txids, diff, at) && after == PushAll(l, diff).(live := txids)
  }

  /** The gap between what the database will eventually hold and `live` is queued; the flag clears if it all fits. */
  ghost predicate Reconciles(l: Ledger, after: Ledger, dbImage: set<Txid>, at: int) {
    exists diff :: IsDiff(Fold(dbImage, l.journal), l.live, diff, at)
                   && after == (if |l.journal| + |diff| <= JOURNAL_CAP
                                then PushAll(l, diff).(degraded := false) else PushAll(l, diff))
  }

  // ---------------------------------------------------------------- net change

  /** Entry `i` flips membership when it is applied. */
  ghost predicate FlipsAt(image: set<Txid>, entries: seq<JournalEntry>, i: nat)
    requires i < |entries|
  {
    entries[i].direction == Add <==> entries[i].txid !in Fold(image, entries[..i])
  }

  ghost predicate Flips(image: set<Txid>, entries: seq<JournalEntry>) {
    forall i :: 0 <= i < |entries| ==> FlipsAt(image, entries, i)
  }

  lemma FoldAcross(image: set<Txid>, a: seq<JournalEntry>, b: seq<JournalEntry>, j: nat)
    requires j < |b|
    ensures FlipsAt(image, a + b, |a| + j) <==> FlipsAt(Fold(image, a), b, j)
  {
    assert (a + b)[..|a| + j] == a + b[..j];
    FoldConcat(image, a, b[..j]);
  }

  lemma FlipsPrefix(image: set<Txid>, a: seq<JournalEntry>, b: seq<JournalEntry>, i: nat)
    requires i < |a|
    ensures FlipsAt(image, a + b, i) <==> FlipsAt(image, a, i)
  {
    assert (a + b)[..i] == a[..i];
  }

  /** A sequence flips exactly when its first part does, and its second after the first. */
  lemma FlipsConcat(image: set<Txid>, a: seq<JournalEntry>, b: seq<JournalEntry>)
    ensures Flips(image, a + b) <==> Flips(image, a) && Flips(Fold(image, a), b)
  {
    forall i | 0 <= i < |a| ensures FlipsAt(image, a + b, i) <==> FlipsAt(image, a, i) {
      FlipsPrefix(image, a, b, i);
    }
    forall j | 0 <= j < |b| ensures FlipsAt(image, a + b, |a| + j) <==> FlipsAt(Fold(image, a), b, j) {
      FoldAcross(image, a, b, j);
    }
    if Flips(image, a) && Flips(Fold(image, a), b) {
      forall i | 0 <= i < |a + b| ensures FlipsAt(image, a + b, i) {
        if |a| <= i {
          assert FlipsAt(Fold(image, a), b, i - |a|);
        }
      }
    }
  }

  lemma FlipsSnoc(image: set<Txid>, entries: seq<JournalEntry>, e: JournalEntry)
    requires Flips(image, entries)
    requires e.direction == Add <==> e.txid !in Fold(image, entries)
    ensures Flips(image, entries + [e])
  {
    FlipsOne(Fold(image, entries), e);
    FlipsConcat(image, entries, [e]);
  }

  lemma FlipsOne(image: set<Txid>, e: JournalEntry)
    ensures Flips(image, [e]) <==> (e.direction == Add <==> e.txid !in image)
  {
    assert [e][..0] == [];
    assert FlipsAt(image, [e], 0) <==> (e.direction == Add <==> e.txid !in image);
  }

  lemma FlipsSplit(image: set<Txid>, a: seq<JournalEntry>, b: seq<JournalEntry>)
    requires Flips(image, a + b)
    ensures Flips(image, a) && Flips(Fold(image, a), b)
  {
    FlipsConcat(image, a, b);
  }

  /** The directions of a txid's first and last entries. */
  datatype Span = Span(first: Direction, last: Direction)

  function Spans(entries: seq<JournalEntry>): map<Txid, Span> {
    if entries == [] then map[]
    else
      var e, seen := entries[|entries| - 1], Spans(entries[..|entries| - 1]);
      seen[e.txid := Span(if e.txid in seen then seen[e.txid].first else e.direction, e.direction)]
  }

  function NetAdded(entries: seq<JournalEntry>): set<Txid> {
    set t | t in Spans(entries) && Spans(entries)[t] == Span(Add, Add)
  }

  function NetRemoved(entries: seq<JournalEntry>): set<Txid> {
    set t | t in Spans(entries) && Spans(entries)[t] == Span(Remove, Remove)
  }

  /** A txid's first entry tells whether it was in the image, its last whether it is in the result. */
  lemma {:induction false} SpansTell(image: set<Txid>, entries: seq<JournalEntry>, t: Txid)
    requires Flips(image, entries)
    ensures t in Spans(entries) ==>
              && (Spans(entries)[t].first == Add <==> t !in image)
              && (Spans(entries)[t].last == Add <==> t in Fold(image, entries))
    ensures t !in Spans(entries) ==> (t in Fold(image, entries) <==> t in image)
  {
    if entries != [] {
      var n := |entries| - 1;
      assert entries == entries[..n] + entries[n..];
      FlipsSplit(image, entries[..n], entries[n..]);
      SpansTell(image, entries[..n], t);
      assert entries[n..] == [entries[n]];
      FlipsOne(Fold(image, entries[..n]), entries[n]);
    }
  }

  /** Applying the net change to the pre-batch image is the same as folding the whole batch. */
  lemma NetDelta(image: set<Txid>, batch: seq<JournalEntry>)
    requires Flips(image, batch)
    ensures Fold(image, batch) == (image + NetAdded(batch)) - NetRemoved(batch)
    ensures NetAdded(batch) !! image
    ensures NetRemoved(batch) <= image
  {
    forall t
      ensures t in Fold(image, batch) <==> t in (image + NetAdded(batch)) - NetRemoved(batch)
      ensures t in NetAdded(batch) ==> t !in image
      ensures t in NetRemoved(batch) ==> t in image
    {
      SpansTell(image, batch, t);
    }
  }

  function Moving(entries: seq<JournalEntry>, direction: Direction): set<Txid> {
    set e | e in entries && e.direction == direction :: e.txid
  }

  /**
   What any batch tells the cluster resync: its removals cover everything that
   left, its additions everything that arrived, and whatever left and returned
   is among the additions.
   */
  lemma {:induction false} BatchCovers(image: set<Txid>, batch: seq<JournalEntry>)
    ensures image - Fold(image, batch) <= Moving(batch, Remove)
    ensures Fold(image, batch) - image <= Moving(batch, Add)
    ensures Moving(batch, Remove) * Fold(image, batch) <= Moving(batch, Add)
  {
    if batch != [] {
      var rest, e := batch[..|batch| - 1], batch[|batch| - 1];
      BatchCovers(image, rest);
      assert batch == rest + [e];
      assert forall d :: Moving(batch, d) == Moving(rest, d) + (if e.direction == d then {e.txid} else {}) by {
        forall d
          ensures Moving(batch, d) == Moving(rest, d) + (if e.direction == d then {e.txid} else {})
        {
          MovingSnoc(rest, e, d);
        }
      }
    }
  }

  lemma MovingSnoc(rest: seq<JournalEntry>, e: JournalEntry, d: Direction)
    ensures Moving(rest + [e], d) == Moving(rest, d) + (if e.direction == d then {e.txid} else {})
  {
    assert e in rest + [e];
    forall t
      ensures t in Moving(rest + [e], d) <==> t in Moving(rest, d) + (if e.direction == d then {e.txid} else {})
    {
      if t in Moving(rest + [e], d) {
        var x :| x in rest + [e] && x.direction == d && x.txid == t;
        assert x in rest || x == e;
      }
      if t in Moving(rest, d) {
        var x :| x in rest && x.direction == d && x.txid == t;
        assert x in rest + [e];
      }
    }
  }
}
