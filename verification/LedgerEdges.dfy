/**
 Where the ledger's image law stops: images that are not the database's own, a
 bootstrap over a journal that is not empty, the replay window, and subscribers
 who start from `live`. Each comes with the exact condition under which it holds.
 */
module LedgerEdges {
  import opened Common
  import opened MempoolLedger
  import opened FlushRun

  lemma FoldSameIff(image: set<Txid>, other: set<Txid>, entries: seq<JournalEntry>)
    ensures Fold(image, entries) == Fold(other, entries)
        <==> forall t :: !Mentions(entries, t) ==> (t in image <==> t in other)
  {
    forall t
      ensures (t in Fold(image, entries) <==> t in Fold(other, entries))
          <==> Mentions(entries, t) || (t in image <==> t in other)
    {
      FoldPointwise(image, other, entries, t);
      FoldPointwise(other, image, entries, t);
    }
  }

  /**
   A repair that fits the journal restores the image law against `base`, the
   residency the database really holds, exactly when the image it was given is
   right about every txid on which that image agrees with `live` and of which
   the pending journal says nothing.
   */
  lemma ReconcileExact(l: Ledger, after: Ledger, dbImage: set<Txid>, base: set<Txid>, at: int)
    requires |l.journal| <= JOURNAL_CAP && Reconciles(l, after, dbImage, at) && !after.degraded
    ensures Fold(base, after.journal) == after.live
        <==> forall t :: t !in Spans(l.journal) && (t in dbImage <==> t in l.live) ==> (t in base <==> t in dbImage)
  {
    var eventual := Fold(dbImage, l.journal);
    var diff :| && IsDiff(eventual, l.live, diff, at)
                && after == (if |l.journal| + |diff| <= JOURNAL_CAP
                             then PushAll(l, diff).(degraded := false) else PushAll(l, diff));
    PushAllAppends(l, diff);
    FoldConcat(base, l.journal, diff);
    DiffFolds(eventual, l.live, diff, at);
    forall t
      ensures (t in Fold(base, after.journal) <==> t in after.live)
          <==> (t !in Spans(l.journal) && (t in dbImage <==> t in l.live) ==> (t in base <==> t in dbImage))
    {
      LastTells(base, l.journal, t);
      LastTells(dbImage, l.journal, t);
      DiffMentions(eventual, l.live, diff, at, t);
      FoldPointwise(Fold(base, l.journal), eventual, diff, t);
      FoldPointwise(base, base, l.journal, t);
      FoldPointwise(dbImage, dbImage, l.journal, t);
    }
  }

  /**
   An image read before a batch was written and drained is too old: the flag clears, and the
   database keeps x for good.
   */
  lemma StaleImageMisleads(x: Txid, at: int)
    ensures var l := Ledger({}, [], true);
            var after := Ledger({}, [], false);
            // the batch that added x was persisted and drained after the image was read
            Reconciles(l, after, {}, at) && Fold({x}, after.journal) != after.live
  {
    var l := Ledger({}, [], true);
    assert DiffParts({}, {}, [], []);
    assert DiffEntries([], [], at) == [];
    assert IsDiff(Fold({}, l.journal), l.live, [], at);
  }

  /** Seeding with the persisted image and then submitting the node's mempool, over whatever the journal holds. */
  ghost predicate Bootstraps(l: Ledger, after: Ledger, persisted: set<Txid>, pool: set<Txid>, at: int) {
    Submits(l.(live := persisted), after, pool, at)
  }

  /** The last thing the journal says about a txid, if anything. */
  predicate LastSays(journal: seq<JournalEntry>, t: Txid, direction: Direction) {
    t in Spans(journal) && Spans(journal)[t].last == direction
  }

  lemma {:induction false} LastTells(image: set<Txid>, entries: seq<JournalEntry>, t: Txid)
    ensures Mentions(entries, t) <==> t in Spans(entries)
    ensures t in Spans(entries) ==> (t in Fold(image, entries) <==> LastSays(entries, t, Add))
  {
    if entries != [] {
      var n := |entries| - 1;
      LastTells(image, entries[..n], t);
      if Mentions(entries[..n], t) {
        var i :| 0 <= i < n && entries[..n][i].txid == t;
        assert entries[i].txid == t;
      }
      if Mentions(entries, t) && entries[n].txid != t {
        var i :| 0 <= i < |entries| && entries[i].txid == t;
        assert entries[..n][i].txid == t;
      }
    }
  }

  lemma DiffMentions(from: set<Txid>, to: set<Txid>, diff: seq<JournalEntry>, at: int, t: Txid)
    requires IsDiff(from, to, diff, at)
    ensures Mentions(diff, t) <==> (t in from) != (t in to)
  {
    var adds, removes :| DiffParts(from, to, adds, removes) && diff == DiffEntries(adds, removes, at);
    if t in Elements(adds) {
      var i :| 0 <= i < |adds| && adds[i] == t;
      assert diff[i].txid == t;
    }
    if t in Elements(removes) {
      var i :| 0 <= i < |removes| && removes[i] == t;
      assert diff[|adds| + i].txid == t;
    }
    if Mentions(diff, t) {
      var i :| 0 <= i < |diff| && diff[i].txid == t;
      if i < |adds| {
        assert adds[i] in Elements(adds);
      } else {
        assert removes[i - |adds|] in Elements(removes);
      }
    }
  }

  /**
   Bootstrap leaves the image law standing exactly when the journal it found
   does not contradict the node about a txid on which node and database agree.
   An empty journal always qualifies.
   */
  lemma BootstrapExact(l: Ledger, after: Ledger, persisted: set<Txid>, pool: set<Txid>, at: int)
    requires |l.journal| <= JOURNAL_CAP && Bootstraps(l, after, persisted, pool, at) && !after.degraded
    ensures Fold(persisted, after.journal) == after.live
        <==> forall t :: t in Spans(l.journal) && (t in persisted <==> t in pool) ==>
               (LastSays(l.journal, t, Add) <==> t in pool)
  {
    var seeded := l.(live := persisted);
    var diff :| IsDiff(persisted, pool, diff, at) && after == PushAll(seeded, diff).(live := pool);
    PushAllAppends(seeded, diff);
    FoldConcat(persisted, l.journal, diff);
    DiffFolds(persisted, pool, diff, at);
    forall t
      ensures (t in Fold(persisted, after.journal) <==> t in pool)
          <==> (t in Spans(l.journal) && (t in persisted <==> t in pool) ==>
              (LastSays(l.journal, t, Add) <==> t in pool))
    {
      LastTells(persisted, l.journal, t);
      DiffMentions(persisted, pool, diff, at, t);
      FoldPointwise(Fold(persisted, l.journal), persisted, diff, t);
      FoldPointwise(persisted, persisted, l.journal, t);
    }
  }

  /**
   The block sync that runs before the seed can journal an add; if the node has dropped that txid
   since, the law is broken.
   */
  lemma BootstrapOverJournalDiverges(x: Txid, at: int)
    ensures var l := Ledger({x}, [JournalEntry(x, Add, at)], false);
            var after := Ledger({}, [JournalEntry(x, Add, at)], false);
            Bootstraps(l, after, {}, {}, at) && Fold({}, after.journal) != after.live
  {
    assert DiffParts({}, {}, [], []);
    assert DiffEntries([], [], at) == [];
    assert IsDiff({}, {}, [], at);
    FoldSnoc({}, [], JournalEntry(x, Add, at));
    assert [] + [JournalEntry(x, Add, at)] == [JournalEntry(x, Add, at)];
  }

  // ------------------------------------------------------------- replay window

  /** The rows young enough for the replay, in row order. */
  function Window(rows: seq<JournalEntry>, cutoff: int): seq<JournalEntry> {
    if rows == [] then []
    else
      var rest := Window(rows[..|rows| - 1], cutoff);
      if rows[|rows| - 1].observedAt >= cutoff then rest + [rows[|rows| - 1]] else rest
  }

  lemma {:induction false} WindowIsSuffix(rows: seq<JournalEntry>, cutoff: int) returns (k: nat)
    requires forall i, j :: 0 <= i < j < |rows| ==> rows[i].observedAt <= rows[j].observedAt
    ensures k <= |rows| && Window(rows, cutoff) == rows[k..]
    ensures forall i :: 0 <= i < |rows| ==> (i < k <==> rows[i].observedAt < cutoff)
  {
    if rows == [] {
      k := 0;
    } else {
      var n := |rows| - 1;
      k := WindowIsSuffix(rows[..n], cutoff);
      if rows[n].observedAt >= cutoff {
        assert rows[k..] == rows[..n][k..] + [rows[n]];
      } else {
        k := |rows|;
        assert forall i :: 0 <= i < n ==> rows[..n][i].observedAt < cutoff;
      }
    }
  }

  /** Replaying only the window gives the true residency exactly when everyone resident at the cutoff moved since. */
  lemma WindowExact(rows: seq<JournalEntry>, cutoff: int)
    requires forall i, j :: 0 <= i < j < |rows| ==> rows[i].observedAt <= rows[j].observedAt
    ensures exists k: nat ::
      && k <= |rows| && (forall i :: 0 <= i < |rows| ==> (i < k <==> rows[i].observedAt < cutoff))
      && (Fold({}, Window(rows, cutoff)) == Fold({}, rows)
          <==> forall t :: t in Fold({}, rows[..k]) ==> Mentions(rows[k..], t))
  {
    var k := WindowIsSuffix(rows, cutoff);
    assert rows == rows[..k] + rows[k..];
    FoldConcat({}, rows[..k], rows[k..]);
    FoldSameIff({}, Fold({}, rows[..k]), rows[k..]);
  }

  /** A txid that arrived before the cutoff and has been quiet since is forgotten. */
  lemma WindowForgets(x: Txid, at: int, cutoff: int)
    requires at < cutoff
    ensures var rows := [JournalEntry(x, Add, at)];
            Fold({}, rows) == {x} && Fold({}, Window(rows, cutoff)) == {}
  {
    var rows := [JournalEntry(x, Add, at)];
    assert rows[..0] == [] && Window(rows, cutoff) == Window(rows[..0], cutoff);
    assert Fold({}, rows) == Step(Fold({}, rows[..0]), rows[0]);
  }

  // ---------------------------------------------------------------- subscribers

  /** What a client makes of the published batches. */
  function Receive(client: set<Txid>, batches: seq<seq<JournalEntry>>): set<Txid> {
    if batches == [] then client
    else
      var last := batches[|batches| - 1];
      (Receive(client, batches[..|batches| - 1]) + NetAdded(last)) - NetRemoved(last)
  }

  /** What they do to the residency. */
  function Replay(image: set<Txid>, batches: seq<seq<JournalEntry>>): set<Txid> {
    if batches == [] then image
    else Fold(Replay(image, batches[..|batches| - 1]), batches[|batches| - 1])
  }

  ghost predicate EachFlips(image: set<Txid>, batches: seq<seq<JournalEntry>>) {
    forall k :: 0 <= k < |batches| ==> Flips(Replay(image, batches[..k]), batches[k])
  }

  /** The batch's published change moves `t`. */
  predicate Nets(batch: seq<JournalEntry>, t: Txid) {
    t in Spans(batch) && Spans(batch)[t].first == Spans(batch)[t].last
  }

  ghost predicate SomeNets(batches: seq<seq<JournalEntry>>, t: Txid) {
    exists k :: 0 <= k < |batches| && Nets(batches[k], t)
  }

  lemma BatchHeals(client: set<Txid>, image: set<Txid>, batch: seq<JournalEntry>, t: Txid)
    requires Flips(image, batch)
    ensures (t in (client + NetAdded(batch)) - NetRemoved(batch) <==> t in Fold(image, batch))
        <==> (t in client <==> t in image) || Nets(batch, t)
  {
    SpansTell(image, batch, t);
  }

  lemma SomeNetsSnoc(rest: seq<seq<JournalEntry>>, last: seq<JournalEntry>, t: Txid)
    ensures SomeNets(rest + [last], t) <==> SomeNets(rest, t) || Nets(last, t)
  {
    var all := rest + [last];
    if k :| 0 <= k < |rest| && Nets(rest[k], t) {
      assert all[k] == rest[k];
    }
    if Nets(last, t) {
      assert all[|rest|] == last;
    }
  }

  /** Client and database agree on a txid exactly if they did before or some batch moved it on net. */
  lemma {:induction false} NetsHeal(client: set<Txid>, image: set<Txid>, batches: seq<seq<JournalEntry>>, t: Txid)
    requires EachFlips(image, batches)
    ensures (t in Receive(client, batches) <==> t in Replay(image, batches))
        <==> (t in client <==> t in image) || SomeNets(batches, t)
    decreases |batches|
  {
    if batches != [] {
      var n := |batches| - 1;
      var rest := batches[..n];
      assert EachFlips(image, rest) by {
        forall k | 0 <= k < n ensures Flips(Replay(image, rest[..k]), rest[k]) {
          assert rest[k] == batches[k] && rest[..k] == batches[..k];
        }
      }
      NetsHeal(client, image, rest, t);
      BatchHeals(Receive(client, rest), Replay(image, rest), batches[n], t);
      assert batches == rest + [batches[n]];
      SomeNetsSnoc(rest, batches[n], t);
    }
  }

  /**
   The batch cancels `t` out, and the client, who started from `live` when only
   `seen` of the batch had happened, has it the wrong way round.
   */
  predicate Stranded(seen: seq<JournalEntry>, batch: seq<JournalEntry>, t: Txid) {
    && t in Spans(seen) && t in Spans(batch)
    && Spans(batch)[t].first != Spans(batch)[t].last && Spans(seen)[t].last != Spans(batch)[t].last
  }

  lemma StrandedExactly(image: set<Txid>, seen: seq<JournalEntry>, later: seq<JournalEntry>, t: Txid)
    requires Flips(image, seen + later)
    ensures var batch := seen + later;
            (t in (Fold(image, seen) + NetAdded(batch)) - NetRemoved(batch) <==> t in Fold(image, batch))
            <==> !Stranded(seen, batch, t)
  {
    var batch := seen + later;
    FlipsSplit(image, seen, later);
    SpansTell(image, seen, t);
    SpansTell(image, batch, t);
    SpansTell(Fold(image, seen), later, t);
    FoldConcat(image, seen, later);
    LastTells(image, seen, t);
    LastTells(image, batch, t);
    if Mentions(seen, t) {
      var i :| 0 <= i < |seen| && seen[i].txid == t;
      assert batch[i].txid == t;
    }
  }

  /**
   When the `mempool.delta` socket does converge. A client starts from `live`
   while `seen` is journalled and unpublished; the batch that publishes it also
   carries what came `later`, and more batches follow. The client ends up right if
   and only if everyone that first batch strands is moved on net by a later one.
   */
  lemma MempoolSocketExact(image: set<Txid>, seen: seq<JournalEntry>, later: seq<JournalEntry>,
      more: seq<seq<JournalEntry>>)
    requires Flips(image, seen + later) && EachFlips(Fold(image, seen + later), more)
    ensures var batch := seen + later;
            var client := (Fold(image, seen) + NetAdded(batch)) - NetRemoved(batch);
            Receive(client, more) == Replay(Fold(image, batch), more)
            <==> forall t :: Stranded(seen, batch, t) ==> SomeNets(more, t)
  {
    var batch := seen + later;
    var client := (Fold(image, seen) + NetAdded(batch)) - NetRemoved(batch);
    forall t
      ensures (t in Receive(client, more) <==> t in Replay(Fold(image, batch), more))
          <==> (Stranded(seen, batch, t) ==> SomeNets(more, t))
    {
      StrandedExactly(image, seen, later, t);
      NetsHeal(client, Fold(image, batch), more, t);
    }
  }

  /**
   The mempool socket starts a client from `live`, which runs ahead of what has
   been published. A txid that left before its arrival was flushed cancels out of
   the published change, so such a client keeps it.
   */
  lemma MempoolSocketDiverges(x: Txid, at: int)
    ensures var arrived := AssertPresent(Ledger({}, [], false), [x], at);
            var departed := AssertAbsent(arrived, [x], at);
            var client := arrived.live;
            && departed.live == {}
            && (client + NetAdded(departed.journal)) - NetRemoved(departed.journal) == {x}
  {
    var start := Ledger({}, [], false);
    var one := [x];
    assert one[..|one| - 1] == [];
    var arrived := AssertPresent(start, one, at);
    assert arrived == PresentOne(AssertPresent(start, one[..|one| - 1], at), x, at);
    assert arrived == Push(start.(live := {} + {x}), JournalEntry(x, Add, at));
    var departed := AssertAbsent(arrived, one, at);
    assert departed == AbsentOne(AssertAbsent(arrived, one[..|one| - 1], at), x, at);
    assert departed == Push(arrived.(live := arrived.live - {x}), JournalEntry(x, Remove, at));
    var batch := [JournalEntry(x, Add, at), JournalEntry(x, Remove, at)];
    assert departed.journal == batch;
    assert batch[..1] == [JournalEntry(x, Add, at)] && batch[..1][..0] == [];
    assert Spans(batch[..1]) == map[x := Span(Add, Add)];
    assert Spans(batch) == map[x := Span(Add, Remove)];
  }

  // ------------------------------------------------------------- classification

  const MEMPOOL_DELTA_INSERT_CHUNK_SIZE := 10_000

  /** Which of the removed txids are confirmed, chunk by chunk; each lookup sees what was confirmed by then. */
  method LookUpConfirmed(removed: seq<Txid>, confirmedAt: nat -> set<Txid>, preempted: nat -> bool)
    returns (ok: bool, confirmed: set<Txid>, lookups: nat)
    ensures ok ==> confirmed <= Elements(removed)
    ensures ok ==> forall t :: t in confirmed ==> exists k: nat :: k < lookups && t in confirmedAt(k)
    ensures ok && (forall k: nat :: confirmedAt(0) <= confirmedAt(k)) ==>
        confirmedAt(0) * Elements(removed) <= confirmed
    ensures !ok ==> preempted(lookups)
  {
    ok, confirmed, lookups := true, {}, 0;
    var done: nat := 0;
    while done < |removed|
      invariant done <= |removed| && ok
      invariant confirmed <= Elements(removed[..done])
      invariant forall t :: t in confirmed ==> exists k: nat :: k < lookups && t in confirmedAt(k)
      invariant (forall k: nat :: confirmedAt(0) <= confirmedAt(k)) ==>
          confirmedAt(0) * Elements(removed[..done]) <= confirmed
    {
      if preempted(lookups) {
        ok := false;
        return;
      }
      var next := if done + MEMPOOL_DELTA_INSERT_CHUNK_SIZE < |removed| then done + MEMPOOL_DELTA_INSERT_CHUNK_SIZE
          else |removed|;
      var chunk := removed[done..next];
      assert removed[..next] == removed[..done] + chunk;
      assert Elements(removed[..next]) == Elements(removed[..done]) + Elements(chunk);
      confirmed := confirmed + Elements(chunk) * confirmedAt(lookups);
      lookups, done := lookups + 1, next;
    }
    assert removed[..|removed|] == removed;
  }

  /** One row per entry, in order: an arrival, or a departure by whichever set its txid is in. */
  ghost predicate Reasoned(entries: seq<JournalEntry>, rows: seq<DeltaRow>, confirmed: set<Txid>, evicted: set<Txid>) {
    && |rows| == |entries|
    && forall i :: 0 <= i < |entries| ==>
         && rows[i].entry == entries[i]
         && (rows[i].reason == AddMempool <==> entries[i].direction == Add)
         && (rows[i].reason == RemoveConfirmed <==> entries[i].direction == Remove && entries[i].txid in confirmed)
         && (rows[i].reason == RemoveEvicted <==> entries[i].direction == Remove && entries[i].txid in evicted)
  }

  /** One row per entry; removals nobody confirmed count as evictions. */
  method LabelRows(entries: seq<JournalEntry>, confirmed: set<Txid>) returns (rows: seq<DeltaRow>, evicted: set<Txid>)
    ensures rows == LabelAll(entries, confirmed) && Reasoned(entries, rows, confirmed, evicted)
    ensures evicted == Moving(entries, Remove) - confirmed
  {
    rows, evicted := [], {};
    for i := 0 to |entries|
      invariant rows == LabelAll(entries[..i], confirmed)
      invariant evicted == Moving(entries[..i], Remove) - confirmed
    {
      assert entries[..i + 1] == entries[..i] + [entries[i]];
      MovingSnoc(entries[..i], entries[i], Remove);
      if entries[i].direction == Remove && entries[i].txid !in confirmed {
        evicted := evicted + {entries[i].txid};
      }
      rows := rows + [DeltaRow(entries[i], Label(entries[i], confirmed))];
    }
    assert entries[..|entries|] == entries;
    forall i | 0 <= i < |entries| && entries[i].direction == Remove
      ensures entries[i].txid in evicted <==> entries[i].txid !in confirmed
    {
      assert entries[i] in entries;
    }
  }

  /**
   Classifies and labels one batch. The confirmed and the evicted txids
   partition the removed ones, and whatever was confirmed before the first
   lookup is among the confirmed. `None` means a block preempted the write.
   */
  method WriteDeltas(entries: seq<JournalEntry>, confirmedAt: nat -> set<Txid>, preempted: nat -> bool)
    returns (rows: Option<seq<DeltaRow>>, confirmed: set<Txid>, evicted: set<Txid>)
    ensures rows.Some? ==> rows.value == LabelAll(entries, confirmed)
    ensures rows.Some? ==> Reasoned(entries, rows.value, confirmed, evicted)
    ensures rows.Some? ==> confirmed + evicted == Moving(entries, Remove) && confirmed !! evicted
    ensures rows.Some? ==> forall t :: t in confirmed ==> exists k: nat :: t in confirmedAt(k)
    ensures rows.Some? && (forall k: nat :: confirmedAt(0) <= confirmedAt(k)) ==>
      confirmedAt(0) * Moving(entries, Remove) <= confirmed
    ensures rows.None? ==> exists k: nat :: preempted(k)
  {
    var removed := Enumerate(Moving(entries, Remove));
    var ok, lookups;
    evicted := {};
    ok, confirmed, lookups := LookUpConfirmed(removed, confirmedAt, preempted);
    if !ok {
      return None, confirmed, evicted;
    }
    var labelled;
    labelled, evicted := LabelRows(entries, confirmed);
    var check, inserted := lookups, 0;
    while inserted < |labelled|
    {
      if preempted(check) {
        return None, confirmed, evicted;
      }
      check, inserted := check + 1, inserted + MEMPOOL_DELTA_INSERT_CHUNK_SIZE;
    }
    rows := if preempted(check) then None else Some(labelled);
  }
}
