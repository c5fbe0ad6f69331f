/**
 Whole runs of the ledger and its single consumer. Producers append at any
 moment; the consumer reads the journal, writes it as one transaction that may
 fail or be preempted, and only then drains it; blocks commit in between.
 */
module FlushRun {
  import opened Common
  import opened MempoolLedger

  datatype Reason = AddMempool | RemoveConfirmed | RemoveEvicted

  /** A persisted row of `mempool_deltas`. */
  datatype DeltaRow = DeltaRow(entry: JournalEntry, reason: Reason)

  function Label(e: JournalEntry, found: set<Txid>): Reason {
    if e.direction == Add then AddMempool else if e.txid in found then RemoveConfirmed else RemoveEvicted
  }

  function LabelAll(batch: seq<JournalEntry>, found: set<Txid>): seq<DeltaRow> {
    seq(|batch|, i requires 0 <= i < |batch| => DeltaRow(batch[i], Label(batch[i], found)))
  }

  function Persisted(rows: seq<DeltaRow>): seq<JournalEntry> {
    seq(|rows|, i requires 0 <= i < |rows| => rows[i].entry)
  }

  /** Where the tick holding the lease stands. */
  datatype Phase =
    | Idle
    | Reading(batch: seq<JournalEntry>, looked: set<Txid>, found: set<Txid>, known: set<Txid>)
    | Written(batch: seq<JournalEntry>)

  /**
   `confirmed` are the transactions with a confirmation time. The last four
   fields only record the run: every entry the journal accepted, which of them a
   block's removal put there, how many were persisted before the seed, and
   whether the run has been free of overflow and repair since.
   */
  datatype Sys = Sys(
    ledger: Ledger,
    rows: seq<DeltaRow>,
    phase: Phase,
    confirmed: set<Txid>,
    history: seq<JournalEntry>,
    fromBlock: seq<bool>,
    seeded: nat,
    clean: bool)

  /** After bootstrap: `live` is what the rows of earlier runs fold to, and the journal is empty. */
  ghost predicate Init(s: Sys) {
    && s.history == Persisted(s.rows) && s.seeded == |s.rows|
    && s.ledger == Ledger(Fold({}, s.history), [], false)
    && s.phase == Idle && s.fromBlock == seq(|s.history|, _ => false) && s.clean
    && forall i :: 0 <= i < |s.rows| ==> Justified(s.rows[i], s.confirmed)
  }

  datatype Event =
    | Present(txids: seq<Txid>, at: int)
    | Absent(txids: seq<Txid>, at: int)
    | Submit(pool: set<Txid>, at: int)
    | Reconcile(at: int)
    | BlockCommitted(mined: set<Txid>)
    | BlockRemoves(txids: seq<Txid>, at: int)
    | BeginFlush
    | LookUp(chunk: set<Txid>)
    | Write
    | GiveUp
    | Commit

  /** A producer moves the ledger to `after`; what the journal accepted joins the history. */
  function Produced(s: Sys, after: Ledger, block: bool): Sys {
    var accepted := if |s.ledger.journal| <= |after.journal| then after.journal[|s.ledger.journal|..] else [];
    s.(ledger := after,
       history := s.history + accepted,
       fromBlock := s.fromBlock + seq(|accepted|, _ => block),
       clean := s.clean && !after.degraded)
  }

  ghost predicate Next(s: Sys, e: Event, s': Sys) {
    match e
    case Present(txids, at) =>
      s' == Produced(s, AssertPresent(s.ledger, txids, at), false)
    case Absent(txids, at) =>
      s' == Produced(s, AssertAbsent(s.ledger, txids, at), false)
    case Submit(pool, at) =>
      Submits(s.ledger, s'.ledger, pool, at) && s' == Produced(s, s'.ledger, false)
    case Reconcile(at) =>
      // the image is read from the database as it is now
      && Reconciles(s.ledger, s'.ledger, Fold({}, Persisted(s.rows)), at)
      && s' == Produced(s, s'.ledger, false).(clean := false)
    case BlockCommitted(mined) =>
      s' == s.(confirmed := s.confirmed + mined)
    case BlockRemoves(txids, at) =>
      // `apply_block` removes its txids only after its transaction committed
      Elements(txids) <= s.confirmed && s' == Produced(s, AssertAbsent(s.ledger, txids, at), true)
    case BeginFlush =>
      s.phase == Idle && s.ledger.journal != [] && s' == s.(phase := Reading(s.ledger.journal, {}, {}, s.confirmed))
    case LookUp(chunk) =>
      && s.phase.Reading? && chunk <= Moving(s.phase.batch, Remove)
      && s' == s.(phase := s.phase.(looked := s.phase.looked + chunk, found := s.phase.found + chunk * s.confirmed))
    case Write =>
      && s.phase.Reading? && s.phase.looked == Moving(s.phase.batch, Remove)
      && s' == s.(phase := Written(s.phase.batch), rows := s.rows + LabelAll(s.phase.batch, s.phase.found))
    case GiveUp =>
      // a failed or preempted write commits nothing
      s.phase.Reading? && s' == s.(phase := Idle)
    case Commit =>
      && s.phase.Written? && |s.phase.batch| <= |s.ledger.journal|
      && s' == s.(phase := Idle, ledger := s.ledger.(journal := s.ledger.journal[|s.phase.batch|..]))
  }

  /** A run: states linked by events. */
  ghost predicate IsRun(run: seq<Sys>, events: seq<Event>) {
    && |run| == |events| + 1 && Init(run[0])
    && (forall i :: 0 <= i < |events| ==> Next(run[i], events[i], run[i + 1]))
  }

  // ------------------------------------------------------------------ invariant

  /** The persisted entries whose journal copies have been drained. */
  function Drained(s: Sys): seq<JournalEntry> {
    if s.phase.Written? && |s.phase.batch| <= |s.rows|
    then Persisted(s.rows)[..|s.rows| - |s.phase.batch|] else Persisted(s.rows)
  }

  /** Delivery: drained entries, then the journal, are the history; an outstanding batch is a journal prefix. */
  ghost predicate Delivery(s: Sys) {
    && s.history == Drained(s) + s.ledger.journal && |s.fromBlock| == |s.history|
    && (s.phase.Reading? ==> s.phase.batch <= s.ledger.journal)
    && (s.phase.Written? ==> s.phase.batch <= s.ledger.journal && |s.phase.batch| <= |s.rows|
                             && Persisted(s.rows) == Drained(s) + s.phase.batch)
  }

  ghost predicate Image(s: Sys) {
    && |s.ledger.journal| <= JOURNAL_CAP
    && (!s.ledger.degraded ==> Fold({}, s.history) == s.ledger.live)
  }

  /** Since a clean seed every accepted entry flips membership. */
  ghost predicate Clean(s: Sys) {
    s.clean ==> && !s.ledger.degraded && s.seeded <= |Drained(s)| && s.seeded <= |s.history|
                && Flips(Fold({}, s.history[..s.seeded]), s.history[s.seeded..])
  }

  /** A row says it added exactly if its entry does, and calls confirmed only what is. */
  ghost predicate Justified(row: DeltaRow, confirmed: set<Txid>) {
    && (row.reason == AddMempool <==> row.entry.direction == Add)
    && (row.reason == RemoveConfirmed ==> row.entry.txid in confirmed)
  }

  /** Removals a block journalled are of confirmed transactions, and labelled so wherever persisted. */
  ghost predicate Labels(s: Sys) {
    && |s.fromBlock| == |s.history|
    && (forall i :: 0 <= i < |s.history| && s.fromBlock[i] ==>
          && s.history[i].direction == Remove && s.history[i].txid in s.confirmed
          && (i < |s.rows| ==> s.rows[i].reason == RemoveConfirmed)
          && (s.phase.Reading? && i < |s.rows| + |s.phase.batch| ==> s.history[i].txid in s.phase.known))
    && (forall i :: 0 <= i < |s.rows| ==> Justified(s.rows[i], s.confirmed))
    && (s.phase.Reading? ==>
          s.phase.known * s.phase.looked <= s.phase.found && s.phase.found <= s.phase.looked * s.confirmed
          && s.phase.known <= s.confirmed)
  }

  ghost predicate RunInv(s: Sys) {
    Delivery(s) && Image(s) && Clean(s) && Labels(s)
  }

  // ------------------------------------------------------------- producers' laws

  /** What every producer guarantees: it only appends, and keeps image and flips unless it overflows. */
  ghost predicate Lawful(l: Ledger, after: Ledger) {
    && l.journal <= after.journal && |after.journal| <= JOURNAL_CAP
    && (l.degraded ==> after.degraded)
    && (forall base :: Fold(base, l.journal) == l.live && !after.degraded ==> Fold(base, after.journal) == after.live)
    && (forall base :: Fold(base, l.journal) == l.live && Flips(base, l.journal) && !after.degraded ==>
        Flips(base, after.journal))
  }

  lemma LawfulSelf(l: Ledger)
    requires |l.journal| <= JOURNAL_CAP
    ensures Lawful(l, l)
  {
  }

  lemma LawfulCompose(a: Ledger, b: Ledger, c: Ledger)
    requires Lawful(a, b) && Lawful(b, c)
    ensures Lawful(a, c)
  {
  }

  lemma PushLawful(l: Ledger, live: set<Txid>, e: JournalEntry)
    requires |l.journal| <= JOURNAL_CAP
    requires live == Step(l.live, e) && (e.direction == Add <==> e.txid !in l.live)
    ensures Lawful(l, Push(l.(live := live), e))
  {
    var after := Push(l.(live := live), e);
    forall base | Fold(base, l.journal) == l.live && !after.degraded
      ensures Fold(base, after.journal) == after.live
      ensures Flips(base, l.journal) ==> Flips(base, after.journal)
    {
      FoldSnoc(base, l.journal, e);
      if Flips(base, l.journal) {
        FlipsSnoc(base, l.journal, e);
      }
    }
  }

  lemma {:induction false} PresentLawful(l: Ledger, txids: seq<Txid>, at: int)
    requires |l.journal| <= JOURNAL_CAP
    ensures Lawful(l, AssertPresent(l, txids, at))
  {
    if txids == [] {
      LawfulSelf(l);
    } else {
      var rest, t := txids[..|txids| - 1], txids[|txids| - 1];
      PresentLawful(l, rest, at);
      var mid := AssertPresent(l, rest, at);
      if t !in mid.live {
        PushLawful(mid, mid.live + {t}, JournalEntry(t, Add, at));
        LawfulCompose(l, mid, AssertPresent(l, txids, at));
      }
    }
  }

  lemma {:induction false} AbsentLawful(l: Ledger, txids: seq<Txid>, at: int)
    requires |l.journal| <= JOURNAL_CAP
    ensures var after := AssertAbsent(l, txids, at);
            && Lawful(l, after)
            && (forall i :: |l.journal| <= i < |after.journal| ==>
                  after.journal[i].direction == Remove && after.journal[i].txid in txids)
  {
    if txids == [] {
      LawfulSelf(l);
    } else {
      var rest, t := txids[..|txids| - 1], txids[|txids| - 1];
      AbsentLawful(l, rest, at);
      var mid := AssertAbsent(l, rest, at);
      assert forall x :: x in rest ==> x in txids;
      if t in mid.live {
        PushLawful(mid, mid.live - {t}, JournalEntry(t, Remove, at));
        LawfulCompose(l, mid, AssertAbsent(l, txids, at));
      }
    }
  }

  lemma {:induction false} EntriesFlip(image: set<Txid>, txids: seq<Txid>, direction: Direction, at: int)
    requires Distinct(txids)
    requires if direction == Add then Elements(txids) !! image else Elements(txids) <= image
    ensures Flips(image, Entries(txids, direction, at))
  {
    if txids != [] {
      var rest, t := txids[..|txids| - 1], txids[|txids| - 1];
      assert Elements(rest) <= Elements(txids) && t in Elements(txids) && t !in Elements(rest);
      EntriesFlip(image, rest, direction, at);
      FoldEntries(image, rest, direction, at);
      assert Entries(txids, direction, at) == Entries(rest, direction, at) + [JournalEntry(t, direction, at)];
      FlipsSnoc(image, Entries(rest, direction, at), JournalEntry(t, direction, at));
    }
  }

  lemma DiffFlips(from: set<Txid>, to: set<Txid>, diff: seq<JournalEntry>, at: int)
    requires IsDiff(from, to, diff, at)
    ensures Flips(from, diff)
  {
    var adds, removes :| DiffParts(from, to, adds, removes) && diff == DiffEntries(adds, removes, at);
    EntriesFlip(from, adds, Add, at);
    FoldEntries(from, adds, Add, at);
    EntriesFlip(from + Elements(adds), removes, Remove, at);
    FlipsConcat(from, Entries(adds, Add, at), Entries(removes, Remove, at));
  }

  lemma SubmitLawful(l: Ledger, after: Ledger, pool: set<Txid>, at: int)
    requires |l.journal| <= JOURNAL_CAP && Submits(l, after, pool, at)
    ensures Lawful(l, after)
  {
    var diff :| IsDiff(l.live, pool, diff, at) && after == PushAll(l, diff).(live := pool);
    PushAllAppends(l, diff);
    DiffFolds(l.live, pool, diff, at);
    DiffFlips(l.live, pool, diff, at);
    forall base | Fold(base, l.journal) == l.live && !after.degraded
      ensures Fold(base, after.journal) == after.live
      ensures Flips(base, l.journal) ==> Flips(base, after.journal)
    {
      FoldConcat(base, l.journal, diff);
      if Flips(base, l.journal) {
        FlipsConcat(base, l.journal, diff);
      }
    }
  }

  // --------------------------------------------------------- what each event keeps

  lemma ProducedDelivery(s: Sys, after: Ledger, block: bool)
    requires Delivery(s) && s.ledger.journal <= after.journal
    ensures Delivery(Produced(s, after, block))
  {
    var accepted := after.journal[|s.ledger.journal|..];
    assert after.journal == s.ledger.journal + accepted;
    assert Drained(Produced(s, after, block)) == Drained(s);
    assert Drained(s) + after.journal == (Drained(s) + s.ledger.journal) + accepted;
  }

  lemma ProducedImage(s: Sys, after: Ledger, block: bool)
    requires Delivery(s) && Image(s) && Lawful(s.ledger, after)
    ensures Image(Produced(s, after, block))
  {
    if !after.degraded {
      ProducedDelivery(s, after, block);
      FoldConcat({}, Drained(s), s.ledger.journal);
      FoldConcat({}, Drained(s), after.journal);
    }
  }

  lemma FlipsBeyond(drained: seq<JournalEntry>, journal: seq<JournalEntry>, seeded: nat)
    requires seeded <= |drained|
    ensures Flips(Fold({}, drained[..seeded]), drained[seeded..] + journal)
        <==> Flips(Fold({}, drained[..seeded]), drained[seeded..]) && Flips(Fold({}, drained), journal)
  {
    var image, pending := Fold({}, drained[..seeded]), drained[seeded..];
    FoldConcat({}, drained[..seeded], pending);
    assert drained == drained[..seeded] + pending;
    if Flips(image, pending + journal) {
      FlipsSplit(image, pending, journal);
    }
    if Flips(image, pending) && Flips(Fold({}, drained), journal) {
      FlipsConcat(image, pending, journal);
    }
  }

  lemma SeedSplit(drained: seq<JournalEntry>, journal: seq<JournalEntry>, seeded: nat)
    requires seeded <= |drained|
    ensures (drained + journal)[..seeded] == drained[..seeded]
    ensures (drained + journal)[seeded..] == drained[seeded..] + journal
  {
  }

  lemma ProducedClean(s: Sys, after: Ledger, block: bool)
    requires Delivery(s) && Image(s) && Clean(s) && Lawful(s.ledger, after)
    ensures Clean(Produced(s, after, block))
  {
    var next := Produced(s, after, block);
    if next.clean {
      ProducedDelivery(s, after, block);
      SeedSplit(Drained(s), s.ledger.journal, s.seeded);
      SeedSplit(Drained(s), after.journal, s.seeded);
      FlipsBeyond(Drained(s), s.ledger.journal, s.seeded);
      FlipsBeyond(Drained(s), after.journal, s.seeded);
      FoldConcat({}, Drained(s), s.ledger.journal);
    }
  }

  lemma ProducedLabels(s: Sys, after: Ledger, block: bool)
    requires Delivery(s) && Labels(s) && s.ledger.journal <= after.journal
    requires block ==> forall i :: |s.ledger.journal| <= i < |after.journal| ==>
      after.journal[i].direction == Remove && after.journal[i].txid in s.confirmed
    ensures Labels(Produced(s, after, block))
  {
    var next := Produced(s, after, block);
    var n, j := |s.history|, |s.ledger.journal|;
    assert |s.rows| <= n && (s.phase.Reading? ==> |s.rows| + |s.phase.batch| <= n);
    forall i | 0 <= i < |next.history| && next.fromBlock[i]
      ensures next.history[i].direction == Remove && next.history[i].txid in next.confirmed
      ensures i < |next.rows| ==> next.rows[i].reason == RemoveConfirmed
      ensures next.phase.Reading? && i < |next.rows| + |next.phase.batch| ==> next.history[i].txid in next.phase.known
    {
      if i < n {
        assert next.history[i] == s.history[i] && next.fromBlock[i] == s.fromBlock[i];
      } else {
        assert next.history[i] == after.journal[j + (i - n)];
      }
    }
  }

  lemma ProducedKeeps(s: Sys, after: Ledger, block: bool)
    requires RunInv(s) && Lawful(s.ledger, after)
    requires block ==> forall i :: |s.ledger.journal| <= i < |after.journal| ==>
      after.journal[i].direction == Remove && after.journal[i].txid in s.confirmed
    ensures RunInv(Produced(s, after, block))
  {
    ProducedDelivery(s, after, block);
    ProducedImage(s, after, block);
    ProducedClean(s, after, block);
    ProducedLabels(s, after, block);
  }

  /** The database image plus the journal is the history's image, even with a written batch still in the journal. */
  lemma ImageOfTables(s: Sys)
    requires Delivery(s)
    ensures Fold(Fold({}, Persisted(s.rows)), s.ledger.journal) == Fold({}, s.history)
  {
    FoldConcat({}, Drained(s), s.ledger.journal);
    if s.phase.Written? {
      var batch, rest := s.phase.batch, s.ledger.journal[|s.phase.batch|..];
      var image := Fold({}, Drained(s));
      assert s.ledger.journal == batch + rest;
      FoldConcat({}, Drained(s), batch);
      FoldConcat(Fold(image, batch), batch, rest);
      FoldConcat(image, batch, rest);
      FoldTwice(image, batch);
    }
  }

  lemma ReconcileKeeps(s: Sys, after: Ledger, at: int)
    requires RunInv(s) && Reconciles(s.ledger, after, Fold({}, Persisted(s.rows)), at)
    ensures RunInv(Produced(s, after, false).(clean := false))
  {
    var image := Fold({}, Persisted(s.rows));
    var diff :| && IsDiff(Fold(image, s.ledger.journal), s.ledger.live, diff, at)
                && after == (if |s.ledger.journal| + |diff| <= JOURNAL_CAP
                             then PushAll(s.ledger, diff).(degraded := false) else PushAll(s.ledger, diff));
    PushAllAppends(s.ledger, diff);
    ImageOfTables(s);
    DiffFolds(Fold(image, s.ledger.journal), s.ledger.live, diff, at);
    ProducedDelivery(s, after, false);
    ProducedLabels(s, after, false);
    var next := Produced(s, after, false);
    if !after.degraded {
      assert next.history == s.history + diff;
      FoldConcat({}, s.history, diff);
    }
  }

  lemma BlockKeeps(s: Sys, mined: set<Txid>)
    requires RunInv(s)
    ensures RunInv(s.(confirmed := s.confirmed + mined))
  {
  }

  lemma BeginKeeps(s: Sys)
    requires RunInv(s) && s.phase == Idle
    ensures RunInv(s.(phase := Reading(s.ledger.journal, {}, {}, s.confirmed)))
  {
  }

  lemma LookUpKeeps(s: Sys, chunk: set<Txid>)
    requires RunInv(s) && s.phase.Reading?
    ensures RunInv(s.(phase := s.phase.(looked := s.phase.looked + chunk,
        found := s.phase.found + chunk * s.confirmed)))
  {
    var next := s.(phase := s.phase.(looked := s.phase.looked + chunk, found := s.phase.found + chunk * s.confirmed));
    assert Drained(next) == Drained(s);
  }

  lemma GiveUpKeeps(s: Sys)
    requires RunInv(s) && s.phase.Reading?
    ensures RunInv(s.(phase := Idle))
  {
    assert Drained(s.(phase := Idle)) == Drained(s);
  }

  lemma PersistedConcat(a: seq<DeltaRow>, b: seq<DeltaRow>)
    ensures Persisted(a + b) == Persisted(a) + Persisted(b)
  {
  }

  lemma WriteDelivery(s: Sys)
    requires Delivery(s) && s.phase.Reading?
    ensures var next := s.(phase := Written(s.phase.batch), rows := s.rows + LabelAll(s.phase.batch, s.phase.found));
            Delivery(next) && Drained(next) == Drained(s)
  {
    var batch, found := s.phase.batch, s.phase.found;
    PersistedConcat(s.rows, LabelAll(batch, found));
    assert Persisted(LabelAll(batch, found)) == batch;
  }

  lemma WriteLabels(s: Sys)
    requires Delivery(s) && Labels(s) && s.phase.Reading? && s.phase.looked == Moving(s.phase.batch, Remove)
    ensures Labels(s.(phase := Written(s.phase.batch), rows := s.rows + LabelAll(s.phase.batch, s.phase.found)))
  {
    var batch := s.phase.batch;
    var next := s.(phase := Written(batch), rows := s.rows + LabelAll(batch, s.phase.found));
    forall i | 0 <= i < |next.history| && next.fromBlock[i] && i < |next.rows|
      ensures next.rows[i].reason == RemoveConfirmed
    {
      if i >= |s.rows| {
        var e := batch[i - |s.rows|];
        assert s.history[i] == s.ledger.journal[i - |s.rows|] == e;
        assert e in batch && e.txid in Moving(batch, Remove);
      }
    }
  }

  lemma WriteKeeps(s: Sys)
    requires RunInv(s) && s.phase.Reading? && s.phase.looked == Moving(s.phase.batch, Remove)
    ensures RunInv(s.(phase := Written(s.phase.batch), rows := s.rows + LabelAll(s.phase.batch, s.phase.found)))
  {
    WriteDelivery(s);
    WriteLabels(s);
  }

  lemma CommitKeeps(s: Sys)
    requires RunInv(s) && s.phase.Written?
    ensures RunInv(s.(phase := Idle, ledger := s.ledger.(journal := s.ledger.journal[|s.phase.batch|..])))
  {
    var next := s.(phase := Idle, ledger := s.ledger.(journal := s.ledger.journal[|s.phase.batch|..]));
    assert s.ledger.journal == s.phase.batch + next.ledger.journal;
    assert Drained(next) == Drained(s) + s.phase.batch;
    assert next.history == Drained(next) + next.ledger.journal;
  }

  lemma NextKeeps(s: Sys, e: Event, s': Sys)
    requires RunInv(s) && Next(s, e, s')
    ensures RunInv(s')
  {
    match e
    case Present(txids, at) =>
      PresentLawful(s.ledger, txids, at);
      ProducedKeeps(s, AssertPresent(s.ledger, txids, at), false);
    case Absent(txids, at) =>
      AbsentLawful(s.ledger, txids, at);
      ProducedKeeps(s, AssertAbsent(s.ledger, txids, at), false);
    case Submit(pool, at) =>
      SubmitLawful(s.ledger, s'.ledger, pool, at);
      ProducedKeeps(s, s'.ledger, false);
    case Reconcile(at) =>
      ReconcileKeeps(s, s'.ledger, at);
    case BlockCommitted(mined) =>
      BlockKeeps(s, mined);
    case BlockRemoves(txids, at) =>
      AbsentLawful(s.ledger, txids, at);
      assert forall t :: t in txids ==> t in Elements(txids);
      ProducedKeeps(s, AssertAbsent(s.ledger, txids, at), true);
    case BeginFlush =>
      BeginKeeps(s);
    case LookUp(chunk) =>
      LookUpKeeps(s, chunk);
    case Write =>
      WriteKeeps(s);
    case GiveUp =>
      GiveUpKeeps(s);
    case Commit =>
      CommitKeeps(s);
  }

  lemma InitKeeps(s: Sys)
    requires Init(s)
    ensures RunInv(s)
  {
    assert Drained(s) + [] == Drained(s);
    assert s.history[..s.seeded] == s.history && s.history[s.seeded..] == [];
  }

  lemma {:induction false} RunKeeps(run: seq<Sys>, events: seq<Event>, i: nat)
    requires IsRun(run, events) && i < |run|
    ensures RunInv(run[i])
  {
    if i == 0 {
      InitKeeps(run[0]);
    } else {
      RunKeeps(run, events, i - 1);
      NextKeeps(run[i - 1], events[i - 1], run[i]);
    }
  }

  // --------------------------------------------------------------------- theorems

  /** In every reachable state that is not degraded, persisted rows and journal fold to exactly `live`. */
  lemma LedgerImage(run: seq<Sys>, events: seq<Event>, i: nat)
    requires IsRun(run, events) && i < |run|
    ensures var s := run[i];
            !s.ledger.degraded ==> Fold({}, Persisted(s.rows) + s.ledger.journal) == s.ledger.live
  {
    RunKeeps(run, events, i);
    ImageOfTables(run[i]);
    FoldConcat({}, Persisted(run[i].rows), run[i].ledger.journal);
  }

  /** What delivery says of the persisted rows and of the part of the journal they leave pending. */
  lemma DeliveryTold(s: Sys)
    requires RunInv(s)
    ensures Persisted(s.rows) <= s.history
    ensures !s.phase.Written? ==> s.history == Persisted(s.rows) + s.ledger.journal
    ensures s.phase.Written? ==> |s.phase.batch| <= |s.ledger.journal|
                                 && s.history == Persisted(s.rows) + s.ledger.journal[|s.phase.batch|..]
  {
    if s.phase.Written? {
      assert s.ledger.journal == s.phase.batch + s.ledger.journal[|s.phase.batch|..];
    }
  }

  /** Exactly once and in order: what is persisted, then what is pending, is what the journal ever accepted. */
  lemma DeliveredOnceInOrder(run: seq<Sys>, events: seq<Event>, i: nat)
    requires IsRun(run, events) && i < |run|
    ensures var s := run[i];
            && Persisted(s.rows) <= s.history
            && (!s.phase.Written? ==> s.history == Persisted(s.rows) + s.ledger.journal)
            && (s.phase.Written? ==> |s.phase.batch| <= |s.ledger.journal|
                                     && s.history == Persisted(s.rows) + s.ledger.journal[|s.phase.batch|..])
  {
    RunKeeps(run, events, i);
    DeliveryTold(run[i]);
  }

  /** A removal that a block journalled after committing is never persisted as an eviction. */
  lemma BlockRemovalsLabelled(run: seq<Sys>, events: seq<Event>, i: nat, k: nat)
    requires IsRun(run, events) && i < |run|
    requires k < |run[i].rows| && k < |run[i].fromBlock| && run[i].fromBlock[k]
    ensures run[i].rows[k].reason == RemoveConfirmed
    ensures k < |run[i].history| && run[i].rows[k].entry == run[i].history[k]
  {
    RunKeeps(run, events, i);
    DeliveredOnceInOrder(run, events, i);
    assert Persisted(run[i].rows)[k] == run[i].rows[k].entry;
  }

  /** Additions and only additions are persisted as such, and what is persisted as confirmed is confirmed. */
  lemma ReasonsJustified(run: seq<Sys>, events: seq<Event>, i: nat, k: nat)
    requires IsRun(run, events) && i < |run| && k < |run[i].rows|
    ensures var row := run[i].rows[k];
            && (row.reason == AddMempool <==> row.entry.direction == Add)
            && (row.reason == RemoveConfirmed ==> row.entry.direction == Remove && row.entry.txid in run[i].confirmed)
  {
    RunKeeps(run, events, i);
  }

  /** What a write persists as evicted had no confirmation when its flush began; what it calls confirmed has one. */
  lemma EvictionsUnconfirmed(run: seq<Sys>, events: seq<Event>, i: nat, k: nat)
    requires IsRun(run, events) && i < |events| && events[i] == Write
    requires |run[i].rows| <= k < |run[i + 1].rows| && run[i + 1].rows[k].entry.direction == Remove
    ensures run[i + 1].rows[k].reason == RemoveEvicted ==> run[i + 1].rows[k].entry.txid !in run[i].phase.known
    ensures run[i + 1].rows[k].reason == RemoveConfirmed ==> run[i + 1].rows[k].entry.txid in run[i].confirmed
    ensures run[i + 1].rows[k].reason in {RemoveConfirmed, RemoveEvicted}
  {
    RunKeeps(run, events, i);
    assert Next(run[i], events[i], run[i + 1]);
    WriteReasons(run[i], run[i + 1].rows, k);
  }

  lemma WriteReasons(s: Sys, rows: seq<DeltaRow>, k: nat)
    requires Labels(s) && s.phase.Reading? && s.phase.looked == Moving(s.phase.batch, Remove)
    requires rows == s.rows + LabelAll(s.phase.batch, s.phase.found) && |s.rows| <= k < |rows|
    requires rows[k].entry.direction == Remove
    ensures rows[k].reason == RemoveEvicted ==> rows[k].entry.txid !in s.phase.known
    ensures rows[k].reason == RemoveConfirmed ==> rows[k].entry.txid in s.confirmed
    ensures rows[k].reason in {RemoveConfirmed, RemoveEvicted}
  {
    var e := s.phase.batch[k - |s.rows|];
    assert rows[k] == DeltaRow(e, Label(e, s.phase.found));
    assert e in s.phase.batch && e.txid in Moving(s.phase.batch, Remove);
  }

  /** Entries that flip since the seed flip within any batch drawn since. */
  lemma BatchFlips(history: seq<JournalEntry>, seeded: nat, drained: seq<JournalEntry>, batch: seq<JournalEntry>,
      rest: seq<JournalEntry>)
    requires seeded <= |drained| && history == drained + (batch + rest)
    requires Flips(Fold({}, history[..seeded]), history[seeded..])
    ensures Flips(Fold({}, drained), batch)
  {
    var before, pending := drained[..seeded], drained[seeded..];
    assert history[..seeded] == before && history[seeded..] == pending + (batch + rest) && drained == before + pending;
    FlipsSplit(Fold({}, before), pending, batch + rest);
    FlipsSplit(Fold(Fold({}, before), pending), batch, rest);
    FoldConcat({}, before, pending);
  }

  /** The net change published for a batch is right, as long as nothing overflowed since the seed. */
  lemma PublishedDeltaIsNet(run: seq<Sys>, events: seq<Event>, i: nat)
    requires IsRun(run, events) && i < |run|
    requires run[i].clean && run[i].phase.Written?
    ensures var image, batch := Fold({}, Drained(run[i])), run[i].phase.batch;
            && Fold({}, Persisted(run[i].rows)) == (image + NetAdded(batch)) - NetRemoved(batch)
            && NetAdded(batch) !! image && NetRemoved(batch) <= image
  {
    RunKeeps(run, events, i);
    var s := run[i];
    var batch, rest := s.phase.batch, s.ledger.journal[|s.phase.batch|..];
    assert s.ledger.journal == batch + rest;
    BatchFlips(s.history, s.seeded, Drained(s), batch, rest);
    FoldConcat({}, Drained(s), batch);
    NetDelta(Fold({}, Drained(s)), batch);
  }
}
