/** The ledger as the code keeps it, updated in place, and the flush batch read from it. */
module LedgerStore {
  import opened Common
  import opened MempoolLedger

  class SharedLedger {
    var live: set<Txid>
    var journal: seq<JournalEntry>
    var degraded: bool

    constructor ()
      ensures State() == Ledger({}, [], false)
    {
      live, journal, degraded := {}, [], false;
    }

    function State(): Ledger
      reads this
    {
      Ledger(live, journal, degraded)
    }

    method PushEntry(txid: Txid, direction: Direction, at: int) returns (accepted: bool)
      modifies this`journal, this`degraded
      ensures State() == Push(old(State()), JournalEntry(txid, direction, at))
      ensures accepted <==> |old(journal)| < JOURNAL_CAP
    {
      if |journal| >= JOURNAL_CAP {
        degraded := true;
        return false;
      }
      journal := journal + [JournalEntry(txid, direction, at)];
      return true;
    }

    /** Replaces `live` and touches nothing else. */
    method Seed(txids: set<Txid>)
      modifies this`live
      ensures State() == old(State()).(live := txids)
    {
      live := txids;
    }

    /** Whoever was missing joins `live` and is journalled once, in list order, as far as the journal has room. */
    method MarkPresent(txids: seq<Txid>, at: int)
      modifies this
      ensures State() == AssertPresent(old(State()), txids, at) && Admits(old(State()), State(), txids, at)
    {
      ghost var _ := PresentMoves(State(), txids, at);
      for k := 0 to |txids|
        invariant State() == AssertPresent(old(State()), txids[..k], at)
      {
        assert txids[..k + 1][..k] == txids[..k];
        if txids[k] !in live {
          live := live + {txids[k]};
          var _ := PushEntry(txids[k], Add, at);
        }
      }
      assert txids[..|txids|] == txids;
    }

    /** Whoever was there leaves `live` and is journalled once, in list order, as far as the journal has room. */
    method MarkAbsent(txids: seq<Txid>, at: int)
      modifies this
      ensures State() == AssertAbsent(old(State()), txids, at) && Dismisses(old(State()), State(), txids, at)
    {
      ghost var _ := AbsentMoves(State(), txids, at);
      for k := 0 to |txids|
        invariant State() == AssertAbsent(old(State()), txids[..k], at)
      {
        assert txids[..k + 1][..k] == txids[..k];
        if txids[k] in live {
          live := live - {txids[k]};
          var _ := PushEntry(txids[k], Remove, at);
        }
      }
      assert txids[..|txids|] == txids;
    }

    /** Pushes one entry per txid; `complete` says whether all of them fitted. */
    method PushTxids(txids: seq<Txid>, direction: Direction, at: int) returns (complete: bool)
      requires |journal| <= JOURNAL_CAP
      modifies this`journal, this`degraded
      ensures State() == PushAll(old(State()), Entries(txids, direction, at))
      ensures complete <==> |old(journal)| + |txids| <= JOURNAL_CAP
    {
      complete := true;
      for k := 0 to |txids|
        invariant State() == PushAll(old(State()), Entries(txids[..k], direction, at))
        invariant complete <==> |old(journal)| + k <= JOURNAL_CAP
      {
        var es := Entries(txids[..k + 1], direction, at);
        assert es[..k] == Entries(txids[..k], direction, at);
        PushAllAppends(old(State()), es[..k]);
        var fitted := PushEntry(txids[k], direction, at);
        complete := complete && fitted;
      }
      assert txids[..|txids|] == txids;
    }

    /** Diffs the node's full mempool against `live` and swaps it in. */
    method SubmitAuthoritative(txids: set<Txid>, at: int)
      requires |journal| <= JOURNAL_CAP
      modifies this
      ensures Submits(old(State()), State(), txids, at)
    {
      var adds := Enumerate(txids - live);
      var removes := Enumerate(live - txids);
      ghost var before := State();
      var _ := PushTxids(adds, Add, at);
      PushAllAppends(before, Entries(adds, Add, at));
      var _ := PushTxids(removes, Remove, at);
      live := txids;
      PushAllConcat(before, Entries(adds, Add, at), Entries(removes, Remove, at));
      assert DiffParts(before.live, txids, adds, removes);
      assert IsDiff(before.live, txids, DiffEntries(adds, removes, at), at);
    }

    /** Repairs the journal against what the database will hold once it has drained. */
    method ReconcileAgainst(dbImage: set<Txid>, at: int)
      requires |journal| <= JOURNAL_CAP
      modifies this`journal, this`degraded
      ensures Reconciles(old(State()), State(), dbImage, at)
    {
      var eventual := dbImage;
      for k := 0 to |journal|
        invariant eventual == Fold(dbImage, journal[..k])
        invariant State() == old(State())
      {
        assert journal[..k + 1][..k] == journal[..k];
        if journal[k].direction == Add {
          eventual := eventual + {journal[k].txid};
        } else {
          eventual := eventual - {journal[k].txid};
        }
      }
      assert journal[..|journal|] == journal;

      var adds := Enumerate(live - eventual);
      var removes := Enumerate(eventual - live);
      ghost var before := State();
      var addsFit := PushTxids(adds, Add, at);
      PushAllAppends(before, Entries(adds, Add, at));
      var removesFit := PushTxids(removes, Remove, at);
      if addsFit && removesFit {
        degraded := false;
      }
      PushAllConcat(before, Entries(adds, Add, at), Entries(removes, Remove, at));
      assert DiffParts(eventual, before.live, adds, removes);
      assert IsDiff(eventual, before.live, DiffEntries(adds, removes, at), at);
    }

    /**
     The whole journal, in order, without shrinking it; `None` when it is empty. It is
     the front of whatever the journal grows to, and brings any image it brings to
     `live` there by itself.
     */
    method BeginFlush() returns (batch: Option<seq<JournalEntry>>)
      ensures batch == if journal == [] then None else Some(journal)
      ensures batch.Some? ==> forall more :: batch.value <= journal + more
      ensures batch.Some? ==> forall base :: Fold(base, journal) == live ==> Fold(base, batch.value) == live
    {
      if journal == [] {
        return None;
      }
      return Some(journal);
    }

    /**
     Drains as many entries from the front as the batch holds. If those are the batch,
     what a database that has written them still lacks is exactly what is left.
     */
    method Commit(batch: seq<JournalEntry>)
      requires |batch| <= |journal|
      modifies this`journal
      ensures State() == old(State()).(journal := old(journal)[|batch|..])
      ensures batch <= old(journal) ==>
        && old(journal) == batch + journal
        && forall base :: Fold(Fold(base, batch), journal) == Fold(base, old(journal))
    {
      if batch <= journal {
        assert journal == batch + journal[|batch|..];
        forall base ensures Fold(Fold(base, batch), journal[|batch|..]) == Fold(base, journal) {
          FoldConcat(base, batch, journal[|batch|..]);
        }
      }
      journal := journal[|batch|..];
    }
  }

  lemma {:induction false} PushAllConcat(l: Ledger, a: seq<JournalEntry>, b: seq<JournalEntry>)
    ensures PushAll(l, a + b) == PushAll(PushAll(l, a), b)
  {
    if b == [] {
      assert a + b == a;
    } else {
      assert (a + b)[..|a + b| - 1] == a + b[..|b| - 1];
      PushAllConcat(l, a, b[..|b| - 1]);
    }
  }

  /** First and last direction per txid, filled entry by entry, then the two unmixed groups. */
  method ResidencyDelta(entries: seq<JournalEntry>) returns (added: set<Txid>, removed: set<Txid>)
    ensures added == NetAdded(entries) && removed == NetRemoved(entries)
    ensures forall image :: Flips(image, entries) ==>
      && Fold(image, entries) == (image + added) - removed
      && added !! image && removed <= image
  {
    var firstLast: map<Txid, Span> := map[];
    for k := 0 to |entries|
      invariant firstLast == Spans(entries[..k])
    {
      assert entries[..k + 1][..k] == entries[..k];
      var e := entries[k];
      if e.txid in firstLast {
        firstLast := firstLast[e.txid := firstLast[e.txid].(last := e.direction)];
      } else {
        firstLast := firstLast[e.txid := Span(e.direction, e.direction)];
      }
    }
    assert entries[..|entries|] == entries;
    added := set t | t in firstLast && firstLast[t] == Span(Add, Add);
    removed := set t | t in firstLast && firstLast[t] == Span(Remove, Remove);
    forall image | Flips(image, entries)
      ensures Fold(image, entries) == (image + added) - removed && added !! image && removed <= image
    {
      NetDelta(image, entries);
    }
  }

  /** The distinct txids moving in one direction. */
  method DistinctTxids(entries: seq<JournalEntry>, direction: Direction) returns (txids: seq<Txid>)
    ensures Elements(txids) == Moving(entries, direction)
    ensures |txids| == |Moving(entries, direction)|
  {
    txids := Enumerate(Moving(entries, direction));
  }
}
