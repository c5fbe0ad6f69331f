/**
 The flush under the gate: the consumer's steps belong to ticks, a tick takes them
 only while it holds its lease on the gate, and it keeps the lease until its batch
 is committed or given up. Delivery then follows from the gate's locks.
 */
module GatedFlush {
  import BlockGate
  import FlushRun
  import MempoolLedger

  /** The two machines side by side; where each tick stands replaces the single `phase` of the flush. */
  datatype Sys = Sys(gate: BlockGate.Sys, flush: FlushRun.Sys, phases: map<nat, FlushRun.Phase>)

  function PhaseOf(s: Sys, k: nat): FlushRun.Phase {
    if k in s.phases then s.phases[k] else FlushRun.Idle
  }

  predicate Busy(s: Sys, k: nat) {
    PhaseOf(s, k) != FlushRun.Idle
  }

  /** The flush as one tick sees it. */
  function Seen(s: Sys, phase: FlushRun.Phase): FlushRun.Sys {
    s.flush.(phase := phase)
  }

  predicate Leased(s: Sys, k: nat) {
    k in s.gate.ticks && s.gate.ticks[k] == BlockGate.Flushing
  }

  ghost predicate Init(s: Sys) {
    BlockGate.Init(s.gate) && FlushRun.Init(s.flush) && s.phases == map[]
  }

  datatype Event =
    | Gate(g: BlockGate.Event)
    | Produce(f: FlushRun.Event)
    | Tick(k: nat, f: FlushRun.Event)

  predicate Consumes(f: FlushRun.Event) {
    f.BeginFlush? || f.LookUp? || f.Write? || f.GiveUp? || f.Commit?
  }

  ghost predicate Next(s: Sys, e: Event, s': Sys) {
    match e
    case Gate(g) =>
      // the lease is dropped only at the end of the tick
      && BlockGate.Next(s.gate, g, s'.gate) && (g.TickEnds? ==> !Busy(s, g.k))
      && s' == s.(gate := s'.gate)
    case Produce(f) =>
      !Consumes(f) && FlushRun.Next(s.flush, f, s'.flush) && s' == s.(flush := s'.flush)
    case Tick(k, f) =>
      && Consumes(f) && Leased(s, k)
      && FlushRun.Next(Seen(s, PhaseOf(s, k)), f, Seen(s', PhaseOf(s', k)))
      && s' == s.(flush := s'.flush, phases := s.phases[k := PhaseOf(s', k)])
  }

  ghost predicate IsRun(run: seq<Sys>, events: seq<Event>) {
    && |run| == |events| + 1 && Init(run[0])
    && (forall i :: 0 <= i < |events| ==> Next(run[i], events[i], run[i + 1]))
  }

  // ------------------------------------------------------------------- invariant

  ghost predicate OnlyLeasedBusy(s: Sys) {
    forall k :: Busy(s, k) ==> Leased(s, k)
  }

  /** The phase of whoever is busy. */
  ghost function Current(s: Sys): FlushRun.Phase {
    if exists k: nat :: Busy(s, k) then
      var k: nat :| Busy(s, k);
      PhaseOf(s, k)
    else FlushRun.Idle
  }

  ghost predicate GatedInv(s: Sys) {
    BlockGate.GateInv(s.gate) && OnlyLeasedBusy(s) && FlushRun.RunInv(Seen(s, Current(s)))
  }

  /** A leased tick sees the flush as it is: nobody else can be busy. */
  lemma LeaseIsCurrent(s: Sys, k: nat)
    requires BlockGate.LocksOk(s.gate) && OnlyLeasedBusy(s) && Leased(s, k)
    ensures Current(s) == PhaseOf(s, k)
  {
    forall j: nat | Busy(s, j) ensures j == k {
      assert Leased(s, j);
    }
    if exists j: nat :: Busy(s, j) {
      var j: nat :| Busy(s, j) && Current(s) == PhaseOf(s, j);
    } else {
      assert !Busy(s, k);
    }
  }

  lemma GateKeeps(s: Sys, g: BlockGate.Event, s': Sys)
    requires GatedInv(s) && Next(s, Gate(g), s')
    ensures GatedInv(s')
  {
    BlockGate.NextKeepsLocks(s.gate, g, s'.gate);
    BlockGate.NextKeepsFlag(s.gate, g, s'.gate);
    BlockGate.NextKeepsExclusion(s.gate, g, s'.gate);
    forall k | Busy(s', k) ensures Leased(s', k) {
      assert Busy(s, k) && Leased(s, k);
    }
    SamePhases(s, s');
  }

  lemma SamePhases(s: Sys, s': Sys)
    requires s'.phases == s.phases && BlockGate.LocksOk(s.gate) && OnlyLeasedBusy(s)
    requires BlockGate.LocksOk(s'.gate) && OnlyLeasedBusy(s')
    ensures Current(s') == Current(s)
  {
    if k: nat :| Busy(s, k) {
      assert Busy(s', k);
      LeaseIsCurrent(s, k);
      LeaseIsCurrent(s', k);
    } else {
      assert forall k: nat :: Busy(s', k) ==> Busy(s, k);
    }
  }

  /** Producers neither look at the phase nor touch it. */
  lemma PhaseBlind(a: FlushRun.Sys, f: FlushRun.Event, b: FlushRun.Sys, phase: FlushRun.Phase)
    requires !Consumes(f) && FlushRun.Next(a, f, b)
    ensures FlushRun.Next(a.(phase := phase), f, b.(phase := phase))
  {
  }

  lemma NextKeeps(s: Sys, e: Event, s': Sys)
    requires GatedInv(s) && Next(s, e, s')
    ensures GatedInv(s')
  {
    match e
    case Gate(g) => GateKeeps(s, g, s');
    case Produce(f) =>
      forall k | Busy(s', k) ensures Leased(s', k) {
        assert Busy(s, k) && Leased(s, k);
      }
      SamePhases(s, s');
      PhaseBlind(s.flush, f, s'.flush, Current(s));
      FlushRun.NextKeeps(Seen(s, Current(s)), f, Seen(s', Current(s')));
    case Tick(k, f) =>
      LeaseIsCurrent(s, k);
      forall j | Busy(s', j) ensures Leased(s', j) {
        assert j != k ==> Busy(s, j);
      }
      LeaseIsCurrent(s', k);
      FlushRun.NextKeeps(Seen(s, Current(s)), f, Seen(s', Current(s')));
  }

  lemma {:induction false} RunKeeps(run: seq<Sys>, events: seq<Event>, i: nat)
    requires IsRun(run, events) && i < |run|
    ensures GatedInv(run[i])
  {
    if i == 0 {
      FlushRun.InitKeeps(run[0].flush);
      assert forall k: nat :: !Busy(run[0], k);
    } else {
      RunKeeps(run, events, i - 1);
      NextKeeps(run[i - 1], events[i - 1], run[i]);
    }
  }

  // --------------------------------------------------------------------- theorems

  /** At most one batch is outstanding, because a tick that has one holds the lease. */
  lemma OneBatchOutstanding(run: seq<Sys>, events: seq<Event>, i: nat, k: nat, l: nat)
    requires IsRun(run, events) && i < |run| && Busy(run[i], k) && Busy(run[i], l)
    ensures k == l
  {
    RunKeeps(run, events, i);
    assert Leased(run[i], k) && Leased(run[i], l);
  }

  /**
   Delivery and image under the lease alone: for any number of ticks, blocks and
   producers, persisted rows and then the journal, less a batch already written,
   are the accepted entries once and in order, and they fold to `live`.
   */
  lemma DeliveredUnderLease(run: seq<Sys>, events: seq<Event>, i: nat, k: nat)
    requires IsRun(run, events) && i < |run|
    ensures var f := run[i].flush;
            && FlushRun.Persisted(f.rows) <= f.history
            && ((forall j: nat :: !PhaseOf(run[i], j).Written?) ==>
                  f.history == FlushRun.Persisted(f.rows) + f.ledger.journal)
            && (PhaseOf(run[i], k).Written? ==>
                  var n := |PhaseOf(run[i], k).batch|;
                  n <= |f.ledger.journal| && f.history == FlushRun.Persisted(f.rows) + f.ledger.journal[n..])
            && (!f.ledger.degraded ==>
                  MempoolLedger.Fold({}, FlushRun.Persisted(f.rows) + f.ledger.journal) == f.ledger.live)
  {
    RunKeeps(run, events, i);
    var s := run[i];
    var seen := Seen(s, Current(s));
    FlushRun.ImageOfTables(seen);
    FlushRun.DeliveryTold(seen);
    MempoolLedger.FoldConcat({}, FlushRun.Persisted(seen.rows), seen.ledger.journal);
    if Busy(s, k) {
      LeaseIsCurrent(s, k);
    }
  }
}
