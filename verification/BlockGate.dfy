/**
 The gate between blocks and flushes: a shut flag with a time ceiling and an
 in-flight mutex, used by any number of block callers (one at a time behind the
 apply lock) and by the reconciler's ticks, in every interleaving.
 */
module BlockGate {
  import opened Common

  /** Seconds a holder may keep the gate shut. */
  const MAX_HOLD := 300

  /** Whether the flag still shuts the gate; past the ceiling it does not. */
  predicate Shuts(heldSince: Option<int>, now: int) {
    heldSince.Some? && now - heldSince.value < MAX_HOLD
  }

  /** What testing the flag leaves behind: an expired flag is cleared. */
  function Tested(heldSince: Option<int>, now: int): Option<int> {
    if Shuts(heldSince, now) then heldSince else None
  }

  class Gate {
    var heldSince: Option<int>
    var inFlight: bool

    constructor ()
      ensures heldSince == None && !inFlight
    {
      heldSince, inFlight := None, false;
    }

    method IsHeld(now: int) returns (held: bool)
      modifies this`heldSince
      ensures held == Shuts(old(heldSince), now)
      ensures heldSince == Tested(old(heldSince), now)
    {
      if heldSince.Some? {
        if now - heldSince.value < MAX_HOLD {
          return true;
        }
        heldSince := None;
      }
      return false;
    }

    /** Claims the in-flight mutex first and tests the flag only then. */
    method TryBeginFlush(now: int) returns (lease: bool)
      modifies this
      ensures lease <==> !old(inFlight) && !Shuts(old(heldSince), now)
      ensures inFlight == (old(inFlight) || lease)
      ensures heldSince == if old(inFlight) then old(heldSince) else Tested(old(heldSince), now)
    {
      if inFlight {
        return false;
      }
      inFlight := true;
      var held := IsHeld(now);
      if held {
        inFlight := false;
        return false;
      }
      return true;
    }

    method Shut(now: int)
      modifies this`heldSince
      ensures heldSince == Some(now)
    {
      heldSince := Some(now);
    }

    method DropGuard()
      modifies this`heldSince
      ensures heldSince == None
    {
      heldSince := None;
    }
  }

  // ---------------------------------------------------------------- interleavings

  /** One `apply_block` call. `arrived` is when it shut the gate. */
  datatype Block =
    | Queued
    | Locked
    | Shutting(arrived: int)
    | Passing(arrived: int)
    | Applying(arrived: int)
    | Released
    | Finished
  {
    predicate HasGuard() {
      Shutting? || Passing? || Applying?
    }

    predicate HasApplyLock() {
      Locked? || HasGuard() || Released?
    }
  }

  /** One tick: it has locked `in_flight`, then either holds the lease or backs off. */
  datatype Tick = Away | Probing | Flushing

  datatype Owner = Free | ByTick(tick: nat) | ByBlock(block: nat)

  datatype ApplyLock = Open | HeldBy(block: nat) | Stopped

  datatype Sys = Sys(
    now: int,
    heldSince: Option<int>,
    inFlight: Owner,
    applyLock: ApplyLock,
    blocks: map<nat, Block>,
    ticks: map<nat, Tick>)

  ghost predicate Init(s: Sys) {
    && s.heldSince == None && s.inFlight == Free && s.applyLock == Open && s.blocks == map[]
    && (forall k :: k in s.ticks ==> s.ticks[k] == Away)
  }

  datatype Event =
    | Wait(seconds: nat)
    | Arrive(b: nat)
    | TakeApplyLock(b: nat)
    | ShutGate(b: nat)
    | LockInFlight(b: nat)
    | PassGate(b: nat)
    | DropGuard(b: nat)
    | DropApplyLock(b: nat)
    | CancelQueued(b: nat)
    | StopApplying
    | ResumeApplying
    | TickLocks(k: nat)
    | TickTests(k: nat)
    | TickPolls(k: nat)
    | TickEnds(k: nat)

  ghost predicate Next(s: Sys, e: Event, s': Sys) {
    match e
    case Wait(seconds) => s' == s.(now := s.now + seconds)
    case Arrive(b) => b !in s.blocks && s' == s.(blocks := s.blocks[b := Queued])
    case TakeApplyLock(b) =>
      b in s.blocks && s.blocks[b] == Queued && s.applyLock == Open
      && s' == s.(blocks := s.blocks[b := Locked], applyLock := HeldBy(b))
    case ShutGate(b) =>
      b in s.blocks && s.blocks[b] == Locked
      && s' == s.(blocks := s.blocks[b := Shutting(s.now)], heldSince := Some(s.now))
    case LockInFlight(b) =>
      b in s.blocks && s.blocks[b].Shutting? && s.inFlight == Free
      && s' == s.(blocks := s.blocks[b := Passing(s.blocks[b].arrived)], inFlight := ByBlock(b))
    case PassGate(b) =>
      b in s.blocks && s.blocks[b].Passing?
      && s' == s.(blocks := s.blocks[b := Applying(s.blocks[b].arrived)], inFlight := Free)
    case DropGuard(b) =>
      // at the end, on an error path, or because the wait was cancelled
      b in s.blocks && s.blocks[b].HasGuard()
      && s' == s.(blocks := s.blocks[b := Released], heldSince := None,
                  inFlight := if s.blocks[b].Passing? then Free else s.inFlight)
    case DropApplyLock(b) =>
      b in s.blocks && (s.blocks[b] == Released || s.blocks[b] == Locked)
      && s' == s.(blocks := s.blocks[b := Finished], applyLock := Open)
    case CancelQueued(b) =>
      b in s.blocks && s.blocks[b] == Queued && s' == s.(blocks := s.blocks[b := Finished])
    case StopApplying => s.applyLock == Open && s' == s.(applyLock := Stopped)
    case ResumeApplying => s.applyLock == Stopped && s' == s.(applyLock := Open)
    case TickLocks(k) =>
      k in s.ticks && s.ticks[k] == Away && s.inFlight == Free
      && s' == s.(ticks := s.ticks[k := Probing], inFlight := ByTick(k))
    case TickTests(k) =>
      k in s.ticks && s.ticks[k] == Probing
      && s' == (if Shuts(s.heldSince, s.now)
                then s.(ticks := s.ticks[k := Away], inFlight := Free)
                else s.(ticks := s.ticks[k := Flushing], heldSince := Tested(s.heldSince, s.now)))
    case TickPolls(k) =>
      // a flush asks whether a block preempts it; the test itself may reopen an expired gate
      k in s.ticks && s.ticks[k] == Flushing && s' == s.(heldSince := Tested(s.heldSince, s.now))
    case TickEnds(k) =>
      k in s.ticks && s.ticks[k] == Flushing && s' == s.(ticks := s.ticks[k := Away], inFlight := Free)
  }

  ghost predicate IsRun(run: seq<Sys>, events: seq<Event>) {
    && |run| == |events| + 1 && Init(run[0])
    && (forall i :: 0 <= i < |events| ==> Next(run[i], events[i], run[i + 1]))
  }

  // -------------------------------------------------------------------- invariant

  ghost predicate LocksOk(s: Sys) {
    && (forall b :: b in s.blocks ==> (s.blocks[b].HasApplyLock() <==> s.applyLock == HeldBy(b)))
    && (s.applyLock.HeldBy? ==> s.applyLock.block in s.blocks)
    && (s.inFlight.ByBlock? ==> s.inFlight.block in s.blocks)
    && (forall b :: b in s.blocks ==> (s.blocks[b].Passing? <==> s.inFlight == ByBlock(b)))
    && (forall k :: k in s.ticks ==> (s.ticks[k] != Away <==> s.inFlight == ByTick(k)))
  }

  /** While a guard lives the flag carries its arrival, or the ceiling has passed; otherwise the flag is clear. */
  ghost predicate FlagOk(s: Sys) {
    && (forall b :: b in s.blocks && s.blocks[b].HasGuard() ==>
          && s.blocks[b].arrived <= s.now
          && (s.heldSince == Some(s.blocks[b].arrived)
              || (s.heldSince == None && s.now >= s.blocks[b].arrived + MAX_HOLD)))
    && (s.heldSince.Some? ==> exists b :: b in s.blocks && s.blocks[b].HasGuard())
  }

  ghost predicate Exclusive(s: Sys) {
    forall b, k :: b in s.blocks && k in s.ticks && s.blocks[b].Applying? && s.ticks[k] == Flushing ==>
      s.now >= s.blocks[b].arrived + MAX_HOLD
  }

  ghost predicate GateInv(s: Sys) {
    LocksOk(s) && FlagOk(s) && Exclusive(s)
  }

  lemma NextKeepsLocks(s: Sys, e: Event, s': Sys)
    requires LocksOk(s) && Next(s, e, s')
    ensures LocksOk(s')
  {
  }

  /** The apply lock lets at most one guard live. */
  lemma OneGuard(s: Sys, b: nat, c: nat)
    requires LocksOk(s) && b in s.blocks && c in s.blocks
    requires s.blocks[b].HasGuard() && s.blocks[c].HasApplyLock()
    ensures b == c
  {
  }

  lemma NextKeepsFlag(s: Sys, e: Event, s': Sys)
    requires LocksOk(s) && FlagOk(s) && Next(s, e, s')
    ensures FlagOk(s')
  {
    match e
    case ShutGate(b) =>
      assert s'.blocks[b].HasGuard();
    case LockInFlight(b) =>
      assert s'.blocks[b].HasGuard();
    case PassGate(b) =>
      assert s'.blocks[b].HasGuard();
    case DropGuard(b) =>
      forall c | c in s'.blocks && s'.blocks[c].HasGuard()
        ensures false
      {
        OneGuard(s, b, c);
      }
    case Arrive(b) =>
      FlagStays(s, s');
    case TakeApplyLock(b) =>
      FlagStays(s, s');
    case DropApplyLock(b) =>
      FlagStays(s, s');
    case CancelQueued(b) =>
      FlagStays(s, s');
    case Wait(seconds) =>
      FlagStays(s, s');
    case StopApplying =>
    case ResumeApplying =>
    case TickLocks(k) =>
    case TickTests(k) =>
    case TickPolls(k) =>
    case TickEnds(k) =>
  }

  lemma FlagStays(s: Sys, s': Sys)
    requires FlagOk(s) && s'.heldSince == s.heldSince && s'.now >= s.now
    requires forall b :: b in s.blocks && s.blocks[b].HasGuard() ==> b in s'.blocks && s'.blocks[b] == s.blocks[b]
    requires forall b :: b in s'.blocks && s'.blocks[b].HasGuard() ==> b in s.blocks && s'.blocks[b] == s.blocks[b]
    ensures FlagOk(s')
  {
    if s.heldSince.Some? {
      var b :| b in s.blocks && s.blocks[b].HasGuard();
      assert s'.blocks[b].HasGuard();
    }
  }

  lemma NextKeepsExclusion(s: Sys, e: Event, s': Sys)
    requires GateInv(s) && Next(s, e, s')
    ensures Exclusive(s')
  {
  }

  lemma {:induction false} RunKeeps(run: seq<Sys>, events: seq<Event>, i: nat)
    requires IsRun(run, events) && i < |run|
    ensures GateInv(run[i])
  {
    if i > 0 {
      RunKeeps(run, events, i - 1);
      NextKeepsLocks(run[i - 1], events[i - 1], run[i]);
      NextKeepsFlag(run[i - 1], events[i - 1], run[i]);
      NextKeepsExclusion(run[i - 1], events[i - 1], run[i]);
    }
  }

  // --------------------------------------------------------------------- theorems

  /** A flush and a block past the gate coexist only once that block is past its ceiling. */
  lemma FlushExcludesBlock(run: seq<Sys>, events: seq<Event>, i: nat, b: nat, k: nat)
    requires IsRun(run, events) && i < |run|
    requires b in run[i].blocks && run[i].blocks[b].Applying?
    requires k in run[i].ticks && run[i].ticks[k] == Flushing
    ensures run[i].now >= run[i].blocks[b].arrived + MAX_HOLD
  {
    RunKeeps(run, events, i);
  }

  /** The gate is shut only while a guard lives, and below the ceiling it is shut whenever one does. */
  lemma ShutExactlyWhileGuarded(run: seq<Sys>, events: seq<Event>, i: nat)
    requires IsRun(run, events) && i < |run|
    ensures var s := run[i];
            Shuts(s.heldSince, s.now) <==>
              exists b :: b in s.blocks && s.blocks[b].HasGuard() && s.now < s.blocks[b].arrived + MAX_HOLD
  {
    RunKeeps(run, events, i);
    var s := run[i];
    if s.heldSince.Some? {
      var b :| b in s.blocks && s.blocks[b].HasGuard();
      assert s.heldSince == Some(s.blocks[b].arrived);
    }
  }

  /** At most one tick holds the lease, so at most one batch is ever outstanding. */
  lemma OneLease(run: seq<Sys>, events: seq<Event>, i: nat, k: nat, l: nat)
    requires IsRun(run, events) && i < |run|
    requires k in run[i].ticks && l in run[i].ticks && run[i].ticks[k] == Flushing && run[i].ticks[l] == Flushing
    ensures k == l
  {
    RunKeeps(run, events, i);
  }
}
