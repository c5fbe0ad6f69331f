/**
 One client's subscription, interleaved with publishing. The server updates its
 snapshot cluster by cluster before it sends the event, so a client may read a
 snapshot that already contains events it will receive again.
 */
module StreamRun {
  import opened Common
  import opened ClusterDb
  import opened ClusterStream

  /** A publish under way: what is still to be applied to the snapshot, and the event so far. */
  datatype Publishing = Quiet | Busy(upserts: seq<(int, ActiveCluster)>, removals: seq<int>, event: Event)

  datatype Client =
    | Absent
    | Subscribed(next: nat)
    | Consuming(ui: Ui, frames: seq<Event>, next: nat)

  datatype Sys = Sys(snapshot: View, log: seq<Event>, publishing: Publishing, client: Client)

  ghost predicate Init(s: Sys) {
    s.log == [] && s.publishing == Quiet && s.client == Absent
  }

  datatype Step =
    | StartPublish(upserts: seq<(int, ActiveCluster)>, removals: seq<int>)
    | UpsertOne
    | RemoveOne
    | Send
    | Subscribe
    | ReadSnapshot(frames: seq<Event>)
    | Consume
    | Toggle

  function EventOf(p: Publishing): Event {
    if p.Busy? then p.event else NoNews
  }

  function UpsertNext(s: Sys): Sys
    requires s.publishing.Busy? && s.publishing.upserts != []
  {
    var (id, c) := s.publishing.upserts[0];
    var p := s.publishing.(upserts := s.publishing.upserts[1..]);
    if id in s.snapshot && s.snapshot[id] == c then s.(publishing := p)
    else s.(snapshot := s.snapshot[id := c],
            publishing := p.(event := Event(p.event.upserted + [RefOf(id, c)], p.event.removed)))
  }

  function RemoveNext(s: Sys): Sys
    requires s.publishing.Busy? && s.publishing.removals != []
  {
    var id := s.publishing.removals[0];
    var p := s.publishing.(removals := s.publishing.removals[1..]);
    if id !in s.snapshot then s.(publishing := p)
    else s.(snapshot := s.snapshot - {id},
            publishing := p.(event := Event(p.event.upserted, p.event.removed + [id])))
  }

  ghost predicate Next(s: Sys, e: Step, s': Sys) {
    match e
    case StartPublish(upserts, removals) =>
      s.publishing == Quiet && s' == s.(publishing := Busy(upserts, removals, NoNews))
    case UpsertOne =>
      s.publishing.Busy? && s.publishing.upserts != [] && s' == UpsertNext(s)
    case RemoveOne =>
      s.publishing.Busy? && s.publishing.upserts == [] && s.publishing.removals != [] && s' == RemoveNext(s)
    case Send =>
      && s.publishing.Busy? && s.publishing.upserts == [] && s.publishing.removals == []
      && s' == s.(publishing := Quiet, log := if s.publishing.event == NoNews then s.log
          else s.log + [s.publishing.event])
    case Subscribe =>
      s.client == Absent && s' == s.(client := Subscribed(|s.log|))
    case ReadSnapshot(frames) =>
      // the read lock makes the listing one consistent picture; a client starts with an empty map
      && s.client.Subscribed?
      && (forall i :: 0 <= i < |frames| ==> frames[i].removed == [])
      && IsListing(RefsOf(s.snapshot), Flatten(frames))
      && s' == s.(client := Consuming(Ui(map[], map[], None), frames, s.client.next))
    case Consume =>
      && s.client.Consuming?
      && if s.client.frames != []
         then s' == s.(client := s.client.(ui := ApplyToUi(s.client.ui, s.client.frames[0]),
             frames := s.client.frames[1..]))
         else s.client.next < |s.log|
              && s' == s.(client := s.client.(ui := ApplyToUi(s.client.ui, s.log[s.client.next]),
                  next := s.client.next + 1))
    case Toggle =>
      s.client.Consuming? && s' == s.(client := s.client.(ui := Reduce(s.client.ui, TogglePause)))
  }

  ghost predicate IsRun(run: seq<Sys>, steps: seq<Step>) {
    && |run| == |steps| + 1 && Init(run[0])
    && (forall i :: 0 <= i < |steps| ==> Next(run[i], steps[i], run[i + 1]))
  }

  // ------------------------------------------------------------------- invariant

  /** Replaying the events on a map that already has them changes nothing. */
  ghost predicate Absorbed(m: Refs, es: seq<Event>, last: Event) {
    ApplyEvent(ApplyAll(m, es), last) == m
  }

  /** The event so far has only upserts while upserts remain, and the snapshot already contains all of it. */
  ghost predicate PublishingOk(s: Sys) {
    && (s.publishing.Busy? && s.publishing.upserts != [] ==> s.publishing.event.removed == [])
    && Absorbed(RefsOf(s.snapshot), [], EventOf(s.publishing))
  }

  ghost predicate ClientOk(s: Sys) {
    match s.client
    case Absent => true
    case Subscribed(next) =>
      next <= |s.log| && Absorbed(RefsOf(s.snapshot), s.log[next..], EventOf(s.publishing))
    case Consuming(ui, frames, next) =>
      && next <= |s.log|
      && ApplyEvent(ApplyAll(ApplyAll(ui.live, frames), s.log[next..]), EventOf(s.publishing)) == RefsOf(s.snapshot)
  }

  ghost predicate StreamInv(s: Sys) {
    PublishingOk(s) && ClientOk(s)
  }

  // -------------------------------------------------------- one cluster at a time

  /** Maps that differ at most at one id. */
  ghost predicate AgreeOff(a: Refs, b: Refs, id: int) {
    forall k :: k != id ==> (k in a <==> k in b) && (k in a ==> a[k] == b[k])
  }

  lemma {:induction false} PutAgrees(a: Refs, b: Refs, id: int, refs: seq<ClusterRef>)
    requires AgreeOff(a, b, id)
    ensures AgreeOff(PutAll(a, refs), PutAll(b, refs), id)
  {
    if refs != [] {
      PutAgrees(a, b, id, refs[..|refs| - 1]);
    }
  }

  lemma EventAgrees(a: Refs, b: Refs, id: int, e: Event)
    requires AgreeOff(a, b, id)
    ensures AgreeOff(ApplyEvent(a, e), ApplyEvent(b, e), id)
  {
    PutAgrees(a, b, id, e.upserted);
  }

  lemma {:induction false} EventsAgree(a: Refs, b: Refs, id: int, es: seq<Event>)
    requires AgreeOff(a, b, id)
    ensures AgreeOff(ApplyAll(a, es), ApplyAll(b, es), id)
  {
    if es != [] {
      EventsAgree(a, b, id, es[..|es| - 1]);
      EventAgrees(ApplyAll(a, es[..|es| - 1]), ApplyAll(b, es[..|es| - 1]), id, es[|es| - 1]);
    }
  }

  lemma AgreeAfter(a: Refs, b: Refs, id: int, r: ClusterRef)
    requires AgreeOff(a, b, id)
    ensures a[id := r] == b[id := r]
  {
    var x, y := a[id := r], b[id := r];
    forall k
      ensures k in x <==> k in y
      ensures k in x ==> x[k] == y[k]
    {
    }
  }

  lemma AgreeWithout(a: Refs, b: Refs, id: int)
    requires AgreeOff(a, b, id)
    ensures a - {id} == b - {id}
  {
    var x, y := a - {id}, b - {id};
    forall k
      ensures k in x <==> k in y
      ensures k in x ==> x[k] == y[k]
    {
    }
  }

  lemma UpsertLast(m: Refs, e: Event, r: ClusterRef)
    requires e.removed == []
    ensures ApplyEvent(m, Event(e.upserted + [r], [])) == ApplyEvent(m, e)[r.id := r]
  {
    PutOneMore(m, e.upserted, r);
    assert Elements(e.removed) == {} && Elements<int>([]) == {};
    MinusNothing(PutAll(m, e.upserted));
    MinusNothing(PutAll(m, e.upserted + [r]));
  }

  lemma MinusNothing(m: Refs)
    ensures m - {} == m
  {
  }

  lemma RemoveLast(m: Refs, e: Event, id: int)
    ensures ApplyEvent(m, Event(e.upserted, e.removed + [id])) == ApplyEvent(m, e) - {id}
  {
    DropOneMore(PutAll(m, e.upserted), e.removed, id);
  }

  lemma UpsertAbsorbed(m: Refs, es: seq<Event>, last: Event, r: ClusterRef)
    requires Absorbed(m, es, last) && last.removed == []
    ensures Absorbed(m[r.id := r], es, Event(last.upserted + [r], []))
  {
    var changed := m[r.id := r];
    EventsAgree(m, changed, r.id, es);
    EventAgrees(ApplyAll(m, es), ApplyAll(changed, es), r.id, last);
    UpsertLast(ApplyAll(changed, es), last, r);
    AgreeAfter(m, ApplyEvent(ApplyAll(changed, es), last), r.id, r);
  }

  lemma RemoveAbsorbed(m: Refs, es: seq<Event>, last: Event, id: int)
    requires Absorbed(m, es, last)
    ensures Absorbed(m - {id}, es, Event(last.upserted, last.removed + [id]))
  {
    var changed := m - {id};
    EventsAgree(m, changed, id, es);
    EventAgrees(ApplyAll(m, es), ApplyAll(changed, es), id, last);
    RemoveLast(ApplyAll(changed, es), last, id);
    AgreeWithout(m, ApplyEvent(ApplyAll(changed, es), last), id);
  }

  lemma SentApplies(m: Refs, es: seq<Event>, e: Event)
    ensures ApplyEvent(ApplyAll(m, es + [e]), NoNews) == ApplyEvent(ApplyAll(m, es), e)
  {
    assert (es + [e])[..|es|] == es;
    NoNewsApplies(ApplyAll(m, es + [e]));
  }

  // ----------------------------------------------------------- what each step keeps

  lemma UpsertKeeps(s: Sys)
    requires StreamInv(s) && s.publishing.Busy? && s.publishing.upserts != []
    ensures StreamInv(UpsertNext(s))
  {
    var (id, c) := s.publishing.upserts[0];
    var m, last := RefsOf(s.snapshot), s.publishing.event;
    if !(id in s.snapshot && s.snapshot[id] == c) {
      RefsUpsert(s.snapshot, id, c);
      UpsertAbsorbed(m, [], last, RefOf(id, c));
      match s.client
      case Absent =>
      case Subscribed(next) => UpsertAbsorbed(m, s.log[next..], last, RefOf(id, c));
      case Consuming(ui, frames, next) =>
        UpsertLast(ApplyAll(ApplyAll(ui.live, frames), s.log[next..]), last, RefOf(id, c));
    }
  }

  lemma RemoveKeeps(s: Sys)
    requires StreamInv(s) && s.publishing.Busy? && s.publishing.upserts == [] && s.publishing.removals != []
    ensures StreamInv(RemoveNext(s))
  {
    var id := s.publishing.removals[0];
    var m, last := RefsOf(s.snapshot), s.publishing.event;
    if id in s.snapshot {
      RefsRemove(s.snapshot, id);
      RemoveAbsorbed(m, [], last, id);
      match s.client
      case Absent =>
      case Subscribed(next) => RemoveAbsorbed(m, s.log[next..], last, id);
      case Consuming(ui, frames, next) =>
        RemoveLast(ApplyAll(ApplyAll(ui.live, frames), s.log[next..]), last, id);
    }
  }

  lemma SendKeeps(s: Sys, s': Sys)
    requires StreamInv(s) && Next(s, Send, s')
    ensures StreamInv(s')
  {
    var e := s.publishing.event;
    NoNewsApplies(RefsOf(s.snapshot));
    if e != NoNews {
      match s.client
      case Absent =>
      case Subscribed(next) =>
        assert s'.log[next..] == s.log[next..] + [e];
        SentApplies(RefsOf(s.snapshot), s.log[next..], e);
      case Consuming(ui, frames, next) =>
        assert s'.log[next..] == s.log[next..] + [e];
        SentApplies(ApplyAll(ui.live, frames), s.log[next..], e);
    }
  }

  lemma ReadKeeps(s: Sys, frames: seq<Event>, s': Sys)
    requires StreamInv(s) && Next(s, ReadSnapshot(frames), s')
    ensures StreamInv(s')
  {
    FramesPut(map[], frames);
    ListingRebuilds(RefsOf(s.snapshot), Flatten(frames));
  }

  lemma ConsumeKeeps(s: Sys, s': Sys)
    requires StreamInv(s) && Next(s, Consume, s')
    ensures StreamInv(s')
  {
    var ui, frames, next := s.client.ui, s.client.frames, s.client.next;
    if frames != [] {
      ReduceFollows(ui, Arrived(frames[0]));
      ApplyHead(ui.live, frames);
    } else {
      ReduceFollows(ui, Arrived(s.log[next]));
      ApplyHead(ui.live, s.log[next..]);
      assert s.log[next..][1..] == s.log[next + 1..];
    }
  }

  lemma NextKeeps(s: Sys, e: Step, s': Sys)
    requires StreamInv(s) && Next(s, e, s')
    ensures StreamInv(s')
  {
    match e
    case StartPublish(upserts, removals) =>
      NoNewsApplies(RefsOf(s.snapshot));
    case UpsertOne =>
      UpsertKeeps(s);
    case RemoveOne =>
      RemoveKeeps(s);
    case Send =>
      SendKeeps(s, s');
    case Subscribe =>
      assert s.log[|s.log|..] == [];
    case ReadSnapshot(frames) =>
      ReadKeeps(s, frames, s');
    case Consume =>
      ConsumeKeeps(s, s');
    case Toggle =>
      ReduceFollows(s.client.ui, TogglePause);
  }

  lemma {:induction false} RunKeeps(run: seq<Sys>, steps: seq<Step>, i: nat)
    requires IsRun(run, steps) && i < |run|
    ensures StreamInv(run[i])
  {
    if i == 0 {
      NoNewsApplies(RefsOf(run[0].snapshot));
    } else {
      RunKeeps(run, steps, i - 1);
      NextKeeps(run[i - 1], steps[i - 1], run[i]);
    }
  }

  /**
   Once a client has consumed everything sent and no publish is under way, it shows
   exactly the server's active clusters, with their members, fees, sizes and ages.
   */
  lemma SubscriberConverges(run: seq<Sys>, steps: seq<Step>, i: nat)
    requires IsRun(run, steps) && i < |run|
    requires run[i].client.Consuming? && run[i].client.frames == [] && run[i].client.next == |run[i].log|
    requires run[i].publishing == Quiet
    ensures ShowsAll(run[i].client.ui.live, run[i].snapshot) && run[i].client.ui.live == RefsOf(run[i].snapshot)
  {
    RunKeeps(run, steps, i);
    var s := run[i];
    assert s.log[s.client.next..] == [];
    NoNewsApplies(s.client.ui.live);
    RefsShow(s.client.ui.live, s.snapshot);
  }
}
