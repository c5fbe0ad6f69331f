/**
 Streaming the active clusters: the in-memory snapshot, the change events diffed
 against it, the initial frames, and the browser's reducer.
 */
module ClusterStream {
  import opened Common
  import opened ClusterDb
  import opened ClusterDelta

  datatype ChunkRef = ChunkRef(txids: seq<Txid>, fee: int, vsize: int)

  /** A cluster as clients see it. */
  datatype ClusterRef = ClusterRef(id: int, chunks: seq<ChunkRef>, totalVsize: int, totalFee: int, firstSeenAt: int)

  datatype Event = Event(upserted: seq<ClusterRef>, removed: seq<int>)

  type Refs = map<int, ClusterRef>

  const NoNews := Event([], [])

  const SNAPSHOT_CHUNK_SIZE := 1_000

  function Vsize(weight: int): int {
    (weight + 3) / 4
  }

  function RefOf(id: int, c: ActiveCluster): ClusterRef {
    ClusterRef(id,
               seq(|c.chunks|, i requires 0 <= i < |c.chunks| =>
                 ChunkRef(c.chunks[i].txids, c.chunks[i].fee, Vsize(c.chunks[i].weight))),
               Vsize(c.totalWeight), c.totalFee, c.firstSeenAt)
  }

  /** What a client with a complete picture holds. */
  function RefsOf(view: View): Refs {
    map id | id in view :: RefOf(id, view[id])
  }

  /** The weight in vbytes, rounded up. */
  ghost predicate RoundsUp(vsize: int, weight: int) {
    0 <= 4 * vsize - weight <= 3
  }

  /** The reference tells the cluster's fee, age and size, and chunk by chunk its members, fee and size. */
  ghost predicate Shows(r: ClusterRef, id: int, c: ActiveCluster) {
    && r.id == id && r.totalFee == c.totalFee && r.firstSeenAt == c.firstSeenAt
    && RoundsUp(r.totalVsize, c.totalWeight) && |r.chunks| == |c.chunks|
    && forall i :: 0 <= i < |c.chunks| ==>
         && r.chunks[i].txids == c.chunks[i].txids && r.chunks[i].fee == c.chunks[i].fee
         && RoundsUp(r.chunks[i].vsize, c.chunks[i].weight)
  }

  /** Exactly the active clusters, each as it is. */
  ghost predicate ShowsAll(m: Refs, view: View) {
    m.Keys == view.Keys && forall id :: id in view ==> Shows(m[id], id, view[id])
  }

  lemma RefShows(id: int, c: ActiveCluster)
    ensures Shows(RefOf(id, c), id, c)
  {
  }

  /** There is one way to show a cluster. */
  lemma ShownOnce(r: ClusterRef, id: int, c: ActiveCluster)
    requires Shows(r, id, c)
    ensures r == RefOf(id, c)
  {
    assert r.chunks == RefOf(id, c).chunks;
  }

  /** What a client with a complete picture holds is exactly a picture of the view. */
  lemma RefsShow(m: Refs, view: View)
    ensures ShowsAll(m, view) <==> m == RefsOf(view)
  {
    forall id | id in view ensures Shows(RefOf(id, view[id]), id, view[id]) {
      RefShows(id, view[id]);
    }
    if ShowsAll(m, view) {
      forall id | id in view ensures m[id] == RefsOf(view)[id] {
        ShownOnce(m[id], id, view[id]);
      }
    }
  }

  // -------------------------------------------------------------- applying events

  function PutAll(m: Refs, refs: seq<ClusterRef>): Refs {
    if refs == [] then m else PutAll(m, refs[..|refs| - 1])[refs[|refs| - 1].id := refs[|refs| - 1]]
  }

  function DropAll(m: Refs, ids: seq<int>): Refs {
    m - Elements(ids)
  }

  function ApplyEvent(m: Refs, e: Event): Refs {
    DropAll(PutAll(m, e.upserted), e.removed)
  }

  function ApplyAll(m: Refs, es: seq<Event>): Refs {
    if es == [] then m else ApplyEvent(ApplyAll(m, es[..|es| - 1]), es[|es| - 1])
  }

  lemma PutOneMore(m: Refs, refs: seq<ClusterRef>, r: ClusterRef)
    ensures PutAll(m, refs + [r]) == PutAll(m, refs)[r.id := r]
  {
    assert (refs + [r])[..|refs|] == refs;
  }

  lemma NoNewsApplies(m: Refs)
    ensures ApplyEvent(m, NoNews) == m
  {
    assert Elements<int>([]) == {};
  }

  lemma {:induction false} ApplyConcat(m: Refs, a: seq<Event>, b: seq<Event>)
    ensures ApplyAll(m, a + b) == ApplyAll(ApplyAll(m, a), b)
  {
    if b == [] {
      assert a + b == a;
    } else {
      assert (a + b)[..|a + b| - 1] == a + b[..|b| - 1];
      ApplyConcat(m, a, b[..|b| - 1]);
    }
  }

  lemma ApplyOne(m: Refs, e: Event)
    ensures ApplyAll(m, [e]) == ApplyEvent(m, e)
  {
    assert [e][..|[e]| - 1] == [];
  }

  lemma ApplyHead(m: Refs, es: seq<Event>)
    requires es != []
    ensures ApplyAll(m, es) == ApplyAll(ApplyEvent(m, es[0]), es[1..])
  {
    assert es == [es[0]] + es[1..];
    ApplyConcat(m, [es[0]], es[1..]);
    ApplyOne(m, es[0]);
  }

  // ------------------------------------------------------------------ publishing

  lemma RefsUpsert(view: View, id: int, c: ActiveCluster)
    ensures RefsOf(view[id := c]) == RefsOf(view)[id := RefOf(id, c)]
  {
  }

  lemma RefsRemove(view: View, id: int)
    ensures RefsOf(view - {id}) == RefsOf(view) - {id}
  {
  }

  lemma DropOneMore(m: Refs, ids: seq<int>, id: int)
    ensures DropAll(m, ids + [id]) == DropAll(m, ids) - {id}
    ensures id !in DropAll(m, ids) ==> DropAll(m, ids) - {id} == DropAll(m, ids)
  {
    assert Elements(ids + [id]) == Elements(ids) + {id};
  }

  class ClusterDeltaService {
    var snapshot: View
    var published: seq<Event>

    constructor ()
      ensures snapshot == map[] && published == []
    {
      snapshot, published := map[], [];
    }

    method Seed(clusters: View)
      modifies this`snapshot
      ensures snapshot == clusters
    {
      snapshot := clusters;
    }

    /** Records a cluster; a reference comes back when it is new or changed. */
    method Upsert(id: int, c: ActiveCluster) returns (r: Option<ClusterRef>)
      modifies this`snapshot
      ensures snapshot == old(snapshot)[id := c]
      ensures r == if snapshot == old(snapshot) then None else Some(RefOf(id, c))
      ensures r.Some? ==> Shows(r.value, id, c)
    {
      RefShows(id, c);
      if id in snapshot && snapshot[id] == c {
        assert snapshot[id := c] == snapshot;
        return None;
      }
      snapshot := snapshot[id := c];
      return Some(RefOf(id, c));
    }

    method Remove(id: int) returns (known: bool)
      modifies this`snapshot
      ensures snapshot == old(snapshot) - {id}
      ensures known <==> snapshot != old(snapshot)
    {
      known := id in snapshot;
      if !known {
        assert snapshot - {id} == snapshot;
      }
      snapshot := snapshot - {id};
    }

    /** Applies one change set to the snapshot and publishes exactly the difference, if there is one. */
    method Publish(d: Delta)
      modifies this
      ensures snapshot == Apply(old(snapshot), d)
      ensures published == old(published) ==> RefsOf(snapshot) == RefsOf(old(snapshot))
      ensures published != old(published) ==>
        |published| == |old(published)| + 1 && published[..|old(published)|] == old(published)
        && ApplyEvent(RefsOf(old(snapshot)), published[|old(published)|]) == RefsOf(snapshot)
      ensures published != old(published) ==>
        forall m :: ShowsAll(m, old(snapshot)) ==> ShowsAll(ApplyEvent(m, published[|old(published)|]), snapshot)
    {
      ghost var before := snapshot;
      var upserted := PublishUpserts(d.upserted);
      ghost var mid := snapshot;
      var removed := PublishRemovals(d.removed);
      var event := Event(upserted, removed);
      assert ApplyEvent(RefsOf(before), event) == RefsOf(snapshot);
      if upserted == [] && removed == [] {
        NoNewsApplies(RefsOf(before));
        return;
      }
      published := published + [event];
      forall m | ShowsAll(m, before) ensures ShowsAll(ApplyEvent(m, event), snapshot) {
        RefsShow(m, before);
        RefsShow(ApplyEvent(m, event), snapshot);
      }
    }

    method PublishUpserts(news: View) returns (upserted: seq<ClusterRef>)
      modifies this`snapshot
      ensures snapshot == old(snapshot) + news
      ensures PutAll(RefsOf(old(snapshot)), upserted) == RefsOf(snapshot)
    {
      ghost var base := snapshot;
      upserted := [];
      var left := news.Keys;
      TakeEnds(base, news);
      while left != {}
        invariant left <= news.Keys
        invariant snapshot == base + (news - left)
        invariant PutAll(RefsOf(base), upserted) == RefsOf(snapshot)
        decreases |left|
      {
        var id := PickOne(left);
        ghost var was := snapshot;
        TakeOne(base, {}, news, left, id);
        RefsUpsert(was, id, news[id]);
        var r := Upsert(id, news[id]);
        if r.Some? {
          PutOneMore(RefsOf(base), upserted, r.value);
          upserted := upserted + [r.value];
        }
        left := left - {id};
      }
    }

    method PublishRemovals(gone: set<int>) returns (removed: seq<int>)
      modifies this`snapshot
      ensures snapshot == old(snapshot) - gone
      ensures DropAll(RefsOf(old(snapshot)), removed) == RefsOf(snapshot)
    {
      ghost var base := snapshot;
      removed := [];
      var left := gone;
      assert Elements<int>([]) == {} && base - (gone - left) == base;
      while left != {}
        invariant left <= gone
        invariant snapshot == base - (gone - left)
        invariant DropAll(RefsOf(base), removed) == RefsOf(snapshot)
        decreases |left|
      {
        var id := PickOne(left);
        assert gone - (left - {id}) == (gone - left) + {id};
        MinusTwice(base, gone - left, id);
        RefsRemove(snapshot, id);
        DropOneMore(RefsOf(base), removed, id);
        var known := Remove(id);
        if known {
          removed := removed + [id];
        }
        left := left - {id};
      }
    }

    /** The whole active set as frames of at most `size` clusters, each cluster in exactly one of them. */
    method GetCurrentChunked(size: int) returns (frames: seq<Event>)
      ensures Framed(frames, if size < 1 then 1 else size)
      ensures IsListing(RefsOf(snapshot), Flatten(frames)) && ShowsAll(PutAll(map[], Flatten(frames)), snapshot)
    {
      var ids := Enumerate(snapshot.Keys);
      ListedLists(snapshot, ids);
      var refs := Listed(snapshot, ids);
      frames := InFrames(refs, if size < 1 then 1 else size);
      ListingRebuilds(RefsOf(snapshot), refs);
      RefsShow(RefsOf(snapshot), snapshot);
    }

    /** The initial frames of a subscription: at least one, even when nothing is active. */
    method GetCurrentSnapshot() returns (frames: seq<Event>)
      ensures frames != [] && forall i :: 0 <= i < |frames| ==>
        frames[i].removed == [] && |frames[i].upserted| <= SNAPSHOT_CHUNK_SIZE
      ensures IsListing(RefsOf(snapshot), Flatten(frames)) && ShowsAll(PutAll(map[], Flatten(frames)), snapshot)
    {
      frames := GetCurrentChunked(SNAPSHOT_CHUNK_SIZE);
      if frames == [] {
        FlattenOneMore([], NoNews);
        assert [] + [NoNews] == [NoNews];
        frames := [NoNews];
      }
    }
  }

  lemma OneMoreRef(sent: seq<ClusterRef>, held: seq<ClusterRef>, refs: seq<ClusterRef>, k: nat)
    requires k < |refs| && sent + held == refs[..k]
    ensures sent + (held + [refs[k]]) == refs[..k + 1]
  {
    assert sent + (held + [refs[k]]) == (sent + held) + [refs[k]];
  }

  /** Frames of news only, none empty and none above the limit. */
  ghost predicate Framed(frames: seq<Event>, limit: int) {
    forall i :: 0 <= i < |frames| ==> frames[i].removed == [] && 0 < |frames[i].upserted| <= limit
  }

  lemma FrameSent(frames: seq<Event>, held: seq<ClusterRef>, limit: int, sent: seq<ClusterRef>)
    requires Framed(frames, limit) && 0 < |held| <= limit && Flatten(frames) + held == sent
    ensures var after := frames + [Event(held, [])]; Framed(after, limit) && Flatten(after) == sent && sent + [] == sent
  {
    FlattenOneMore(frames, Event(held, []));
  }

  /** Fills one frame after another. */
  method InFrames(refs: seq<ClusterRef>, limit: int) returns (frames: seq<Event>)
    requires limit >= 1
    ensures Framed(frames, limit) && Flatten(frames) == refs
  {
    frames := [];
    var upserted: seq<ClusterRef> := [];
    for k := 0 to |refs|
      invariant Framed(frames, limit) && |upserted| < limit
      invariant Flatten(frames) + upserted == refs[..k]
    {
      OneMoreRef(Flatten(frames), upserted, refs, k);
      upserted := upserted + [refs[k]];
      if |upserted| == limit {
        FrameSent(frames, upserted, limit, refs[..k + 1]);
        frames, upserted := frames + [Event(upserted, [])], [];
      }
    }
    assert refs[..|refs|] == refs;
    if upserted != [] {
      FrameSent(frames, upserted, limit, refs);
      frames := frames + [Event(upserted, [])];
    }
  }

  lemma MinusTwice(view: View, gone: set<int>, id: int)
    ensures view - (gone + {id}) == view - gone - {id}
  {
  }

  // ---------------------------------------------------------------- initial frames

  function Flatten(frames: seq<Event>): seq<ClusterRef> {
    if frames == [] then [] else Flatten(frames[..|frames| - 1]) + frames[|frames| - 1].upserted
  }

  lemma FlattenOneMore(frames: seq<Event>, e: Event)
    ensures Flatten(frames + [e]) == Flatten(frames) + e.upserted
  {
    assert (frames + [e])[..|frames|] == frames;
  }

  function Listed(view: View, ids: seq<int>): seq<ClusterRef>
    requires Elements(ids) <= view.Keys
  {
    seq(|ids|, i requires 0 <= i < |ids| => assert ids[i] in Elements(ids); RefOf(ids[i], view[ids[i]]))
  }

  /** Every reference once, under its own id. */
  ghost predicate IsListing(m: Refs, refs: seq<ClusterRef>) {
    && |refs| == |m|
    && (forall i :: 0 <= i < |refs| ==> refs[i].id in m && m[refs[i].id] == refs[i])
    && (forall i, j :: 0 <= i < j < |refs| ==> refs[i].id != refs[j].id)
    && (forall id :: id in m ==> exists i :: 0 <= i < |refs| && refs[i].id == id)
  }

  lemma ListedLists(view: View, ids: seq<int>)
    requires Elements(ids) == view.Keys && |ids| == |view.Keys|
    requires forall i, j :: 0 <= i < j < |ids| ==> ids[i] != ids[j]
    ensures IsListing(RefsOf(view), Listed(view, ids))
  {
    var m, refs := RefsOf(view), Listed(view, ids);
    assert m.Keys == view.Keys;
    forall i | 0 <= i < |refs|
      ensures refs[i].id in m && m[refs[i].id] == refs[i]
    {
      assert ids[i] in Elements(ids);
    }
    forall id | id in m
      ensures exists i :: 0 <= i < |refs| && refs[i].id == id
    {
      assert id in Elements(ids);
      var i :| 0 <= i < |ids| && ids[i] == id;
      assert refs[i].id == id;
    }
  }

  lemma {:induction false} PutAllAt(m: Refs, refs: seq<ClusterRef>, id: int)
    requires forall i, j :: 0 <= i < j < |refs| ==> refs[i].id != refs[j].id
    ensures (forall i :: 0 <= i < |refs| ==> refs[i].id != id) ==>
              (id in PutAll(m, refs) <==> id in m) && (id in m ==> PutAll(m, refs)[id] == m[id])
    ensures forall i :: 0 <= i < |refs| && refs[i].id == id ==> id in PutAll(m, refs) && PutAll(m, refs)[id] == refs[i]
  {
    if refs != [] {
      PutAllAt(m, refs[..|refs| - 1], id);
      assert forall i :: 0 <= i < |refs| - 1 ==> refs[..|refs| - 1][i] == refs[i];
    }
  }

  /** A listing rebuilds the map from nothing. */
  lemma ListingRebuilds(m: Refs, refs: seq<ClusterRef>)
    requires IsListing(m, refs)
    ensures PutAll(map[], refs) == m
  {
    forall id
      ensures id in PutAll(map[], refs) <==> id in m
      ensures id in m ==> PutAll(map[], refs)[id] == m[id]
    {
      PutAllAt(map[], refs, id);
    }
  }

  lemma {:induction false} FramesPut(m: Refs, frames: seq<Event>)
    requires forall i :: 0 <= i < |frames| ==> frames[i].removed == []
    ensures ApplyAll(m, frames) == PutAll(m, Flatten(frames))
  {
    if frames != [] {
      var rest, last := frames[..|frames| - 1], frames[|frames| - 1];
      FramesPut(m, rest);
      PutConcat(m, Flatten(rest), last.upserted);
      assert Elements(last.removed) == {};
      assert forall x: Refs :: x - {} == x;
    }
  }

  lemma {:induction false} PutConcat(m: Refs, a: seq<ClusterRef>, b: seq<ClusterRef>)
    ensures PutAll(m, a + b) == PutAll(PutAll(m, a), b)
  {
    if b == [] {
      assert a + b == a;
    } else {
      assert (a + b)[..|a + b| - 1] == a + b[..|b| - 1];
      PutConcat(m, a, b[..|b| - 1]);
    }
  }

  // ------------------------------------------------------------------ the browser

  datatype UpdateKind = New | Changed
  datatype Update = Update(revision: nat, kind: UpdateKind)

  /** What a paused view keeps showing. */
  datatype Frozen = Frozen(clusters: Refs, updates: map<int, Update>)

  datatype Ui = Ui(live: Refs, updates: map<int, Update>, frozen: Option<Frozen>)

  datatype Action = Arrived(e: Event) | TogglePause

  function Bump(ui: Ui, r: ClusterRef): Ui {
    var revision := if r.id in ui.updates then ui.updates[r.id].revision else 0;
    ui.(live := ui.live[r.id := r],
        updates := ui.updates[r.id := Update(revision + 1, if r.id in ui.live then Changed else New)])
  }

  function BumpAll(ui: Ui, refs: seq<ClusterRef>): Ui {
    if refs == [] then ui else Bump(BumpAll(ui, refs[..|refs| - 1]), refs[|refs| - 1])
  }

  function ApplyToUi(ui: Ui, e: Event): Ui {
    var bumped := BumpAll(ui, e.upserted);
    bumped.(live := bumped.live - Elements(e.removed), updates := bumped.updates - Elements(e.removed))
  }

  function Reduce(ui: Ui, a: Action): Ui {
    match a
    case Arrived(e) => ApplyToUi(ui, e)
    case TogglePause => ui.(frozen := if ui.frozen == None then Some(Frozen(ui.live, ui.updates)) else None)
  }

  /** What the page shows: the frozen picture while paused. */
  function Visible(ui: Ui): Frozen {
    if ui.frozen.Some? then ui.frozen.value else Frozen(ui.live, ui.updates)
  }

  /** Pausing freezes what is visible, events do not disturb it, and resuming shows what is live by then. */
  lemma PauseHolds(ui: Ui, a: Action)
    ensures ui.frozen == None && a == TogglePause ==>
              Reduce(ui, a).frozen.Some? && Visible(Reduce(ui, a)) == Visible(ui)
    ensures ui.frozen.Some? && a.Arrived? ==> Reduce(ui, a).frozen.Some? && Visible(Reduce(ui, a)) == Visible(ui)
    ensures ui.frozen.Some? && a == TogglePause ==>
              Reduce(ui, a).frozen == None && Visible(Reduce(ui, a)).clusters == ui.live
    ensures ui.frozen == None && a.Arrived? ==>
              Reduce(ui, a).frozen == None && Visible(Reduce(ui, a)).clusters == ApplyEvent(ui.live, a.e)
  {
    if a.Arrived? {
      BumpAllLive(ui, a.e.upserted);
    }
  }

  method ApplyDelta(ui: Ui, e: Event) returns (next: Ui)
    ensures next == ApplyToUi(ui, e)
    ensures next.live == ApplyEvent(ui.live, e) && next.frozen == ui.frozen
  {
    var live, updates := ui.live, ui.updates;
    for k := 0 to |e.upserted|
      invariant Ui(live, updates, ui.frozen) == BumpAll(ui, e.upserted[..k])
    {
      assert e.upserted[..k + 1][..k] == e.upserted[..k];
      var r := e.upserted[k];
      var known := r.id in live;
      live := live[r.id := r];
      var revision := if r.id in updates then updates[r.id].revision else 0;
      updates := updates[r.id := Update(revision + 1, if known then Changed else New)];
    }
    assert e.upserted[..|e.upserted|] == e.upserted;
    ghost var bumped := Ui(live, updates, ui.frozen);
    MinusNone(live, updates);
    for k := 0 to |e.removed|
      invariant live == bumped.live - Elements(e.removed[..k])
      invariant updates == bumped.updates - Elements(e.removed[..k])
    {
      assert Elements(e.removed[..k + 1]) == Elements(e.removed[..k]) + {e.removed[k]};
      MinusOneMore(bumped.live, bumped.updates, Elements(e.removed[..k]), e.removed[k]);
      live, updates := live - {e.removed[k]}, updates - {e.removed[k]};
    }
    assert e.removed[..|e.removed|] == e.removed;
    next := Ui(live, updates, ui.frozen);
    BumpAllLive(ui, e.upserted);
  }

  lemma MinusNone(live: Refs, updates: map<int, Update>)
    ensures live - Elements([]) == live && updates - Elements([]) == updates
  {
  }

  lemma MinusOneMore(live: Refs, updates: map<int, Update>, gone: set<int>, id: int)
    ensures live - (gone + {id}) == live - gone - {id} && updates - (gone + {id}) == updates - gone - {id}
  {
  }

  lemma {:induction false} BumpAllLive(ui: Ui, refs: seq<ClusterRef>)
    ensures BumpAll(ui, refs).live == PutAll(ui.live, refs) && BumpAll(ui, refs).frozen == ui.frozen
    ensures Badged(ui) ==> Badged(BumpAll(ui, refs))
  {
    if refs != [] {
      BumpAllLive(ui, refs[..|refs| - 1]);
    }
  }

  /** Every cluster shown has a revision, and is marked new exactly at its first one. */
  ghost predicate Badged(ui: Ui) {
    && ui.live.Keys == ui.updates.Keys
    && forall id :: id in ui.updates ==>
         ui.updates[id].revision >= 1 && (ui.updates[id].kind == New <==> ui.updates[id].revision == 1)
  }

  /** The reducer's live map follows the events whatever the user pauses, and the badges stay right. */
  lemma ReduceFollows(ui: Ui, a: Action)
    ensures Reduce(ui, a).live == (if a.Arrived? then ApplyEvent(ui.live, a.e) else ui.live)
    ensures Badged(ui) ==> Badged(Reduce(ui, a))
  {
    if a.Arrived? {
      BumpAllLive(ui, a.e.upserted);
    }
  }
}
