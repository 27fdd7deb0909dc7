/** The bounded in-memory queues of call signals (ParanoiaServer/src/call_signal.rs). */
module CallSignal {
  import opened Base
  import opened Wakers

  /** 60 seconds, in nanoseconds. */
  const ENVELOPE_TTL: nat := 60_000_000_000
  const MAX_QUEUE_LEN: nat := 64

  datatype Envelope = Envelope(sender: string, kind: nat, payload: Bytes, received: nat)

  datatype Queue = Queue(items: seq<Envelope>, waker: Waker)

  /** What became of an envelope that left its queue. */
  datatype Fate = Drained | Evicted | Expired

  // ── expiry ──────────────────────────────────────────────────────────────

  /** `now.duration_since(received) > ENVELOPE_TTL`, which is zero for a time in the future. */
  predicate IsExpired(e: Envelope, now: nat) {
    now > e.received && now - e.received > ENVELOPE_TTL
  }

  /** The loop of `gc` stops at the first envelope that has not expired. */
  function DropExpired(items: seq<Envelope>, now: nat): (left: seq<Envelope>)
    ensures |left| <= |items|
  {
    if items != [] && IsExpired(items[0], now) then DropExpired(items[1..], now) else items
  }

  /** What remains if every expired envelope goes. */
  function Unexpired(items: seq<Envelope>, now: nat): seq<Envelope> {
    if items == [] then []
    else (if IsExpired(items[0], now) then [] else [items[0]]) + Unexpired(items[1..], now)
  }

  /** No live envelope stands before an expired one. */
  ghost predicate ExpiredFirst(items: seq<Envelope>, now: nat) {
    forall i, j :: 0 <= i < j < |items| && IsExpired(items[j], now) ==> IsExpired(items[i], now)
  }

  ghost predicate NoneExpired(items: seq<Envelope>, now: nat) {
    forall i :: 0 <= i < |items| ==> !IsExpired(items[i], now)
  }

  lemma {:induction false} UnexpiredShorter(items: seq<Envelope>, now: nat)
    ensures |Unexpired(items, now)| <= |items|
    ensures Unexpired(items, now) == items <==> NoneExpired(items, now)
  {
    if items != [] {
      UnexpiredShorter(items[1..], now);
      assert items == [items[0]] + items[1..];
      assert NoneExpired(items, now) <==> !IsExpired(items[0], now) && NoneExpired(items[1..], now);
    }
  }

  lemma ExpiredFirstStep(items: seq<Envelope>, now: nat)
    requires items != []
    ensures IsExpired(items[0], now) ==> (ExpiredFirst(items, now) <==> ExpiredFirst(items[1..], now))
    ensures !IsExpired(items[0], now) ==> (ExpiredFirst(items, now) <==> NoneExpired(items, now))
  {
    hide IsExpired;
    var rest := items[1..];
    assert forall i :: 0 < i < |items| ==> items[i] == rest[i - 1];
    assert forall i :: 0 <= i < |rest| ==> rest[i] == items[i + 1];
  }

  /** A collection removes exactly the expired envelopes if and only if no live one stands before an expired one. */
  lemma {:induction false} GcExactIff(items: seq<Envelope>, now: nat)
    ensures DropExpired(items, now) == Unexpired(items, now) <==> ExpiredFirst(items, now)
  {
    hide IsExpired, ExpiredFirst, NoneExpired;
    if items == [] {
      NoEnvelopes(now);
    } else {
      ExpiredFirstStep(items, now);
      GcExactIff(items[1..], now);
      UnexpiredShorter(items, now);
    }
  }

  /** An expired envelope queued after one that lives on is not collected. */
  lemma LiveBeforeExpired(e: Envelope, f: Envelope, now: nat)
    requires IsExpired(e, now) && !IsExpired(f, now)
    ensures DropExpired([f, e], now) == [f, e] && Unexpired([f, e], now) == [f]
  {
    assert [f, e][1..] == [e] && [e][1..] == [];
    assert Unexpired([e], now) == [];
  }

  lemma NoEnvelopes(now: nat)
    ensures ExpiredFirst([], now)
  {
  }

  /** So it is when envelopes were queued in the order in which they were received. */
  lemma ReceivedInOrder(items: seq<Envelope>, now: nat)
    requires forall i, j :: 0 <= i < j < |items| ==> items[i].received <= items[j].received
    ensures DropExpired(items, now) == Unexpired(items, now)
  {
    GcExactIff(items, now);
  }

  // ── bookkeeping ─────────────────────────────────────────────────────────

  /** One receiver's whole story: all envelopes ever pushed, the fates of those that left, in the same order, and
      everything that was handed out. */
  datatype Story = Story(pushed: seq<Envelope>, fates: seq<Fate>, drained: seq<Envelope>)

  /** Those of `es` whose fate is to be drained, in order. */
  function DrainedOf(es: seq<Envelope>, fates: seq<Fate>): seq<Envelope>
    requires |es| == |fates|
  {
    if es == [] then []
    else DrainedOf(es[..|es| - 1], fates[..|es| - 1]) + if fates[|es| - 1].Drained? then [es[|es| - 1]] else []
  }

  /** Every envelope ever pushed has one fate or is queued, in the order of pushing. */
  ghost predicate Accounted(story: Story, items: seq<Envelope>) {
    && |items| <= MAX_QUEUE_LEN
    && |story.fates| <= |story.pushed|
    && items == story.pushed[|story.fates|..]
    && story.drained == DrainedOf(story.pushed[..|story.fates|], story.fates)
  }

  /** The first `k` queued envelopes leave with the same fate. */
  function Leave(story: Story, items: seq<Envelope>, k: nat, fate: Fate): Story
    requires k <= |items|
  {
    Story(story.pushed, story.fates + seq(k, i => fate), story.drained + if fate.Drained? then items[..k] else [])
  }

  lemma LeaveOne(story: Story, items: seq<Envelope>, k: nat, fate: Fate)
    requires k < |items|
    ensures Leave(story, items, k + 1, fate) == Leave(Leave(story, items, k, fate), items[k..], 1, fate)
  {
    assert seq(k + 1, i => fate) == seq(k, i => fate) + seq(1, i => fate);
    assert items[..k + 1] == items[..k] + items[k..][..1];
  }

  lemma OneLeaves(story: Story, items: seq<Envelope>, fate: Fate)
    requires Accounted(story, items) && items != []
    ensures Accounted(Leave(story, items, 1, fate), items[1..])
  {
    var after := Leave(story, items, 1, fate);
    var n := |story.fates|;
    assert after.fates == story.fates + [fate];
    assert story.pushed[..n + 1][..n] == story.pushed[..n] && after.fates[..n] == story.fates;
    assert items[0] == story.pushed[n] && items[..1] == [items[0]];
  }

  lemma {:induction false} LeaveAccounted(story: Story, items: seq<Envelope>, k: nat, fate: Fate)
    requires Accounted(story, items) && k <= |items|
    ensures Accounted(Leave(story, items, k, fate), items[k..])
    decreases k
  {
    if k > 0 {
      LeaveAccounted(story, items, k - 1, fate);
      LeaveOne(story, items, k - 1, fate);
      hide Accounted, Leave;
      assert items[k - 1..][1..] == items[k..];
      OneLeaves(Leave(story, items, k - 1, fate), items[k - 1..], fate);
    } else {
      assert Leave(story, items, 0, fate) == story;
      assert items[0..] == items;
    }
  }

  lemma PushAccounted(story: Story, items: seq<Envelope>, e: Envelope)
    requires Accounted(story, items) && |items| < MAX_QUEUE_LEN
    ensures Accounted(story.(pushed := story.pushed + [e]), items + [e])
  {
    assert (story.pushed + [e])[..|story.fates|] == story.pushed[..|story.fates|];
  }

  // ── the maps of the store ───────────────────────────────────────────────

  type Queues = map<string, Queue>

  function ItemsIn(queues: Queues, id: string): seq<Envelope> {
    if id in queues then queues[id].items else []
  }

  ghost function StoryIn(stories: map<string, Story>, id: string): Story {
    if id in stories then stories[id] else Story([], [], [])
  }

  function Registry(queues: Queues): map<string, Waker> {
    map id | id in queues :: queues[id].waker
  }

  ghost predicate AllAccounted(stories: map<string, Story>, queues: Queues) {
    forall id :: Accounted(StoryIn(stories, id), ItemsIn(queues, id))
  }

  lemma AccountedIn(stories: map<string, Story>, queues: Queues, id: string)
    requires AllAccounted(stories, queues)
    ensures Accounted(StoryIn(stories, id), ItemsIn(queues, id)) && |ItemsIn(queues, id)| <= MAX_QUEUE_LEN
  {
  }

  lemma AccountedUpdate(stories: map<string, Story>, queues: Queues, id: string, story: Story, q: Queue)
    requires AllAccounted(stories, queues) && Accounted(story, q.items)
    ensures AllAccounted(stories[id := story], queues[id := q])
  {
    hide Accounted;
    var (ss, qs) := (stories[id := story], queues[id := q]);
    forall other
      ensures Accounted(StoryIn(ss, other), ItemsIn(qs, other))
    {
      assert Accounted(StoryIn(stories, other), ItemsIn(queues, other));
    }
  }

  lemma AccountedRemove(stories: map<string, Story>, queues: Queues, id: string, story: Story)
    requires AllAccounted(stories, queues) && Accounted(story, [])
    ensures AllAccounted(stories[id := story], queues - {id})
  {
    hide Accounted;
    var (ss, qs) := (stories[id := story], queues - {id});
    forall other
      ensures Accounted(StoryIn(ss, other), ItemsIn(qs, other))
    {
      assert Accounted(StoryIn(stories, other), ItemsIn(queues, other));
    }
  }

  lemma RegistryUpdate(queues: Queues, id: string, q: Queue)
    ensures Registry(queues[id := q]) == Registry(queues)[id := q.waker]
    ensures id in queues && q.waker == queues[id].waker ==> Registry(queues[id := q]) == Registry(queues)
    ensures id !in queues ==> id !in Registry(queues)
    ensures id in queues ==> id in Registry(queues) && Registry(queues)[id] == queues[id].waker
  {
  }

  /** `entry(..).or_insert_with(Queue::new)`. */
  function Ensured(queues: Queues, h: Handles, id: string): (Queues, Handles) {
    if id in queues then (queues, h) else (queues[id := Queue([], h.next)], Made(h, id))
  }

  lemma EnsuredFacts(stories: map<string, Story>, queues: Queues, h: Handles, id: string)
    requires AllAccounted(stories, queues) && Registered(h, Registry(queues))
    ensures var (qs, h') := Ensured(queues, h, id);
            && AllAccounted(stories, qs) && Registered(h', Registry(qs)) && id in qs
            && ItemsIn(qs, id) == ItemsIn(queues, id) && Known(h', qs[id].waker)
            && (forall w :: Held(h', w) <==> Held(h, w))
            && (forall w :: Held(h, w) ==> h'.owner[w] == h.owner[w] && h'.signals[w] == h.signals[w])
            && (if id in queues then h' == h else h'.signals[qs[id].waker] == 0)
  {
    hide Registered, Accounted;
    RegistryUpdate(queues, id, Queue([], h.next));
    if id !in queues {
      MadeRegistered(h, Registry(queues), id);
      forall other
        ensures Accounted(StoryIn(stories, other), ItemsIn(queues[id := Queue([], h.next)], other))
      {
        assert Accounted(StoryIn(stories, other), ItemsIn(queues, other));
      }
    } else {
      WakerKnown(h, Registry(queues), id);
    }
  }

  lemma WakerKnown(h: Handles, registry: map<string, Waker>, id: string)
    requires Registered(h, registry) && id in registry
    ensures Known(h, registry[id])
  {
  }

  /** Signalling the registered waker of an id signals exactly those who hold a waker of that id. */
  lemma SignalsItsHolders(h: Handles, registry: map<string, Waker>, id: string)
    requires Registered(h, registry) && id in registry && Known(h, registry[id])
    ensures forall w :: Held(Signalled(h, registry[id]), w) <==> Held(h, w)
    ensures forall w :: Held(h, w) ==>
              Signalled(h, registry[id]).signals[w] == h.signals[w] + if h.owner[w] == id then 1 else 0
  {
  }

  /** What a push does to a queue: when it is full its oldest envelope is evicted. */
  function Pushed(q: Queue, e: Envelope): Queue {
    q.(items := (if |q.items| >= MAX_QUEUE_LEN then q.items[1..] else q.items) + [e])
  }

  ghost function PushedStory(story: Story, items: seq<Envelope>, e: Envelope): Story {
    var left := if |items| >= MAX_QUEUE_LEN then Leave(story, items, 1, Evicted) else story;
    left.(pushed := left.pushed + [e])
  }

  lemma PushedAccounted(story: Story, q: Queue, e: Envelope)
    requires Accounted(story, q.items)
    ensures Accounted(PushedStory(story, q.items, e), Pushed(q, e).items)
  {
    if |q.items| >= MAX_QUEUE_LEN {
      OneLeaves(story, q.items, Evicted);
      PushAccounted(Leave(story, q.items, 1, Evicted), q.items[1..], e);
    } else {
      PushAccounted(story, q.items, e);
    }
  }

  /** What a collection does to a queue and to its story. */
  function Collected(q: Queue, now: nat): Queue { q.(items := DropExpired(q.items, now)) }

  ghost function CollectedStory(story: Story, items: seq<Envelope>, now: nat): Story {
    Leave(story, items, |items| - |DropExpired(items, now)|, Fate.Expired)
  }

  lemma CollectedAccounted(story: Story, q: Queue, now: nat)
    requires Accounted(story, q.items)
    ensures Accounted(CollectedStory(story, q.items, now), Collected(q, now).items)
  {
    hide Accounted, Leave;
    DropExpiredSuffix(q.items, now);
    LeaveAccounted(story, q.items, |q.items| - |DropExpired(q.items, now)|, Fate.Expired);
  }

  lemma {:induction false} DropExpiredSuffix(items: seq<Envelope>, now: nat)
    ensures DropExpired(items, now) == items[|items| - |DropExpired(items, now)|..]
  {
    if items != [] && IsExpired(items[0], now) {
      DropExpiredSuffix(items[1..], now);
    }
  }

  // ── the store ───────────────────────────────────────────────────────────

  class CallSignalStore {
    var queues: Queues
    var handles: Handles
    ghost var stories: map<string, Story>

    ghost predicate Valid()
      reads this
    {
      Registered(handles, Registry(queues)) && AllAccounted(stories, queues)
    }

    constructor ()
      ensures Valid() && queues == map[] && handles == NO_HANDLES && stories == map[]
    {
      queues, handles, stories := map[], NO_HANDLES, map[];
      NothingRegistered();
      new;
      assert Registry(queues) == map[];
    }

    /** `push`. Whoever holds the receiver's waker is signalled, and nobody else. */
    method Push(id: string, e: Envelope)
      requires Valid()
      modifies this
      ensures Valid()
      ensures var qs := Ensured(old(queues), old(handles), id).0; queues == qs[id := Pushed(qs[id], e)]
      ensures stories == old(stories)[id := PushedStory(StoryIn(old(stories), id), ItemsIn(old(queues), id), e)]
      ensures forall w :: Held(handles, w) <==> Held(old(handles), w)
      ensures forall w :: Held(handles, w) ==>
                && handles.owner[w] == old(handles).owner[w]
                && handles.signals[w] == old(handles).signals[w] + if handles.owner[w] == id then 1 else 0
    {
      hide Registered, AllAccounted, Accounted, Registry, Leave, Made;
      EnsuredFacts(stories, queues, handles, id);
      var (qs, h) := Ensured(queues, handles, id);
      var q := qs[id];
      AccountedIn(stories, qs, id);
      PushedAccounted(StoryIn(stories, id), q, e);
      RegistryUpdate(qs, id, q);
      if |q.items| >= MAX_QUEUE_LEN {
        q := q.(items := q.items[1..]);
      }
      q := q.(items := q.items + [e]);
      AccountedUpdate(stories, qs, id, PushedStory(StoryIn(stories, id), ItemsIn(qs, id), e), q);
      RegistryUpdate(qs, id, q);
      stories := stories[id := PushedStory(StoryIn(stories, id), ItemsIn(qs, id), e)];
      queues := qs[id := q];
      SignalledRegistered(h, Registry(queues), q.waker);
      SignalsItsHolders(h, Registry(queues), id);
      handles := Signalled(h, q.waker);
    }

    /** `drain`: everything queued is handed out, in order. */
    method Drain(id: string) returns (out: seq<Envelope>)
      requires Valid()
      modifies this`queues, this`stories
      ensures Valid() && out == ItemsIn(old(queues), id)
      ensures queues == if id in old(queues) then old(queues)[id := old(queues)[id].(items := [])] else old(queues)
      ensures stories == if id in old(queues)
                         then old(stories)[id := Leave(StoryIn(old(stories), id), out, |out|, Drained)]
                         else old(stories)
    {
      hide Registered, AllAccounted, Accounted, Registry, Leave;
      if id !in queues {
        return [];
      }
      var q := queues[id];
      out := q.items;
      AccountedIn(stories, queues, id);
      LeaveAccounted(StoryIn(stories, id), out, |out|, Drained);
      assert out[|out|..] == [];
      AccountedUpdate(stories, queues, id, Leave(StoryIn(stories, id), out, |out|, Drained), q.(items := []));
      RegistryUpdate(queues, id, q.(items := []));
      stories := stories[id := Leave(StoryIn(stories, id), out, |out|, Drained)];
      queues := queues[id := q.(items := [])];
    }

    /** `waker`: the caller holds the waker of the receiver's queue, which is made now if there was none. */
    method Waker(id: string) returns (w: Waker)
      requires Valid()
      modifies this`queues, this`handles
      ensures Valid() && Held(handles, w) && handles.owner[w] == id
      ensures queues == Ensured(old(queues), old(handles), id).0 && id in queues && queues[id].waker == w
      ensures handles.signals[w] == if id in old(queues) then SignalsOf(old(handles), w) else 0
      ensures forall v :: Held(old(handles), v) ==>
                && Held(handles, v)
                && handles.signals[v] == old(handles).signals[v] && handles.owner[v] == old(handles).owner[v]
    {
      hide Registered, AllAccounted, Registry, Made;
      EnsuredFacts(stories, queues, handles, id);
      var (qs, h) := Ensured(queues, handles, id);
      w := qs[id].waker;
      RegistryUpdate(qs, id, qs[id]);
      ClonedRegistered(h, Registry(qs), id);
      queues, handles := qs, Cloned(h, w);
      HeldIsRegistered(handles, Registry(qs), w);
      OwnerOf(handles, Registry(qs), id);
    }

    method Release(w: Waker)
      requires Valid() && Held(handles, w)
      modifies this`handles
      ensures Valid() && handles == Dropped(old(handles), w)
    {
      DroppedRegistered(handles, Registry(queues), w);
      handles := Dropped(handles, w);
    }

    /** The part of `gc` for one queue: drop what has expired at the front, and the queue itself if nothing is left
        in it and nobody holds its waker. */
    method Collect(id: string, now: nat)
      requires Valid() && id in queues
      modifies this`queues, this`stories
      ensures Valid()
      ensures var q := Collected(old(queues)[id], now);
              queues == if q.items != [] || Held(handles, q.waker) then old(queues)[id := q] else old(queues) - {id}
      ensures stories == old(stories)[id := CollectedStory(StoryIn(old(stories), id), old(queues)[id].items, now)]
    {
      hide Registered, AllAccounted, Accounted, Registry, Leave;
      var q := queues[id];
      var items := q.items;
      while items != [] && IsExpired(items[0], now)
        invariant DropExpired(q.items, now) == DropExpired(items, now)
        decreases |items|
      {
        items := items[1..];
      }
      AccountedIn(stories, queues, id);
      CollectedAccounted(StoryIn(stories, id), q, now);
      ghost var story := CollectedStory(StoryIn(stories, id), q.items, now);
      RegistryUpdate(queues, id, q.(items := items));
      WakerKnown(handles, Registry(queues), id);
      if items != [] || handles.held[q.waker] > 0 {
        AccountedUpdate(stories, queues, id, story, q.(items := items));
        queues, stories := queues[id := q.(items := items)], stories[id := story];
      } else {
        AccountedRemove(stories, queues, id, story);
        RegistryRemove(queues, id);
        PrunedRegistered(handles, Registry(queues), Registry(queues - {id}));
        queues, stories := queues - {id}, stories[id := story];
      }
    }

    /** `gc`: every queue is collected. Exactly those stay that still hold an envelope or whose waker is held. */
    method Gc(now: nat)
      requires Valid()
      modifies this`queues, this`stories
      ensures Valid()
      ensures forall id :: id in queues <==>
                && id in old(queues)
                && (Collected(old(queues)[id], now).items != [] || Held(handles, old(queues)[id].waker))
      ensures forall id :: id in queues ==> queues[id] == Collected(old(queues)[id], now)
      ensures forall id :: StoryIn(stories, id) == if id in old(queues)
                then CollectedStory(StoryIn(old(stories), id), old(queues)[id].items, now)
                else StoryIn(old(stories), id)
    {
      hide Registered, AllAccounted, Registry, Leave, CollectedStory, Held, DropExpired;
      var rest := queues.Keys;
      ghost var queues0, stories0, h := queues, stories, handles;
      while rest != {}
        invariant Valid() && rest <= queues.Keys <= queues0.Keys && handles == h
        invariant forall id :: id in rest ==> queues[id] == queues0[id] && StoryIn(stories, id) == StoryIn(stories0, id)
        invariant forall id :: id in queues0 && id !in rest ==> Swept(queues0, queues, h, id, now)
        invariant forall id :: id !in rest ==> StoryIn(stories, id) == StoryAfter(stories0, queues0, id, now)
        decreases rest
      {
        var id :| id in rest;
        Collect(id, now);
        rest := rest - {id};
      }
    }
  }

  lemma OwnerOf(h: Handles, registry: map<string, Waker>, id: string)
    requires Registered(h, registry) && id in registry && Known(h, registry[id])
    ensures h.owner[registry[id]] == id
  {
  }

  lemma RegistryRemove(queues: Queues, id: string)
    ensures Registry(queues - {id}) == Registry(queues) - {id}
  {
  }

  /** Queue `id` after the collection. */
  ghost predicate Swept(before: Queues, after: Queues, h: Handles, id: string, now: nat)
    requires id in before
  {
    && (id in after <==> Collected(before[id], now).items != [] || Held(h, before[id].waker))
    && (id in after ==> after[id] == Collected(before[id], now))
  }

  ghost function StoryAfter(stories: map<string, Story>, queues: Queues, id: string, now: nat): Story {
    if id in queues then CollectedStory(StoryIn(stories, id), queues[id].items, now) else StoryIn(stories, id)
  }

  // ── runs ────────────────────────────────────────────────────────────────

  function Count(fates: seq<Fate>, fate: Fate): nat {
    if fates == [] then 0 else Count(fates[..|fates| - 1], fate) + if fates[|fates| - 1] == fate then 1 else 0
  }

  lemma {:induction false} CountAll(fates: seq<Fate>)
    ensures Count(fates, Drained) + Count(fates, Evicted) + Count(fates, Fate.Expired) == |fates|
  {
    if fates != [] {
      CountAll(fates[..|fates| - 1]);
    }
  }

  lemma {:induction false} DrainedOfLength(es: seq<Envelope>, fates: seq<Fate>)
    requires |es| == |fates|
    ensures |DrainedOf(es, fates)| == Count(fates, Drained)
  {
    if es != [] {
      DrainedOfLength(es[..|es| - 1], fates[..|es| - 1]);
    }
  }

  /** Conservation: pushed = drained + evicted + expired + queued. */
  lemma Conservation(story: Story, items: seq<Envelope>)
    requires Accounted(story, items)
    ensures |story.pushed| == |story.drained| + Count(story.fates, Evicted) + Count(story.fates, Fate.Expired) + |items|
  {
    CountAll(story.fates);
    DrainedOfLength(story.pushed[..|story.fates|], story.fates);
  }

  datatype Act =
    | PushAct(id: string, e: Envelope)
    | DrainAct(id: string)
    | WakerAct(id: string)
    | ReleaseAct(w: Waker)
    | GcAct(now: nat)

  function PushesTo(acts: seq<Act>, id: string): seq<Envelope> {
    if acts == [] then []
    else
      var last := acts[|acts| - 1];
      PushesTo(acts[..|acts| - 1], id) + if last.PushAct? && last.id == id then [last.e] else []
  }

  lemma PushedStoryFacts(story: Story, items: seq<Envelope>, e: Envelope)
    ensures PushedStory(story, items, e).pushed == story.pushed + [e]
    ensures PushedStory(story, items, e).drained == story.drained
  {
  }

  lemma CollectedStoryFacts(story: Story, items: seq<Envelope>, now: nat)
    ensures CollectedStory(story, items, now).pushed == story.pushed
    ensures CollectedStory(story, items, now).drained == story.drained
  {
  }

  lemma DrainedStoryFacts(story: Story, out: seq<Envelope>)
    ensures Leave(story, out, |out|, Drained).pushed == story.pushed
    ensures Leave(story, out, |out|, Drained).drained == story.drained + out
  {
    assert out[..|out|] == out;
  }

  /** One act, seen by a poller of `id` that keeps its waker `w`. */
  method Perform(s: CallSignalStore, act: Act, id: string, w: Waker) returns (out: seq<Envelope>)
    requires s.Valid() && Held(s.handles, w) && s.handles.owner[w] == id
    modifies s
    ensures s.Valid() && Held(s.handles, w) && s.handles.owner[w] == id
    ensures StoryIn(s.stories, id).pushed == StoryIn(old(s.stories), id).pushed + PushesTo([act], id)
    ensures StoryIn(s.stories, id).drained == StoryIn(old(s.stories), id).drained + out
    ensures s.handles.signals[w] == old(s.handles).signals[w] + |PushesTo([act], id)|
  {
    hide Registered, AllAccounted, Registry, Leave, CollectedStory, PushedStory, Ensured, Collected;
    out := [];
    assert PushesTo([act], id) == if act.PushAct? && act.id == id then [act.e] else [] by {
      assert [act][..0] == [];
    }
    match act {
      case PushAct(other, e) =>
        PushedStoryFacts(StoryIn(s.stories, other), ItemsIn(s.queues, other), e);
        s.Push(other, e);
      case DrainAct(other) =>
        ghost var story := StoryIn(s.stories, other);
        var drained := s.Drain(other);
        DrainedStoryFacts(story, drained);
        if other == id {
          out := drained;
        }
      case WakerAct(other) =>
        var v := s.Waker(other);
      case ReleaseAct(v) =>
        if Held(s.handles, v) && (v == w ==> s.handles.held[v] > 1) {
          s.Release(v);
        }
      case GcAct(now) =>
        CollectedStoryFacts(StoryIn(s.stories, id), ItemsIn(s.queues, id), now);
        s.Gc(now);
    }
  }

  /** A poller takes the waker of `id` and keeps it while anything happens. What it and others drained from the
      queue is, in order, exactly the drained part of everything pushed; every envelope is accounted for; the store
      still has the very waker the poller holds; and every push since then has signalled it. */
  method Poll(s: CallSignalStore, id: string, acts: seq<Act>) returns (out: seq<Envelope>, w: Waker, ghost before: nat)
    requires s.Valid()
    modifies s
    ensures s.Valid()
    ensures var story := StoryIn(s.stories, id);
            && story.pushed == StoryIn(old(s.stories), id).pushed + PushesTo(acts, id)
            && story.drained == StoryIn(old(s.stories), id).drained + out
            && Accounted(story, ItemsIn(s.queues, id))
            && |story.pushed| == |story.drained| + Count(story.fates, Evicted) + Count(story.fates, Fate.Expired)
                                 + |ItemsIn(s.queues, id)|
    ensures Held(s.handles, w) && id in s.queues && s.queues[id].waker == w
    ensures s.handles.signals[w] == before + |PushesTo(acts, id)|
    ensures if id in old(s.queues) then w == old(s.queues)[id].waker && before == SignalsOf(old(s.handles), w)
            else before == 0
  {
    hide Registered, AllAccounted, Accounted, Registry, Ensured, Count, PushesTo, IsExpired, Made;
    if id in s.queues {
      EnsuredSame(s.queues, s.handles, id);
    }
    w := s.Waker(id);
    before := s.handles.signals[w];
    out := [];
    var n := 0;
    NoPushes(acts, id);
    while n < |acts|
      invariant 0 <= n <= |acts| && s.Valid() && Held(s.handles, w) && s.handles.owner[w] == id
      invariant StoryIn(s.stories, id).pushed == StoryIn(old(s.stories), id).pushed + PushesTo(acts[..n], id)
      invariant StoryIn(s.stories, id).drained == StoryIn(old(s.stories), id).drained + out
      invariant s.handles.signals[w] == before + |PushesTo(acts[..n], id)|
    {
      PushesSnoc(acts, n, id);
      var drained := Perform(s, acts[n], id, w);
      out := out + drained;
      n := n + 1;
    }
    assert acts[..n] == acts;
    AccountedIn(s.stories, s.queues, id);
    Conservation(StoryIn(s.stories, id), ItemsIn(s.queues, id));
    HeldIsRegistered(s.handles, Registry(s.queues), w);
    InRegistry(s.queues, id);
  }

  lemma EnsuredSame(queues: Queues, h: Handles, id: string)
    requires id in queues
    ensures Ensured(queues, h, id) == (queues, h)
  {
  }

  lemma NoPushes(acts: seq<Act>, id: string)
    ensures PushesTo(acts[..0], id) == []
  {
  }

  lemma PushesSnoc(acts: seq<Act>, n: nat, id: string)
    requires n < |acts|
    ensures PushesTo(acts[..n + 1], id) == PushesTo(acts[..n], id) + PushesTo([acts[n]], id)
  {
    assert acts[..n + 1][..n] == acts[..n] && [acts[n]][..0] == [];
  }

  lemma InRegistry(queues: Queues, id: string)
    ensures id in Registry(queues) <==> id in queues
    ensures id in queues ==> Registry(queues)[id] == queues[id].waker
  {
  }

  /** Two envelopes pushed in the other order than they were received: a collection when only the older one has
      expired leaves it queued. */
  method GcLeavesExpired(id: string, e: Envelope, f: Envelope) returns (s: CallSignalStore, now: nat)
    requires e.received < f.received
    ensures IsExpired(e, now) && s.Valid() && ItemsIn(s.queues, id) == [f, e]
  {
    hide Registered, AllAccounted, Registry, Held;
    s := new CallSignalStore();
    s.Push(id, f);
    s.Push(id, e);
    now := e.received + ENVELOPE_TTL + 1;
    LiveBeforeExpired(e, f, now);
    s.Gc(now);
  }
}
