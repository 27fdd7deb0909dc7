/** Shared wakers: reference-counted `Notify` objects that a registry keeps under an id. */
module Wakers {

  /** The identity of one `Notify` object. */
  type Waker = nat

  /** All wakers ever made: the id each was made for, how many clones are held outside the registry, and how
      often its waiters were notified. */
  datatype Handles = Handles(next: Waker, owner: map<Waker, string>, held: map<Waker, nat>, signals: map<Waker, nat>)

  const NO_HANDLES: Handles := Handles(0, map[], map[], map[])

  predicate Known(h: Handles, w: Waker) { w in h.owner && w in h.held && w in h.signals }

  predicate Held(h: Handles, w: Waker) { Known(h, w) && h.held[w] > 0 }

  function SignalsOf(h: Handles, w: Waker): nat {
    if w in h.signals then h.signals[w] else 0
  }

  /** `Arc::new(Notify::new())`: the next unused identity. */
  function Made(h: Handles, id: string): Handles {
    Handles(h.next + 1, h.owner[h.next := id], h.held[h.next := 0], h.signals[h.next := 0])
  }

  function Cloned(h: Handles, w: Waker): Handles
    requires Known(h, w)
  {
    h.(held := h.held[w := h.held[w] + 1])
  }

  function Dropped(h: Handles, w: Waker): Handles
    requires Held(h, w)
  {
    h.(held := h.held[w := h.held[w] - 1])
  }

  function Signalled(h: Handles, w: Waker): Handles
    requires Known(h, w)
  {
    h.(signals := h.signals[w := h.signals[w] + 1])
  }

  ghost predicate Numbered(h: Handles) {
    forall w :: w in h.owner || w in h.held || w in h.signals ==> w < h.next && Known(h, w)
  }

  /** The registry keeps every held waker under the id it was made for, and no waker under two ids. */
  ghost predicate Registered(h: Handles, registry: map<string, Waker>) {
    && Numbered(h)
    && (forall id :: id in registry ==> Known(h, registry[id]) && h.owner[registry[id]] == id)
    && (forall w :: Held(h, w) ==> h.owner[w] in registry && registry[h.owner[w]] == w)
  }

  lemma MadeRegistered(h: Handles, registry: map<string, Waker>, id: string)
    requires Registered(h, registry) && id !in registry
    ensures Registered(Made(h, id), registry[id := h.next])
    ensures forall w :: Held(Made(h, id), w) <==> Held(h, w)
    ensures Made(h, id).signals[h.next] == 0
  {
  }

  lemma NothingRegistered()
    ensures Registered(NO_HANDLES, map[])
  {
  }

  lemma ClonedRegistered(h: Handles, registry: map<string, Waker>, id: string)
    requires Registered(h, registry) && id in registry
    ensures Registered(Cloned(h, registry[id]), registry) && Held(Cloned(h, registry[id]), registry[id])
  {
  }

  lemma DroppedRegistered(h: Handles, registry: map<string, Waker>, w: Waker)
    requires Registered(h, registry) && Held(h, w)
    ensures Registered(Dropped(h, w), registry)
  {
  }

  lemma SignalledRegistered(h: Handles, registry: map<string, Waker>, w: Waker)
    requires Registered(h, registry) && Known(h, w)
    ensures Registered(Signalled(h, w), registry)
  {
  }

  /** Entries whose waker nobody holds may be forgotten. */
  lemma PrunedRegistered(h: Handles, registry: map<string, Waker>, pruned: map<string, Waker>)
    requires Registered(h, registry)
    requires forall id :: id in pruned ==> id in registry && pruned[id] == registry[id]
    requires forall id :: id in registry && id !in pruned ==> h.held[registry[id]] == 0
    ensures Registered(h, pruned)
  {
  }

  lemma HeldIsRegistered(h: Handles, registry: map<string, Waker>, w: Waker)
    requires Registered(h, registry) && Held(h, w)
    ensures h.owner[w] in registry && registry[h.owner[w]] == w
  {
  }

  /** Exactly the held waker of an id is the registered one: two holders of an id hold the same object. */
  lemma OneWakerPerId(h: Handles, registry: map<string, Waker>, v: Waker, w: Waker)
    requires Registered(h, registry) && Held(h, v) && Held(h, w) && h.owner[v] == h.owner[w]
    ensures v == w
  {
  }
}
