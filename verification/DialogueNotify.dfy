/** The registry of per-dialogue wakers (ParanoiaServer/src/dialogue_notify.rs). */
module DialogueNotify {
  import opened Wakers

  class DialogueNotifyStore {
    var wakers: map<string, Waker>
    /** The world outside: who holds which waker, and what was signalled. */
    var handles: Handles

    ghost predicate Valid()
      reads this
    {
      Registered(handles, wakers)
    }

    constructor ()
      ensures Valid() && wakers == map[] && handles == NO_HANDLES
    {
      wakers, handles := map[], NO_HANDLES;
      NothingRegistered();
    }

    /** `notify`: signals the registered waker of the dialogue, and makes no entry if there is none. Whoever holds
        a waker of this dialogue is signalled by it, and nobody else. */
    method Notify(id: string)
      requires Valid()
      modifies this`handles
      ensures Valid() && handles.owner == old(handles.owner) && handles.held == old(handles.held)
      ensures forall w :: Held(handles, w) <==> Held(old(handles), w)
      ensures forall w :: Held(handles, w) ==>
                handles.signals[w] == old(handles.signals)[w] + if handles.owner[w] == id then 1 else 0
    {
      if id in wakers {
        SignalledRegistered(handles, wakers, wakers[id]);
        handles := Signalled(handles, wakers[id]);
      }
    }

    /** `waker`: the caller holds the registered waker of the dialogue, made now if there was none. */
    method Waker(id: string) returns (w: Waker)
      requires Valid()
      modifies this
      ensures Valid() && Held(handles, w) && handles.owner[w] == id
      ensures id in wakers && wakers[id] == w && wakers == old(wakers)[id := w]
      ensures id in old(wakers) ==> w == old(wakers)[id] && handles.signals[w] == old(handles).signals[w]
      ensures id !in old(wakers) ==> handles.signals[w] == 0
      ensures forall v :: Held(old(handles), v) ==>
                && Held(handles, v)
                && handles.signals[v] == old(handles).signals[v] && handles.owner[v] == old(handles).owner[v]
    {
      if id !in wakers {
        MadeRegistered(handles, wakers, id);
        wakers, handles := wakers[id := handles.next], Made(handles, id);
      }
      w := wakers[id];
      ClonedRegistered(handles, wakers, id);
      handles := Cloned(handles, w);
    }

    /** A waiter lets its waker go. */
    method Release(w: Waker)
      requires Valid() && Held(handles, w)
      modifies this`handles
      ensures Valid() && handles == Dropped(old(handles), w)
    {
      DroppedRegistered(handles, wakers, w);
      handles := Dropped(handles, w);
    }

    /** `gc`: exactly the entries whose waker somebody holds stay. */
    method Gc()
      requires Valid()
      modifies this`wakers
      ensures Valid()
      ensures forall id :: id in wakers <==> id in old(wakers) && handles.held[old(wakers)[id]] > 0
      ensures forall id :: id in wakers ==> wakers[id] == old(wakers)[id]
    {
      var kept := map id | id in wakers && handles.held[wakers[id]] > 0 :: wakers[id];
      PrunedRegistered(handles, wakers, kept);
      wakers := kept;
    }
  }

  datatype Act = NotifyAct(id: string) | WakerAct(id: string) | ReleaseAct(w: Waker) | GcAct

  /** How often a dialogue was notified in a run. */
  function Notifications(acts: seq<Act>, id: string): nat {
    if acts == [] then 0
    else Notifications(acts[..|acts| - 1], id) + if acts[|acts| - 1] == NotifyAct(id) then 1 else 0
  }

  /** A waiter obtains a waker and then anything happens, except that this waiter keeps it: at the end the registry
      still has the very same waker, and every notification of the dialogue since then has signalled it. */
  method HeldWakerIsSignalled(s: DialogueNotifyStore, id: string, acts: seq<Act>) returns (w: Waker, ghost before: nat)
    requires s.Valid()
    modifies s
    ensures s.Valid() && Held(s.handles, w)
    ensures id in s.wakers && s.wakers[id] == w && s.handles.owner[w] == id
    ensures s.handles.signals[w] == before + Notifications(acts, id)
    ensures if id in old(s.wakers) then w == old(s.wakers)[id] && before == old(s.handles).signals[w] else before == 0
  {
    hide Registered;
    w := s.Waker(id);
    before := s.handles.signals[w];
    var n := 0;
    while n < |acts|
      invariant 0 <= n <= |acts| && s.Valid() && Held(s.handles, w) && s.handles.owner[w] == id
      invariant s.handles.signals[w] == before + Notifications(acts[..n], id)
    {
      assert acts[..n + 1][..n] == acts[..n];
      match acts[n] {
        case NotifyAct(other) => s.Notify(other);
        case WakerAct(other) =>
          var v := s.Waker(other);
        case ReleaseAct(v) =>
          if Held(s.handles, v) && (v == w ==> s.handles.held[v] > 1) {
            s.Release(v);
          }
        case GcAct => s.Gc();
      }
      n := n + 1;
    }
    assert acts[..n] == acts;
    HeldIsRegistered(s.handles, s.wakers, w);
  }
}
