/** `Dialogue::send`: push one packet, resynchronising when its seq turns out to be taken. */
module Send {
  import opened Base
  import opened Keyring
  import opened LocalStore
  import opened ReceiveSpec
  import opened ReceiveTheorems
  import opened Server
  import opened Types
  import D = Dialogue

  const SEND_ATTEMPTS: nat := 3

  /** A push at `n` leaves everything below `n` that others leave. */
  lemma PushKeepsBelow(env: Env, t: nat, live: Live, hist: seq<Live>, live': Live, n: nat)
    requires live' == env.step(t, live) || (n in live' && live' == env.step(t, live)[n := live'[n]])
    ensures KeptBelow(env, n, live, hist + [env.step(t, live)], |hist|, live')
  {
    forall s: nat | s < n && Leaves(env, s)
      ensures SameAt(live, env.step(t, live), s) && SameAt(live, live', s)
    {
      assert SameAt(live, env.step(t, live), s);
    }
  }

  /** The push requests that a packet for `s` leads to: none if there is no key for it. */
  function PushedFor(rd: Reader, s: nat): seq<nat> {
    if KeyForSeq(rd.ring, s).Ok? then [s] else []
  }

  /** Seal under the key in force at `s` and push. */
  method PushPacket(d: D.Dialogue, s: nat, id: Id, content: Content, topic: Option<Topic>) returns (r: Result<()>)
    requires d.net.Valid()
    modifies d.net
    ensures d.net.Valid()
    ensures KeyForSeq(d.rd.ring, s).Err? ==>
              && r == Err(NoKey) && d.net.live == old(d.net.live)
              && d.net.now == old(d.net.now) && d.net.hist == old(d.net.hist)
    ensures KeyForSeq(d.rd.ring, s).Ok? ==>
              var mid := d.net.env.step(old(d.net.now), old(d.net.live));
              var stored := !d.net.env.fault(old(d.net.now)).RequestLost? && s < U64_MAX && s !in mid;
              && d.net.now == old(d.net.now) + 1
              && d.net.hist == old(d.net.hist) + [mid]
              && d.net.live == (if stored
                                then mid[s := Sealed(KeyForSeq(d.rd.ring, s).value, Inner(id, d.rd.me, content, topic))]
                                else mid)
              && (r.Ok? <==> stored && d.net.env.fault(old(d.net.now)).Fine?)
              && (r == Err(DuplicateSeq) <==> d.net.env.fault(old(d.net.now)).Fine? && s in mid)
    ensures d.net.pushes == old(d.net.pushes) + PushedFor(d.rd, s)
    ensures r.Err? ==> r.error in {Unreachable, DuplicateSeq, RangeOverflow, NoKey}
    ensures old(d.net.hist) <= d.net.hist
    ensures KeptBelow(d.net.env, s, old(d.net.live), d.net.hist, old(d.net.now), d.net.live)
  {
    hide KeyForSeq, EnvBounded, Bounded, KeptBelow;
    var key := KeyForSeq(d.rd.ring, s);
    if key.Err? {
      KeptBelowStart(d.net.env, s, d.net.hist, d.net.live);
      return Err(NoKey);
    }
    r := d.net.PushRequest(s, Sealed(key.value, Inner(id, d.rd.me, content, topic)));
    PushKeepsBelow(d.net.env, old(d.net.now), old(d.net.live), old(d.net.hist), d.net.live, s);
  }

  /** `notify_count().unwrap_or(0) > 0`, then `receive`. */
  method SyncIfNews(d: D.Dialogue) returns (r: Result<()>)
    requires d.Valid()
    modifies d.net`live, d.net`now, d.net`hist, d.store
    ensures d.Valid() && old(d.store.nextSend) <= d.store.nextSend && old(d.net.hist) <= d.net.hist
    ensures Kept(d.net.env, old(d.net.live), d.net.hist, old(d.net.now), d.net.live)
    ensures d.store.journal == old(d.store.journal)
    ensures r.Err? ==> r.error in {Unreachable, RangeOverflow}
    ensures D.OnlyDelivered(old(d.store.saves), d.store.saves)
    ensures r.Ok? && Notified(d.net.env, old(d.net.now)) ==> NextIsFree(d.net.env, d.net.live, d.store.nextSend)
    ensures Survive(d.rd, old(d.store.messages), d.store.messages, {}, d.net.hist, old(d.net.now), d.net.now)
  {
    hide D.OnlyDelivered, Inv, Kept, Survive, NextIsFree;
    D.OnlyDeliveredStart(d.store.saves);
    KeptStart(d.net.env, d.net.hist, d.net.live);
    KeptStep(d.net.env, d.net.live, d.net.hist, d.net.now, d.net.live, d.net.now);
    var news := d.net.NotifyRequest();
    SurviveSame(d.rd, d.store.messages, {}, d.net.hist, old(d.net.now), d.net.now);
    if news.Ok? && news.value > 0 {
      ghost var live1, hist1, messages1 := d.net.live, d.net.hist, d.store.messages;
      r := Resync(d);
      KeptTrans(d.net.env, old(d.net.live), hist1, old(d.net.now), live1, d.net.hist, d.net.live);
      SurviveTrans(d.rd, messages1, messages1, d.store.messages, {}, {}, hist1, d.net.hist, old(d.net.now), |hist1|,
                   d.net.now);
      NothingMore({});
      return;
    }
    return Ok(());
  }

  /** The server says that something is waiting, in answer to request `t`. */
  predicate Notified(env: Env, t: nat) { env.fault(t).Fine? && env.notify(t) > 0 }

  /** The store's next seq, and every later one, is free on the server unless another party writes it. */
  ghost predicate NextIsFree(env: Env, live: Live, next: nat) {
    forall s: nat :: next <= s && Leaves(env, s) ==> s !in live
  }

  /** `receive` after a conflict, which makes the next seq free. */
  method Resync(d: D.Dialogue) returns (r: Result<()>)
    requires d.Valid()
    modifies d.net`live, d.net`now, d.net`hist, d.store
    ensures d.Valid() && old(d.store.nextSend) <= d.store.nextSend
    ensures Kept(d.net.env, old(d.net.live), d.net.hist, old(d.net.now), d.net.live)
    ensures d.store.journal == old(d.store.journal)
    ensures old(d.net.now) <= d.net.now && old(d.net.hist) <= d.net.hist
    ensures r.Ok? ==> NextIsFree(d.net.env, d.net.live, d.store.nextSend)
    ensures r.Err? ==> r.error in {Unreachable, RangeOverflow}
    ensures D.OnlyDelivered(old(d.store.saves), d.store.saves)
    ensures Survive(d.rd, old(d.store.messages), d.store.messages, {}, d.net.hist, old(d.net.now), d.net.now)
  {
    hide Survive;
    ghost var st0, t0, live0 := d.store.State(), d.net.now, d.net.live;
    var received, tr := d.Receive();
    ReceiveSurvived(d.rd, st0, d.store.State(), tr, d.net.hist, t0, d.net.now, received.Ok?);
    if received.Err? {
      return Err(received.error);
    }
    NextFreeAfterReceive(d.rd, st0, d.store.State(), tr, d.net.env, live0, d.net.hist, t0, d.net.live);
    return Ok(());
  }

  lemma NextFreeAfterReceive(rd: Reader, st0: StoreState, st1: StoreState, tr: Trace, env: Env, live0: Live,
                             hist: seq<Live>, t0: nat, live: Live)
    requires Outcome(rd, st0, st1, tr, hist, t0, |hist|, true)
    requires Kept(env, live0, hist, t0, live)
    ensures NextIsFree(env, live, st1.nextSend)
  {
    NextSeqAboveSnapshot(rd, st0, st1, tr, hist, t0, |hist|);
    var snapshot := hist[tr.mapped - 1];
    forall s: nat | st1.nextSend <= s && Leaves(env, s)
      ensures s !in live
    {
      assert SameAt(live0, snapshot, s) && SameAt(live0, live, s);
    }
  }

  /** The packet `m` travels in is on the server, under the seq and the key `m` claims. */
  ghost predicate OnServer(rd: Reader, live: Live, m: Message) {
    && m.serverSeq.Some? && m.serverSeq.value in live
    && KeyForSeq(rd.ring, m.serverSeq.value).Ok?
    && live[m.serverSeq.value] ==
       Sealed(KeyForSeq(rd.ring, m.serverSeq.value).value, Inner(m.id, m.sender, m.content, m.topic))
  }

  /** One attempt: take the next seq, push, and store the message if the server accepted it. */
  method Attempt(d: D.Dialogue, content: Content) returns (r: Result<Message>, s: nat)
    requires d.Valid()
    modifies d.net, d.store, d`drawn
    ensures d.Valid() && s == old(d.store.nextSend) && d.store.nextSend == s + 1 && d.drawn == old(d.drawn) + 1
    ensures r.Ok? ==>
              && r.value.id == d.uuid(old(d.drawn))
              && r.value == Message(r.value.id, d.rd.me, content, Sent, Some(s), d.activeTopic)
              && StoredOnce(d.store.messages, s)
              && d.store.messages == old(d.store.messages)[r.value.id := r.value]
              && OnServer(d.rd, d.net.live, r.value)
              && d.store.saves == old(d.store.saves) + [r.value]
    ensures r.Err? ==> d.store.messages == old(d.store.messages) && d.store.saves == old(d.store.saves)
    ensures old(d.net.hist) <= d.net.hist
    ensures KeptBelow(d.net.env, old(d.store.nextSend), old(d.net.live), d.net.hist, old(d.net.now), d.net.live)
    ensures d.store.journal == old(d.store.journal)
    ensures d.net.pushes == old(d.net.pushes) + PushedFor(d.rd, s)
    ensures r.Ok? || r == Err(DuplicateSeq) ==> PushedFor(d.rd, s) == [s]
    ensures r == Err(DuplicateSeq) ==> s in d.net.env.step(old(d.net.now), old(d.net.live))
  {
    hide StoredOnce, EnvBounded, Bounded, KeptBelow, KeyForSeq, Inv, PushedFor;
    ghost var st := d.store.State();
    var id := d.NewId();
    var p;
    p, s := PushNext(d, id, content);
    if p.Err? {
      return Err(p.error), s;
    }
    var m := Message(id, d.rd.me, content, Sent, Some(s), d.activeTopic);
    GrantedSavedOnce(st, m);
    d.store.SaveMessage(m);
    return Ok(m), s;
  }

  /** Take the next seq and push under it. */
  method PushNext(d: D.Dialogue, id: Id, content: Content) returns (p: Result<()>, s: nat)
    requires d.Valid()
    modifies d.net, d.store`nextSend
    ensures d.Valid() && s == old(d.store.nextSend)
    ensures d.store.State() == old(d.store.State()).(nextSend := s + 1)
    ensures p.Ok? ==>
              && KeyForSeq(d.rd.ring, s).Ok? && s in d.net.live
              && d.net.live[s] == Sealed(KeyForSeq(d.rd.ring, s).value, Inner(id, d.rd.me, content, d.activeTopic))
    ensures old(d.net.hist) <= d.net.hist
    ensures KeptBelow(d.net.env, s, old(d.net.live), d.net.hist, old(d.net.now), d.net.live)
    ensures d.net.pushes == old(d.net.pushes) + PushedFor(d.rd, s)
    ensures p.Ok? || p == Err(DuplicateSeq) ==> PushedFor(d.rd, s) == [s]
    ensures p == Err(DuplicateSeq) ==> s in d.net.env.step(old(d.net.now), old(d.net.live))
  {
    hide EnvBounded, Bounded, KeptBelow, KeyForSeq, Inv;
    CounterKeepsInv(d.store.State(), d.store.nextSend + 1);
    s := d.store.NextSendSeq();
    p := PushPacket(d, s, id, content, d.activeTopic);
  }

  /** One attempt and, if its seq was taken, a resync. The result is final unless the seq was taken. */
  method AttemptOrResync(d: D.Dialogue, content: Content) returns (ended: Option<Result<Message>>)
    requires d.Valid()
    modifies d.net, d.store, d`drawn
    ensures d.Valid() && old(d.store.nextSend) < d.store.nextSend && d.drawn == old(d.drawn) + 1
    ensures Survive(d.rd, old(d.store.messages), d.store.messages, Own(ended.GetOr(Err(DuplicateSeq))), d.net.hist,
                    old(d.net.now), d.net.now)
    ensures ended.Some? && ended.value.Ok? ==>
              var m := ended.value.value;
              && m.id == d.uuid(old(d.drawn))
              && m == Message(m.id, d.rd.me, content, Sent, Some(old(d.store.nextSend)), d.activeTopic)
              && StoredOnce(d.store.messages, old(d.store.nextSend))
              && m.id in d.store.messages && d.store.messages[m.id] == m
              && OnServer(d.rd, d.net.live, m)
              && d.store.saves == old(d.store.saves) + [m]
              && PushedFor(d.rd, old(d.store.nextSend)) == [old(d.store.nextSend)]
    ensures ended.Some? && ended.value.Err? ==>
              ended.value.error != DuplicateSeq && D.OnlyDelivered(old(d.store.saves), d.store.saves)
    ensures ended.None? ==>
              && D.OnlyDelivered(old(d.store.saves), d.store.saves)
              && NextIsFree(d.net.env, d.net.live, d.store.nextSend)
              && PushedFor(d.rd, old(d.store.nextSend)) == [old(d.store.nextSend)]
              && old(d.store.nextSend) in d.net.env.step(old(d.net.now), old(d.net.live))
    ensures old(d.net.hist) <= d.net.hist
    ensures KeptBelow(d.net.env, old(d.store.nextSend), old(d.net.live), d.net.hist, old(d.net.now), d.net.live)
    ensures d.store.journal == old(d.store.journal)
    ensures d.net.pushes == old(d.net.pushes) + PushedFor(d.rd, old(d.store.nextSend))
  {
    hide PushedFor, StoredOnce, OnServer, D.OnlyDelivered, EnvBounded, Bounded, Inv, Kept, KeptBelow, NextIsFree;
    hide Survive;
    ghost var live0, t0, messages0 := d.net.live, d.net.now, d.store.messages;
    D.OnlyDeliveredStart(d.store.saves);
    var r, s := Attempt(d, content);
    if r.Ok? {
      SurviveSave(d.rd, messages0, r.value, d.net.hist, t0, d.net.now);
      return Some(r);
    }
    SurviveSame(d.rd, messages0, {}, d.net.hist, t0, d.net.now);
    if r.error != DuplicateSeq {
      return Some(r);
    }
    ghost var live1, hist1 := d.net.live, d.net.hist;
    var resynced := Resync(d);
    SurviveTrans(d.rd, messages0, messages0, d.store.messages, {}, {}, hist1, d.net.hist, t0, |hist1|, d.net.now);
    NothingMore({});
    KeptIsKeptBelow(d.net.env, live1, d.net.hist, |hist1|, d.net.live, s);
    KeptBelowTrans(d.net.env, s, live0, hist1, t0, live1, s, d.net.hist, d.net.live);
    return if resynced.Err? then Some(Err(resynced.error)) else None;
  }

  /** The id of the message a send stored, if it did. */
  function Own(r: Result<Message>): set<Id> { if r.Ok? then {r.value.id} else {} }

  /** Send one packet of any kind, under a random id drawn for the attempt that succeeds. `pushed` lists the seqs of the
      push requests made, in order. */
  method Send(d: D.Dialogue, content: Content) returns (r: Result<Message>, ghost pushed: seq<nat>)
    requires d.Valid()
    modifies d.net, d.store, d`drawn
    ensures d.Valid() && old(d.drawn) <= d.drawn
    ensures r.Ok? ==> exists k: nat :: old(d.drawn) <= k < d.drawn && r.value.id == d.uuid(k)
    ensures Survive(d.rd, old(d.store.messages), d.store.messages, Own(r), d.net.hist, old(d.net.now), d.net.now)
    ensures d.net.pushes == old(d.net.pushes) + pushed
    ensures |pushed| <= SEND_ATTEMPTS && Rising(pushed, old(d.store.nextSend), d.store.nextSend)
    ensures r.Ok? ==>
              && pushed != []
              && r.value == Message(r.value.id, d.rd.me, content, Sent, Some(pushed[|pushed| - 1]), d.activeTopic)
              && r.value.id in d.store.messages && d.store.messages[r.value.id] == r.value
              && StoredOnce(d.store.messages, pushed[|pushed| - 1])
              && OnServer(d.rd, d.net.live, r.value)
    ensures old(d.net.hist) <= d.net.hist
    ensures KeptBelow(d.net.env, old(d.store.nextSend), old(d.net.live), d.net.hist, old(d.net.now), d.net.live)
    ensures d.store.journal == old(d.store.journal)
    ensures OwnSaves(old(d.store.saves), d.store.saves, if r.Ok? then [r.value] else [])
    ensures pushed != [] ==> OthersWrite(d.net.env, pushed, |pushed| - 1, Notified(d.net.env, old(d.net.now)))
    ensures r == Err(DuplicateSeq) ==>
              |pushed| == SEND_ATTEMPTS && OthersWrite(d.net.env, pushed, |pushed|, Notified(d.net.env, old(d.net.now)))
  {
    hide PushedFor, Rising, StoredOnce, OnServer, D.OnlyDelivered, EnvBounded, Bounded, Inv, Leaves, Kept;
    hide NextIsFree, OwnSaves, KeptBelow, Survive, OthersWrite, Notified;
    ghost var sure := Notified(d.net.env, d.net.now);
    NothingTaken(d.net.env, sure);
    ghost var next0, live0, t0, messages0 := d.store.nextSend, d.net.live, d.net.now, d.store.messages;
    pushed := [];
    var synced := SyncIfNews(d);
    KeptIsKeptBelow(d.net.env, live0, d.net.hist, t0, d.net.live, next0);
    OwnSavesNone(old(d.store.saves), d.store.saves);
    NothingRises(next0, d.store.nextSend);
    if synced.Err? {
      return Err(synced.error), pushed;
    }
    var attempt := 0;
    while attempt < SEND_ATTEMPTS
      invariant d.Valid() && attempt == |pushed| <= SEND_ATTEMPTS && old(d.drawn) <= d.drawn
      invariant d.net.pushes == old(d.net.pushes) + pushed
      invariant next0 <= d.store.nextSend && Rising(pushed, next0, d.store.nextSend)
      invariant old(d.net.hist) <= d.net.hist && d.store.journal == old(d.store.journal)
      invariant KeptBelow(d.net.env, next0, live0, d.net.hist, t0, d.net.live)
      invariant attempt > 0 || sure ==> NextIsFree(d.net.env, d.net.live, d.store.nextSend)
      invariant OthersWrite(d.net.env, pushed, attempt, sure)
      invariant Survive(d.rd, messages0, d.store.messages, {}, d.net.hist, t0, d.net.now)
      invariant D.OnlyDelivered(old(d.store.saves), d.store.saves)
      decreases SEND_ATTEMPTS - attempt
    {
      ghost var s, saves1, live1, hist1 := d.store.nextSend, d.store.saves, d.net.live, d.net.hist;
      ghost var messages1, k := d.store.messages, d.drawn;
      var ended;
      ended := AttemptOrResync(d, content);
      PushedForAtMostOne(d.rd, s);
      RisingNext(pushed, next0, s, PushedFor(d.rd, s));
      TakenSoFar(d.net.env, pushed, PushedFor(d.rd, s), sure);
      pushed := pushed + PushedFor(d.rd, s);
      RisingGrows(pushed, next0, s + 1, d.store.nextSend);
      KeptBelowTrans(d.net.env, next0, live0, hist1, t0, live1, s, d.net.hist, d.net.live);
      SurviveTrans(d.rd, messages0, messages1, d.store.messages, {}, Own(ended.GetOr(Err(DuplicateSeq))), hist1,
                   d.net.hist, t0, |hist1|, d.net.now);
      NothingMore(Own(ended.GetOr(Err(DuplicateSeq))));
      if ended.Some? {
        r := ended.value;
        if r.Ok? {
          assert old(d.drawn) <= k < d.drawn && r.value.id == d.uuid(k);
          OwnSavesOne(old(d.store.saves), saves1, r.value);
        } else {
          D.OnlyDeliveredTrans(old(d.store.saves), saves1, d.store.saves);
          OwnSavesNone(old(d.store.saves), d.store.saves);
        }
        return;
      }
      ConflictNeedsAnother(d.net.env, live1, |hist1|, s);
      TakenToo(d.net.env, pushed, s, sure);
      D.OnlyDeliveredTrans(old(d.store.saves), saves1, d.store.saves);
      attempt := attempt + 1;
    }
    TakenBefore(d.net.env, pushed, sure);
    OwnSavesNone(old(d.store.saves), d.store.saves);
    return Err(DuplicateSeq), pushed;
  }

  /** Another party writes each of the first `n` seqs, but perhaps the very first, which was taken without having
      received before unless the send began `sure`. */
  ghost predicate OthersWrite(env: Env, pushed: seq<nat>, n: nat, sure: bool)
    requires n <= |pushed|
  {
    forall i :: (if sure then 0 else 1) <= i < n ==> !Leaves(env, pushed[i])
  }

  lemma NothingTaken(env: Env, sure: bool)
    ensures OthersWrite(env, [], 0, sure)
  {
  }

  lemma TakenSoFar(env: Env, pushed: seq<nat>, next: seq<nat>, sure: bool)
    requires OthersWrite(env, pushed, |pushed|, sure) && |next| <= 1
    ensures OthersWrite(env, pushed + next, |pushed|, sure)
    ensures pushed + next != [] ==> OthersWrite(env, pushed + next, |pushed + next| - 1, sure)
  {
    hide Leaves;
  }

  lemma TakenBefore(env: Env, pushed: seq<nat>, sure: bool)
    requires pushed != [] && OthersWrite(env, pushed, |pushed|, sure)
    ensures OthersWrite(env, pushed, |pushed| - 1, sure)
  {
    hide Leaves;
  }

  lemma TakenToo(env: Env, pushed: seq<nat>, s: nat, sure: bool)
    requires pushed != [] && pushed[|pushed| - 1] == s && OthersWrite(env, pushed, |pushed| - 1, sure)
    requires |pushed| > 1 || sure ==> !Leaves(env, s)
    ensures OthersWrite(env, pushed, |pushed|, sure)
  {
    hide Leaves;
  }

  lemma NothingMore(own: set<Id>)
    ensures {} + own == own
  {
  }

  /** A free seq is found taken only if another party writes it. */
  lemma ConflictNeedsAnother(env: Env, live: Live, t: nat, s: nat)
    requires s in env.step(t, live)
    ensures NextIsFree(env, live, s) ==> !Leaves(env, s)
  {
    assert Leaves(env, s) ==> SameAt(live, env.step(t, live), s);
  }

  /** The messages saved since `before` are `own`, after some that `receive` stored. */
  ghost predicate OwnSaves(before: seq<Message>, after: seq<Message>, own: seq<Message>) {
    |own| <= |after| && after[|after| - |own|..] == own && D.OnlyDelivered(before, after[..|after| - |own|])
  }

  lemma OwnSavesNone(before: seq<Message>, after: seq<Message>)
    requires D.OnlyDelivered(before, after)
    ensures OwnSaves(before, after, [])
  {
    assert after[..|after|] == after;
  }

  lemma OwnSavesOne(before: seq<Message>, received: seq<Message>, m: Message)
    requires D.OnlyDelivered(before, received)
    ensures OwnSaves(before, received + [m], [m])
  {
    var after := received + [m];
    assert after[..|after| - 1] == received;
  }

  /** Strictly increasing seqs in `[from, to)`. */
  ghost predicate Rising(xs: seq<nat>, from: nat, to: nat) {
    && from <= to
    && (forall i :: 0 <= i < |xs| ==> from <= xs[i] < to)
    && (forall i, j :: 0 <= i < j < |xs| ==> xs[i] < xs[j])
  }

  lemma NothingRises(from: nat, to: nat)
    requires from <= to
    ensures Rising([], from, to)
  {
  }

  lemma RisingGrows(xs: seq<nat>, from: nat, to: nat, more: nat)
    requires Rising(xs, from, to) && to <= more
    ensures Rising(xs, from, more)
  {
  }

  lemma RisingNext(xs: seq<nat>, from: nat, s: nat, next: seq<nat>)
    requires Rising(xs, from, s) && (next == [] || next == [s])
    ensures Rising(xs + next, from, s + 1)
  {
  }

  lemma PushedForAtMostOne(rd: Reader, s: nat)
    ensures PushedFor(rd, s) == [] || PushedFor(rd, s) == [s]
  {
  }

  lemma GrantedSavedOnce(st: StoreState, m: Message)
    requires Inv(st) && m.serverSeq == Some(st.nextSend) && !m.status.Sending?
    ensures Inv(st.(nextSend := st.nextSend + 1, tables := Save(st.tables, m)))
    ensures StoredOnce(Save(st.tables, m).messages, st.nextSend)
  {
    GrantedSaveKeepsInv(st, m, st.nextSend + 1);
    assert Save(st.tables, m).messages[m.id] == m;
  }

  /** When nobody else writes, a send tries at most two seqs and never ends in a conflict. */
  method QuietSend(d: D.Dialogue, content: Content) returns (r: Result<Message>, ghost pushed: seq<nat>)
    requires d.Valid() && Quiet(d.net.env)
    modifies d.net, d.store, d`drawn
    ensures d.Valid() && |pushed| <= 2 && r != Err(DuplicateSeq)
    ensures d.net.pushes == old(d.net.pushes) + pushed
  {
    r, pushed := Send(d, content);
    QuietLeavesAll(d.net.env);
    hide Leaves, Quiet;
    assert Leaves(d.net.env, Nth(pushed, 1));
  }

  function Nth(xs: seq<nat>, i: nat): nat {
    if i < |xs| then xs[i] else 0
  }

  lemma QuietLeavesAll(env: Env)
    requires Quiet(env)
    ensures forall s: nat :: Leaves(env, s)
  {
  }
}
