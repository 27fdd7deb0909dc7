/** Messages from one store to another, and one after the other. */
module MessageRun {
  import opened Arrival
  import opened Base
  import opened Contents
  import opened Keyring
  import opened LocalStore
  import opened ReceiveRuns
  import opened ReceiveSpec
  import opened ReceiveTheorems
  import Send
  import opened Server
  import opened TransferRun
  import opened Types
  import opened Walk
  import D = Dialogue

  /** `m` is the message `sent` as its receiver should see it: same id, sender, topic and seq; a text is the same text,
      an attachment the same but for the sender's path, downloaded only if its bytes came along. */
  predicate Conveyed(sent: Message, m: Message) {
    && m.id == sent.id && m.sender == sent.sender && m.topic == sent.topic && m.serverSeq == sent.serverSeq
    && match sent.content
       case Plain(text) => m.content == Plain(text)
       case Attach(f) => m.content.Attach? && SameFile(f, m.content.file)
       case _ => false
  }

  /** The packet a sent message travels in. */
  function PacketOf(rd: Reader, m: Message): Packet
    requires m.serverSeq.Some? && KeyForSeq(rd.ring, m.serverSeq.value).Ok?
  {
    var s := m.serverSeq.value;
    Packet(s, Sealed(KeyForSeq(rd.ring, s).value, Inner(m.id, m.sender, m.content, m.topic)))
  }

  lemma PacketShows(sender: Reader, rd: Reader, sent: Message)
    requires sent.serverSeq.Some? && KeyForSeq(sender.ring, sent.serverSeq.value).Ok? && rd.ring == sender.ring
    requires sent.content.Plain? || sent.content.Attach?
    ensures SaveId(rd, PacketOf(sender, sent)) == Some(sent.id)
    ensures forall m :: ShownAs(rd, PacketOf(sender, sent), m) ==> Conveyed(sent, m)
  {
    hide KeyForSeq;
  }

  lemma StaysSteady(sender: Reader, env: Env, sent: Message, live0: Live, hist: seq<Live>, t0: nat, live: Live)
    requires Send.OnServer(sender, live0, sent) && Kept(env, live0, hist, t0, live)
    requires Leaves(env, sent.serverSeq.value)
    ensures KeyForSeq(sender.ring, sent.serverSeq.value).Ok?
    ensures Steady(hist, t0, |hist|, PacketOf(sender, sent))
  {
    hide KeyForSeq;
    forall k | t0 <= k < |hist|
      ensures sent.serverSeq.value in hist[k]
              && hist[k][sent.serverSeq.value] == PacketOf(sender, sent).payload
    {
      assert SameAt(live0, hist[k], sent.serverSeq.value);
    }
  }

  /** The receive at `last`, which made the requests from then on, can show the message: its seq is left alone by
      others, new to the store, above the cursor and in no body that is skipped, and ids are fresh. */
  ghost predicate Shows(env: Env, rd: Reader, st: StoreState, log: seq<Packet>, s: nat) {
    && Leaves(env, s) && !HasSeq(st.tables.messages, s) && st.lastPulled < s && !InBody(rd, log, s)
    && FreshIds(rd, st.tables, log)
  }

  /** Send a text or an attachment and let the peer receive: the peer stores it as it was sent, and its `receive` hands
      it out. */
  method SendThenReceive(d: D.Dialogue, peer: D.Dialogue, content: Content)
    returns (sent: Result<Message>, received: Result<(seq<Message>, nat)>, ghost tr: Trace, ghost live1: Live,
             ghost t1: nat)
    requires Apart(d, peer) && peer.rd.ring == d.rd.ring && (content.Plain? || content.Attach?)
    modifies d.net, d.store, d`drawn, peer.store
    ensures Apart(d, peer) && old(d.net.now) <= t1 <= d.net.now
    ensures Outcome(peer.rd, old(peer.store.State()), peer.store.State(), tr, d.net.hist, t1, d.net.now, received.Ok?)
    ensures Kept(d.net.env, live1, d.net.hist, t1, d.net.live)
    ensures sent.Ok? ==>
              && sent.value == Message(sent.value.id, d.rd.me, content, Sent, sent.value.serverSeq, d.activeTopic)
              && Send.OnServer(d.rd, live1, sent.value)
    ensures received.Ok? && LeavesAbove(d.net.env, old(peer.store.lastPulled)) ==>
              tr.log == Walked(peer.rd, live1, old(peer.store.lastPulled))
    ensures sent.Ok? && received.Ok? ==>
              Shows(d.net.env, peer.rd, old(peer.store.State()), tr.log, sent.value.serverSeq.GetOr(0)) ==>
              && sent.value.id in peer.store.messages
              && Conveyed(sent.value, peer.store.messages[sent.value.id])
              && peer.store.messages[sent.value.id].status in {Delivered, Read}
              && exists m :: m in received.value.0 && Conveyed(sent.value, m) && m.status.Delivered?
  {
    hide Outcome, Kept, KeptBelow, EnvBounded, Bounded, Inv, Leaves, Send.OnServer, HasSeq, InBody, FreshIds, Walked;
    hide LeavesAbove, StillAbove, Survive, Conveyed, Send.Rising, StoredOnce, Steady, ShownAs, Outputs;
    ghost var st := peer.store.State();
    ghost var pushed;
    sent, pushed := Send.Send(d, content);
    live1, t1 := d.net.live, d.net.now;
    received, tr := peer.Receive();
    if received.Ok? && LeavesAbove(d.net.env, st.lastPulled) {
      KeptStillAbove(d.net.env, st.lastPulled, live1, d.net.hist, t1, d.net.live);
      CompleteCallWalks(peer.rd, st, peer.store.State(), tr, d.net.hist, t1, d.net.now, live1);
    }
    if sent.Ok? && received.Ok? && Shows(d.net.env, peer.rd, st, tr.log, sent.value.serverSeq.GetOr(0)) {
      StaysSteady(d.rd, d.net.env, sent.value, live1, d.net.hist, t1, d.net.live);
      PacketShows(d.rd, peer.rd, sent.value);
      ghost var id, out := ArrivesAsSealed(peer.rd, st, peer.store.State(), tr, d.net.hist, t1, d.net.now,
                                           PacketOf(d.rd, sent.value));
      assert out in received.value.0 && Conveyed(sent.value, out);
    }
  }

  /** Two sends in a row leave two messages, each under its own id and seq. */
  method SendTwice(d: D.Dialogue, a: Content, b: Content)
    returns (first: Result<Message>, second: Result<Message>, ghost t1: nat)
    requires d.Valid() && Injective(d.uuid)
    modifies d.net, d.store, d`drawn
    ensures d.Valid() && old(d.net.now) <= t1 <= d.net.now
    ensures first.Ok? && second.Ok? ==>
              && first.value.id != second.value.id
              && first.value.serverSeq.GetOr(0) < second.value.serverSeq.GetOr(0)
              && second.value.id in d.store.messages && d.store.messages[second.value.id] == second.value
              && second.value == Message(second.value.id, d.rd.me, b, Sent, second.value.serverSeq, d.activeTopic)
              && first.value == Message(first.value.id, d.rd.me, a, Sent, first.value.serverSeq, d.activeTopic)
    ensures first.Ok? && second.Ok? && Leaves(d.net.env, first.value.serverSeq.GetOr(0))
            && NoReuse(d.rd, first.value, first.value.id, d.net.hist, t1, d.net.now) ==>
              first.value.id in d.store.messages && SameButStatus(first.value, d.store.messages[first.value.id])
  {
    hide Kept, KeptBelow, EnvBounded, Bounded, Inv, Leaves, Send.OnServer, Survive, Injective, Send.Rising, StoredOnce;
    hide NoReuse, StillThere;
    InvPositive(d.store.State());
    ghost var pushed1, pushed2, next0 := [], [], d.store.nextSend;
    first, pushed1 := Send.Send(d, a);
    ghost var k1, live1, next1, messages1 := d.drawn, d.net.live, d.store.nextSend, d.store.messages;
    t1 := d.net.now;
    second, pushed2 := Send.Send(d, b);
    if first.Ok? && second.Ok? {
      LastAbove(pushed1, next0, next1);
      LastBelow(pushed1, next1);
      LastAbove(pushed2, next1, d.store.nextSend);
      IdsDiffer(d, first.value.id, second.value.id, k1);
      if Leaves(d.net.env, first.value.serverSeq.GetOr(0))
         && NoReuse(d.rd, first.value, first.value.id, d.net.hist, t1, d.net.now) {
        StaysWhereSent(d.rd, d.net.env, first.value, live1, d.net.hist, t1, d.net.live, next1);
        NotGone(d.rd, messages1, d.store.messages, {second.value.id}, d.net.hist, t1, d.net.now, first.value);
      }
    }
  }

  lemma LastBelow(xs: seq<nat>, to: nat)
    requires xs != [] && exists from: nat :: Send.Rising(xs, from, to)
    ensures xs[|xs| - 1] < to
  {
    var from: nat :| Send.Rising(xs, from, to);
  }

  lemma LastAbove(xs: seq<nat>, from: nat, to: nat)
    requires Send.Rising(xs, from, to) && xs != []
    ensures from <= xs[|xs| - 1]
  {
  }

  lemma IdsDiffer(d: D.Dialogue, a: Id, b: Id, k: nat)
    requires Injective(d.uuid)
    requires exists i: nat :: i < k && a == d.uuid(i)
    requires exists j: nat :: k <= j && b == d.uuid(j)
    ensures a != b
  {
  }

  lemma StaysWhereSent(rd: Reader, env: Env, m: Message, live0: Live, hist: seq<Live>, t0: nat, live: Live, next: nat)
    requires Send.OnServer(rd, live0, m) && KeptBelow(env, next, live0, hist, t0, live)
    requires m.serverSeq.value < next && Leaves(env, m.serverSeq.value)
    ensures !GoneDuring(hist, t0, |hist|, m.serverSeq.value)
  {
    forall k | t0 <= k < |hist|
      ensures m.serverSeq.value in hist[k]
    {
      assert UntouchedBelow(env, next, live0, hist[k]) && SameAt(live0, hist[k], m.serverSeq.value);
    }
  }

  lemma NotGone(rd: Reader, before: Messages, after: Messages, own: set<Id>, hist: seq<Live>, t0: nat, t1: nat,
                m: Message)
    requires Survive(rd, before, after, own, hist, t0, t1)
    requires m.id in before && before[m.id] == m && m.id !in own && NoReuse(rd, m, m.id, hist, t0, t1)
    requires m.serverSeq.Some? && 0 < m.serverSeq.value && !GoneDuring(hist, t0, t1, m.serverSeq.value)
    ensures m.id in after && SameButStatus(m, after[m.id])
  {
    assert StillThere(before[m.id], m.id, after, hist, t0, t1);
  }
}
