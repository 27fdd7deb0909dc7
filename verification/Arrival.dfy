/** When a packet that is on the server reaches the store of a dialogue, and what becomes of a file there. */
module Arrival {
  import opened Base
  import opened Contents
  import opened Download
  import opened Keyring
  import opened LocalStore
  import opened ReceiveRuns
  import opened ReceiveSpec
  import opened ReceiveTheorems
  import opened Runs
  import opened Server
  import opened TransferSpec
  import opened Types
  import opened Walk
  import D = Dialogue

  /** The packet was live, with one and the same payload, in every state `[t0, t1)` of the server. */
  ghost predicate Steady(hist: seq<Live>, t0: nat, t1: nat, p: Packet) {
    forall k :: t0 <= k < t1 && k < |hist| ==> p.seqNo in hist[k] && hist[k][p.seqNo] == p.payload
  }

  /** A handled packet is the one that was on the server all the time. */
  lemma HandledIsSteady(rd: Reader, st0: StoreState, st1: StoreState, tr: Trace, hist: seq<Live>, t0: nat, t1: nat,
                        p: Packet, i: nat)
    requires Outcome(rd, st0, st1, tr, hist, t0, t1, true) && Steady(hist, t0, t1, p)
    requires i < |tr.log| && tr.log[i].seqNo == p.seqNo
    ensures tr.log[i] == p
  {
    hide Fold, Covered, Orderly, Swept, MapFaithful;
    assert Genuine(tr.log[i], tr.runs, hist, tr.mapped, t1);
  }

  /** A packet that can be shown and stays on the server is in the store after a complete `receive` if and only if it
      was there before, or lay above the cursor and in no body that was skipped. */
  lemma ArrivesIff(rd: Reader, st0: StoreState, st1: StoreState, tr: Trace, hist: seq<Live>, t0: nat, t1: nat,
                   p: Packet)
    requires Outcome(rd, st0, st1, tr, hist, t0, t1, true) && Inv(st0) && Inv(st1) && FreshIds(rd, st0.tables, tr.log)
    requires 0 < p.seqNo && Steady(hist, t0, t1, p) && Displayable(rd, p)
    ensures HasSeq(st1.tables.messages, p.seqNo) <==>
            HasSeq(st0.tables.messages, p.seqNo) || (st0.lastPulled < p.seqNo && !InBody(rd, tr.log, p.seqNo))
  {
    hide Fold, FreshIds, Orderly, Inv, SaveId;
    OutcomeFacts(rd, st0, st1, tr, hist, t0, t1, p.seqNo);
    InvKeyed(st0);
    FoldFaithful(rd, st0.tables, tr.log, st0.lastPulled);
    if HasSeq(st0.tables.messages, p.seqNo) {
      var id :| id in st0.tables.messages && st0.tables.messages[id].serverSeq == Some(p.seqNo);
      assert HasSeq(Fold(rd, st0.tables, tr.log).messages, p.seqNo) by {
        assert id in Fold(rd, st0.tables, tr.log).messages;
      }
      SweepSparesMap(Fold(rd, st0.tables, tr.log), tr.runs, p.seqNo);
    } else {
      if st0.lastPulled < p.seqNo && !InBody(rd, tr.log, p.seqNo) {
        NoLoss(rd, st0, st1, tr, hist, t0, t1, p.seqNo);
        var i :| 0 <= i < |tr.log| && tr.log[i].seqNo == p.seqNo;
        HandledIsSteady(rd, st0, st1, tr, hist, t0, t1, p, i);
        assert StoredOnce(st1.tables.messages, p.seqNo);
      }
      if HasSeq(st1.tables.messages, p.seqNo) {
        var id :| id in st1.tables.messages && st1.tables.messages[id].serverSeq == Some(p.seqNo);
        SweptFromFold(Fold(rd, st0.tables, tr.log), tr.runs, id);
        assert FromLog(st1.tables.messages[id], tr.log);
        HandledAbove(rd, tr.log, st0.lastPulled, p.seqNo);
      }
    }
  }

  lemma SweptFromFold(t: Tables, runs: seq<Run>, id: Id)
    requires id in Swept(t, runs).messages
    ensures id in t.messages && Swept(t, runs).messages[id] == t.messages[id]
  {
  }

  lemma HandledAbove(rd: Reader, log: seq<Packet>, lo: nat, s: nat)
    requires Orderly(rd, log, lo) && Handled(log, s)
    ensures lo < s && !InBody(rd, log, s)
  {
    HandledOutsideBodies(rd, log, lo, s);
  }

  lemma OutcomeFacts(rd: Reader, st0: StoreState, st1: StoreState, tr: Trace, hist: seq<Live>, t0: nat, t1: nat, s: nat)
    requires Outcome(rd, st0, st1, tr, hist, t0, t1, true)
    ensures Orderly(rd, tr.log, st0.lastPulled)
    ensures st1.tables == Swept(Fold(rd, st0.tables, tr.log), tr.runs)
    ensures 0 < s && LiveThroughout(hist, t0, t1, s) ==> InRuns(tr.runs, s)
  {
    hide Fold, Covered, Orderly, Swept, Genuine;
  }

  // ── what a file header leaves in the store ──────────────────────────────

  /** The header packet of a transfer, as it travels. */
  function HeaderPacket(sender: Reader, t: Outbound, src: Bytes): Packet
    requires Splits(t, src) && KeyForSeq(sender.ring, t.headerSeq).Ok?
  {
    Packet(t.headerSeq, Sealed(KeyForSeq(sender.ring, t.headerSeq).value, PlannedInner(sender, t, src, 0)))
  }

  /** The message is an attachment from `who` that names this transfer, its file, its topic and its body. */
  predicate Names(m: Message, t: Outbound, who: User) {
    && m.content.Attach? && m.serverSeq == Some(t.headerSeq) && m.sender == who && m.topic == t.topic
    && m.content.file.transferId == Some(t.transferId) && m.content.file.meta == t.meta
    && m.content.file.chunkCount == t.chunkCount && m.content.file.size == t.totalSize
  }

  ghost predicate Listed(messages: Messages, t: Outbound, who: User) {
    exists id :: id in messages && Names(messages[id], t, who)
  }

  /** Handling the header where its seq is new stores a message that names the transfer. */
  lemma HeaderStored(rd: Reader, sender: Reader, t: Outbound, src: Bytes, tables: Tables)
    requires Splits(t, src) && KeyForSeq(sender.ring, t.headerSeq).Ok? && rd.ring == sender.ring
    requires !HasSeq(tables.messages, t.headerSeq)
    ensures var after := Handle(rd, tables, HeaderPacket(sender, t, src)).0.messages;
            t.transferId in after && Names(after[t.transferId], t, sender.me)
    ensures SaveId(rd, HeaderPacket(sender, t, src)) == Some(t.transferId)
  {
    hide KeyForSeq, HasSeq;
  }

  /** The header of a transfer, once handled where its seq was new, is named by a message to the end. */
  lemma HandledHeaderListed(rd: Reader, sender: Reader, t: Outbound, src: Bytes, tables: Tables, log: seq<Packet>,
                            lo: nat, i: nat)
    requires Splits(t, src) && KeyForSeq(sender.ring, t.headerSeq).Ok? && rd.ring == sender.ring
    requires KeyedById(tables.messages) && Orderly(rd, log, lo) && FreshIds(rd, tables, log)
    requires !HasSeq(tables.messages, t.headerSeq)
    requires i < |log| && log[i] == HeaderPacket(sender, t, src)
    ensures Listed(Fold(rd, tables, log).messages, t, sender.me)
  {
    hide Fold, Handle, SaveId, Orderly, HasSeq, KeyForSeq, PlannedInner, Names;
    NewSeqUntilHandled(rd, tables, log, lo, i);
    HandledSplit(rd, tables, log, i);
    var before, rest := Fold(rd, tables, log[..i]), log[i + 1..];
    var after := Handle(rd, before, log[i]).0;
    HeaderStored(rd, sender, t, src, before);
    forall j | 0 <= j < |rest|
      ensures SaveId(rd, rest[j]) != Some(t.transferId)
    {
      assert rest[j] == log[i + 1 + j];
    }
    FoldKeepsMessage(rd, after, rest, t.transferId);
    NamesKept(after.messages[t.transferId], Fold(rd, after, rest).messages[t.transferId], t, sender.me);
  }

  lemma NamesKept(m: Message, m': Message, t: Outbound, who: User)
    requires Names(m, t, who) && SameButStatus(m, m')
    ensures Names(m', t, who)
  {
  }

  /** A message in the store before keeps seq and content through the whole `receive`. */
  lemma OldMessageStays(rd: Reader, t: Tables, log: seq<Packet>, id: Id)
    requires FreshIds(rd, t, log) && id in t.messages
    ensures id in Fold(rd, t, log).messages
    ensures SameButStatus(t.messages[id], Fold(rd, t, log).messages[id])
  {
    hide Fold, SaveId;
    FoldKeepsMessage(rd, t, log, id);
  }

  lemma InMapSpared(t: Tables, runs: seq<Run>, id: Id, s: nat)
    requires id in t.messages && t.messages[id].serverSeq == Some(s) && InRuns(runs, s)
    ensures id in Swept(t, runs).messages && Swept(t, runs).messages[id] == t.messages[id]
  {
  }

  /** After a complete `receive` a message names the transfer if and only if one did before, or the header's seq was
      new, above the cursor and in no body that was skipped. */
  lemma HeaderArrivesIff(rd: Reader, sender: Reader, t: Outbound, src: Bytes, st0: StoreState, st1: StoreState,
                         tr: Trace, hist: seq<Live>, t0: nat, t1: nat)
    requires Outcome(rd, st0, st1, tr, hist, t0, t1, true) && Inv(st0) && Inv(st1) && FreshIds(rd, st0.tables, tr.log)
    requires Splits(t, src) && KeyForSeq(sender.ring, t.headerSeq).Ok? && rd.ring == sender.ring
    requires 0 < t.headerSeq && Steady(hist, t0, t1, HeaderPacket(sender, t, src))
    ensures Listed(st1.tables.messages, t, sender.me) <==>
            Listed(st0.tables.messages, t, sender.me)
            || (!HasSeq(st0.tables.messages, t.headerSeq) && st0.lastPulled < t.headerSeq
                && !InBody(rd, tr.log, t.headerSeq))
  {
    hide Fold, FreshIds, Orderly, Inv, SaveId, Steady, Outcome, InBody, KeyForSeq, Splits;
    var s := t.headerSeq;
    var p := HeaderPacket(sender, t, src);
    var fold := Fold(rd, st0.tables, tr.log);
    SteadyIsLive(hist, t0, t1, p);
    HeaderDisplayable(rd, sender, t, src);
    OutcomeFacts(rd, st0, st1, tr, hist, t0, t1, s);
    ArrivesIff(rd, st0, st1, tr, hist, t0, t1, p);
    InvKeyed(st0);
    InvKeyed(st1);
    forall id | id in st0.tables.messages && st0.tables.messages[id].serverSeq == Some(s)
      ensures id in st1.tables.messages && SameButStatus(st0.tables.messages[id], st1.tables.messages[id])
    {
      OldMessageStays(rd, st0.tables, tr.log, id);
      InMapSpared(fold, tr.runs, id, s);
    }
    if !HasSeq(st0.tables.messages, s) && HasSeq(st1.tables.messages, s) {
      NewlyHandled(rd, st0, st1, tr, hist, t0, t1, p);
      var i :| 0 <= i < |tr.log| && tr.log[i] == p;
      HandledHeaderListed(rd, sender, t, src, st0.tables, tr.log, st0.lastPulled, i);
      var id :| id in fold.messages && Names(fold.messages[id], t, sender.me);
      InMapSpared(fold, tr.runs, id, s);
    }
  }

  /** What a caller can check before a complete `receive`: the header's seq is new to the store, above its cursor, and
      not in the body of a header that the walk over the server's packets meets. */
  ghost predicate Reaches(rd: Reader, live: Live, messages: Messages, cursor: nat, s: nat) {
    !HasSeq(messages, s) && cursor < s && !InBody(rd, Walked(rd, live, cursor), s)
  }

  /** On packets that nobody touches meanwhile: whether a receiver learns of a file depends on the server's packets,
      its messages and its cursor before the call. */
  lemma HeaderReachesIff(rd: Reader, sender: Reader, t: Outbound, src: Bytes, st0: StoreState, st1: StoreState,
                         tr: Trace, hist: seq<Live>, t0: nat, t1: nat, live: Live)
    requires Outcome(rd, st0, st1, tr, hist, t0, t1, true) && Inv(st0) && Inv(st1)
    requires StillAbove(live, st0.lastPulled, hist, t0, t1)
    requires FreshIds(rd, st0.tables, Walked(rd, live, st0.lastPulled))
    requires Splits(t, src) && KeyForSeq(sender.ring, t.headerSeq).Ok? && rd.ring == sender.ring
    requires 0 < t.headerSeq && Steady(hist, t0, t1, HeaderPacket(sender, t, src))
    ensures Listed(st1.tables.messages, t, sender.me) <==>
            Listed(st0.tables.messages, t, sender.me)
            || Reaches(rd, live, st0.tables.messages, st0.lastPulled, t.headerSeq)
  {
    hide FreshIds, Inv, Steady, Outcome, InBody, Splits, Walked, StillAbove, Listed, HasSeq;
    CompleteCallWalks(rd, st0, st1, tr, hist, t0, t1, live);
    HeaderArrivesIff(rd, sender, t, src, st0, st1, tr, hist, t0, t1);
  }

  lemma SteadyIsLive(hist: seq<Live>, t0: nat, t1: nat, p: Packet)
    requires Steady(hist, t0, t1, p)
    ensures LiveThroughout(hist, t0, t1, p.seqNo)
  {
  }

  lemma HeaderDisplayable(rd: Reader, sender: Reader, t: Outbound, src: Bytes)
    requires Splits(t, src) && KeyForSeq(sender.ring, t.headerSeq).Ok? && rd.ring == sender.ring
    ensures Displayable(rd, HeaderPacket(sender, t, src))
  {
    hide KeyForSeq;
  }

  /** A displayable packet that is in the store after, and was not before, was handled. */
  lemma NewlyHandled(rd: Reader, st0: StoreState, st1: StoreState, tr: Trace, hist: seq<Live>, t0: nat, t1: nat,
                     p: Packet)
    requires Outcome(rd, st0, st1, tr, hist, t0, t1, true) && Inv(st0) && Inv(st1) && FreshIds(rd, st0.tables, tr.log)
    requires 0 < p.seqNo && Steady(hist, t0, t1, p) && Displayable(rd, p)
    requires !HasSeq(st0.tables.messages, p.seqNo) && HasSeq(st1.tables.messages, p.seqNo)
    ensures exists i :: 0 <= i < |tr.log| && tr.log[i] == p
  {
    hide Fold, FreshIds, Orderly, Inv, SaveId;
    ArrivesIff(rd, st0, st1, tr, hist, t0, t1, p);
    SteadyIsLive(hist, t0, t1, p);
    NoLoss(rd, st0, st1, tr, hist, t0, t1, p.seqNo);
    var i :| 0 <= i < |tr.log| && tr.log[i].seqNo == p.seqNo;
    HandledIsSteady(rd, st0, st1, tr, hist, t0, t1, p, i);
  }

  /** A packet to be shown that stays on the server is, after a complete `receive` that reaches it, in the store as it
      was sealed, and was handed out so. */
  lemma ArrivesAsSealed(rd: Reader, st0: StoreState, st1: StoreState, tr: Trace, hist: seq<Live>, t0: nat, t1: nat,
                        p: Packet)
    returns (id: Id, out: Message)
    requires Outcome(rd, st0, st1, tr, hist, t0, t1, true) && Inv(st0) && FreshIds(rd, st0.tables, tr.log)
    requires Steady(hist, t0, t1, p) && Displayable(rd, p) && !HasSeq(st0.tables.messages, p.seqNo)
    requires st0.lastPulled < p.seqNo && !InBody(rd, tr.log, p.seqNo)
    ensures SaveId(rd, p) == Some(id) && id in st1.tables.messages && ShownAs(rd, p, st1.tables.messages[id])
    ensures st1.tables.messages[id].status in {Delivered, Read}
    ensures out in Outputs(rd, st0.tables, tr.log) && ShownAs(rd, p, out) && out.status.Delivered? && out.id == id
  {
    hide Fold, FreshIds, Orderly, Inv, SaveId, Outputs, ShownAs, HasSeq, Swept;
    OutcomeFacts(rd, st0, st1, tr, hist, t0, t1, p.seqNo);
    SteadyIsLive(hist, t0, t1, p);
    var i := ReachedIsHandled(rd, st0, st1, tr, hist, t0, t1, p);
    InvKeyed(st0);
    id := FoldShows(rd, st0.tables, tr.log, st0.lastPulled, i);
    var m := Fold(rd, st0.tables, tr.log).messages[id];
    ShownSeq(rd, p, m);
    InMapSpared(Fold(rd, st0.tables, tr.log), tr.runs, id, p.seqNo);
    out := NewIsHandedOut(rd, st0.tables, tr.log, st0.lastPulled, i);
  }

  lemma ShownSeq(rd: Reader, p: Packet, m: Message)
    requires ShownAs(rd, p, m)
    ensures m.serverSeq == Some(p.seqNo)
  {
  }

  lemma ReachedIsHandled(rd: Reader, st0: StoreState, st1: StoreState, tr: Trace, hist: seq<Live>, t0: nat, t1: nat,
                         p: Packet)
    returns (i: nat)
    requires Outcome(rd, st0, st1, tr, hist, t0, t1, true) && Steady(hist, t0, t1, p)
    requires st0.lastPulled < p.seqNo && !InBody(rd, tr.log, p.seqNo)
    ensures i < |tr.log| && tr.log[i] == p
  {
    hide Fold, Orderly, Swept, InBody;
    SteadyIsLive(hist, t0, t1, p);
    OneCallCovers(rd, st0, st1, tr, hist, t0, t1, true, p.seqNo);
    i :| 0 <= i < |tr.log| && tr.log[i].seqNo == p.seqNo;
    HandledIsSteady(rd, st0, st1, tr, hist, t0, t1, p, i);
  }

  // ── receive, then download ──────────────────────────────────────────────

  /** The whole transfer is on the server, in a range that nobody else writes. */
  ghost predicate Whole(env: Env, sender: Reader, t: Outbound, src: Bytes, live: Live) {
    Splits(t, src) && OwnRange(env, t) && Uploaded(sender, t, src, live, t.chunkCount + 1)
  }

  lemma WholeKept(env: Env, sender: Reader, t: Outbound, src: Bytes, live0: Live, hist: seq<Live>, t0: nat, live: Live)
    requires Whole(env, sender, t, src, live0) && Kept(env, live0, hist, t0, live)
    ensures Whole(env, sender, t, src, live) && Splits(t, src) && KeyForSeq(sender.ring, t.headerSeq).Ok?
    ensures Steady(hist, t0, |hist|, HeaderPacket(sender, t, src))
  {
    hide Uploaded, OwnRange, Splits, KeyForSeq, PlannedInner;
    KeptIsUntouched(env, live0, hist, t0, live);
    OwnRangeKept(env, t, live0, live);
    UploadedSame(sender, t, src, live0, live, t.chunkCount + 1);
    HeaderPlanned(env, sender, t, src, live0);
    forall k | t0 <= k < |hist|
      ensures t.headerSeq in hist[k] && hist[k][t.headerSeq] == HeaderPacket(sender, t, src).payload
    {
      assert SameAt(live0, hist[k], t.headerSeq);
    }
  }

  lemma HeaderPlanned(env: Env, sender: Reader, t: Outbound, src: Bytes, live: Live)
    requires Whole(env, sender, t, src, live)
    ensures KeyForSeq(sender.ring, t.headerSeq).Ok? && Leaves(env, t.headerSeq)
    ensures t.headerSeq in live && live[t.headerSeq] == HeaderPacket(sender, t, src).payload
  {
    assert PlannedAt(sender, t, src, live, 0) && PacketSeq(t, 0) == t.headerSeq;
    assert Leaves(env, PacketSeq(t, 0));
  }

  lemma NowAvailable(reader: D.Dialogue, sender: Reader, want: Promise, t: Outbound, src: Bytes)
    requires reader.rd.ring == sender.ring && Bounded(reader.net.live)
    requires Splits(t, src) && OwnRange(reader.net.env, t)
    requires Uploaded(sender, t, src, reader.net.live, t.chunkCount + 1)
    requires want == Promise(t.headerSeq, t.transferId, t.chunkCount, t.totalSize)
    ensures Available(reader, want, sender, t, src, reader.net.live)
  {
    assert PlannedAt(sender, t, src, reader.net.live, t.chunkCount);
  }

  /** The reader looks for a message under the seq and downloads what it names. */
  method Fetch(reader: D.Dialogue, seqNo: nat, ghost sender: Reader, ghost t: Outbound, ghost src: Bytes)
    returns (body: Option<Result<Bytes>>)
    requires reader.Valid() && t.chunkCount <= U32_MAX
    modifies reader.net`live, reader.net`now, reader.net`hist
    ensures reader.Valid() && old(reader.net.hist) <= reader.net.hist
    ensures Kept(reader.net.env, old(reader.net.live), reader.net.hist, old(reader.net.now), reader.net.live)
    ensures Whole(reader.net.env, sender, t, src, old(reader.net.live)) && reader.rd.ring == sender.ring ==>
              seqNo == t.headerSeq && Listed(reader.store.messages, t, sender.me) ==>
              body == Some(Ok(src)) || body == Some(Err(Unreachable))
    ensures body.Some? ==> HasSeq(reader.store.messages, seqNo)
  {
    hide Uploaded, OwnRange, EnvBounded, Bounded, Leaves, Inv, Splits, Available, HasSeq, Kept;
    KeptStart(reader.net.env, reader.net.hist, reader.net.live);
    InvKeyed(reader.store.State());
    var id := reader.store.GetMessageBySeq(seqNo);
    if id.None? {
      NotListed(reader.store.messages, t, seqNo, sender.me);
      return None;
    }
    SeqThere(reader.store.messages, id.value, seqNo);
    OneMessagePerSeq(reader.store.messages, id.value, t, sender.me);
    var m := reader.store.messages[id.value];
    if !(m.content.Attach? && m.content.file.transferId.Some? && m.content.file.chunkCount <= U32_MAX) {
      return None;
    }
    var want := Promised(m);
    if Whole(reader.net.env, sender, t, src, reader.net.live) && reader.rd.ring == sender.ring
       && Names(m, t, sender.me) {
      NowAvailable(reader, sender, want, t, src);
    }
    var r := Collect(reader, want, sender, t, src);
    return Some(r);
  }

  lemma NotListed(messages: Messages, t: Outbound, s: nat, who: User)
    requires !HasSeq(messages, s)
    ensures s == t.headerSeq ==> !Listed(messages, t, who)
  {
  }

  lemma SeqThere(messages: Messages, id: Id, s: nat)
    requires id in messages && messages[id].serverSeq == Some(s)
    ensures HasSeq(messages, s)
  {
  }

  lemma OneMessagePerSeq(messages: Messages, id: Id, t: Outbound, who: User)
    requires DistinctSeqs(messages) && id in messages
    ensures messages[id].serverSeq == Some(t.headerSeq) && Listed(messages, t, who) ==> Names(messages[id], t, who)
  {
  }

  /** A `receive` and then a download of the file whose header travels under `seqNo`. */
  method ReceiveThenDownload(peer: D.Dialogue, seqNo: nat, ghost sender: Reader, ghost t: Outbound, ghost src: Bytes)
    returns (received: Result<(seq<Message>, nat)>, body: Option<Result<Bytes>>, ghost tr: Trace, ghost t1: nat)
    requires peer.Valid() && t.chunkCount <= U32_MAX && 0 < t.headerSeq
    modifies peer.net`live, peer.net`now, peer.net`hist, peer.store
    ensures peer.Valid() && old(peer.net.now) < t1 <= |peer.net.hist| && old(peer.net.hist) <= peer.net.hist
    ensures Kept(peer.net.env, old(peer.net.live), peer.net.hist, old(peer.net.now), peer.net.live)
    ensures Outcome(peer.rd, old(peer.store.State()), peer.store.State(), tr, peer.net.hist[..t1],
                    old(peer.net.now), t1, received.Ok?)
    ensures received.Ok? && LeavesAbove(peer.net.env, old(peer.store.lastPulled)) ==>
              tr.log == Walked(peer.rd, old(peer.net.live), old(peer.store.lastPulled))
    ensures received.Ok? && Whole(peer.net.env, sender, t, src, old(peer.net.live)) && peer.rd.ring == sender.ring ==>
              FreshIds(peer.rd, old(peer.store.AllTables()), tr.log) ==>
              (Listed(peer.store.messages, t, sender.me) <==>
                || Listed(old(peer.store.messages), t, sender.me)
                || (!HasSeq(old(peer.store.messages), t.headerSeq) && old(peer.store.lastPulled) < t.headerSeq
                    && !InBody(peer.rd, tr.log, t.headerSeq)))
    ensures received.Ok? && Whole(peer.net.env, sender, t, src, old(peer.net.live)) && peer.rd.ring == sender.ring ==>
              seqNo == t.headerSeq && Listed(peer.store.messages, t, sender.me) ==>
              body == Some(Ok(src)) || body == Some(Err(Unreachable))
  {
    hide Whole, EnvBounded, Bounded, Inv, FreshIds, Listed, HasSeq, InBody, Outcome, Kept, Steady;
    hide LeavesAbove, Walked, StillAbove;
    body := None;
    ghost var live0, t0, st0 := peer.net.live, peer.net.now, peer.store.State();
    received, tr := peer.Receive();
    t1 := peer.net.now;
    ghost var live1, hist1 := peer.net.live, peer.net.hist;
    assert hist1[..t1] == hist1;
    if received.Err? {
      return;
    }
    if LeavesAbove(peer.net.env, st0.lastPulled) {
      KeptStillAbove(peer.net.env, st0.lastPulled, live0, hist1, t0, live1);
      CompleteCallWalks(peer.rd, st0, peer.store.State(), tr, hist1, t0, t1, live0);
    }
    if Whole(peer.net.env, sender, t, src, live0) && peer.rd.ring == sender.ring {
      WholeKept(peer.net.env, sender, t, src, live0, hist1, t0, live1);
      if FreshIds(peer.rd, st0.tables, tr.log) {
        HeaderArrivesIff(peer.rd, sender, t, src, st0, peer.store.State(), tr, hist1, t0, t1);
      }
    }
    body := Fetch(peer, seqNo, sender, t, src);
    assert peer.net.hist[..t1] == hist1;
    KeptTrans(peer.net.env, live0, hist1, t0, live1, peer.net.hist, peer.net.live);
  }
}
