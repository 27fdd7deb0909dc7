/** The run in which a peer never learns of a file: its header goes out after the peer has received a later packet. */
module LateHeader {
  import opened Base
  import opened FileSend
  import opened LocalStore
  import opened ReceiveRuns
  import opened ReceiveSpec
  import opened ReceiveTheorems
  import Send
  import opened Server
  import opened Transfer
  import opened TransferRun
  import opened TransferSpec
  import opened Types
  import D = Dialogue

  /** A seq that was free on the server and unknown to the receiver stays unknown to it. */
  lemma StaysUnknown(rd: Reader, st0: StoreState, st1: StoreState, tr: Trace, env: Env, live0: Live, hist: seq<Live>,
                     t0: nat, live: Live, ok: bool, s: nat)
    requires Outcome(rd, st0, st1, tr, hist, t0, |hist|, ok) && Kept(env, live0, hist, t0, live)
    requires KeyedById(st0.tables.messages) && !HasSeq(st0.tables.messages, s)
    requires (Leaves(env, s) && s !in live0) || s <= st0.lastPulled
    ensures !HasSeq(st1.tables.messages, s)
  {
    hide Fold, Covered, MapFaithful, KeyedById;
    forall i | 0 <= i < |tr.log|
      ensures tr.log[i].seqNo != s
    {
      assert Genuine(tr.log[i], tr.runs, hist, tr.mapped, |hist|);
      var k :| tr.mapped <= k < |hist| && tr.log[i].seqNo in hist[k];
      assert Leaves(env, s) ==> SameAt(live0, hist[k], s);
    }
    NoNewSeq(rd, st0.tables, tr.log, s);
  }

  /** A complete `receive` takes the cursor past every packet that stays. */
  lemma CursorPasses(rd: Reader, st0: StoreState, st1: StoreState, tr: Trace, env: Env, live0: Live, hist: seq<Live>,
                     t0: nat, live: Live, s: nat)
    requires Outcome(rd, st0, st1, tr, hist, t0, |hist|, true) && Kept(env, live0, hist, t0, live)
    requires Leaves(env, s) && s in live0
    ensures s <= st1.lastPulled
  {
    hide Fold, Covered, Orderly, Swept, Genuine;
    assert SameAt(live0, hist[tr.mapped - 1], s);
    assert AllAtMost(hist[tr.mapped - 1], tr.lastTotal);
  }

  /** Send a text and let the peer receive: what lies below the text's seq stays as it was, on the server and in the
      peer's store, and the peer's cursor passes it. */
  method TextThenReceive(d: D.Dialogue, peer: D.Dialogue, text: string, ghost h: nat)
    returns (sent: Result<Message>, received: Result<(seq<Message>, nat)>)
    requires Apart(d, peer) && h < d.store.nextSend
    modifies d.net, d.store, d`drawn, peer.store
    ensures Apart(d, peer) && old(d.net.hist) <= d.net.hist && d.store.journal == old(d.store.journal)
    ensures KeptBelow(d.net.env, old(d.store.nextSend), old(d.net.live), d.net.hist, old(d.net.now), d.net.live)
    ensures Leaves(d.net.env, h) && h !in old(d.net.live) && !HasSeq(old(peer.store.messages), h) ==>
              !HasSeq(peer.store.messages, h)
    ensures sent.Ok? && received.Ok? && Leaves(d.net.env, sent.value.serverSeq.GetOr(0)) ==> h < peer.store.lastPulled
  {
    hide Leaves, EnvBounded, Bounded, Inv, Kept, KeptBelow, Outcome, HasSeq, Send.Rising;
    ghost var live0, next0, t0 := d.net.live, d.store.nextSend, d.net.now;
    ghost var pushed;
    sent, pushed := Send.Send(d, Plain(text));
    ghost var live1, hist1, st1 := d.net.live, d.net.hist, peer.store.State();
    InvKeyed(st1);
    ghost var tr;
    received, tr := peer.Receive();
    KeptIsKeptBelow(d.net.env, live1, d.net.hist, |hist1|, d.net.live, next0);
    KeptBelowTrans(d.net.env, next0, live0, hist1, t0, live1, next0, d.net.hist, d.net.live);
    if Leaves(d.net.env, h) && h !in live0 && !HasSeq(st1.tables.messages, h) {
      StillFree(d.net.env, next0, live0, hist1, t0, live1, h);
      StaysUnknown(peer.rd, st1, peer.store.State(), tr, d.net.env, live1, d.net.hist, |hist1|, d.net.live,
                   received.Ok?, h);
    }
    if sent.Ok? && received.Ok? && Leaves(d.net.env, sent.value.serverSeq.GetOr(0)) {
      LastRises(pushed, next0, d.store.nextSend);
      CursorPasses(peer.rd, st1, peer.store.State(), tr, d.net.env, live1, d.net.hist, |hist1|, d.net.live,
                   sent.value.serverSeq.GetOr(0));
    }
  }

  lemma StillFree(env: Env, next: nat, live0: Live, hist: seq<Live>, t0: nat, live: Live, s: nat)
    requires KeptBelow(env, next, live0, hist, t0, live) && s < next && Leaves(env, s) && s !in live0
    ensures s !in live
  {
    assert SameAt(live0, live, s);
  }

  lemma LastRises(xs: seq<nat>, from: nat, to: nat)
    requires Send.Rising(xs, from, to) && xs != []
    ensures from <= xs[|xs| - 1]
  {
  }

  /** The transfer begins on a server whose next seqs are free. */
  ghost predicate Unhindered(env: Env, live: Live, t: Outbound) {
    OwnRange(env, t) && Send.NextIsFree(env, live, t.headerSeq)
  }

  lemma HeaderFree(env: Env, live: Live, t: Outbound)
    requires Unhindered(env, live, t)
    ensures t.headerSeq !in live && Leaves(env, t.headerSeq)
  {
    assert PacketSeq(t, 0) == t.headerSeq;
  }

  lemma NothingUploaded(d: D.Dialogue, t: Outbound, src: Bytes, live: Live)
    requires Splits(t, src) && Unhindered(d.net.env, live, t)
    ensures Uploaded(d.rd, t, src, live, 0)
  {
    RangeStartsFree(d, t, src, live);
  }

  /** A transfer is recorded and its process killed before the first push; the next one sends a text, the peer receives
      it, and only then the transfer is resumed. Whenever these calls succeed the whole file is on the server and its
      message is Sent, but the peer, which knew nothing of the file, has no message under its header's seq, not even
      after one more `receive`. */
  method LateHeaderIsMissed(d: D.Dialogue, peer: D.Dialogue, meta: Meta, path: Path, files: Files, rng: nat -> nat,
                            text: string)
    returns (begun: Result<Outbound>, sent: Result<Message>, first: Result<(seq<Message>, nat)>,
             second: Result<(seq<Message>, nat)>, ghost round: Round)
    requires Apart(d, peer) && path in files
    modifies d.net, d.store, d`drawn, d`rounds, peer.store
    ensures Apart(d, peer)
    ensures begun.Ok? ==> Splits(begun.value, files[path])
    ensures begun.Ok? && Unhindered(d.net.env, old(d.net.live), begun.value) && round.Completed? ==>
              Uploaded(d.rd, begun.value, files[path], d.net.live, begun.value.chunkCount + 1)
    ensures begun.Ok? && round.Completed? && begun.value.transferId in d.store.messages ==>
              d.store.messages[begun.value.transferId].status.Sent?
    ensures begun.Ok? && sent.Ok? && first.Ok? && second.Ok? && round.Completed? ==>
              Unhindered(d.net.env, old(d.net.live), begun.value) && Leaves(d.net.env, sent.value.serverSeq.GetOr(0))
              && !HasSeq(old(peer.store.messages), begun.value.headerSeq) ==>
                !HasSeq(peer.store.messages, begun.value.headerSeq)
  {
    hide Uploaded, Splits, Leaves, EnvBounded, Bounded, Inv, Unhindered, Kept, KeptBelow, Outcome, Grew, HasSeq;
    hide AllFine;
    hide AllSendable, OnlyRange, Underway;
    sent, first, second, round := Err(Unreachable), Err(Unreachable), Err(Unreachable), MapFailed;
    ghost var live0 := d.net.live;
    begun := BeginTransfer(d, meta, path, files[path], rng);
    if begun.Err? {
      return;
    }
    var t, src := begun.value, files[path];
    ghost var unhindered := Unhindered(d.net.env, live0, t);
    ghost var hist0, next0 := d.net.hist, d.store.nextSend;
    sent, first := TextThenReceive(d, peer, text, t.headerSeq);
    if unhindered {
      NothingUploaded(d, t, src, live0);
      HeaderFree(d.net.env, live0, t);
      StaysUnderway(d, t, src, files, live0, |hist0|, next0);
    }
    round, second := ResumeThenReceive(d, peer, t, files, src);
  }

  /** Resume a transfer of which nothing was pushed, and let the peer receive. */
  method ResumeThenReceive(d: D.Dialogue, peer: D.Dialogue, t: Outbound, files: Files, ghost src: Bytes)
    returns (ghost round: Round, received: Result<(seq<Message>, nat)>)
    requires Apart(d, peer) && 0 < t.headerSeq && t.chunkCount == |t.chunkSizes| && Splits(t, src)
    modifies d.net, d.store, d`rounds, peer.store
    ensures Apart(d, peer)
    ensures Underway(d, t, src, files, old(d.net.live), 0) && round.Completed? ==>
              Uploaded(d.rd, t, src, d.net.live, t.chunkCount + 1)
    ensures round.Completed? && t.transferId in d.store.messages ==> d.store.messages[t.transferId].status.Sent?
    ensures t.headerSeq <= old(peer.store.lastPulled) && !HasSeq(old(peer.store.messages), t.headerSeq) ==>
              !HasSeq(peer.store.messages, t.headerSeq)
  {
    hide Uploaded, Splits, Leaves, EnvBounded, Bounded, Inv, Kept, Outcome, Grew, HasSeq, AllFine, AllSendable;
    hide OnlyRange, Underway, OwnRange;
    ghost var underway := Underway(d, t, src, files, d.net.live, 0);
    ghost var live0, hist0 := d.net.live, d.net.hist;
    ghost var n;
    var resumed;
    resumed, round, n := ResumeOne(d, t, files, src, 0);
    ghost var live1, hist1, st1 := d.net.live, d.net.hist, peer.store.State();
    InvKeyed(st1);
    ghost var tr;
    received, tr := peer.Receive();
    if underway && round.Completed? {
      GrewEnds(d.rd, t, src, hist1, |hist0|, live1, 0, n);
      UnderwayOwn(d, t, src, files, live0, 0);
      StaysWhole(d, t, src, live1, |hist1|);
    }
    if !HasSeq(st1.tables.messages, t.headerSeq) && t.headerSeq <= st1.lastPulled {
      StaysUnknown(peer.rd, st1, peer.store.State(), tr, d.net.env, live1, d.net.hist, |hist1|, d.net.live,
                   received.Ok?, t.headerSeq);
    }
  }

  lemma UnderwayOwn(d: D.Dialogue, t: Outbound, src: Bytes, files: Files, live: Live, n: nat)
    requires Underway(d, t, src, files, live, n)
    ensures OwnRange(d.net.env, t)
  {
  }

  lemma StaysUnderway(d: D.Dialogue, t: Outbound, src: Bytes, files: Files, live0: Live, t0: nat, next0: nat)
    requires Splits(t, src) && Unhindered(d.net.env, live0, t) && t.headerSeq + t.chunkCount < next0
    requires KeptBelow(d.net.env, next0, live0, d.net.hist, t0, d.net.live) && t0 <= |d.net.hist|
    requires t.cachePath in files ==> files[t.cachePath] == src
    ensures Underway(d, t, src, files, d.net.live, 0)
  {
    hide Uploaded, KeptBelow, Splits, OwnRange, Grew;
    NothingUploaded(d, t, src, live0);
    StaysTracked(d, t, src, 0, live0, t0, next0);
  }

  lemma StaysWhole(d: D.Dialogue, t: Outbound, src: Bytes, live: Live, t0: nat)
    requires Splits(t, src) && Uploaded(d.rd, t, src, live, t.chunkCount + 1) && OwnRange(d.net.env, t)
    requires Kept(d.net.env, live, d.net.hist, t0, d.net.live) && t0 <= |d.net.hist|
    ensures Uploaded(d.rd, t, src, d.net.live, t.chunkCount + 1)
  {
    hide Uploaded, Kept, Splits, OwnRange, Grew;
    KeptTracked(d, t, src, t.chunkCount + 1, live, t0);
  }
}
