/** What every `receive` guarantees: nothing lost, nothing repeated, bodies never processed, exact sweep. */
module ReceiveTheorems {
  import opened Base
  import opened LocalStore
  import opened ReceiveSpec
  import opened Runs
  import opened Server
  import opened Types

  /** The id under which a packet is stored when it is shown as a message of its own. */
  function SaveId(rd: Reader, p: Packet): Option<Id> {
    match Opened(rd, p)
    case Some(Inner(_, _, FileHeader(transferId, _, _, _), _)) => Some(transferId)
    case Some(Inner(id, _, Plain(_), _)) => Some(id)
    case Some(Inner(id, _, Attach(_), _)) => Some(id)
    case _ => None
  }

  predicate Displayable(rd: Reader, p: Packet) { SaveId(rd, p).Some? }

  /** Random ids do not collide: neither among the packets nor with a message stored under another seq. */
  ghost predicate FreshIds(rd: Reader, t: Tables, log: seq<Packet>) {
    && (forall i, j :: 0 <= i < j < |log| && SaveId(rd, log[i]).Some? ==> SaveId(rd, log[i]) != SaveId(rd, log[j]))
    && (forall i :: 0 <= i < |log| && SaveId(rd, log[i]).Some? && SaveId(rd, log[i]).value in t.messages ==>
          t.messages[SaveId(rd, log[i]).value].serverSeq == Some(log[i].seqNo))
  }

  /** The messages differ in their status at most. */
  predicate SameButStatus(m: Message, m': Message) { m' == m.(status := m'.status) }

  /** The status is one that only ever becomes the other of the two, or stays. */
  predicate ConfirmedKept(m: Message, m': Message) {
    m.status in {Delivered, Read} ==> m'.status in {Delivered, Read}
  }

  /** A message is replaced only by a packet saved under its id; others change its status at most. */
  lemma HandleKeepsOthers(rd: Reader, t: Tables, p: Packet, id: Id)
    requires id in t.messages && (SaveId(rd, p) != Some(id) || HasSeq(t.messages, p.seqNo))
    ensures id in Handle(rd, t, p).0.messages
    ensures SameButStatus(t.messages[id], Handle(rd, t, p).0.messages[id])
    ensures ConfirmedKept(t.messages[id], Handle(rd, t, p).0.messages[id])
  {
    if Opened(rd, p).Some? && !IsEcho(rd, t, p) {
      ProcessKeepsOthers(rd, t, p, id);
    }
    hide Process, Opened, SaveId;
  }

  lemma ProcessKeepsOthers(rd: Reader, t: Tables, p: Packet, id: Id)
    requires id in t.messages && (SaveId(rd, p) != Some(id) || HasSeq(t.messages, p.seqNo)) && Opened(rd, p).Some?
    ensures var t' := Process(t, Opened(rd, p).value, p.seqNo).0;
            && id in t'.messages && SameButStatus(t.messages[id], t'.messages[id])
            && ConfirmedKept(t.messages[id], t'.messages[id])
  {
    hide Opened, HasSeq, Assemble, RowsOf;
  }

  /** A message keeps all but its status unless another packet is saved under its id. */
  lemma {:induction false} FoldKeepsMessage(rd: Reader, t: Tables, log: seq<Packet>, id: Id)
    requires id in t.messages
    requires forall j :: 0 <= j < |log| && SaveId(rd, log[j]) == Some(id) ==>
               t.messages[id].serverSeq == Some(log[j].seqNo)
    ensures id in Fold(rd, t, log).messages
    ensures SameButStatus(t.messages[id], Fold(rd, t, log).messages[id])
    ensures ConfirmedKept(t.messages[id], Fold(rd, t, log).messages[id])
    decreases |log|
  {
    hide Handle, SaveId;
    if log != [] {
      var n := |log| - 1;
      FoldKeepsMessage(rd, t, log[..n], id);
      assert SaveId(rd, log[n]) == Some(id) ==> HasSeq(Fold(rd, t, log[..n]).messages, log[n].seqNo);
      HandleKeepsOthers(rd, Fold(rd, t, log[..n]), log[n], id);
    }
  }

  /** Every message after a packet has the seq it had, or the packet's. */
  lemma HandleAddsOnlyItsSeq(rd: Reader, t: Tables, p: Packet, id: Id)
    requires KeyedById(t.messages)
    ensures id in Handle(rd, t, p).0.messages ==>
              || Handle(rd, t, p).0.messages[id].serverSeq == Some(p.seqNo)
              || (id in t.messages && Handle(rd, t, p).0.messages[id].serverSeq == t.messages[id].serverSeq)
    ensures KeyedById(Handle(rd, t, p).0.messages)
  {
    if Opened(rd, p).Some? && !IsEcho(rd, t, p) {
      ProcessAddsOnlyItsSeq(t, Opened(rd, p).value, p.seqNo, id);
    }
    hide Process;
  }

  /** A seq that no message carries and no handled packet has is carried by no message afterwards. */
  lemma {:induction false} NoNewSeq(rd: Reader, t: Tables, log: seq<Packet>, s: nat)
    requires KeyedById(t.messages) && !HasSeq(t.messages, s)
    requires forall i :: 0 <= i < |log| ==> log[i].seqNo != s
    ensures KeyedById(Fold(rd, t, log).messages) && !HasSeq(Fold(rd, t, log).messages, s)
    decreases |log|
  {
    hide Handle;
    if log != [] {
      var n := |log| - 1;
      NoNewSeq(rd, t, log[..n], s);
      var before := Fold(rd, t, log[..n]);
      var after := Handle(rd, before, log[n]).0;
      forall id | id in after.messages
        ensures after.messages[id].serverSeq != Some(s)
      {
        HandleAddsOnlyItsSeq(rd, before, log[n], id);
      }
      HandleAddsOnlyItsSeq(rd, before, log[n], Uuid(0));
    }
  }

  lemma ProcessAddsOnlyItsSeq(t: Tables, inner: Inner, s: nat, id: Id)
    requires KeyedById(t.messages)
    ensures AddsOnly(t, Process(t, inner, s).0, s, id)
  {
    if !HasSeq(t.messages, s) {
      match inner.content
      case ReadReceipt(upTo) =>
      case Delete(_) =>
      case FileHeader(_, _, _, _) => SaveAddsOnly(t, HeaderMessage(inner, s), s, id);
      case FileChunk(transfer, index, total, meta, _, data) =>
        var t1 := AddChunk(t, transfer, index, ChunkRow(inner.sender, total, meta, data));
        var a := Assemble(RowsOf(t1, transfer));
        hide Assemble, RowsOf;
        if transfer !in t.messages && a.Some? {
          SaveAddsOnly(DropChunks(t1, transfer), AssembledMessage(transfer, total, a.value, s), s, id);
        }
      case _ => SaveAddsOnly(t, ShownMessage(inner, s), s, id);
    }
  }

  ghost predicate AddsOnly(t: Tables, t': Tables, s: nat, id: Id) {
    && KeyedById(t'.messages)
    && (id in t'.messages ==>
          || t'.messages[id].serverSeq == Some(s)
          || (id in t.messages && t'.messages[id].serverSeq == t.messages[id].serverSeq))
  }

  lemma SaveAddsOnly(t: Tables, m: Message, s: nat, id: Id)
    requires KeyedById(t.messages) && m.serverSeq == Some(s)
    ensures AddsOnly(t, Save(t, m), s, id)
  {
  }

  lemma HandleStores(rd: Reader, t: Tables, p: Packet)
    requires Displayable(rd, p) && !HasSeq(t.messages, p.seqNo)
    ensures var m := Handle(rd, t, p).0.messages;
            SaveId(rd, p).value in m && m[SaveId(rd, p).value].serverSeq == Some(p.seqNo)
  {
  }

  /** Seq `log[i].seqNo` is carried by the message of packet `i` or by the message that had it before. */
  ghost predicate Carried(rd: Reader, t0: Tables, t: Tables, p: Packet) {
    exists id :: id in t.messages && t.messages[id].serverSeq == Some(p.seqNo) &&
                 (SaveId(rd, p) == Some(id) || (id in t0.messages && t0.messages[id].serverSeq == Some(p.seqNo)))
  }

  /** After the packets of `log`: every displayable one is carried, every old message kept its seq, and
      no seq appeared that is neither old nor in the log. */
  ghost predicate Faithful(rd: Reader, t0: Tables, t: Tables, log: seq<Packet>) {
    && KeyedById(t.messages)
    && (forall i :: 0 <= i < |log| && Displayable(rd, log[i]) ==> Carried(rd, t0, t, log[i]))
    && (forall id :: id in t0.messages ==> id in t.messages && t.messages[id].serverSeq == t0.messages[id].serverSeq)
    && (forall id :: id in t.messages ==>
          (id in t0.messages && t.messages[id].serverSeq == t0.messages[id].serverSeq) || FromLog(t.messages[id], log))
  }

  ghost predicate FromLog(m: Message, log: seq<Packet>) {
    exists i :: 0 <= i < |log| && m.serverSeq == Some(log[i].seqNo)
  }

  lemma FaithfulStep(rd: Reader, t0: Tables, t: Tables, log: seq<Packet>, p: Packet)
    requires FreshIds(rd, t0, log + [p])
    requires forall i :: 0 <= i < |log| ==> log[i].seqNo < p.seqNo
    requires Faithful(rd, t0, t, log)
    ensures Faithful(rd, t0, Handle(rd, t, p).0, log + [p])
  {
    var t', all := Handle(rd, t, p).0, log + [p];
    assert all[|log|] == p && forall i :: 0 <= i < |log| ==> all[i] == log[i];
    forall id
      ensures id in t0.messages ==> id in t'.messages && t'.messages[id].serverSeq == t0.messages[id].serverSeq
    {
      OldMessageKept(rd, t0, t, log, p, id);
    }
    forall id | id in t'.messages
      ensures (id in t0.messages && t'.messages[id].serverSeq == t0.messages[id].serverSeq)
              || FromLog(t'.messages[id], all)
    {
      NoStrangeSeq(rd, t0, t, log, p, id);
    }
    forall i | 0 <= i < |all| && Displayable(rd, all[i])
      ensures Carried(rd, t0, t', all[i])
    {
      if i < |log| {
        StaysCarried(rd, t0, t, log, p, i);
      } else {
        BecomesCarried(rd, t0, t, log, p);
      }
    }
    HandleAddsOnlyItsSeq(rd, t, p, Uuid(0));
  }

  lemma OldMessageKept(rd: Reader, t0: Tables, t: Tables, log: seq<Packet>, p: Packet, id: Id)
    requires FreshIds(rd, t0, log + [p]) && Faithful(rd, t0, t, log)
    ensures id in t0.messages ==>
              id in Handle(rd, t, p).0.messages &&
              Handle(rd, t, p).0.messages[id].serverSeq == t0.messages[id].serverSeq
  {
    if id in t0.messages {
      assert (log + [p])[|log|] == p;
      assert SaveId(rd, p) == Some(id) ==> HasSeq(t.messages, p.seqNo);
      HandleKeepsOthers(rd, t, p, id);
    }
  }

  lemma NoStrangeSeq(rd: Reader, t0: Tables, t: Tables, log: seq<Packet>, p: Packet, id: Id)
    requires Faithful(rd, t0, t, log)
    requires id in Handle(rd, t, p).0.messages
    ensures var m := Handle(rd, t, p).0.messages[id];
            (id in t0.messages && m.serverSeq == t0.messages[id].serverSeq) || FromLog(m, log + [p])
  {
    HandleAddsOnlyItsSeq(rd, t, p, id);
    var m, all := Handle(rd, t, p).0.messages[id], log + [p];
    assert all[|log|] == p;
    if id in t.messages && FromLog(t.messages[id], log) {
      var i :| 0 <= i < |log| && t.messages[id].serverSeq == Some(log[i].seqNo);
      assert all[i] == log[i];
    }
  }

  lemma StaysCarried(rd: Reader, t0: Tables, t: Tables, log: seq<Packet>, p: Packet, i: nat)
    requires FreshIds(rd, t0, log + [p])
    requires forall k :: 0 <= k < |log| ==> log[k].seqNo < p.seqNo
    requires Faithful(rd, t0, t, log) && i < |log| && Displayable(rd, log[i])
    ensures Carried(rd, t0, Handle(rd, t, p).0, log[i])
  {
    var all := log + [p];
    assert all[i] == log[i] && all[|log|] == p;
    assert Carried(rd, t0, t, log[i]);
    var id :| id in t.messages && t.messages[id].serverSeq == Some(log[i].seqNo) &&
              (SaveId(rd, log[i]) == Some(id)
               || (id in t0.messages && t0.messages[id].serverSeq == Some(log[i].seqNo)));
    assert SaveId(rd, p) != Some(id);
    HandleKeepsOthers(rd, t, p, id);
  }

  lemma BecomesCarried(rd: Reader, t0: Tables, t: Tables, log: seq<Packet>, p: Packet)
    requires forall k :: 0 <= k < |log| ==> log[k].seqNo < p.seqNo
    requires Faithful(rd, t0, t, log) && Displayable(rd, p)
    ensures Carried(rd, t0, Handle(rd, t, p).0, p)
  {
    if HasSeq(t.messages, p.seqNo) {
      var id :| id in t.messages && t.messages[id].serverSeq == Some(p.seqNo);
      HandleKeepsOthers(rd, t, p, id);
      assert !FromLog(t.messages[id], log);
    } else {
      HandleStores(rd, t, p);
    }
  }

  lemma {:induction false} FoldFaithful(rd: Reader, t0: Tables, log: seq<Packet>, lo: nat)
    requires KeyedById(t0.messages) && Orderly(rd, log, lo) && FreshIds(rd, t0, log)
    ensures Faithful(rd, t0, Fold(rd, t0, log), log)
    decreases |log|
  {
    if log != [] {
      var front, p := log[..|log| - 1], log[|log| - 1];
      assert log == front + [p];
      FoldFaithful(rd, t0, front, lo);
      forall i | 0 <= i < |front|
        ensures front[i].seqNo < p.seqNo
      {
        assert log[i] == front[i] && Advance(rd, log[i]) < log[|log| - 1].seqNo;
      }
      FaithfulStep(rd, t0, Fold(rd, t0, front), front, p);
    }
  }

  ghost predicate LiveThroughout(hist: seq<Live>, t0: nat, t1: nat, s: nat) {
    forall k :: t0 <= k < t1 && k < |hist| ==> s in hist[k]
  }

  /** Exactly one message carries `s`. */
  ghost predicate StoredOnce(messages: Messages, s: nat) {
    && HasSeq(messages, s)
    && forall a, b ::
         a in messages && b in messages && messages[a].serverSeq == Some(s) && messages[b].serverSeq == Some(s)
         ==> a == b
  }

  lemma SweepSparesMap(t: Tables, runs: seq<Run>, s: nat)
    requires InRuns(runs, s) && HasSeq(t.messages, s)
    ensures HasSeq(Swept(t, runs).messages, s)
  {
    var id :| id in t.messages && t.messages[id].serverSeq == Some(s);
    assert id in Swept(t, runs).messages;
  }

  /** No loss: a packet above the old cursor that stayed live while `receive` ran was handled, or lies in
      the body of a header that was; and if it was handled and can be shown, exactly one message has its seq. */
  lemma NoLoss(rd: Reader, st0: StoreState, st1: StoreState, tr: Trace, hist: seq<Live>, t0: nat, t1: nat, s: nat)
    requires Outcome(rd, st0, st1, tr, hist, t0, t1, true)
    requires Inv(st0) && Inv(st1) && FreshIds(rd, st0.tables, tr.log)
    requires st0.lastPulled < s && LiveThroughout(hist, t0, t1, s)
    ensures InBody(rd, tr.log, s) != Handled(tr.log, s)
    ensures forall i :: 0 <= i < |tr.log| && tr.log[i].seqNo == s && Displayable(rd, tr.log[i]) ==>
              StoredOnce(st1.tables.messages, s)
  {
    HandledOutsideBodies(rd, tr.log, st0.lastPulled, s);
    assert InRuns(tr.runs, s);
    FoldFaithful(rd, st0.tables, tr.log, st0.lastPulled);
    forall i | 0 <= i < |tr.log| && tr.log[i].seqNo == s && Displayable(rd, tr.log[i])
      ensures StoredOnce(st1.tables.messages, s)
    {
      assert Carried(rd, st0.tables, Fold(rd, st0.tables, tr.log), tr.log[i]);
      SweepSparesMap(Fold(rd, st0.tables, tr.log), tr.runs, s);
    }
  }

  /** No packet inside the body of a handled header is itself handled. */
  lemma HandledOutsideBodies(rd: Reader, log: seq<Packet>, lo: nat, s: nat)
    requires Orderly(rd, log, lo)
    ensures !(InBody(rd, log, s) && Handled(log, s))
  {
    assert forall i :: 0 <= i < |log| ==> log[i].seqNo <= Advance(rd, log[i]);
  }

  /** No repeat, however `receive` ends: handled seqs rise strictly above the old cursor, the cursor never
      falls, and it stays at or above every handled seq. */
  lemma NoRepeat(rd: Reader, st0: StoreState, st1: StoreState, tr: Trace, hist: seq<Live>, t0: nat, t1: nat, ok: bool)
    requires Outcome(rd, st0, st1, tr, hist, t0, t1, ok)
    ensures st0.lastPulled <= st1.lastPulled
    ensures forall i, j :: 0 <= i < j < |tr.log| ==> tr.log[i].seqNo < tr.log[j].seqNo
    ensures forall i :: 0 <= i < |tr.log| ==> st0.lastPulled < tr.log[i].seqNo <= st1.lastPulled
    ensures forall i :: 0 <= i < |tr.log| ==> !InBody(rd, tr.log, tr.log[i].seqNo)
  {
    assert forall i :: 0 <= i < |tr.log| ==> tr.log[i].seqNo <= Advance(rd, tr.log[i]);
  }

  /** An interrupted `receive` followed by a complete one loses nothing and handles nothing twice. */
  lemma InterruptionIsHarmless(rd: Reader, st0: StoreState, st1: StoreState, st2: StoreState, tr1: Trace, tr2: Trace,
                               hist: seq<Live>, t0: nat, t1: nat, t2: nat, s: nat)
    requires Outcome(rd, st0, st1, tr1, hist, t0, t1, false)
    requires Outcome(rd, st1, st2, tr2, hist, t1, t2, true)
    requires st0.lastPulled < s && LiveThroughout(hist, t0, t2, s)
    ensures Covered(rd, tr1.log, s) || Covered(rd, tr2.log, s)
    ensures !(Covered(rd, tr1.log, s) && Covered(rd, tr2.log, s))
  {
    if st1.lastPulled < s {
      assert InRuns(tr2.runs, s);
    } else {
      assert InRuns(tr1.runs, s);
    }
  }

  /** After the sweep every confirmed message is in the map. The sweep removed exactly the confirmed messages
      that were not: never one still on its way, never one handled in the same call. */
  lemma SweepIsExact(rd: Reader, st0: StoreState, st1: StoreState, tr: Trace, hist: seq<Live>, t0: nat, t1: nat, id: Id)
    requires Outcome(rd, st0, st1, tr, hist, t0, t1, true)
    ensures id in st1.tables.messages && st1.tables.messages[id].status in {Delivered, Read}
            && st1.tables.messages[id].serverSeq.Some? ==>
              InRuns(tr.runs, st1.tables.messages[id].serverSeq.value)
    ensures var before := Fold(rd, st0.tables, tr.log).messages;
            && (id in st1.tables.messages ==> id in before && st1.tables.messages[id] == before[id])
            && (id in before && id !in st1.tables.messages ==>
                  && before[id].status in {Delivered, Read}
                  && before[id].serverSeq.Some?
                  && !InRuns(tr.runs, before[id].serverSeq.value)
                  && !Handled(tr.log, before[id].serverSeq.value))
            && (id in before && before[id].status in {Delivered, Read} && before[id].serverSeq.Some? ==>
                  !InRuns(tr.runs, before[id].serverSeq.value) ==> id !in st1.tables.messages)
  {
    assert forall i :: 0 <= i < |tr.log| ==> Genuine(tr.log[i], tr.runs, hist, tr.mapped, t1);
  }

  /** A seq that stays deleted on the server disappears from the confirmed messages. */
  lemma DeletionConverges(rd: Reader, st0: StoreState, st1: StoreState, tr: Trace, hist: seq<Live>, t0: nat, t1: nat,
                          s: nat)
    requires Outcome(rd, st0, st1, tr, hist, t0, t1, true)
    requires forall k :: t0 <= k < t1 ==> s !in hist[k]
    ensures forall id :: id in st1.tables.messages && st1.tables.messages[id].serverSeq == Some(s) ==>
              st1.tables.messages[id].status !in {Delivered, Read}
  {
    forall id | id in st1.tables.messages && st1.tables.messages[id].serverSeq == Some(s)
      ensures st1.tables.messages[id].status !in {Delivered, Read}
    {
      SweepIsExact(rd, st0, st1, tr, hist, t0, t1, id);
    }
  }

  ghost predicate AllBelow(live: Live, n: nat) {
    forall s :: s in live ==> s < n
  }

  /** After a complete `receive` the next seq exceeds every seq live when the last map page was read. */
  lemma NextSeqAboveSnapshot(rd: Reader, st0: StoreState, st1: StoreState, tr: Trace, hist: seq<Live>, t0: nat, t1: nat)
    requires Outcome(rd, st0, st1, tr, hist, t0, t1, true)
    ensures t0 < tr.mapped <= |hist|
    ensures AllBelow(hist[tr.mapped - 1], st1.nextSend)
  {
    assert AllAtMost(hist[tr.mapped - 1], tr.lastTotal);
  }

  /** On an unchanged server a second `receive` returns nothing and changes nothing. */
  lemma SecondReceiveIsIdle(rd: Reader, st0: StoreState, st1: StoreState, st2: StoreState, tr1: Trace, tr2: Trace,
                            hist: seq<Live>, t0: nat, t1: nat, t2: nat, live: Live)
    requires Outcome(rd, st0, st1, tr1, hist, t0, t1, true)
    requires Outcome(rd, st1, st2, tr2, hist, t1, t2, true)
    requires Inv(st1) && forall k :: t0 <= k < t2 ==> hist[k] == live
    ensures tr2.log == [] && st2 == st1
  {
    FaithfulToLive(tr1, hist, t0, live);
    FaithfulToLive(tr2, hist, t1, live);
    NextSeqAboveSnapshot(rd, st0, st1, tr1, hist, t0, t1);
    assert AllAtMost(hist[tr1.mapped - 1], tr1.lastTotal);
    forall i | 0 <= i < |tr2.log|
      ensures tr2.log[i].seqNo <= st1.lastPulled
    {
      assert Genuine(tr2.log[i], tr2.runs, hist, tr2.mapped, t2);
    }
    NothingAbove(rd, tr2.log, st1.lastPulled);
    assert forall s: nat :: InRuns(tr2.runs, s) <==> InRuns(tr1.runs, s);
    forall id | id in st1.tables.messages
      ensures !IsTombstone(st1.tables.messages[id], tr2.runs)
    {
      SweepIsExact(rd, st0, st1, tr1, hist, t0, t1, id);
    }
    assert Swept(st1.tables, tr2.runs).messages == st1.tables.messages;
    assert AllAtMost(hist[tr1.mapped - 1], tr1.lastTotal);
  }

  lemma NothingAbove(rd: Reader, log: seq<Packet>, lo: nat)
    requires Orderly(rd, log, lo)
    requires forall i :: 0 <= i < |log| ==> log[i].seqNo <= lo
    ensures log == []
  {
    var last := Reached(rd, lo, log);
  }

  lemma FaithfulToLive(tr: Trace, hist: seq<Live>, t0: nat, live: Live)
    requires MapFaithful(tr.runs, tr.lastTotal, hist, t0, tr.mapped)
    requires forall k :: t0 <= k < tr.mapped ==> hist[k] == live
    ensures forall s: nat :: InRuns(tr.runs, s) <==> 0 < s && s in live
    ensures tr.lastTotal > 0 ==> tr.lastTotal in live
  {
  }

  // ── messages stored before ──────────────────────────────────────────────

  /** No packet that was on the server under another seq would be stored under the message's id. */
  ghost predicate NoReuse(rd: Reader, m: Message, id: Id, hist: seq<Live>, t0: nat, t1: nat) {
    forall k, s: nat :: t0 <= k < t1 && k < |hist| && s in hist[k] && SaveId(rd, Packet(s, hist[k][s])) == Some(id) ==>
      m.serverSeq == Some(s)
  }

  /** The message is still there with all but its status, or its packet was gone from the server at some request. */
  ghost predicate StillThere(m: Message, id: Id, after: Messages, hist: seq<Live>, t0: nat, t1: nat) {
    || (id in after && SameButStatus(m, after[id]))
    || (m.serverSeq.Some? && (0 < m.serverSeq.value ==> GoneDuring(hist, t0, t1, m.serverSeq.value)))
  }

  /** So it is for every message whose id is not used again, neither by another packet nor by one of `own`. */
  ghost predicate Survive(rd: Reader, before: Messages, after: Messages, own: set<Id>, hist: seq<Live>, t0: nat,
                          t1: nat)
  {
    forall id :: id in before && id !in own && NoReuse(rd, before[id], id, hist, t0, t1) ==>
      StillThere(before[id], id, after, hist, t0, t1)
  }

  lemma ReceiveSurvived(rd: Reader, st0: StoreState, st1: StoreState, tr: Trace, hist: seq<Live>, t0: nat, t1: nat,
                        ok: bool)
    requires Outcome(rd, st0, st1, tr, hist, t0, t1, ok)
    ensures Survive(rd, st0.tables.messages, st1.tables.messages, {}, hist, t0, t1)
  {
    hide Fold, SaveId, Orderly, Covered;
    forall id | id in st0.tables.messages && NoReuse(rd, st0.tables.messages[id], id, hist, t0, t1)
      ensures StillThere(st0.tables.messages[id], id, st1.tables.messages, hist, t0, t1)
    {
      NotSavedAgain(rd, st0, st1, tr, hist, t0, t1, ok, id);
      FoldKeepsMessage(rd, st0.tables, tr.log, id);
      SweptOnlyGone(rd, st0, st1, tr, hist, t0, t1, ok, id);
    }
  }

  lemma NotSavedAgain(rd: Reader, st0: StoreState, st1: StoreState, tr: Trace, hist: seq<Live>, t0: nat, t1: nat,
                      ok: bool, id: Id)
    requires Outcome(rd, st0, st1, tr, hist, t0, t1, ok) && id in st0.tables.messages
    requires NoReuse(rd, st0.tables.messages[id], id, hist, t0, t1)
    ensures forall j :: 0 <= j < |tr.log| && SaveId(rd, tr.log[j]) == Some(id) ==>
              st0.tables.messages[id].serverSeq == Some(tr.log[j].seqNo)
  {
    hide Fold, SaveId, Orderly, Covered, MapFaithful, Swept, InRuns;
    forall j | 0 <= j < |tr.log| && SaveId(rd, tr.log[j]) == Some(id)
      ensures st0.tables.messages[id].serverSeq == Some(tr.log[j].seqNo)
    {
      var p := tr.log[j];
      assert Genuine(p, tr.runs, hist, tr.mapped, t1);
      var k :| tr.mapped <= k < t1 && k < |hist| && p.seqNo in hist[k] && hist[k][p.seqNo] == p.payload;
      assert Packet(p.seqNo, hist[k][p.seqNo]) == p;
    }
  }

  /** The sweep removes only what was gone at some map request. */
  lemma SweptOnlyGone(rd: Reader, st0: StoreState, st1: StoreState, tr: Trace, hist: seq<Live>, t0: nat, t1: nat,
                      ok: bool, id: Id)
    requires Outcome(rd, st0, st1, tr, hist, t0, t1, ok)
    requires id in Fold(rd, st0.tables, tr.log).messages
    ensures var m := Fold(rd, st0.tables, tr.log).messages[id];
            || (id in st1.tables.messages && st1.tables.messages[id] == m)
            || (m.serverSeq.Some? && (0 < m.serverSeq.value ==> GoneDuring(hist, t0, t1, m.serverSeq.value)))
  {
    hide Fold, SaveId, Orderly, Covered, Genuine, InRuns;
    var m := Fold(rd, st0.tables, tr.log).messages[id];
    if ok && IsTombstone(m, tr.runs) && 0 < m.serverSeq.value {
      assert GoneDuring(hist, t0, tr.mapped, m.serverSeq.value);
    }
  }

  lemma SurviveTrans(rd: Reader, a: Messages, b: Messages, c: Messages, own1: set<Id>, own2: set<Id>, hist1: seq<Live>,
                     hist2: seq<Live>, t0: nat, t1: nat, t2: nat)
    requires Survive(rd, a, b, own1, hist1, t0, t1) && Survive(rd, b, c, own2, hist2, t1, t2)
    requires hist1 <= hist2 && t0 <= t1 <= t2 && t1 <= |hist1|
    ensures Survive(rd, a, c, own1 + own2, hist2, t0, t2)
  {
    hide SaveId;
    assert forall k :: 0 <= k < |hist1| ==> hist2[k] == hist1[k];
    forall id | id in a && id !in own1 + own2 && NoReuse(rd, a[id], id, hist2, t0, t2)
      ensures StillThere(a[id], id, c, hist2, t0, t2)
    {
      assert NoReuse(rd, a[id], id, hist1, t0, t1);
      assert StillThere(a[id], id, b, hist1, t0, t1);
      if id in b && SameButStatus(a[id], b[id]) {
        assert NoReuse(rd, b[id], id, hist2, t1, t2);
        assert StillThere(b[id], id, c, hist2, t1, t2);
      }
    }
  }

  lemma SurviveSave(rd: Reader, before: Messages, m: Message, hist: seq<Live>, t0: nat, t1: nat)
    ensures Survive(rd, before, before[m.id := m], {m.id}, hist, t0, t1)
  {
  }

  lemma SurviveSame(rd: Reader, before: Messages, own: set<Id>, hist: seq<Live>, t0: nat, t1: nat)
    ensures Survive(rd, before, before, own, hist, t0, t1)
  {
  }
}
