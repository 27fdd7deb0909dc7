/** What `Dialogue::receive` does to the local store, on values, and what follows from it. */
module ReceiveSpec {
  import opened Base
  import opened Keyring
  import opened LocalStore
  import opened Runs
  import opened Server
  import opened Types

  /** The account and the keys through which packets are read. */
  datatype Reader = Reader(me: User, ring: seq<Entry>)

  function Opened(rd: Reader, p: Packet): Option<Inner> {
    Decrypt(rd.ring, p.seqNo, p.payload)
  }

  /** Where the cursor goes after `p`: past the body if `p` is a file header. */
  function Advance(rd: Reader, p: Packet): nat {
    match Opened(rd, p)
    case Some(Inner(_, _, FileHeader(_, _, _, chunks), _)) => p.seqNo + chunks
    case _ => p.seqNo
  }

  /** `strip_remote_local_attachment_state`. */
  function Stripped(content: Content): Content {
    match content
    case Attach(f) =>
      var g := f.(cachePath := None);
      Attach(if g.data == [] && g.size > 0 then g.(downloaded := false) else g)
    case _ => content
  }

  function HeaderMessage(inner: Inner, s: nat): Message
    requires inner.content.FileHeader?
  {
    var FileHeader(transferId, meta, totalSize, chunks) := inner.content;
    Message(transferId, inner.sender,
            Attach(Attachment(meta, totalSize, [], Some(transferId), None, chunks,
                              if chunks == 0 then 0 else s + 1, if chunks == 0 then 0 else s + chunks,
                              chunks == 0, None)),
            Delivered, Some(s), inner.topic)
  }

  function ShownMessage(inner: Inner, s: nat): Message {
    Message(inner.id, inner.sender, Stripped(inner.content), Delivered, Some(s), inner.topic)
  }

  function AssembledMessage(transfer: Id, total: nat, a: Assembled, s: nat): Message {
    Message(transfer, a.sender,
            Attach(Attachment(a.meta, |a.data|, a.data, Some(transfer), None, total, 0, 0, true, None)),
            Delivered, Some(s), None)
  }

  /** `process_incoming`. */
  ghost function Process(t: Tables, inner: Inner, s: nat): (Tables, Option<Message>) {
    if HasSeq(t.messages, s) then (t, None)
    else match inner.content
      case ReadReceipt(upTo) => (ReadUntil(t, upTo), None)
      case Delete(_) => (t, None)
      case FileHeader(_, _, _, _) =>
        var m := HeaderMessage(inner, s);
        (Save(t, m), Some(m))
      case FileChunk(transfer, index, total, meta, _, data) =>
        if transfer in t.messages then (t, None)
        else
          var t1 := AddChunk(t, transfer, index, ChunkRow(inner.sender, total, meta, data));
          (match Assemble(RowsOf(t1, transfer))
           case None => (t1, None)
           case Some(a) =>
             var m := AssembledMessage(transfer, total, a, s);
             (Save(DropChunks(t1, transfer), m), Some(m)))
      case _ =>
        var m := ShownMessage(inner, s);
        (Save(t, m), Some(m))
  }

  ghost function Owner(messages: Messages, s: nat): Id
    requires HasSeq(messages, s)
    ensures Owner(messages, s) in messages && messages[Owner(messages, s)].serverSeq == Some(s)
  {
    var id :| id in messages && messages[id].serverSeq == Some(s);
    id
  }

  ghost predicate IsEcho(rd: Reader, t: Tables, p: Packet) {
    Opened(rd, p).Some? && Opened(rd, p).value.sender == rd.me && HasSeq(t.messages, p.seqNo)
  }

  /** One iteration of the packet loop of `receive`, on the tables; the cursor moves to `Advance(rd, p)`. */
  ghost function Handle(rd: Reader, t: Tables, p: Packet): (Tables, Option<Message>) {
    match Opened(rd, p)
    case None => (t, None)
    case Some(inner) =>
      if IsEcho(rd, t, p) then
        var id := Owner(t.messages, p.seqNo);
        var t1 := SetStatus(t, id, Delivered);
        (t1, Some(t1.messages[id]))
      else Process(t, inner, p.seqNo)
  }

  /** The tables after the packets of `log` were handled in order. */
  ghost function Fold(rd: Reader, t: Tables, log: seq<Packet>): Tables
    decreases |log|
  {
    if log == [] then t
    else Handle(rd, Fold(rd, t, log[..|log| - 1]), log[|log| - 1]).0
  }

  /** The messages `receive` hands to its caller. */
  ghost function Outputs(rd: Reader, t: Tables, log: seq<Packet>): seq<Message>
    decreases |log|
  {
    if log == [] then []
    else
      var front := log[..|log| - 1];
      var out := Handle(rd, Fold(rd, t, front), log[|log| - 1]).1;
      Outputs(rd, t, front) + if out.Some? then [out.value] else []
  }

  function Unopened(rd: Reader, log: seq<Packet>): nat
    decreases |log|
  {
    if log == [] then 0
    else Unopened(rd, log[..|log| - 1]) + if Opened(rd, log[|log| - 1]).None? then 1 else 0
  }

  lemma FoldSnoc(rd: Reader, t: Tables, log: seq<Packet>, p: Packet)
    ensures Fold(rd, t, log + [p]) == Handle(rd, Fold(rd, t, log), p).0
    ensures Outputs(rd, t, log + [p]) ==
            Outputs(rd, t, log) +
            (if Handle(rd, Fold(rd, t, log), p).1.Some? then [Handle(rd, Fold(rd, t, log), p).1.value] else [])
    ensures Unopened(rd, log + [p]) == Unopened(rd, log) + if Opened(rd, p).None? then 1 else 0
  {
    assert (log + [p])[..|log + [p]| - 1] == log;
  }

  /** Packets are handled in ascending order above `lo`, and none lies in the body of an earlier header. */
  ghost predicate Orderly(rd: Reader, log: seq<Packet>, lo: nat) {
    && (forall i :: 0 <= i < |log| ==> lo < log[i].seqNo)
    && (forall i, j :: 0 <= i < j < |log| ==> Advance(rd, log[i]) < log[j].seqNo)
  }

  /** The cursor after the packets of `log`: past the last of them. */
  function Reached(rd: Reader, cursor: nat, log: seq<Packet>): nat {
    if log == [] then cursor else Advance(rd, log[|log| - 1])
  }

  ghost predicate Handled(log: seq<Packet>, s: nat) {
    exists i :: 0 <= i < |log| && log[i].seqNo == s
  }

  /** `s` lies in the body announced by a header that was handled. */
  ghost predicate InBody(rd: Reader, log: seq<Packet>, s: nat) {
    exists i :: 0 <= i < |log| && log[i].seqNo < s <= Advance(rd, log[i])
  }

  ghost predicate Covered(rd: Reader, log: seq<Packet>, s: nat) {
    Handled(log, s) || InBody(rd, log, s)
  }

  lemma CoveredGrows(rd: Reader, log: seq<Packet>, p: Packet)
    ensures forall s: nat :: Covered(rd, log, s) ==> Covered(rd, log + [p], s)
    ensures forall s: nat :: p.seqNo <= s <= Advance(rd, p) ==> Covered(rd, log + [p], s)
  {
    var all := log + [p];
    assert all[|log|] == p && forall i :: 0 <= i < |log| ==> all[i] == log[i];
    forall s: nat | Covered(rd, log, s)
      ensures Covered(rd, all, s)
    {
      if Handled(log, s) {
        var i :| 0 <= i < |log| && log[i].seqNo == s;
        assert all[i].seqNo == s;
      } else {
        var i :| 0 <= i < |log| && log[i].seqNo < s <= Advance(rd, log[i]);
        assert all[i].seqNo < s <= Advance(rd, all[i]);
      }
    }
    forall s: nat | p.seqNo <= s <= Advance(rd, p)
      ensures Covered(rd, all, s)
    {
      assert s == p.seqNo ==> Handled(all, s);
      assert s != p.seqNo ==> all[|log|].seqNo < s <= Advance(rd, all[|log|]);
    }
  }

  /** A local message the tombstone sweep removes: confirmed once, but no longer in the map. */
  ghost predicate IsTombstone(m: Message, runs: seq<Run>) {
    Confirmed(m) && m.serverSeq.Some? && !InRuns(runs, m.serverSeq.value)
  }

  ghost function Swept(t: Tables, runs: seq<Run>): Tables {
    t.(messages := map id | id in t.messages && !IsTombstone(t.messages[id], runs) :: t.messages[id])
  }

  /** Ghost record of one `receive`: the packets handled, the map assembled, its `last_seq`, and the
      number of requests made when the map was complete. */
  datatype Trace = Trace(log: seq<Packet>, runs: seq<Run>, lastTotal: nat, mapped: nat)

  ghost predicate AllAtMost(live: Live, n: nat) {
    forall s :: s in live ==> s <= n
  }

  ghost predicate GoneDuring(hist: seq<Live>, from: nat, to: nat, s: nat) {
    exists k :: from <= k < to && k < |hist| && s !in hist[k]
  }

  ghost predicate LiveDuring(hist: seq<Live>, from: nat, to: nat, s: nat) {
    exists k :: from <= k < to && k < |hist| && s in hist[k]
  }

  /** The assembled map against the server states `[t0, t1)` it was read from: it holds nothing that was
      never live, and everything that was live throughout. */
  ghost predicate MapFaithful(runs: seq<Run>, lastTotal: nat, hist: seq<Live>, t0: nat, t1: nat) {
    && t0 < t1 <= |hist|
    && Ascending(runs)
    && (forall s: nat :: InRuns(runs, s) ==> 0 < s && LiveDuring(hist, t0, t1, s))
    && (forall s: nat :: 0 < s && !InRuns(runs, s) ==> GoneDuring(hist, t0, t1, s))
    && AllAtMost(hist[t1 - 1], lastTotal)
    && (forall i :: 0 <= i < |runs| ==> runs[i].end <= lastTotal)
    && (lastTotal > 0 ==> LiveDuring(hist, t0, t1, lastTotal))
  }

  /** What one `receive` that made the requests `[t0, t1)` did, whether or not it ran to the end. */
  ghost predicate Outcome(rd: Reader, st0: StoreState, st1: StoreState, tr: Trace,
                          hist: seq<Live>, t0: nat, t1: nat, ok: bool)
  {
    && t0 <= tr.mapped <= t1 <= |hist|
    && Orderly(rd, tr.log, st0.lastPulled)
    && (forall i :: 0 <= i < |tr.log| ==> Advance(rd, tr.log[i]) <= st1.lastPulled)
    && (forall i :: 0 <= i < |tr.log| ==> Genuine(tr.log[i], tr.runs, hist, tr.mapped, t1))
    && (forall s: nat :: InRuns(tr.runs, s) && st0.lastPulled < s && (ok || s <= st1.lastPulled) ==>
          Covered(rd, tr.log, s) || GoneDuring(hist, tr.mapped, t1, s))
    && st1.journal == st0.journal
    && st1.lastPulled >= st0.lastPulled
    && st1.nextSend == Max(st0.nextSend, st1.lastPulled + 1)
    && (ok ==>
          && MapFaithful(tr.runs, tr.lastTotal, hist, t0, tr.mapped)
          && st1.lastPulled == Max(tr.lastTotal, Reached(rd, st0.lastPulled, tr.log))
          && st1.tables == Swept(Fold(rd, st0.tables, tr.log), tr.runs))
    && (!ok ==>
          && st1.tables == Fold(rd, st0.tables, tr.log)
          && ((tr.log == [] && st1 == st0) || MapFaithful(tr.runs, tr.lastTotal, hist, t0, tr.mapped)))
  }

  /** A handled packet was in the map and is what the server held when it was pulled. */
  ghost predicate Genuine(p: Packet, runs: seq<Run>, hist: seq<Live>, from: nat, to: nat) {
    InRuns(runs, p.seqNo) &&
    exists k :: from <= k < to && k < |hist| && p.seqNo in hist[k] && hist[k][p.seqNo] == p.payload
  }

  // ── invariants ──────────────────────────────────────────────────────────

  lemma SaveKeepsInv(st: StoreState, m: Message, n: nat)
    requires Inv(st) && m.serverSeq.Some? && !HasSeq(st.tables.messages, m.serverSeq.value)
    requires m.serverSeq.value <= n && !m.status.Sending?
    ensures Inv(SetPulled(st.(tables := Save(st.tables, m)), n))
  {
  }

  lemma SameMessagesKeepInv(st: StoreState, t: Tables, n: nat)
    requires Inv(st) && t.messages == st.tables.messages
    ensures Inv(st.(tables := t)) && Inv(SetPulled(st.(tables := t), n))
  {
  }

  lemma ReadKeepsInv(st: StoreState, upTo: nat, n: nat)
    requires Inv(st)
    ensures Inv(SetPulled(st.(tables := ReadUntil(st.tables, upTo)), n))
  {
  }

  lemma ProcessKeepsInv(st: StoreState, inner: Inner, s: nat, n: nat)
    requires Inv(st) && s <= n
    ensures Inv(SetPulled(st.(tables := Process(st.tables, inner, s).0), n))
  {
    hide Inv, SetPulled, Save, ReadUntil, Assemble, RowsOf, HasSeq;
    var t := st.tables;
    SameMessagesKeepInv(st, t, n);
    if !HasSeq(t.messages, s) {
      match inner.content
      case ReadReceipt(upTo) => ReadKeepsInv(st, upTo, n);
      case Delete(_) =>
      case FileHeader(_, _, _, _) => SaveKeepsInv(st, HeaderMessage(inner, s), n);
      case FileChunk(transfer, index, total, meta, _, data) =>
        if transfer !in t.messages {
          var t1 := AddChunk(t, transfer, index, ChunkRow(inner.sender, total, meta, data));
          var a := Assemble(RowsOf(t1, transfer));
          SameMessagesKeepInv(st, t1, n);
          SameMessagesKeepInv(st, DropChunks(t1, transfer), n);
          if a.Some? {
            SaveKeepsInv(st.(tables := DropChunks(t1, transfer)), AssembledMessage(transfer, total, a.value, s), n);
          }
        }
      case _ => SaveKeepsInv(st, ShownMessage(inner, s), n);
    }
  }

  lemma HandleKeepsInv(rd: Reader, st: StoreState, p: Packet)
    requires Inv(st)
    ensures Inv(SetPulled(st.(tables := Handle(rd, st.tables, p).0), Advance(rd, p)))
  {
    if Opened(rd, p).Some? && !IsEcho(rd, st.tables, p) {
      ProcessKeepsInv(st, Opened(rd, p).value, p.seqNo, Advance(rd, p));
    }
  }

  lemma SweepKeepsInv(st: StoreState, runs: seq<Run>)
    requires Inv(st)
    ensures Inv(st.(tables := Swept(st.tables, runs)))
  {
  }
}
