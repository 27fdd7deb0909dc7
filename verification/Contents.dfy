/** What received packets do to the local store, kind by kind, and what a message that was received contains. */
module Contents {
  import opened Base
  import opened Keyring
  import opened LocalStore
  import opened ReceiveRuns
  import opened ReceiveSpec
  import opened ReceiveTheorems
  import opened Server
  import opened Types

  // ── what a message shows ────────────────────────────────────────────────

  /** The message is the one its sender sealed: same id, sender and topic, under the packet's seq. A text is the
      sealed text. An attachment is the sealed one without the sender's path, and downloaded only if its bytes came
      with it. A file header gives an attachment that names the transfer and the seqs of its body. */
  predicate ShownAs(rd: Reader, p: Packet, m: Message) {
    && m.serverSeq == Some(p.seqNo)
    && match Opened(rd, p)
       case Some(Inner(id, sender, Plain(text), topic)) =>
         m.id == id && m.sender == sender && m.topic == topic && m.content == Plain(text)
       case Some(Inner(id, sender, Attach(f), topic)) =>
         && m.id == id && m.sender == sender && m.topic == topic && m.content.Attach?
         && SameFile(f, m.content.file)
       case Some(Inner(_, sender, FileHeader(transferId, meta, totalSize, chunks), topic)) =>
         && m.id == transferId && m.sender == sender && m.topic == topic && m.content.Attach?
         && HeaderFile(m.content.file, transferId, meta, totalSize, chunks, p.seqNo)
       case _ => false
  }

  /** All that travels of an attachment; the bytes are there if they came along or there are none. */
  predicate SameFile(f: Attachment, g: Attachment) {
    && g.meta == f.meta && g.size == f.size && g.data == f.data && g.transferId == f.transferId
    && g.chunkCount == f.chunkCount && g.bodyFrom == f.bodyFrom && g.bodyTo == f.bodyTo && g.blob == f.blob
    && g.cachePath == None && (g.downloaded <==> f.downloaded && (f.data != [] || f.size == 0))
  }

  predicate HeaderFile(g: Attachment, transferId: Id, meta: Meta, totalSize: nat, chunks: nat, s: nat) {
    && g.transferId == Some(transferId) && g.meta == meta && g.size == totalSize && g.chunkCount == chunks
    && g.data == [] && g.cachePath == None && g.blob == None && (g.downloaded <==> chunks == 0)
    && if chunks > 0 then g.bodyFrom == s + 1 && g.bodyTo == s + chunks else g.bodyFrom == g.bodyTo == 0
  }

  lemma ShownKept(rd: Reader, p: Packet, m: Message, m': Message)
    requires ShownAs(rd, p, m) && SameButStatus(m, m')
    ensures ShownAs(rd, p, m')
  {
  }

  // ── what one packet does ────────────────────────────────────────────────

  /** Of the messages only `id` may have changed or been added. */
  ghost predicate OnlyMessage(t: Tables, t': Tables, id: Id) {
    && t'.messages.Keys == t.messages.Keys + {id}
    && forall x :: x in t.messages && x != id ==> t'.messages[x] == t.messages[x]
  }

  /** Our own packet back: the message under its seq becomes Delivered. */
  ghost predicate Echoed(t: Tables, s: nat, t': Tables, out: Option<Message>) {
    exists id :: id in t.messages && t.messages[id].serverSeq == Some(s) &&
      t' == t.(messages := t'.messages) && OnlyMessage(t, t', id) &&
      t'.messages[id] == t.messages[id].(status := Delivered) && out == Some(t'.messages[id])
  }

  /** A receipt: our messages up to `upTo` that were out are read now. */
  ghost predicate ReceiptRead(t: Tables, upTo: nat, t': Tables, out: Option<Message>) {
    && out == None && t' == t.(messages := t'.messages) && t'.messages.Keys == t.messages.Keys
    && forall id :: id in t.messages ==>
         var m, m' := t.messages[id], t'.messages[id];
         if m.status in {Sent, Delivered} && m.serverSeq.Some? && m.serverSeq.value <= upTo
         then m' == m.(status := Read) else m' == m
  }

  /** A chunk of a legacy file: it joins the chunks that are there, and once all are there the file is stored. */
  ghost predicate ChunkTaken(t: Tables, inner: Inner, s: nat, t': Tables, out: Option<Message>)
    requires inner.content.FileChunk?
  {
    var FileChunk(transfer, index, total, meta, _, data) := inner.content;
    var kept := RowsOf(t, transfer);
    var rows := if index in kept then kept else kept[index := ChunkRow(inner.sender, total, meta, data)];
    && (forall x :: x != transfer ==> RowsOf(t', x) == RowsOf(t, x))
    && (match Assemble(rows)
        case None => out == None && t'.messages == t.messages && RowsOf(t', transfer) == rows
        case Some(a) =>
          && OnlyMessage(t, t', transfer) && RowsOf(t', transfer) == map[] && out == Some(t'.messages[transfer])
          && FileStored(t'.messages[transfer], transfer, total, a, s))
  }

  predicate FileStored(m: Message, transfer: Id, total: nat, a: Assembled, s: nat) {
    && m.id == transfer && m.sender == a.sender && m.status == Delivered && m.serverSeq == Some(s) && m.topic == None
    && m.content.Attach?
    && var f := m.content.file;
       && f.data == a.data && f.size == |a.data| && f.meta == a.meta && f.downloaded && f.cachePath == None
       && f.transferId == Some(transfer) && f.chunkCount == total && f.bodyFrom == f.bodyTo == 0 && f.blob == None
  }

  /** What a packet does and answers, by what it opens to. */
  ghost predicate HandledAs(rd: Reader, t: Tables, p: Packet, t': Tables, out: Option<Message>) {
    var nothing := t' == t && out == None;
    match Opened(rd, p)
    case None => nothing
    case Some(inner) =>
      if HasSeq(t.messages, p.seqNo) then
        if inner.sender == rd.me then Echoed(t, p.seqNo, t', out) else nothing
      else match inner.content
        case ReadReceipt(upTo) => ReceiptRead(t, upTo, t', out)
        case Delete(_) => nothing
        case FileChunk(transfer, _, _, _, _, _) =>
          if transfer in t.messages then nothing else ChunkTaken(t, inner, p.seqNo, t', out)
        case _ => Added(rd, t, p, t', out)
  }

  /** A message of its own: it is stored as sealed, Delivered, and handed out. */
  ghost predicate Added(rd: Reader, t: Tables, p: Packet, t': Tables, out: Option<Message>) {
    && out.Some? && ShownAs(rd, p, out.value) && out.value.status.Delivered?
    && t' == t.(messages := t.messages[out.value.id := out.value])
  }

  lemma HandleIs(rd: Reader, t: Tables, p: Packet)
    ensures HandledAs(rd, t, p, Handle(rd, t, p).0, Handle(rd, t, p).1)
  {
    if Opened(rd, p).Some? {
      var inner := Opened(rd, p).value;
      if HasSeq(t.messages, p.seqNo) {
        if inner.sender == rd.me {
          EchoIs(rd, t, p);
        }
      } else {
        ProcessIs(rd, t, p);
      }
    }
  }

  lemma EchoIs(rd: Reader, t: Tables, p: Packet)
    requires IsEcho(rd, t, p)
    ensures Echoed(t, p.seqNo, Handle(rd, t, p).0, Handle(rd, t, p).1)
  {
    var id := Owner(t.messages, p.seqNo);
    var t' := Handle(rd, t, p).0;
    assert t' == t.(messages := t'.messages) && OnlyMessage(t, t', id);
  }

  lemma ProcessIs(rd: Reader, t: Tables, p: Packet)
    requires Opened(rd, p).Some? && !HasSeq(t.messages, p.seqNo)
    ensures HandledAs(rd, t, p, Handle(rd, t, p).0, Handle(rd, t, p).1)
  {
    hide Opened, HasSeq, Assemble;
    var inner := Opened(rd, p).value;
    match inner.content {
      case FileChunk(transfer, index, total, meta, _, data) =>
        if transfer !in t.messages {
          ChunkIs(t, inner, p.seqNo);
        }
      case _ =>
    }
  }

  lemma ChunkIs(t: Tables, inner: Inner, s: nat)
    requires inner.content.FileChunk? && inner.content.transferId !in t.messages && !HasSeq(t.messages, s)
    ensures ChunkTaken(t, inner, s, Process(t, inner, s).0, Process(t, inner, s).1)
  {
    hide Assemble, HasSeq;
    var FileChunk(transfer, index, total, meta, _, data) := inner.content;
  }

  // ── what a list of packets does ─────────────────────────────────────────

  /** A list of handled packets with `p` among them, cut at `p`. */
  lemma HandledSplit(rd: Reader, t: Tables, log: seq<Packet>, i: nat)
    requires i < |log|
    ensures Fold(rd, t, log) == Fold(rd, Handle(rd, Fold(rd, t, log[..i]), log[i]).0, log[i + 1..])
  {
    assert log == log[..i + 1] + log[i + 1..] && log[..i + 1] == log[..i] + [log[i]];
    FoldAppend(rd, t, log[..i + 1], log[i + 1..]);
    FoldSnoc(rd, t, log[..i], log[i]);
  }

  lemma NewSeqUntilHandled(rd: Reader, t: Tables, log: seq<Packet>, lo: nat, i: nat)
    requires KeyedById(t.messages) && Orderly(rd, log, lo) && FreshIds(rd, t, log) && i < |log|
    requires !HasSeq(t.messages, log[i].seqNo)
    ensures !HasSeq(Fold(rd, t, log[..i]).messages, log[i].seqNo)
  {
    hide Fold, SaveId;
    assert forall j :: 0 <= j < i ==> log[..i][j] == log[j] && log[j].seqNo <= Advance(rd, log[j]);
    FoldFaithful(rd, t, log[..i], lo);
    hide Advance;
    var after := Fold(rd, t, log[..i]).messages;
    forall id | id in after
      ensures after[id].serverSeq != Some(log[i].seqNo)
    {
      assert !FromLog(after[id], log[..i]) || after[id].serverSeq != Some(log[i].seqNo);
    }
  }

  lemma DisplayableAdded(rd: Reader, t: Tables, p: Packet)
    requires Displayable(rd, p) && !HasSeq(t.messages, p.seqNo)
    ensures Added(rd, t, p, Handle(rd, t, p).0, Handle(rd, t, p).1)
    ensures Handle(rd, t, p).1.Some? && Some(Handle(rd, t, p).1.value.id) == SaveId(rd, p)
  {
    hide HasSeq, Opened;
    HandleIs(rd, t, p);
  }

  /** A packet to be shown, once handled where its seq is new, is in the store as it was sealed, to the end. */
  lemma FoldShows(rd: Reader, t: Tables, log: seq<Packet>, lo: nat, i: nat) returns (id: Id)
    requires KeyedById(t.messages) && Orderly(rd, log, lo) && FreshIds(rd, t, log) && i < |log|
    requires Displayable(rd, log[i]) && !HasSeq(t.messages, log[i].seqNo)
    ensures SaveId(rd, log[i]) == Some(id) && id in Fold(rd, t, log).messages
    ensures ShownAs(rd, log[i], Fold(rd, t, log).messages[id])
    ensures Fold(rd, t, log).messages[id].status in {Delivered, Read}
  {
    hide Fold, Handle, SaveId, Orderly, HasSeq, ShownAs;
    NewSeqUntilHandled(rd, t, log, lo, i);
    HandledSplit(rd, t, log, i);
    var before, rest := Fold(rd, t, log[..i]), log[i + 1..];
    var after := Handle(rd, before, log[i]).0;
    DisplayableAdded(rd, before, log[i]);
    id := Handle(rd, before, log[i]).1.value.id;
    forall j | 0 <= j < |rest|
      ensures SaveId(rd, rest[j]) != Some(id)
    {
      assert rest[j] == log[i + 1 + j];
    }
    FoldKeepsMessage(rd, after, rest, id);
    ShownKept(rd, log[i], after.messages[id], Fold(rd, after, rest).messages[id]);
  }

  /** Message `m` is the answer to packet `i`. */
  ghost predicate Answer(rd: Reader, t: Tables, log: seq<Packet>, i: nat, m: Message)
    requires i < |log|
  {
    HandledAs(rd, Fold(rd, t, log[..i]), log[i], Handle(rd, Fold(rd, t, log[..i]), log[i]).0, Some(m))
  }

  /** `receive` hands out only answers to the packets it handled. */
  lemma {:induction false} OutputsAreAnswers(rd: Reader, t: Tables, log: seq<Packet>, m: Message)
    requires m in Outputs(rd, t, log)
    ensures exists i: nat :: i < |log| && Answer(rd, t, log, i, m)
    decreases |log|
  {
    hide HandledAs, Handle;
    var n := |log| - 1;
    var out := Handle(rd, Fold(rd, t, log[..n]), log[n]).1;
    if m in Outputs(rd, t, log[..n]) {
      OutputsAreAnswers(rd, t, log[..n], m);
      var i: nat :| i < n && Answer(rd, t, log[..n], i, m);
      assert log[..n][..i] == log[..i] && log[..n][i] == log[i];
      assert Answer(rd, t, log, i, m);
    } else {
      HandleIs(rd, Fold(rd, t, log[..n]), log[n]);
      assert Answer(rd, t, log, n, m);
    }
  }

  lemma {:induction false} AnswersAreOutputs(rd: Reader, t: Tables, log: seq<Packet>, i: nat)
    requires i < |log| && Handle(rd, Fold(rd, t, log[..i]), log[i]).1.Some?
    ensures Handle(rd, Fold(rd, t, log[..i]), log[i]).1.value in Outputs(rd, t, log)
    decreases |log|
  {
    hide Handle;
    var n := |log| - 1;
    if i < n {
      assert log[..n][..i] == log[..i] && log[..n][i] == log[i];
      AnswersAreOutputs(rd, t, log[..n], i);
    }
  }

  /** A packet to be shown whose seq is new is handed out as it was sealed, Delivered. */
  lemma NewIsHandedOut(rd: Reader, t: Tables, log: seq<Packet>, lo: nat, i: nat) returns (m: Message)
    requires KeyedById(t.messages) && Orderly(rd, log, lo) && FreshIds(rd, t, log) && i < |log|
    requires Displayable(rd, log[i]) && !HasSeq(t.messages, log[i].seqNo)
    ensures m in Outputs(rd, t, log) && ShownAs(rd, log[i], m) && m.status.Delivered?
    ensures SaveId(rd, log[i]) == Some(m.id)
  {
    hide Fold, Handle, SaveId, Orderly, HasSeq, ShownAs, Outputs;
    NewSeqUntilHandled(rd, t, log, lo, i);
    DisplayableAdded(rd, Fold(rd, t, log[..i]), log[i]);
    AnswersAreOutputs(rd, t, log, i);
    m := Handle(rd, Fold(rd, t, log[..i]), log[i]).1.value;
  }

  /** The number of decrypt errors is the number of handled packets that do not open. */
  lemma {:induction false} UnopenedCounts(rd: Reader, log: seq<Packet>)
    ensures Unopened(rd, log) == |set i: nat | i < |log| && Opened(rd, log[i]).None?|
    decreases |log|
  {
    hide Opened;
    if log != [] {
      var n := |log| - 1;
      UnopenedCounts(rd, log[..n]);
      var all, front := set i: nat | i < |log| && Opened(rd, log[i]).None?,
                        set i: nat | i < n && Opened(rd, log[..n][i]).None?;
      assert all == front + if Opened(rd, log[n]).None? then {n} else {};
    }
  }

  // ── files sent chunk by chunk without a header ──────────────────────────

  /** The packet is chunk `index` of this file. */
  predicate IsChunk(rd: Reader, p: Packet, transfer: Id, index: nat, row: ChunkRow) {
    match Opened(rd, p)
    case Some(Inner(_, sender, FileChunk(id, i, total, meta, _, data), _)) =>
      id == transfer && i == index && row == ChunkRow(sender, total, meta, data)
    case _ => false
  }

  /** The rows of the chunks with the indices `order`. */
  ghost function RowsFor(order: seq<nat>, rows: seq<ChunkRow>): map<nat, ChunkRow> {
    map i: nat | i < |rows| && i in order :: rows[i]
  }

  /** Until the last chunk has come, the chunks are kept, whatever their order. */
  lemma {:induction false} ChunksGather(rd: Reader, t: Tables, log: seq<Packet>, transfer: Id, order: seq<nat>,
                                        rows: seq<ChunkRow>)
    requires transfer !in t.messages && RowsOf(t, transfer) == map[] && |order| == |log| < |rows|
    requires forall i :: 0 <= i < |log| ==> !HasSeq(t.messages, log[i].seqNo)
    requires forall i :: 0 <= i < |log| ==> order[i] < |rows| && IsChunk(rd, log[i], transfer, order[i], rows[order[i]])
    requires forall i, j :: 0 <= i < j < |order| ==> order[i] != order[j]
    requires |rows| <= CHUNK_INDEX_END && forall i :: 0 <= i < |rows| ==> rows[i].total == |rows|
    ensures Fold(rd, t, log).messages == t.messages && RowsOf(Fold(rd, t, log), transfer) == RowsFor(order, rows)
    decreases |log|
  {
    hide Assemble, Handle, IsChunk, HasSeq, RowsFor;
    NothingGathered(rows);
    if log != [] {
      var n := |log| - 1;
      ChunksGather(rd, t, log[..n], transfer, order[..n], rows);
      var before := Fold(rd, t, log[..n]);
      OneMore(order, rows);
      NotAllThere(order, rows);
      ChunkStays(rd, before, log[n], transfer, order[n], rows[order[n]]);
    }
  }

  lemma NothingGathered(rows: seq<ChunkRow>)
    ensures RowsFor([], rows) == map[]
  {
  }

  lemma OneMore(order: seq<nat>, rows: seq<ChunkRow>)
    requires order != [] && order[|order| - 1] < |rows|
    requires forall i, j :: 0 <= i < j < |order| ==> order[i] != order[j]
    ensures var n := |order| - 1;
            && order[n] !in RowsFor(order[..n], rows)
            && RowsFor(order, rows) == RowsFor(order[..n], rows)[order[n] := rows[order[n]]]
  {
  }

  lemma NotAllThere(order: seq<nat>, rows: seq<ChunkRow>)
    requires order != [] && forall i :: 0 <= i < |order| ==> order[i] < |rows|
    requires |order| < |rows| <= CHUNK_INDEX_END && forall i :: 0 <= i < |rows| ==> rows[i].total == |rows|
    ensures Assemble(RowsFor(order, rows)).None?
  {
    hide Assemble;
    var m := RowsFor(order, rows);
    assert order[0] in m;
    AssembleWhole(m, |rows|);
    KeysAtMost(order, rows);
    KeysBelow(m.Keys, |rows|);
  }

  lemma {:induction false} KeysAtMost(order: seq<nat>, rows: seq<ChunkRow>)
    ensures |RowsFor(order, rows)| <= |order|
  {
    if order != [] {
      var n := |order| - 1;
      KeysAtMost(order[..n], rows);
      var before, after := RowsFor(order[..n], rows), RowsFor(order, rows);
      assert order[..n] + [order[n]] == order;
      assert after.Keys <= before.Keys + {order[n]};
      SubsetCount(after.Keys, before.Keys + {order[n]});
    }
  }

  lemma {:induction false} SubsetCount(a: set<nat>, b: set<nat>)
    requires a <= b
    ensures |a| <= |b|
  {
    if a != {} {
      var x :| x in a;
      SubsetCount(a - {x}, b - {x});
    }
  }

  /** A whole file sent chunk by chunk: when every chunk has been handled, in whatever order, the file is in the store
      with the bytes of all chunks in their order, from the chunks' sender, and nothing of it is kept beside. */
  lemma LegacyFileArrives(rd: Reader, t: Tables, log: seq<Packet>, transfer: Id, order: seq<nat>, rows: seq<ChunkRow>,
                          sender: User, meta: Meta)
    requires transfer !in t.messages && RowsOf(t, transfer) == map[]
    requires 0 < |order| == |log| == |rows| <= CHUNK_INDEX_END
    requires forall i :: 0 <= i < |log| ==> !HasSeq(t.messages, log[i].seqNo)
    requires forall i :: 0 <= i < |log| ==> order[i] < |rows| && IsChunk(rd, log[i], transfer, order[i], rows[order[i]])
    requires forall i, j :: 0 <= i < j < |order| ==> order[i] != order[j]
    requires forall i :: 0 <= i < |rows| ==> rows[i] == ChunkRow(sender, |rows|, meta, rows[i].data)
    ensures var t' := Fold(rd, t, log);
            && transfer in t'.messages && RowsOf(t', transfer) == map[] && OnlyMessage(t, t', transfer)
            && t'.messages[transfer].serverSeq == Some(log[|log| - 1].seqNo)
            && FileStored(t'.messages[transfer], transfer, |rows|, Assembled(sender, meta, Concat(Datas(rows))),
                          log[|log| - 1].seqNo)
  {
    hide Assemble, Handle, IsChunk;
    var n := |log| - 1;
    var before := Fold(rd, t, log[..n]);
    ChunksGather(rd, t, log[..n], transfer, order[..n], rows);
    OneMore(order, rows);
    AllThere(order, rows, sender, meta);
    LastChunk(rd, before, log[n], transfer, order[n], rows[order[n]], Assembled(sender, meta, Concat(Datas(rows))));
  }

  lemma ChunkStays(rd: Reader, t: Tables, p: Packet, transfer: Id, index: nat, row: ChunkRow)
    requires transfer !in t.messages && !HasSeq(t.messages, p.seqNo) && IsChunk(rd, p, transfer, index, row)
    requires index !in RowsOf(t, transfer) && Assemble(RowsOf(t, transfer)[index := row]).None?
    ensures var t' := Handle(rd, t, p).0;
            t'.messages == t.messages && RowsOf(t', transfer) == RowsOf(t, transfer)[index := row]
  {
    hide Assemble, Handle, HasSeq, FileStored, OnlyMessage;
    HandleIs(rd, t, p);
  }

  lemma LastChunk(rd: Reader, t: Tables, p: Packet, transfer: Id, index: nat, row: ChunkRow, a: Assembled)
    requires transfer !in t.messages && !HasSeq(t.messages, p.seqNo) && IsChunk(rd, p, transfer, index, row)
    requires index !in RowsOf(t, transfer) && Assemble(RowsOf(t, transfer)[index := row]) == Some(a)
    ensures var t' := Handle(rd, t, p).0;
            && OnlyMessage(t, t', transfer) && RowsOf(t', transfer) == map[]
            && FileStored(t'.messages[transfer], transfer, row.total, a, p.seqNo)
  {
    hide Assemble, Handle, HasSeq, FileStored, OnlyMessage;
    HandleIs(rd, t, p);
  }

  function Datas(rows: seq<ChunkRow>): seq<Bytes> {
    seq(|rows|, i requires 0 <= i < |rows| => rows[i].data)
  }

  lemma AllThere(order: seq<nat>, rows: seq<ChunkRow>, sender: User, meta: Meta)
    requires 0 < |order| == |rows| <= CHUNK_INDEX_END && forall i :: 0 <= i < |order| ==> order[i] < |rows|
    requires forall i, j :: 0 <= i < j < |order| ==> order[i] != order[j]
    requires forall i :: 0 <= i < |rows| ==> rows[i] == ChunkRow(sender, |rows|, meta, rows[i].data)
    ensures Assemble(RowsFor(order, rows)) == Some(Assembled(sender, meta, Concat(Datas(rows))))
  {
    hide Assemble, RowsFor;
    var m := RowsFor(order, rows);
    RowsKnown(order, rows, sender, meta);
    KeysExactly(order, rows);
    AssembleWhole(m, |rows|);
    AssembleNames(m, sender, meta);
    KeysBelow(m.Keys, |rows|);
    DataKnown(m, rows);
  }

  lemma RowsKnown(order: seq<nat>, rows: seq<ChunkRow>, sender: User, meta: Meta)
    requires forall i :: 0 <= i < |rows| ==> rows[i] == ChunkRow(sender, |rows|, meta, rows[i].data)
    ensures forall i :: i in RowsFor(order, rows) ==>
              && i < |rows| && RowsFor(order, rows)[i] == rows[i]
              && rows[i].sender == sender && rows[i].meta == meta && rows[i].total == |rows|
  {
  }

  lemma DataKnown(m: map<nat, ChunkRow>, rows: seq<ChunkRow>)
    requires forall i: nat :: i < |rows| ==> i in m
    requires forall i :: i in m ==> i < |rows| && m[i] == rows[i]
    ensures DataOf(m, |rows|) == Datas(rows)
  {
  }

  lemma {:induction false} KeysExactly(order: seq<nat>, rows: seq<ChunkRow>)
    requires forall i :: 0 <= i < |order| ==> order[i] < |rows|
    requires forall i, j :: 0 <= i < j < |order| ==> order[i] != order[j]
    ensures |RowsFor(order, rows)| == |order|
    ensures order != [] ==> RowsFor(order, rows) != map[]
  {
    if order != [] {
      KeysExactly(order[..|order| - 1], rows);
      OneMore(order, rows);
    }
  }
}
