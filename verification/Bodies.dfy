/** What the seqs of a file's body are to the parties: `receive` passes over them, a deletion takes them along. */
module Bodies {
  import opened Arrival
  import opened Base
  import opened ChunkSizes
  import opened Contents
  import opened FileSend
  import opened Keyring
  import opened LocalStore
  import opened ReceiveSpec
  import opened Server
  import opened TopicDelete
  import opened TransferSpec
  import opened Types
  import opened Walk
  import D = Dialogue

  /** On the server lie, above the cursor, a whole transfer and right behind it one more packet, which is no header. */
  ghost predicate FileThenPacket(sender: Reader, t: Outbound, src: Bytes, live: Live, cursor: nat, p: Packet) {
    && Splits(t, src) && Uploaded(sender, t, src, live, t.chunkCount + 1) && cursor < t.headerSeq
    && p.seqNo == t.headerSeq + t.chunkCount + 1 && p.seqNo in live && live[p.seqNo] == p.payload
    && (forall s :: s in live && cursor < s ==> t.headerSeq <= s <= p.seqNo)
    && !(Opened(sender, p).Some? && Opened(sender, p).value.content.FileHeader?)
  }

  /** Of these a receiver handles the header and the packet behind the body, and no chunk. */
  lemma BodyIsPassedOver(rd: Reader, sender: Reader, t: Outbound, src: Bytes, live: Live, cursor: nat, p: Packet)
    requires rd.ring == sender.ring && FileThenPacket(sender, t, src, live, cursor, p)
    ensures KeyForSeq(sender.ring, t.headerSeq).Ok?
    ensures Walked(rd, live, cursor) == [HeaderPacket(sender, t, src), p]
  {
    hide KeyForSeq, PlannedInner;
    assert PlannedAt(sender, t, src, live, 0) && PacketSeq(t, 0) == t.headerSeq;
    var header := HeaderPacket(sender, t, src);
    HeaderAdvance(rd, sender, t, src);
    assert p.seqNo in Above(live, cursor) && p.seqNo in Above(live, t.headerSeq + t.chunkCount);
    assert NextAbove(live, cursor) == header;
    assert NextAbove(live, t.headerSeq + t.chunkCount) == p;
    assert Above(live, p.seqNo) == {};
    assert Walked(rd, live, p.seqNo) == [];
    PacketAdvance(rd, sender, p);
    assert Walked(rd, live, t.headerSeq + t.chunkCount) == [p] + [];
    assert [header] + [p] == [header, p];
  }

  lemma HeaderAdvance(rd: Reader, sender: Reader, t: Outbound, src: Bytes)
    requires rd.ring == sender.ring && Splits(t, src) && KeyForSeq(sender.ring, t.headerSeq).Ok?
    ensures Advance(rd, HeaderPacket(sender, t, src)) == t.headerSeq + t.chunkCount
  {
    hide KeyForSeq;
  }

  lemma PacketAdvance(rd: Reader, sender: Reader, p: Packet)
    requires rd.ring == sender.ring && !(Opened(sender, p).Some? && Opened(sender, p).value.content.FileHeader?)
    ensures Advance(rd, p) == p.seqNo
  {
    hide KeyForSeq;
  }

  /** Both sides' messages for a transfer span exactly its range. */
  lemma SpanIsRange(d: D.Dialogue, rd: Reader, sender: Reader, t: Outbound, src: Bytes, m: Message, s: nat)
    requires Splits(t, src) && KeyForSeq(sender.ring, t.headerSeq).Ok? && rd.ring == sender.ring
    ensures InSpan(SendingMessage(d, t, t.topic), s) <==> t.headerSeq <= s <= t.headerSeq + t.chunkCount
    ensures ShownAs(rd, HeaderPacket(sender, t, src), m) ==>
              (InSpan(m, s) <==> t.headerSeq <= s <= t.headerSeq + t.chunkCount)
  {
    hide KeyForSeq;
  }

  /** Both sides' messages record as their body exactly the seqs of the chunk packets, and nothing if there are none. */
  lemma BodyIsChunks(d: D.Dialogue, rd: Reader, sender: Reader, t: Outbound, src: Bytes, m: Message)
    requires Splits(t, src) && KeyForSeq(sender.ring, t.headerSeq).Ok? && rd.ring == sender.ring
    requires m == SendingMessage(d, t, t.topic) || ShownAs(rd, HeaderPacket(sender, t, src), m)
    ensures t.chunkCount == 0 ==> m.content.file.bodyFrom == 0 && m.content.file.bodyTo == 0
    ensures t.chunkCount > 0 ==>
              m.content.file.bodyFrom == PacketSeq(t, 1) && m.content.file.bodyTo == PacketSeq(t, t.chunkCount)
  {
    hide KeyForSeq;
  }

  /** So a deletion of either of them takes the whole transfer from the server. */
  lemma WholeTransferErased(env: Env, live: Live, live': Live, st: StoreState, st': StoreState, doomed: seq<Message>,
                            r: Result<nat>, m: Message, t: Outbound)
    requires Deleted(env, live, live', st, st', doomed, r) && r.Ok?
    requires m in doomed && OwnRange(env, t) && 0 < t.headerSeq
    requires forall s: nat :: InSpan(m, s) <==> t.headerSeq <= s <= t.headerSeq + t.chunkCount
    ensures forall j :: 0 <= j <= t.chunkCount ==> PacketSeq(t, j) !in live'
  {
    hide InSpan, Leaves;
    forall j | 0 <= j <= t.chunkCount
      ensures PacketSeq(t, j) !in live'
    {
      assert Leaves(env, PacketSeq(t, j)) && InSpan(m, PacketSeq(t, j));
      assert SpannedBy(doomed, PacketSeq(t, j));
    }
  }

  /** The sender's own message for a transfer names it, with the file at hand. */
  lemma OwnMessageNames(d: D.Dialogue, t: Outbound)
    ensures var m := SendingMessage(d, t, t.topic);
            && Names(m, t, d.rd.me) && m.id == t.transferId && m.status.Sending?
            && m.content.file.cachePath == Some(t.cachePath) && m.content.file.downloaded
            && m.content.file.data == [] && m.content.file.blob == None
  {
  }

  // ── chunks without their header ─────────────────────────────────────────

  /** The packet of chunk `i`, as it travels. */
  function ChunkPacket(sender: Reader, t: Outbound, src: Bytes, i: nat): Packet
    requires Splits(t, src) && i < t.chunkCount && KeyForSeq(sender.ring, PacketSeq(t, i + 1)).Ok?
  {
    Packet(PacketSeq(t, i + 1),
           Sealed(KeyForSeq(sender.ring, PacketSeq(t, i + 1)).value, PlannedInner(sender, t, src, i + 1)))
  }

  /** What a receiver keeps of the chunks until all are there. */
  function RowsOfPlan(sender: Reader, t: Outbound, src: Bytes): seq<ChunkRow>
    requires Splits(t, src)
  {
    seq(t.chunkCount, i requires 0 <= i < t.chunkCount =>
      ChunkRow(sender.me, t.chunkCount, t.meta, ChunkBytes(t, src, i)))
  }

  /** The chunks joined are the source. */
  lemma {:induction false} ChunksJoin(sender: Reader, t: Outbound, src: Bytes, k: nat)
    requires Splits(t, src) && k <= t.chunkCount
    ensures Offset(t.chunkSizes, k) <= |src|
    ensures Concat(Datas(RowsOfPlan(sender, t, src)[..k])) == src[..Offset(t.chunkSizes, k)]
  {
    var rows := RowsOfPlan(sender, t, src);
    if k == 0 {
      assert t.chunkSizes[..0] == [] && Datas(rows[..0]) == [];
    } else {
      ChunksJoin(sender, t, src, k - 1);
      OffsetStep(t.chunkSizes, k - 1);
      OffsetWithin(t.chunkSizes, k);
      assert Datas(rows[..k]) == Datas(rows[..k - 1]) + [ChunkBytes(t, src, k - 1)];
      ConcatSnoc(Datas(rows[..k - 1]), ChunkBytes(t, src, k - 1));
    }
  }

  lemma PlannedChunk(rd: Reader, sender: Reader, t: Outbound, src: Bytes, i: nat)
    requires Splits(t, src) && i < t.chunkCount && rd.ring == sender.ring
    requires KeyForSeq(sender.ring, PacketSeq(t, i + 1)).Ok?
    ensures IsChunk(rd, ChunkPacket(sender, t, src, i), t.transferId, i, RowsOfPlan(sender, t, src)[i])
  {
    hide KeyForSeq;
  }

  /** A receiver that missed the header but handles every chunk, in whatever order, stores the whole file all the
      same: its bytes are the source. */
  lemma ChunksAloneGiveTheFile(rd: Reader, sender: Reader, t: Outbound, src: Bytes, tables: Tables, log: seq<Packet>,
                               order: seq<nat>)
    requires Splits(t, src) && rd.ring == sender.ring && 0 < |order| == |log| == t.chunkCount <= CHUNK_INDEX_END
    requires forall i, j :: 0 <= i < j < |order| ==> order[i] != order[j]
    requires forall i :: 0 <= i < |order| ==>
               && order[i] < t.chunkCount && KeyForSeq(sender.ring, PacketSeq(t, order[i] + 1)).Ok?
               && log[i] == ChunkPacket(sender, t, src, order[i]) && !HasSeq(tables.messages, log[i].seqNo)
    requires t.transferId !in tables.messages && RowsOf(tables, t.transferId) == map[]
    ensures var after := Fold(rd, tables, log).messages;
            && t.transferId in after
            && FileStored(after[t.transferId], t.transferId, t.chunkCount, Assembled(sender.me, t.meta, src),
                          log[|log| - 1].seqNo)
  {
    hide KeyForSeq, IsChunk, FileStored, Fold, PlannedInner, Splits;
    var rows := RowsOfPlan(sender, t, src);
    forall i | 0 <= i < |log|
      ensures IsChunk(rd, log[i], t.transferId, order[i], rows[order[i]])
    {
      PlannedChunk(rd, sender, t, src, order[i]);
    }
    LegacyFileArrives(rd, tables, log, t.transferId, order, rows, sender.me, t.meta);
    ChunksJoin(sender, t, src, t.chunkCount);
    WholeSource(t, src);
    assert rows[..t.chunkCount] == rows;
  }

  lemma WholeSource(t: Outbound, src: Bytes)
    requires Splits(t, src)
    ensures Offset(t.chunkSizes, t.chunkCount) == |src| && src[..Offset(t.chunkSizes, t.chunkCount)] == src
  {
    assert t.chunkSizes[..t.chunkCount] == t.chunkSizes;
  }
}
