/** Reassembling a chunked attachment (`collect_remote_attachment_chunks`). */
module Download {
  import opened Base
  import opened ChunkSizes
  import opened Keyring
  import opened ReceiveSpec
  import opened Server
  import opened Transfer
  import opened TransferSpec
  import opened Types
  import D = Dialogue

  /** What the header promised about the body. */
  datatype Promise = Promise(headerSeq: nat, transferId: Id, chunkCount: nat, totalSize: nat)

  /** What a header message tells its reader about the body. */
  function Promised(m: Message): Promise
    requires m.content.Attach? && m.content.file.transferId.Some? && m.serverSeq.Some?
  {
    Promise(m.serverSeq.value, m.content.file.transferId.value, m.content.file.chunkCount, m.content.file.size)
  }

  /** The bytes of the packet, if it is chunk `index` of the promised body. */
  function ChunkIn(rd: Reader, p: Packet, want: Promise, index: nat): Option<Bytes> {
    match Decrypt(rd.ring, p.seqNo, p.payload)
    case Some(Inner(_, _, FileChunk(id, i, total, _, size, data), _)) =>
      if id == want.transferId && total == want.chunkCount && i == index && size == want.totalSize
      then Some(data) else None
    case _ => None
  }

  /** A packet is taken for chunk `index` exactly if it opens to that chunk of the promised file, as announced. */
  lemma ChunkInIff(rd: Reader, p: Packet, want: Promise, index: nat, data: Bytes)
    ensures ChunkIn(rd, p, want, index) == Some(data) <==>
            exists id, sender, meta, topic ::
              Opened(rd, p) == Some(Inner(id, sender, FileChunk(want.transferId, index, want.chunkCount, meta,
                                                                want.totalSize, data), topic))
  {
    hide KeyForSeq;
  }

  ghost predicate InOrder(rd: Reader, packets: seq<Packet>, want: Promise, index: nat) {
    forall k :: 0 <= k < |packets| ==> ChunkIn(rd, packets[k], want, index + k).Some?
  }

  ghost function Bodies(rd: Reader, packets: seq<Packet>, want: Promise, index: nat): seq<Bytes> {
    seq(|packets|, k requires 0 <= k < |packets| => ChunkIn(rd, packets[k], want, index + k).GetOr([]))
  }

  /** The inner loop: every packet of a batch must be the next chunk. */
  method CollectBatch(rd: Reader, packets: seq<Packet>, want: Promise, index0: nat, after0: nat)
    returns (r: Result<Bytes>, index: nat, after: nat)
    ensures r.Ok? <==> InOrder(rd, packets, want, index0)
    ensures r.Ok? ==> r.value == Concat(Bodies(rd, packets, want, index0)) && index == index0 + |packets|
    ensures r.Ok? ==> after == if packets == [] then after0 else packets[|packets| - 1].seqNo
    ensures r.Err? ==> r.error == BadChunk
  {
    var buf: Bytes := [];
    index, after := index0, after0;
    var k := 0;
    while k < |packets|
      invariant 0 <= k <= |packets| && index == index0 + k
      invariant InOrder(rd, packets[..k], want, index0)
      invariant buf == Concat(Bodies(rd, packets[..k], want, index0))
      invariant after == if k == 0 then after0 else packets[k - 1].seqNo
    {
      var data := ChunkIn(rd, packets[k], want, index);
      if data.None? {
        return Err(BadChunk), index, after;
      }
      BodiesSnoc(rd, packets[..k], packets[k], want, index0);
      assert packets[..k + 1] == packets[..k] + [packets[k]];
      buf := buf + data.value;
      after := packets[k].seqNo;
      index := index + 1;
      k := k + 1;
    }
    assert packets[..k] == packets;
    return Ok(buf), index, after;
  }

  lemma BodiesSnoc(rd: Reader, packets: seq<Packet>, p: Packet, want: Promise, index: nat)
    ensures Concat(Bodies(rd, packets + [p], want, index))
         == Concat(Bodies(rd, packets, want, index)) + ChunkIn(rd, p, want, index + |packets|).GetOr([])
  {
    var next := ChunkIn(rd, p, want, index + |packets|).GetOr([]);
    assert Bodies(rd, packets + [p], want, index) == Bodies(rd, packets, want, index) + [next];
    ConcatSnoc(Bodies(rd, packets, want, index), next);
  }

  /** The whole transfer is on the server, the reader can open what its sender sealed, and nobody else writes there. */
  ghost predicate Available(d: D.Dialogue, want: Promise, sender: Reader, t: Outbound, src: Bytes, live: Live) {
    && d.rd.ring == sender.ring && Splits(t, src) && Uploaded(sender, t, src, live, t.chunkCount + 1)
    && OwnRange(d.net.env, t) && want == Promise(t.headerSeq, t.transferId, t.chunkCount, t.totalSize)
    && t.headerSeq + t.chunkCount <= U64_MAX
  }

  ghost predicate Collected(t: Outbound, src: Bytes, buf: Bytes, index: nat) {
    && Splits(t, src) && index <= |t.chunkSizes|
    && Offset(t.chunkSizes, index) <= |src|
    && buf == src[..Offset(t.chunkSizes, index)]
  }

  /** Pull one batch and check every chunk of it against the header's promise. */
  method NextBatch(d: D.Dialogue, want: Promise, index: nat, ghost sender: Reader, ghost t: Outbound, ghost src: Bytes,
                   ghost buf: Bytes)
    returns (r: Result<Bytes>, batchEnd: nat)
    requires d.net.Valid() && index < want.chunkCount <= U32_MAX
    modifies d.net`live, d.net`now, d.net`hist
    ensures d.net.Valid() && old(d.net.hist) <= d.net.hist && index < batchEnd <= want.chunkCount
    ensures Kept(d.net.env, old(d.net.live), d.net.hist, old(d.net.now), d.net.live)
    ensures Available(d, want, sender, t, src, old(d.net.live)) && Collected(t, src, buf, index) ==>
              r == Err(Unreachable) || (r.Ok? && Collected(t, src, buf + r.value, batchEnd))
    ensures Describes(want, t, src) && AllAuthentic(d.rd, t, src, d.net.hist, old(d.net.now)) ==>
              r.Ok? && Collected(t, src, buf, index) ==> Collected(t, src, buf + r.value, batchEnd)
    ensures r.Err? ==> r.error in {Unreachable, RangeOverflow, Incomplete, BadChunk}
  {
    hide Available, EnvBounded, Bounded, Kept, PullAnswer, InOrder, Collected, Bodies, AllAuthentic, Describes;
    ghost var live0, hist0 := d.net.live, d.net.hist;
    ghost var available := Available(d, want, sender, t, src, live0) && Collected(t, src, buf, index);
    batchEnd := Min(Min(index + FILE_PULL_CHUNKS_PER_REQUEST, U32_MAX), want.chunkCount);
    KeptStart(d.net.env, hist0, live0);
    if want.headerSeq + batchEnd > U64_MAX {
      if available {
        RangeFits(d, want, sender, t, src, live0);
      }
      return Err(RangeOverflow), batchEnd;
    }
    KeptStep(d.net.env, live0, hist0, d.net.now, live0, d.net.now);
    var raw := d.net.PullRequest(want.headerSeq + index, want.headerSeq + batchEnd);
    if raw.Err? {
      return Err(raw.error), batchEnd;
    }
    if available {
      KeptIsUntouched(d.net.env, live0, d.net.hist, |hist0|, d.net.live);
      BatchIsWhole(d, want, sender, t, src, live0, d.net.live, buf, index, batchEnd, raw.value);
    }
    if |raw.value| != batchEnd - index {
      return Err(Incomplete), batchEnd;
    }
    PulledDense(d.net.live, want.headerSeq + index, want.headerSeq + batchEnd, raw.value);
    var index', after;
    r, index', after := CollectBatch(d.rd, raw.value, want, index, want.headerSeq + index);
    if r.Ok? && Describes(want, t, src) && AllAuthentic(d.rd, t, src, d.net.hist, |hist0|) {
      AuthenticSince(d.rd, t, src, hist0, d.net.live, |hist0|);
      if Collected(t, src, buf, index) {
        BatchIsAuthentic(d.rd, want, t, src, d.net.live, want.headerSeq + index, want.headerSeq + batchEnd, buf, index,
                         raw.value);
      }
    }
  }

  /** Pull the body batch by batch and concatenate. */
  method Collect(d: D.Dialogue, want: Promise, ghost sender: Reader, ghost t: Outbound, ghost src: Bytes)
    returns (r: Result<Bytes>)
    requires d.net.Valid() && want.chunkCount <= U32_MAX
    modifies d.net`live, d.net`now, d.net`hist
    ensures d.net.Valid() && old(d.net.hist) <= d.net.hist
    ensures Kept(d.net.env, old(d.net.live), d.net.hist, old(d.net.now), d.net.live)
    ensures r.Ok? ==> |r.value| == want.totalSize
    ensures Describes(want, t, src) && AllAuthentic(d.rd, t, src, d.net.hist, old(d.net.now)) ==>
              r.Ok? ==> r.value == src
    ensures Available(d, want, sender, t, src, old(d.net.live)) ==> r == Ok(src) || r == Err(Unreachable)
    ensures r.Err? ==> r.error in {Unreachable, RangeOverflow, Incomplete, BadChunk, BadSize}
  {
    hide Available, EnvBounded, Bounded, Kept, Collected, AllAuthentic, Describes;
    ghost var live0, t0 := d.net.live, d.net.now;
    ghost var available := Available(d, want, sender, t, src, live0);
    var buf: Bytes := [];
    var index := 0;
    KeptStart(d.net.env, d.net.hist, live0);
    if available {
      AvailableDescribes(d, want, sender, t, src, live0);
    }
    if Describes(want, t, src) {
      NothingCollected(want, t, src);
    }
    while index < want.chunkCount
      invariant d.net.Valid() && old(d.net.hist) <= d.net.hist && index <= want.chunkCount
      invariant Kept(d.net.env, live0, d.net.hist, t0, d.net.live)
      invariant available ==> Available(d, want, sender, t, src, d.net.live) && Collected(t, src, buf, index)
      invariant Describes(want, t, src) && AllAuthentic(d.rd, t, src, d.net.hist, t0) ==> Collected(t, src, buf, index)
      decreases want.chunkCount - index
    {
      ghost var live1, hist1 := d.net.live, d.net.hist;
      var body;
      body, index := NextBatch(d, want, index, sender, t, src, buf);
      KeptTrans(d.net.env, live0, hist1, t0, live1, d.net.hist, d.net.live);
      if body.Err? {
        return Err(body.error);
      }
      if available {
        AvailableKept(d, want, sender, t, src, live1, d.net.hist, |hist1|, d.net.live);
      }
      if AllAuthentic(d.rd, t, src, d.net.hist, t0) {
        AuthenticPart(d.rd, t, src, hist1, d.net.hist, t0);
      }
      buf := buf + body.value;
    }
    if Describes(want, t, src) && Collected(t, src, buf, index) {
      AllCollected(want, t, src, buf);
    }
    if |buf| != want.totalSize {
      return Err(BadSize);
    }
    return Ok(buf);
  }

  lemma AvailableKept(d: D.Dialogue, want: Promise, sender: Reader, t: Outbound, src: Bytes, live0: Live,
                      hist: seq<Live>, t0: nat, live: Live)
    requires Available(d, want, sender, t, src, live0) && Kept(d.net.env, live0, hist, t0, live)
    ensures Available(d, want, sender, t, src, live)
  {
    hide Uploaded, OwnRange, Splits;
    KeptIsUntouched(d.net.env, live0, hist, t0, live);
    OwnRangeKept(d.net.env, t, live0, live);
    UploadedSame(sender, t, src, live0, live, t.chunkCount + 1);
  }

  lemma AuthenticPart(rd: Reader, t: Outbound, src: Bytes, hist: seq<Live>, hist': seq<Live>, t0: nat)
    requires AllAuthentic(rd, t, src, hist', t0) && t0 <= |hist| && hist <= hist'
    ensures AllAuthentic(rd, t, src, hist, t0) && AllAuthentic(rd, t, src, hist', |hist|)
  {
    hide Authentic;
    assert forall k :: 0 <= k < |hist| ==> hist'[k] == hist[k];
  }

  lemma KeptIsUntouched(env: Env, live0: Live, hist: seq<Live>, t0: nat, live: Live)
    requires Kept(env, live0, hist, t0, live)
    ensures Untouched(env, live0, live)
  {
  }

  lemma AvailableDescribes(d: D.Dialogue, want: Promise, sender: Reader, t: Outbound, src: Bytes, live: Live)
    requires Available(d, want, sender, t, src, live)
    ensures Describes(want, t, src)
  {
  }

  lemma NothingCollected(want: Promise, t: Outbound, src: Bytes)
    requires Describes(want, t, src)
    ensures Collected(t, src, [], 0)
  {
    assert t.chunkSizes[..0] == [];
  }

  lemma RangeFits(d: D.Dialogue, want: Promise, sender: Reader, t: Outbound, src: Bytes, live: Live)
    requires Available(d, want, sender, t, src, live)
    ensures want.headerSeq + want.chunkCount <= U64_MAX
  {
  }

  // ── what a successful download is worth ─────────────────────────────────

  /** Every chunk of this transfer that is on the server and opens is one its sender planned, wherever it stands. */
  ghost predicate Authentic(rd: Reader, t: Outbound, src: Bytes, live: Live)
    requires Splits(t, src)
  {
    forall s :: s in live ==> AuthenticAt(rd, t, src, s, live[s])
  }

  ghost predicate AuthenticAt(rd: Reader, t: Outbound, src: Bytes, s: nat, payload: Payload)
    requires Splits(t, src)
  {
    match Decrypt(rd.ring, s, payload)
    case Some(Inner(_, _, FileChunk(id, i, _, _, _, data), _)) =>
      id == t.transferId ==> i < t.chunkCount && data == ChunkBytes(t, src, i)
    case _ => true
  }

  ghost predicate AllAuthentic(rd: Reader, t: Outbound, src: Bytes, hist: seq<Live>, t0: nat) {
    Splits(t, src) && forall k :: t0 <= k < |hist| ==> Authentic(rd, t, src, hist[k])
  }

  /** The promise is the one the transfer's header makes. */
  ghost predicate Describes(want: Promise, t: Outbound, src: Bytes) {
    Splits(t, src) && want == Promise(t.headerSeq, t.transferId, t.chunkCount, t.totalSize)
  }

  lemma AuthenticSince(rd: Reader, t: Outbound, src: Bytes, hist: seq<Live>, live: Live, t0: nat)
    requires AllAuthentic(rd, t, src, hist + [live], t0) && t0 <= |hist|
    ensures AllAuthentic(rd, t, src, hist, t0) && Authentic(rd, t, src, live)
  {
    var all := hist + [live];
    assert all[|hist|] == live && forall k :: 0 <= k < |hist| ==> all[k] == hist[k];
  }

  lemma BatchIsAuthentic(rd: Reader, want: Promise, t: Outbound, src: Bytes, live: Live, after: nat, to: nat,
                         buf: Bytes, index: nat, packets: seq<Packet>)
    requires Describes(want, t, src) && Authentic(rd, t, src, live) && PullAnswer(live, after, to, packets)
    requires InOrder(rd, packets, want, index) && Collected(t, src, buf, index) && index + |packets| <= want.chunkCount
    ensures Collected(t, src, buf + Concat(Bodies(rd, packets, want, index)), index + |packets|)
  {
    hide Collected, Bodies;
    forall k: nat | k < |packets|
      ensures ChunkIn(rd, packets[k], want, index + k) == Some(ChunkBytes(t, src, index + k))
    {
      assert ChunkIn(rd, packets[k], want, index + k).Some?;
      assert AuthenticAt(rd, t, src, packets[k].seqNo, live[packets[k].seqNo]);
    }
    CollectedGrows(rd, want, t, src, buf, index, packets);
  }

  lemma AllCollected(want: Promise, t: Outbound, src: Bytes, buf: Bytes)
    requires Describes(want, t, src) && Collected(t, src, buf, want.chunkCount)
    ensures buf == src && |src| == want.totalSize
  {
    assert t.chunkSizes[..want.chunkCount] == t.chunkSizes;
  }

  /** A gap-free range of `n` seqs has exactly `n` packets. */
  lemma {:induction false} DenseFrom(packets: seq<Packet>, after: nat)
    requires forall i, j :: 0 <= i < j < |packets| ==> packets[i].seqNo < packets[j].seqNo
    requires forall i :: 0 <= i < |packets| ==> after < packets[i].seqNo
    ensures packets != [] ==> after + |packets| <= packets[|packets| - 1].seqNo
  {
    if |packets| > 1 {
      DenseFrom(packets[..|packets| - 1], after);
    }
  }

  lemma PulledDense(live: Live, after: nat, to: nat, packets: seq<Packet>)
    requires PullAnswer(live, after, to, packets) && after < to && |packets| == to - after
    ensures packets[|packets| - 1].seqNo == to
  {
    DenseFrom(packets, after);
  }

  /** When every seq of `(after, to]` is live, `/pull` returns them one by one. */
  lemma {:induction false} PulledAt(live: Live, after: nat, to: nat, packets: seq<Packet>, k: nat)
    requires PullAnswer(live, after, to, packets)
    requires forall s :: after < s <= to ==> s in live
    requires k < to - after
    ensures k < |packets| && packets[k].seqNo == after + k + 1
  {
    if k > 0 {
      PulledAt(live, after, to, packets, k - 1);
    }
    assert after + k + 1 in live;
    var i :| 0 <= i < |packets| && packets[i].seqNo == after + k + 1;
  }

  lemma BatchIsWhole(d: D.Dialogue, want: Promise, sender: Reader, t: Outbound, src: Bytes, live0: Live, live: Live,
                     buf: Bytes, index: nat, batchEnd: nat, packets: seq<Packet>)
    requires Available(d, want, sender, t, src, live0) && Untouched(d.net.env, live0, live)
    requires Collected(t, src, buf, index) && index < batchEnd <= want.chunkCount
    requires PullAnswer(live, want.headerSeq + index, want.headerSeq + batchEnd, packets)
    ensures |packets| == batchEnd - index && InOrder(d.rd, packets, want, index)
    ensures Collected(t, src, buf + Concat(Bodies(d.rd, packets, want, index)), batchEnd)
  {
    hide Collected, Bodies, Untouched, PullAnswer;
    OwnRangeKept(d.net.env, t, live0, live);
    UploadedSame(sender, t, src, live0, live, t.chunkCount + 1);
    RangeLive(sender, t, src, live);
    forall k: nat | k < batchEnd - index
      ensures k < |packets| && packets[k].seqNo == want.headerSeq + index + k + 1
    {
      PulledAt(live, want.headerSeq + index, want.headerSeq + batchEnd, packets, k);
    }
    PulledAt(live, want.headerSeq + index, want.headerSeq + batchEnd, packets, batchEnd - index - 1);
    NoMore(live, want.headerSeq + index, want.headerSeq + batchEnd, packets);
    forall k: nat | k < |packets|
      ensures ChunkIn(d.rd, packets[k], want, index + k) == Some(ChunkBytes(t, src, index + k))
    {
      OpensAsPlanned(d, want, sender, t, src, live, packets, index, batchEnd, k);
    }
    CollectedGrows(d.rd, want, t, src, buf, index, packets);
  }

  lemma NoMore(live: Live, after: nat, to: nat, packets: seq<Packet>)
    requires PullAnswer(live, after, to, packets) && after < to
    ensures |packets| <= to - after
  {
    DenseFrom(packets, after);
  }

  lemma RangeLive(rd: Reader, t: Outbound, src: Bytes, live: Live)
    requires Splits(t, src) && Uploaded(rd, t, src, live, t.chunkCount + 1)
    ensures forall s: nat :: t.headerSeq <= s <= t.headerSeq + t.chunkCount ==> s in live
  {
    forall s: nat | t.headerSeq <= s <= t.headerSeq + t.chunkCount
      ensures s in live
    {
      assert PlannedAt(rd, t, src, live, s - t.headerSeq);
    }
  }

  lemma OpensAsPlanned(d: D.Dialogue, want: Promise, sender: Reader, t: Outbound, src: Bytes, live: Live,
                       packets: seq<Packet>, index: nat, batchEnd: nat, k: nat)
    requires d.rd.ring == sender.ring && Splits(t, src) && Uploaded(sender, t, src, live, t.chunkCount + 1)
    requires want == Promise(t.headerSeq, t.transferId, t.chunkCount, t.totalSize)
    requires PullAnswer(live, want.headerSeq + index, want.headerSeq + batchEnd, packets)
    requires index < batchEnd <= t.chunkCount && k < |packets| && k < batchEnd - index
    requires packets[k].seqNo == want.headerSeq + index + k + 1
    ensures ChunkIn(d.rd, packets[k], want, index + k) == Some(ChunkBytes(t, src, index + k))
  {
    assert PlannedAt(sender, t, src, live, index + k + 1);
    assert PacketSeq(t, index + k + 1) == packets[k].seqNo;
  }

  lemma {:induction false} CollectedGrows(rd: Reader, want: Promise, t: Outbound, src: Bytes, buf: Bytes, index: nat,
                                          packets: seq<Packet>)
    requires Collected(t, src, buf, index) && index + |packets| <= |t.chunkSizes|
    requires forall k: nat :: k < |packets| ==>
               ChunkIn(rd, packets[k], want, index + k) == Some(ChunkBytes(t, src, index + k))
    ensures Collected(t, src, buf + Concat(Bodies(rd, packets, want, index)), index + |packets|)
  {
    hide ChunkIn;
    if packets == [] {
      assert Bodies(rd, packets, want, index) == [];
      assert buf + [] == buf;
    } else {
      var n := |packets| - 1;
      CollectedGrows(rd, want, t, src, buf, index, packets[..n]);
      assert packets == packets[..n] + [packets[n]];
      BodiesSnoc(rd, packets[..n], packets[n], want, index);
      var before := Concat(Bodies(rd, packets[..n], want, index));
      assert (buf + before) + ChunkBytes(t, src, index + n) == buf + (before + ChunkBytes(t, src, index + n));
      CollectedNext(t, src, buf + before, index + n);
    }
  }

  lemma CollectedNext(t: Outbound, src: Bytes, buf: Bytes, index: nat)
    requires Collected(t, src, buf, index) && index < |t.chunkSizes|
    ensures Collected(t, src, buf + ChunkBytes(t, src, index), index + 1)
  {
    OffsetStep(t.chunkSizes, index);
    OffsetWithin(t.chunkSizes, index + 1);
  }
}
