/** Large files outside the history: chunked upload to the expiring blob store, and the download. */
module Blob {
  import opened Base
  import opened Server
  import opened Types

  const BLOB_CHUNK_SIZE: nat := 512 * 1024

  /** A sealed chunk opens only under its key and the associated data (file, index, total) it was sealed with. */
  datatype SealedChunk = SealedChunk(key: Key, file: Id, index: nat, total: nat, data: Bytes)

  function Open(c: SealedChunk, key: Key, file: Id, index: nat, total: nat): Option<Bytes> {
    if c.key == key && c.file == file && c.index == index && c.total == total then Some(c.data) else None
  }

  /** A chunk opens only where it belongs, and to what was sealed. */
  lemma OpenIff(c: SealedChunk, key: Key, file: Id, index: nat, total: nat, data: Bytes)
    ensures Open(c, key, file, index, total) == Some(data) <==> c == SealedChunk(key, file, index, total, data)
  {
  }

  datatype BlobMeta = BlobMeta(chunkCount: nat, totalSize: nat, expiresAt: nat)

  datatype BlobState = BlobState(chunks: map<(Id, nat), SealedChunk>, metas: map<Id, BlobMeta>)

  /** `ephemeral_reap` at `time`: every expired file goes, with all its chunks. */
  function Reaped(st: BlobState, time: nat): BlobState {
    BlobState(
      map k | k in st.chunks && !(k.0 in st.metas && st.metas[k.0].expiresAt <= time) :: st.chunks[k],
      map id | id in st.metas && st.metas[id].expiresAt > time :: st.metas[id])
  }

  /** What a download of one chunk gets at the time `now`. */
  function Served(st: BlobState, now: nat, file: Id, index: nat): Option<SealedChunk> {
    if file in st.metas && now < st.metas[file].expiresAt && (file, index) in st.chunks
    then Some(st.chunks[(file, index)])
    else None
  }

  /** The reaper changes no answer from its own time on, and leaves no expired file and no chunk of one. */
  lemma ReapIsInvisible(st: BlobState, time: nat, now: nat, file: Id, index: nat)
    requires time <= now
    ensures Served(Reaped(st, time), now, file, index) == Served(st, now, file, index)
    ensures file in Reaped(st, time).metas ==> time < Reaped(st, time).metas[file].expiresAt
    ensures (file, index) in Reaped(st, time).chunks && file in st.metas ==> file in Reaped(st, time).metas
  {
  }

  /** The server's blob store: what it holds, and for each request the time, the network's behaviour and
      whether the reaper ran just before. */
  class BlobStore {
    const largeFileMax: nat
    const retention: nat
    const clock: nat -> nat
    const fault: nat -> Fault
    const reaps: nat -> bool
    var state: BlobState
    var now: nat

    constructor (largeFileMax: nat, retention: nat, clock: nat -> nat, fault: nat -> Fault, reaps: nat -> bool)
      ensures state == BlobState(map[], map[]) && now == 0
    {
      this.largeFileMax, this.retention := largeFileMax, retention;
      this.clock, this.fault, this.reaps := clock, fault, reaps;
      state, now := BlobState(map[], map[]), 0;
    }

    function Reap(t: nat, st: BlobState): BlobState {
      if reaps(t) then Reaped(st, clock(t)) else st
    }

    function AfterPut(t: nat, st: BlobState, file: Id, index: nat, total: nat, size: nat, c: SealedChunk): BlobState {
      BlobState(Reap(t, st).chunks[(file, index) := c],
                Reap(t, st).metas[file := BlobMeta(total, size, SatAdd(clock(t), retention))])
    }

    /** `ephemeral_put_chunk` behind its route. */
    method Put(file: Id, index: nat, total: nat, size: nat, c: SealedChunk) returns (r: Result<()>)
      modifies this
      ensures now == old(now) + 1
      ensures state == Reap(old(now), old(state))
              || state == AfterPut(old(now), old(state), file, index, total, size, c)
      ensures r.Ok? ==> state == AfterPut(old(now), old(state), file, index, total, size, c)
      ensures r.Ok? <==> fault(old(now)).Fine? && size <= largeFileMax
      ensures r.Err? ==> r.error in {Unreachable, FileTooLarge}
    {
      var t := now;
      now := now + 1;
      state := Reap(t, state);
      if fault(t) == RequestLost {
        return Err(Unreachable);
      }
      if size > largeFileMax {
        r := Err(FileTooLarge);
      } else {
        state := BlobState(state.chunks[(file, index) := c],
                           state.metas[file := BlobMeta(total, size, SatAdd(clock(t), retention))]);
        r := Ok(());
      }
      if fault(t) == ReplyLost {
        r := Err(Unreachable);
      }
    }

    /** `ephemeral_get_chunk` behind its route: nothing once the file has expired. */
    method Get(file: Id, index: nat) returns (r: Result<SealedChunk>)
      modifies this
      ensures now == old(now) + 1 && state == Reap(old(now), old(state))
      ensures r.Ok? <==> fault(old(now)).Fine? && Served(old(state), clock(old(now)), file, index).Some?
      ensures r.Ok? ==> Served(old(state), clock(old(now)), file, index) == Some(r.value)
      ensures r.Err? ==> r.error == if fault(old(now)).Fine? then Expired else Unreachable
    {
      var t := now;
      now := now + 1;
      state := Reap(t, state);
      if fault(t) != Fine {
        return Err(Unreachable);
      }
      if file !in state.metas || state.metas[file].expiresAt <= clock(t) || (file, index) !in state.chunks {
        return Err(Expired);
      }
      return Ok(state.chunks[(file, index)]);
    }
  }

  /** What the reference message carries. */
  datatype BlobRef = BlobRef(file: Id, key: Key, chunkCount: nat)

  function Chunks(size: nat): nat { CeilDiv(size, BLOB_CHUNK_SIZE) }

  /** `total_size.div_ceil(..).max(1) as u32`. */
  function TotalChunks(size: nat): nat { Counter(Max(Chunks(size), 1)) }

  /** The `u32` counter after `n` steps. */
  function Counter(n: nat): nat { n % (U32_MAX + 1) }

  function NextIndex(index: nat): nat { (index + 1) % (U32_MAX + 1) }

  lemma CounterSteps(n: nat)
    ensures NextIndex(Counter(n)) == Counter(n + 1)
    ensures n <= U32_MAX ==> Counter(n) == n
  {
  }

  function Piece(src: Bytes, i: nat): Bytes {
    src[Min(i * BLOB_CHUNK_SIZE, |src|)..Min((i + 1) * BLOB_CHUNK_SIZE, |src|)]
  }

  ghost predicate Unknown(st: BlobState, file: Id) {
    file !in st.metas && forall i: nat :: (file, i) !in st.chunks
  }

  /** Every stored chunk of the file is a piece of the source, in its place. */
  ghost predicate Genuine(st: BlobState, ref: BlobRef, src: Bytes, n: nat) {
    forall i: nat :: (ref.file, i) in st.chunks ==>
      && |st.chunks[(ref.file, i)].data| <= BLOB_CHUNK_SIZE
      && (Chunks(|src|) <= U32_MAX ==>
            i < n && st.chunks[(ref.file, i)] == SealedChunk(ref.key, ref.file, i, ref.chunkCount, Piece(src, i)))
  }

  /** The first `n` chunks are there, and the file lives until `retention` after some request since `t0`. */
  ghost predicate Present(s: BlobStore, st: BlobState, file: Id, n: nat, t0: nat, t1: nat) {
    n > 0 ==>
      && file in st.metas
      && (exists a: nat :: t0 <= a < t1 && st.metas[file].expiresAt == SatAdd(s.clock(a), s.retention))
      && forall i: nat :: i < n ==> (file, i) in st.chunks
  }

  /** All requests arrive, and each is made less than `retention` after any earlier one. */
  ghost predicate Timely(s: BlobStore, t0: nat, t1: nat) {
    forall a: nat, b: nat :: t0 <= a <= b < t1 ==> InTime(s, a, b)
  }

  predicate InTime(s: BlobStore, a: nat, b: nat) {
    s.fault(b).Fine? && s.clock(b) < SatAdd(s.clock(a), s.retention)
  }

  lemma ReapKeepsGenuine(s: BlobStore, t: nat, st: BlobState, ref: BlobRef, src: Bytes, n: nat)
    requires Genuine(st, ref, src, n)
    ensures Genuine(s.Reap(t, st), ref, src, n)
  {
  }

  lemma ReapKeepsPresent(s: BlobStore, t: nat, st: BlobState, file: Id, n: nat, t0: nat)
    requires Present(s, st, file, n, t0, t) && Timely(s, t0, t + 1) && t0 <= t
    ensures Present(s, s.Reap(t, st), file, n, t0, t + 1)
    ensures n > 0 ==> file in s.Reap(t, st).metas && s.clock(t) < s.Reap(t, st).metas[file].expiresAt
  {
    if n > 0 {
      var a: nat :| t0 <= a < t && st.metas[file].expiresAt == SatAdd(s.clock(a), s.retention);
      assert InTime(s, a, t);
      assert s.Reap(t, st).metas[file].expiresAt == SatAdd(s.clock(a), s.retention);
    }
  }

  lemma PutKeepsPresent(s: BlobStore, t: nat, st: BlobState, ref: BlobRef, n: nat, size: nat, c: SealedChunk, t0: nat)
    requires Present(s, st, ref.file, n, t0, t) && Timely(s, t0, t + 1) && t0 <= t
    ensures Present(s, s.AfterPut(t, st, ref.file, n, ref.chunkCount, size, c), ref.file, n + 1, t0, t + 1)
  {
    ReapKeepsPresent(s, t, st, ref.file, n, t0);
    var st' := s.AfterPut(t, st, ref.file, n, ref.chunkCount, size, c);
    assert st'.metas[ref.file].expiresAt == SatAdd(s.clock(t), s.retention);
  }

  /** Where chunk number `n` of a file starts and how the counters relate to it. */
  lemma PieceFacts(src: Bytes, n: nat)
    ensures n * BLOB_CHUNK_SIZE < |src| <==> n < Chunks(|src|)
    ensures n < Chunks(|src|) ==>
              var pos := n * BLOB_CHUNK_SIZE;
              && Piece(src, n) == src[pos..pos + Min(|src| - pos, BLOB_CHUNK_SIZE)]
              && (pos + BLOB_CHUNK_SIZE >= |src| ==> n + 1 == Chunks(|src|))
  {
  }

  lemma PutKeepsGenuine(s: BlobStore, t: nat, st: BlobState, ref: BlobRef, src: Bytes, n: nat, c: SealedChunk)
    requires Genuine(st, ref, src, n) && n < Chunks(|src|)
    requires c == SealedChunk(ref.key, ref.file, Counter(n), ref.chunkCount, Piece(src, n))
    ensures Genuine(s.AfterPut(t, st, ref.file, Counter(n), ref.chunkCount, |src|, c), ref, src, n + 1)
  {
    PieceFacts(src, n);
    ReapKeepsGenuine(s, t, st, ref, src, n);
  }

  lemma NotTimely(s: BlobStore, t0: nat, t: nat)
    requires t0 <= t && !s.fault(t).Fine?
    ensures !Timely(s, t0, t + 1)
  {
    assert !InTime(s, t, t);
  }

  lemma TimelyPrefix(s: BlobStore, t0: nat, t: nat, t1: nat)
    requires Timely(s, t0, t1) && t <= t1
    ensures Timely(s, t0, t)
  {
  }

  /** The upload loop of `send_large_file_path_with_progress`. */
  method Upload(s: BlobStore, src: Bytes, file: Id, key: Key) returns (r: Result<BlobRef>)
    modifies s
    ensures old(s.now) <= s.now
    ensures r.Ok? ==> r.value == BlobRef(file, key, TotalChunks(|src|))
    ensures r.Ok? && Unknown(old(s.state), file) ==>
              Genuine(s.state, r.value, src, Chunks(|src|)) && (|src| == 0 ==> Unknown(s.state, file))
    ensures r.Ok? && Chunks(|src|) <= U32_MAX && Timely(s, old(s.now), s.now) ==>
              Present(s, s.state, file, Chunks(|src|), old(s.now), s.now)
    ensures Timely(s, old(s.now), s.now) && |src| <= s.largeFileMax ==> r.Ok?
    ensures r.Err? ==> r.error in {Unreachable, FileTooLarge}
  {
    if |src| > s.largeFileMax {
      return Err(FileTooLarge);
    }
    ghost var st0, t0 := s.state, s.now;
    var total := TotalChunks(|src|);
    var ref := BlobRef(file, key, total);
    var index, pos, remaining: nat := 0, 0, |src|;
    ghost var n := 0;
    hide Genuine, Present, Timely, Piece, Unknown, Counter, NextIndex, CeilDiv, Chunks, BlobStore.AfterPut;
    hide BlobStore.Reap;
    CounterSteps(0);
    PieceFacts(src, 0);
    NothingStored(s, st0, ref, src, t0);
    while remaining > 0
      invariant pos + remaining == |src| && n <= Chunks(|src|) && (remaining > 0 ==> pos == n * BLOB_CHUNK_SIZE)
      invariant index == Counter(n) && t0 <= s.now
      invariant n == 0 ==> s.state == st0
      invariant remaining == 0 ==> n == Chunks(|src|)
      invariant Unknown(st0, file) ==> Genuine(s.state, ref, src, n)
      invariant Chunks(|src|) <= U32_MAX && Timely(s, t0, s.now) ==> Present(s, s.state, file, n, t0, s.now)
    {
      PieceFacts(src, n);
      CounterSteps(n);
      var size := Min(remaining, BLOB_CHUNK_SIZE);
      var c := SealedChunk(key, file, index, total, src[pos..pos + size]);
      ghost var t, st := s.now, s.state;
      var put := s.Put(file, index, total, |src|, c);
      if put.Err? {
        NotTimely(s, t0, t);
        return Err(put.error);
      }
      if Unknown(st0, file) {
        PutKeepsGenuine(s, t, st, ref, src, n, c);
      }
      if Chunks(|src|) <= U32_MAX && Timely(s, t0, s.now) {
        TimelyPrefix(s, t0, t, s.now);
        PutKeepsPresent(s, t, st, ref, n, |src|, c, t0);
      }
      index := NextIndex(index);
      pos, remaining := pos + size, remaining - size;
      n := n + 1;
    }
    return Ok(ref);
  }

  lemma ServedSame(s: BlobStore, t: nat, st: BlobState, file: Id, index: nat)
    ensures Served(s.Reap(t, st), s.clock(t), file, index) == Served(st, s.clock(t), file, index)
  {
    ReapIsInvisible(st, s.clock(t), s.clock(t), file, index);
  }

  lemma NothingStored(s: BlobStore, st: BlobState, ref: BlobRef, src: Bytes, t0: nat)
    ensures Unknown(st, ref.file) ==> Genuine(st, ref, src, 0)
    ensures Present(s, st, ref.file, 0, t0, t0)
  {
  }

  /** Fetch one chunk and open it. */
  method NextPiece(s: BlobStore, ref: BlobRef, index: nat, ghost src: Bytes, ghost n: nat, ghost t0: nat)
    returns (r: Result<Bytes>)
    requires t0 <= s.now && n == Chunks(|src|) && ref.chunkCount == TotalChunks(|src|) && index < ref.chunkCount
    modifies s
    ensures old(s.now) <= s.now
    ensures Genuine(old(s.state), ref, src, n) ==>
              && Genuine(s.state, ref, src, n)
              && (r.Ok? ==> |r.value| <= BLOB_CHUNK_SIZE && (n <= U32_MAX ==> r.value == Piece(src, index)))
    ensures Genuine(old(s.state), ref, src, n) && Present(s, old(s.state), ref.file, n, t0, old(s.now)) ==>
              0 < n <= U32_MAX && Timely(s, t0, s.now) ==> r.Ok? && Present(s, s.state, ref.file, n, t0, s.now)
    ensures Unknown(old(s.state), ref.file) ==> r.Err?
    ensures r.Err? ==> r.error in {Unreachable, Expired, BadChunk}
  {
    hide Genuine, Present, Timely, Piece, Unknown, Open, CeilDiv, Chunks, TotalChunks, BlobStore.Reap;
    ghost var t, st := s.now, s.state;
    var got := s.Get(ref.file, index);
    ServedSame(s, t, st, ref.file, index);
    CountIs(|src|);
    if Genuine(st, ref, src, n) {
      ReapKeepsGenuine(s, t, st, ref, src, n);
      OpensRight(s.state, ref, src, n, index);
    }
    if Present(s, st, ref.file, n, t0, t) && 0 < n <= U32_MAX && Timely(s, t0, s.now) {
      TimelyPrefix(s, t0, t, s.now);
      ReapKeepsPresent(s, t, st, ref.file, n, t0);
      ChunkThere(s, s.state, ref.file, n, t0, s.now, index);
      NoFault(s, t0, t);
    }
    if Unknown(st, ref.file) {
      StaysUnknown(s, t, st, ref.file, index);
    }
    if got.Err? {
      return Err(got.error);
    }
    var data := Open(got.value, ref.key, ref.file, index, ref.chunkCount);
    return if data.Some? then Ok(data.value) else Err(BadChunk);
  }

  /** `download_ephemeral_file`. */
  method Download(s: BlobStore, ref: BlobRef, ghost src: Bytes, ghost n: nat, ghost t0: nat) returns (r: Result<Bytes>)
    requires t0 <= s.now && n == Chunks(|src|) && ref.chunkCount == TotalChunks(|src|)
    modifies s
    ensures old(s.now) <= s.now
    ensures Genuine(old(s.state), ref, src, n) && r.Ok? ==> (r.value == src <==> n <= U32_MAX)
    ensures Unknown(old(s.state), ref.file) && ref.chunkCount > 0 ==> r.Err?
    ensures Genuine(old(s.state), ref, src, n) && Present(s, old(s.state), ref.file, n, t0, old(s.now)) ==>
              0 < n <= U32_MAX && Timely(s, t0, s.now) ==> r == Ok(src)
    ensures r.Err? ==> r.error in {Unreachable, Expired, BadChunk}
  {
    ghost var genuine := Genuine(s.state, ref, src, n);
    ghost var present := Present(s, s.state, ref.file, n, t0, s.now) && 0 < n <= U32_MAX;
    ghost var unknown := Unknown(s.state, ref.file);
    ghost var t1 := s.now;
    hide Genuine, Present, Timely, Piece, Unknown, CeilDiv, Chunks, TotalChunks;
    var out: Bytes := [];
    var index := 0;
    assert src[..0] == [];
    while index < ref.chunkCount
      invariant 0 <= index <= ref.chunkCount && t1 <= s.now
      invariant genuine ==> |out| <= index * BLOB_CHUNK_SIZE
      invariant genuine ==> Genuine(s.state, ref, src, n)
      invariant genuine && n <= U32_MAX ==> out == src[..Min(index * BLOB_CHUNK_SIZE, |src|)]
      invariant genuine && present && Timely(s, t0, s.now) ==> Present(s, s.state, ref.file, n, t0, s.now)
      invariant unknown ==> index == 0 && Unknown(s.state, ref.file)
    {
      ghost var t := s.now;
      var piece := NextPiece(s, ref, index, src, n, t0);
      if Timely(s, t0, s.now) {
        TimelyPrefix(s, t0, t, s.now);
      }
      if piece.Err? {
        return Err(piece.error);
      }
      PieceAppends(src, index);
      out := out + piece.value;
      index := index + 1;
    }
    if genuine {
      WholeOrShort(|src|);
      assert src[..|src|] == src;
    }
    return Ok(out);
  }

  lemma CountIs(size: nat)
    ensures 0 < Chunks(size) <= U32_MAX ==> TotalChunks(size) == Chunks(size)
  {
    CounterSteps(Chunks(size));
  }

  /** The promised chunks reach the end of the file unless the count did not fit its 32 bits. */
  lemma WholeOrShort(size: nat)
    ensures Chunks(size) <= U32_MAX ==> TotalChunks(size) * BLOB_CHUNK_SIZE >= size
    ensures Chunks(size) > U32_MAX ==> TotalChunks(size) * BLOB_CHUNK_SIZE < size
  {
    hide Chunks, Counter;
    CounterSteps(Max(Chunks(size), 1));
    CeilFacts(size);
    assert Counter(Chunks(size)) <= U32_MAX by {
      CounterBounded(Chunks(size));
    }
  }

  lemma CounterBounded(n: nat)
    ensures Counter(n) <= U32_MAX
  {
  }

  lemma CeilFacts(size: nat)
    ensures Chunks(size) * BLOB_CHUNK_SIZE >= size
    ensures Chunks(size) > 0 ==> (Chunks(size) - 1) * BLOB_CHUNK_SIZE < size
  {
  }

  lemma PieceAppends(src: Bytes, i: nat)
    ensures src[..Min(i * BLOB_CHUNK_SIZE, |src|)] + Piece(src, i) == src[..Min((i + 1) * BLOB_CHUNK_SIZE, |src|)]
  {
  }

  lemma OpensRight(st: BlobState, ref: BlobRef, src: Bytes, n: nat, index: nat)
    requires Genuine(st, ref, src, n) && n == Chunks(|src|)
    ensures (ref.file, index) in st.chunks ==>
              var data := Open(st.chunks[(ref.file, index)], ref.key, ref.file, index, ref.chunkCount);
              && (data.Some? ==> |data.value| <= BLOB_CHUNK_SIZE)
              && (n <= U32_MAX ==> data == Some(Piece(src, index)))
  {
  }

  lemma ChunkThere(s: BlobStore, st: BlobState, file: Id, n: nat, t0: nat, t1: nat, i: nat)
    requires Present(s, st, file, n, t0, t1) && i < n
    ensures (file, i) in st.chunks && file in st.metas
  {
  }

  lemma NoFault(s: BlobStore, t0: nat, t: nat)
    requires Timely(s, t0, t + 1) && t0 <= t
    ensures s.fault(t).Fine?
  {
    assert InTime(s, t, t);
  }

  lemma StaysUnknown(s: BlobStore, t: nat, st: BlobState, file: Id, index: nat)
    requires Unknown(st, file)
    ensures Unknown(s.Reap(t, st), file) && file !in s.Reap(t, st).metas
  {
  }

  /** Upload under a fresh file id, then download. Whatever the reaper and the network do, a download that
      succeeds gives the source exactly when the chunk count fits 32 bits. When every request arrives in time
      it succeeds exactly when, besides, the file is not empty: an empty file announces one chunk and has none. */
  method RoundTrip(s: BlobStore, src: Bytes, file: Id, key: Key) returns (sent: Result<BlobRef>, body: Result<Bytes>)
    requires Unknown(s.state, file)
    modifies s
    ensures sent.Ok? && body.Ok? ==> (body.value == src <==> Chunks(|src|) <= U32_MAX)
    ensures Timely(s, old(s.now), s.now) && |src| <= s.largeFileMax ==>
              sent.Ok? && (body == Ok(src) <==> 0 < Chunks(|src|) <= U32_MAX)
    ensures |src| == 0 ==> body.Err?
  {
    hide Genuine, Present, Timely, Unknown, Chunks, CeilDiv, Counter;
    ghost var t0 := s.now;
    body := Err(Unreachable);
    sent := Upload(s, src, file, key);
    if sent.Err? {
      EmptyIff(|src|);
      return;
    }
    ghost var t1 := s.now;
    body := Download(s, sent.value, src, Chunks(|src|), t0);
    EmptyIff(|src|);
    if Timely(s, t0, s.now) {
      TimelyPrefix(s, t0, t1, s.now);
    }
  }

  lemma EmptyIff(size: nat)
    ensures Chunks(size) == 0 <==> size == 0
    ensures size == 0 ==> TotalChunks(size) == 1
  {
  }
}
