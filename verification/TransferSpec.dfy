/** Which packets a file transfer consists of, and what it means for part of it to be on the server. */
module TransferSpec {
  import opened Base
  import opened ChunkSizes
  import opened Keyring
  import opened ReceiveSpec
  import opened Server
  import opened Types

  /** The journal row describes a split of the source bytes. */
  ghost predicate Splits(t: Outbound, src: Bytes) {
    t.chunkCount == |t.chunkSizes| && Sum(t.chunkSizes) == t.totalSize == |src|
  }

  /** Packet number `j` travels under this seq. */
  function PacketSeq(t: Outbound, j: nat): nat {
    t.headerSeq + j
  }

  function ChunkBytes(t: Outbound, src: Bytes, i: nat): Bytes
    requires i < |t.chunkSizes| && Sum(t.chunkSizes) <= |src|
  {
    OffsetStep(t.chunkSizes, i);
    src[Offset(t.chunkSizes, i)..Offset(t.chunkSizes, i + 1)]
  }

  function HeaderContent(t: Outbound): Content {
    FileHeader(t.transferId, t.meta, t.totalSize, |t.chunkSizes|)
  }

  function ChunkContent(t: Outbound, i: nat, data: Bytes): Content {
    FileChunk(t.transferId, i, |t.chunkSizes|, t.meta, t.totalSize, data)
  }

  /** The open packet number `j`: the header is number 0, chunk `i` is number `i + 1`. */
  function PlannedInner(rd: Reader, t: Outbound, src: Bytes, j: nat): Inner
    requires Splits(t, src) && j <= t.chunkCount
  {
    if j == 0 then Inner(t.transferId, rd.me, HeaderContent(t), t.topic)
    else Inner(ChunkOf(t.transferId, j - 1), rd.me, ChunkContent(t, j - 1, ChunkBytes(t, src, j - 1)), None)
  }

  /** The packets of a transfer carry different ids, and none but the header that of the transfer. */
  lemma PlannedIdsDiffer(rd: Reader, t: Outbound, src: Bytes, i: nat, j: nat)
    requires Splits(t, src) && i < j <= t.chunkCount && t.transferId.Uuid?
    ensures PlannedInner(rd, t, src, i).id != PlannedInner(rd, t, src, j).id
    ensures PlannedInner(rd, t, src, j).id != t.transferId == PlannedInner(rd, t, src, 0).id
  {
  }

  ghost predicate PlannedAt(rd: Reader, t: Outbound, src: Bytes, live: Live, j: nat)
    requires Splits(t, src) && j <= t.chunkCount
  {
    && KeyForSeq(rd.ring, PacketSeq(t, j)).Ok?
    && PacketSeq(t, j) in live
    && live[PacketSeq(t, j)] == Sealed(KeyForSeq(rd.ring, PacketSeq(t, j)).value, PlannedInner(rd, t, src, j))
  }

  /** Of the range `[headerSeq, headerSeq + chunkCount]` the server holds exactly the first `n` packets, as planned. */
  ghost predicate Uploaded(rd: Reader, t: Outbound, src: Bytes, live: Live, n: nat)
    requires Splits(t, src)
  {
    && n <= t.chunkCount + 1
    && (forall j :: 0 <= j < n ==> PlannedAt(rd, t, src, live, j))
    && (forall j :: n <= j <= t.chunkCount ==> PacketSeq(t, j) !in live)
  }

  /** No other party writes into the transfer's range. */
  ghost predicate OwnRange(env: Env, t: Outbound) {
    forall j :: 0 <= j <= t.chunkCount ==> Leaves(env, PacketSeq(t, j))
  }

  /** The same seqs of the range are live with the same content. */
  ghost predicate SameRange(t: Outbound, a: Live, b: Live) {
    forall j :: 0 <= j <= t.chunkCount ==> SameAt(a, b, PacketSeq(t, j))
  }

  lemma UploadedSame(rd: Reader, t: Outbound, src: Bytes, a: Live, b: Live, n: nat)
    requires Splits(t, src) && Uploaded(rd, t, src, a, n) && SameRange(t, a, b)
    ensures Uploaded(rd, t, src, b, n)
  {
    forall j | 0 <= j < n
      ensures PlannedAt(rd, t, src, b, j)
    {
      assert PlannedAt(rd, t, src, a, j) && SameAt(a, b, PacketSeq(t, j));
    }
    forall j | n <= j <= t.chunkCount
      ensures PacketSeq(t, j) !in b
    {
      assert SameAt(a, b, PacketSeq(t, j));
    }
  }

  /** Others' steps and our own read-only requests leave an owned range as it is. */
  lemma OwnRangeKept(env: Env, t: Outbound, a: Live, b: Live)
    requires OwnRange(env, t) && Untouched(env, a, b)
    ensures SameRange(t, a, b)
  {
    forall j | 0 <= j <= t.chunkCount
      ensures SameAt(a, b, PacketSeq(t, j))
    {
      assert Leaves(env, PacketSeq(t, j));
    }
  }

  lemma StepUntouched(env: Env, time: nat, live: Live)
    ensures Untouched(env, live, env.step(time, live))
  {
  }

  lemma UploadedFree(rd: Reader, t: Outbound, src: Bytes, live: Live, n: nat)
    requires Splits(t, src) && Uploaded(rd, t, src, live, n)
    ensures n <= t.chunkCount ==> PacketSeq(t, n) !in live
  {
  }

  /** Pushing packet `n` extends the uploaded prefix by one. */
  lemma UploadedNext(rd: Reader, t: Outbound, src: Bytes, live: Live, n: nat, payload: Payload)
    requires Splits(t, src) && Uploaded(rd, t, src, live, n) && n <= t.chunkCount
    requires KeyForSeq(rd.ring, PacketSeq(t, n)).Ok?
    requires payload == Sealed(KeyForSeq(rd.ring, PacketSeq(t, n)).value, PlannedInner(rd, t, src, n))
    ensures Uploaded(rd, t, src, live[PacketSeq(t, n) := payload], n + 1)
  {
    var live' := live[PacketSeq(t, n) := payload];
    forall j | 0 <= j < n + 1
      ensures PlannedAt(rd, t, src, live', j)
    {
      if j < n {
        assert PlannedAt(rd, t, src, live, j);
      }
    }
  }

  /** Outside the transfer's range nothing changed that other parties leave alone. */
  ghost predicate RangeOnly(env: Env, t: Outbound, a: Live, b: Live) {
    forall s: nat :: !(t.headerSeq <= s <= t.headerSeq + t.chunkCount) && Leaves(env, s) ==> SameAt(a, b, s)
  }

  /** The same at every request from `t0` on. */
  ghost predicate OnlyRange(env: Env, t: Outbound, live0: Live, hist: seq<Live>, t0: nat, live: Live) {
    RangeOnly(env, t, live0, live) && forall k :: t0 <= k < |hist| ==> RangeOnly(env, t, live0, hist[k])
  }

  lemma OnlyRangeStart(env: Env, t: Outbound, hist: seq<Live>, live: Live)
    ensures OnlyRange(env, t, live, hist, |hist|, live)
  {
  }

  lemma OnlyRangeTrans(env: Env, t: Outbound, live0: Live, hist1: seq<Live>, t0: nat, live1: Live, hist2: seq<Live>,
                       live2: Live)
    requires OnlyRange(env, t, live0, hist1, t0, live1) && hist1 <= hist2
    requires OnlyRange(env, t, live1, hist2, |hist1|, live2)
    ensures OnlyRange(env, t, live0, hist2, t0, live2)
  {
    hide RangeOnly;
    RangeOnlyTrans(env, t, live0, live1, live2);
    forall k | t0 <= k < |hist2|
      ensures RangeOnly(env, t, live0, hist2[k])
    {
      if k < |hist1| {
        assert hist2[k] == hist1[k];
      } else {
        RangeOnlyTrans(env, t, live0, live1, hist2[k]);
      }
    }
  }

  lemma KeptIsOnlyRange(env: Env, t: Outbound, live0: Live, hist: seq<Live>, t0: nat, live: Live)
    requires Kept(env, live0, hist, t0, live)
    ensures OnlyRange(env, t, live0, hist, t0, live)
  {
    hide RangeOnly, Untouched;
    UntouchedIsRangeOnly(env, t, live0, live);
    forall k | t0 <= k < |hist|
      ensures RangeOnly(env, t, live0, hist[k])
    {
      UntouchedIsRangeOnly(env, t, live0, hist[k]);
    }
  }

  lemma OnlyRangeIsAbove(env: Env, t: Outbound, n: nat, live0: Live, hist: seq<Live>, t0: nat, live: Live)
    requires OnlyRange(env, t, live0, hist, t0, live) && n <= t.headerSeq
    ensures KeptBelow(env, n, live0, hist, t0, live)
  {
    hide RangeOnly, UntouchedBelow;
    RangeOnlyIsAbove(env, t, n, live0, live);
    forall k | t0 <= k < |hist|
      ensures UntouchedBelow(env, n, live0, hist[k])
    {
      RangeOnlyIsAbove(env, t, n, live0, hist[k]);
    }
  }

  lemma RangeOnlyTrans(env: Env, t: Outbound, a: Live, b: Live, c: Live)
    requires RangeOnly(env, t, a, b) && RangeOnly(env, t, b, c)
    ensures RangeOnly(env, t, a, c)
  {
    forall s: nat | !(t.headerSeq <= s <= t.headerSeq + t.chunkCount) && Leaves(env, s)
      ensures SameAt(a, c, s)
    {
      assert SameAt(a, b, s) && SameAt(b, c, s);
    }
  }

  lemma UntouchedIsRangeOnly(env: Env, t: Outbound, a: Live, b: Live)
    requires Untouched(env, a, b)
    ensures RangeOnly(env, t, a, b)
  {
  }

  /** Transfers with disjoint ranges leave each other's packets alone. */
  lemma OtherTransferUntouched(env: Env, t: Outbound, u: Outbound, a: Live, b: Live)
    requires RangeOnly(env, u, a, b) && OwnRange(env, t)
    requires t.headerSeq + t.chunkCount < u.headerSeq || u.headerSeq + u.chunkCount < t.headerSeq
    ensures SameRange(t, a, b)
  {
    forall j | 0 <= j <= t.chunkCount
      ensures SameAt(a, b, PacketSeq(t, j))
    {
      assert Leaves(env, PacketSeq(t, j));
    }
  }

  /** Work below a limit leaves a range above it alone, and work above it a range below. */
  lemma BelowUntouched(env: Env, t: Outbound, n: nat, a: Live, b: Live)
    requires UntouchedBelow(env, n, a, b) && OwnRange(env, t) && t.headerSeq + t.chunkCount < n
    ensures SameRange(t, a, b)
  {
    forall j | 0 <= j <= t.chunkCount
      ensures SameAt(a, b, PacketSeq(t, j))
    {
      assert Leaves(env, PacketSeq(t, j));
    }
  }

  lemma RangeOnlyIsAbove(env: Env, t: Outbound, n: nat, a: Live, b: Live)
    requires RangeOnly(env, t, a, b) && n <= t.headerSeq
    ensures UntouchedBelow(env, n, a, b)
  {
  }

  // ── the prefix at every request ─────────────────────────────────────────

  /** How many packets of the range are on the server before the first gap. */
  function Held(t: Outbound, live: Live): (n: nat)
    ensures n <= t.chunkCount + 1
  {
    HeldFrom(t, live, 0)
  }

  function HeldFrom(t: Outbound, live: Live, j: nat): (n: nat)
    requires j <= t.chunkCount + 1
    ensures j <= n <= t.chunkCount + 1
    decreases t.chunkCount + 1 - j
  {
    if j <= t.chunkCount && PacketSeq(t, j) in live then HeldFrom(t, live, j + 1) else j
  }

  lemma {:induction false} HeldFromIs(t: Outbound, live: Live, j: nat, n: nat)
    requires j <= n <= t.chunkCount + 1
    requires forall i :: j <= i < n ==> PacketSeq(t, i) in live
    requires n <= t.chunkCount ==> PacketSeq(t, n) !in live
    ensures HeldFrom(t, live, j) == n
    decreases n - j
  {
    if j < n {
      HeldFromIs(t, live, j + 1, n);
    }
  }

  lemma HeldIs(rd: Reader, t: Outbound, src: Bytes, live: Live, n: nat)
    requires Splits(t, src) && Uploaded(rd, t, src, live, n)
    ensures Held(t, live) == n
  {
    forall i | 0 <= i < n
      ensures PacketSeq(t, i) in live
    {
      assert PlannedAt(rd, t, src, live, i);
    }
    HeldFromIs(t, live, 0, n);
  }

  /** What the server held of the plan when the requests from `t0` on were evaluated, and holds now: always a prefix,
      which never shrinks, of `n0` packets at the first request and `n` now. */
  ghost predicate Grew(rd: Reader, t: Outbound, src: Bytes, hist: seq<Live>, t0: nat, live: Live, n0: nat, n: nat)
    requires Splits(t, src)
  {
    && t0 <= |hist| && n0 <= n && Uploaded(rd, t, src, live, n)
    && (if t0 < |hist| then Held(t, hist[t0]) == n0 else n0 == n)
    && (forall k :: t0 <= k < |hist| ==> n0 <= Held(t, hist[k]) <= n && Uploaded(rd, t, src, hist[k], Held(t, hist[k])))
    && (forall j, k :: t0 <= j <= k < |hist| ==> Held(t, hist[j]) <= Held(t, hist[k]))
  }

  lemma GrewNot(rd: Reader, t: Outbound, src: Bytes, hist: seq<Live>, live: Live, n: nat)
    requires Splits(t, src) && Uploaded(rd, t, src, live, n)
    ensures Grew(rd, t, src, hist, |hist|, live, n, n)
  {
  }

  /** One request, evaluated on `mid`. */
  lemma GrewOnce(rd: Reader, t: Outbound, src: Bytes, hist: seq<Live>, mid: Live, live: Live, n0: nat, n: nat)
    requires Splits(t, src) && Uploaded(rd, t, src, mid, n0) && Uploaded(rd, t, src, live, n) && n0 <= n
    ensures Grew(rd, t, src, hist + [mid], |hist|, live, n0, n)
  {
    HeldIs(rd, t, src, mid, n0);
  }

  lemma GrewTrans(rd: Reader, t: Outbound, src: Bytes, hist1: seq<Live>, t0: nat, live1: Live, n0: nat, n1: nat,
                  hist2: seq<Live>, live2: Live, n2: nat)
    requires Splits(t, src) && hist1 <= hist2
    requires Grew(rd, t, src, hist1, t0, live1, n0, n1)
    requires Grew(rd, t, src, hist2, |hist1|, live2, n1, n2)
    ensures Grew(rd, t, src, hist2, t0, live2, n0, n2)
  {
    hide Uploaded, Held, Splits;
    assert forall k :: 0 <= k < |hist1| ==> hist2[k] == hist1[k];
  }

  /** Requests that leave the range alone. */
  lemma GrewSame(rd: Reader, t: Outbound, src: Bytes, live0: Live, hist: seq<Live>, t0: nat, live: Live, n: nat)
    requires Splits(t, src) && Uploaded(rd, t, src, live0, n) && SameRange(t, live0, live)
    requires t0 <= |hist| && forall k :: t0 <= k < |hist| ==> SameRange(t, live0, hist[k])
    ensures Grew(rd, t, src, hist, t0, live, n, n)
  {
    hide Uploaded, Held, Splits, SameRange;
    UploadedSame(rd, t, src, live0, live, n);
    forall k | t0 <= k < |hist|
      ensures Held(t, hist[k]) == n && Uploaded(rd, t, src, hist[k], n)
    {
      UploadedSame(rd, t, src, live0, hist[k], n);
      HeldIs(rd, t, src, hist[k], n);
    }
  }

  lemma GrewKept(rd: Reader, env: Env, t: Outbound, src: Bytes, live0: Live, hist: seq<Live>, t0: nat, live: Live,
                 n: nat)
    requires Splits(t, src) && Uploaded(rd, t, src, live0, n) && OwnRange(env, t)
    requires Kept(env, live0, hist, t0, live) && t0 <= |hist|
    ensures Grew(rd, t, src, hist, t0, live, n, n)
  {
    hide Uploaded, Splits, SameRange, OwnRange, Untouched;
    OwnRangeKept(env, t, live0, live);
    forall k | t0 <= k < |hist|
      ensures SameRange(t, live0, hist[k])
    {
      OwnRangeKept(env, t, live0, hist[k]);
    }
    GrewSame(rd, t, src, live0, hist, t0, live, n);
  }

  lemma GrewBelow(rd: Reader, env: Env, t: Outbound, src: Bytes, next: nat, live0: Live, hist: seq<Live>, t0: nat,
                  live: Live, n: nat)
    requires Splits(t, src) && Uploaded(rd, t, src, live0, n) && OwnRange(env, t) && t.headerSeq + t.chunkCount < next
    requires KeptBelow(env, next, live0, hist, t0, live) && t0 <= |hist|
    ensures Grew(rd, t, src, hist, t0, live, n, n)
  {
    hide Uploaded, Splits, SameRange, OwnRange, UntouchedBelow;
    BelowUntouched(env, t, next, live0, live);
    forall k | t0 <= k < |hist|
      ensures SameRange(t, live0, hist[k])
    {
      BelowUntouched(env, t, next, live0, hist[k]);
    }
    GrewSame(rd, t, src, live0, hist, t0, live, n);
  }

  lemma GrewElsewhere(rd: Reader, env: Env, t: Outbound, u: Outbound, src: Bytes, live0: Live, hist: seq<Live>, t0: nat,
                      live: Live, n: nat)
    requires Splits(t, src) && Uploaded(rd, t, src, live0, n) && OwnRange(env, t)
    requires OnlyRange(env, u, live0, hist, t0, live) && t0 <= |hist|
    requires t.headerSeq + t.chunkCount < u.headerSeq || u.headerSeq + u.chunkCount < t.headerSeq
    ensures Grew(rd, t, src, hist, t0, live, n, n)
  {
    hide Uploaded, Splits, SameRange, OwnRange, RangeOnly;
    OtherTransferUntouched(env, t, u, live0, live);
    forall k | t0 <= k < |hist|
      ensures SameRange(t, live0, hist[k])
    {
      OtherTransferUntouched(env, t, u, live0, hist[k]);
    }
    GrewSame(rd, t, src, live0, hist, t0, live, n);
  }

  /** The attempt counter of a journal row has no part in what the transfer uploads. */
  lemma AttemptsDoNotMatter(rd: Reader, t: Outbound, attempts: nat, src: Bytes, live: Live, n: nat)
    requires Splits(t, src)
    ensures Uploaded(rd, t.(attempts := attempts), src, live, n) <==> Uploaded(rd, t, src, live, n)
  {
    var u := t.(attempts := attempts);
    forall j | 0 <= j <= t.chunkCount
      ensures PacketSeq(u, j) == PacketSeq(t, j)
      ensures PlannedAt(rd, u, src, live, j) <==> PlannedAt(rd, t, src, live, j)
    {
      assert PlannedInner(rd, u, src, j) == PlannedInner(rd, t, src, j);
    }
  }

  lemma {:induction false} HeldIgnoresAttempts(t: Outbound, attempts: nat, live: Live, j: nat)
    requires j <= t.chunkCount + 1
    ensures HeldFrom(t.(attempts := attempts), live, j) == HeldFrom(t, live, j)
    decreases t.chunkCount + 1 - j
  {
    assert PacketSeq(t.(attempts := attempts), j) == PacketSeq(t, j);
    if j <= t.chunkCount {
      HeldIgnoresAttempts(t, attempts, live, j + 1);
    }
  }

  lemma GrewIgnoresAttempts(rd: Reader, t: Outbound, attempts: nat, src: Bytes, hist: seq<Live>, t0: nat, live: Live,
                            n0: nat, n: nat)
    requires Splits(t, src) && Grew(rd, t.(attempts := attempts), src, hist, t0, live, n0, n)
    ensures Grew(rd, t, src, hist, t0, live, n0, n)
  {
    hide Uploaded, HeldFrom, Splits;
    AttemptsDoNotMatter(rd, t, attempts, src, live, n);
    forall k | t0 <= k < |hist|
      ensures Held(t, hist[k]) == Held(t.(attempts := attempts), hist[k])
      ensures Uploaded(rd, t, src, hist[k], Held(t, hist[k]))
    {
      HeldIgnoresAttempts(t, attempts, hist[k], 0);
      AttemptsDoNotMatter(rd, t, attempts, src, hist[k], Held(t, hist[k]));
    }
  }

  lemma OwnRangeIgnoresAttempts(env: Env, t: Outbound, attempts: nat)
    ensures OwnRange(env, t.(attempts := attempts)) <==> OwnRange(env, t)
  {
    forall j
      ensures PacketSeq(t.(attempts := attempts), j) == PacketSeq(t, j)
    {
    }
  }
}
