/** Resumable file transfer: first send, resume after any interruption, and reassembly. */
module Transfer {
  import opened Base
  import opened ChunkSizes
  import opened Keyring
  import opened LocalStore
  import opened ReceiveSpec
  import opened Runs
  import opened Send
  import opened Server
  import opened TransferSpec
  import opened Types
  import D = Dialogue

  const RESUME_MAX_ATTEMPTS: nat := 10
  const FILE_PULL_CHUNKS_PER_REQUEST: nat := 4

  /** The local files at the time of a call. */
  type Files = map<Path, Bytes>

  /** `existing_seqs`: which seqs of `(after, to]` the server holds. */
  method ExistingSeqs(d: D.Dialogue, after: nat, to: nat) returns (r: Result<set<nat>>)
    requires d.net.Valid() && after < to
    modifies d.net`live, d.net`now, d.net`hist
    ensures d.net.Valid() && old(d.net.now) < d.net.now && old(d.net.hist) <= d.net.hist
    ensures Kept(d.net.env, old(d.net.live), d.net.hist, old(d.net.now), d.net.live)
    ensures r.Ok? ==> forall s :: after < s <= to && Leaves(d.net.env, s) ==> (s in r.value <==> s in old(d.net.live))
    ensures r.Err? ==> r.error == Unreachable && !d.net.env.fault(d.net.now - 1).Fine?
  {
    var present: set<nat> := {};
    var at := after;
    ghost var live0, t0 := d.net.live, d.net.now;
    KeptStart(d.net.env, d.net.hist, live0);
    while true
      invariant d.net.Valid() && old(d.net.now) <= d.net.now && old(d.net.hist) <= d.net.hist
      invariant Kept(d.net.env, live0, d.net.hist, t0, d.net.live)
      invariant after <= at < to
      invariant PresentUpTo(d.net.env, live0, present, after, at)
      decreases (to - at)
    {
      KeptStep(d.net.env, live0, d.net.hist, t0, d.net.live, d.net.now);
      var page := d.net.MapRequest(at, to);
      if page.Err? {
        return Err(page.error);
      }
      var m := page.value;
      var seen := SeqsOf(m.runs);
      ghost var reach := PageReach(d.net.live, at, to, m, seen);
      PresentGrows(d.net.env, live0, d.net.live, present, after, at, reach, seen);
      if !m.truncated {
        return Ok(present + seen);
      }
      var end := m.runs[|m.runs| - 1].end;
      present := present + seen;
      if end >= to {
        return Ok(present);
      }
      at := end;
    }
  }

  /** The set of seqs in `runs`. */
  method SeqsOf(runs: seq<Run>) returns (seqs: set<nat>)
    ensures forall s: nat :: s in seqs <==> InRuns(runs, s)
  {
    seqs := {};
    for i := 0 to |runs|
      invariant forall s: nat :: s in seqs <==> InRuns(runs[..i], s)
    {
      InRunsOfSnoc(runs[..i], runs[i]);
      assert runs[..i + 1] == runs[..i] + [runs[i]];
      ghost var before := seqs;
      var s := runs[i].begin;
      while s <= runs[i].end
        invariant runs[i].begin <= s
        invariant forall x: nat :: x in seqs <==> x in before || (runs[i].begin <= x < s && x <= runs[i].end)
        decreases runs[i].end + 1 - s
      {
        seqs := seqs + {s};
        s := s + 1;
      }
    }
    assert runs[..|runs|] == runs;
  }

  lemma UntouchedTrans(env: Env, a: Live, b: Live, c: Live)
    requires Untouched(env, a, b) && Untouched(env, b, c)
    ensures Untouched(env, a, c)
  {
    forall s | Leaves(env, s)
      ensures SameAt(a, c, s)
    {
      assert SameAt(a, b, s) && SameAt(b, c, s);
    }
  }

  ghost predicate PresentUpTo(env: Env, live: Live, present: set<nat>, after: nat, at: nat) {
    && (forall s :: s in present && Leaves(env, s) ==> s in live)
    && (forall s :: after < s <= at && Leaves(env, s) && s in live ==> s in present)
  }

  /** `seen` are exactly the live seqs of `(at, end]`, and perhaps live ones elsewhere. */
  ghost predicate PageUpTo(live: Live, at: nat, end: nat, seen: set<nat>) {
    && (forall s :: s in seen ==> s in live)
    && (forall s :: s in live && at < s <= end ==> s in seen)
  }

  /** How far one page of the map is complete. */
  lemma PageReach(live: Live, at: nat, to: nat, m: MapResult, seen: set<nat>) returns (end: nat)
    requires MapAnswer(live, at, to, m) && at < to
    requires forall s: nat :: s in seen <==> InRuns(m.runs, s)
    ensures PageUpTo(live, at, end, seen) && at < end <= to
    ensures if m.truncated then m.runs != [] && end == m.runs[|m.runs| - 1].end else end == to
  {
    end := if m.truncated then m.runs[|m.runs| - 1].end else to;
    assert m.truncated ==> InRange(end, at, to);
    forall s | s in live && at < s <= end
      ensures s in seen
    {
      assert InRange(s, at, to);
    }
  }

  lemma PresentGrows(env: Env, live0: Live, live: Live, present: set<nat>, after: nat, at: nat, end: nat,
                     seen: set<nat>)
    requires PresentUpTo(env, live0, present, after, at) && Untouched(env, live0, live)
    requires PageUpTo(live, at, end, seen)
    ensures PresentUpTo(env, live0, present + seen, after, end)
  {
    forall s | after < s <= end && Leaves(env, s) && s in live0
      ensures s in present + seen
    {
      assert SameAt(live0, live, s);
    }
    forall s | s in seen && Leaves(env, s)
      ensures s in live0
    {
      assert SameAt(live0, live, s);
    }
  }

  /** The round has uploaded the first `n` packets and is about to look at number `j`. */
  ghost predicate Progressing(d: D.Dialogue, t: Outbound, src: Bytes, live: Live, present: set<nat>, n: nat, j: nat,
                              id: Id, content: Content, topic: Option<Topic>) {
    && Splits(t, src) && OwnRange(d.net.env, t) && Uploaded(d.rd, t, src, live, n)
    && j <= t.chunkCount && j <= n
    && (PacketSeq(t, j) in present ==> j < n) && (PacketSeq(t, j) !in present ==> j == n)
    && PlannedInner(d.rd, t, src, j) == Inner(id, d.rd.me, content, topic)
  }

  /** There is a key for packet number `j`, and its seq is one the server takes. */
  predicate Sendable(rd: Reader, t: Outbound, j: nat) {
    KeyForSeq(rd.ring, PacketSeq(t, j)).Ok? && PacketSeq(t, j) < U64_MAX
  }

  /** Every request made in `[from, to)` arrives and is answered. */
  ghost predicate AllFine(env: Env, from: nat, to: nat) {
    forall k: nat :: from <= k < to ==> env.fault(k).Fine?
  }

  lemma AllFinePart(env: Env, from: nat, to: nat, from': nat, to': nat)
    requires AllFine(env, from, to) && from <= from' && to' <= to
    ensures AllFine(env, from', to')
  {
  }

  lemma NotAllFine(env: Env, from: nat, to: nat, k: nat)
    requires from <= k < to && !env.fault(k).Fine?
    ensures !AllFine(env, from, to)
  {
  }

  /** Push packet number `j` unless it is present already. */
  method PushMissing(d: D.Dialogue, t: Outbound, j: nat, content: Content, id: Id, topic: Option<Topic>,
                     present: set<nat>, ghost src: Bytes, ghost n: nat)
    returns (r: Result<()>, ghost n': nat)
    requires d.net.Valid()
    modifies d.net
    ensures d.net.Valid() && old(d.net.now) <= d.net.now && old(d.net.hist) <= d.net.hist
    ensures n <= n' <= Max(n, j + 1)
    ensures r.Err? && Progressing(d, t, src, old(d.net.live), present, n, j, id, content, topic) ==>
              !Sendable(d.rd, t, j) || !AllFine(d.net.env, old(d.net.now), d.net.now)
    ensures Progressing(d, t, src, old(d.net.live), present, n, j, id, content, topic) ==>
              Grew(d.rd, t, src, d.net.hist, old(d.net.now), d.net.live, n, n') && (r.Ok? ==> j < n')
    ensures j <= t.chunkCount ==> OnlyRange(d.net.env, t, old(d.net.live), d.net.hist, old(d.net.now), d.net.live)
  {
    hide Uploaded, OwnRange, EnvBounded, Bounded, KeyForSeq, Leaves, AllFine, OnlyRange, KeptBelow, Grew;
    n' := n;
    ghost var live0, hist0, t0 := d.net.live, d.net.hist, d.net.now;
    OnlyRangeStart(d.net.env, t, hist0, live0);
    if PacketSeq(t, j) in present {
      if Progressing(d, t, src, live0, present, n, j, id, content, topic) {
        GrewNot(d.rd, t, src, hist0, live0, n);
      }
      return Ok(()), n;
    }
    r := PushPacket(d, PacketSeq(t, j), id, content, topic);
    if d.net.now > t0 {
      OutsidePush(d.net.env, t0, live0, hist0, d.net.live, t, j);
    }
    if Progressing(d, t, src, live0, present, n, j, id, content, topic) {
      n' := AfterPush(d, t, src, live0, hist0, d.net.live, d.net.hist, t0, present, n, j, id, content, topic, r);
      if r.Err? && Sendable(d.rd, t, j) {
        NotAllFine(d.net.env, t0, d.net.now, t0);
      }
    }
  }

  /** What pushing packet number `j` under its seq does to the uploaded prefix; it fails only for want of a key, of
      room below 2^64 or of an answer. */
  lemma AfterPush(d: D.Dialogue, t: Outbound, src: Bytes, live: Live, hist: seq<Live>, live': Live, hist': seq<Live>,
                  time: nat, present: set<nat>, n: nat, j: nat, id: Id, content: Content, topic: Option<Topic>,
                  r: Result<()>)
    returns (n': nat)
    requires Progressing(d, t, src, live, present, n, j, id, content, topic) && PacketSeq(t, j) !in present
    requires KeyForSeq(d.rd.ring, PacketSeq(t, j)).Err? ==> r.Err? && live' == live && hist' == hist
    requires KeyForSeq(d.rd.ring, PacketSeq(t, j)).Ok? ==>
               var mid := d.net.env.step(time, live);
               var s := PacketSeq(t, j);
               var stored := !d.net.env.fault(time).RequestLost? && s < U64_MAX && s !in mid;
               var packet := Sealed(KeyForSeq(d.rd.ring, s).value, Inner(id, d.rd.me, content, topic));
               && live' == (if stored then mid[s := packet] else mid) && hist' == hist + [mid]
               && (r.Ok? <==> stored && d.net.env.fault(time).Fine?)
    ensures n <= n' <= n + 1 && Grew(d.rd, t, src, hist', |hist|, live', n, n') && (r.Ok? ==> j < n')
    ensures r.Err? && Sendable(d.rd, t, j) ==> !d.net.env.fault(time).Fine?
  {
    hide Uploaded, OwnRange, KeyForSeq, Leaves, Splits, Grew;
    var mid := d.net.env.step(time, live);
    n' := n;
    StepUntouched(d.net.env, time, live);
    OwnRangeKept(d.net.env, t, live, mid);
    UploadedSame(d.rd, t, src, live, mid, n);
    UploadedFree(d.rd, t, src, mid, n);
    if KeyForSeq(d.rd.ring, PacketSeq(t, j)).Ok? && live' != mid {
      UploadedNext(d.rd, t, src, mid, n, live'[PacketSeq(t, n)]);
      n' := n + 1;
    }
    if KeyForSeq(d.rd.ring, PacketSeq(t, j)).Ok? {
      GrewOnce(d.rd, t, src, hist, mid, live', n, n');
    } else {
      GrewNot(d.rd, t, src, hist, live, n);
    }
  }

  lemma OutsidePush(env: Env, time: nat, live: Live, hist: seq<Live>, live': Live, t: Outbound, j: nat)
    requires live' == env.step(time, live)
             || (PacketSeq(t, j) in live' && live' == env.step(time, live)[PacketSeq(t, j) := live'[PacketSeq(t, j)]])
    ensures j <= t.chunkCount ==> OnlyRange(env, t, live, hist + [env.step(time, live)], |hist|, live')
  {
    forall s: nat | !(t.headerSeq <= s <= t.headerSeq + t.chunkCount) && Leaves(env, s) && j <= t.chunkCount
      ensures SameAt(live, env.step(time, live), s) && SameAt(live, live', s)
    {
      assert SameAt(live, env.step(time, live), s);
    }
  }

  ghost predicate AllSendable(rd: Reader, t: Outbound) {
    forall j: nat :: j <= t.chunkCount ==> Sendable(rd, t, j)
  }

  /** What a round starts from: a source that matches the journal row, an owned range, `n` packets uploaded,
      and a `present` set that tells them. */
  ghost predicate Ready(d: D.Dialogue, t: Outbound, src: Bytes, file: Option<Bytes>, live: Live,
                        present: set<nat>, n: nat)
  {
    && Splits(t, src) && (file.Some? ==> file.value == src)
    && OwnRange(d.net.env, t) && Uploaded(d.rd, t, src, live, n)
    && (forall j :: 0 <= j <= t.chunkCount ==> (PacketSeq(t, j) in present <==> j < n))
  }

  /** Push header and chunks in order, skipping those already present, until one fails. From `n0` packets on
      the server the round ends with `n >= n0`, and with all of them if it succeeds. */
  method PushTransferPackets(d: D.Dialogue, t: Outbound, file: Option<Bytes>, present: set<nat>,
                             ghost src: Bytes, ghost n0: nat)
    returns (r: Result<()>, ghost n: nat)
    requires d.net.Valid()
    modifies d.net
    ensures d.net.Valid() && old(d.net.now) <= d.net.now && old(d.net.hist) <= d.net.hist
    ensures n0 <= n && (Ready(d, t, src, file, old(d.net.live), present, n0) ==>
              && Grew(d.rd, t, src, d.net.hist, old(d.net.now), d.net.live, n0, n)
              && (r.Ok? ==> n == t.chunkCount + 1))
    ensures |t.chunkSizes| <= t.chunkCount ==>
              OnlyRange(d.net.env, t, old(d.net.live), d.net.hist, old(d.net.now), d.net.live)
    ensures r.Ok? ==> file.Some?
    ensures file.Some? && Ready(d, t, src, file, old(d.net.live), present, n0) ==>
              AllSendable(d.rd, t) && AllFine(d.net.env, old(d.net.now), d.net.now) ==> r.Ok?
  {
    hide Uploaded, OwnRange, EnvBounded, Bounded, KeyForSeq, Leaves, OnlyRange, AllFine, Sendable, Grew;
    ghost var live0, now0 := d.net.live, d.net.now;
    ghost var ready := Ready(d, t, src, file, live0, present, n0);
    if ready {
      HeaderFirst(d, t, src, file, live0, present, n0);
    }
    r, n := PushMissing(d, t, 0, HeaderContent(t), t.transferId, t.topic, present, src, n0);
    if r.Err? {
      return;
    }
    if file.None? {
      return Err(FileRead), n;
    }
    var i, pos: nat := 0, 0;
    while i < |t.chunkSizes|
      invariant 0 <= i <= |t.chunkSizes| && pos == Offset(t.chunkSizes, i)
      invariant d.net.Valid() && old(d.net.now) <= d.net.now && old(d.net.hist) <= d.net.hist
      invariant n0 <= n && (ready ==> n == Max(n0, i + 1))
      invariant ready ==> Grew(d.rd, t, src, d.net.hist, now0, d.net.live, n0, n)
      invariant |t.chunkSizes| <= t.chunkCount ==> OnlyRange(d.net.env, t, live0, d.net.hist, now0, d.net.live)
    {
      OffsetStep(t.chunkSizes, i);
      OffsetWithin(t.chunkSizes, i + 1);
      if pos + t.chunkSizes[i] > |file.value| {
        return Err(FileRead), n;
      }
      var data := file.value[pos..pos + t.chunkSizes[i]];
      if ready {
        GrewEnds(d.rd, t, src, d.net.hist, now0, d.net.live, n0, n);
        ChunkNext(d, t, src, file, live0, d.net.live, present, n0, n, i, data);
      }
      ghost var live1, hist1, n1, now1 := d.net.live, d.net.hist, n, d.net.now;
      r, n := PushMissing(d, t, i + 1, ChunkContent(t, i, data), ChunkOf(t.transferId, i), None, present, src, n);
      if |t.chunkSizes| <= t.chunkCount {
        OnlyRangeTrans(d.net.env, t, live0, hist1, now0, live1, d.net.hist, d.net.live);
      }
      if ready {
        GrewTrans(d.rd, t, src, hist1, now0, live1, n0, n1, d.net.hist, d.net.live, n);
      }
      if r.Err? {
        if AllFine(d.net.env, now0, d.net.now) {
          AllFinePart(d.net.env, now0, d.net.now, now1, d.net.now);
        }
        return;
      }
      pos := pos + t.chunkSizes[i];
      i := i + 1;
    }
    if ready {
      GrewEnds(d.rd, t, src, d.net.hist, now0, d.net.live, n0, n);
    }
    return Ok(()), n;
  }

  lemma GrewEnds(rd: Reader, t: Outbound, src: Bytes, hist: seq<Live>, t0: nat, live: Live, n0: nat, n: nat)
    requires Splits(t, src) && Grew(rd, t, src, hist, t0, live, n0, n)
    ensures Uploaded(rd, t, src, live, n) && n0 <= n <= t.chunkCount + 1
  {
  }

  lemma HeaderFirst(d: D.Dialogue, t: Outbound, src: Bytes, file: Option<Bytes>, live: Live, present: set<nat>, n0: nat)
    requires Ready(d, t, src, file, live, present, n0)
    ensures Progressing(d, t, src, live, present, n0, 0, t.transferId, HeaderContent(t), t.topic)
  {
    assert PacketSeq(t, 0) in present <==> 0 < n0;
  }

  lemma ChunkNext(d: D.Dialogue, t: Outbound, src: Bytes, file: Option<Bytes>, live0: Live, live: Live,
                  present: set<nat>, n0: nat, n: nat, i: nat, data: Bytes)
    requires Ready(d, t, src, file, live0, present, n0) && file.Some?
    requires Uploaded(d.rd, t, src, live, n) && n == Max(n0, i + 1) && i < |t.chunkSizes|
    requires data == ChunkBytes(t, src, i)
    ensures Progressing(d, t, src, live, present, n, i + 1, ChunkOf(t.transferId, i), ChunkContent(t, i, data), None)
  {
    assert PacketSeq(t, i + 1) in present <==> i + 1 < n0;
  }

  predicate Settles(round: Round) { round in {SourceGone, Completed, GaveUp} }

  /** What a round does to the local store. */
  function ApplyRound(st: StoreState, id: Id, round: Round): StoreState {
    if Settles(round) then
      st.(tables := SetStatus(st.tables, id, if round.Completed? then Sent else Failed), journal := st.journal - {id})
    else st.(journal := Bumped(st.journal, id))
  }

  /** The store calls of a transfer's beginning, of its successful and of its failed end, in their order. */
  function BeginCalls(m: Message, t: Outbound): seq<Call> { [SaveCall(m), InsertCall(t)] }

  function CompletedCalls(id: Id): seq<Call> { [DeleteCall(id), StatusCall(id, Sent)] }

  function FailedCalls(id: Id): seq<Call> { [StatusCall(id, Failed), DeleteCall(id)] }

  /** Those at the end of a round, and those of the whole round. */
  function EndCalls(id: Id, round: Round): seq<Call> {
    if round.Completed? then CompletedCalls(id) else if Settles(round) then FailedCalls(id) else []
  }

  function RoundCalls(id: Id, round: Round): seq<Call> {
    (if round.SourceGone? then [] else [BumpCall(id)]) + EndCalls(id, round)
  }

  lemma RoundKeepsInv(st: StoreState, id: Id, round: Round)
    requires Inv(st)
    ensures Inv(ApplyRound(st, id, round))
  {
    if Settles(round) {
      EndTransferKeepsInv(st, id, if round.Completed? then Sent else Failed);
    } else {
      BumpKeepsInv(st, id);
    }
  }

  /** What a round may rely on for the bytes: the row splits `src`, the file is unchanged if it is there, the
      range is ours, and the first `n` packets are on the server. */
  ghost predicate Underway(d: D.Dialogue, t: Outbound, src: Bytes, files: Files, live: Live, n: nat) {
    && Splits(t, src) && (t.cachePath in files ==> files[t.cachePath] == src)
    && OwnRange(d.net.env, t) && Uploaded(d.rd, t, src, live, n)
  }

  /** `resume_one`. */
  method ResumeOne(d: D.Dialogue, t: Outbound, files: Files, ghost src: Bytes, ghost n0: nat)
    returns (r: Result<Option<Message>>, ghost round: Round, ghost n: nat)
    requires d.Valid() && 0 < t.headerSeq && t.chunkCount == |t.chunkSizes|
    modifies d.net, d.store, d`rounds
    ensures d.Valid() && d.store.saves == old(d.store.saves)
    ensures d.rounds == old(d.rounds) + [Logged(t.transferId, round)]
    ensures d.store.State() == ApplyRound(old(d.store.State()), t.transferId, round)
    ensures d.store.calls == old(d.store.calls) + RoundCalls(t.transferId, round)
    ensures round.SourceGone? <==> t.cachePath !in files
    ensures r.Err? <==> round.MapFailed?
    ensures Underway(d, t, src, files, old(d.net.live), n0) && t.cachePath in files ==>
              AllSendable(d.rd, t) && AllFine(d.net.env, old(d.net.now), d.net.now) ==> round.Completed?
    ensures r.Ok? ==> r.value == if Settles(round) && t.transferId in d.store.messages
                                 then Some(d.store.messages[t.transferId]) else None
    ensures round.PushFailed? ==> Attempts(d.store.journal, t.transferId) < RESUME_MAX_ATTEMPTS
    ensures round.GaveUp? ==> Attempts(old(d.store.journal), t.transferId) + 1 >= RESUME_MAX_ATTEMPTS
    ensures old(d.net.hist) <= d.net.hist
    ensures OnlyRange(d.net.env, t, old(d.net.live), d.net.hist, old(d.net.now), d.net.live)
    ensures n0 <= n && (Underway(d, t, src, files, old(d.net.live), n0) ==>
              && Grew(d.rd, t, src, d.net.hist, old(d.net.now), d.net.live, n0, n)
              && (round.Completed? ==> n == t.chunkCount + 1))
  {
    hide Underway, EnvBounded, Bounded, OnlyRange, Inv, SetStatus, AllFine, AllSendable, Grew, ApplyRound;
    ghost var st0, live0, hist0 := d.store.State(), d.net.live, d.net.hist;
    n := n0;
    if Underway(d, t, src, files, live0, n0) {
      UnderwayFacts(d, t, src, files, hist0, live0, n0);
    }
    OnlyRangeStart(d.net.env, t, hist0, live0);
    if t.cachePath !in files {
      round := SourceGone;
      d.rounds := d.rounds + [Logged(t.transferId, round)];
      GoneRound(st0, t.transferId);
      d.store.UpdateStatus(t.transferId, Failed);
      d.store.DeleteOutbound(t.transferId);
      r := Lookup(d, t.transferId);
      return;
    }
    var attempts := d.store.BumpOutboundAttempts(t.transferId);
    BumpedRound(st0, t.transferId);
    var mapped, pushed;
    mapped, pushed, n := MapAndPush(d, t, files, src, n0);
    if mapped.Err? {
      round := MapFailed;
      r := Err(mapped.error);
    } else {
      r, round := Conclude(d, t.transferId, pushed.Ok?, attempts);
    }
    d.rounds := d.rounds + [Logged(t.transferId, round)];
  }

  lemma GoneRound(st: StoreState, id: Id)
    requires Inv(st)
    ensures var st' := st.(tables := SetStatus(st.tables, id, Failed), journal := st.journal - {id});
            st' == ApplyRound(st, id, SourceGone) && Inv(st')
  {
    RoundKeepsInv(st, id, SourceGone);
  }

  /** After the attempt was counted: what a failing round leaves, and what a later end of the transfer makes of it. */
  lemma BumpedRound(st: StoreState, id: Id)
    requires Inv(st)
    ensures var st1 := st.(journal := Bumped(st.journal, id));
            && Inv(st1) && (forall round :: !Settles(round) ==> ApplyRound(st, id, round) == st1)
            && (forall round :: Settles(round) ==> ApplyRound(st1, id, round) == ApplyRound(st, id, round))
  {
    hide Inv;
    BumpKeepsInv(st, id);
    BumpThenRemove(st.journal, id);
  }

  /** The part of a round that talks to the server: which packets are there, and then the missing ones. */
  method MapAndPush(d: D.Dialogue, t: Outbound, files: Files, ghost src: Bytes, ghost n0: nat)
    returns (mapped: Result<()>, pushed: Result<()>, ghost n: nat)
    requires d.net.Valid() && 0 < t.headerSeq && t.chunkCount == |t.chunkSizes| && t.cachePath in files
    modifies d.net
    ensures d.net.Valid() && old(d.net.hist) <= d.net.hist
    ensures Underway(d, t, src, files, old(d.net.live), n0) ==>
              AllSendable(d.rd, t) && AllFine(d.net.env, old(d.net.now), d.net.now) ==> mapped.Ok? && pushed.Ok?
    ensures OnlyRange(d.net.env, t, old(d.net.live), d.net.hist, old(d.net.now), d.net.live)
    ensures n0 <= n && (Underway(d, t, src, files, old(d.net.live), n0) ==>
              && Grew(d.rd, t, src, d.net.hist, old(d.net.now), d.net.live, n0, n)
              && (mapped.Ok? && pushed.Ok? ==> n == t.chunkCount + 1))
  {
    hide Uploaded, Underway, Ready, EnvBounded, Bounded, Leaves, OnlyRange, AllFine, AllSendable, Kept, Grew;
    ghost var live0, now0 := d.net.live, d.net.now;
    n := n0;
    pushed := Err(Unreachable);
    var present := ExistingSeqs(d, SatPred(t.headerSeq), t.headerSeq + t.chunkCount);
    ghost var live1, hist1 := d.net.live, d.net.hist;
    KeptIsOnlyRange(d.net.env, t, live0, hist1, now0, live1);
    if Underway(d, t, src, files, live0, n0) {
      UnderwayMapped(d, t, src, files, live0, hist1, now0, live1, n0);
    }
    if present.Err? {
      NotAllFine(d.net.env, now0, d.net.now, d.net.now - 1);
      return Err(present.error), pushed, n;
    }
    mapped := Ok(());
    if Underway(d, t, src, files, live0, n0) {
      UnderwayReady(d, t, src, files, live0, hist1, now0, live1, present.value, n0);
    }
    pushed, n := PushTransferPackets(d, t, Some(files[t.cachePath]), present.value, src, n0);
    if AllFine(d.net.env, now0, d.net.now) {
      AllFinePart(d.net.env, now0, d.net.now, |hist1|, d.net.now);
    }
    OnlyRangeTrans(d.net.env, t, live0, hist1, now0, live1, d.net.hist, d.net.live);
    if Underway(d, t, src, files, live0, n0) {
      GrewTrans(d.rd, t, src, hist1, now0, live1, n0, n0, d.net.hist, d.net.live, n);
    }
  }

  /** The end of a round whose push phase was reached. */
  method Conclude(d: D.Dialogue, id: Id, pushed: bool, attempts: nat)
    returns (r: Result<Option<Message>>, ghost round: Round)
    requires d.Valid()
    modifies d.store
    ensures d.Valid() && d.store.saves == old(d.store.saves)
    ensures d.store.calls == old(d.store.calls) + EndCalls(id, round)
    ensures round == if pushed then Completed else if attempts >= RESUME_MAX_ATTEMPTS then GaveUp else PushFailed
    ensures d.store.State() ==
            if Settles(round) then ApplyRound(old(d.store.State()), id, round) else old(d.store.State())
    ensures r == Ok(if Settles(round) && id in d.store.messages then Some(d.store.messages[id]) else None)
  {
    hide Inv, SetStatus;
    ghost var st := d.store.State();
    if pushed {
      round := Completed;
      RoundKeepsInv(st, id, round);
      d.store.DeleteOutbound(id);
      d.store.UpdateStatus(id, Sent);
      r := Lookup(d, id);
    } else if attempts >= RESUME_MAX_ATTEMPTS {
      round := GaveUp;
      RoundKeepsInv(st, id, round);
      d.store.UpdateStatus(id, Failed);
      d.store.DeleteOutbound(id);
      r := Lookup(d, id);
    } else {
      round := PushFailed;
      r := Ok(None);
    }
  }

  lemma UnderwayFacts(d: D.Dialogue, t: Outbound, src: Bytes, files: Files, hist: seq<Live>, live: Live, n: nat)
    requires Underway(d, t, src, files, live, n)
    ensures Splits(t, src) && Grew(d.rd, t, src, hist, |hist|, live, n, n)
  {
    GrewNot(d.rd, t, src, hist, live, n);
  }

  /** Reading the map leaves the transfer where it was. */
  lemma UnderwayMapped(d: D.Dialogue, t: Outbound, src: Bytes, files: Files, live0: Live, hist: seq<Live>, t0: nat,
                       live1: Live, n: nat)
    requires Underway(d, t, src, files, live0, n) && Kept(d.net.env, live0, hist, t0, live1) && t0 <= |hist|
    ensures Splits(t, src) && Grew(d.rd, t, src, hist, t0, live1, n, n)
  {
    hide Uploaded, Splits, Kept, Grew;
    GrewKept(d.rd, d.net.env, t, src, live0, hist, t0, live1, n);
  }

  lemma UnderwayReady(d: D.Dialogue, t: Outbound, src: Bytes, files: Files, live0: Live, hist: seq<Live>, t0: nat,
                      live1: Live, present: set<nat>, n: nat)
    requires Underway(d, t, src, files, live0, n) && Kept(d.net.env, live0, hist, t0, live1) && t0 <= |hist|
    requires 0 < t.headerSeq && t.cachePath in files
    requires forall s :: SatPred(t.headerSeq) < s <= t.headerSeq + t.chunkCount && Leaves(d.net.env, s) ==>
               (s in present <==> s in live0)
    ensures Ready(d, t, src, Some(files[t.cachePath]), live1, present, n)
  {
    hide Uploaded, Splits, Kept, Leaves, OwnRange, Grew;
    UnderwayMapped(d, t, src, files, live0, hist, t0, live1, n);
    GrewEnds(d.rd, t, src, hist, t0, live1, n, n);
    PresentIsPrefix(d, t, src, live0, present, n);
  }

  function Attempts(journal: map<Id, Outbound>, id: Id): nat {
    if id in journal then journal[id].attempts else 0
  }

  method Lookup(d: D.Dialogue, id: Id) returns (r: Result<Option<Message>>)
    ensures r == Ok(if id in d.store.messages then Some(d.store.messages[id]) else None)
  {
    r := Ok(if id in d.store.messages then Some(d.store.messages[id]) else None);
  }

  lemma BumpThenRemove(journal: map<Id, Outbound>, id: Id)
    ensures Bumped(journal, id) - {id} == journal - {id}
  {
  }

  lemma PresentIsPrefix(d: D.Dialogue, t: Outbound, src: Bytes, live: Live, present: set<nat>, n: nat)
    requires Splits(t, src) && OwnRange(d.net.env, t) && Uploaded(d.rd, t, src, live, n) && 0 < t.headerSeq
    requires forall s :: SatPred(t.headerSeq) < s <= t.headerSeq + t.chunkCount && Leaves(d.net.env, s) ==>
               (s in present <==> s in live)
    ensures forall j :: 0 <= j <= t.chunkCount ==> (PacketSeq(t, j) in present <==> j < n)
  {
    forall j | 0 <= j <= t.chunkCount
      ensures PacketSeq(t, j) in present <==> j < n
    {
      assert Leaves(d.net.env, PacketSeq(t, j));
      assert j < n ==> PlannedAt(d.rd, t, src, live, j);
    }
  }

  // ── at most RESUME_MAX_ATTEMPTS rounds fail while pushing ────────────────

  /** The rounds one journal row can go through, starting from its attempt counter. */
  ghost predicate RowHistory(attempts: nat, rounds: seq<Round>)
    decreases |rounds|
  {
    rounds != [] ==>
      if Settles(rounds[0]) then
        rounds[1..] == [] && (rounds[0].GaveUp? ==> attempts + 1 >= RESUME_MAX_ATTEMPTS)
      else
        (rounds[0].PushFailed? ==> attempts + 1 < RESUME_MAX_ATTEMPTS) && RowHistory(attempts + 1, rounds[1..])
  }

  function PushFailures(rounds: seq<Round>): nat {
    if rounds == [] then 0
    else (if rounds[0] in {PushFailed, GaveUp} then 1 else 0) + PushFailures(rounds[1..])
  }

  lemma {:induction false} FewPushFailures(attempts: nat, rounds: seq<Round>)
    requires RowHistory(attempts, rounds)
    ensures PushFailures(rounds) <= if attempts < RESUME_MAX_ATTEMPTS then RESUME_MAX_ATTEMPTS - attempts else 1
    decreases |rounds|
  {
    if rounds != [] && !Settles(rounds[0]) {
      FewPushFailures(attempts + 1, rounds[1..]);
    }
  }

  lemma {:induction false} RowHistorySnoc(attempts: nat, rounds: seq<Round>, next: Round)
    requires RowHistory(attempts, rounds) && forall i :: 0 <= i < |rounds| ==> !Settles(rounds[i])
    requires next.PushFailed? ==> attempts + |rounds| + 1 < RESUME_MAX_ATTEMPTS
    requires next.GaveUp? ==> attempts + |rounds| + 1 >= RESUME_MAX_ATTEMPTS
    ensures RowHistory(attempts, rounds + [next])
    decreases |rounds|
  {
    var all := rounds + [next];
    if rounds != [] {
      assert all[1..] == rounds[1..] + [next];
      RowHistorySnoc(attempts + 1, rounds[1..], next);
    } else {
      assert all[1..] == [];
    }
  }

  /** No round completed, and from the tenth attempt on every round failed at the map. */
  ghost predicate StillPending(attempts: nat, rounds: seq<Round>) {
    forall i :: 0 <= i < |rounds| ==>
      !rounds[i].Completed? && (attempts + i + 1 >= RESUME_MAX_ATTEMPTS ==> rounds[i].MapFailed?)
  }

  /** Exactly when a row whose source stays is still there after some rounds. */
  lemma {:induction false} RowStaysIff(attempts: nat, rounds: seq<Round>)
    requires RowHistory(attempts, rounds) && SourceGone !in rounds
    ensures (forall i :: 0 <= i < |rounds| ==> !Settles(rounds[i])) <==> StillPending(attempts, rounds)
    decreases |rounds|
  {
    if rounds != [] {
      var rest := rounds[1..];
      assert forall i :: 0 < i < |rounds| ==> rounds[i] == rest[i - 1];
      assert forall i :: 0 <= i < |rest| ==> rest[i] == rounds[i + 1];
      if !Settles(rounds[0]) {
        RowStaysIff(attempts + 1, rest);
      }
    }
  }

  /** Rounds that fail at the map use up attempts: after `k` of them the next failing push gives the transfer up if
      and only if it is at least the tenth attempt. */
  lemma {:induction false} MapFailuresUseAttempts(attempts: nat, k: nat)
    ensures RowHistory(attempts, MapFailures(k) + [GaveUp]) <==> attempts + k + 1 >= RESUME_MAX_ATTEMPTS
    ensures RowHistory(attempts, MapFailures(k) + [PushFailed]) <==> attempts + k + 1 < RESUME_MAX_ATTEMPTS
    decreases k
  {
    if k == 0 {
      assert [GaveUp][1..] == [] && [PushFailed][1..] == [];
      assert MapFailures(k) + [GaveUp] == [GaveUp] && MapFailures(k) + [PushFailed] == [PushFailed];
    } else {
      MapFailuresUseAttempts(attempts + 1, k - 1);
      assert (MapFailures(k) + [GaveUp])[1..] == MapFailures(k - 1) + [GaveUp];
      assert (MapFailures(k) + [PushFailed])[1..] == MapFailures(k - 1) + [PushFailed];
    }
  }

  function MapFailures(k: nat): seq<Round> { seq(k, i => MapFailed) }

  /** The log entries of one transfer's rounds. */
  function Entries(id: Id, rounds: seq<Round>): seq<Logged> {
    seq(|rounds|, i requires 0 <= i < |rounds| => Logged(id, rounds[i]))
  }

  lemma NoEntries(id: Id)
    ensures Entries(id, []) == []
  {
  }

  lemma EntriesSnoc(id: Id, rounds: seq<Round>, next: Round)
    ensures Entries(id, rounds + [next]) == Entries(id, rounds) + [Logged(id, next)]
  {
  }

  /** Resume one transfer up to `limit` times. */
  method ResumeRepeatedly(d: D.Dialogue, t: Outbound, files: Files, limit: nat) returns (ghost rounds: seq<Round>)
    requires d.Valid() && t.transferId in d.store.journal && t == d.store.journal[t.transferId]
    modifies d.net, d.store, d`rounds
    ensures d.Valid() && RowHistory(t.attempts, rounds)
    ensures d.rounds == old(d.rounds) + Entries(t.transferId, rounds)
    ensures t.transferId in d.store.journal ==> d.store.journal[t.transferId].attempts == t.attempts + |rounds|
    ensures PushFailures(rounds) <= if t.attempts < RESUME_MAX_ATTEMPTS then RESUME_MAX_ATTEMPTS - t.attempts else 1
    ensures t.transferId in d.store.journal <==> forall i :: 0 <= i < |rounds| ==> !Settles(rounds[i])
    ensures t.cachePath in files ==> (t.transferId in d.store.journal <==> StillPending(t.attempts, rounds))
    ensures t.transferId !in d.store.journal && t.transferId in d.store.messages ==>
              d.store.messages[t.transferId].status in {Sent, Failed}
  {
    hide Uploaded, OnlyRange, Entries, AllFine, AllSendable, Grew, StillPending;
    rounds := [];
    assert Entries(t.transferId, rounds) == [] by { NoEntries(t.transferId); }
    var k := 0;
    while k < limit && t.transferId in d.store.journal
      invariant d.Valid() && RowHistory(t.attempts, rounds) && k <= limit
      invariant t.cachePath in files ==> SourceGone !in rounds
      invariant d.rounds == old(d.rounds) + Entries(t.transferId, rounds)
      invariant t.transferId in d.store.journal ==>
                  && (forall i :: 0 <= i < |rounds| ==> !Settles(rounds[i]))
                  && d.store.journal[t.transferId].attempts == t.attempts + |rounds|
      invariant t.transferId !in d.store.journal ==>
                  && rounds != [] && Settles(rounds[|rounds| - 1])
                  && (t.transferId in d.store.messages ==> d.store.messages[t.transferId].status in {Sent, Failed})
    {
      var r;
      ghost var round, n;
      r, round, n := ResumeOne(d, t, files, [], 0);
      RowHistorySnoc(t.attempts, rounds, round);
      EntriesSnoc(t.transferId, rounds, round);
      rounds := rounds + [round];
      k := k + 1;
    }
    FewPushFailures(t.attempts, rounds);
    if t.cachePath in files {
      RowStaysIff(t.attempts, rounds);
    }
  }
}
