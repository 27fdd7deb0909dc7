/** Whole runs of a file transfer: first send, then anything the client does, then the download. */
module TransferRun {
  import opened Arrival
  import opened Base
  import opened ChunkSizes
  import opened Download
  import opened FileSend
  import opened LocalStore
  import opened ReceiveSpec
  import opened ReceiveTheorems
  import Send
  import opened Server
  import opened Transfer
  import opened TransferSpec
  import opened Types
  import opened Walk
  import D = Dialogue

  /** What the client, and its peer, may do between the first send of a file and its download. */
  datatype Act =
    | ResumeAct(files: Files)
    | ReceiveAct
    | SendAct(content: Content)
    | SendFileAct(meta: Meta, path: Path, files: Files, rng: nat -> nat)
    | PeerReceiveAct

  /** Random identifiers do not repeat. */
  ghost predicate Injective(uuid: nat -> Id) {
    forall i, j :: uuid(i) == uuid(j) ==> i == j
  }

  ghost predicate DrawnBefore(d: D.Dialogue, id: Id)
    reads d
  {
    exists k: nat :: k < d.drawn && d.uuid(k) == id
  }

  /** Whenever a resume finds the file, it finds it unchanged. */
  ghost predicate SourceKept(act: Act, path: Path, src: Bytes) {
    act.ResumeAct? && path in act.files ==> act.files[path] == src
  }

  ghost predicate JournalBelow(journal: map<Id, Outbound>, n: nat) {
    forall id :: id in journal ==> journal[id].headerSeq + journal[id].chunkCount < n
  }

  lemma JournalIsBelow(st: StoreState)
    requires Inv(st)
    ensures JournalBelow(st.journal, st.nextSend)
  {
  }

  /** Beginning one more transfer above leaves the rows as they should be. */
  lemma RowsForOlder(t: Outbound, done: bool, before: map<Id, Outbound>, after: map<Id, Outbound>, u: Outbound)
    requires RowsFor(t, before, done)
    requires after == before - {u.transferId} || after == before[u.transferId := u] || after == before
    requires u.transferId != t.transferId && t.headerSeq + t.chunkCount < u.headerSeq
    ensures RowsFor(t, after, done)
  {
  }

  lemma RowsForNew(t: Outbound, done: bool, before: map<Id, Outbound>, after: map<Id, Outbound>)
    requires JournalBelow(before, t.headerSeq)
    requires after == if done then before - {t.transferId} else before[t.transferId := t]
    ensures RowsFor(t, after, done)
  {
  }

  /** Client, peer and server between two acts: the number of requests made so far, and the rounds logged so far. */
  datatype Moment = Moment(at: nat, st: StoreState, peer: StoreState, live: Live, rounds: seq<Logged>)

  ghost function Now(d: D.Dialogue, peer: D.Dialogue): Moment
    reads d, d.net, d.store, peer, peer.store
  {
    Moment(d.net.now, d.store.State(), peer.store.State(), d.net.live, d.rounds)
  }

  /** The rounds logged between two moments. */
  function Since(a: Moment, b: Moment): seq<Logged> {
    if |a.rounds| <= |b.rounds| then b.rounds[|a.rounds|..] else []
  }

  /** The journal after one more transfer was begun at `next` or later, whether or not it was completed. */
  ghost predicate OneMore(before: map<Id, Outbound>, after: map<Id, Outbound>, next: nat) {
    after == before || exists u: Outbound :: next <= u.headerSeq && AddsOrEnds(before, after, u)
  }

  predicate AddsOrEnds(before: map<Id, Outbound>, after: map<Id, Outbound>, u: Outbound) {
    after == before - {u.transferId} || after == before[u.transferId := u]
  }

  /** The store went through one `receive`, complete or not, that made the requests `[t0, t1)`. */
  ghost predicate Received(rd: Reader, st0: StoreState, st1: StoreState, hist: seq<Live>, t0: nat, t1: nat) {
    exists tr, ok :: Outcome(rd, st0, st1, tr, hist, t0, t1, ok)
  }

  /** What an act does: only a resume makes rounds, one for every row, and they alone change the store then; the other
      acts leave the journal, up to one more transfer, and everything on the server below the next seq. */
  ghost predicate Did(env: Env, rd: Reader, peerRd: Reader, hist: seq<Live>, act: Act, a: Moment, b: Moment) {
    && a.at <= b.at == |hist| && a.rounds <= b.rounds
    && (act.PeerReceiveAct? || b.peer == a.peer)
    && match act
       case ResumeAct(_) => OneRoundEach(a.st.journal, Since(a, b)) && b.st == ApplyRounds(a.st, Since(a, b))
       case ReceiveAct =>
         && b.rounds == a.rounds && Received(rd, a.st, b.st, hist, a.at, b.at)
         && Kept(env, a.live, hist, a.at, b.live)
       case SendAct(_) =>
         && b.rounds == a.rounds && b.st.journal == a.st.journal
         && KeptBelow(env, a.st.nextSend, a.live, hist, a.at, b.live)
       case SendFileAct(_, _, _, _) =>
         && b.rounds == a.rounds && OneMore(a.st.journal, b.st.journal, a.st.nextSend)
         && KeptBelow(env, a.st.nextSend, a.live, hist, a.at, b.live)
       case PeerReceiveAct =>
         && b.rounds == a.rounds && b.st == a.st && Received(peerRd, a.peer, b.peer, hist, a.at, b.at)
         && Kept(env, a.live, hist, a.at, b.live)
  }

  /** Two parties with stores of their own on one server. */
  ghost predicate Apart(d: D.Dialogue, peer: D.Dialogue)
    reads d, d.net, d.store, peer, peer.net, peer.store
  {
    d.Valid() && peer.Valid() && peer.net == d.net && peer.store != d.store
  }

  /** One act, seen by one tracked transfer: it is done exactly once one of its own rounds completed. */
  method Perform(d: D.Dialogue, peer: D.Dialogue, act: Act, ghost t: Outbound, ghost src: Bytes, ghost n0: nat,
                 ghost done0: bool)
    returns (ghost n: nat, ghost done: bool)
    requires Apart(d, peer) && Tracked(d, t, src, n0, done0)
    requires Injective(d.uuid) && DrawnBefore(d, t.transferId) && SourceKept(act, t.cachePath, src)
    modifies d.net, d.store, d`drawn, d`rounds, peer.store
    ensures Apart(d, peer) && DrawnBefore(d, t.transferId) && old(d.net.hist) <= d.net.hist
    ensures Did(d.net.env, d.rd, peer.rd, d.net.hist, act, old(Now(d, peer)), Now(d, peer))
    ensures Splits(t, src) && Tracked(d, t, src, n, done)
    ensures OwnRange(d.net.env, t) ==> Grew(d.rd, t, src, d.net.hist, old(d.net.now), d.net.live, n0, n)
    ensures done <==> done0 || Logged(t.transferId, Completed) in Since(old(Now(d, peer)), Now(d, peer))
  {
    hide Uploaded, OwnRange, EnvBounded, Bounded, Leaves, Inv, KeptBelow, Kept, Splits, OneRoundEach, Grew, Outcome;
    hide ApplyRounds, Survive, StoredOnce, Reported, Concluded, Send.OnServer, Send.OthersWrite, Send.OwnSaves;
    hide AllFine, AllSendable, D.OnlyDelivered;
    n, done := n0, done0;
    ghost var live0, next0, now0, journal0, st0 :=
      d.net.live, d.store.nextSend, d.net.now, d.store.journal, d.store.State();
    ghost var k: nat :| k < d.drawn && d.uuid(k) == t.transferId;
    match act {
      case ResumeAct(files) =>
        var updated;
        ghost var log;
        updated, n, done, log := ResumePending(d, files, t, src, n0, done0);
        assert Since(old(Now(d, peer)), Now(d, peer)) == log;
      case ReceiveAct =>
        var r;
        ghost var tr;
        r, tr := d.Receive();
        ReceivedJournal(d.rd, st0, d.store.State(), tr, d.net.hist, now0, d.net.now, r.Ok?);
        KeptTracked(d, t, src, n0, live0, now0);
      case SendAct(content) =>
        var r;
        ghost var pushed;
        r, pushed := Send.Send(d, content);
        StaysTracked(d, t, src, n0, live0, now0, next0);
      case SendFileAct(meta, path, files, rng) =>
        var r, whole;
        ghost var u, m;
        r, u, whole, m := SendPathChunked(d, meta, path, files, rng);
        StaysTracked(d, t, src, n0, live0, now0, next0);
        if r.Ok? {
          RowsForOlder(t, done0, journal0, d.store.journal, u);
          assert AddsOrEnds(journal0, d.store.journal, u);
        }
      case PeerReceiveAct =>
        var r;
        ghost var tr;
        r, tr := peer.Receive();
        KeptTracked(d, t, src, n0, live0, now0);
    }
    assert d.uuid(k) == t.transferId;
  }

  lemma ReceivedJournal(rd: Reader, st0: StoreState, st1: StoreState, tr: Trace, hist: seq<Live>, t0: nat, t1: nat,
                        ok: bool)
    requires Outcome(rd, st0, st1, tr, hist, t0, t1, ok)
    ensures st1.journal == st0.journal && st0.nextSend <= st1.nextSend && Received(rd, st0, st1, hist, t0, t1)
  {
    hide Orderly, Genuine, Covered, Fold, Swept, MapFaithful;
  }

  /** Requests that leave what lies below the next seq alone leave a tracked transfer where it was. */
  lemma StaysTracked(d: D.Dialogue, t: Outbound, src: Bytes, n: nat, live0: Live, t0: nat, next0: nat)
    requires Splits(t, src) && t.headerSeq + t.chunkCount < next0 && t0 <= |d.net.hist|
    requires KeptBelow(d.net.env, next0, live0, d.net.hist, t0, d.net.live)
    requires OwnRange(d.net.env, t) ==> Uploaded(d.rd, t, src, live0, n)
    ensures OwnRange(d.net.env, t) ==>
              Grew(d.rd, t, src, d.net.hist, t0, d.net.live, n, n) && Uploaded(d.rd, t, src, d.net.live, n)
  {
    hide *;
    if OwnRange(d.net.env, t) {
      GrewBelow(d.rd, d.net.env, t, src, next0, live0, d.net.hist, t0, d.net.live, n);
      GrewEnds(d.rd, t, src, d.net.hist, t0, d.net.live, n, n);
    }
  }

  lemma KeptTracked(d: D.Dialogue, t: Outbound, src: Bytes, n: nat, live0: Live, t0: nat)
    requires Splits(t, src) && t0 <= |d.net.hist|
    requires Kept(d.net.env, live0, d.net.hist, t0, d.net.live)
    requires OwnRange(d.net.env, t) ==> Uploaded(d.rd, t, src, live0, n)
    ensures OwnRange(d.net.env, t) ==>
              Grew(d.rd, t, src, d.net.hist, t0, d.net.live, n, n) && Uploaded(d.rd, t, src, d.net.live, n)
  {
    hide *;
    if OwnRange(d.net.env, t) {
      GrewKept(d.rd, d.net.env, t, src, live0, d.net.hist, t0, d.net.live, n);
      GrewEnds(d.rd, t, src, d.net.hist, t0, d.net.live, n, n);
    }
  }

  /** The moments of a run: each follows from the one before by its act, and at every request in between the server
      held a prefix of the plan, growing from `ns[i - 1]` to `ns[i]` packets. */
  ghost predicate Followed(d: D.Dialogue, peer: D.Dialogue, t: Outbound, src: Bytes, acts: seq<Act>, hist: seq<Live>,
                           moments: seq<Moment>, ns: seq<nat>)
  {
    && Splits(t, src)
    && |moments| == |ns| <= |acts| + 1
    && (forall i :: 0 <= i < |moments| ==> moments[i].at <= |hist|)
    && (forall i :: 0 < i < |moments| ==>
          FollowsBy(d, peer, t, src, acts[i - 1], hist, moments[i - 1], moments[i], ns[i - 1], ns[i]))
  }

  ghost predicate FollowsBy(d: D.Dialogue, peer: D.Dialogue, t: Outbound, src: Bytes, act: Act, hist: seq<Live>,
                            a: Moment, b: Moment, n0: nat, n: nat)
    requires Splits(t, src) && b.at <= |hist|
  {
    && Did(d.net.env, d.rd, peer.rd, hist[..b.at], act, a, b)
    && (OwnRange(d.net.env, t) ==> Grew(d.rd, t, src, hist[..b.at], a.at, b.live, n0, n))
  }

  lemma FollowedNext(d: D.Dialogue, peer: D.Dialogue, t: Outbound, src: Bytes, acts: seq<Act>, hist: seq<Live>,
                     hist': seq<Live>, moments: seq<Moment>, ns: seq<nat>, moment: Moment, n: nat)
    requires Followed(d, peer, t, src, acts, hist, moments, ns) && 0 < |moments| <= |acts|
    requires hist <= hist' && moment.at == |hist'|
    requires var last := |moments| - 1;
             FollowsBy(d, peer, t, src, acts[last], hist', moments[last], moment, ns[last], n)
    ensures Followed(d, peer, t, src, acts, hist', moments + [moment], ns + [n])
  {
    hide Did, Grew, OwnRange, Splits;
    var ms, ks := moments + [moment], ns + [n];
    assert forall i :: 0 <= i < |moments| ==> ms[i] == moments[i] && ks[i] == ns[i];
    assert forall i :: 0 <= i < |moments| ==> hist'[..moments[i].at] == hist[..moments[i].at];
    forall i | 0 < i < |ms|
      ensures FollowsBy(d, peer, t, src, acts[i - 1], hist', ms[i - 1], ms[i], ks[i - 1], ks[i])
    {
      if i < |moments| {
        assert FollowsBy(d, peer, t, src, acts[i - 1], hist, moments[i - 1], moments[i], ns[i - 1], ns[i]);
      }
    }
  }

  lemma FollowedOn(d: D.Dialogue, peer: D.Dialogue, t: Outbound, src: Bytes, acts: seq<Act>, hist: seq<Live>,
                   hist': seq<Live>, moments: seq<Moment>, ns: seq<nat>)
    requires Followed(d, peer, t, src, acts, hist, moments, ns) && hist <= hist'
    ensures Followed(d, peer, t, src, acts, hist', moments, ns)
  {
    hide Did, Grew, OwnRange, Splits;
    assert forall i :: 0 <= i < |moments| ==> hist'[..moments[i].at] == hist[..moments[i].at];
    forall i | 0 < i < |moments|
      ensures FollowsBy(d, peer, t, src, acts[i - 1], hist', moments[i - 1], moments[i], ns[i - 1], ns[i])
    {
      assert FollowsBy(d, peer, t, src, acts[i - 1], hist, moments[i - 1], moments[i], ns[i - 1], ns[i]);
    }
  }

  /** The acts one after the other, seen by one tracked transfer. */
  method PerformAll(d: D.Dialogue, peer: D.Dialogue, acts: seq<Act>, ghost t: Outbound, ghost src: Bytes,
                    ghost n0: nat, ghost done0: bool)
    returns (ghost n: nat, ghost done: bool, ghost moments: seq<Moment>, ghost ns: seq<nat>)
    requires Apart(d, peer) && Tracked(d, t, src, n0, done0)
    requires Injective(d.uuid) && DrawnBefore(d, t.transferId)
    requires forall i :: 0 <= i < |acts| ==> SourceKept(acts[i], t.cachePath, src)
    modifies d.net, d.store, d`drawn, d`rounds, peer.store
    ensures Apart(d, peer) && Tracked(d, t, src, n, done)
    ensures old(d.rounds) <= d.rounds && old(d.net.hist) <= d.net.hist
    ensures |moments| == |ns| == |acts| + 1 && Followed(d, peer, t, src, acts, d.net.hist, moments, ns)
    ensures moments[0] == old(Now(d, peer)) && moments[|acts|] == Now(d, peer) && ns[0] == n0 && ns[|acts|] == n
    ensures OwnRange(d.net.env, t) ==> Grew(d.rd, t, src, d.net.hist, old(d.net.now), d.net.live, n0, n)
    ensures done <==> done0 || Logged(t.transferId, Completed) in d.rounds[|old(d.rounds)|..]
  {
    hide Uploaded, OwnRange, EnvBounded, Bounded, Leaves, Inv, Splits, Did, Followed, Tracked, SourceKept, Grew;
    hide Injective, DrawnBefore, Kept;
    n, done := n0, done0;
    ghost var t0 := d.net.now;
    NowTracking(d, t, src, n, done);
    ns, moments := [n], [Now(d, peer)];
    FirstMoment(d, peer, t, src, acts, n);
    var i := 0;
    while i < |acts|
      invariant 0 <= i <= |acts| && Apart(d, peer) && DrawnBefore(d, t.transferId)
      invariant Splits(t, src) && Tracked(d, t, src, n, done)
      invariant old(d.rounds) <= d.rounds && old(d.net.hist) <= d.net.hist
      invariant |moments| == |ns| == i + 1 && ns[0] == n0 && ns[i] == n
      invariant moments[0] == old(Now(d, peer)) && moments[i] == Now(d, peer)
      invariant Followed(d, peer, t, src, acts, d.net.hist, moments, ns)
      invariant OwnRange(d.net.env, t) ==> Grew(d.rd, t, src, d.net.hist, t0, d.net.live, n0, n)
      invariant done <==> done0 || Logged(t.transferId, Completed) in d.rounds[|old(d.rounds)|..]
    {
      ghost var before, hist1, n1 := Now(d, peer), d.net.hist, n;
      n, done := Perform(d, peer, acts[i], t, src, n, done);
      ghost var after := Now(d, peer);
      RoundsAccumulate(d.net.env, d.rd, peer.rd, d.net.hist, acts[i], before, after, |old(d.rounds)|);
      assert d.net.hist[..after.at] == d.net.hist;
      FollowedNext(d, peer, t, src, acts, hist1, d.net.hist, moments, ns, after, n);
      if OwnRange(d.net.env, t) {
        GrewTrans(d.rd, t, src, hist1, t0, before.live, n0, n1, d.net.hist, d.net.live, n);
      }
      ns, moments := ns + [n], moments + [after];
      i := i + 1;
    }
  }

  lemma RoundsAccumulate(env: Env, rd: Reader, peerRd: Reader, hist: seq<Live>, act: Act, a: Moment, b: Moment,
                         from: nat)
    requires Did(env, rd, peerRd, hist, act, a, b) && from <= |a.rounds|
    ensures a.rounds <= b.rounds && b.rounds[from..] == a.rounds[from..] + Since(a, b)
  {
  }

  lemma NowTracking(d: D.Dialogue, t: Outbound, src: Bytes, n: nat, done: bool)
    requires Tracked(d, t, src, n, done)
    ensures Splits(t, src)
    ensures OwnRange(d.net.env, t) ==>
              && Grew(d.rd, t, src, d.net.hist, |d.net.hist|, d.net.live, n, n)
              && Uploaded(d.rd, t, src, d.net.live, n) && (done ==> n == t.chunkCount + 1)
  {
    TrackedGrew(d, t, src, n, done);
  }

  lemma NowTracked(d: D.Dialogue, t: Outbound, src: Bytes, n: nat, done: bool)
    requires Splits(t, src) && t.headerSeq + t.chunkCount < d.store.nextSend && RowsFor(t, d.store.journal, done)
    requires OwnRange(d.net.env, t) ==> Uploaded(d.rd, t, src, d.net.live, n) && (done ==> n == t.chunkCount + 1)
    ensures Tracked(d, t, src, n, done)
  {
  }

  lemma FirstMoment(d: D.Dialogue, peer: D.Dialogue, t: Outbound, src: Bytes, acts: seq<Act>, n: nat)
    requires Splits(t, src) && d.net.now == |d.net.hist|
    ensures Followed(d, peer, t, src, acts, d.net.hist, [Now(d, peer)], [n])
  {
  }

  /** The acts, and then a download of what the transfer's message promises. */
  method PerformThenDownload(d: D.Dialogue, peer: D.Dialogue, reader: D.Dialogue, acts: seq<Act>, want: Promise,
                             ghost t: Outbound, ghost src: Bytes, ghost n0: nat, ghost done0: bool)
    returns (body: Result<Bytes>, ghost n: nat, ghost done: bool, ghost moments: seq<Moment>, ghost ns: seq<nat>)
    requires Apart(d, peer) && Tracked(d, t, src, n0, done0)
    requires Injective(d.uuid) && DrawnBefore(d, t.transferId)
    requires forall i :: 0 <= i < |acts| ==> SourceKept(acts[i], t.cachePath, src)
    requires reader.net == d.net && reader.rd.ring == d.rd.ring && want.chunkCount <= U32_MAX
    requires want == Promise(t.headerSeq, t.transferId, t.chunkCount, t.totalSize)
    modifies d.net, d.store, d`drawn, d`rounds, peer.store
    ensures Apart(d, peer) && old(d.rounds) <= d.rounds && old(d.net.hist) <= d.net.hist
    ensures |moments| == |ns| == |acts| + 1 && Followed(d, peer, t, src, acts, d.net.hist, moments, ns)
    ensures moments[0] == old(Now(d, peer)) && ns[0] == n0 && ns[|acts|] == n
    ensures moments[|acts|].st == d.store.State() && moments[|acts|].peer == peer.store.State()
    ensures moments[|acts|].rounds == d.rounds && moments[|acts|].at <= d.net.now
    ensures Kept(d.net.env, moments[|acts|].live, d.net.hist, moments[|acts|].at, d.net.live)
    ensures OwnRange(d.net.env, t) ==>
              Splits(t, src) && Grew(d.rd, t, src, d.net.hist, old(d.net.now), d.net.live, n0, n)
    ensures done <==> done0 || Logged(t.transferId, Completed) in d.rounds[|old(d.rounds)|..]
    ensures done && OwnRange(d.net.env, t) ==> n == t.chunkCount + 1 && (body == Ok(src) || body == Err(Unreachable))
  {
    hide Uploaded, OwnRange, EnvBounded, Bounded, Leaves, Inv, Splits, Did, Followed, Tracked, Grew, Kept, Available;
    hide SourceKept, Injective, Describes, AllAuthentic;
    n, done, moments, ns := PerformAll(d, peer, acts, t, src, n0, done0);
    NowTracking(d, t, src, n, done);
    if done && OwnRange(d.net.env, t) {
      NowAvailable(reader, d.rd, want, t, src);
    }
    ghost var live1, hist1 := d.net.live, d.net.hist;
    body := Collect(reader, want, d.rd, t, src);
    FollowedOn(d, peer, t, src, acts, hist1, d.net.hist, moments, ns);
    if OwnRange(d.net.env, t) {
      GrewKept(d.rd, d.net.env, t, src, live1, d.net.hist, |hist1|, d.net.live, n);
      GrewTrans(d.rd, t, src, hist1, old(d.net.now), live1, n0, n, d.net.hist, d.net.live, n);
    }
  }

  /** Send a file, let client and peer do anything, then download: if the range is ours, the server holds a prefix of
      the planned packets at every request of the whole run, which never shrinks; the transfer is done exactly if the
      first send or a later round of its own succeeded, and then the download gives back the source. */
  method SendThenDownload(d: D.Dialogue, peer: D.Dialogue, reader: D.Dialogue, meta: Meta, path: Path, files: Files,
                          rng: nat -> nat, acts: seq<Act>)
    returns (sent: Result<Message>, body: Result<Bytes>, ghost t: Outbound, ghost done: bool,
             ghost moments: seq<Moment>, ghost ns: seq<nat>)
    requires Apart(d, peer) && Injective(d.uuid)
    requires reader.net == d.net && reader.rd.ring == d.rd.ring
    requires path in files ==> forall i :: 0 <= i < |acts| ==> SourceKept(acts[i], path, files[path])
    modifies d.net, d.store, d`drawn, d`rounds, peer.store
    ensures Apart(d, peer) && old(d.rounds) <= d.rounds && old(d.net.hist) <= d.net.hist
    ensures sent.Ok? ==>
              && path in files && t.cachePath == path && Splits(t, files[path])
              && t.meta == meta && t.topic == d.activeTopic
              && 0 < t.headerSeq && t.chunkCount <= U32_MAX
              && sent.value == SendingMessage(d, t, d.activeTopic).(status := sent.value.status)
              && |moments| == |ns| == |acts| + 1 && Followed(d, peer, t, files[path], acts, d.net.hist, moments, ns)
              && moments[0].rounds == old(d.rounds) && moments[0].peer == old(peer.store.State())
              && moments[0].st.journal == (if sent.value.status.Sent? then old(d.store.journal) - {t.transferId}
                                           else old(d.store.journal)[t.transferId := t])
              && moments[|acts|].st == d.store.State() && moments[|acts|].rounds == d.rounds
              && moments[|acts|].peer == peer.store.State() && moments[|acts|].at <= d.net.now
              && Kept(d.net.env, moments[|acts|].live, d.net.hist, moments[|acts|].at, d.net.live)
    ensures sent.Ok? ==>
              (done <==> sent.value.status.Sent? || Logged(t.transferId, Completed) in d.rounds[|old(d.rounds)|..])
    ensures sent.Ok? && OwnRange(d.net.env, t) ==>
              Grew(d.rd, t, files[path], d.net.hist, old(d.net.now), d.net.live, 0, ns[|acts|])
    ensures sent.Ok? && done && OwnRange(d.net.env, t) ==>
              ns[|acts|] == t.chunkCount + 1 && (body == Ok(files[path]) || body == Err(Unreachable))
  {
    hide Uploaded, OwnRange, EnvBounded, Bounded, Leaves, Inv, KeptBelow, Splits, Did, Followed, Tracked, Grew, Kept;
    hide SourceKept, Injective, ValidSplit;
    ghost var n;
    ghost var journal0, drawn0 := d.store.journal, d.drawn;
    JournalIsBelow(d.store.State());
    ns, moments := [], [];
    sent, t, done, n := SendPathChunked(d, meta, path, files, rng);
    body := Err(FileRead);
    if sent.Err? {
      return;
    }
    ghost var src, live1, hist1, n1 := files[path], d.net.live, d.net.hist, n;
    RowsForNew(t, done, journal0, d.store.journal);
    if OwnRange(d.net.env, t) {
      GrewEnds(d.rd, t, src, hist1, old(d.net.now), live1, 0, n);
    }
    NowTracked(d, t, src, n, done);
    assert d.uuid(drawn0) == t.transferId;
    body, n, done, moments, ns := PerformThenDownload(d, peer, reader, acts, Promised(sent.value), t, src, n, done);
    if OwnRange(d.net.env, t) {
      GrewTrans(d.rd, t, src, hist1, old(d.net.now), live1, 0, n1, d.net.hist, d.net.live, n);
    }
  }

  /** The same run, which ends with the sender reading its own file back, followed by a `receive` of the peer and its
      download. `last` is the state before that `receive`. If the transfer is done, the `receive` runs to its end and
      nobody else writes above the peer's cursor, the peer has a message for the file, and downloads the source, if
      and only if it had one, or its state and the server's packets let it reach the header. */
  method SendThenPeerDownloads(d: D.Dialogue, peer: D.Dialogue, meta: Meta, path: Path, files: Files,
                               rng: nat -> nat, acts: seq<Act>)
    returns (sent: Result<Message>, received: Result<(seq<Message>, nat)>, body: Option<Result<Bytes>>,
             ghost t: Outbound, ghost done: bool, ghost moments: seq<Moment>, ghost ns: seq<nat>, ghost last: Moment,
             ghost tr: Trace, ghost t1: nat)
    requires Apart(d, peer) && Injective(d.uuid) && peer.rd.ring == d.rd.ring
    requires path in files ==> forall i :: 0 <= i < |acts| ==> SourceKept(acts[i], path, files[path])
    modifies d.net, d.store, d`drawn, d`rounds, peer.store
    ensures Apart(d, peer) && old(d.rounds) <= d.rounds && old(d.net.hist) <= d.net.hist
    ensures sent.Ok? ==>
              && path in files && Splits(t, files[path]) && t.meta == meta && t.topic == d.activeTopic
              && sent.value == SendingMessage(d, t, d.activeTopic).(status := sent.value.status)
              && (done <==> sent.value.status.Sent? || Logged(t.transferId, Completed) in d.rounds[|old(d.rounds)|..])
              && |moments| == |ns| == |acts| + 1 && Followed(d, peer, t, files[path], acts, d.net.hist, moments, ns)
              && moments[0].peer == old(peer.store.State()) && moments[|acts|].peer == last.peer
              && moments[|acts|].at <= last.at < t1 <= |d.net.hist|
              && Kept(d.net.env, moments[|acts|].live, d.net.hist[..last.at], moments[|acts|].at, last.live)
              && Outcome(peer.rd, last.peer, peer.store.State(), tr, d.net.hist[..t1], last.at, t1, received.Ok?)
    ensures sent.Ok? && OwnRange(d.net.env, t) ==>
              Grew(d.rd, t, files[path], d.net.hist, old(d.net.now), d.net.live, 0, ns[|acts|])
    ensures sent.Ok? && received.Ok? && LeavesAbove(d.net.env, last.peer.lastPulled) ==>
              tr.log == Walked(peer.rd, last.live, last.peer.lastPulled)
    ensures sent.Ok? && done && received.Ok? && OwnRange(d.net.env, t) ==>
              FreshIds(peer.rd, last.peer.tables, tr.log) ==>
              && (Listed(peer.store.messages, t, d.rd.me) <==>
                    || Listed(last.peer.tables.messages, t, d.rd.me)
                    || (!HasSeq(last.peer.tables.messages, t.headerSeq) && last.peer.lastPulled < t.headerSeq
                        && !InBody(peer.rd, tr.log, t.headerSeq)))
              && (Listed(peer.store.messages, t, d.rd.me) ==>
                    body == Some(Ok(files[path])) || body == Some(Err(Unreachable)))
    ensures sent.Ok? && done && received.Ok? && OwnRange(d.net.env, t) ==>
              LeavesAbove(d.net.env, last.peer.lastPulled) ==>
              FreshIds(peer.rd, last.peer.tables, Walked(peer.rd, last.live, last.peer.lastPulled)) ==>
              (Listed(peer.store.messages, t, d.rd.me) <==>
                || Listed(last.peer.tables.messages, t, d.rd.me)
                || Reaches(peer.rd, last.live, last.peer.tables.messages, last.peer.lastPulled, t.headerSeq))
  {
    hide Uploaded, OwnRange, EnvBounded, Bounded, Leaves, Inv, Splits, Followed, Outcome, FreshIds, InBody, Listed;
    hide HasSeq, Walked, LeavesAbove, Kept, Did, Grew;
    received, body, tr, t1 := Err(Unreachable), None, Trace([], [], 0, 0), 0;
    last := Now(d, peer);
    var own;
    sent, own, t, done, moments, ns := SendThenDownload(d, peer, d, meta, path, files, rng, acts);
    if sent.Err? {
      return;
    }
    ghost var src := files[path];
    last := Now(d, peer);
    ghost var hist2, n := d.net.hist, ns[|acts|];
    assert d.net.hist[..last.at] == hist2;
    if OwnRange(d.net.env, t) {
      GrewEnds(d.rd, t, src, hist2, old(d.net.now), last.live, 0, n);
    }
    received, body, tr, t1 := ReceiveThenDownload(peer, sent.value.serverSeq.value, d.rd, t, src);
    assert d.net.hist[..last.at] == hist2;
    FollowedOn(d, peer, t, src, acts, hist2, d.net.hist, moments, ns);
    if OwnRange(d.net.env, t) {
      GrewKept(d.rd, d.net.env, t, src, last.live, d.net.hist, |hist2|, d.net.live, n);
      GrewTrans(d.rd, t, src, hist2, old(d.net.now), last.live, 0, n, d.net.hist, d.net.live, n);
    }
  }
}
