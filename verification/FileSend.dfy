/** First send of a file, background resume of all pending transfers, and what a whole run delivers. */
module FileSend {
  import opened Base
  import opened ChunkSizes
  import opened LocalStore
  import opened ReceiveSpec
  import opened ReceiveTheorems
  import opened Send
  import opened Server
  import opened Sorting
  import opened Transfer
  import opened TransferSpec
  import opened Types
  import D = Dialogue

  function SendingMessage(d: D.Dialogue, t: Outbound, topic: Option<Topic>): Message {
    Message(t.transferId, d.rd.me,
            Attach(Attachment(t.meta, t.totalSize, [], Some(t.transferId), Some(t.cachePath), t.chunkCount,
                              if t.chunkCount == 0 then 0 else t.headerSeq + 1,
                              if t.chunkCount == 0 then 0 else t.headerSeq + t.chunkCount, true, None)),
            Sending, Some(t.headerSeq), topic)
  }

  /** Reserve a contiguous range, record the transfer, and only then push anything (`send_path_chunked` up to the
      upload). */
  method BeginTransfer(d: D.Dialogue, meta: Meta, path: Path, src: Bytes, rng: nat -> nat)
    returns (r: Result<Outbound>)
    requires d.Valid()
    modifies d.store, d`drawn
    ensures d.Valid() && old(d.drawn) <= d.drawn
    ensures r.Ok? ==> r.value.transferId == d.uuid(old(d.drawn)) && old(d.drawn) < d.drawn
    ensures r.Err? ==> d.store.State() == old(d.store.State()) && d.store.saves == old(d.store.saves)
    ensures r.Err? ==> r.error in {FileTooLarge, EmptyRange, RangeOverflow}
    ensures r.Ok? ==>
              var t := r.value;
              && t == Outbound(t.transferId, old(d.store.nextSend), |t.chunkSizes|, t.chunkSizes, path, meta, |src|,
                               d.activeTopic, 0)
              && ValidSplit(t.chunkSizes, |src|) && Splits(t, src) && t.chunkCount <= U32_MAX && 0 < t.headerSeq
              && d.store.State() == StoreState(old(d.store.lastPulled), t.headerSeq + t.chunkCount + 1,
                                               Save(old(d.store.AllTables()), SendingMessage(d, t, d.activeTopic)),
                                               old(d.store.journal)[t.transferId := t])
              && d.store.saves == old(d.store.saves) + [SendingMessage(d, t, d.activeTopic)]
              && d.store.calls == old(d.store.calls) + BeginCalls(SendingMessage(d, t, d.activeTopic), t)
  {
    hide Sum, ValidSplit, EnvBounded, Bounded, Inv, Splits;
    ghost var st := d.store.State();
    InvPositive(st);
    var sizes := RandomChunkSizes(|src|, rng);
    if |sizes| > U32_MAX {
      return Err(FileTooLarge);
    }
    var header := d.store.ReserveSendSeqRange(1 + |sizes|);
    if header.Err? {
      return Err(header.error);
    }
    var id := d.NewId();
    var t := Outbound(id, header.value, |sizes|, sizes, path, meta, |src|, d.activeTopic, 0);
    BeginTransferKeepsInv(st, SendingMessage(d, t, d.activeTopic), t);
    d.store.SaveMessage(SendingMessage(d, t, d.activeTopic));
    d.store.InsertOutbound(t);
    SplitOf(t, src);
    return Ok(t);
  }

  lemma SplitOf(t: Outbound, src: Bytes)
    requires ValidSplit(t.chunkSizes, |src|) && t.chunkCount == |t.chunkSizes| && t.totalSize == |src|
    ensures Splits(t, src)
  {
  }

  /** The first upload of a transfer that was just recorded, and its end if every packet went out. */
  method FirstUpload(d: D.Dialogue, t: Outbound, src: Bytes) returns (done: bool, ghost n: nat)
    requires d.Valid() && t.chunkCount == |t.chunkSizes|
    modifies d.net, d.store
    ensures d.Valid() && old(d.net.hist) <= d.net.hist && d.store.saves == old(d.store.saves)
    ensures d.store.State() ==
            if done then ApplyRound(old(d.store.State()), t.transferId, Completed) else old(d.store.State())
    ensures d.store.calls == old(d.store.calls) + if done then CompletedCalls(t.transferId) else []
    ensures OnlyRange(d.net.env, t, old(d.net.live), d.net.hist, old(d.net.now), d.net.live)
    ensures Ready(d, t, src, Some(src), old(d.net.live), {}, 0) ==>
              && Grew(d.rd, t, src, d.net.hist, old(d.net.now), d.net.live, 0, n)
              && (done ==> n == t.chunkCount + 1)
              && (AllSendable(d.rd, t) && AllFine(d.net.env, old(d.net.now), d.net.now) ==> done)
  {
    hide Ready, EnvBounded, Bounded, OnlyRange, Inv, SetStatus, AllFine, AllSendable, Grew;
    ghost var st := d.store.State();
    var pushed;
    pushed, n := PushTransferPackets(d, t, Some(src), {}, src, 0);
    done := pushed.Ok?;
    if done {
      RoundKeepsInv(st, t.transferId, Completed);
      d.store.DeleteOutbound(t.transferId);
      d.store.UpdateStatus(t.transferId, Sent);
    }
  }

  /** `send_path_chunked`. With `done` the whole transfer is on the server; otherwise the journal keeps it. */
  method SendPathChunked(d: D.Dialogue, meta: Meta, path: Path, files: Files, rng: nat -> nat)
    returns (r: Result<Message>, ghost t: Outbound, done: bool, ghost n: nat)
    requires d.Valid()
    modifies d.net, d.store, d`drawn
    ensures d.Valid() && old(d.store.nextSend) <= d.store.nextSend && old(d.drawn) <= d.drawn
    ensures r.Ok? ==> t.transferId == d.uuid(old(d.drawn)) && old(d.drawn) < d.drawn
    ensures old(d.net.hist) <= d.net.hist
    ensures KeptBelow(d.net.env, old(d.store.nextSend), old(d.net.live), d.net.hist, old(d.net.now), d.net.live)
    ensures Survive(d.rd, old(d.store.messages), d.store.messages, if r.Ok? then {t.transferId} else {}, d.net.hist,
                    old(d.net.now), d.net.now)
    ensures r.Err? ==> d.store.journal == old(d.store.journal) && D.OnlyDelivered(old(d.store.saves), d.store.saves)
    ensures r.Err? ==> r.error in {Unreachable, RangeOverflow, FileRead, FileTooLarge, EmptyRange}
    ensures r.Ok? ==>
              && path in files && Splits(t, files[path])
              && ValidSplit(t.chunkSizes, |files[path]|) && t.chunkCount <= U32_MAX
              && t.cachePath == path && t.attempts == 0 && 0 < t.headerSeq
              && t.meta == meta && t.topic == d.activeTopic
              && old(d.store.nextSend) <= t.headerSeq && d.store.nextSend == t.headerSeq + t.chunkCount + 1
              && r.value == SendingMessage(d, t, d.activeTopic).(status := if done then Sent else Sending)
              && t.transferId in d.store.messages && d.store.messages[t.transferId] == r.value
              && d.store.journal == (if done then old(d.store.journal) - {t.transferId}
                                     else old(d.store.journal)[t.transferId := t])
              && (OwnRange(d.net.env, t) ==>
                    && Grew(d.rd, t, files[path], d.net.hist, old(d.net.now), d.net.live, 0, n)
                    && (done ==> n == t.chunkCount + 1))
    ensures r.Ok? && OwnRange(d.net.env, t) ==>
              AllSendable(d.rd, t) && AllFine(d.net.env, old(d.net.now), d.net.now) ==> done
  {
    hide AllFine, AllSendable, OwnRange, EnvBounded, Bounded, OnlyRange, Inv, NextIsFree, Ready;
    hide KeptBelow, Kept, ValidSplit, Grew, D.OnlyDelivered, Survive, Splits, BeginCalls, CompletedCalls;
    hide Save, SetStatus;
    t, done, n := Outbound(Uuid(0), 0, 0, [], path, meta, 0, None, 0), false, 0;
    ghost var journal0, next0, live0, now0 := d.store.journal, d.store.nextSend, d.net.live, d.net.now;
    ghost var messages0 := d.store.messages;
    var synced := Resync(d);
    ghost var live1, hist1, tables1 := d.net.live, d.net.hist, d.store.AllTables();
    KeptIsKeptBelow(d.net.env, live0, hist1, now0, live1, next0);
    if synced.Err? {
      return Err(synced.error), t, done, n;
    }
    if path !in files {
      return Err(FileRead), t, done, n;
    }
    var begun := BeginTransfer(d, meta, path, files[path], rng);
    if begun.Err? {
      return Err(begun.error), t, done, n;
    }
    var row := begun.value;
    t := row;
    ghost var own := OwnRange(d.net.env, t);
    if own {
      RangeStartsFree(d, t, files[path], live1);
      FreeThroughout(d, t, files[path], live0, hist1, now0, live1);
    }
    done, n := FirstUpload(d, row, files[path]);
    if AllFine(d.net.env, now0, d.net.now) {
      AllFinePart(d.net.env, now0, d.net.now, |hist1|, d.net.now);
    }
    OnlyRangeIsAbove(d.net.env, t, next0, live1, d.net.hist, |hist1|, d.net.live);
    KeptBelowTrans(d.net.env, next0, live0, hist1, now0, live1, next0, d.net.hist, d.net.live);
    if own {
      GrewTrans(d.rd, t, files[path], hist1, now0, live1, 0, 0, d.net.hist, d.net.live, n);
    }
    InsertThenRemove(journal0, t);
    SurviveBegun(d.rd, tables1, SendingMessage(d, row, d.activeTopic), done, d.net.hist, |hist1|, d.net.now);
    SurviveTrans(d.rd, messages0, tables1.messages, d.store.messages, {}, {t.transferId}, hist1, d.net.hist, now0,
                 |hist1|, d.net.now);
    NothingMore({t.transferId});
    return Ok(SendingMessage(d, row, d.activeTopic).(status := if done then Sent else Sending)), t, done, n;
  }

  lemma SurviveBegun(rd: Reader, tables: Tables, m: Message, done: bool, hist: seq<Live>, t0: nat, t1: nat)
    requires m.status.Sending?
    ensures var begun := Save(tables, m);
            var after := (if done then SetStatus(begun, m.id, Sent) else begun).messages;
            && Survive(rd, tables.messages, after, {m.id}, hist, t0, t1)
            && m.id in after && after[m.id] == m.(status := if done then Sent else Sending)
  {
  }

  /** The range was empty during the resync already, since nobody else writes there. */
  lemma FreeThroughout(d: D.Dialogue, t: Outbound, src: Bytes, live0: Live, hist: seq<Live>, t0: nat, live: Live)
    requires Ready(d, t, src, Some(src), live, {}, 0) && Kept(d.net.env, live0, hist, t0, live) && t0 <= |hist|
    ensures Splits(t, src) && Grew(d.rd, t, src, hist, t0, live, 0, 0)
  {
    hide Splits;
    OwnRangeKept(d.net.env, t, live0, live);
    forall j | 0 <= j <= t.chunkCount
      ensures PacketSeq(t, j) !in live0
    {
      assert SameAt(live0, live, PacketSeq(t, j));
    }
    GrewKept(d.rd, d.net.env, t, src, live0, hist, t0, live, 0);
  }

  lemma InsertThenRemove(journal: map<Id, Outbound>, t: Outbound)
    ensures journal[t.transferId := t] - {t.transferId} == journal - {t.transferId}
  {
  }

  /** A range granted right after a complete `receive` is empty on the server if nobody else writes there. */
  lemma RangeStartsFree(d: D.Dialogue, t: Outbound, src: Bytes, live: Live)
    requires Splits(t, src) && OwnRange(d.net.env, t) && NextIsFree(d.net.env, live, t.headerSeq)
    ensures Ready(d, t, src, Some(src), live, {}, 0)
  {
    forall j | 0 <= j <= t.chunkCount
      ensures PacketSeq(t, j) !in live
    {
      assert Leaves(d.net.env, PacketSeq(t, j));
    }
  }

  // ── background resume ───────────────────────────────────────────────────

  const BY_HEADER: Outbound -> nat := (t: Outbound) => t.headerSeq

  /** `list_outbound`: the journal rows, each once, by header seq. */
  method ListOutbound(d: D.Dialogue) returns (rows: seq<Outbound>)
    requires d.Valid()
    ensures forall t :: t in rows <==> IsRow(d.store.journal, t)
    ensures SortedBy(rows, BY_HEADER) && NoRepeats(rows)
  {
    RowsKeyed(d.store.State());
    var unsorted: seq<Outbound> := [];
    var rest := d.store.journal.Keys;
    while rest != {}
      invariant rest <= d.store.journal.Keys && NoRepeats(unsorted)
      invariant forall t :: t in unsorted ==> IsRow(d.store.journal, t) && t.transferId !in rest
      invariant forall id :: id in d.store.journal && id !in rest ==> d.store.journal[id] in unsorted
      decreases rest
    {
      var id :| id in rest;
      assert d.store.journal[id] !in multiset(unsorted);
      unsorted := unsorted + [d.store.journal[id]];
      rest := rest - {id};
    }
    rows := SortBy(unsorted, BY_HEADER);
    SortBySorts(unsorted, BY_HEADER);
    SameMultisetSameElements(unsorted, rows);
  }

  lemma RowsKeyed(st: StoreState)
    requires Inv(st)
    ensures forall id :: id in st.journal ==> st.journal[id].transferId == id
  {
  }

  ghost predicate IsRow(journal: map<Id, Outbound>, t: Outbound) {
    exists id :: id in journal && journal[id] == t
  }

  /** The journal holds at most `t` itself, as long as it is not done, and rows of disjoint ranges. */
  ghost predicate RowsFor(t: Outbound, journal: map<Id, Outbound>, done: bool) {
    forall id :: id in journal ==>
      if id == t.transferId then !done && journal[id] == t.(attempts := journal[id].attempts)
      else DisjointRanges(t, journal[id])
  }

  /** A transfer followed over a run: where it stands on the server and in the journal. */
  ghost predicate Tracked(d: D.Dialogue, t: Outbound, src: Bytes, n: nat, done: bool)
    reads d, d.net, d.store
  {
    && Splits(t, src)
    && t.headerSeq + t.chunkCount < d.store.nextSend
    && RowsFor(t, d.store.journal, done)
    && (OwnRange(d.net.env, t) ==> Uploaded(d.rd, t, src, d.net.live, n) && (done ==> n == t.chunkCount + 1))
  }

  /** What a list of rounds, one after the other, does to the store. */
  function ApplyRounds(st: StoreState, log: seq<Logged>): StoreState {
    if log == [] then st
    else ApplyRound(ApplyRounds(st, log[..|log| - 1]), log[|log| - 1].transferId, log[|log| - 1].round)
  }

  lemma ApplyRoundsSnoc(st: StoreState, log: seq<Logged>, e: Logged)
    ensures ApplyRounds(st, log + [e]) == ApplyRound(ApplyRounds(st, log), e.transferId, e.round)
  {
    assert (log + [e])[..|log|] == log;
  }

  function IdsOf(log: seq<Logged>): seq<Id> {
    seq(|log|, i requires 0 <= i < |log| => log[i].transferId)
  }

  /** The log has one round for every row of the journal, and no other. */
  ghost predicate OneRoundEach(journal: map<Id, Outbound>, log: seq<Logged>) {
    && (forall i, j :: 0 <= i < j < |log| ==> log[i].transferId != log[j].transferId)
    && (forall id :: id in journal <==> id in IdsOf(log))
  }

  /** The transfers whose rounds settled them, as their messages stand now, in the order of the rounds. */
  function Reported(messages: Messages, log: seq<Logged>): seq<Message> {
    if log == [] then []
    else
      var e := log[|log| - 1];
      Reported(messages, log[..|log| - 1]) +
      if e.round in {SourceGone, Completed, GaveUp} && e.transferId in messages then [messages[e.transferId]] else []
  }

  /** A settled transfer's message is Sent exactly if its round completed, and Failed otherwise. */
  ghost predicate Concluded(messages: Messages, log: seq<Logged>) {
    forall e :: e in log && e.round in {SourceGone, Completed, GaveUp} && e.transferId in messages ==>
      messages[e.transferId].status == if e.round.Completed? then Sent else Failed
  }

  lemma {:induction false} ReportedSame(a: Messages, b: Messages, log: seq<Logged>)
    requires forall e :: e in log ==> (e.transferId in a <==> e.transferId in b)
    requires forall e :: e in log && e.transferId in a ==> a[e.transferId] == b[e.transferId]
    ensures Reported(a, log) == Reported(b, log)
  {
    if log != [] {
      ReportedSame(a, b, log[..|log| - 1]);
    }
  }

  /** One more round, for a transfer that had none yet. */
  lemma ReportedNext(st: StoreState, log: seq<Logged>, e: Logged)
    requires Concluded(st.tables.messages, log) && forall f :: f in log ==> f.transferId != e.transferId
    ensures var after := ApplyRound(st, e.transferId, e.round).tables.messages;
            && Concluded(after, log + [e])
            && Reported(after, log + [e]) ==
               Reported(st.tables.messages, log) +
               if Settles(e.round) && e.transferId in after then [after[e.transferId]] else []
  {
    var after := ApplyRound(st, e.transferId, e.round).tables.messages;
    assert (log + [e])[..|log|] == log;
    ReportedSame(st.tables.messages, after, log);
  }

  /** `resume_pending_transfers`: one round for every row, in the order of their headers. A tracked transfer's prefix
      only grows, and it is done exactly once a round of its own has completed. The answer has the messages of the
      transfers that this call settled, and no others. */
  method ResumePending(d: D.Dialogue, files: Files, ghost t: Outbound, ghost src: Bytes, ghost n0: nat,
                       ghost done0: bool)
    returns (updated: seq<Message>, ghost n: nat, ghost done: bool, ghost log: seq<Logged>)
    requires d.Valid() && Tracked(d, t, src, n0, done0)
    requires t.cachePath in files ==> files[t.cachePath] == src
    modifies d.net, d.store, d`rounds
    ensures d.Valid() && d.store.nextSend == old(d.store.nextSend)
    ensures d.rounds == old(d.rounds) + log && OneRoundEach(old(d.store.journal), log)
    ensures d.store.State() == ApplyRounds(old(d.store.State()), log)
    ensures updated == Reported(d.store.messages, log) && Concluded(d.store.messages, log)
    ensures Tracked(d, t, src, n, done) && old(d.net.hist) <= d.net.hist
    ensures OwnRange(d.net.env, t) ==> Grew(d.rd, t, src, d.net.hist, old(d.net.now), d.net.live, n0, n)
    ensures done <==> done0 || Logged(t.transferId, Completed) in log
  {
    hide Tracked, Inv, IsRow, ApplyRound, RowOrOther, RowIds, IdsOf, OneRoundEach, NoRepeats, EnvBounded, Bounded;
    hide Grew, OwnRange, Splits, Reported, Concluded;
    n, done, updated, log := n0, done0, [], [];
    ghost var st0 := d.store.State();
    var rows := ListOutbound(d);
    RowsSane(d.store.State(), rows);
    RowsTracked(d, t, src, n0, done0, rows);
    NoRows();
    RowsDistinct(st0, rows);
    TrackedGrew(d, t, src, n, done);
    var i := 0;
    while i < |rows|
      invariant 0 <= i <= |rows| && IdsOf(log) == RowIds(rows[..i])
      invariant d.Valid() && d.store.nextSend == old(d.store.nextSend)
      invariant d.rounds == old(d.rounds) + log && d.store.State() == ApplyRounds(old(d.store.State()), log)
      invariant updated == Reported(d.store.messages, log) && Concluded(d.store.messages, log)
      invariant Splits(t, src) && Tracked(d, t, src, n, done) && old(d.net.hist) <= d.net.hist
      invariant OwnRange(d.net.env, t) ==> Grew(d.rd, t, src, d.net.hist, old(d.net.now), d.net.live, n0, n)
      invariant done <==> done0 || Logged(t.transferId, Completed) in log
    {
      assert rows[i] in rows;
      ghost var live1, hist1, n1, st1 := d.net.live, d.net.hist, n, d.store.State();
      var r;
      ghost var round;
      r, round, n, done := ResumeTracked(d, rows[i], files, t, src, n, done);
      if OwnRange(d.net.env, t) {
        GrewTrans(d.rd, t, src, hist1, old(d.net.now), live1, n0, n1, d.net.hist, d.net.live, n);
      }
      if r.Ok? && r.value.Some? {
        updated := updated + [r.value.value];
      }
      NotYetLogged(rows, log, i);
      ReportedNext(st1, log, Logged(rows[i].transferId, round));
      ApplyRoundsSnoc(old(d.store.State()), log, Logged(rows[i].transferId, round));
      RowIdsSnoc(rows, log, i, Logged(rows[i].transferId, round));
      log := log + [Logged(rows[i].transferId, round)];
      i := i + 1;
    }
    assert rows[..i] == rows;
    EachRowOnce(st0, rows, log);
  }

  lemma TrackedGrew(d: D.Dialogue, t: Outbound, src: Bytes, n: nat, done: bool)
    requires Tracked(d, t, src, n, done)
    ensures Splits(t, src) && (OwnRange(d.net.env, t) ==>
              Grew(d.rd, t, src, d.net.hist, |d.net.hist|, d.net.live, n, n))
  {
    if OwnRange(d.net.env, t) {
      GrewNot(d.rd, t, src, d.net.hist, d.net.live, n);
    }
  }

  function RowIds(rows: seq<Outbound>): seq<Id> {
    seq(|rows|, i requires 0 <= i < |rows| => rows[i].transferId)
  }

  lemma NoRows()
    ensures IdsOf([]) == RowIds([])
  {
  }

  lemma RowIdsSnoc(rows: seq<Outbound>, log: seq<Logged>, i: nat, e: Logged)
    requires i < |rows| && IdsOf(log) == RowIds(rows[..i]) && e.transferId == rows[i].transferId
    ensures IdsOf(log + [e]) == RowIds(rows[..i + 1])
  {
    assert RowIds(rows[..i + 1]) == RowIds(rows[..i]) + [rows[i].transferId];
    assert IdsOf(log + [e]) == IdsOf(log) + [e.transferId];
  }

  lemma RowsDistinct(st: StoreState, rows: seq<Outbound>)
    requires Inv(st) && NoRepeats(rows) && (forall t :: t in rows ==> IsRow(st.journal, t))
    ensures forall i, j :: 0 <= i < j < |rows| ==> rows[i].transferId != rows[j].transferId
    ensures Reported(st.tables.messages, []) == [] && Concluded(st.tables.messages, [])
  {
    forall i, j | 0 <= i < j < |rows|
      ensures rows[i].transferId != rows[j].transferId
    {
      assert rows[i] in rows && rows[j] in rows;
      if rows[i].transferId == rows[j].transferId {
        RepeatCountsTwice(rows, i, j);
      }
    }
  }

  lemma NotYetLogged(rows: seq<Outbound>, log: seq<Logged>, i: nat)
    requires i < |rows| && IdsOf(log) == RowIds(rows[..i])
    requires forall j, k :: 0 <= j < k < |rows| ==> rows[j].transferId != rows[k].transferId
    ensures forall e :: e in log ==> e.transferId != rows[i].transferId
  {
    forall e | e in log
      ensures e.transferId != rows[i].transferId
    {
      var k :| 0 <= k < |log| && log[k] == e;
      assert IdsOf(log)[k] == e.transferId == RowIds(rows[..i])[k];
    }
  }

  lemma EachRowOnce(st: StoreState, rows: seq<Outbound>, log: seq<Logged>)
    requires Inv(st) && NoRepeats(rows) && (forall t :: t in rows <==> IsRow(st.journal, t))
    requires IdsOf(log) == RowIds(rows)
    ensures OneRoundEach(st.journal, log)
  {
    assert forall i :: 0 <= i < |log| ==> log[i].transferId == IdsOf(log)[i] == rows[i].transferId;
    RowsDistinct(st, rows);
    forall id
      ensures id in st.journal <==> id in IdsOf(log)
    {
      if id in st.journal {
        assert IsRow(st.journal, st.journal[id]);
        var i :| 0 <= i < |rows| && rows[i] == st.journal[id];
        assert IdsOf(log)[i] == id;
      }
      if id in IdsOf(log) {
        var i :| 0 <= i < |log| && IdsOf(log)[i] == id;
        assert rows[i] in rows;
      }
    }
  }

  lemma RowsSane(st: StoreState, rows: seq<Outbound>)
    requires Inv(st) && forall u :: u in rows ==> IsRow(st.journal, u)
    ensures forall u :: u in rows ==> 0 < u.headerSeq && u.chunkCount == |u.chunkSizes|
  {
  }

  /** `u` is a (possibly stale) row of the tracked transfer itself, or of one with another range. */
  ghost predicate RowOrOther(t: Outbound, u: Outbound) {
    if u.transferId == t.transferId then u == t.(attempts := u.attempts) else DisjointRanges(t, u)
  }

  lemma RowsTracked(d: D.Dialogue, t: Outbound, src: Bytes, n: nat, done: bool, rows: seq<Outbound>)
    requires d.Valid() && Tracked(d, t, src, n, done)
    requires forall u :: u in rows ==> IsRow(d.store.journal, u)
    ensures forall u :: u in rows ==> RowOrOther(t, u)
  {
    forall u | u in rows
      ensures RowOrOther(t, u)
    {
      var id :| id in d.store.journal && d.store.journal[id] == u;
      assert u.transferId == id;
    }
  }

  method ResumeTracked(d: D.Dialogue, u: Outbound, files: Files, ghost t: Outbound, ghost src: Bytes,
                       ghost n0: nat, ghost done0: bool)
    returns (r: Result<Option<Message>>, ghost round: Round, ghost n: nat, ghost done: bool)
    requires d.Valid() && Tracked(d, t, src, n0, done0) && RowOrOther(t, u)
    requires 0 < u.headerSeq && u.chunkCount == |u.chunkSizes|
    requires t.cachePath in files ==> files[t.cachePath] == src
    modifies d.net, d.store, d`rounds
    ensures d.Valid() && d.store.nextSend == old(d.store.nextSend)
    ensures d.rounds == old(d.rounds) + [Logged(u.transferId, round)]
    ensures d.store.State() == ApplyRound(old(d.store.State()), u.transferId, round)
    ensures r.Err? <==> round.MapFailed?
    ensures r.Ok? ==> r.value == if Settles(round) && u.transferId in d.store.messages
                                 then Some(d.store.messages[u.transferId]) else None
    ensures Splits(t, src) && Tracked(d, t, src, n, done) && old(d.net.hist) <= d.net.hist
    ensures OwnRange(d.net.env, t) ==> Grew(d.rd, t, src, d.net.hist, old(d.net.now), d.net.live, n0, n)
    ensures done <==> done0 || (u.transferId == t.transferId && round.Completed?)
  {
    hide Uploaded, OwnRange, EnvBounded, Bounded, OnlyRange, Inv, Leaves, Grew;
    ghost var live0, journal0 := d.net.live, d.store.journal;
    AttemptsDoNotMatter(d.rd, t, u.attempts, src, live0, n0);
    OwnRangeIgnoresAttempts(d.net.env, t, u.attempts);
    ghost var m;
    r, round, m := ResumeOne(d, u, files, src, n0);
    RowsAfterRound(journal0, d.store.journal, t, u, round, done0);
    n, done := n0, done0;
    if u.transferId == t.transferId {
      if OwnRange(d.net.env, t) {
        n := m;
        GrewIgnoresAttempts(d.rd, t, u.attempts, src, d.net.hist, old(d.net.now), d.net.live, n0, n);
        GrewEnds(d.rd, t, src, d.net.hist, old(d.net.now), d.net.live, n0, n);
      }
      done := done0 || round.Completed?;
    } else if OwnRange(d.net.env, t) {
      GrewElsewhere(d.rd, d.net.env, t, u, src, live0, d.net.hist, old(d.net.now), d.net.live, n0);
      GrewEnds(d.rd, t, src, d.net.hist, old(d.net.now), d.net.live, n0, n0);
    }
  }

  lemma RowsAfterRound(before: map<Id, Outbound>, after: map<Id, Outbound>, t: Outbound, u: Outbound, round: Round,
                       done: bool)
    requires RowsFor(t, before, done)
    requires after == if Settles(round) then before - {u.transferId} else Bumped(before, u.transferId)
    ensures RowsFor(t, after, done || (u.transferId == t.transferId && round.Completed?))
  {
  }
}
