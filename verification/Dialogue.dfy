/** `Dialogue::receive`: rebuild the live map, pull what is new, sweep what is gone. */
module Dialogue {
  import opened Base
  import opened Keyring
  import opened LocalStore
  import opened ReceiveSpec
  import opened Runs
  import opened Server
  import opened Sorting
  import opened Types

  const RECEIVE_PULL_BATCH: nat := 16

  const BY_BEGIN: Run -> nat := (r: Run) => r.begin
  const BY_SEQ: Packet -> nat := (p: Packet) => p.seqNo

  /** Where the pull loop goes on after a batch. */
  function NextPull(cursor: nat, batchEnd: nat): nat {
    Max(SatAdd(cursor, 1), SatAdd(batchEnd, 1))
  }

  /** Some batch of a run takes the pull loop past its end if and only if the run ends below 2^64-1: otherwise the
      condition `s <= run.end` holds after every batch, whatever the cursor. */
  lemma LoopLeavesRunIff(run: Run)
    requires run.begin <= run.end <= U64_MAX
    ensures run.end < U64_MAX <==>
            exists cursor: nat, batchEnd: nat ::
              cursor <= U64_MAX && batchEnd <= run.end && NextPull(cursor, batchEnd) > run.end
  {
    if run.end < U64_MAX {
      assert NextPull(0, run.end) > run.end;
    }
  }

  class Dialogue {
    const rd: Reader
    const net: Network
    const store: Store
    var activeTopic: Option<Topic>
    /** The stream of random identifiers and how many were drawn. */
    const uuid: nat -> Id
    var drawn: nat
    /** Every resume round ever made, in order. */
    ghost var rounds: seq<Logged>

    ghost predicate Valid()
      reads this, net, store
    {
      net.Valid() && store.Valid()
    }

    constructor (rd: Reader, net: Network, store: Store, uuid: nat -> Id)
      requires net.Valid() && store.Valid()
      ensures Valid() && this.rd == rd && this.net == net && this.store == store
    {
      this.rd, this.net, this.store, this.uuid := rd, net, store, uuid;
      activeTopic := None;
      drawn := 0;
      rounds := [];
    }

    method NewId() returns (id: Id)
      modifies this`drawn
      ensures drawn == old(drawn) + 1 && id == uuid(old(drawn))
    {
      id := uuid(drawn);
      drawn := drawn + 1;
    }

    /** Page through `/map(after, 0)` until a page is empty or not truncated. */
    method FetchRuns() returns (r: Result<(seq<Run>, nat)>)
      requires net.Valid()
      modifies net`live, net`now, net`hist
      ensures net.Valid() && old(net.now) < net.now && old(net.hist) <= net.hist
      ensures Kept(net.env, old(net.live), net.hist, old(net.now), net.live)
      ensures r.Ok? ==> MapFaithful(r.value.0, r.value.1, net.hist, old(net.now), net.now)
      ensures r.Err? ==> r.error == Unreachable && !net.env.fault(net.now - 1).Fine?
    {
      hide Kept;
      ghost var t0 := net.now;
      KeptStart(net.env, net.hist, net.live);
      var runs: seq<Run> := [];
      var last: nat := 0;
      var after: nat := 0;
      while true
        invariant net.Valid() && t0 <= net.now && old(net.hist) <= net.hist
        invariant Kept(net.env, old(net.live), net.hist, t0, net.live)
        invariant after < U64_MAX
        invariant PagesSoFar(runs, last, net.hist, t0, net.now, after)
        decreases U64_MAX - after
      {
        KeptStep(net.env, old(net.live), net.hist, t0, net.live, net.now);
        var page := FetchPage(runs, last, after, t0);
        if page.Err? {
          return Err(page.error);
        }
        var (runs', last', more) := page.value;
        runs, last := runs', last';
        if more.None? {
          break;
        }
        after := more.value;
      }
      AscendingSorted(runs);
      runs := Resorted(runs, BY_BEGIN);
      return Ok((runs, last));
    }

    /** Append one page; the third component is where the next page starts, if the page was truncated. */
    method FetchPage(runs: seq<Run>, last: nat, after: nat, ghost t0: nat)
      returns (r: Result<(seq<Run>, nat, Option<nat>)>)
      requires net.Valid() && t0 <= net.now
      requires PagesSoFar(runs, last, net.hist, t0, net.now, after)
      modifies net`live, net`now, net`hist
      ensures net.Valid() && net.now == old(net.now) + 1
      ensures net.live == net.env.step(old(net.now), old(net.live)) && net.hist == old(net.hist) + [net.live]
      ensures r.Err? ==> r.error == Unreachable && !net.env.fault(old(net.now)).Fine?
      ensures r.Ok? ==> match r.value.2
                case None => MapFaithful(r.value.0, r.value.1, net.hist, t0, net.now)
                case Some(next) =>
                  after < next < U64_MAX && PagesSoFar(r.value.0, r.value.1, net.hist, t0, net.now, next)
    {
      hide PagesSoFar, MapFaithful, EnvBounded, MapAnswer;
      ghost var before := net.hist;
      var page := net.MapRequest(after, 0);
      if page.Err? {
        return Err(page.error);
      }
      var m := page.value;
      var last' := Max(last, m.lastSeq);
      if m.runs == [] {
        PageFinal(runs, last, before, net.live, t0, after, m);
        assert runs + m.runs == runs;
        return Ok((runs, last', None));
      }
      if !m.truncated {
        PageFinal(runs, last, before, net.live, t0, after, m);
        return Ok((runs + m.runs, last', None));
      }
      PageTruncated(runs, last, before, net.live, t0, after, m);
      assert m.runs[|m.runs| - 1].end < U64_MAX;
      return Ok((runs + m.runs, last', Some(m.runs[|m.runs| - 1].end)));
    }

    /** `process_incoming`. */
    method ProcessIncoming(inner: Inner, s: nat) returns (out: Option<Message>)
      requires store.Valid()
      modifies store
      ensures (store.AllTables(), out) == Process(old(store.AllTables()), inner, s)
      ensures store.State() == old(store.State()).(tables := store.AllTables())
      ensures OnlyDelivered(old(store.saves), store.saves)
    {
      var existing := store.GetMessageBySeq(s);
      if existing.Some? {
        return None;
      }
      match inner.content
      case ReadReceipt(upTo) =>
        store.MarkReadUntil(upTo);
        return None;
      case Delete(_) =>
        return None;
      case FileHeader(_, _, _, _) =>
        var m := HeaderMessage(inner, s);
        store.SaveMessage(m);
        return Some(m);
      case FileChunk(transfer, index, total, meta, _, data) =>
        if transfer in store.messages {
          return None;
        }
        store.SaveChunk(transfer, index, ChunkRow(inner.sender, total, meta, data));
        var assembled := store.TryAssembleChunks(transfer);
        if assembled.None? {
          return None;
        }
        var m := AssembledMessage(transfer, total, assembled.value, s);
        store.SaveMessage(m);
        return Some(m);
      case _ =>
        var m := ShownMessage(inner, s);
        store.SaveMessage(m);
        return Some(m);
    }

    /** One iteration of the packet loop; the cursor is the store's. */
    method HandlePacket(p: Packet) returns (r: Result<Option<Message>>)
      requires store.Valid()
      modifies store
      ensures store.Valid()
      ensures r.Err? <==> Advance(rd, p) > U64_MAX && Opened(rd, p).Some? && Opened(rd, p).value.content.FileHeader?
      ensures r.Err? ==> r.error == RangeOverflow && store.State() == old(store.State())
      ensures r.Ok? ==>
                && (store.AllTables(), r.value) == Handle(rd, old(store.AllTables()), p)
                && store.State() == SetPulled(old(store.State()).(tables := store.AllTables()), Advance(rd, p))
      ensures OnlyDelivered(old(store.saves), store.saves)
    {
      HandleKeepsInv(rd, store.State(), p);
      hide KeyForSeq, Decrypt, Handle, Inv, OnlyDelivered;
      OnlyDeliveredStart(store.saves);
      var plain := Decrypt(rd.ring, p.seqNo, p.payload);
      if plain.None? {
        Unreadable(rd, store.AllTables(), p);
        store.SetLastPulledSeq(p.seqNo);
        return Ok(None);
      }
      var inner := plain.value;
      var advance := p.seqNo;
      if inner.content.FileHeader? {
        if p.seqNo + inner.content.chunks > U64_MAX {
          return Err(RangeOverflow);
        }
        advance := p.seqNo + inner.content.chunks;
      }
      var out := ApplyInner(p, inner);
      store.SetLastPulledSeq(advance);
      return Ok(out);
    }

    /** What an opened packet does before the cursor moves: our own echo confirms the message that has its seq. */
    method ApplyInner(p: Packet, inner: Inner) returns (out: Option<Message>)
      requires store.Valid() && Opened(rd, p) == Some(inner)
      modifies store
      ensures (store.AllTables(), out) == Handle(rd, old(store.AllTables()), p)
      ensures store.State() == old(store.State()).(tables := store.AllTables())
      ensures OnlyDelivered(old(store.saves), store.saves)
    {
      InvDistinct(store.State());
      hide Opened, Process, Inv, OnlyDelivered, DistinctSeqs;
      OnlyDeliveredStart(store.saves);
      if inner.sender == rd.me {
        var own := store.GetMessageBySeq(p.seqNo);
        if own.Some? {
          OwnerUnique(store.messages, p.seqNo, own.value);
          store.UpdateStatus(own.value, Delivered);
          return Some(store.messages[own.value]);
        }
      }
      out := ProcessIncoming(inner, p.seqNo);
    }

    /** The packet loop over one pulled batch, jumping over file bodies. */
    method HandleBatch(packets: seq<Packet>, messages0: seq<Message>, errors0: nat,
                       ghost st0: StoreState, ghost log0: seq<Packet>)
      returns (r: Result<(seq<Message>, nat)>, ghost log: seq<Packet>, done: nat)
      requires store.Valid() && Aligned(rd, st0, store.State(), log0)
      requires (messages0, errors0) == Report(rd, st0, log0)
      requires forall i, j :: 0 <= i < j < |packets| ==> packets[i].seqNo < packets[j].seqNo
      requires forall i :: 0 <= i < |packets| ==> store.lastPulled < packets[i].seqNo
      modifies store
      ensures store.Valid() && Aligned(rd, st0, store.State(), log)
      ensures Extends(rd, log0, log, packets, done)
      ensures store.lastPulled == Tip(rd, old(store.lastPulled), log0, log)
      ensures r.Ok? ==> done == |packets| && r.value == Report(rd, st0, log)
      ensures r.Err? ==> r.error == RangeOverflow && done < |packets| && store.lastPulled < packets[done].seqNo
      ensures OnlyDelivered(old(store.saves), store.saves)
    {
      var messages, errors := messages0, errors0;
      log, done := log0, 0;
      var skip: Option<nat> := None;
      while done < |packets|
        invariant store.Valid() && Aligned(rd, st0, store.State(), log)
        invariant Extends(rd, log0, log, packets, done)
        invariant store.lastPulled == Tip(rd, old(store.lastPulled), log0, log)
        invariant (messages, errors) == Report(rd, st0, log)
        invariant SkipRight(rd, log, skip, store.lastPulled, packets, done)
        invariant OnlyDelivered(old(store.saves), store.saves)
      {
        var p := packets[done];
        if skip.Some? && p.seqNo <= skip.value {
          ExtendsSkip(rd, log0, log, packets, done);
          done := done + 1;
          continue;
        }
        var next := HandleNext(p, messages, errors, st0, log);
        if next.Err? {
          return Err(next.error), log, done;
        }
        ExtendsSnoc(rd, log0, log, packets, done);
        messages, errors, skip := next.value.0, next.value.1, next.value.2;
        log := log + [p];
        done := done + 1;
      }
      return Ok((messages, errors)), log, done;
    }

    /** Handle one packet that is not skipped and set `skip_until` for the packets after it. */
    method HandleNext(p: Packet, messages: seq<Message>, errors: nat, ghost st0: StoreState, ghost log: seq<Packet>)
      returns (r: Result<(seq<Message>, nat, Option<nat>)>)
      requires store.Valid() && Aligned(rd, st0, store.State(), log)
      requires (messages, errors) == Report(rd, st0, log)
      requires store.lastPulled < p.seqNo
      modifies store
      ensures store.Valid()
      ensures r.Err? ==> r.error == RangeOverflow && store.State() == old(store.State())
      ensures r.Ok? ==>
                && Aligned(rd, st0, store.State(), log + [p])
                && store.lastPulled == Advance(rd, p)
                && (r.value.0, r.value.1) == Report(rd, st0, log + [p])
                && r.value.2 == if Advance(rd, p) > p.seqNo then Some(Advance(rd, p)) else None
      ensures OnlyDelivered(old(store.saves), store.saves)
    {
      hide Handle, Fold, Outputs, Unopened, Report, Aligned, Orderly, OnlyDelivered, Inv, Decrypt, KeyForSeq;
      AlignedSnoc(rd, st0, store.State(), log, p);
      ReportSnoc(rd, st0, store.State(), log, p);
      var h := HandlePacket(p);
      if h.Err? {
        return Err(h.error);
      }
      var messages' := messages + if h.value.Some? then [h.value.value] else [];
      var plain := Decrypt(rd.ring, p.seqNo, p.payload);
      assert plain == Opened(rd, p);
      if plain.None? {
        return Ok((messages', errors + 1, None));
      }
      if plain.value.content.FileHeader? && plain.value.content.chunks > 0 {
        return Ok((messages', errors, Some(p.seqNo + plain.value.content.chunks)));
      }
      return Ok((messages', errors, None));
    }

    /** Pull one batch `[from, to]` of a run and handle it. */
    method PullBatch(from: nat, to: nat, messages: seq<Message>, errors: nat,
                     ghost st0: StoreState, ghost log0: seq<Packet>, ghost runs: seq<Run>, ghost mapped: nat)
      returns (r: Result<(seq<Message>, nat)>, ghost log: seq<Packet>)
      requires Valid() && Progress(rd, st0, store.State(), log0, runs, net.hist, mapped, from)
      requires (messages, errors) == Report(rd, st0, log0)
      requires 0 < from <= to && forall s: nat :: from <= s <= to ==> InRuns(runs, s)
      modifies net`live, net`now, net`hist, store
      ensures Valid() && net.now == old(net.now) + 1
      ensures net.live == net.env.step(old(net.now), old(net.live)) && net.hist == old(net.hist) + [net.live]
      ensures Progress(rd, st0, store.State(), log, runs, net.hist, mapped, NextSeq(store.lastPulled, to, r.Ok?))
      ensures r.Ok? ==> r.value == Report(rd, st0, log)
      ensures r.Err? ==> r.error in {Unreachable, RangeOverflow}
      ensures r == Err(Unreachable) ==> !net.env.fault(old(net.now)).Fine?
      ensures OnlyDelivered(old(store.saves), store.saves)
    {
      ProgressFacts(rd, st0, store.State(), log0, runs, net.hist, mapped, from);
      hide Handle, Fold, Outputs, Unopened, Covered, Genuine, GoneDuring, InRuns, Aligned, Progress, Kept, Extends;
      hide Inv, EnvBounded, Bounded, PullAnswer, OnlyDelivered, Report;
      OnlyDeliveredStart(store.saves);
      ghost var h0 := net.hist;
      log := log0;
      var raw := net.PullRequest(SatPred(from), to);
      ProgressWaits(rd, st0, store.State(), log0, runs, h0, net.live, mapped, from);
      if raw.Err? {
        ProgressShrinks(rd, st0, store.State(), log0, runs, net.hist, mapped, from, store.lastPulled + 1);
        return Err(raw.error), log;
      }
      var packets := raw.value;
      if packets == [] {
        PulledKeepsInv(store.State(), to);
        ProgressEmpty(rd, st0, store.State(), log0, runs, net.hist, mapped, from, to);
        store.SetLastPulledSeq(to);
        return Ok((messages, errors)), log;
      }
      r, log := HandlePulled(from, to, packets, messages, errors, st0, log0, runs, mapped);
    }

    /** Handle a non-empty batch that was just pulled. */
    method HandlePulled(from: nat, to: nat, packets: seq<Packet>, messages: seq<Message>, errors: nat,
                        ghost st0: StoreState, ghost log0: seq<Packet>, ghost runs: seq<Run>, ghost mapped: nat)
      returns (r: Result<(seq<Message>, nat)>, ghost log: seq<Packet>)
      requires store.Valid() && Progress(rd, st0, store.State(), log0, runs, net.hist, mapped, from)
      requires (messages, errors) == Report(rd, st0, log0)
      requires 0 < from <= to && forall s: nat :: from <= s <= to ==> InRuns(runs, s)
      requires mapped < |net.hist| && PullAnswer(net.hist[|net.hist| - 1], from - 1, to, packets)
      modifies store
      ensures store.Valid()
      ensures Progress(rd, st0, store.State(), log, runs, net.hist, mapped, NextSeq(store.lastPulled, to, r.Ok?))
      ensures r.Ok? ==> r.value == Report(rd, st0, log)
      ensures r.Err? ==> r.error == RangeOverflow
      ensures OnlyDelivered(old(store.saves), store.saves)
    {
      hide Handle, Fold, Outputs, Unopened, Covered, Genuine, GoneDuring, InRuns, Aligned, Progress, Extends, Report;
      hide Inv, PullAnswer, OnlyDelivered, SortedBy, SortBy, Insert, NextSeq, Tip, Orderly, Advance, Opened;
      ghost var hist := net.hist;
      ProgressFacts(rd, st0, store.State(), log0, runs, hist, mapped, from);
      PulledInOrder(hist[|hist| - 1], from - 1, to, packets);
      var sorted := Resorted(packets, BY_SEQ);
      ghost var st1 := store.State();
      var done;
      r, log, done := HandleBatch(sorted, messages, errors, st0, log0);
      ProgressBatch(rd, st0, st1, store.State(), log0, log, runs, hist, mapped, from, to, packets, done);
    }

    /** Pull the part of one run that lies above the cursor. */
    method PullRun(run: Run, messages0: seq<Message>, errors0: nat,
                   ghost st0: StoreState, ghost log0: seq<Packet>, ghost runs: seq<Run>, ghost mapped: nat)
      returns (r: Result<(seq<Message>, nat)>, ghost log: seq<Packet>)
      requires Valid()
      requires Progress(rd, st0, store.State(), log0, runs, net.hist, mapped, Max(store.lastPulled + 1, run.begin))
      requires (messages0, errors0) == Report(rd, st0, log0)
      requires store.lastPulled < run.end < U64_MAX && run.begin <= run.end
      requires forall s: nat :: run.begin <= s <= run.end ==> InRuns(runs, s)
      modifies net`live, net`now, net`hist, store
      ensures Valid() && old(net.now) <= net.now && old(net.hist) <= net.hist
      ensures Kept(net.env, old(net.live), net.hist, old(net.now), net.live)
      ensures r.Ok? ==>
                Progress(rd, st0, store.State(), log, runs, net.hist, mapped, Max(store.lastPulled, run.end) + 1)
      ensures r.Ok? ==> r.value == Report(rd, st0, log)
      ensures r.Err? ==> Progress(rd, st0, store.State(), log, runs, net.hist, mapped, store.lastPulled + 1)
      ensures r.Err? ==> r.error in {Unreachable, RangeOverflow}
      ensures r == Err(Unreachable) ==> old(net.now) < net.now && !net.env.fault(net.now - 1).Fine?
      ensures OnlyDelivered(old(store.saves), store.saves)
    {
      hide Report, EnvBounded, Bounded, Inv, Covered, Genuine, GoneDuring, InRuns, Kept, Progress;
      ProgressFacts(rd, st0, store.State(), log0, runs, net.hist, mapped, Max(store.lastPulled + 1, run.begin));
      KeptStart(net.env, net.hist, net.live);
      var messages, errors := messages0, errors0;
      log := log0;
      var s := Max(run.begin, SatAdd(store.lastPulled, 1));
      ghost var frontier: nat := Max(run.begin, store.lastPulled + 1);
      while s <= run.end
        invariant Valid() && old(net.now) <= net.now && old(net.hist) <= net.hist
        invariant Kept(net.env, old(net.live), net.hist, old(net.now), net.live)
        invariant Progress(rd, st0, store.State(), log, runs, net.hist, mapped, frontier)
        invariant (messages, errors) == Report(rd, st0, log)
        invariant run.begin <= s == Min(frontier, U64_MAX) && s > 0
        invariant s > run.end ==> frontier == Max(store.lastPulled, run.end) + 1
        invariant OnlyDelivered(old(store.saves), store.saves)
        decreases run.end + 1 - s
      {
        var batchEnd := Min(SatAdd(s, RECEIVE_PULL_BATCH - 1), run.end);
        KeptStep(net.env, old(net.live), net.hist, old(net.now), net.live, net.now);
        var b;
        b, log := PullBatch(s, batchEnd, messages, errors, st0, log, runs, mapped);
        if b.Err? {
          return Err(b.error), log;
        }
        messages, errors := b.value.0, b.value.1;
        frontier := Max(store.lastPulled, batchEnd) + 1;
        s := NextPull(store.lastPulled, batchEnd);
      }
      return Ok((messages, errors)), log;
    }

    /** Pull what is new in run `i`, if anything is. */
    method PullNext(runs: seq<Run>, i: nat, messages: seq<Message>, errors: nat,
                    ghost st0: StoreState, ghost log0: seq<Packet>, ghost mapped: nat)
      returns (r: Result<(seq<Message>, nat)>, ghost log: seq<Packet>)
      requires Valid() && Ascending(runs) && i < |runs| && runs[i].end < U64_MAX
      requires Progress(rd, st0, store.State(), log0, runs, net.hist, mapped, Frontier(runs, i, store.lastPulled))
      requires (messages, errors) == Report(rd, st0, log0)
      modifies net`live, net`now, net`hist, store
      ensures Valid() && old(net.now) <= net.now && old(net.hist) <= net.hist
      ensures Kept(net.env, old(net.live), net.hist, old(net.now), net.live)
      ensures Progress(rd, st0, store.State(), log, runs, net.hist, mapped,
                       if r.Ok? then Frontier(runs, i + 1, store.lastPulled) else store.lastPulled + 1)
      ensures r.Ok? ==> r.value == Report(rd, st0, log)
      ensures r.Err? ==> r.error in {Unreachable, RangeOverflow}
      ensures r == Err(Unreachable) ==> old(net.now) < net.now && !net.env.fault(net.now - 1).Fine?
      ensures OnlyDelivered(old(store.saves), store.saves)
    {
      hide Report, EnvBounded, Bounded, Inv, Covered, Genuine, GoneDuring, InRuns, Kept, Progress;
      var run := runs[i];
      KeptStart(net.env, net.hist, net.live);
      BetweenRuns(runs, i);
      if run.end <= store.lastPulled {
        return Ok((messages, errors)), log0;
      }
      ProgressSkips(rd, st0, store.State(), log0, runs, net.hist, mapped, Frontier(runs, i, store.lastPulled),
                    Max(store.lastPulled + 1, run.begin));
      r, log := PullRun(run, messages, errors, st0, log0, runs, mapped);
    }

    /** Forward pull over all runs. */
    method PullAll(runs: seq<Run>, ghost mapped: nat)
      returns (r: Result<(seq<Message>, nat)>, ghost log: seq<Packet>, ghost frontier: nat)
      requires Valid() && Ascending(runs) && mapped == net.now
      requires forall i :: 0 <= i < |runs| ==> runs[i].end < U64_MAX
      modifies net`live, net`now, net`hist, store
      ensures Valid() && old(net.now) <= net.now && old(net.hist) <= net.hist
      ensures Kept(net.env, old(net.live), net.hist, old(net.now), net.live)
      ensures Progress(rd, old(store.State()), store.State(), log, runs, net.hist, mapped, frontier)
      ensures frontier == if r.Ok? then Frontier(runs, |runs|, store.lastPulled) else store.lastPulled + 1
      ensures r.Ok? ==> r.value == Report(rd, old(store.State()), log)
      ensures r.Err? ==> r.error in {Unreachable, RangeOverflow}
      ensures r == Err(Unreachable) ==> old(net.now) < net.now && !net.env.fault(net.now - 1).Fine?
      ensures OnlyDelivered(old(store.saves), store.saves)
    {
      NothingHandled(rd, store.State(), runs, net.hist, mapped);
      hide *;
      ghost var st0 := store.State();
      KeptStart(net.env, net.hist, net.live);
      OnlyDeliveredStart(store.saves);
      r, log := Ok(([], 0)), [];
      var i := 0;
      while i < |runs|
        invariant 0 <= i <= |runs|
        invariant Valid() && old(net.now) <= net.now && old(net.hist) <= net.hist
        invariant Kept(net.env, old(net.live), net.hist, old(net.now), net.live)
        invariant r.Ok? && r.value == Report(rd, st0, log)
        invariant Progress(rd, st0, store.State(), log, runs, net.hist, mapped, Frontier(runs, i, store.lastPulled))
        invariant OnlyDelivered(old(store.saves), store.saves)
      {
        ghost var h1, l1, saves1 := net.hist, net.live, store.saves;
        r, log := PullNext(runs, i, r.value.0, r.value.1, st0, log, mapped);
        KeptTrans(net.env, old(net.live), h1, old(net.now), l1, net.hist, net.live);
        OnlyDeliveredTrans(old(store.saves), saves1, store.saves);
        if r.Err? {
          return r, log, store.lastPulled + 1;
        }
        i := i + 1;
      }
      frontier := Frontier(runs, i, store.lastPulled);
    }

    /** Seqs of confirmed local messages that are no longer in the map. */
    method Tombstones(runs: seq<Run>) returns (tombstones: set<nat>)
      requires Ascending(runs)
      ensures forall s :: s in tombstones <==> !InRuns(runs, s) && HasConfirmed(store.messages, s)
    {
      var seqs := store.GetDeliveredServerSeqs();
      tombstones := {};
      var rest := seqs;
      while rest != {}
        invariant rest <= seqs
        invariant forall s :: s in tombstones <==> s in seqs && s !in rest && !InRuns(runs, s)
        decreases rest
      {
        var s :| s in rest;
        var found := SeqInRuns(runs, s);
        if !found {
          tombstones := tombstones + {s};
        }
        rest := rest - {s};
      }
    }

    /** Delete local messages that were confirmed but whose seq is no longer in the map. */
    method Sweep(runs: seq<Run>)
      requires store.Valid() && Ascending(runs)
      modifies store
      ensures store.Valid()
      ensures store.State() == old(store.State()).(tables := Swept(old(store.AllTables()), runs))
      ensures store.saves == old(store.saves)
    {
      SweepKeepsInv(store.State(), runs);
      var tombstones := Tombstones(runs);
      SweptIsDeletion(store.AllTables(), runs, tombstones);
      if tombstones != {} {
        store.DeleteMessagesBySeqs(tombstones);
      } else {
        NothingToDelete(store.AllTables());
      }
    }

    /** Fetch new messages; returns them with the number of packets that could not be opened. */
    method Receive() returns (r: Result<(seq<Message>, nat)>, ghost tr: Trace)
      requires Valid()
      modifies net`live, net`now, net`hist, store
      ensures Valid() && old(net.now) < net.now && old(net.hist) <= net.hist
      ensures Kept(net.env, old(net.live), net.hist, old(net.now), net.live)
      ensures Outcome(rd, old(store.State()), store.State(), tr, net.hist, old(net.now), net.now, r.Ok?)
      ensures r.Ok? ==> r.value == Report(rd, old(store.State()), tr.log)
      ensures r.Err? ==> r.error in {Unreachable, RangeOverflow}
      ensures r == Err(Unreachable) ==> !net.env.fault(net.now - 1).Fine?
      ensures OnlyDelivered(old(store.saves), store.saves)
    {
      hide Kept, Outcome, Progress, MapFaithful, Report, OnlyDelivered, Swept, Inv;
      ghost var t0 := net.now;
      ghost var st0 := store.State();
      tr := Trace([], [], 0, net.now);
      OnlyDeliveredStart(store.saves);
      var fetched := FetchRuns();
      NothingDone(rd, st0, tr, net.hist, t0, net.now);
      if fetched.Err? {
        return Err(fetched.error), tr;
      }
      var runs, lastTotal := fetched.value.0, fetched.value.1;
      EndsBounded(runs, lastTotal, net.hist, t0, net.now);
      ghost var mapped, h1, l1 := net.now, net.hist, net.live;
      ghost var log, frontier;
      var pulled;
      pulled, log, frontier := PullAll(runs, mapped);
      tr := Trace(log, runs, lastTotal, mapped);
      KeptTrans(net.env, old(net.live), h1, t0, l1, net.hist, net.live);
      FaithfulGrows(runs, lastTotal, h1, net.hist, t0, mapped);
      ghost var st1 := store.State();
      if pulled.Err? {
        StoppedEarly(rd, st0, st1, tr, net.hist, t0, net.now);
        return Err(pulled.error), tr;
      }
      if lastTotal > store.lastPulled {
        PulledKeepsInv(store.State(), lastTotal);
        store.SetLastPulledSeq(lastTotal);
      }
      Sweep(runs);
      RanToEnd(rd, st0, st1, tr, net.hist, t0, net.now);
      return Ok(pulled.value), tr;
    }
  }

  lemma PulledInOrder(live: Live, after: nat, to: nat, packets: seq<Packet>)
    requires PullAnswer(live, after, to, packets)
    ensures SortedBy(packets, BY_SEQ)
    ensures forall i, j :: 0 <= i < j < |packets| ==> packets[i].seqNo < packets[j].seqNo
    ensures forall i :: 0 <= i < |packets| ==> after < packets[i].seqNo
  {
  }

  lemma PulledKeepsInv(st: StoreState, s: nat)
    requires Inv(st)
    ensures Inv(SetPulled(st, s))
  {
  }

  /** `FetchRuns` failed: nothing was done. */
  lemma NothingDone(rd: Reader, st0: StoreState, tr: Trace, hist: seq<Live>, t0: nat, t1: nat)
    requires t0 <= t1 <= |hist| && tr == Trace([], [], 0, t0) && Inv(st0)
    ensures Outcome(rd, st0, st0, tr, hist, t0, t1, false)
  {
  }

  /** A pull failed or a header overflowed. */
  lemma StoppedEarly(rd: Reader, st0: StoreState, st: StoreState, tr: Trace, hist: seq<Live>, t0: nat, t1: nat)
    requires MapFaithful(tr.runs, tr.lastTotal, hist, t0, tr.mapped) && t1 == |hist|
    requires Progress(rd, st0, st, tr.log, tr.runs, hist, tr.mapped, st.lastPulled + 1)
    ensures Outcome(rd, st0, st, tr, hist, t0, t1, false)
  {
  }

  /** All runs were pulled; the cursor then catches up with `last_seq` and the sweep runs. */
  lemma RanToEnd(rd: Reader, st0: StoreState, st: StoreState, tr: Trace, hist: seq<Live>, t0: nat, t1: nat)
    requires MapFaithful(tr.runs, tr.lastTotal, hist, t0, tr.mapped) && t1 == |hist|
    requires Progress(rd, st0, st, tr.log, tr.runs, hist, tr.mapped, Frontier(tr.runs, |tr.runs|, st.lastPulled))
    ensures var caughtUp := if tr.lastTotal > st.lastPulled then SetPulled(st, tr.lastTotal) else st;
            Outcome(rd, st0, caughtUp.(tables := Swept(st.tables, tr.runs)), tr, hist, t0, t1, true)
  {
    FrontierPastRuns(tr.runs, st.lastPulled);
    CursorWithinMap(rd, st0, st, tr.log, tr.runs, tr.lastTotal);
  }

  ghost predicate HasConfirmed(messages: Messages, s: nat) {
    exists id :: id in messages && Confirmed(messages[id]) && messages[id].serverSeq == Some(s)
  }

  /** The first seq not yet dealt with after the runs before `i`. */
  function Frontier(runs: seq<Run>, i: nat, cursor: nat): nat
    requires i <= |runs|
  {
    Max(cursor, if i == 0 then 0 else runs[i - 1].end) + 1
  }

  lemma CursorWithinMap(rd: Reader, st0: StoreState, st: StoreState, log: seq<Packet>, runs: seq<Run>, lastTotal: nat)
    requires Aligned(rd, st0, st, log)
    requires st.lastPulled == Reached(rd, st0.lastPulled, log) || InRuns(runs, st.lastPulled)
    requires forall i :: 0 <= i < |runs| ==> runs[i].end <= lastTotal
    ensures Max(lastTotal, st.lastPulled) == Max(lastTotal, Reached(rd, st0.lastPulled, log))
  {
  }

  lemma FrontierPastRuns(runs: seq<Run>, cursor: nat)
    requires Ascending(runs)
    ensures forall s: nat :: InRuns(runs, s) ==> s < Frontier(runs, |runs|, cursor)
  {
    assert forall i :: 0 <= i < |runs| ==> runs[i].end <= runs[|runs| - 1].end;
  }

  /** What `receive` returns: the messages, and how many packets did not open. */
  ghost function Report(rd: Reader, st0: StoreState, log: seq<Packet>): (seq<Message>, nat) {
    (Outputs(rd, st0.tables, log), Unopened(rd, log))
  }

  lemma ReportSnoc(rd: Reader, st0: StoreState, st: StoreState, log: seq<Packet>, p: Packet)
    requires Aligned(rd, st0, st, log)
    ensures var out := Handle(rd, st.tables, p).1;
            && Report(rd, st0, log + [p]).0 == Report(rd, st0, log).0 + (if out.Some? then [out.value] else [])
            && Report(rd, st0, log + [p]).1 == Report(rd, st0, log).1 + (if Opened(rd, p).None? then 1 else 0)
  {
    FoldSnoc(rd, st0.tables, log, p);
  }

  /** `log` adds only packets of the batch, and accounts for the first `done` of them. */
  ghost predicate Extends(rd: Reader, log0: seq<Packet>, log: seq<Packet>, packets: seq<Packet>, done: nat) {
    && log0 <= log
    && (forall i :: |log0| <= i < |log| ==> log[i] in packets)
    && done <= |packets|
    && (forall i :: 0 <= i < done ==> Covered(rd, log, packets[i].seqNo))
  }

  /** The cursor after a batch: past the last packet handled in it, if any. */
  function Tip(rd: Reader, cursor: nat, log0: seq<Packet>, log: seq<Packet>): nat {
    if |log| > |log0| then Advance(rd, log[|log| - 1]) else cursor
  }

  lemma ExtendsSkip(rd: Reader, log0: seq<Packet>, log: seq<Packet>, packets: seq<Packet>, done: nat)
    requires Extends(rd, log0, log, packets, done) && done < |packets| && log != []
    requires log[|log| - 1].seqNo < packets[done].seqNo <= Advance(rd, log[|log| - 1])
    ensures Extends(rd, log0, log, packets, done + 1)
  {
    assert InBody(rd, log, packets[done].seqNo);
  }

  lemma ExtendsSnoc(rd: Reader, log0: seq<Packet>, log: seq<Packet>, packets: seq<Packet>, done: nat)
    requires Extends(rd, log0, log, packets, done) && done < |packets|
    ensures Extends(rd, log0, log + [packets[done]], packets, done + 1)
  {
    CoveredGrows(rd, log, packets[done]);
  }

  /** Every message saved since was received from the server. */
  ghost predicate OnlyDelivered(before: seq<Message>, after: seq<Message>) {
    before <= after && forall i :: |before| <= i < |after| ==> after[i].status.Delivered?
  }

  lemma OnlyDeliveredStart(saves: seq<Message>)
    ensures OnlyDelivered(saves, saves)
  {
  }

  lemma OnlyDeliveredTrans(a: seq<Message>, b: seq<Message>, c: seq<Message>)
    requires OnlyDelivered(a, b) && OnlyDelivered(b, c)
    ensures OnlyDelivered(a, c)
  {
    assert forall i :: |a| <= i < |b| ==> c[i] == b[i];
  }

  lemma Unreadable(rd: Reader, t: Tables, p: Packet)
    requires Opened(rd, p).None?
    ensures Handle(rd, t, p) == (t, None)
  {
  }

  lemma InvDistinct(st: StoreState)
    requires Inv(st)
    ensures DistinctSeqs(st.tables.messages)
  {
  }

  lemma OwnerUnique(messages: Messages, s: nat, id: Id)
    requires DistinctSeqs(messages)
    requires id in messages && messages[id].serverSeq == Some(s)
    ensures HasSeq(messages, s) && Owner(messages, s) == id
  {
  }

  /** The store is what handling `log` made of `st0`, and its cursor is past every packet of `log`. */
  ghost predicate Aligned(rd: Reader, st0: StoreState, st: StoreState, log: seq<Packet>) {
    && st.tables == Fold(rd, st0.tables, log)
    && st.journal == st0.journal
    && st.lastPulled >= st0.lastPulled
    && st.nextSend == Max(st0.nextSend, st.lastPulled + 1)
    && Orderly(rd, log, st0.lastPulled)
    && forall i :: 0 <= i < |log| ==> Advance(rd, log[i]) <= st.lastPulled
  }

  lemma AlignedSnoc(rd: Reader, st0: StoreState, st: StoreState, log: seq<Packet>, p: Packet)
    requires Aligned(rd, st0, st, log) && st.lastPulled < p.seqNo
    ensures Aligned(rd, st0, SetPulled(st.(tables := Handle(rd, st.tables, p).0), Advance(rd, p)), log + [p])
  {
    FoldSnoc(rd, st0.tables, log, p);
  }

  lemma BetweenRuns(runs: seq<Run>, i: nat)
    requires Ascending(runs) && i < |runs|
    ensures forall s: nat :: s < runs[i].begin && (i > 0 ==> runs[i - 1].end < s) ==> !InRuns(runs, s)
    ensures forall s: nat :: runs[i].begin <= s <= runs[i].end ==> InRuns(runs, s)
    ensures i > 0 ==> runs[i - 1].end < runs[i].begin
  {
    assert forall k :: 0 <= k < i ==> runs[k].end <= runs[i - 1].end;
  }

  lemma EndsBounded(runs: seq<Run>, lastTotal: nat, hist: seq<Live>, t0: nat, t1: nat)
    requires MapFaithful(runs, lastTotal, hist, t0, t1)
    requires forall k :: 0 <= k < |hist| ==> Bounded(hist[k])
    ensures Ascending(runs) && forall i :: 0 <= i < |runs| ==> runs[i].end < U64_MAX
  {
    forall i | 0 <= i < |runs|
      ensures runs[i].end < U64_MAX
    {
      assert InRuns(runs, runs[i].end);
      var k :| t0 <= k < t1 && k < |hist| && runs[i].end in hist[k];
    }
  }

  lemma FaithfulGrows(runs: seq<Run>, lastTotal: nat, h: seq<Live>, h': seq<Live>, t0: nat, t1: nat)
    requires MapFaithful(runs, lastTotal, h, t0, t1) && h <= h'
    ensures MapFaithful(runs, lastTotal, h', t0, t1)
  {
    assert forall k :: 0 <= k < |h| ==> h'[k] == h[k];
    forall s: nat | LiveDuring(h, t0, t1, s)
      ensures LiveDuring(h', t0, t1, s)
    {
      var k :| t0 <= k < t1 && k < |h| && s in h[k];
      assert s in h'[k];
    }
    forall s: nat | GoneDuring(h, t0, t1, s)
      ensures GoneDuring(h', t0, t1, s)
    {
      var k :| t0 <= k < t1 && k < |h| && s !in h[k];
      assert s !in h'[k];
    }
  }

  lemma SweptIsDeletion(t: Tables, runs: seq<Run>, tombstones: set<nat>)
    requires DistinctSeqs(t.messages)
    requires forall s :: s in tombstones <==> !InRuns(runs, s) && HasConfirmed(t.messages, s)
    ensures Swept(t, runs) == DeleteSeqs(t, tombstones)
  {
    forall id | id in t.messages
      ensures IsTombstone(t.messages[id], runs) <==>
              t.messages[id].serverSeq.Some? && t.messages[id].serverSeq.value in tombstones
    {
    }
    assert Swept(t, runs).messages == DeleteSeqs(t, tombstones).messages;
  }

  lemma NothingToDelete(t: Tables)
    ensures DeleteSeqs(t, {}) == t
  {
    assert DeleteSeqs(t, {}).messages == t.messages;
  }

  /** Every seq of the map between the old cursor and `frontier` was handled, lies in a body that was
      jumped over, or was gone when its batch was pulled; the cursor is below `frontier`. */
  ghost predicate Progress(rd: Reader, st0: StoreState, st: StoreState, log: seq<Packet>, runs: seq<Run>,
                           hist: seq<Live>, mapped: nat, frontier: nat)
  {
    && mapped <= |hist|
    && Aligned(rd, st0, st, log)
    && st.lastPulled < frontier
    && (st.lastPulled == Reached(rd, st0.lastPulled, log) || InRuns(runs, st.lastPulled))
    && (forall i :: 0 <= i < |log| ==> Genuine(log[i], runs, hist, mapped, |hist|))
    && (forall s: nat :: InRuns(runs, s) && st0.lastPulled < s < frontier ==>
          Covered(rd, log, s) || GoneDuring(hist, mapped, |hist|, s))
  }

  lemma NothingHandled(rd: Reader, st: StoreState, runs: seq<Run>, hist: seq<Live>, mapped: nat)
    requires mapped <= |hist| && Inv(st)
    ensures Progress(rd, st, st, [], runs, hist, mapped, st.lastPulled + 1)
    ensures Progress(rd, st, st, [], runs, hist, mapped, Frontier(runs, 0, st.lastPulled))
    ensures Fold(rd, st.tables, []) == st.tables && Report(rd, st, []) == ([], 0)
  {
  }

  lemma ProgressFacts(rd: Reader, st0: StoreState, st: StoreState, log: seq<Packet>, runs: seq<Run>,
                      hist: seq<Live>, mapped: nat, frontier: nat)
    requires Progress(rd, st0, st, log, runs, hist, mapped, frontier)
    ensures mapped <= |hist| && Aligned(rd, st0, st, log) && st.lastPulled < frontier
  {
  }

  lemma GenuineGrows(p: Packet, runs: seq<Run>, hist: seq<Live>, live: Live, mapped: nat)
    requires Genuine(p, runs, hist, mapped, |hist|)
    ensures Genuine(p, runs, hist + [live], mapped, |hist| + 1)
  {
    var k :| mapped <= k < |hist| && p.seqNo in hist[k] && hist[k][p.seqNo] == p.payload;
    assert (hist + [live])[k] == hist[k];
  }

  /** A further request keeps the progress made. */
  lemma ProgressWaits(rd: Reader, st0: StoreState, st: StoreState, log: seq<Packet>, runs: seq<Run>,
                      hist: seq<Live>, live: Live, mapped: nat, frontier: nat)
    requires Progress(rd, st0, st, log, runs, hist, mapped, frontier)
    ensures Progress(rd, st0, st, log, runs, hist + [live], mapped, frontier)
  {
    forall i | 0 <= i < |log|
      ensures Genuine(log[i], runs, hist + [live], mapped, |hist| + 1)
    {
      GenuineGrows(log[i], runs, hist, live, mapped);
    }
    forall s: nat | InRuns(runs, s) && st0.lastPulled < s < frontier && !Covered(rd, log, s)
      ensures GoneDuring(hist + [live], mapped, |hist| + 1, s)
    {
      GoneGrows(hist, live, mapped, s);
    }
  }

  /** Where pulling goes on after a batch up to `to`; after an error, just above the cursor. */
  function NextSeq(cursor: nat, to: nat, ok: bool): nat {
    if ok then Max(cursor, to) + 1 else cursor + 1
  }

  lemma ProgressShrinks(rd: Reader, st0: StoreState, st: StoreState, log: seq<Packet>, runs: seq<Run>,
                        hist: seq<Live>, mapped: nat, frontier: nat, frontier': nat)
    requires Progress(rd, st0, st, log, runs, hist, mapped, frontier)
    requires st.lastPulled < frontier' <= frontier
    ensures Progress(rd, st0, st, log, runs, hist, mapped, frontier')
  {
  }

  /** A frontier may move over seqs that are not in the map. */
  lemma ProgressSkips(rd: Reader, st0: StoreState, st: StoreState, log: seq<Packet>, runs: seq<Run>,
                      hist: seq<Live>, mapped: nat, frontier: nat, frontier': nat)
    requires Progress(rd, st0, st, log, runs, hist, mapped, frontier)
    requires frontier <= frontier' && forall s: nat :: frontier <= s < frontier' ==> !InRuns(runs, s)
    ensures Progress(rd, st0, st, log, runs, hist, mapped, frontier')
  {
  }

  lemma ProgressEmpty(rd: Reader, st0: StoreState, st: StoreState, log: seq<Packet>, runs: seq<Run>,
                      hist: seq<Live>, mapped: nat, from: nat, to: nat)
    requires Progress(rd, st0, st, log, runs, hist, mapped, from)
    requires 0 < from <= to && mapped < |hist| && PullAnswer(hist[|hist| - 1], from - 1, to, [])
    requires InRuns(runs, to)
    ensures Progress(rd, st0, SetPulled(st, to), log, runs, hist, mapped, to + 1)
  {
    forall s: nat | from <= s <= to
      ensures GoneDuring(hist, mapped, |hist|, s)
    {
      assert s !in hist[|hist| - 1];
    }
  }

  lemma CoveredPrefix(rd: Reader, log0: seq<Packet>, log: seq<Packet>, s: nat)
    requires log0 <= log && Covered(rd, log0, s)
    ensures Covered(rd, log, s)
  {
    if Handled(log0, s) {
      var i :| 0 <= i < |log0| && log0[i].seqNo == s;
      assert log[i].seqNo == s;
    } else {
      var i :| 0 <= i < |log0| && log0[i].seqNo < s <= Advance(rd, log0[i]);
      assert log[i].seqNo < s <= Advance(rd, log[i]);
    }
  }

  /** Inside the batch: a seq was not live when the batch was pulled, or one of the packets accounts for it. */
  lemma BatchCovers(rd: Reader, cursor: nat, log0: seq<Packet>, log: seq<Packet>, hist: seq<Live>, mapped: nat,
                    from: nat, to: nat, packets: seq<Packet>, done: nat, s: nat)
    requires Extends(rd, log0, log, packets, done)
    requires 0 < from && mapped < |hist| && PullAnswer(hist[|hist| - 1], from - 1, to, packets)
    requires done < |packets| ==> cursor < packets[done].seqNo
    requires from <= s <= to && (done == |packets| || s <= cursor)
    ensures Covered(rd, log, s) || GoneDuring(hist, mapped, |hist|, s)
  {
    if s in hist[|hist| - 1] {
      var k :| 0 <= k < |packets| && packets[k].seqNo == s;
      assert k < done;
    }
  }

  /** Beyond the batch: only a header's body can have carried the cursor there. */
  lemma BeyondBatch(rd: Reader, cursor0: nat, log0: seq<Packet>, log: seq<Packet>, from: nat, to: nat,
                    packets: seq<Packet>, s: nat)
    requires log0 <= log && forall i :: |log0| <= i < |log| ==> log[i] in packets
    requires forall i :: 0 <= i < |packets| ==> packets[i].seqNo <= to
    requires cursor0 < from <= to < s <= Tip(rd, cursor0, log0, log)
    ensures Covered(rd, log, s)
  {
    var i := |log| - 1;
    assert log[i] in packets;
    assert log[i].seqNo < s <= Advance(rd, log[i]);
  }

  /** Handling a pulled batch, to its end or up to an error, moves the frontier along. */
  lemma ProgressBatch(rd: Reader, st0: StoreState, st1: StoreState, st: StoreState, log0: seq<Packet>, log: seq<Packet>,
                      runs: seq<Run>, hist: seq<Live>, mapped: nat, from: nat, to: nat, packets: seq<Packet>, done: nat)
    requires Progress(rd, st0, st1, log0, runs, hist, mapped, from)
    requires Aligned(rd, st0, st, log) && Extends(rd, log0, log, packets, done)
    requires 0 < from <= to && forall s: nat :: from <= s <= to ==> InRuns(runs, s)
    requires mapped < |hist| && PullAnswer(hist[|hist| - 1], from - 1, to, packets)
    requires st.lastPulled == Tip(rd, st1.lastPulled, log0, log)
    requires done < |packets| ==> st.lastPulled < packets[done].seqNo
    ensures Progress(rd, st0, st, log, runs, hist, mapped, NextSeq(st.lastPulled, to, done == |packets|))
  {
    forall i | 0 <= i < |log|
      ensures Genuine(log[i], runs, hist, mapped, |hist|)
    {
      if i < |log0| {
        assert log[i] == log0[i];
      } else {
        assert log[i] in packets;
        assert InRuns(runs, log[i].seqNo);
        assert log[i].seqNo in hist[|hist| - 1];
      }
    }
    forall s: nat | InRuns(runs, s) && st0.lastPulled < s && (done == |packets| || s <= st.lastPulled)
                    && s <= Max(st.lastPulled, to)
      ensures Covered(rd, log, s) || GoneDuring(hist, mapped, |hist|, s)
    {
      if s < from {
        if Covered(rd, log0, s) {
          CoveredPrefix(rd, log0, log, s);
        }
      } else if s <= to {
        BatchCovers(rd, st.lastPulled, log0, log, hist, mapped, from, to, packets, done, s);
      } else {
        BeyondBatch(rd, st1.lastPulled, log0, log, from, to, packets, s);
      }
    }
  }
  /** Invariant of the local `skip_until`: it is set exactly while a body is being jumped over. */
  ghost predicate SkipRight(rd: Reader, log: seq<Packet>, skip: Option<nat>, cursor: nat,
                            packets: seq<Packet>, done: nat)
    requires done <= |packets|
  {
    match skip
    case None => forall i :: done <= i < |packets| ==> cursor < packets[i].seqNo
    case Some(until) =>
      && log != [] && until == cursor == Advance(rd, log[|log| - 1])
      && forall i :: done <= i < |packets| ==> log[|log| - 1].seqNo < packets[i].seqNo
  }

  /** The client sorts what the server already returned in order. */
  method Resorted<T>(xs: seq<T>, key: T -> nat) returns (sorted: seq<T>)
    requires SortedBy(xs, key)
    ensures sorted == xs
  {
    SortOfSorted(xs, key);
    sorted := SortBy(xs, key);
  }

  lemma AscendingSorted(runs: seq<Run>)
    requires Ascending(runs)
    ensures SortedBy(runs, BY_BEGIN)
  {
  }

  /** The pages read so far are faithful for every seq up to `after`. */
  ghost predicate PagesSoFar(runs: seq<Run>, last: nat, hist: seq<Live>, t0: nat, t1: nat, after: nat) {
    && Ascending(runs)
    && EndsAtMost(runs, after) && EndsAtMost(runs, last)
    && OnlyLive(runs, hist, t0, t1) && RestGone(runs, hist, t0, t1, after)
    && (last > 0 ==> LiveDuring(hist, t0, t1, last))
  }

  ghost predicate OnlyLive(runs: seq<Run>, hist: seq<Live>, t0: nat, t1: nat) {
    forall s: nat :: InRuns(runs, s) ==> 0 < s && LiveDuring(hist, t0, t1, s)
  }

  /** Whatever is not in the runs, up to `after`, was absent at some time. */
  ghost predicate RestGone(runs: seq<Run>, hist: seq<Live>, t0: nat, t1: nat, after: nat) {
    forall s: nat :: 0 < s <= after && !InRuns(runs, s) ==> GoneDuring(hist, t0, t1, s)
  }

  ghost predicate EndsAtMost(runs: seq<Run>, n: nat) {
    forall i :: 0 <= i < |runs| ==> runs[i].end <= n
  }

  lemma PageAscending(runs: seq<Run>, live: Live, after: nat, m: MapResult)
    requires Ascending(runs) && EndsAtMost(runs, after) && MapAnswer(live, after, 0, m)
    ensures Ascending(runs + m.runs)
  {
    var all := runs + m.runs;
    forall i, j | 0 <= i < j < |all|
      ensures all[i].end < all[j].begin
    {
      assert j >= |runs| ==> all[j] == m.runs[j - |runs|];
      assert i >= |runs| ==> all[i] == m.runs[i - |runs|];
    }
  }

  lemma EndsOfConcat(xs: seq<Run>, ys: seq<Run>, k: nat, m: nat, n: nat)
    requires EndsAtMost(xs, k) && EndsAtMost(ys, m) && k <= n && m <= n
    ensures EndsAtMost(xs + ys, n)
  {
  }

  lemma LastEndGreatest(runs: seq<Run>)
    requires Maximal(runs)
    ensures forall i :: 0 <= i < |runs| ==> runs[i].end <= runs[|runs| - 1].end
  {
  }

  lemma EndsLive(runs: seq<Run>, live: Live)
    requires Maximal(runs)
    requires forall s: nat :: InRuns(runs, s) ==> s in live
    ensures forall i :: 0 <= i < |runs| ==> runs[i].end in live
  {
    forall i | 0 <= i < |runs|
      ensures runs[i].end in live
    {
      assert InRuns(runs, runs[i].end);
    }
  }

  lemma PageEnds(live: Live, after: nat, m: MapResult)
    requires MapAnswer(live, after, 0, m)
    ensures EndsAtMost(m.runs, m.lastSeq) && (m.runs != [] ==> EndsAtMost(m.runs, m.runs[|m.runs| - 1].end))
    ensures m.truncated ==> m.runs != []
    ensures m.runs != [] ==> after < m.runs[|m.runs| - 1].end && m.runs[|m.runs| - 1].end in live
  {
    hide Maximal, InRuns;
    LastEndGreatest(m.runs);
    EndsLive(m.runs, live);
  }

  lemma PageLive(runs: seq<Run>, last: nat, hist: seq<Live>, live: Live, t0: nat, after: nat, m: MapResult)
    requires t0 <= |hist|
    requires PagesSoFar(runs, last, hist, t0, |hist|, after)
    requires MapAnswer(live, after, 0, m)
    ensures OnlyLive(runs + m.runs, hist + [live], t0, |hist| + 1)
    ensures Max(last, m.lastSeq) > 0 ==> LiveDuring(hist + [live], t0, |hist| + 1, Max(last, m.lastSeq))
  {
    var h := hist + [live];
    assert h[|hist|] == live;
    InRunsOfAppend(runs, m.runs);
    forall s: nat | InRuns(runs + m.runs, s)
      ensures 0 < s && LiveDuring(h, t0, |h|, s)
    {
      if InRuns(runs, s) {
        LiveGrows(hist, live, t0, s);
      }
    }
    if last >= m.lastSeq && last > 0 {
      LiveGrows(hist, live, t0, last);
    }
  }

  lemma PageGone(runs: seq<Run>, last: nat, hist: seq<Live>, live: Live, t0: nat, after: nat, m: MapResult, s: nat)
    requires t0 <= |hist|
    requires PagesSoFar(runs, last, hist, t0, |hist|, after)
    requires MapAnswer(live, after, 0, m)
    requires 0 < s && !InRuns(runs + m.runs, s) && (m.truncated ==> s <= m.runs[|m.runs| - 1].end)
    ensures GoneDuring(hist + [live], t0, |hist| + 1, s)
  {
    var h := hist + [live];
    InRunsOfAppend(runs, m.runs);
    if s <= after {
      GoneGrows(hist, live, t0, s);
    } else {
      assert InRange(s, after, 0);
      assert s !in h[|hist|];
    }
  }

  lemma PageTruncated(runs: seq<Run>, last: nat, hist: seq<Live>, live: Live, t0: nat, after: nat, m: MapResult)
    requires t0 <= |hist|
    requires PagesSoFar(runs, last, hist, t0, |hist|, after)
    requires MapAnswer(live, after, 0, m) && m.truncated
    ensures m.runs != [] && after < m.runs[|m.runs| - 1].end && m.runs[|m.runs| - 1].end in live
    ensures PagesSoFar(runs + m.runs, Max(last, m.lastSeq), hist + [live], t0, |hist| + 1, m.runs[|m.runs| - 1].end)
  {
    hide InRuns, LiveDuring, GoneDuring, Ascending, EndsAtMost, OnlyLive, RestGone, MapAnswer;
    PageAscending(runs, live, after, m);
    PageLive(runs, last, hist, live, t0, after, m);
    PageEnds(live, after, m);
    var e := m.runs[|m.runs| - 1].end;
    EndsOfConcat(runs, m.runs, last, m.lastSeq, Max(last, m.lastSeq));
    EndsOfConcat(runs, m.runs, after, e, e);
    PageRest(runs, last, hist, live, t0, after, m);
  }

  lemma PageRest(runs: seq<Run>, last: nat, hist: seq<Live>, live: Live, t0: nat, after: nat, m: MapResult)
    requires t0 <= |hist|
    requires PagesSoFar(runs, last, hist, t0, |hist|, after)
    requires MapAnswer(live, after, 0, m) && m.truncated
    ensures RestGone(runs + m.runs, hist + [live], t0, |hist| + 1, m.runs[|m.runs| - 1].end)
  {
    hide InRuns, LiveDuring, GoneDuring, Ascending, EndsAtMost, OnlyLive, Maximal, IsLastSeq;
    forall s: nat | 0 < s <= m.runs[|m.runs| - 1].end && !InRuns(runs + m.runs, s)
      ensures GoneDuring(hist + [live], t0, |hist| + 1, s)
    {
      PageGone(runs, last, hist, live, t0, after, m, s);
    }
  }

  lemma PageFinal(runs: seq<Run>, last: nat, hist: seq<Live>, live: Live, t0: nat, after: nat, m: MapResult)
    requires t0 <= |hist|
    requires PagesSoFar(runs, last, hist, t0, |hist|, after)
    requires MapAnswer(live, after, 0, m) && !m.truncated
    ensures MapFaithful(runs + m.runs, Max(last, m.lastSeq), hist + [live], t0, |hist| + 1)
  {
    var h := hist + [live];
    assert h[|h| - 1] == live;
    hide InRuns, LiveDuring, GoneDuring, Ascending, Maximal, IsLastSeq;
    PageAscending(runs, live, after, m);
    PageLive(runs, last, hist, live, t0, after, m);
    PageEnds(live, after, m);
    EndsOfConcat(runs, m.runs, last, m.lastSeq, Max(last, m.lastSeq));
    forall s: nat | 0 < s && !InRuns(runs + m.runs, s)
      ensures GoneDuring(h, t0, |hist| + 1, s)
    {
      PageGone(runs, last, hist, live, t0, after, m, s);
    }
  }

  lemma LiveGrows(hist: seq<Live>, live: Live, t0: nat, s: nat)
    requires LiveDuring(hist, t0, |hist|, s)
    ensures LiveDuring(hist + [live], t0, |hist| + 1, s)
  {
    var k :| t0 <= k < |hist| && s in hist[k];
    assert s in (hist + [live])[k];
  }

  lemma GoneGrows(hist: seq<Live>, live: Live, t0: nat, s: nat)
    requires GoneDuring(hist, t0, |hist|, s)
    ensures GoneDuring(hist + [live], t0, |hist| + 1, s)
  {
    var k :| t0 <= k < |hist| && s !in hist[k];
    assert s !in (hist + [live])[k];
  }
}
