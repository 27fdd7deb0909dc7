/** Several calls of `receive` in a row: interrupted ones, and one more than needed. */
module ReceiveRuns {
  import opened Base
  import opened LocalStore
  import opened ReceiveSpec
  import opened ReceiveTheorems
  import opened Runs
  import opened Server
  import opened Types
  import D = Dialogue

  /** Every seq of `(lo, hi]` that was live during the requests `[t0, t1)` is covered by `log`. */
  ghost predicate CaughtUp(rd: Reader, log: seq<Packet>, lo: nat, hi: nat, hist: seq<Live>, t0: nat, t1: nat) {
    forall s: nat :: lo < s <= hi && LiveThroughout(hist, t0, t1, s) ==> Covered(rd, log, s)
  }

  lemma LiveThroughoutPart(hist: seq<Live>, hist': seq<Live>, t0: nat, t1: nat, t0': nat, t1': nat, s: nat)
    requires LiveThroughout(hist', t0, t1', s) && hist <= hist' && t0 <= t0' && t1 <= t1' && t1 <= |hist|
    ensures LiveThroughout(hist, t0', t1, s)
  {
    forall k | t0' <= k < t1 && k < |hist|
      ensures s in hist[k]
    {
      assert hist[k] == hist'[k];
    }
  }

  lemma CoveredByEither(rd: Reader, a: seq<Packet>, b: seq<Packet>, s: nat)
    requires Covered(rd, a, s) || Covered(rd, b, s)
    ensures Covered(rd, a + b, s)
  {
    var all := a + b;
    assert forall i :: 0 <= i < |a| ==> all[i] == a[i];
    assert forall i :: 0 <= i < |b| ==> all[|a| + i] == b[i];
    if Handled(a, s) {
      var i :| 0 <= i < |a| && a[i].seqNo == s;
      assert all[i].seqNo == s;
    } else if Handled(b, s) {
      var i :| 0 <= i < |b| && b[i].seqNo == s;
      assert all[|a| + i].seqNo == s;
    } else if InBody(rd, a, s) {
      var i :| 0 <= i < |a| && a[i].seqNo < s <= Advance(rd, a[i]);
      assert all[i].seqNo < s <= Advance(rd, all[i]);
    } else {
      var i :| 0 <= i < |b| && b[i].seqNo < s <= Advance(rd, b[i]);
      assert all[|a| + i].seqNo < s <= Advance(rd, all[|a| + i]);
    }
  }

  /** One call covers what stayed live up to the cursor it reaches, and everything if it ran to the end. */
  lemma OneCallCovers(rd: Reader, st0: StoreState, st1: StoreState, tr: Trace, hist: seq<Live>, t0: nat, t1: nat,
                      ok: bool, s: nat)
    requires Outcome(rd, st0, st1, tr, hist, t0, t1, ok)
    requires st0.lastPulled < s && LiveThroughout(hist, t0, t1, s) && (ok || s <= st1.lastPulled)
    ensures Covered(rd, tr.log, s)
  {
    hide Covered, Orderly, Genuine, Swept, Fold;
    assert InRuns(tr.runs, s);
    assert !GoneDuring(hist, tr.mapped, t1, s);
  }

  lemma CaughtUpNext(rd: Reader, st0: StoreState, st1: StoreState, tr: Trace, log: seq<Packet>, lo: nat,
                     hist: seq<Live>, hist': seq<Live>, t0: nat, t1: nat, t2: nat, ok: bool)
    requires CaughtUp(rd, log, lo, st0.lastPulled, hist, t0, t1) && hist <= hist' && t0 <= t1 <= t2 && t1 <= |hist|
    requires Outcome(rd, st0, st1, tr, hist', t1, t2, ok)
    ensures CaughtUp(rd, log + tr.log, lo, st1.lastPulled, hist', t0, t2)
    ensures ok ==> forall s: nat :: lo < s && LiveThroughout(hist', t0, t2, s) ==> Covered(rd, log + tr.log, s)
  {
    hide Covered, Outcome;
    forall s: nat | lo < s && LiveThroughout(hist', t0, t2, s) && (ok || s <= st1.lastPulled)
      ensures Covered(rd, log + tr.log, s)
    {
      LiveThroughoutPart(hist, hist', t0, t1, t0, t2, s);
      LiveThroughoutPart(hist', hist', t0, t2, t1, t2, s) by { InHistory(rd, st0, st1, tr, hist', t1, t2, ok); }
      if s > st0.lastPulled {
        OneCallCovers(rd, st0, st1, tr, hist', t1, t2, ok, s);
      }
      CoveredByEither(rd, log, tr.log, s);
    }
    if ok {
      assert forall s: nat :: lo < s <= st1.lastPulled && LiveThroughout(hist', t0, t2, s) ==> lo < s;
    }
  }

  lemma InHistory(rd: Reader, st0: StoreState, st1: StoreState, tr: Trace, hist: seq<Live>, t0: nat, t1: nat, ok: bool)
    requires Outcome(rd, st0, st1, tr, hist, t0, t1, ok)
    ensures t1 <= |hist|
  {
  }

  /** The log of everything handled so far stays in order, past the cursor of every call. */
  lemma OrderlyAppend(rd: Reader, st0: StoreState, st1: StoreState, tr: Trace, log: seq<Packet>, lo: nat,
                      hist: seq<Live>, t0: nat, t1: nat, ok: bool)
    requires Orderly(rd, log, lo) && lo <= st0.lastPulled
    requires forall i :: 0 <= i < |log| ==> Advance(rd, log[i]) <= st0.lastPulled
    requires Outcome(rd, st0, st1, tr, hist, t0, t1, ok)
    ensures Orderly(rd, log + tr.log, lo) && lo <= st1.lastPulled
    ensures forall i :: 0 <= i < |log + tr.log| ==> Advance(rd, (log + tr.log)[i]) <= st1.lastPulled
  {
  }

  lemma {:induction false} FoldAppend(rd: Reader, t: Tables, a: seq<Packet>, b: seq<Packet>)
    ensures Fold(rd, Fold(rd, t, a), b) == Fold(rd, t, a + b)
    decreases |b|
  {
    if b == [] {
      assert a + b == a;
    } else {
      var n := |b| - 1;
      FoldAppend(rd, t, a, b[..n]);
      assert a + b == (a + b[..n]) + [b[n]] && b == b[..n] + [b[n]];
      FoldSnoc(rd, t, a + b[..n], b[n]);
      FoldSnoc(rd, Fold(rd, t, a), b[..n], b[n]);
    }
  }

  /** The server held this packet at one of the requests `[t0, t1)`. */
  ghost predicate Seen(p: Packet, hist: seq<Live>, t0: nat, t1: nat) {
    exists k :: t0 <= k < t1 && k < |hist| && p.seqNo in hist[k] && hist[k][p.seqNo] == p.payload
  }

  ghost predicate AllSeen(log: seq<Packet>, hist: seq<Live>, t0: nat, t1: nat) {
    forall i :: 0 <= i < |log| ==> Seen(log[i], hist, t0, t1)
  }

  /** `runs` is the map of some of the requests `[t0, t1)`. */
  ghost predicate MappedWithin(runs: seq<Run>, hist: seq<Live>, t0: nat, t1: nat) {
    exists lastTotal, a, b :: t0 <= a <= b <= t1 && MapFaithful(runs, lastTotal, hist, a, b)
  }

  lemma SeenNext(rd: Reader, st0: StoreState, st1: StoreState, tr: Trace, log: seq<Packet>, hist: seq<Live>,
                 hist': seq<Live>, t0: nat, t1: nat, t2: nat, ok: bool)
    requires AllSeen(log, hist, t0, t1) && hist <= hist' && t0 <= t1 <= t2
    requires Outcome(rd, st0, st1, tr, hist', t1, t2, ok)
    ensures AllSeen(log + tr.log, hist', t0, t2)
    ensures ok ==> MappedWithin(tr.runs, hist', t0, t2)
  {
    hide Covered, Orderly, Fold, Swept, MapFaithful, InRuns;
    forall i | 0 <= i < |log + tr.log|
      ensures Seen((log + tr.log)[i], hist', t0, t2)
    {
      if i < |log| {
        assert Seen(log[i], hist, t0, t1);
        var k :| t0 <= k < t1 && k < |hist| && log[i].seqNo in hist[k] && hist[k][log[i].seqNo] == log[i].payload;
        assert hist'[k] == hist[k];
      } else {
        assert Genuine(tr.log[i - |log|], tr.runs, hist', tr.mapped, t2);
      }
    }
  }

  /** Call `receive` until it succeeds. Over all the calls together nothing is handled twice or inside a body;
      after a success everything above the first cursor that stayed live is covered, and what can be shown
      is stored exactly once. */
  method ReceiveRepeatedly(d: D.Dialogue, tries: nat) returns (ok: bool, ghost log: seq<Packet>, ghost runs: seq<Run>)
    requires d.Valid()
    modifies d.net`live, d.net`now, d.net`hist, d.store
    ensures d.Valid() && old(d.net.now) <= d.net.now
    ensures Orderly(d.rd, log, old(d.store.lastPulled)) && AllSeen(log, d.net.hist, old(d.net.now), d.net.now)
    ensures ok ==> MappedWithin(runs, d.net.hist, old(d.net.now), d.net.now)
    ensures ok ==>
              forall s: nat ::
                old(d.store.lastPulled) < s && LiveThroughout(d.net.hist, old(d.net.now), d.net.now, s) ==>
                  Covered(d.rd, log, s)
    ensures d.store.AllTables() == if ok then Swept(Fold(d.rd, old(d.store.AllTables()), log), runs)
                                   else Fold(d.rd, old(d.store.AllTables()), log)
    ensures ok && FreshIds(d.rd, old(d.store.AllTables()), log) ==>
              ShownOnce(d.rd, log, d.store.messages, d.net.hist, old(d.net.now), d.net.now)
  {
    hide Covered, Orderly, LiveThroughout, Kept, ShownOnce, FreshIds, Swept, Fold, Outcome, EnvBounded, Bounded, Inv;
    hide Seen, MappedWithin;
    ghost var lo, t0, tables0 := d.store.lastPulled, d.net.now, d.store.AllTables();
    ok, log, runs := false, [], [];
    NothingYet(d.rd, tables0, lo, d.net.hist, t0);
    InvKeyed(d.store.State());
    var k := 0;
    while k < tries && !ok
      invariant d.Valid() && t0 <= d.net.now && 0 <= k <= tries
      invariant Orderly(d.rd, log, lo) && lo <= d.store.lastPulled
      invariant forall i :: 0 <= i < |log| ==> Advance(d.rd, log[i]) <= d.store.lastPulled
      invariant CaughtUp(d.rd, log, lo, d.store.lastPulled, d.net.hist, t0, d.net.now)
      invariant AllSeen(log, d.net.hist, t0, d.net.now)
      invariant ok ==> MappedWithin(runs, d.net.hist, t0, d.net.now)
      invariant ok ==> forall s: nat :: lo < s && LiveThroughout(d.net.hist, t0, d.net.now, s) ==> Covered(d.rd, log, s)
      invariant d.store.AllTables() == if ok then Swept(Fold(d.rd, tables0, log), runs) else Fold(d.rd, tables0, log)
      invariant ok && FreshIds(d.rd, tables0, log) ==> ShownOnce(d.rd, log, d.store.messages, d.net.hist, t0, d.net.now)
    {
      ghost var st, hist, t1, log0 := d.store.State(), d.net.hist, d.net.now, log;
      var r;
      ghost var tr;
      r, tr := d.Receive();
      ok := r.Ok?;
      CaughtUpNext(d.rd, st, d.store.State(), tr, log, lo, hist, d.net.hist, t0, t1, d.net.now, ok);
      OrderlyAppend(d.rd, st, d.store.State(), tr, log, lo, d.net.hist, t1, d.net.now, ok);
      SeenNext(d.rd, st, d.store.State(), tr, log, hist, d.net.hist, t0, t1, d.net.now, ok);
      FoldAppend(d.rd, tables0, log, tr.log);
      TablesAfter(d.rd, st, d.store.State(), tr, d.net.hist, t1, d.net.now, ok);
      log := log + tr.log;
      runs := tr.runs;
      InvKeyed(d.store.State());
      if ok && FreshIds(d.rd, tables0, log) {
        LastCallShows(d.rd, tables0, st, d.store.State(), tr, log, lo, d.net.hist, t0, t1, d.net.now);
      }
      k := k + 1;
    }
  }

  lemma NothingYet(rd: Reader, t: Tables, lo: nat, hist: seq<Live>, t0: nat)
    ensures Orderly(rd, [], lo) && CaughtUp(rd, [], lo, lo, hist, t0, t0) && Fold(rd, t, []) == t
  {
  }

  lemma InvKeyed(st: StoreState)
    requires Inv(st)
    ensures KeyedById(st.tables.messages) && DistinctSeqs(st.tables.messages)
  {
  }

  lemma TablesAfter(rd: Reader, st0: StoreState, st1: StoreState, tr: Trace, hist: seq<Live>, t0: nat, t1: nat,
                    ok: bool)
    requires Outcome(rd, st0, st1, tr, hist, t0, t1, ok)
    ensures st1.tables == if ok then Swept(Fold(rd, st0.tables, tr.log), tr.runs) else Fold(rd, st0.tables, tr.log)
  {
  }

  /** Every displayable packet that stayed live is in the store exactly once. */
  ghost predicate ShownOnce(rd: Reader, log: seq<Packet>, messages: Messages, hist: seq<Live>, t0: nat, t1: nat) {
    forall i :: 0 <= i < |log| && Displayable(rd, log[i]) && LiveThroughout(hist, t0, t1, log[i].seqNo) ==>
      StoredOnce(messages, log[i].seqNo)
  }

  lemma LastCallShows(rd: Reader, tables0: Tables, st: StoreState, st': StoreState, tr: Trace, log: seq<Packet>,
                      lo: nat, hist: seq<Live>, t0: nat, t1: nat, t2: nat)
    requires KeyedById(tables0.messages) && DistinctSeqs(st'.tables.messages) && t0 <= t1 <= t2
    requires Orderly(rd, log, lo) && FreshIds(rd, tables0, log)
    requires Outcome(rd, st, st', tr, hist, t1, t2, true)
    requires st'.tables == Swept(Fold(rd, tables0, log), tr.runs)
    ensures ShownOnce(rd, log, st'.tables.messages, hist, t0, t2)
  {
    hide Orderly, FreshIds, Covered, Fold, Genuine, Swept;
    FoldFaithful(rd, tables0, log, lo);
    forall i | 0 <= i < |log| && Displayable(rd, log[i]) && LiveThroughout(hist, t0, t2, log[i].seqNo)
      ensures StoredOnce(st'.tables.messages, log[i].seqNo)
    {
      assert Carried(rd, tables0, Fold(rd, tables0, log), log[i]);
      LiveThroughoutPart(hist, hist, t0, t2, t1, t2, log[i].seqNo);
      assert lo < log[i].seqNo by { OrderlyAbove(rd, log, lo); }
      assert InRuns(tr.runs, log[i].seqNo);
      SweepSparesMap(Fold(rd, tables0, log), tr.runs, log[i].seqNo);
    }
  }

  lemma OrderlyAbove(rd: Reader, log: seq<Packet>, lo: nat)
    requires Orderly(rd, log, lo)
    ensures forall i :: 0 <= i < |log| ==> lo < log[i].seqNo
  {
  }

  /** With nobody else acting, a second `receive` returns nothing and changes nothing. */
  method ReceiveTwice(d: D.Dialogue)
    returns (first: Result<(seq<Message>, nat)>, second: Result<(seq<Message>, nat)>,
             ghost between: StoreState, ghost t1: nat, ghost tr1: Trace, ghost tr2: Trace)
    requires d.Valid() && Quiet(d.net.env)
    modifies d.net`live, d.net`now, d.net`hist, d.store
    ensures d.Valid()
    ensures Outcome(d.rd, old(d.store.State()), between, tr1, d.net.hist, old(d.net.now), t1, first.Ok?)
    ensures Outcome(d.rd, between, d.store.State(), tr2, d.net.hist, t1, d.net.now, second.Ok?)
    ensures first.Ok? && second.Ok? ==> second.value == ([], 0) && d.store.State() == between
    ensures first.Ok? ==> forall s :: s in old(d.net.live) ==> s <= between.lastPulled < between.nextSend
  {
    hide Outcome, Kept, Inv, Quiet;
    ghost var live0, t0 := d.net.live, d.net.now;
    ghost var st0 := d.store.State();
    first, tr1 := d.Receive();
    between := d.store.State();
    t1 := d.net.now;
    QuietKept(d.net.env, live0, d.net.hist, t0, d.net.live);
    if first.Ok? {
      AllPulled(d.rd, st0, between, tr1, d.net.hist, t0, t1, live0);
    }
    ghost var hist1 := d.net.hist;
    second, tr2 := d.Receive();
    QuietKept(d.net.env, live0, d.net.hist, t1, d.net.live);
    OutcomeGrows(d.rd, st0, between, tr1, hist1, d.net.hist, t0, t1, first.Ok?);
    if first.Ok? && second.Ok? {
      assert forall k :: t0 <= k < t1 ==> d.net.hist[k] == hist1[k];
      SecondReceiveIsIdle(d.rd, st0, between, d.store.State(), tr1, tr2, d.net.hist, t0, t1, d.net.now, live0);
    }
  }

  /** What a call did does not depend on requests made after it. */
  lemma OutcomeGrows(rd: Reader, st0: StoreState, st1: StoreState, tr: Trace, h: seq<Live>, h': seq<Live>, t0: nat,
                     t1: nat, ok: bool)
    requires Outcome(rd, st0, st1, tr, h, t0, t1, ok) && h <= h'
    ensures Outcome(rd, st0, st1, tr, h', t0, t1, ok)
  {
    hide Covered, Orderly, Fold, Swept, MapFaithful;
    if MapFaithful(tr.runs, tr.lastTotal, h, t0, tr.mapped) {
      D.FaithfulGrows(tr.runs, tr.lastTotal, h, h', t0, tr.mapped);
    }
    assert forall k :: 0 <= k < |h| ==> h'[k] == h[k];
    forall i | 0 <= i < |tr.log|
      ensures Genuine(tr.log[i], tr.runs, h', tr.mapped, t1)
    {
      assert Genuine(tr.log[i], tr.runs, h, tr.mapped, t1);
      var k :| tr.mapped <= k < t1 && k < |h| && tr.log[i].seqNo in h[k] && h[k][tr.log[i].seqNo] == tr.log[i].payload;
      assert h'[k] == h[k];
    }
    forall s: nat | GoneDuring(h, tr.mapped, t1, s)
      ensures GoneDuring(h', tr.mapped, t1, s)
    {
      var k :| tr.mapped <= k < t1 && k < |h| && s !in h[k];
      assert h'[k] == h[k];
    }
  }

  lemma AllPulled(rd: Reader, st0: StoreState, st1: StoreState, tr: Trace, hist: seq<Live>, t0: nat, t1: nat,
                  live: Live)
    requires Outcome(rd, st0, st1, tr, hist, t0, t1, true) && Inv(st1)
    requires forall k :: t0 <= k < t1 ==> hist[k] == live
    ensures forall s :: s in live ==> s <= st1.lastPulled < st1.nextSend
  {
    assert AllAtMost(hist[tr.mapped - 1], tr.lastTotal);
  }
}
