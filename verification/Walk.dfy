/** The packets a complete `receive` handles, as a function of the server's packets and the cursor before the call. */
module Walk {
  import opened Base
  import opened LocalStore
  import opened ReceiveSpec
  import opened Server

  /** The seqs of the live packets above the cursor. */
  function Above(live: Live, cursor: nat): set<nat> {
    set s | s in live && cursor < s
  }

  ghost function Least(xs: set<nat>): (m: nat)
    requires xs != {}
    ensures m in xs && forall x :: x in xs ==> m <= x
  {
    var x :| x in xs;
    if xs == {x} then x
    else
      var rest := xs - {x};
      assert forall y :: y in xs ==> y == x || y in rest;
      Min(x, Least(rest))
  }

  ghost function NextAbove(live: Live, cursor: nat): (p: Packet)
    requires Above(live, cursor) != {}
    ensures cursor < p.seqNo && p.seqNo in live && live[p.seqNo] == p.payload
    ensures forall s :: s in live && cursor < s ==> p.seqNo <= s
  {
    var s := Least(Above(live, cursor));
    assert forall x :: x in live && cursor < x ==> x in Above(live, cursor);
    Packet(s, live[s])
  }

  /** From the cursor to the least live seq above it, past its body if it is a file header, and so on. */
  ghost function Walked(rd: Reader, live: Live, cursor: nat): seq<Packet>
    decreases |Above(live, cursor)|
  {
    if Above(live, cursor) == {} then []
    else
      var p := NextAbove(live, cursor);
      AboveShrinks(live, cursor, p.seqNo, Advance(rd, p));
      [p] + Walked(rd, live, Advance(rd, p))
  }

  lemma AboveShrinks(live: Live, cursor: nat, s: nat, cursor': nat)
    requires s in live && cursor < s <= cursor'
    ensures |Above(live, cursor')| < |Above(live, cursor)|
  {
    var a, b := Above(live, cursor), Above(live, cursor');
    assert b <= a - {s};
    SmallerSubset(b, a - {s});
  }

  lemma {:induction false} SmallerSubset(a: set<nat>, b: set<nat>)
    requires a <= b
    ensures |a| <= |b|
  {
    if a != {} {
      var x :| x in a;
      SmallerSubset(a - {x}, b - {x});
    }
  }

  /** A list of packets in pull order that leaves no live seq uncovered is this one. */
  lemma {:induction false} LogIsWalk(rd: Reader, live: Live, cursor: nat, log: seq<Packet>)
    requires Orderly(rd, log, cursor)
    requires forall i :: 0 <= i < |log| ==> log[i].seqNo in live && live[log[i].seqNo] == log[i].payload
    requires forall s :: s in live && cursor < s ==> Covered(rd, log, s)
    ensures log == Walked(rd, live, cursor)
    decreases |log|
  {
    hide Advance, Opened;
    if log == [] {
      NothingCovered(rd);
    } else {
      var p, rest := log[0], log[1..];
      assert p.seqNo in Above(live, cursor);
      var least := NextAbove(live, cursor);
      FirstIsLeast(rd, log, cursor, least.seqNo);
      assert log == [p] + rest;
      assert forall i :: 0 <= i < |rest| ==> rest[i] == log[i + 1];
      forall s | s in live && Advance(rd, p) < s
        ensures Covered(rd, rest, s)
      {
        AdvanceAtLeast(rd, p);
        CoveredByRest(rd, log, s);
      }
      LogIsWalk(rd, live, Advance(rd, p), rest);
    }
  }

  lemma NothingCovered(rd: Reader)
    ensures forall s :: !Covered(rd, [], s)
  {
  }

  lemma AdvanceAtLeast(rd: Reader, p: Packet)
    ensures p.seqNo <= Advance(rd, p)
  {
  }

  lemma FirstIsLeast(rd: Reader, log: seq<Packet>, cursor: nat, s: nat)
    requires Orderly(rd, log, cursor) && log != [] && Covered(rd, log, s)
    requires forall i :: 0 <= i < |log| ==> s <= log[i].seqNo
    ensures log[0].seqNo == s
  {
    var i :| 0 <= i < |log| && log[i].seqNo == s;
    AdvanceAtLeast(rd, log[0]);
  }

  lemma CoveredByRest(rd: Reader, log: seq<Packet>, s: nat)
    requires log != [] && Covered(rd, log, s) && log[0].seqNo <= Advance(rd, log[0]) < s
    ensures Covered(rd, log[1..], s)
  {
    var rest := log[1..];
    assert forall i :: 0 < i < |log| ==> rest[i - 1] == log[i];
    if Handled(log, s) {
      var i :| 0 <= i < |log| && log[i].seqNo == s;
      assert rest[i - 1].seqNo == s;
    } else {
      var i :| 0 <= i < |log| && log[i].seqNo < s <= Advance(rd, log[i]);
      assert rest[i - 1].seqNo < s <= Advance(rd, rest[i - 1]);
    }
  }

  /** Above the cursor the server held the same packets at every request. */
  ghost predicate StillAbove(live: Live, cursor: nat, hist: seq<Live>, t0: nat, t1: nat) {
    forall k, s :: t0 <= k < t1 && k < |hist| && cursor < s ==> SameAt(live, hist[k], s)
  }

  /** A complete `receive` of what nobody touches meanwhile handles exactly the packets of the walk. */
  lemma CompleteCallWalks(rd: Reader, st0: StoreState, st1: StoreState, tr: Trace, hist: seq<Live>, t0: nat, t1: nat,
                          live: Live)
    requires Outcome(rd, st0, st1, tr, hist, t0, t1, true) && StillAbove(live, st0.lastPulled, hist, t0, t1)
    ensures tr.log == Walked(rd, live, st0.lastPulled)
  {
    hide Covered, Orderly, Fold, Swept, Walked, SameAt;
    forall i | 0 <= i < |tr.log|
      ensures tr.log[i].seqNo in live && live[tr.log[i].seqNo] == tr.log[i].payload
    {
      LogGenuine(rd, st0, st1, tr, hist, t0, t1, live, i);
    }
    forall s | s in live && st0.lastPulled < s
      ensures Covered(rd, tr.log, s)
    {
      LiveInMap(rd, st0, st1, tr, hist, t0, t1, live, s);
    }
    LogIsWalk(rd, live, st0.lastPulled, tr.log);
  }

  lemma LogGenuine(rd: Reader, st0: StoreState, st1: StoreState, tr: Trace, hist: seq<Live>, t0: nat, t1: nat,
                   live: Live, i: nat)
    requires Outcome(rd, st0, st1, tr, hist, t0, t1, true) && StillAbove(live, st0.lastPulled, hist, t0, t1)
    requires i < |tr.log|
    ensures tr.log[i].seqNo in live && live[tr.log[i].seqNo] == tr.log[i].payload
  {
    hide Covered, Fold, Swept, MapFaithful;
    assert Genuine(tr.log[i], tr.runs, hist, tr.mapped, t1);
    var k :| tr.mapped <= k < t1 && k < |hist| && tr.log[i].seqNo in hist[k]
             && hist[k][tr.log[i].seqNo] == tr.log[i].payload;
    assert SameAt(live, hist[k], tr.log[i].seqNo);
  }

  lemma LiveInMap(rd: Reader, st0: StoreState, st1: StoreState, tr: Trace, hist: seq<Live>, t0: nat, t1: nat,
                  live: Live, s: nat)
    requires Outcome(rd, st0, st1, tr, hist, t0, t1, true) && StillAbove(live, st0.lastPulled, hist, t0, t1)
    requires s in live && st0.lastPulled < s
    ensures Covered(rd, tr.log, s)
  {
    hide Covered, Orderly, Fold, Swept, Genuine;
    forall k | t0 <= k < t1 && k < |hist|
      ensures s in hist[k]
    {
      assert SameAt(live, hist[k], s);
    }
    assert !GoneDuring(hist, t0, tr.mapped, s) && !GoneDuring(hist, tr.mapped, t1, s);
  }

  /** Nobody else writes or deletes above the cursor. */
  ghost predicate LeavesAbove(env: Env, cursor: nat) {
    forall s: nat :: cursor < s ==> Leaves(env, s)
  }

  lemma KeptStillAbove(env: Env, cursor: nat, live0: Live, hist: seq<Live>, t0: nat, live: Live)
    requires Kept(env, live0, hist, t0, live) && LeavesAbove(env, cursor)
    ensures StillAbove(live0, cursor, hist, t0, |hist|)
  {
    hide Leaves;
    forall k, s | t0 <= k < |hist| && cursor < s
      ensures SameAt(live0, hist[k], s)
    {
      assert Untouched(env, live0, hist[k]) && Leaves(env, s);
    }
  }
}
