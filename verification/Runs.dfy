/** Inclusive runs of live sequence numbers (`Vec<(u64, u64)>` in the source). */
module Runs {

  datatype Run = Run(begin: nat, end: nat)

  ghost predicate InRuns(runs: seq<Run>, s: nat) {
    exists i :: 0 <= i < |runs| && runs[i].begin <= s <= runs[i].end
  }

  /** Non-empty runs in ascending order without overlap. */
  ghost predicate Ascending(runs: seq<Run>) {
    && (forall i :: 0 <= i < |runs| ==> runs[i].begin <= runs[i].end)
    && (forall i, j :: 0 <= i < j < |runs| ==> runs[i].end < runs[j].begin)
  }

  /** Ascending, and no two neighbours could be merged. */
  ghost predicate Maximal(runs: seq<Run>) {
    && (forall i :: 0 <= i < |runs| ==> runs[i].begin <= runs[i].end)
    && (forall i, j :: 0 <= i < j < |runs| ==> runs[i].end + 1 < runs[j].begin)
  }

  ghost predicate StrictlyIncreasing(xs: seq<nat>) {
    forall i, j :: 0 <= i < j < |xs| ==> xs[i] < xs[j]
  }

  /** Binary search for the run that holds `s`. */
  method SeqInRuns(runs: seq<Run>, s: nat) returns (found: bool)
    requires Ascending(runs)
    ensures found <==> InRuns(runs, s)
  {
    var lo, hi := 0, |runs|;
    while lo < hi
      invariant 0 <= lo <= hi <= |runs|
      invariant forall i :: 0 <= i < lo ==> runs[i].end < s
      invariant forall i :: hi <= i < |runs| ==> s < runs[i].begin
    {
      var mid := (lo + hi) / 2;
      if s < runs[mid].begin {
        hi := mid;
      } else if s > runs[mid].end {
        lo := mid + 1;
      } else {
        return true;
      }
    }
    return false;
  }

  /** Fold a strictly increasing list into maximal runs covering exactly its elements. */
  method ContiguousRuns(xs: seq<nat>) returns (runs: seq<Run>)
    requires StrictlyIncreasing(xs)
    ensures Maximal(runs)
    ensures forall s: nat :: InRuns(runs, s) <==> s in xs
  {
    runs := [];
    if xs == [] {
      return;
    }
    var start, end := xs[0], xs[0];
    var i := 1;
    CoversSnoc([], [], start);
    assert xs[..1] == [] + [xs[0]];
    assert [Run(start, end)] == [] + [Run(start, end)];
    while i < |xs|
      invariant 1 <= i <= |xs|
      invariant start <= end == xs[i - 1]
      invariant Maximal(runs) && forall k :: 0 <= k < |runs| ==> runs[k].end + 1 < start
      invariant Covers(runs + [Run(start, end)], xs[..i])
    {
      var x := xs[i];
      assert xs[..i + 1] == xs[..i] + [x];
      if x == end + 1 {
        CoversGrown(runs, start, end, xs[..i]);
        end := x;
      } else {
        runs := runs + [Run(start, end)];
        CoversSnoc(runs, xs[..i], x);
        start := x;
        end := x;
      }
      i := i + 1;
    }
    assert xs[..i] == xs;
    runs := runs + [Run(start, end)];
  }

  /** The runs hold exactly the listed seqs. */
  ghost predicate Covers(runs: seq<Run>, xs: seq<nat>) {
    forall s: nat :: InRuns(runs, s) <==> s in xs
  }

  lemma CoversSnoc(runs: seq<Run>, xs: seq<nat>, x: nat)
    requires Covers(runs, xs)
    ensures Covers(runs + [Run(x, x)], xs + [x])
  {
    InRunsOfSnoc(runs, Run(x, x));
    hide InRuns;
    assert forall s :: s in xs + [x] <==> s in xs || s == x;
  }

  lemma CoversGrown(runs: seq<Run>, start: nat, end: nat, xs: seq<nat>)
    requires start <= end && Covers(runs + [Run(start, end)], xs)
    ensures Covers(runs + [Run(start, end + 1)], xs + [end + 1])
  {
    InRunsOfGrown(runs, start, end);
    hide InRuns;
    var grown, ys := runs + [Run(start, end + 1)], xs + [end + 1];
    forall s: nat
      ensures InRuns(grown, s) <==> s in ys
    {
      assert InRuns(runs + [Run(start, end)], s) <==> s in xs;
    }
  }

  lemma InRunsOfSnoc(runs: seq<Run>, r: Run)
    ensures forall s: nat :: InRuns(runs + [r], s) <==> InRuns(runs, s) || r.begin <= s <= r.end
  {
    forall s: nat
      ensures InRuns(runs + [r], s) <==> InRuns(runs, s) || r.begin <= s <= r.end
    {
      var all := runs + [r];
      if InRuns(runs, s) {
        var i :| 0 <= i < |runs| && runs[i].begin <= s <= runs[i].end;
        assert all[i] == runs[i];
      }
      if r.begin <= s <= r.end {
        assert all[|runs|] == r;
      }
      if InRuns(all, s) {
        var i :| 0 <= i < |all| && all[i].begin <= s <= all[i].end;
        assert i < |runs| ==> all[i] == runs[i];
      }
    }
  }

  lemma InRunsOfGrown(runs: seq<Run>, start: nat, end: nat)
    requires start <= end
    ensures forall s: nat :: InRuns(runs + [Run(start, end + 1)], s) <==>
                             InRuns(runs + [Run(start, end)], s) || s == end + 1
  {
    InRunsOfSnoc(runs, Run(start, end));
    InRunsOfSnoc(runs, Run(start, end + 1));
  }

  lemma InRunsOfAppend(xs: seq<Run>, ys: seq<Run>)
    ensures forall s: nat :: InRuns(xs + ys, s) <==> InRuns(xs, s) || InRuns(ys, s)
  {
    forall s: nat
      ensures InRuns(xs + ys, s) <==> InRuns(xs, s) || InRuns(ys, s)
    {
      var all := xs + ys;
      if InRuns(xs, s) {
        var i :| 0 <= i < |xs| && xs[i].begin <= s <= xs[i].end;
        assert all[i] == xs[i];
      }
      if InRuns(ys, s) {
        var i :| 0 <= i < |ys| && ys[i].begin <= s <= ys[i].end;
        assert all[|xs| + i] == ys[i];
      }
      if InRuns(all, s) {
        var i :| 0 <= i < |all| && all[i].begin <= s <= all[i].end;
        if i < |xs| {
          assert all[i] == xs[i];
        } else {
          assert all[i] == ys[i - |xs|];
        }
      }
    }
  }

  /** Binary search over the folded list decides membership in the list. */
  method FoldThenSearch(xs: seq<nat>, s: nat) returns (found: bool)
    requires StrictlyIncreasing(xs)
    ensures found <==> s in xs
  {
    var runs := ContiguousRuns(xs);
    found := SeqInRuns(runs, s);
  }

  /** Maximal runs are a canonical form: the set they cover determines them. */
  lemma {:induction false} MaximalRunsUnique(xs: seq<Run>, ys: seq<Run>)
    requires Maximal(xs) && Maximal(ys)
    requires forall s: nat :: InRuns(xs, s) <==> InRuns(ys, s)
    ensures xs == ys
  {
    if xs == [] {
      if ys != [] {
        assert InRuns(ys, ys[0].begin);
        assert false;
      }
    } else if ys == [] {
      assert InRuns(xs, xs[0].begin);
      assert false;
    } else {
      FirstRunBegin(xs, ys);
      FirstRunBegin(ys, xs);
      FirstRunEnd(xs, ys);
      FirstRunEnd(ys, xs);
      assert xs[0] == ys[0];
      assert xs == [xs[0]] + xs[1..];
      assert ys == [ys[0]] + ys[1..];
      forall s: nat
        ensures InRuns(xs[1..], s) <==> InRuns(ys[1..], s)
      {
        RestOfRuns(xs, s);
        RestOfRuns(ys, s);
      }
      MaximalRunsUnique(xs[1..], ys[1..]);
    }
  }

  lemma FirstRunBegin(xs: seq<Run>, ys: seq<Run>)
    requires Maximal(xs) && Maximal(ys) && xs != [] && ys != []
    requires forall s: nat :: InRuns(xs, s) <==> InRuns(ys, s)
    ensures ys[0].begin <= xs[0].begin
  {
    assert InRuns(xs, xs[0].begin);
  }

  lemma FirstRunEnd(xs: seq<Run>, ys: seq<Run>)
    requires Maximal(xs) && Maximal(ys) && xs != [] && ys != []
    requires xs[0].begin == ys[0].begin
    requires forall s: nat :: InRuns(xs, s) <==> InRuns(ys, s)
    ensures xs[0].end <= ys[0].end
  {
    if ys[0].end < xs[0].end {
      assert InRuns(xs, ys[0].end + 1);
      assert false;
    }
  }

  lemma RestOfRuns(xs: seq<Run>, s: nat)
    requires Maximal(xs) && xs != []
    ensures InRuns(xs[1..], s) <==> InRuns(xs, s) && xs[0].end < s
  {
    if InRuns(xs[1..], s) {
      var i :| 0 <= i < |xs[1..]| && xs[1..][i].begin <= s <= xs[1..][i].end;
      assert xs[i + 1] == xs[1..][i];
    }
    if InRuns(xs, s) && xs[0].end < s {
      var i :| 0 <= i < |xs| && xs[i].begin <= s <= xs[i].end;
      assert xs[1..][i - 1] == xs[i];
    }
  }
}
