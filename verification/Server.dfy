/** The packet server (ParanoiaServer/src/store.rs and its routes) seen over an unreliable network. */
module Server {
  import opened Base
  import opened Runs
  import opened Types

  /** The packets of one dialogue. */
  type Live = map<nat, Payload>

  datatype Packet = Packet(seqNo: nat, payload: Payload)

  datatype MapResult = MapResult(runs: seq<Run>, lastSeq: nat, truncated: bool)

  const MAP_MAX_RUNS: nat := 8192

  /** What the network does to a request: delivers it, drops it, or drops only the reply. */
  datatype Fault = Fine | RequestLost | ReplyLost

  /** Everything outside this client: what other parties do to the dialogue before request `t`
      reaches the server, the fate of request `t`, and the number `/notify` would report. */
  datatype Env = Env(step: (nat, Live) -> Live, fault: nat -> Fault, notify: nat -> nat)

  ghost predicate Bounded(live: Live) {
    forall s :: s in live ==> s < U64_MAX
  }

  ghost predicate EnvBounded(env: Env) {
    forall t: nat, l: Live :: Bounded(l) ==> Bounded(env.step(t, l))
  }

  ghost predicate SameAt(a: Live, b: Live, s: nat) {
    (s in a <==> s in b) && (s in a ==> a[s] == b[s])
  }

  /** No other party writes or deletes `s`. */
  ghost predicate Leaves(env: Env, s: nat) {
    forall t: nat, l: Live :: SameAt(l, env.step(t, l), s)
  }

  /** No other party does anything. */
  ghost predicate Quiet(env: Env) {
    forall t: nat, l: Live :: env.step(t, l) == l
  }

  /** Whatever no other party touches is the same in both. */
  ghost predicate Untouched(env: Env, a: Live, b: Live) {
    forall s :: Leaves(env, s) ==> SameAt(a, b, s)
  }

  /** Below `n`, whatever no other party touches is the same in both. */
  ghost predicate UntouchedBelow(env: Env, n: nat, a: Live, b: Live) {
    forall s: nat :: s < n && Leaves(env, s) ==> SameAt(a, b, s)
  }

  lemma UntouchedBelowTrans(env: Env, n: nat, a: Live, b: Live, c: Live)
    requires UntouchedBelow(env, n, a, b) && UntouchedBelow(env, n, b, c)
    ensures UntouchedBelow(env, n, a, c)
  {
    forall s: nat | s < n && Leaves(env, s)
      ensures SameAt(a, c, s)
    {
      assert SameAt(a, b, s) && SameAt(b, c, s);
    }
  }

  lemma UntouchedBelowFewer(env: Env, n: nat, m: nat, a: Live, b: Live)
    requires UntouchedBelow(env, n, a, b) && m <= n
    ensures UntouchedBelow(env, m, a, b)
  {
  }

  /** The requests from `t0` on only read: seqs that others leave alone kept the content they had in `live0`. */
  ghost predicate Kept(env: Env, live0: Live, hist: seq<Live>, t0: nat, live: Live) {
    Untouched(env, live0, live) && forall k :: t0 <= k < |hist| ==> Untouched(env, live0, hist[k])
  }

  /** The same below `n` only. */
  ghost predicate KeptBelow(env: Env, n: nat, live0: Live, hist: seq<Live>, t0: nat, live: Live) {
    && UntouchedBelow(env, n, live0, live)
    && forall k :: t0 <= k < |hist| ==> UntouchedBelow(env, n, live0, hist[k])
  }

  lemma KeptIsKeptBelow(env: Env, live0: Live, hist: seq<Live>, t0: nat, live: Live, n: nat)
    requires Kept(env, live0, hist, t0, live)
    ensures KeptBelow(env, n, live0, hist, t0, live)
  {
  }

  lemma KeptBelowStart(env: Env, n: nat, hist: seq<Live>, live: Live)
    ensures KeptBelow(env, n, live, hist, |hist|, live)
  {
  }

  /** Two stretches of requests, the second perhaps known to keep more. */
  lemma KeptBelowTrans(env: Env, n: nat, live0: Live, hist1: seq<Live>, t0: nat, live1: Live, m: nat,
                       hist2: seq<Live>, live2: Live)
    requires KeptBelow(env, n, live0, hist1, t0, live1) && hist1 <= hist2 && n <= m
    requires KeptBelow(env, m, live1, hist2, |hist1|, live2)
    ensures KeptBelow(env, n, live0, hist2, t0, live2)
  {
    hide UntouchedBelow;
    UntouchedBelowFewer(env, m, n, live1, live2);
    UntouchedBelowTrans(env, n, live0, live1, live2);
    forall k | t0 <= k < |hist2|
      ensures UntouchedBelow(env, n, live0, hist2[k])
    {
      if k < |hist1| {
        assert hist2[k] == hist1[k];
      } else {
        UntouchedBelowFewer(env, m, n, live1, hist2[k]);
        UntouchedBelowTrans(env, n, live0, live1, hist2[k]);
      }
    }
  }

  lemma KeptStart(env: Env, hist: seq<Live>, live: Live)
    ensures Kept(env, live, hist, |hist|, live)
  {
  }

  lemma KeptStep(env: Env, live0: Live, hist: seq<Live>, t0: nat, live: Live, t: nat)
    requires Kept(env, live0, hist, t0, live)
    ensures Kept(env, live0, hist + [env.step(t, live)], t0, env.step(t, live))
  {
  }

  lemma KeptTrans(env: Env, live0: Live, hist1: seq<Live>, t0: nat, live1: Live, hist2: seq<Live>, live2: Live)
    requires Kept(env, live0, hist1, t0, live1) && hist1 <= hist2
    requires Kept(env, live1, hist2, |hist1|, live2)
    ensures Kept(env, live0, hist2, t0, live2)
  {
    forall k | t0 <= k < |hist2|
      ensures Untouched(env, live0, hist2[k])
    {
      assert k < |hist1| ==> hist2[k] == hist1[k];
    }
  }

  /** When nobody else acts, requests that only read see one and the same live set. */
  lemma QuietKept(env: Env, live0: Live, hist: seq<Live>, t0: nat, live: Live)
    requires Quiet(env) && Kept(env, live0, hist, t0, live)
    ensures live == live0 && forall k :: t0 <= k < |hist| ==> hist[k] == live0
  {
    assert forall s :: Leaves(env, s);
    UntouchedByNobody(env, live0, live);
    forall k | t0 <= k < |hist|
      ensures hist[k] == live0
    {
      UntouchedByNobody(env, live0, hist[k]);
    }
  }

  lemma UntouchedByNobody(env: Env, a: Live, b: Live)
    requires Untouched(env, a, b) && forall s :: Leaves(env, s)
    ensures a == b
  {
    forall s: nat
      ensures s in a <==> s in b
      ensures s in a ==> a[s] == b[s]
    {
      assert Leaves(env, s) && SameAt(a, b, s);
    }
    assert a.Keys == b.Keys;
  }

  function LastOf(keys: seq<nat>): nat {
    if keys == [] then 0 else keys[|keys| - 1]
  }

  /** The database iterator: live keys from `from` on, ascending. */
  method Scan(live: Live, from: nat) returns (keys: seq<nat>)
    ensures StrictlyIncreasing(keys)
    ensures forall s :: s in keys <==> s in live && from <= s
  {
    var rest := set s | s in live.Keys && from <= s;
    keys := [];
    while rest != {}
      invariant StrictlyIncreasing(keys)
      invariant forall a, b :: a in keys && b in rest ==> a < b
      invariant forall s :: s in live && from <= s <==> s in keys || s in rest
      decreases rest
    {
      var k := Least(rest);
      assert forall i :: 0 <= i < |keys| ==> keys[i] in keys;
      keys := keys + [k];
      rest := rest - {k};
    }
  }

  method Least(s: set<nat>) returns (k: nat)
    requires s != {}
    ensures k in s && forall j :: j in s ==> k <= j
  {
    var m := LeastOf(s);
    k :| k in s && forall j :: j in s ==> k <= j;
  }

  lemma {:induction false} LeastOf(s: set<nat>) returns (m: nat)
    requires s != {}
    ensures m in s && forall j :: j in s ==> m <= j
  {
    m :| m in s;
    if s != {m} {
      var k := LeastOf(s - {m});
      assert forall j :: j in s ==> j == m || j in s - {m};
      m := Min(m, k);
    }
  }

  /** `last_seq`: the greatest live seq, or 0. */
  ghost predicate IsLastSeq(live: Live, m: nat) {
    (forall s :: s in live ==> s <= m) && (m in live || (m == 0 && live == map[]))
  }

  method LastSeq(live: Live) returns (m: nat)
    ensures IsLastSeq(live, m)
  {
    var keys := Scan(live, 0);
    m := LastOf(keys);
    forall s | s in live
      ensures s <= m && m in live
    {
      var i :| 0 <= i < |keys| && keys[i] == s;
      assert keys[|keys| - 1] in keys;
    }
  }

  ghost predicate InRange(s: nat, after: nat, to: nat) {
    after < s && (to == 0 || s <= to)
  }

  /** What `/map` promises about the live set it was evaluated on. */
  ghost predicate MapAnswer(live: Live, after: nat, to: nat, m: MapResult) {
    && Maximal(m.runs)
    && (forall i :: 0 <= i < |m.runs| ==> InRange(m.runs[i].begin, after, to) && InRange(m.runs[i].end, after, to))
    && (forall s: nat :: InRuns(m.runs, s) ==> s in live)
    && (forall s: nat :: s in live && InRange(s, after, to) && !InRuns(m.runs, s) ==>
          m.truncated && m.runs != [] && m.runs[|m.runs| - 1].end < s)
    && IsLastSeq(live, m.lastSeq)
    && (m.truncated ==> m.runs != [])
  }

  ghost predicate BadRange(after: nat, to: nat) {
    to != 0 && to <= after
  }

  /** `PacketStore::map`: collapse the iterator into runs, stopping at `MAP_MAX_RUNS`. */
  method MapSeqs(live: Live, after: nat, to: nat) returns (r: Result<MapResult>)
    requires Bounded(live)
    ensures r == Err(InvalidRange) <==> BadRange(after, to)
    ensures r.Err? ==> r == Err(InvalidRange)
    ensures r.Ok? ==> MapAnswer(live, after, to, r.value)
    ensures r.Ok? ==> |r.value.runs| <= MAP_MAX_RUNS
  {
    hide Open, StrictlyIncreasing, IsLastSeq, MapAnswer, Bounded;
    if to != 0 && to <= after {
      return Err(InvalidRange);
    }
    var last := LastSeq(live);
    if after >= U64_MAX {
      NothingBeyond(live, after, to, last);
      return Ok(MapResult([], last, false));
    }
    var keys := Scan(live, after + 1);
    var runs, n, truncated := Collapse(keys, to);
    CollapsedAnswer(live, after, to, keys, n, runs, truncated, last);
    return Ok(MapResult(runs, last, truncated));
  }

  lemma NothingBeyond(live: Live, after: nat, to: nat, last: nat)
    requires Bounded(live) && U64_MAX <= after && IsLastSeq(live, last)
    ensures MapAnswer(live, after, to, MapResult([], last, false))
  {
  }

  lemma CollapsedAnswer(live: Live, after: nat, to: nat, keys: seq<nat>, n: nat, runs: seq<Run>, truncated: bool,
                        last: nat)
    requires StrictlyIncreasing(keys) && forall s :: s in keys <==> s in live && after + 1 <= s
    requires n <= |keys| && Open(runs, None, keys[..n]) && IsLastSeq(live, last)
    requires to != 0 ==> forall k :: 0 <= k < n ==> keys[k] <= to
    requires if truncated then runs != [] && n < |keys| else n == |keys| || (to != 0 && keys[n] > to)
    ensures MapAnswer(live, after, to, MapResult(runs, last, truncated))
  {
    hide Open, StrictlyIncreasing, InRuns, Maximal, IsLastSeq, HoldsPrefix;
    OpenHolds(runs, keys, n);
    RunsWithin(live, after, to, keys, n, runs);
    forall s: nat | s in live && InRange(s, after, to) && !InRuns(runs, s)
      ensures truncated && runs != [] && runs[|runs| - 1].end < s
    {
      RunsMissOnlyLater(live, after, to, keys, n, runs, truncated, s);
    }
  }

  /** The loop of `map` over the iterator: `n` keys go into `runs`. */
  method Collapse(keys: seq<nat>, to: nat) returns (runs: seq<Run>, n: nat, truncated: bool)
    requires StrictlyIncreasing(keys)
    ensures n <= |keys| && Open(runs, None, keys[..n])
    ensures to != 0 ==> forall k :: 0 <= k < n ==> keys[k] <= to
    ensures |runs| <= MAP_MAX_RUNS
    ensures if truncated then runs != [] && n < |keys| else n == |keys| || (to != 0 && keys[n] > to)
  {
    hide *;
    runs, n, truncated := [], 0, false;
    var current: Option<Run> := None;
    OpenEmpty();
    assert keys[..0] == [];
    while n < |keys| && (to == 0 || keys[n] <= to)
      invariant 0 <= n <= |keys|
      invariant Open(runs, current, keys[..n]) && (current.None? ==> n == 0)
      invariant to != 0 ==> forall k :: 0 <= k < n ==> keys[k] <= to
      invariant |runs| <= MAP_MAX_RUNS && (current.Some? ==> |runs| < MAP_MAX_RUNS)
      invariant !truncated
    {
      PrefixSnoc(keys, n);
      runs, current, truncated := Feed(runs, current, keys[n], keys[..n]);
      if truncated {
        return;
      }
      n := n + 1;
    }
    runs := Close(runs, current, keys[..n]);
  }

  method Close(runs: seq<Run>, current: Option<Run>, ghost seen: seq<nat>) returns (runs': seq<Run>)
    requires Open(runs, current, seen)
    requires |runs| <= MAP_MAX_RUNS && (current.Some? ==> |runs| < MAP_MAX_RUNS)
    ensures Open(runs', None, seen) && |runs'| <= MAP_MAX_RUNS
  {
    runs' := runs;
    if current.Some? {
      OpenCloses(runs, current.value, seen);
      runs' := runs + [current.value];
    }
  }

  /** One step of the collapsing loop. */
  method Feed(runs: seq<Run>, current: Option<Run>, s: nat, ghost seen: seq<nat>)
    returns (runs': seq<Run>, current': Option<Run>, truncated: bool)
    requires Open(runs, current, seen) && (current.None? ==> seen == [])
    requires seen != [] ==> seen[|seen| - 1] < s
    requires |runs| <= MAP_MAX_RUNS && (current.Some? ==> |runs| < MAP_MAX_RUNS)
    ensures |runs'| <= MAP_MAX_RUNS
    ensures if truncated then current'.None? && runs' != [] && Open(runs', None, seen)
            else current'.Some? && |runs'| < MAP_MAX_RUNS && Open(runs', current', seen + [s])
  {
    runs', current', truncated := runs, current, false;
    hide Open;
    if current.Some? {
      OpenTip(runs, current, seen);
      if s == current.value.end + 1 {
        OpenExtends(runs, current.value, seen);
        return runs, Some(Run(current.value.begin, s)), false;
      }
      OpenCloses(runs, current.value, seen);
      runs' := runs + [current.value];
      current' := None;
    }
    if |runs'| >= MAP_MAX_RUNS {
      return runs', None, true;
    }
    OpenStarts(runs', seen, s);
    current' := Some(Run(s, s));
  }

  /** Loop invariant of `MapSeqs`: closed runs plus the run being grown cover exactly the keys seen. */
  ghost predicate Open(runs: seq<Run>, current: Option<Run>, seen: seq<nat>) {
    var all := if current.Some? then runs + [current.value] else runs;
    && Maximal(all)
    && (forall s: nat :: InRuns(all, s) <==> s in seen)
    && (current.Some? ==> seen != [] && seen[|seen| - 1] == current.value.end)
    && (current.None? && seen != [] ==> runs != [] && runs[|runs| - 1].end == seen[|seen| - 1])
  }

  lemma PrefixSnoc(keys: seq<nat>, n: nat)
    requires StrictlyIncreasing(keys) && n < |keys|
    ensures keys[..n + 1] == keys[..n] + [keys[n]]
    ensures n > 0 ==> keys[..n] != [] && keys[..n][n - 1] < keys[n]
  {
  }

  lemma OpenEmpty()
    ensures Open([], None, [])
  {
  }

  lemma OpenTip(runs: seq<Run>, current: Option<Run>, seen: seq<nat>)
    requires Open(runs, current, seen) && current.Some?
    ensures seen != [] && seen[|seen| - 1] == current.value.end
  {
  }

  lemma OpenExtends(runs: seq<Run>, r: Run, seen: seq<nat>)
    requires Open(runs, Some(r), seen)
    ensures Open(runs, Some(Run(r.begin, r.end + 1)), seen + [r.end + 1])
  {
    var all := runs + [r];
    assert all[|runs|] == r && forall i :: 0 <= i < |runs| ==> all[i] == runs[i];
    InRunsOfGrown(runs, r.begin, r.end);
  }

  lemma OpenCloses(runs: seq<Run>, r: Run, seen: seq<nat>)
    requires Open(runs, Some(r), seen)
    ensures Open(runs + [r], None, seen)
  {
  }

  lemma MaximalSnoc(runs: seq<Run>, r: Run)
    requires Maximal(runs) && r.begin <= r.end
    requires runs != [] ==> runs[|runs| - 1].end + 1 < r.begin
    ensures Maximal(runs + [r])
  {
    assert forall i :: 0 <= i < |runs| - 1 ==> runs[i].end + 1 < runs[|runs| - 1].begin;
  }

  lemma OpenStarts(runs: seq<Run>, seen: seq<nat>, s: nat)
    requires Open(runs, None, seen)
    requires seen != [] ==> seen[|seen| - 1] + 1 < s
    ensures Open(runs, Some(Run(s, s)), seen + [s])
  {
    if runs != [] {
      assert InRuns(runs, runs[0].begin);
      assert runs[0].begin in seen;
    }
    hide InRuns;
    InRunsOfSnoc(runs, Run(s, s));
    MaximalSnoc(runs, Run(s, s));
  }

  /** The runs hold exactly the first `n` keys. */
  ghost predicate HoldsPrefix(runs: seq<Run>, keys: seq<nat>, n: nat)
    requires n <= |keys|
  {
    forall s: nat :: InRuns(runs, s) <==> s in keys[..n]
  }

  lemma OpenHolds(runs: seq<Run>, keys: seq<nat>, n: nat)
    requires n <= |keys| && Open(runs, None, keys[..n])
    ensures Maximal(runs) && HoldsPrefix(runs, keys, n)
  {
  }

  lemma PrefixAt(keys: seq<nat>, n: nat, s: nat) returns (k: nat)
    requires n <= |keys| && s in keys[..n]
    ensures k < n && keys[k] == s && s in keys
  {
    k :| 0 <= k < n && keys[..n][k] == s;
  }

  lemma RunsWithin(live: Live, after: nat, to: nat, keys: seq<nat>, n: nat, runs: seq<Run>)
    requires forall s :: s in keys <==> s in live && after + 1 <= s
    requires n <= |keys| && Maximal(runs) && HoldsPrefix(runs, keys, n)
    requires to != 0 ==> forall k :: 0 <= k < n ==> keys[k] <= to
    ensures forall s: nat :: InRuns(runs, s) ==> s in live && InRange(s, after, to)
    ensures forall i :: 0 <= i < |runs| ==> InRange(runs[i].begin, after, to) && InRange(runs[i].end, after, to)
  {
    forall s: nat | InRuns(runs, s)
      ensures s in live && InRange(s, after, to)
    {
      var k := PrefixAt(keys, n, s);
    }
    forall i | 0 <= i < |runs|
      ensures InRange(runs[i].begin, after, to) && InRange(runs[i].end, after, to)
    {
      assert InRuns(runs, runs[i].begin) && InRuns(runs, runs[i].end);
    }
  }

  lemma RunsMissOnlyLater(live: Live, after: nat, to: nat, keys: seq<nat>, n: nat, runs: seq<Run>, truncated: bool,
                          s: nat)
    requires StrictlyIncreasing(keys) && forall x :: x in keys <==> x in live && after + 1 <= x
    requires n <= |keys| && Maximal(runs) && HoldsPrefix(runs, keys, n)
    requires if truncated then runs != [] && n < |keys| else n == |keys| || (to != 0 && keys[n] > to)
    requires s in live && InRange(s, after, to) && !InRuns(runs, s)
    ensures truncated && runs != [] && runs[|runs| - 1].end < s
  {
    assert s in keys;
    var k: nat :| k < |keys| && keys[k] == s;
    assert forall j :: 0 <= j < n ==> keys[..n][j] == keys[j];
    if truncated {
      var e := runs[|runs| - 1].end;
      assert InRuns(runs, e);
      var j := PrefixAt(keys, n, e);
    }
  }

  /** What `/pull` promises: exactly the live packets of `(after, to]`, ascending. */
  ghost predicate PullAnswer(live: Live, after: nat, to: nat, ps: seq<Packet>) {
    && (forall i, j :: 0 <= i < j < |ps| ==> ps[i].seqNo < ps[j].seqNo)
    && (forall i :: 0 <= i < |ps| ==>
          after < ps[i].seqNo <= to && ps[i].seqNo in live && live[ps[i].seqNo] == ps[i].payload)
    && (forall s :: s in live && after < s <= to ==> exists i :: 0 <= i < |ps| && ps[i].seqNo == s)
  }

  /** `PacketStore::pull`. */
  method PullSeqs(live: Live, after: nat, to: nat) returns (r: Result<seq<Packet>>)
    requires Bounded(live)
    ensures r.Err? <==> to <= after
    ensures r.Err? ==> r == Err(InvalidRange)
    ensures r.Ok? ==> PullAnswer(live, after, to, r.value)
  {
    if to == 0 || to <= after {
      return Err(InvalidRange);
    }
    if after >= U64_MAX {
      return Ok([]);
    }
    var keys := Scan(live, after + 1);
    var result: seq<Packet> := [];
    var i := 0;
    while i < |keys| && keys[i] <= to
      invariant 0 <= i == |result| <= |keys|
      invariant forall k :: 0 <= k < i ==>
                  keys[k] in live && keys[k] <= to && result[k] == Packet(keys[k], live[keys[k]])
    {
      assert keys[i] in keys;
      result := result + [Packet(keys[i], live[keys[i]])];
      i := i + 1;
    }
    forall s | s in live && after < s <= to
      ensures exists k :: 0 <= k < |result| && result[k].seqNo == s
    {
      assert s in keys;
      var k :| 0 <= k < |keys| && keys[k] == s;
      assert k < |result| ==> result[k].seqNo == s;
    }
    assert forall k :: 0 <= k < i ==> keys[k] in keys;
    return Ok(result);
  }

  function Without(live: Live, from: nat, to: nat): Live {
    map s | s in live && !(Max(from, 1) <= s <= to) :: live[s]
  }

  /** The client's connection to the server. `hist[k]` is the live set on which request `k` was evaluated. */
  class Network {
    const env: Env
    var live: Live
    var now: nat
    ghost var hist: seq<Live>
    /** The seqs of all push requests made, in order. */
    ghost var pushes: seq<nat>

    ghost predicate Valid()
      reads this
    {
      && EnvBounded(env)
      && Bounded(live)
      && |hist| == now
      && forall k :: 0 <= k < |hist| ==> Bounded(hist[k])
    }

    constructor (env: Env, live: Live)
      requires EnvBounded(env) && Bounded(live)
      ensures Valid() && this.env == env && this.live == live && now == 0 && pushes == []
    {
      this.env := env;
      this.live := live;
      now := 0;
      hist, pushes := [], [];
    }

    /** Others act, then our request is evaluated. */
    method Arrive() returns (fault: Fault)
      requires Valid()
      modifies this`live, this`now, this`hist
      ensures Valid()
      ensures now == old(now) + 1 && fault == env.fault(old(now))
      ensures live == env.step(old(now), old(live))
      ensures hist == old(hist) + [live]
    {
      fault := env.fault(now);
      live := env.step(now, live);
      hist := hist + [live];
      now := now + 1;
    }

    method MapRequest(after: nat, to: nat) returns (r: Result<MapResult>)
      requires Valid()
      modifies this`live, this`now, this`hist
      ensures Valid()
      ensures now == old(now) + 1 && live == env.step(old(now), old(live)) && hist == old(hist) + [live]
      ensures r.Ok? ==> MapAnswer(live, after, to, r.value)
      ensures r.Ok? <==> env.fault(old(now)).Fine? && !BadRange(after, to)
      ensures r.Err? ==> r.error == if env.fault(old(now)).Fine? then InvalidRange else Unreachable
    {
      var fault := Arrive();
      if fault != Fine {
        return Err(Unreachable);
      }
      r := MapSeqs(live, after, to);
    }

    method PullRequest(after: nat, to: nat) returns (r: Result<seq<Packet>>)
      requires Valid()
      modifies this`live, this`now, this`hist
      ensures Valid()
      ensures now == old(now) + 1 && live == env.step(old(now), old(live)) && hist == old(hist) + [live]
      ensures r.Ok? ==> PullAnswer(live, after, to, r.value)
      ensures r.Ok? <==> env.fault(old(now)).Fine? && after < to
      ensures r.Err? ==> r.error == if env.fault(old(now)).Fine? then InvalidRange else Unreachable
    {
      var fault := Arrive();
      if fault != Fine {
        return Err(Unreachable);
      }
      r := PullSeqs(live, after, to);
    }

    /** `/push`: refuses an occupied seq; the packet may be stored although the sender sees an error. */
    method PushRequest(s: nat, payload: Payload) returns (r: Result<()>)
      requires Valid()
      modifies this
      ensures Valid()
      ensures now == old(now) + 1 && pushes == old(pushes) + [s]
      ensures var mid := env.step(old(now), old(live));
              var stored := !env.fault(old(now)).RequestLost? && s < U64_MAX && s !in mid;
              && hist == old(hist) + [mid]
              && live == (if stored then mid[s := payload] else mid)
              && (r.Ok? <==> stored && env.fault(old(now)).Fine?)
              && (r == Err(DuplicateSeq) <==> env.fault(old(now)).Fine? && s in mid)
      ensures r.Err? ==> r.error in {Unreachable, DuplicateSeq, RangeOverflow}
    {
      pushes := pushes + [s];
      var fault := Arrive();
      if fault == RequestLost {
        return Err(Unreachable);
      }
      if s in live {
        r := Err(DuplicateSeq);
      } else if s >= U64_MAX {
        r := Err(RangeOverflow);
      } else {
        live := live[s := payload];
        r := Ok(());
      }
      if fault == ReplyLost {
        r := Err(Unreachable);
      }
    }

    /** `/determinate`: delete `[from, to]`, where `from == 0` means from the beginning. */
    method RemoveRequest(from: nat, to: nat) returns (r: Result<()>)
      requires Valid()
      modifies this`live, this`now, this`hist
      ensures Valid()
      ensures now == old(now) + 1
      ensures var mid := env.step(old(now), old(live));
              && hist == old(hist) + [mid]
              && live == (if env.fault(old(now)).RequestLost? || to == 0 || (from != 0 && from > to)
                          then mid else Without(mid, from, to))
      ensures r.Ok? <==> env.fault(old(now)).Fine? && to != 0 && !(from != 0 && from > to)
      ensures r.Err? ==> r.error in {Unreachable, InvalidRange}
    {
      var fault := Arrive();
      if fault == RequestLost {
        return Err(Unreachable);
      }
      if to == 0 || (from != 0 && from > to) {
        r := Err(InvalidRange);
      } else {
        live := Without(live, from, to);
        r := Ok(());
      }
      if fault == ReplyLost {
        r := Err(Unreachable);
      }
    }

    method NotifyRequest() returns (r: Result<nat>)
      requires Valid()
      modifies this`live, this`now, this`hist
      ensures Valid()
      ensures now == old(now) + 1 && live == env.step(old(now), old(live)) && hist == old(hist) + [live]
      ensures r == if env.fault(old(now)).Fine? then Ok(env.notify(old(now))) else Err(Unreachable)
    {
      var t := now;
      var fault := Arrive();
      r := if fault == Fine then Ok(env.notify(t)) else Err(Unreachable);
    }
  }
}
