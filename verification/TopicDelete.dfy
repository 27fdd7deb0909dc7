/** Deleting a topic, or all but its newest messages: locally, on the server, and in the end at the peer. */
module TopicDelete {
  import opened Base
  import opened LocalStore
  import opened ReceiveSpec
  import opened ReceiveTheorems
  import opened Runs
  import opened Server
  import opened Sorting
  import opened Types
  import D = Dialogue

  /** The last seq that belongs to a message: the end of its file body if it has one. */
  function SpanEnd(m: Message): nat
    requires m.serverSeq.Some?
  {
    if m.content.Attach? && m.content.file.bodyTo >= m.serverSeq.value then m.content.file.bodyTo else m.serverSeq.value
  }

  predicate InSpan(m: Message, s: nat) {
    m.serverSeq.Some? && m.serverSeq.value <= s <= SpanEnd(m)
  }

  predicate Sendable(m: Message) { m.serverSeq.Some? }

  /** The seqs of all messages of `ms`, bodies included. */
  ghost predicate SpannedBy(ms: seq<Message>, s: nat) {
    exists i :: 0 <= i < |ms| && InSpan(ms[i], s)
  }

  /** The messages of a topic, in no particular order. */
  ghost predicate Lists(messages: Messages, topic: Topic, ms: seq<Message>) {
    NoRepeats(ms) && forall m :: m in ms <==> Stored(messages, m) && m.topic == Some(topic)
  }

  predicate Stored(messages: Messages, m: Message) { m.id in messages && messages[m.id] == m }

  method ListTopicMessages(store: Store, topic: Topic) returns (ms: seq<Message>)
    requires store.Valid()
    ensures Lists(store.messages, topic, ms)
  {
    ms := [];
    ghost var seen: set<Id> := {};
    var rest := store.messages.Keys;
    while rest != {}
      invariant rest + seen == store.messages.Keys && rest !! seen && NoRepeats(ms)
      invariant forall m :: m in ms <==> m.id in seen && Stored(store.messages, m) && m.topic == Some(topic)
      decreases rest
    {
      var id :| id in rest;
      var m := store.messages[id];
      if m.topic == Some(topic) {
        assert m !in multiset(ms);
        ms := ms + [m];
      }
      rest := rest - {id};
      seen := seen + {id};
    }
  }

  /** The messages that carry a seq, in the same order. */
  function SendableOnly(ms: seq<Message>): seq<Message> {
    if ms == [] then [] else (if Sendable(ms[0]) then [ms[0]] else []) + SendableOnly(ms[1..])
  }

  /** The seqs to delete on the server and in the local store. */
  method SeqsOf(ms: seq<Message>) returns (server: seq<nat>, local: seq<nat>)
    ensures forall s: nat :: s in server <==> SpannedBy(ms, s)
    ensures forall s: nat :: s in local <==> exists i :: 0 <= i < |ms| && ms[i].serverSeq == Some(s)
    ensures |local| == |SendableOnly(ms)|
  {
    server, local := [], [];
    var i := 0;
    while i < |ms|
      invariant 0 <= i <= |ms|
      invariant forall s: nat :: s in server <==> SpannedBy(ms[..i], s)
      invariant forall s: nat :: s in local <==> exists k :: 0 <= k < i && ms[k].serverSeq == Some(s)
      invariant |local| + |SendableOnly(ms[i..])| == |SendableOnly(ms)|
    {
      SpannedBySnoc(ms, i);
      assert ms[i..][1..] == ms[i + 1..];
      if ms[i].serverSeq.Some? {
        local := local + [ms[i].serverSeq.value];
        var span := SpanSeqs(ms[i]);
        server := server + span;
      }
      i := i + 1;
    }
    assert ms[..i] == ms;
  }

  lemma SpannedBySnoc(ms: seq<Message>, i: nat)
    requires i < |ms|
    ensures forall s: nat :: SpannedBy(ms[..i + 1], s) <==> SpannedBy(ms[..i], s) || InSpan(ms[i], s)
  {
    forall s: nat
      ensures SpannedBy(ms[..i + 1], s) <==> SpannedBy(ms[..i], s) || InSpan(ms[i], s)
    {
      assert InSpan(ms[i], s) ==> InSpan(ms[..i + 1][i], s);
      assert forall k :: 0 <= k < i ==> ms[..i][k] == ms[..i + 1][k];
    }
  }

  method SpanSeqs(m: Message) returns (xs: seq<nat>)
    requires Sendable(m)
    ensures forall s: nat :: s in xs <==> InSpan(m, s)
  {
    xs := [m.serverSeq.value];
    if m.content.Attach? && m.content.file.bodyTo >= m.serverSeq.value {
      var s := m.serverSeq.value + 1;
      while s <= m.content.file.bodyTo
        invariant m.serverSeq.value < s <= m.content.file.bodyTo + 1
        invariant forall x: nat :: x in xs <==> m.serverSeq.value <= x < s
      {
        xs := xs + [s];
        s := s + 1;
      }
    }
  }

  const SELF: nat -> nat := (n: nat) => n

  /** `sort_unstable` and `dedup`. */
  method SortDedup(xs: seq<nat>) returns (ys: seq<nat>)
    ensures StrictlyIncreasing(ys)
    ensures forall s: nat :: s in ys <==> s in xs
  {
    var sorted := SortBy(xs, SELF);
    SortBySorts(xs, SELF);
    SameMultisetSameElements(xs, sorted);
    hide SortBy;
    SortedNats(sorted);
    ys := Dedup(sorted);
  }

  ghost predicate Increasing(xs: seq<nat>) {
    forall i, j :: 0 <= i < j < |xs| ==> xs[i] <= xs[j]
  }

  lemma SortedNats(xs: seq<nat>)
    requires SortedBy(xs, SELF)
    ensures Increasing(xs)
  {
    forall i, j | 0 <= i < j < |xs|
      ensures xs[i] <= xs[j]
    {
      assert SELF(xs[i]) <= SELF(xs[j]);
    }
  }

  method Dedup(xs: seq<nat>) returns (ys: seq<nat>)
    requires Increasing(xs)
    ensures StrictlyIncreasing(ys)
    ensures forall s: nat :: s in ys <==> s in xs
  {
    ys := [];
    var i := 0;
    while i < |xs|
      invariant 0 <= i <= |xs|
      invariant DedupSoFar(xs, ys, i)
    {
      DedupNext(xs, ys, i);
      if ys == [] || ys[|ys| - 1] != xs[i] {
        ys := ys + [xs[i]];
      }
      i := i + 1;
    }
    assert xs[..i] == xs;
  }

  ghost predicate DedupSoFar(xs: seq<nat>, ys: seq<nat>, i: nat) {
    && i <= |xs| && StrictlyIncreasing(ys)
    && (forall s: nat :: s in ys <==> s in xs[..i])
    && (i == 0 <==> ys == []) && (i > 0 ==> ys[|ys| - 1] == xs[i - 1])
  }

  lemma DedupNext(xs: seq<nat>, ys: seq<nat>, i: nat)
    requires Increasing(xs) && i < |xs| && DedupSoFar(xs, ys, i)
    ensures DedupSoFar(xs, if ys == [] || ys[|ys| - 1] != xs[i] then ys + [xs[i]] else ys, i + 1)
  {
    assert xs[..i + 1] == xs[..i] + [xs[i]];
    assert forall k :: 0 <= k < |ys| ==> ys[k] <= ys[|ys| - 1];
  }

  /** Of what others leave alone, exactly the positive seqs in `runs` are gone. */
  ghost predicate Removed(env: Env, live: Live, live': Live, runs: seq<Run>) {
    forall s: nat :: Leaves(env, s) ==>
      if 0 < s && InRuns(runs, s) then s !in live' else SameAt(live, live', s)
  }

  /** Of what others leave alone, nothing outside the spans of `ms` was touched. */
  ghost predicate SparesOthers(env: Env, live: Live, live': Live, ms: seq<Message>) {
    forall s: nat :: Leaves(env, s) && !SpannedBy(ms, s) ==> SameAt(live, live', s)
  }

  /** Of what others leave alone, exactly the spans of `ms` are gone. */
  ghost predicate Erased(env: Env, live: Live, live': Live, ms: seq<Message>) {
    SparesOthers(env, live, live', ms) && forall s: nat :: Leaves(env, s) && 0 < s && SpannedBy(ms, s) ==> s !in live'
  }

  lemma RemovedNext(env: Env, t: nat, live0: Live, live: Live, live': Live, runs: seq<Run>, r: Run)
    requires Removed(env, live0, live, runs)
    requires live' == Without(env.step(t, live), r.begin, r.end)
    ensures Removed(env, live0, live', runs + [r])
  {
    InRunsOfSnoc(runs, r);
    hide InRuns;
    forall s: nat | Leaves(env, s)
      ensures if 0 < s && InRuns(runs + [r], s) then s !in live' else SameAt(live0, live', s)
    {
      assert SameAt(live, env.step(t, live), s);
    }
  }

  lemma SparesAfterFailure(env: Env, t: nat, live0: Live, live: Live, live': Live, runs: seq<Run>, n: nat,
                           ms: seq<Message>)
    requires n < |runs| && Removed(env, live0, live, runs[..n])
    requires forall s: nat :: InRuns(runs, s) ==> SpannedBy(ms, s)
    requires live' == Without(env.step(t, live), runs[n].begin, runs[n].end)
             || live' == env.step(t, live) || live' == live
    ensures SparesOthers(env, live0, live', ms)
  {
    forall s: nat | Leaves(env, s) && !SpannedBy(ms, s)
      ensures SameAt(live0, live', s)
    {
      assert !InRuns(runs, s);
      assert !InRuns(runs[..n], s) by {
        assert forall i :: 0 <= i < n ==> runs[..n][i] == runs[i];
      }
      assert SameAt(live0, live, s) && SameAt(live, env.step(t, live), s);
    }
  }

  lemma RemovedErases(env: Env, live: Live, live': Live, runs: seq<Run>, ms: seq<Message>)
    requires Removed(env, live, live', runs)
    requires forall s: nat :: InRuns(runs, s) <==> SpannedBy(ms, s)
    ensures Erased(env, live, live', ms)
  {
    hide InRuns, SpannedBy;
    forall s: nat | Leaves(env, s) && !SpannedBy(ms, s)
      ensures SameAt(live, live', s)
    {
      assert !InRuns(runs, s);
    }
    forall s: nat | Leaves(env, s) && 0 < s && SpannedBy(ms, s)
      ensures s !in live'
    {
      assert InRuns(runs, s);
    }
  }

  lemma NothingRemoved(env: Env, live: Live)
    ensures Removed(env, live, live, [])
  {
  }

  lemma ErasedSpares(env: Env, live: Live, live': Live, ms: seq<Message>)
    requires Erased(env, live, live', ms)
    ensures SparesOthers(env, live, live', ms)
  {
  }

  /** `remove_server_range`. */
  method RemoveServerRange(net: Network, run: Run) returns (r: Result<()>)
    requires net.Valid() && run.begin <= run.end
    modifies net`live, net`now, net`hist
    ensures net.Valid() && old(net.now) <= net.now && old(net.hist) <= net.hist
    ensures net.live == old(net.live) || net.live == net.env.step(old(net.now), old(net.live))
            || net.live == Without(net.env.step(old(net.now), old(net.live)), run.begin, run.end)
    ensures r.Ok? ==> net.live == Without(net.env.step(old(net.now), old(net.live)), run.begin, run.end)
    ensures r.Err? ==> r.error in {Unreachable, InvalidRange}
  {
    if run.end == 0 {
      return Err(InvalidRange);
    }
    r := net.RemoveRequest(run.begin, run.end);
  }

  /** Delete the listed seqs on the server, range by range. */
  method EraseOnServer(net: Network, seqs: seq<nat>, ghost ms: seq<Message>) returns (r: Result<()>)
    requires net.Valid() && forall s: nat :: s in seqs <==> SpannedBy(ms, s)
    modifies net`live, net`now, net`hist
    ensures net.Valid() && old(net.now) <= net.now && old(net.hist) <= net.hist
    ensures SparesOthers(net.env, old(net.live), net.live, ms)
    ensures r.Ok? ==> Erased(net.env, old(net.live), net.live, ms)
    ensures r.Err? ==> r.error in {Unreachable, InvalidRange}
  {
    hide SpannedBy, EnvBounded, Bounded, InRuns, StrictlyIncreasing, Maximal, Leaves, SparesOthers, Erased;
    var sorted := SortDedup(seqs);
    var runs := ContiguousRuns(sorted);
    ghost var live0 := net.live;
    NothingRemoved(net.env, live0);
    assert runs[..0] == [];
    var i := 0;
    while i < |runs|
      invariant 0 <= i <= |runs| && net.Valid() && old(net.now) <= net.now && old(net.hist) <= net.hist
      invariant Removed(net.env, live0, net.live, runs[..i])
    {
      assert runs[..i + 1] == runs[..i] + [runs[i]];
      ghost var live, t := net.live, net.now;
      r := RemoveServerRange(net, runs[i]);
      if r.Err? {
        SparesAfterFailure(net.env, t, live0, live, net.live, runs, i, ms);
        return;
      }
      RemovedNext(net.env, t, live0, live, net.live, runs[..i], runs[i]);
      i := i + 1;
    }
    assert runs[..i] == runs;
    RemovedErases(net.env, live0, net.live, runs, ms);
    ErasedSpares(net.env, live0, net.live, ms);
    return Ok(());
  }

  // ── deletion ────────────────────────────────────────────────────────────

  /** Locally exactly the sendable ones of `doomed` are gone. */
  ghost predicate Forgotten(before: Messages, after: Messages, doomed: seq<Message>) {
    forall id :: (id in after <==> id in before && !(Sendable(before[id]) && before[id] in doomed))
              && (id in after ==> after[id] == before[id])
  }

  lemma DeleteForgets(t: Tables, doomed: seq<Message>, local: seq<nat>)
    requires KeyedById(t.messages) && DistinctSeqs(t.messages) && forall m :: m in doomed ==> Stored(t.messages, m)
    requires forall s: nat :: s in local <==> exists i :: 0 <= i < |doomed| && doomed[i].serverSeq == Some(s)
    ensures Forgotten(t.messages, DeleteSeqs(t, set s | s in local).messages, doomed)
  {
    forall id | id in t.messages && Sendable(t.messages[id])
      ensures t.messages[id].serverSeq.value in local <==> t.messages[id] in doomed
    {
      if t.messages[id].serverSeq.value in local {
        var i :| 0 <= i < |doomed| && doomed[i].serverSeq == t.messages[id].serverSeq;
        assert Stored(t.messages, doomed[i]);
      }
    }
  }

  lemma DeleteKeepsInv(st: StoreState, seqs: set<nat>)
    requires Inv(st)
    ensures Inv(st.(tables := DeleteSeqs(st.tables, seqs)))
  {
  }

  /** What a deletion of `doomed` did, to the server and to the local store. Nothing is forgotten locally
      before everything is erased on the server. */
  ghost predicate Deleted(env: Env, live: Live, live': Live, st: StoreState, st': StoreState,
                          doomed: seq<Message>, r: Result<nat>)
  {
    && SparesOthers(env, live, live', doomed)
    && st' == st.(tables := st.tables.(messages := st'.tables.messages))
    && (r.Ok? ==> Erased(env, live, live', doomed) && Forgotten(st.tables.messages, st'.tables.messages, doomed))
    && (r.Ok? ==> r.value == |SendableOnly(doomed)|)
    && (r.Err? ==> st' == st && r.error in {Unreachable, InvalidRange})
  }

  method DeleteMessages(d: D.Dialogue, doomed: seq<Message>) returns (r: Result<nat>)
    requires d.Valid() && forall m :: m in doomed ==> Stored(d.store.messages, m)
    modifies d.net`live, d.net`now, d.net`hist, d.store`messages
    ensures d.Valid() && old(d.net.now) <= d.net.now && old(d.net.hist) <= d.net.hist
    ensures Deleted(d.net.env, old(d.net.live), d.net.live, old(d.store.State()), d.store.State(), doomed, r)
  {
    hide SpannedBy, EnvBounded, Bounded, SparesOthers, Erased, SendableOnly, Forgotten;
    var server, local := SeqsOf(doomed);
    var erased := EraseOnServer(d.net, server, doomed);
    if erased.Err? {
      return Err(erased.error);
    }
    DeleteForgets(d.store.AllTables(), doomed, local);
    DeleteKeepsInv(d.store.State(), set s | s in local);
    hide Inv;
    d.store.DeleteMessagesBySeqs(set s | s in local);
    return Ok(|local|);
  }

  /** `delete_topic`. */
  method DeleteTopic(d: D.Dialogue, topic: Topic) returns (r: Result<nat>, ghost doomed: seq<Message>)
    requires d.Valid()
    modifies d.net`live, d.net`now, d.net`hist, d.store`messages
    ensures d.Valid() && old(d.net.now) <= d.net.now && old(d.net.hist) <= d.net.hist
    ensures Lists(old(d.store.messages), topic, doomed)
    ensures Deleted(d.net.env, old(d.net.live), d.net.live, old(d.store.State()), d.store.State(), doomed, r)
  {
    var ms := ListTopicMessages(d.store, topic);
    doomed := ms;
    if ms == [] {
      return Ok(0), doomed;
    }
    r := DeleteMessages(d, ms);
  }

  // ── trimming ────────────────────────────────────────────────────────────

  function SeqOrMax(m: Message): nat { m.serverSeq.GetOr(U64_MAX) }

  const BY_SEQ: Message -> nat := (m: Message) => SeqOrMax(m)

  lemma {:induction false} SendableMembers(ms: seq<Message>)
    ensures forall m :: m in SendableOnly(ms) <==> m in ms && Sendable(m)
    ensures forall m :: multiset(SendableOnly(ms))[m] <= multiset(ms)[m]
  {
    if ms != [] {
      SendableMembers(ms[1..]);
      assert ms == [ms[0]] + ms[1..];
    }
  }

  lemma {:induction false} SendableSorted(ms: seq<Message>)
    requires SortedBy(ms, BY_SEQ)
    ensures SortedBy(SendableOnly(ms), BY_SEQ)
  {
    if ms != [] {
      SendableSorted(ms[1..]);
      SendableMembers(ms[1..]);
      var rest := SendableOnly(ms[1..]);
      forall i | 0 <= i < |rest|
        ensures BY_SEQ(ms[0]) <= BY_SEQ(rest[i])
      {
        assert rest[i] in ms[1..];
      }
    }
  }

  lemma {:induction false} SendableIsSendable(ms: seq<Message>)
    requires forall m :: m in ms ==> Sendable(m)
    ensures SendableOnly(ms) == ms
  {
    if ms != [] {
      SendableIsSendable(ms[1..]);
    }
  }

  /** Oldest first, strictly. */
  ghost predicate OldestFirst(ms: seq<Message>) {
    forall i, j :: 0 <= i < j < |ms| ==> SeqOrMax(ms[i]) < SeqOrMax(ms[j])
  }

  lemma TopicOldestFirst(messages: Messages, topic: Topic, ms: seq<Message>, sorted: seq<Message>)
    requires Lists(messages, topic, ms) && DistinctSeqs(messages)
    requires SortedBy(sorted, BY_SEQ) && multiset(sorted) == multiset(ms)
    ensures OldestFirst(SendableOnly(sorted))
    ensures forall m :: m in SendableOnly(sorted) <==> Stored(messages, m) && m.topic == Some(topic) && Sendable(m)
  {
    SendableMembers(sorted);
    SendableSorted(sorted);
    SameMultisetSameElements(ms, sorted);
    var xs := SendableOnly(sorted);
    forall i, j | 0 <= i < j < |xs|
      ensures SeqOrMax(xs[i]) < SeqOrMax(xs[j])
    {
      assert BY_SEQ(xs[i]) <= BY_SEQ(xs[j]);
      assert xs[i] in xs && xs[j] in xs;
      if xs[i] == xs[j] {
        RepeatCountsTwice(xs, i, j);
      }
    }
  }

  /** How a trim divides the sendable messages of a topic. */
  ghost predicate Divides(messages: Messages, topic: Topic, keep: nat, doomed: seq<Message>, kept: seq<Message>) {
    && OldestFirst(doomed + kept)
    && (forall m :: m in doomed + kept <==> Stored(messages, m) && m.topic == Some(topic) && Sendable(m))
    && |kept| <= keep && (doomed != [] ==> |kept| == keep)
  }

  /** `trim_topic_keep_last`. */
  method TrimTopicKeepLast(d: D.Dialogue, topic: Topic, keep: nat, dryRun: bool)
    returns (r: Result<nat>, ghost doomed: seq<Message>, ghost kept: seq<Message>)
    requires d.Valid()
    modifies d.net`live, d.net`now, d.net`hist, d.store`messages
    ensures d.Valid()
    ensures Divides(old(d.store.messages), topic, keep, doomed, kept)
    ensures r.Ok? ==> r.value == |doomed|
    ensures dryRun ==>
              && r.Ok? && d.net.live == old(d.net.live) && d.net.now == old(d.net.now)
              && d.store.messages == old(d.store.messages)
    ensures !dryRun ==>
              Deleted(d.net.env, old(d.net.live), d.net.live, old(d.store.State()), d.store.State(), doomed, r)
  {
    hide SpannedBy, EnvBounded, Bounded, SparesOthers, Erased, SendableOnly, SortBy, Forgotten;
    var ms := ListTopicMessages(d.store, topic);
    var sorted := SortedBySeq(ms);
    TopicOldestFirst(d.store.messages, topic, ms, sorted);
    var sendable := SendableOnly(sorted);
    var toDelete := if |sendable| <= keep then 0 else |sendable| - keep;
    var dead := sendable[..toDelete];
    doomed, kept := dead, sendable[toDelete..];
    assert doomed + kept == sendable;
    SendableIsSendable(dead);
    if |sendable| <= keep {
      NothingDoomed(d.net.env, d.net.live, d.store.State());
      return Ok(0), doomed, kept;
    }
    if dryRun {
      return Ok(|dead|), doomed, kept;
    }
    r := DeleteMessages(d, dead);
  }

  method SortedBySeq(ms: seq<Message>) returns (sorted: seq<Message>)
    ensures SortedBy(sorted, BY_SEQ) && multiset(sorted) == multiset(ms)
  {
    sorted := SortBy(ms, BY_SEQ);
    SortBySorts(ms, BY_SEQ);
  }

  lemma NothingDoomed(env: Env, live: Live, st: StoreState)
    ensures Deleted(env, live, live, st, st, [], Ok(0))
  {
  }

  // ── what others are left with ───────────────────────────────────────────

  /** A message that was not to be deleted stays in the local store, and its packet stays on the server exactly
      if no deleted message claims its seq as part of a body. */
  lemma OtherMessageSpared(env: Env, live: Live, live': Live, st: StoreState, st': StoreState, doomed: seq<Message>,
                           r: Result<nat>, m: Message)
    requires Deleted(env, live, live', st, st', doomed, r) && r.Ok?
    requires Stored(st.tables.messages, m) && m !in doomed
    requires Sendable(m) && 0 < m.serverSeq.value && Leaves(env, m.serverSeq.value)
    ensures Stored(st'.tables.messages, m)
    ensures m.serverSeq.value in live ==>
              (m.serverSeq.value in live' <==> !SpannedBy(doomed, m.serverSeq.value))
    ensures m.serverSeq.value in live' ==> live'[m.serverSeq.value] == live[m.serverSeq.value]
  {
    assert !SpannedBy(doomed, m.serverSeq.value) ==> SameAt(live, live', m.serverSeq.value);
  }

  /** How a deletion erases a packet of another message: a header is received whose body claims the seq of a message
      sent meanwhile, outside the topic. Once the header's message is deleted the other message stays in the store,
      but its packet is gone from the server. */
  lemma BodyClaimErasesOther(rd: Reader, st: StoreState, p: Packet, inner: Inner, other: Message, env: Env, live: Live,
                             live': Live, st': StoreState, r: Result<nat>)
    requires Opened(rd, p) == Some(inner) && inner.content.FileHeader? && !HasSeq(st.tables.messages, p.seqNo)
    requires Stored(st.tables.messages, other) && other.serverSeq.Some? && other.id != inner.content.transferId
    requires p.seqNo < other.serverSeq.value <= p.seqNo + inner.content.chunks && other.topic != inner.topic
    ensures var header := HeaderMessage(inner, p.seqNo);
            var st1 := st.(tables := Handle(rd, st.tables, p).0);
            && Stored(st1.tables.messages, header) && Stored(st1.tables.messages, other)
            && (Deleted(env, live, live', st1, st', [header], r) && r.Ok? ==>
                  Leaves(env, other.serverSeq.value) && other.serverSeq.value in live ==>
                  Stored(st'.tables.messages, other) && other.serverSeq.value !in live')
  {
    hide Deleted, Leaves;
    var header := HeaderMessage(inner, p.seqNo);
    var st1 := st.(tables := Handle(rd, st.tables, p).0);
    assert InSpan([header][0], other.serverSeq.value);
    if Deleted(env, live, live', st1, st', [header], r) && r.Ok? && Leaves(env, other.serverSeq.value) {
      OtherMessageSpared(env, live, live', st1, st', [header], r, other);
    }
  }

  /** One side deletes a topic, the other side receives: every confirmed copy of an erased seq is gone there, and
      every message whose packet was not erased is still there. */
  method DeleteTopicEverywhere(d: D.Dialogue, peer: D.Dialogue, topic: Topic)
    returns (deleted: Result<nat>, received: Result<(seq<Message>, nat)>, ghost doomed: seq<Message>,
             ghost tr: Trace, ghost t1: nat)
    requires d.Valid() && peer.Valid() && peer.net == d.net && peer.store != d.store
    modifies d.net`live, d.net`now, d.net`hist, d.store, peer.store
    ensures d.Valid() && peer.Valid()
    ensures Lists(old(d.store.messages), topic, doomed)
    ensures deleted.Ok? ==> Forgotten(old(d.store.messages), d.store.messages, doomed)
    ensures old(d.net.now) <= t1 && old(d.net.hist) <= d.net.hist
    ensures Outcome(peer.rd, old(peer.store.State()), peer.store.State(), tr, d.net.hist, t1, d.net.now, received.Ok?)
    ensures deleted.Ok? && received.Ok? ==>
              forall s: nat, id :: 0 < s && SpannedBy(doomed, s) && Leaves(d.net.env, s)
                && id in peer.store.messages && peer.store.messages[id].serverSeq == Some(s)
                ==> peer.store.messages[id].status !in {Delivered, Read}
    ensures deleted.Ok? && received.Ok? && FreshIds(peer.rd, old(peer.store.AllTables()), tr.log) ==>
              forall s: nat, id :: 0 < s && !SpannedBy(doomed, s) && Leaves(d.net.env, s) && s in old(d.net.live)
                && id in old(peer.store.messages) && old(peer.store.messages)[id].serverSeq == Some(s)
                ==> id in peer.store.messages && peer.store.messages[id].serverSeq == Some(s)
  {
    hide SpannedBy, EnvBounded, Bounded, SparesOthers, Leaves, Lists, Outcome, Forgotten, Kept, SendableOnly, Inv;
    hide FreshIds, LiveThroughout;
    ghost var live0 := d.net.live;
    deleted, doomed := DeleteTopic(d, topic);
    t1 := d.net.now;
    ghost var live1, st1 := d.net.live, peer.store.State();
    received, tr := peer.Receive();
    if deleted.Ok? && received.Ok? {
      forall s: nat, id | 0 < s && SpannedBy(doomed, s) && Leaves(d.net.env, s)
                          && id in peer.store.messages && peer.store.messages[id].serverSeq == Some(s)
        ensures peer.store.messages[id].status !in {Delivered, Read}
      {
        StaysGone(d.net.env, live1, d.net.hist, t1, d.net.live, s);
        DeletionConverges(peer.rd, st1, peer.store.State(), tr, d.net.hist, t1, d.net.now, s);
      }
      if FreshIds(peer.rd, st1.tables, tr.log) {
        forall s: nat, id | 0 < s && !SpannedBy(doomed, s) && Leaves(d.net.env, s) && s in live0
                            && id in st1.tables.messages && st1.tables.messages[id].serverSeq == Some(s)
          ensures id in peer.store.messages && peer.store.messages[id].serverSeq == Some(s)
        {
          StaysLive(d.net.env, live0, live1, doomed, d.net.hist, t1, d.net.live, s);
          StaysAtPeer(peer.rd, st1, peer.store.State(), tr, d.net.hist, t1, d.net.now, s, id);
        }
      }
    }
  }

  lemma StaysLive(env: Env, live0: Live, live: Live, ms: seq<Message>, hist: seq<Live>, t0: nat, live': Live, s: nat)
    requires SparesOthers(env, live0, live, ms) && Kept(env, live, hist, t0, live')
    requires Leaves(env, s) && !SpannedBy(ms, s) && s in live0
    ensures LiveThroughout(hist, t0, |hist|, s)
  {
    assert SameAt(live0, live, s);
    forall k | t0 <= k < |hist|
      ensures s in hist[k]
    {
      assert SameAt(live, hist[k], s);
    }
  }

  /** A message whose packet stays on the server survives a `receive`. */
  lemma StaysAtPeer(rd: Reader, st0: StoreState, st1: StoreState, tr: Trace, hist: seq<Live>, t0: nat, t1: nat,
                    s: nat, id: Id)
    requires Outcome(rd, st0, st1, tr, hist, t0, t1, true) && Inv(st0) && FreshIds(rd, st0.tables, tr.log)
    requires 0 < s && LiveThroughout(hist, t0, |hist|, s)
    requires id in st0.tables.messages && st0.tables.messages[id].serverSeq == Some(s)
    ensures id in st1.tables.messages && st1.tables.messages[id].serverSeq == Some(s)
  {
    hide Covered, Genuine, Fold, FreshIds, Orderly;
    FoldFaithful(rd, st0.tables, tr.log, st0.lastPulled);
    assert InRuns(tr.runs, s);
    assert id in Fold(rd, st0.tables, tr.log).messages;
  }

  lemma StaysGone(env: Env, live: Live, hist: seq<Live>, t0: nat, live': Live, s: nat)
    requires Kept(env, live, hist, t0, live') && Leaves(env, s) && s !in live
    ensures forall k :: t0 <= k < |hist| ==> s !in hist[k]
  {
    forall k | t0 <= k < |hist|
      ensures s !in hist[k]
    {
      assert SameAt(live, hist[k], s);
    }
  }
}
