/** What the sessions of a channel deliver over any run of appends, ticks, topic changes, crashes and restarts. */
module ChannelTheorems {
  import opened Base
  import opened Channel

  ghost predicate Ascending(rows: seq<Row>) {
    forall i, j :: 0 <= i < j < |rows| ==> rows[i].seqNo < rows[j].seqNo
  }

  /** The rows of the topic that its readers should see when the cursor goes from `lo` to `hi`. */
  function Wanted(rows: seq<Row>, key: string, lo: nat, hi: nat): seq<Row> {
    if rows == [] then []
    else
      var last := rows[|rows| - 1];
      Wanted(rows[..|rows| - 1], key, lo, hi) + if lo < last.seqNo <= hi && Deliverable(key, last) then [last] else []
  }

  lemma {:induction false} WantedNone(rows: seq<Row>, key: string, lo: nat, hi: nat)
    requires hi <= lo || (forall i :: 0 <= i < |rows| ==> rows[i].seqNo <= lo)
    ensures Wanted(rows, key, lo, hi) == []
  {
    if rows != [] {
      WantedNone(rows[..|rows| - 1], key, lo, hi);
    }
  }

  lemma WantedSnoc(rows: seq<Row>, last: Row, key: string, lo: nat, hi: nat)
    ensures Wanted(rows + [last], key, lo, hi) ==
            Wanted(rows, key, lo, hi) + if lo < last.seqNo <= hi && Deliverable(key, last) then [last] else []
  {
    assert (rows + [last])[..|rows|] == rows;
  }

  lemma {:induction false} WantedSplit(rows: seq<Row>, key: string, a: nat, b: nat, c: nat)
    requires Ascending(rows) && a <= b <= c
    ensures Wanted(rows, key, a, b) + Wanted(rows, key, b, c) == Wanted(rows, key, a, c)
  {
    hide Deliverable, Wanted;
    if rows == [] {
      WantedNone(rows, key, a, b);
      WantedNone(rows, key, b, c);
      WantedNone(rows, key, a, c);
    } else {
      var front, last := rows[..|rows| - 1], rows[|rows| - 1];
      assert rows == front + [last];
      WantedSplit(front, key, a, b, c);
      WantedSnoc(front, last, key, a, b);
      WantedSnoc(front, last, key, b, c);
      WantedSnoc(front, last, key, a, c);
      if last.seqNo <= b {
        WantedNone(front, key, b, c);
      }
    }
  }

  lemma {:induction false} MaxSeqBounds(rows: seq<Row>)
    ensures forall i :: 0 <= i < |rows| ==> rows[i].seqNo <= MaxSeq(rows)
    ensures rows != [] && Ascending(rows) ==> MaxSeq(rows) == rows[|rows| - 1].seqNo
  {
    if rows != [] {
      MaxSeqBounds(rows[..|rows| - 1]);
    }
  }

  lemma {:induction false} WantedMembers(rows: seq<Row>, key: string, lo: nat, hi: nat)
    ensures forall r :: r in Wanted(rows, key, lo, hi) <==> r in rows && lo < r.seqNo <= hi && Deliverable(key, r)
  {
    hide Deliverable;
    if rows != [] {
      WantedMembers(rows[..|rows| - 1], key, lo, hi);
      assert rows == rows[..|rows| - 1] + [rows[|rows| - 1]];
    }
  }

  // ── rows stored late ────────────────────────────────────────────────────

  /** The rows without those whose seq is in `late`. */
  function Timely(rows: seq<Row>, late: set<nat>): seq<Row> {
    if rows == [] then []
    else
      var last := rows[|rows| - 1];
      Timely(rows[..|rows| - 1], late) + if last.seqNo in late then [] else [last]
  }

  lemma {:induction false} TimelyMembers(rows: seq<Row>, late: set<nat>)
    ensures forall r :: r in Timely(rows, late) <==> r in rows && r.seqNo !in late
  {
    if rows != [] {
      TimelyMembers(rows[..|rows| - 1], late);
      assert rows == rows[..|rows| - 1] + [rows[|rows| - 1]];
    }
  }

  lemma {:induction false} TimelyAscending(rows: seq<Row>, late: set<nat>)
    requires Ascending(rows)
    ensures Ascending(Timely(rows, late))
  {
    if rows != [] {
      var n := |rows| - 1;
      TimelyAscending(rows[..n], late);
      TimelyMembers(rows[..n], late);
      var front := Timely(rows[..n], late);
      forall i | 0 <= i < |front|
        ensures front[i].seqNo < rows[n].seqNo
      {
        assert front[i] in rows[..n];
      }
    }
  }

  /** Where no row of the topic is late, being timely makes no difference. */
  lemma {:induction false} WantedTimely(rows: seq<Row>, late: set<nat>, key: string, lo: nat, hi: nat)
    requires forall r :: r in rows && Deliverable(key, r) && lo < r.seqNo <= hi ==> r.seqNo !in late
    ensures Wanted(Timely(rows, late), key, lo, hi) == Wanted(rows, key, lo, hi)
  {
    hide Deliverable;
    if rows != [] {
      var n := |rows| - 1;
      var front := Timely(rows[..n], late);
      assert forall r :: r in rows[..n] ==> r in rows;
      WantedTimely(rows[..n], late, key, lo, hi);
      if rows[n].seqNo !in late {
        assert (front + [rows[n]])[..|front|] == front;
      } else {
        assert rows[n] in rows && front + [] == front;
      }
    }
  }

  lemma {:induction false} InsertedMembers(rows: seq<Row>, row: Row)
    ensures forall r :: r in Inserted(rows, row) <==> r in rows || r == row
    ensures |Inserted(rows, row)| == |rows| + 1
  {
    if rows != [] && row.seqNo < rows[|rows| - 1].seqNo {
      InsertedMembers(rows[..|rows| - 1], row);
      assert rows == rows[..|rows| - 1] + [rows[|rows| - 1]];
    }
  }

  ghost predicate NewSeq(rows: seq<Row>, s: nat) {
    forall r :: r in rows ==> r.seqNo != s
  }

  lemma MaxSeqSnoc(rows: seq<Row>, last: Row)
    ensures MaxSeq(rows + [last]) == Max(MaxSeq(rows), last.seqNo)
  {
    assert (rows + [last])[..|rows|] == rows;
  }

  lemma AscendingSnoc(rows: seq<Row>, last: Row)
    requires Ascending(rows) && forall r :: r in rows ==> r.seqNo < last.seqNo
    ensures Ascending(rows + [last])
  {
    assert forall i :: 0 <= i < |rows| ==> rows[i] in rows;
  }

  lemma AscendingLast(rows: seq<Row>)
    requires Ascending(rows) && rows != []
    ensures forall r :: r in rows[..|rows| - 1] ==> r.seqNo < rows[|rows| - 1].seqNo
  {
  }

  lemma {:induction false} InsertedAscending(rows: seq<Row>, row: Row)
    requires Ascending(rows) && NewSeq(rows, row.seqNo)
    ensures Ascending(Inserted(rows, row)) && MaxSeq(Inserted(rows, row)) == Max(MaxSeq(rows), row.seqNo)
  {
    hide MaxSeq;
    if rows != [] {
      AscendingLast(rows);
      assert rows[|rows| - 1] in rows;
    }
    if rows != [] && row.seqNo < rows[|rows| - 1].seqNo {
      var n := |rows| - 1;
      var front, last := rows[..n], rows[n];
      assert rows == front + [last];
      InsertedAscending(front, row);
      InsertedMembers(front, row);
      AscendingSnoc(Inserted(front, row), last);
      MaxSeqSnoc(Inserted(front, row), last);
      MaxSeqSnoc(front, last);
    } else {
      assert rows != [] ==> rows == rows[..|rows| - 1] + [rows[|rows| - 1]];
      AscendingSnoc(rows, row);
      MaxSeqSnoc(rows, row);
    }
  }

  /** A row that is not wanted changes nothing about what is. */
  lemma {:induction false} WantedInserted(rows: seq<Row>, row: Row, key: string, lo: nat, hi: nat)
    requires !(lo < row.seqNo <= hi && Deliverable(key, row))
    ensures Wanted(Inserted(rows, row), key, lo, hi) == Wanted(rows, key, lo, hi)
  {
    hide Deliverable;
    if rows != [] && row.seqNo < rows[|rows| - 1].seqNo {
      var n := |rows| - 1;
      WantedInserted(rows[..n], row, key, lo, hi);
      WantedSnoc(Inserted(rows[..n], row), rows[n], key, lo, hi);
    } else {
      WantedSnoc(rows, row, key, lo, hi);
    }
  }

  lemma TimelySnoc(rows: seq<Row>, last: Row, late: set<nat>)
    ensures Timely(rows + [last], late) == Timely(rows, late) + if last.seqNo in late then [] else [last]
  {
    assert (rows + [last])[..|rows|] == rows;
  }

  /** What is wanted of the timely rows, one row further. */
  lemma WantedTimelySnoc(rows: seq<Row>, last: Row, late: set<nat>, key: string, lo: nat, hi: nat)
    ensures Wanted(Timely(rows + [last], late), key, lo, hi) ==
            Wanted(Timely(rows, late), key, lo, hi) +
            if last.seqNo !in late && lo < last.seqNo <= hi && Deliverable(key, last) then [last] else []
  {
    hide Deliverable, Timely, Wanted;
    var front := Timely(rows, late);
    TimelySnoc(rows, last, late);
    WantedSnoc(front, last, key, lo, hi);
    assert front + [] == front;
  }

  lemma {:induction false} TimelyInserted(rows: seq<Row>, row: Row, late: set<nat>, key: string, lo: nat, hi: nat)
    requires row.seqNo !in late ==> !(lo < row.seqNo <= hi && Deliverable(key, row))
    ensures Wanted(Timely(Inserted(rows, row), late), key, lo, hi) == Wanted(Timely(rows, late), key, lo, hi)
  {
    hide Deliverable, Timely, Wanted;
    if rows != [] && row.seqNo < rows[|rows| - 1].seqNo {
      var front, last := rows[..|rows| - 1], rows[|rows| - 1];
      assert rows == front + [last];
      TimelyInserted(front, row, late, key, lo, hi);
      WantedTimelySnoc(Inserted(front, row), last, late, key, lo, hi);
      WantedTimelySnoc(front, last, late, key, lo, hi);
    } else {
      WantedTimelySnoc(rows, row, late, key, lo, hi);
    }
  }

  lemma {:induction false} TimelyNewSeq(rows: seq<Row>, late: set<nat>, s: nat)
    requires NewSeq(rows, s)
    ensures Timely(rows, late + {s}) == Timely(rows, late)
  {
    if rows != [] {
      assert rows == rows[..|rows| - 1] + [rows[|rows| - 1]];
      TimelyNewSeq(rows[..|rows| - 1], late, s);
    }
  }

  // ── batches ─────────────────────────────────────────────────────────────

  /** `p` divides the rows at `from`. */
  ghost predicate Divides(rows: seq<Row>, from: nat, p: nat) {
    && p <= |rows|
    && (forall i :: 0 <= i < p ==> rows[i].seqNo <= from)
    && (forall i :: p <= i < |rows| ==> from < rows[i].seqNo)
  }

  function SeqAt(rows: seq<Row>, i: nat): nat {
    if i < |rows| then rows[i].seqNo else 0
  }

  lemma DividesUnique(rows: seq<Row>, from: nat, p: nat, q: nat)
    requires Divides(rows, from, p) && Divides(rows, from, q)
    ensures p == q
  {
    var a, b := SeqAt(rows, p), SeqAt(rows, q);
  }

  /** The rows above `from` are a suffix of an ascending store. */
  lemma {:induction false} NewerIsSuffix(rows: seq<Row>, from: nat) returns (p: nat)
    requires Ascending(rows)
    ensures Divides(rows, from, p) && Newer(rows, from) == rows[p..]
  {
    if rows == [] {
      p := 0;
    } else {
      var n := |rows| - 1;
      p := NewerIsSuffix(rows[..n], from);
      if rows[n].seqNo <= from {
        DividesUnique(rows[..n], from, p, n);
        p := |rows|;
      } else {
        assert rows[p..] == rows[..n][p..] + [rows[n]];
      }
    }
  }

  lemma {:induction false} WantedSlice(rows: seq<Row>, key: string, lo: nat, hi: nat, p: nat, e: nat)
    requires p <= e <= |rows|
    requires forall i :: 0 <= i < |rows| ==> (rows[i].seqNo <= lo <==> i < p) && (rows[i].seqNo <= hi <==> i < e)
    ensures Wanted(rows, key, lo, hi) == ForKey(key, rows[p..e])
    decreases |rows|
  {
    hide Deliverable;
    if rows != [] {
      var n := |rows| - 1;
      if e < |rows| {
        WantedSlice(rows[..n], key, lo, hi, p, e);
        assert rows[..n][p..e] == rows[p..e];
      } else if p < e {
        WantedSlice(rows[..n], key, lo, hi, p, n);
        assert rows[..n][p..n] == rows[p..n] && rows[p..e][..n - p] == rows[p..n];
      } else {
        WantedSlice(rows[..n], key, lo, hi, n, n);
        assert rows[..n][n..n] == rows[p..e];
      }
    }
  }

  lemma NothingInBatch(rows: seq<Row>, key: string, from: nat)
    ensures ForKey(key, []) == [] && NewCursor(from, []) == from
  {
  }

  /** One batch delivers exactly what is wanted up to the cursor it reaches. */
  lemma BatchIsWanted(rows: seq<Row>, key: string, from: nat)
    requires Ascending(rows)
    ensures var batch := MessagesAfter(rows, from);
            ForKey(key, batch) == Wanted(rows, key, from, NewCursor(from, batch))
  {
    hide Wanted, ForKey, Newer, MaxSeq;
    var p := NewerIsSuffix(rows, from);
    var batch := MessagesAfter(rows, from);
    var e := p + |batch|;
    assert batch == rows[p..e];
    MaxSeqBounds(batch);
    if batch == [] {
      NothingInBatch(rows, key, from);
      WantedNone(rows, key, from, from);
    } else {
      assert MaxSeq(batch) == rows[e - 1].seqNo;
      WantedSlice(rows, key, from, NewCursor(from, batch), p, e);
    }
  }

  /** A reading tick consumes a whole batch, or everything there is: what remains shrinks accordingly. */
  lemma BatchAdvances(rows: seq<Row>, from: nat)
    requires Ascending(rows)
    ensures var batch := MessagesAfter(rows, from);
            && |Newer(rows, NewCursor(from, batch))| == |Newer(rows, from)| - |batch|
            && |batch| == Min(BATCH, |Newer(rows, from)|)
            && (NewCursor(from, batch) == from <==> Newer(rows, from) == [])
  {
    var p := NewerIsSuffix(rows, from);
    var batch := MessagesAfter(rows, from);
    var e := p + |batch|;
    assert batch == rows[p..e];
    MaxSeqBounds(batch);
    var q := NewerIsSuffix(rows, NewCursor(from, batch));
    if batch != [] {
      assert MaxSeq(batch) == rows[e - 1].seqNo;
      DividesUnique(rows, NewCursor(from, batch), q, e);
    }
  }

  lemma {:induction false} ForKeyPrefix(key: string, xs: seq<Row>, n: nat)
    requires n <= |xs|
    ensures ForKey(key, xs[..n]) <= ForKey(key, xs)
    decreases |xs|
  {
    if n < |xs| {
      assert xs[..|xs| - 1][..n] == xs[..n];
      ForKeyPrefix(key, xs[..|xs| - 1], n);
    } else {
      assert xs[..n] == xs;
    }
  }

  /** What a process got out before it died is the beginning of what the next tick at that cursor delivers,
      even if rows were appended meanwhile. */
  lemma PartialIsRepeated(rows: seq<Row>, more: seq<Row>, key: string, from: nat)
    ensures ForKey(key, MessagesAfter(rows, from)) <= ForKey(key, MessagesAfter(rows + more, from))
  {
    NewerPrefix(rows, more, from);
    var a, b := MessagesAfter(rows, from), MessagesAfter(rows + more, from);
    assert a == b[..|a|];
    ForKeyPrefix(key, b, |a|);
  }

  lemma {:induction false} NewerPrefix(rows: seq<Row>, more: seq<Row>, from: nat)
    ensures Newer(rows, from) <= Newer(rows + more, from)
    decreases |more|
  {
    if more == [] {
      assert rows + more == rows;
    } else {
      var n := |more| - 1;
      NewerPrefix(rows, more[..n], from);
      assert (rows + more)[..|rows + more| - 1] == rows + more[..n];
    }
  }

  // ── the delivered log ───────────────────────────────────────────────────

  /** What completed ticks delivered for the topic. */
  function Clean(log: seq<Event>, key: string): seq<Row> {
    if log == [] then []
    else
      var e := log[|log| - 1];
      Clean(log[..|log| - 1], key) + if e.Whole? && e.key == key then e.rows else []
  }

  /** Everything the agents saw for the topic. */
  function Delivered(log: seq<Event>, key: string): seq<Row> {
    if log == [] then []
    else
      var e := log[|log| - 1];
      Delivered(log[..|log| - 1], key) + if e.key == key then e.rows else []
  }

  function Crashes(log: seq<Event>): nat {
    if log == [] then 0 else Crashes(log[..|log| - 1]) + if log[|log| - 1].Partial? then 1 else 0
  }

  /** What a dying process got out are at most a batch of the topic's own rows. */
  ghost predicate Partials(rows: seq<Row>, log: seq<Event>) {
    forall i :: 0 <= i < |log| && log[i].Partial? ==> PartOfTopic(rows, log[i])
  }

  ghost predicate PartOfTopic(rows: seq<Row>, e: Event) {
    |e.rows| <= BATCH && forall r :: r in e.rows ==> r in rows && Deliverable(e.key, r)
  }

  /** Without crashes the agents saw exactly the completed deliveries; with them, at most a batch more each. */
  lemma {:induction false} DeliveredIsClean(rows: seq<Row>, log: seq<Event>, key: string)
    requires Partials(rows, log)
    ensures Crashes(log) == 0 ==> Delivered(log, key) == Clean(log, key)
    ensures |Delivered(log, key)| <= |Clean(log, key)| + BATCH * Crashes(log)
    ensures forall r :: r in Clean(log, key) ==> r in Delivered(log, key)
  {
    if log != [] {
      DeliveredIsClean(rows, log[..|log| - 1], key);
      assert log[|log| - 1].Partial? ==> PartOfTopic(rows, log[|log| - 1]);
    }
  }

  // ── the invariant ───────────────────────────────────────────────────────

  function Claims(norm: string -> string, s: Session): set<string> {
    (if KeyOf(norm, s.name).Some? then {KeyOf(norm, s.name).value} else {})
    + (if s.activeKey.Some? then {s.activeKey.value} else {})
  }

  /** One topic is one session: no two sessions claim the same key. */
  ghost predicate Exclusive(norm: string -> string, w: World) {
    forall i, j :: 0 <= i < j < |w.sessions| ==> Claims(norm, w.sessions[i]) !! Claims(norm, w.sessions[j])
  }

  /** What the state alone does not tell: where each topic with a cursor started, and the seqs of the rows that were
      stored when the cursor of their topic was there already. */
  datatype Past = Past(starts: map<string, nat>, late: set<nat>)

  /** A topic's completed deliveries are exactly what is wanted from its start to its saved cursor, of the rows stored
      above the cursor of their time. */
  ghost predicate Exact(w: World, past: Past, key: string) {
    if key in w.saved then
      && key in past.starts && past.starts[key] <= w.saved[key] <= MaxSeq(w.rows)
      && Clean(w.log, key) == Wanted(Timely(w.rows, past.late), key, past.starts[key], w.saved[key])
    else Clean(w.log, key) == []
  }

  /** The cursor in hand is the saved one of the active topic, or the session's floor if none was saved yet. */
  ghost predicate InStep(w: World, s: Session) {
    && (s.activeKey.None? ==> s.cursor.None?)
    && (s.floor.None? ==> s.activeKey.None? && !s.midTick)
    && (s.floor.Some? ==> s.floor.value <= MaxSeq(w.rows))
    && (s.activeKey.Some? ==>
          s.cursor == Some(if s.activeKey.value in w.saved then w.saved[s.activeKey.value] else s.floor.value))
  }

  /** Late seqs belong to stored rows, at or below the cursor of their topic. */
  ghost predicate LateBelow(w: World, late: set<nat>) {
    && (forall s :: s in late ==> !NewSeq(w.rows, s))
    && (forall key, r :: r in w.rows && r.seqNo in late && Deliverable(key, r) ==>
          key in w.saved && r.seqNo <= w.saved[key])
  }

  ghost predicate Inv(norm: string -> string, w: World, past: Past) {
    && Ascending(w.rows) && Exclusive(norm, w) && Partials(w.rows, w.log)
    && (forall key :: Exact(w, past, key)) && LateBelow(w, past.late)
    && (forall i :: 0 <= i < |w.sessions| ==> InStep(w, w.sessions[i]))
  }

  /** The steps of the system. A tick is two acts, so that anything can happen between reading the topic and reading
      the store; a tick that fails before the store read is its first act alone. */
  datatype Act =
    | StoreAct(row: Row)
    | TopicAct(i: nat, name: Option<string>)
    | EnterAct(i: nat)
    | FinishAct(i: nat)
    | CrashAct(i: nat, k: nat)

  /** Rows may be stored in any order, each seq once; a topic is taken only if no other session has it, and a tick ends
      after it began. */
  predicate Allowed(norm: string -> string, w: World, act: Act) {
    match act
    case StoreAct(row) => forall i :: 0 <= i < |w.rows| ==> w.rows[i].seqNo != row.seqNo
    case TopicAct(i, name) =>
      i < |w.sessions| && forall j :: 0 <= j < |w.sessions| && j != i ==>
        KeyOf(norm, name).None? || KeyOf(norm, name).value !in Claims(norm, w.sessions[j])
    case EnterAct(i) => i < |w.sessions|
    case FinishAct(i) => i < |w.sessions| && w.sessions[i].midTick
    case CrashAct(i, _) => i < |w.sessions|
  }

  function Next(norm: string -> string, w: World, act: Act): World
    requires Allowed(norm, w, act)
  {
    match act
    case StoreAct(row) => w.(rows := Inserted(w.rows, row))
    case TopicAct(i, name) => w.(sessions := w.sessions[i := w.sessions[i].(name := name)])
    case EnterAct(i) => AfterEnter(norm, w, i)
    case FinishAct(i) => AfterDelivery(w, i)
    case CrashAct(i, k) => AfterCrash(w, i, k)
  }

  /** The row comes when the cursor of its topic is already there. */
  ghost predicate ComesLate(w: World, row: Row) {
    exists key :: key in w.saved && Deliverable(key, row) && row.seqNo <= w.saved[key]
  }

  /** A topic starts where its first saved cursor came from. */
  ghost function NextPast(norm: string -> string, w: World, past: Past, act: Act): Past
    requires Allowed(norm, w, act)
  {
    match act
    case StoreAct(row) => if ComesLate(w, row) then past.(late := past.late + {row.seqNo}) else past
    case FinishAct(i) =>
      var s := w.sessions[i];
      if s.activeKey.Some? && s.activeKey.value !in w.saved
      then past.(starts := past.starts[s.activeKey.value := From(s)]) else past
    case _ => past
  }

  /** The world after the acts, passing over those that are not allowed. */
  function After(norm: string -> string, w: World, acts: seq<Act>): World {
    if acts == [] then w
    else
      var w1 := After(norm, w, acts[..|acts| - 1]);
      if Allowed(norm, w1, acts[|acts| - 1]) then Next(norm, w1, acts[|acts| - 1]) else w1
  }

  ghost function PastAfter(norm: string -> string, w: World, past: Past, acts: seq<Act>): Past {
    if acts == [] then past
    else
      var w1 := After(norm, w, acts[..|acts| - 1]);
      var past1 := PastAfter(norm, w, past, acts[..|acts| - 1]);
      if Allowed(norm, w1, acts[|acts| - 1]) then NextPast(norm, w1, past1, acts[|acts| - 1]) else past1
  }

  lemma AllowedIsNew(norm: string -> string, w: World, row: Row)
    requires Allowed(norm, w, StoreAct(row))
    ensures NewSeq(w.rows, row.seqNo)
  {
  }

  lemma StoreKeepsExact(w: World, past: Past, row: Row, key: string)
    requires Exact(w, past, key) && LateBelow(w, past.late) && NewSeq(w.rows, row.seqNo)
    requires MaxSeq(Inserted(w.rows, row)) == Max(MaxSeq(w.rows), row.seqNo)
    ensures var late := if ComesLate(w, row) then past.late + {row.seqNo} else past.late;
            Exact(w.(rows := Inserted(w.rows, row)), past.(late := late), key)
  {
    hide Wanted, Clean, MaxSeq, Timely, Inserted, Deliverable;
    var late := if ComesLate(w, row) then past.late + {row.seqNo} else past.late;
    if key in w.saved {
      TimelyInserted(w.rows, row, late, key, past.starts[key], w.saved[key]);
      TimelyNewSeq(w.rows, past.late, row.seqNo);
    }
  }

  lemma StoreKeepsLate(w: World, late: set<nat>, row: Row)
    requires LateBelow(w, late) && NewSeq(w.rows, row.seqNo)
    ensures LateBelow(w.(rows := Inserted(w.rows, row)), if ComesLate(w, row) then late + {row.seqNo} else late)
  {
    hide Inserted;
    var late' := if ComesLate(w, row) then late + {row.seqNo} else late;
    InsertedMembers(w.rows, row);
    assert row.seqNo !in late;
    forall s | s in late'
      ensures !NewSeq(Inserted(w.rows, row), s)
    {
      if s in late {
        var r :| r in w.rows && r.seqNo == s;
        assert r in Inserted(w.rows, row);
      } else {
        assert row in Inserted(w.rows, row);
      }
    }
    forall key, r | r in Inserted(w.rows, row) && r.seqNo in late' && Deliverable(key, r)
      ensures key in w.saved && r.seqNo <= w.saved[key]
    {
      if r == row && ComesLate(w, row) {
        var k :| k in w.saved && Deliverable(k, row) && row.seqNo <= w.saved[k];
        OneTopic(k, key, row);
      }
    }
  }

  lemma OneTopic(a: string, b: string, r: Row)
    requires Deliverable(a, r) && Deliverable(b, r)
    ensures a == b
  {
  }

  lemma PartialsGrow(rows: seq<Row>, row: Row, log: seq<Event>)
    requires Partials(rows, log)
    ensures Partials(Inserted(rows, row), log)
  {
    InsertedMembers(rows, row);
    forall i | 0 <= i < |log| && log[i].Partial?
      ensures PartOfTopic(Inserted(rows, row), log[i])
    {
      assert PartOfTopic(rows, log[i]);
    }
  }

  lemma StoreKeepsInv(norm: string -> string, w: World, past: Past, row: Row)
    requires Inv(norm, w, past) && Allowed(norm, w, StoreAct(row))
    ensures Inv(norm, w.(rows := Inserted(w.rows, row)), NextPast(norm, w, past, StoreAct(row)))
  {
    hide Exclusive, Ascending, Partials, InStep, Exact, MaxSeq, LateBelow, ComesLate, NewSeq;
    var w' := w.(rows := Inserted(w.rows, row));
    AllowedIsNew(norm, w, row);
    InsertedAscending(w.rows, row);
    PartialsGrow(w.rows, row, w.log);
    SameSessions(norm, w, w');
    StoreKeepsLate(w, past.late, row);
    forall key
      ensures Exact(w', NextPast(norm, w, past, StoreAct(row)), key)
    {
      StoreKeepsExact(w, past, row, key);
    }
  }

  lemma SameSessions(norm: string -> string, w: World, w': World)
    requires w'.sessions == w.sessions && w'.saved == w.saved && MaxSeq(w.rows) <= MaxSeq(w'.rows)
    ensures Exclusive(norm, w') == Exclusive(norm, w)
    ensures forall s :: InStep(w, s) ==> InStep(w', s)
  {
    hide MaxSeq;
  }

  /** Changing one session, without giving it a key another one claims. */
  lemma SessionKeepsInv(norm: string -> string, w: World, past: Past, i: nat, s: Session)
    requires Inv(norm, w, past) && i < |w.sessions| && InStep(w, s)
    requires forall j :: 0 <= j < |w.sessions| && j != i ==> Claims(norm, s) !! Claims(norm, w.sessions[j])
    ensures Inv(norm, w.(sessions := w.sessions[i := s]), past)
  {
    hide MaxSeq, Ascending, Partials, Wanted, Clean;
    var w' := w.(sessions := w.sessions[i := s]);
    forall key
      ensures Exact(w', past, key)
    {
      assert Exact(w, past, key);
    }
    forall j | 0 <= j < |w'.sessions|
      ensures InStep(w', w'.sessions[j])
    {
      assert j != i ==> InStep(w, w.sessions[j]);
    }
  }

  lemma Others(norm: string -> string, w: World, i: nat)
    requires Exclusive(norm, w) && i < |w.sessions|
    ensures forall j :: 0 <= j < |w.sessions| && j != i ==> Claims(norm, w.sessions[i]) !! Claims(norm, w.sessions[j])
  {
    forall j | 0 <= j < |w.sessions| && j != i
      ensures Claims(norm, w.sessions[i]) !! Claims(norm, w.sessions[j])
    {
      if j < i {
        assert Claims(norm, w.sessions[j]) !! Claims(norm, w.sessions[i]);
      }
    }
  }

  lemma EnteredFacts(norm: string -> string, w: World, s: Session)
    requires InStep(w, s)
    ensures InStep(w, Entered(norm, w, s)) && Claims(norm, Entered(norm, w, s)) <= Claims(norm, s)
    ensures Entered(norm, w, s).activeKey == KeyOf(norm, s.name) && Entered(norm, w, s).name == s.name
  {
    hide MaxSeq, KeyOf;
  }

  lemma SessionInStep(norm: string -> string, w: World, past: Past, i: nat)
    requires Inv(norm, w, past) && i < |w.sessions|
    ensures InStep(w, w.sessions[i])
  {
  }

  lemma EnterKeepsInv(norm: string -> string, w: World, past: Past, i: nat)
    requires Inv(norm, w, past) && i < |w.sessions|
    ensures Inv(norm, AfterEnter(norm, w, i), past)
  {
    SessionInStep(norm, w, past, i);
    Others(norm, w, i);
    EnteredFacts(norm, w, w.sessions[i]);
    hide Entered, Claims, InStep;
    SessionKeepsInv(norm, w, past, i, Entered(norm, w, w.sessions[i]));
  }

  lemma CleanSnoc(log: seq<Event>, e: Event, key: string)
    ensures Clean(log + [e], key) == Clean(log, key) + if e.Whole? && e.key == key then e.rows else []
  {
    assert (log + [e])[..|log|] == log;
  }

  lemma BatchWithin(rows: seq<Row>, from: nat)
    requires Ascending(rows)
    ensures var cursor := NewCursor(from, MessagesAfter(rows, from)); cursor == from || cursor <= MaxSeq(rows)
  {
    var p := NewerIsSuffix(rows, from);
    var batch := MessagesAfter(rows, from);
    assert batch == rows[p..p + |batch|];
    MaxSeqBounds(batch);
    MaxSeqBounds(rows);
  }

  /** The part of a world that one delivered batch changes. */
  function WithBatch(w: World, key: string, from: nat): World {
    var batch := MessagesAfter(w.rows, from);
    var cursor := NewCursor(from, batch);
    w.(log := w.log + [Whole(key, ForKey(key, batch))],
       saved := if cursor == from then w.saved else w.saved[key := cursor])
  }

  /** A batch for a topic without a saved cursor gives it its start. */
  function Taken(w: World, past: Past, key: string, from: nat): Past {
    if key in w.saved then past else past.(starts := past.starts[key := from])
  }

  lemma BatchKeepsLate(w: World, key: string, from: nat, late: set<nat>)
    requires LateBelow(w, late) && (key in w.saved ==> from == w.saved[key])
    ensures LateBelow(WithBatch(w, key, from), late)
  {
    hide MessagesAfter, ForKey, Deliverable, MaxSeq, NewSeq;
  }

  lemma BatchKeepsExact(w: World, past: Past, key: string, from: nat, other: string)
    requires Ascending(w.rows) && Exact(w, past, other) && (key in w.saved ==> from == w.saved[key])
    requires LateBelow(w, past.late)
    ensures Exact(WithBatch(w, key, from), Taken(w, past, key, from), other)
  {
    hide MessagesAfter, ForKey, Wanted, Clean, MaxSeq, Ascending, Timely, Deliverable;
    var batch := MessagesAfter(w.rows, from);
    var cursor := NewCursor(from, batch);
    var timely := Timely(w.rows, past.late);
    CleanSnoc(w.log, Whole(key, ForKey(key, batch)), other);
    BatchIsWanted(w.rows, key, from);
    BatchWithin(w.rows, from);
    WantedTimely(w.rows, past.late, key, from, cursor);
    WantedNone(timely, key, from, from);
    if other == key && key in w.saved {
      TimelyAscending(w.rows, past.late);
      WantedSplit(timely, key, past.starts[key], from, cursor);
    }
  }

  lemma {:induction false} ForKeyMembers(key: string, xs: seq<Row>)
    ensures |ForKey(key, xs)| <= |xs|
    ensures forall r :: r in ForKey(key, xs) <==> r in xs && Deliverable(key, r)
  {
    hide Deliverable;
    if xs != [] {
      ForKeyMembers(key, xs[..|xs| - 1]);
      assert xs == xs[..|xs| - 1] + [xs[|xs| - 1]];
    }
  }

  /** A session that delivers a batch for its active topic. */
  lemma BatchKeepsInv(norm: string -> string, w: World, past: Past, i: nat, key: string, s: Session)
    requires Inv(norm, w, past) && i < |w.sessions| && w.sessions[i].activeKey == Some(key)
    requires s == w.sessions[i].(midTick := false)
    ensures var w' := WithBatch(w, key, From(s));
            var s' := s.(cursor := Some(NewCursor(From(s), MessagesAfter(w.rows, From(s)))));
            Inv(norm, w'.(sessions := w.sessions[i := s']), Taken(w, past, key, From(s)))
  {
    hide KeyOf, MessagesAfter, ForKey, NewCursor, Exact, Ascending, Partials, MaxSeq, LateBelow;
    var from := From(s);
    var w' := WithBatch(w, key, from);
    var past' := Taken(w, past, key, from);
    var s' := s.(cursor := Some(NewCursor(from, MessagesAfter(w.rows, from))));
    var w'' := w'.(sessions := w.sessions[i := s']);
    Others(norm, w, i);
    assert key in Claims(norm, w.sessions[i]);
    assert Claims(norm, s') == Claims(norm, w.sessions[i]);
    assert InStep(w, w.sessions[i]);
    BatchKeepsLate(w, key, from, past.late);
    LateIgnoresSessions(w', w'', past.late);
    forall other
      ensures Exact(w'', past', other)
    {
      BatchKeepsExact(w, past, key, from, other);
      ExactIgnoresSessions(w', w'', past', other);
    }
    WholeIsNoPartial(w.rows, w.log, Whole(key, ForKey(key, MessagesAfter(w.rows, from))));
    forall j | 0 <= j < |w.sessions|
      ensures InStep(w'', w''.sessions[j])
    {
      assert InStep(w, w.sessions[j]);
    }
  }

  lemma WholeIsNoPartial(rows: seq<Row>, log: seq<Event>, e: Event)
    requires Partials(rows, log) && (e.Partial? ==> PartOfTopic(rows, e))
    ensures Partials(rows, log + [e])
  {
    hide PartOfTopic;
  }

  lemma LateIgnoresSessions(w: World, w': World, late: set<nat>)
    requires LateBelow(w, late) && w'.rows == w.rows && w'.saved == w.saved
    ensures LateBelow(w', late)
  {
  }

  lemma ExactIgnoresSessions(w: World, w': World, past: Past, key: string)
    requires Exact(w, past, key) && w' == w.(sessions := w'.sessions)
    ensures Exact(w', past, key)
  {
  }

  lemma FinishKeepsInv(norm: string -> string, w: World, past: Past, i: nat)
    requires Inv(norm, w, past) && i < |w.sessions| && w.sessions[i].midTick
    ensures Inv(norm, AfterDelivery(w, i), NextPast(norm, w, past, FinishAct(i)))
  {
    hide KeyOf, MessagesAfter, ForKey, PendingMax, Inv;
    SessionInStep(norm, w, past, i);
    var s := w.sessions[i].(midTick := false);
    var batch := MessagesAfter(w.rows, From(s));
    match s.activeKey {
      case None =>
        NudgeKeepsInv(norm, w, past, i, s.(lastNudge := Max(s.lastNudge, PendingMax(batch))));
      case Some(key) =>
        BatchKeepsInv(norm, w, past, i, key, s);
        assert s.(cursor := Some(From(s))) == s;
    }
  }

  /** Changing what has no part in delivery. */
  lemma NudgeKeepsInv(norm: string -> string, w: World, past: Past, i: nat, s: Session)
    requires Inv(norm, w, past) && i < |w.sessions|
    requires s == w.sessions[i].(midTick := false, lastNudge := s.lastNudge)
    ensures Inv(norm, w.(sessions := w.sessions[i := s]), past)
  {
    hide KeyOf, MaxSeq;
    Others(norm, w, i);
    SessionInStep(norm, w, past, i);
    SessionKeepsInv(norm, w, past, i, s);
  }

  lemma CrashKeepsInv(norm: string -> string, w: World, past: Past, i: nat, k: nat)
    requires Inv(norm, w, past) && i < |w.sessions|
    ensures Inv(norm, AfterCrash(w, i, k), past)
  {
    hide KeyOf, MessagesAfter, ForKey, Inv, Partials;
    var s := w.sessions[i];
    StartedKeepsInv(norm, w, past, i);
    var w1 := w.(sessions := w.sessions[i := Started(s.name)]);
    if s.midTick && s.activeKey.Some? {
      var out := ForKey(s.activeKey.value, MessagesAfter(w.rows, From(s)));
      OutOfTopic(w.rows, s.activeKey.value, From(s), Min(k, |out|));
      PartialKeepsInv(norm, w1, past, Partial(s.activeKey.value, out[..Min(k, |out|)]));
    }
  }

  lemma StartedKeepsInv(norm: string -> string, w: World, past: Past, i: nat)
    requires Inv(norm, w, past) && i < |w.sessions|
    ensures Inv(norm, w.(sessions := w.sessions[i := Started(w.sessions[i].name)]), past)
  {
    hide KeyOf, MaxSeq;
    Others(norm, w, i);
    SessionKeepsInv(norm, w, past, i, Started(w.sessions[i].name));
  }

  lemma {:induction false} NewerMembers(rows: seq<Row>, from: nat)
    ensures forall r :: r in Newer(rows, from) <==> r in rows && from < r.seqNo
  {
    if rows != [] {
      NewerMembers(rows[..|rows| - 1], from);
      assert rows == rows[..|rows| - 1] + [rows[|rows| - 1]];
    }
  }

  lemma OutOfTopic(rows: seq<Row>, key: string, from: nat, n: nat)
    requires n <= |ForKey(key, MessagesAfter(rows, from))|
    ensures PartOfTopic(rows, Partial(key, ForKey(key, MessagesAfter(rows, from))[..n]))
    ensures forall r :: r in ForKey(key, MessagesAfter(rows, from)) ==> from < r.seqNo
  {
    hide Deliverable, Newer, ForKey;
    var batch := MessagesAfter(rows, from);
    ForKeyMembers(key, batch);
    NewerMembers(rows, from);
    assert |batch| <= BATCH && forall r :: r in batch ==> r in Newer(rows, from);
  }

  lemma PartialKeepsInv(norm: string -> string, w: World, past: Past, e: Event)
    requires Inv(norm, w, past) && e.Partial? && PartOfTopic(w.rows, e)
    ensures Inv(norm, w.(log := w.log + [e]), past)
  {
    hide Ascending, MaxSeq, Wanted, Partials, PartOfTopic;
    var w' := w.(log := w.log + [e]);
    SameSessions(norm, w, w');
    WholeIsNoPartial(w.rows, w.log, e);
    forall key
      ensures Exact(w', past, key)
    {
      assert Exact(w, past, key);
      CleanSnoc(w.log, e, key);
    }
  }

  lemma TopicKeepsInv(norm: string -> string, w: World, past: Past, i: nat, name: Option<string>)
    requires Inv(norm, w, past) && Allowed(norm, w, TopicAct(i, name))
    ensures Inv(norm, w.(sessions := w.sessions[i := w.sessions[i].(name := name)]), past)
  {
    hide KeyOf, MaxSeq;
    Others(norm, w, i);
    SessionInStep(norm, w, past, i);
    SessionKeepsInv(norm, w, past, i, w.sessions[i].(name := name));
  }

  /** Every allowed act keeps the invariant. */
  lemma StepKeepsInv(norm: string -> string, w: World, past: Past, act: Act)
    requires Inv(norm, w, past) && Allowed(norm, w, act)
    ensures Inv(norm, Next(norm, w, act), NextPast(norm, w, past, act))
  {
    hide Inv, AfterDelivery, AfterEnter, AfterCrash;
    match act {
      case StoreAct(row) => StoreKeepsInv(norm, w, past, row);
      case TopicAct(i, name) => TopicKeepsInv(norm, w, past, i, name);
      case EnterAct(i) => EnterKeepsInv(norm, w, past, i);
      case FinishAct(i) => FinishKeepsInv(norm, w, past, i);
      case CrashAct(i, k) => CrashKeepsInv(norm, w, past, i, k);
    }
  }

  lemma {:induction false} RunKeepsInv(norm: string -> string, w: World, past: Past, acts: seq<Act>)
    requires Inv(norm, w, past)
    ensures Inv(norm, After(norm, w, acts), PastAfter(norm, w, past, acts))
    decreases |acts|
  {
    hide Inv, Allowed, Next, NextPast;
    if acts != [] {
      var n := |acts| - 1;
      RunKeepsInv(norm, w, past, acts[..n]);
      var w1 := After(norm, w, acts[..n]);
      if Allowed(norm, w1, acts[n]) {
        StepKeepsInv(norm, w1, PastAfter(norm, w, past, acts[..n]), acts[n]);
      }
    }
  }

  // ── runs ────────────────────────────────────────────────────────────────

  method Perform(sys: System, act: Act)
    requires Allowed(sys.norm, sys.State(), act)
    modifies sys
    ensures sys.State() == Next(sys.norm, old(sys.State()), act)
  {
    match act {
      case StoreAct(row) => sys.Store(row);
      case TopicAct(i, name) => sys.SetTopic(i, name);
      case EnterAct(i) => sys.Enter(i);
      case FinishAct(i) => sys.Finish(i);
      case CrashAct(i, k) => sys.Crash(i, k);
    }
  }

  ghost predicate JustStarted(w: World) {
    w.log == [] && forall i :: 0 <= i < |w.sessions| ==> w.sessions[i] == Started(w.sessions[i].name)
  }

  lemma FreshStart(norm: string -> string, w: World)
    requires Ascending(w.rows) && JustStarted(w) && Exclusive(norm, w)
    requires forall key :: key in w.saved ==> w.saved[key] <= MaxSeq(w.rows)
    ensures Inv(norm, w, Past(w.saved, {}))
  {
    forall key
      ensures Exact(w, Past(w.saved, {}), key)
    {
      if key in w.saved {
        WantedNone(Timely(w.rows, {}), key, w.saved[key], w.saved[key]);
      }
    }
  }

  lemma StartExclusive(norm: string -> string, w: World)
    requires JustStarted(w)
    requires forall i, j :: 0 <= i < j < |w.sessions| && KeyOf(norm, w.sessions[i].name).Some? ==>
               KeyOf(norm, w.sessions[i].name) != KeyOf(norm, w.sessions[j].name)
    ensures Exclusive(norm, w)
  {
    hide KeyOf;
  }

  function CrashActs(acts: seq<Act>): nat {
    if acts == [] then 0 else CrashActs(acts[..|acts| - 1]) + if acts[|acts| - 1].CrashAct? then 1 else 0
  }

  lemma CrashesCounted(norm: string -> string, w: World, act: Act)
    requires Allowed(norm, w, act)
    ensures Crashes(Next(norm, w, act).log) <= Crashes(w.log) + if act.CrashAct? then 1 else 0
  {
    hide KeyOf, MessagesAfter, ForKey, PendingMax;
    assert forall e :: (w.log + [e])[..|w.log|] == w.log;
  }

  lemma StepGrows(norm: string -> string, w: World, past: Past, act: Act)
    requires Allowed(norm, w, act)
    ensures var w' := Next(norm, w, act);
            var past' := NextPast(norm, w, past, act);
            && (forall r :: r in w.rows ==> r in w'.rows) && w.log <= w'.log && |w.sessions| == |w'.sessions|
            && (forall s :: s in past'.late ==> s in past.late || NewSeq(w.rows, s))
            && (forall key :: key in w.saved ==> key in w'.saved)
            && (forall key :: key in w.saved && key in past.starts ==>
                  key in past'.starts && past'.starts[key] == past.starts[key])
  {
    hide KeyOf, MessagesAfter, ForKey, PendingMax, Inserted, ComesLate;
    if act.StoreAct? {
      InsertedMembers(w.rows, act.row);
      AllowedIsNew(norm, w, act.row);
    }
  }

  lemma InvFacts(norm: string -> string, w: World, past: Past)
    requires Inv(norm, w, past)
    ensures Partials(w.rows, w.log)
    ensures forall key :: key in w.saved ==>
              && key in past.starts && past.starts[key] <= w.saved[key] <= MaxSeq(w.rows)
              && Clean(w.log, key) == Wanted(Timely(w.rows, past.late), key, past.starts[key], w.saved[key])
    ensures forall key :: key !in w.saved ==> Clean(w.log, key) == []
    ensures LateBelow(w, past.late)
  {
    hide Clean, Wanted, MaxSeq, Timely, LateBelow;
    forall key
      ensures key in w.saved ==>
                && key in past.starts && past.starts[key] <= w.saved[key] <= MaxSeq(w.rows)
                && Clean(w.log, key) == Wanted(Timely(w.rows, past.late), key, past.starts[key], w.saved[key])
      ensures key !in w.saved ==> Clean(w.log, key) == []
    {
      assert Exact(w, past, key);
    }
  }

  // ── where a topic starts ────────────────────────────────────────────────

  /** The first tick session `i` began since it was last started. */
  function FirstTick(acts: seq<Act>, i: nat): (e: Option<nat>)
    ensures e.Some? ==> e.value < |acts| && acts[e.value] == EnterAct(i)
  {
    if acts == [] then None
    else
      var n := |acts| - 1;
      if acts[n].CrashAct? && acts[n].i == i then None
      else if acts[n] == EnterAct(i) && FirstTick(acts[..n], i).None? then Some(n)
      else FirstTick(acts[..n], i)
  }

  /** The greatest seq stored when the tick `e` began. */
  function FloorAt(norm: string -> string, w: World, acts: seq<Act>, e: Option<nat>): Option<nat>
    requires e.Some? ==> e.value < |acts|
  {
    match e
    case None => None
    case Some(n) => Some(MaxSeq(After(norm, w, acts[..n]).rows))
  }

  lemma StepFloor(norm: string -> string, w: World, act: Act, i: nat)
    requires Allowed(norm, w, act) && i < |w.sessions|
    ensures |Next(norm, w, act).sessions| == |w.sessions|
    ensures Next(norm, w, act).sessions[i].floor ==
            if act.CrashAct? && act.i == i then None
            else if act == EnterAct(i) then Some(w.sessions[i].floor.GetOr(MaxSeq(w.rows)))
            else w.sessions[i].floor
  {
    hide KeyOf, MessagesAfter, ForKey, PendingMax, MaxSeq;
  }

  /** A session's floor is what was stored when it began its first tick. */
  lemma {:induction false} FloorIsFirstTick(norm: string -> string, w: World, acts: seq<Act>, i: nat)
    requires JustStarted(w) && i < |w.sessions|
    ensures |After(norm, w, acts).sessions| == |w.sessions|
    ensures After(norm, w, acts).sessions[i].floor == FloorAt(norm, w, acts, FirstTick(acts, i))
    decreases |acts|
  {
    hide Next, MaxSeq, KeyOf;
    if acts != [] {
      var n := |acts| - 1;
      FloorIsFirstTick(norm, w, acts[..n], i);
      var e := FirstTick(acts[..n], i);
      assert e.Some? ==> acts[..n][..e.value] == acts[..e.value];
      var w1 := After(norm, w, acts[..n]);
      if Allowed(norm, w1, acts[n]) {
        StepFloor(norm, w1, acts[n], i);
      }
    }
  }

  /** The topic was taken at act `n`, by a session whose first tick since its start began at act `e`. */
  ghost predicate TakenBy(norm: string -> string, w: World, acts: seq<Act>, key: string, i: nat, n: nat, e: nat) {
    && e < n < |acts| && acts[n] == FinishAct(i) && FirstTick(acts[..n], i) == Some(e)
    && key !in After(norm, w, acts[..n]).saved && key in After(norm, w, acts[..n + 1]).saved
    && i < |After(norm, w, acts[..n]).sessions|
    && After(norm, w, acts[..n]).sessions[i].activeKey == Some(key)
  }

  /** Only the end of a tick saves a cursor, for the topic the session read when the tick began. */
  lemma StepTakes(norm: string -> string, w: World, past: Past, act: Act, key: string)
    requires Inv(norm, w, past) && Allowed(norm, w, act) && key !in w.saved && key in Next(norm, w, act).saved
    ensures act.FinishAct? && w.sessions[act.i].activeKey == Some(key)
    ensures var past' := NextPast(norm, w, past, act);
            key in past'.starts && w.sessions[act.i].floor == Some(past'.starts[key])
  {
    hide KeyOf, MessagesAfter, ForKey, PendingMax, MaxSeq, Ascending, Exclusive, Partials, Exact;
    if act.FinishAct? {
      SessionInStep(norm, w, past, act.i);
    }
  }

  /** A topic that had no cursor starts at what was stored when the session that took it began its first tick. */
  lemma {:induction false} StartIsFloor(norm: string -> string, w: World, acts: seq<Act>, key: string)
    returns (i: nat, n: nat, e: nat)
    requires JustStarted(w) && Inv(norm, w, Past(w.saved, {}))
    requires key !in w.saved && key in After(norm, w, acts).saved
    ensures TakenBy(norm, w, acts, key, i, n, e)
    ensures key in PastAfter(norm, w, Past(w.saved, {}), acts).starts
    ensures PastAfter(norm, w, Past(w.saved, {}), acts).starts[key] == MaxSeq(After(norm, w, acts[..e]).rows)
    decreases |acts|
  {
    hide Next, NextPast, MaxSeq, Allowed, Inv, FirstTick, JustStarted;
    var m := |acts| - 1;
    var w1 := After(norm, w, acts[..m]);
    var past1 := PastAfter(norm, w, Past(w.saved, {}), acts[..m]);
    RunKeepsInv(norm, w, Past(w.saved, {}), acts[..m]);
    if key in w1.saved {
      i, n, e := StartIsFloor(norm, w, acts[..m], key);
      assert acts[..m][..n] == acts[..n] && acts[..m][..n + 1] == acts[..n + 1] && acts[..m][..e] == acts[..e];
      if Allowed(norm, w1, acts[m]) {
        StepGrows(norm, w1, past1, acts[m]);
      }
    } else {
      StepTakes(norm, w1, past1, acts[m], key);
      i, n := acts[m].i, m;
      assert acts[..m + 1] == acts;
      TakerKnown(norm, w, acts[..m], acts[m]);
      FloorIsFirstTick(norm, w, acts[..m], i);
      e := FirstTick(acts[..m], i).value;
      assert acts[..m][..e] == acts[..e];
    }
  }

  lemma {:induction false} TakerKnown(norm: string -> string, w: World, acts: seq<Act>, act: Act)
    requires act.FinishAct? && Allowed(norm, After(norm, w, acts), act)
    ensures act.i < |w.sessions|
    decreases |acts|
  {
    hide Next;
    SameCount(norm, w, acts);
  }

  lemma {:induction false} SameCount(norm: string -> string, w: World, acts: seq<Act>)
    ensures |After(norm, w, acts).sessions| == |w.sessions|
    decreases |acts|
  {
    hide Next, Allowed;
    if acts != [] {
      var n := |acts| - 1;
      SameCount(norm, w, acts[..n]);
      var w1 := After(norm, w, acts[..n]);
      if Allowed(norm, w1, acts[n]) {
        StepGrows(norm, w1, Past(map[], {}), acts[n]);
      }
    }
  }

  ghost predicate StartsAtFloor(norm: string -> string, w: World, acts: seq<Act>, key: string, start: nat) {
    exists i: nat, n: nat, e: nat ::
      TakenBy(norm, w, acts, key, i, n, e) && start == MaxSeq(After(norm, w, acts[..e]).rows)
  }

  /** A row with this seq was stored when the cursor of its topic was at or above it already. */
  ghost predicate CameLate(norm: string -> string, w: World, acts: seq<Act>, s: nat) {
    exists n :: 0 <= n < |acts| && LateAt(norm, w, acts, n, s)
  }

  ghost predicate LateAt(norm: string -> string, w: World, acts: seq<Act>, n: nat, s: nat)
    requires n < |acts|
  {
    && acts[n].StoreAct? && acts[n].row.seqNo == s && Allowed(norm, After(norm, w, acts[..n]), acts[n])
    && ComesLate(After(norm, w, acts[..n]), acts[n].row)
  }

  lemma {:induction false} LateIffCameLate(norm: string -> string, w: World, past: Past, acts: seq<Act>, s: nat)
    ensures s in PastAfter(norm, w, past, acts).late <==> s in past.late || CameLate(norm, w, acts, s)
    decreases |acts|
  {
    hide Allowed, ComesLate, Next;
    if acts != [] {
      var m := |acts| - 1;
      LateIffCameLate(norm, w, past, acts[..m], s);
      forall n | 0 <= n < m
        ensures LateAt(norm, w, acts, n, s) <==> LateAt(norm, w, acts[..m], n, s)
      {
        assert acts[..m][..n] == acts[..n];
      }
      assert CameLate(norm, w, acts, s) <==> CameLate(norm, w, acts[..m], s) || LateAt(norm, w, acts, m, s);
    }
  }

  /** Start the processes and perform the acts, passing over those that are not allowed. For every topic the
      completed deliveries are, in order, exactly the topic's rows between its start and its cursor that were stored
      above the cursor of their time; without crashes that is what the agents saw, and each crash shows them at most
      one batch more, of the topic's own rows. The start is the cursor left behind by earlier processes, or the floor
      of the session that took the topic. */
  method Run(norm: string -> string, rows: seq<Row>, saved: map<string, nat>, names: seq<Option<string>>,
             acts: seq<Act>)
    returns (sys: System, ghost past: Past)
    requires Ascending(rows) && forall key :: key in saved ==> saved[key] <= MaxSeq(rows)
    requires forall i, j :: 0 <= i < j < |names| && KeyOf(norm, names[i]).Some? ==>
               KeyOf(norm, names[i]) != KeyOf(norm, names[j])
    ensures var w := World(rows, saved, AllStarted(names), []);
            && sys.State() == After(norm, w, acts) && past == PastAfter(norm, w, Past(saved, {}), acts)
            && (forall key :: key in sys.saved && key !in saved ==>
                  key in past.starts && StartsAtFloor(norm, w, acts, key, past.starts[key]))
            && (forall s :: s in past.late <==> CameLate(norm, w, acts, s))
    ensures Inv(norm, sys.State(), past) && forall r :: r in rows ==> r in sys.rows
    ensures forall key :: key in sys.saved ==>
              && key in past.starts && past.starts[key] <= sys.saved[key] <= MaxSeq(sys.rows)
              && Clean(sys.log, key) == Wanted(Timely(sys.rows, past.late), key, past.starts[key], sys.saved[key])
    ensures forall key, r :: key in sys.saved && r in sys.rows && Deliverable(key, r) ==>
              (r in Clean(sys.log, key) <==> past.starts[key] < r.seqNo <= sys.saved[key] && r.seqNo !in past.late)
    ensures forall name, key, r :: KeyOf(norm, Some(name)) == Some(key) && key in sys.saved ==>
              (r in Clean(sys.log, key) <==>
                && r in sys.rows && Asked(norm, name, r)
                && past.starts[key] < r.seqNo <= sys.saved[key] && r.seqNo !in past.late)
    ensures forall key :: key in saved ==> key in sys.saved && past.starts[key] == saved[key]
    ensures forall key :: key !in sys.saved ==> Clean(sys.log, key) == []
    ensures Partials(sys.rows, sys.log)
    ensures forall key :: CrashActs(acts) == 0 ==> Delivered(sys.log, key) == Clean(sys.log, key)
    ensures forall key :: |Delivered(sys.log, key)| <= |Clean(sys.log, key)| + BATCH * CrashActs(acts)
  {
    hide Inv, Allowed, Next, NextPast, Clean, Wanted, Delivered, Crashes, KeyOf, MaxSeq, Partials, TakenBy, Timely;
    hide Deliverable, LateBelow, CameLate, Asked;
    sys := new System(norm, rows, saved, names);
    ghost var w0 := World(rows, saved, AllStarted(names), []);
    past := Past(saved, {});
    StartExclusive(norm, w0);
    FreshStart(norm, w0);
    NoCrashes();
    var n := 0;
    while n < |acts|
      invariant 0 <= n <= |acts| && sys.norm == norm && forall r :: r in rows ==> r in sys.rows
      invariant sys.State() == After(norm, w0, acts[..n]) && past == PastAfter(norm, w0, Past(saved, {}), acts[..n])
      invariant Crashes(sys.log) <= CrashActs(acts[..n])
      invariant forall key :: key in saved ==> key in sys.saved && key in past.starts && past.starts[key] == saved[key]
    {
      assert acts[..n + 1][..n] == acts[..n];
      if Allowed(norm, sys.State(), acts[n]) {
        ghost var w := sys.State();
        Perform(sys, acts[n]);
        CrashesCounted(norm, w, acts[n]);
        StepGrows(norm, w, past, acts[n]);
        past := NextPast(norm, w, past, acts[n]);
      }
      n := n + 1;
    }
    assert acts[..n] == acts;
    RunKeepsInv(norm, w0, Past(saved, {}), acts);
    InvFacts(norm, sys.State(), past);
    forall key | key in sys.saved && key !in saved
      ensures key in past.starts && StartsAtFloor(norm, w0, acts, key, past.starts[key])
    {
      var i, m, e := StartIsFloor(norm, w0, acts, key);
    }
    forall s
      ensures s in past.late <==> CameLate(norm, w0, acts, s)
    {
      LateIffCameLate(norm, w0, Past(saved, {}), acts, s);
    }
    forall key
      ensures CrashActs(acts) == 0 ==> Delivered(sys.log, key) == Clean(sys.log, key)
      ensures |Delivered(sys.log, key)| <= |Clean(sys.log, key)| + BATCH * CrashActs(acts)
    {
      DeliveredIsClean(sys.rows, sys.log, key);
    }
    forall name, key, r | KeyOf(norm, Some(name)) == Some(key) && key in sys.saved
      ensures r in Clean(sys.log, key) <==>
                && r in sys.rows && Asked(norm, name, r)
                && past.starts[key] < r.seqNo <= sys.saved[key] && r.seqNo !in past.late
    {
      DeliveredIffAsked(norm, sys.State(), past, name, key, r);
    }
    forall key, r | key in sys.saved && r in sys.rows && Deliverable(key, r)
      ensures r in Clean(sys.log, key) <==> past.starts[key] < r.seqNo <= sys.saved[key] && r.seqNo !in past.late
    {
      DeliveredIff(sys.State(), past, key, r);
    }
  }

  /** A row is delivered if and only if it lies between start and cursor and was not stored late. */
  lemma DeliveredIff(w: World, past: Past, key: string, r: Row)
    requires Exact(w, past, key) && key in w.saved && r in w.rows && Deliverable(key, r)
    ensures r in Clean(w.log, key) <==> past.starts[key] < r.seqNo <= w.saved[key] && r.seqNo !in past.late
  {
    hide Deliverable, Clean;
    WantedMembers(Timely(w.rows, past.late), key, past.starts[key], w.saved[key]);
    TimelyMembers(w.rows, past.late);
  }

  lemma NoCrashes()
    ensures Crashes([]) == 0
  {
  }

  // ── what a session asked for ────────────────────────────────────────────

  /** The rows a session named `name` asks for: the peer's, of the topic with the normalised name, or without a topic
      if that is one of the two names of the main branch; none if nothing is left of the name. */
  predicate Asked(norm: string -> string, name: string, r: Row) {
    && !r.mine && norm(name) != ""
    && if norm(name) == "main" || norm(name) == "главная" then r.topic == None else r.topic == Some(norm(name))
  }

  /** The key under which a name is served stands for exactly these rows, and only an empty name has none. */
  lemma KeyServesAsked(norm: string -> string, name: string)
    ensures KeyOf(norm, None) == None
    ensures KeyOf(norm, Some(name)).None? <==> norm(name) == ""
    ensures forall key, r :: KeyOf(norm, Some(name)) == Some(key) ==> (Deliverable(key, r) <==> Asked(norm, name, r))
  {
  }

  /** Names share a key, and so a saved cursor, if and only if they ask for the same rows. */
  lemma SameKeyIff(norm: string -> string, a: string, b: string)
    requires norm(a) != "" && norm(b) != ""
    ensures KeyOf(norm, Some(a)) == KeyOf(norm, Some(b)) <==> forall r :: Asked(norm, a, r) <==> Asked(norm, b, r)
    ensures norm(a) == norm(b) ==> KeyOf(norm, Some(a)) == KeyOf(norm, Some(b))
  {
    KeyServesAsked(norm, a);
    KeyServesAsked(norm, b);
    if KeyOf(norm, Some(a)) != KeyOf(norm, Some(b)) {
      var main := norm(a) == "main" || norm(a) == "главная";
      var r := Row(1, false, if main then None else Some(norm(a)));
      assert Asked(norm, a, r) && !Asked(norm, b, r);
    }
  }

  /** One tick of a session named `name`: it shows exactly the stored rows asked for, beyond the cursor it read from
      and up to the one it saved, and nothing for an empty name. */
  lemma TickShowsAsked(norm: string -> string, w: World, i: nat, name: string)
    requires Ascending(w.rows) && i < |w.sessions| && w.sessions[i].name == Some(name)
    ensures var w' := AfterTick(norm, w, i);
            var from := From(Entered(norm, w, w.sessions[i]));
            var to := NewCursor(from, MessagesAfter(w.rows, from));
            if norm(name) == "" then w'.log == w.log
            else
              && |w'.log| == |w.log| + 1 && w.log < w'.log && w'.log[|w.log|].Whole?
              && Some(w'.log[|w.log|].key) == KeyOf(norm, Some(name))
              && (forall r :: r in w'.log[|w.log|].rows <==>
                              r in w.rows && Asked(norm, name, r) && from < r.seqNo <= to)
              && (from < to ==> w'.log[|w.log|].key in w'.saved && w'.saved[w'.log[|w.log|].key] == to)
  {
    KeyServesAsked(norm, name);
    var key := KeyOf(norm, Some(name));
    hide KeyOf, MessagesAfter, ForKey, MaxSeq, Ascending, Asked, PendingMax;
    if key.Some? {
      TickOf(norm, w, i, key.value);
      TickSaves(norm, w, i, key.value);
      BatchMembers(w.rows, key.value, From(Entered(norm, w, w.sessions[i])));
    }
  }

  lemma TickSaves(norm: string -> string, w: World, i: nat, key: string)
    requires i < |w.sessions| && KeyOf(norm, w.sessions[i].name) == Some(key)
    ensures var from := From(Entered(norm, w, w.sessions[i]));
            var to := NewCursor(from, MessagesAfter(w.rows, from));
            from != to ==> key in AfterTick(norm, w, i).saved && AfterTick(norm, w, i).saved[key] == to
  {
    hide KeyOf, ForKey, MessagesAfter, MaxSeq;
    var s := Entered(norm, w, w.sessions[i]);
    assert s.activeKey == Some(key) && From(s.(midTick := false)) == From(s);
  }

  /** Over a whole run: of the stored rows a name asks for, exactly those between start and cursor that were not stored
      late are delivered under its key, and no others. */
  lemma DeliveredIffAsked(norm: string -> string, w: World, past: Past, name: string, key: string, r: Row)
    requires Inv(norm, w, past) && KeyOf(norm, Some(name)) == Some(key) && key in w.saved
    ensures key in past.starts
    ensures r in Clean(w.log, key) <==>
            && r in w.rows && Asked(norm, name, r)
            && past.starts[key] < r.seqNo <= w.saved[key] && r.seqNo !in past.late
  {
    KeyServesAsked(norm, name);
    hide KeyOf, Asked, Clean, Deliverable;
    InvExact(norm, w, past, key);
    WantedMembers(Timely(w.rows, past.late), key, past.starts[key], w.saved[key]);
    TimelyMembers(w.rows, past.late);
  }

  // ── ticks and crashes of one session ────────────────────────────────────

  /** A session without a topic delivers nothing and moves no cursor. */
  lemma UnsetIsSilent(norm: string -> string, w: World, i: nat)
    requires i < |w.sessions| && KeyOf(norm, w.sessions[i].name).None? && InStep(w, w.sessions[i])
    ensures AfterTick(norm, w, i).log == w.log && AfterTick(norm, w, i).saved == w.saved
    ensures AfterTick(norm, w, i).sessions[i].cursor == None
  {
  }

  /** It nudges its agent, which is when `lastNudge` rises, exactly if the batch beyond its floor has a row of the peer
      above the last nudge; then the mark is at or above all of them, so that none nudges twice. */
  lemma NudgesOnNewsOnly(norm: string -> string, w: World, i: nat)
    requires i < |w.sessions| && KeyOf(norm, w.sessions[i].name).None? && InStep(w, w.sessions[i])
    ensures var before, after := w.sessions[i].lastNudge, AfterTick(norm, w, i).sessions[i].lastNudge;
            var batch := MessagesAfter(w.rows, w.sessions[i].floor.GetOr(MaxSeq(w.rows)));
            && before <= after
            && (before < after <==> exists r :: r in batch && !r.mine && before < r.seqNo)
            && (forall r :: r in batch && !r.mine ==> r.seqNo <= after)
  {
    hide MessagesAfter, MaxSeq, PendingMax;
    PendingIsGreatest(MessagesAfter(w.rows, w.sessions[i].floor.GetOr(MaxSeq(w.rows))));
  }

  /** A restarted process remembers no nudge: once its first tick has set the floor, the next tick that finds a row of
      the peer nudges. */
  lemma NudgesAgainAfterCrash(norm: string -> string, w: World, i: nat, k: nat, more: seq<Row>)
    requires i < |w.sessions| && KeyOf(norm, w.sessions[i].name).None?
    ensures var w1 := AfterTick(norm, AfterCrash(w, i, k), i);
            var w2 := w1.(rows := w1.rows + more);
            var batch := MessagesAfter(w2.rows, MaxSeq(w.rows));
            w1.sessions[i].lastNudge < AfterTick(norm, w2, i).sessions[i].lastNudge <==>
              exists r :: r in batch && !r.mine && 0 < r.seqNo
  {
    hide MessagesAfter, MaxSeq, PendingMax, KeyOf, ForKey;
    var w0 := AfterCrash(w, i, k);
    var w1 := AfterTick(norm, w0, i);
    NothingPending(w.rows);
    NothingGreatest();
    assert w0.sessions[i] == Started(w.sessions[i].name);
    assert w1.sessions[i].floor == Some(MaxSeq(w.rows)) && w1.sessions[i].lastNudge == 0;
    MaxSeqGrows(w.rows, more);
    NudgesOnNewsOnly(norm, w1.(rows := w1.rows + more), i);
  }

  lemma NothingGreatest()
    ensures PendingMax([]) == 0
  {
  }

  lemma {:induction false} MaxSeqGrows(rows: seq<Row>, more: seq<Row>)
    ensures MaxSeq(rows) <= MaxSeq(rows + more)
  {
    if more == [] {
      assert rows + more == rows;
    } else {
      var front := more[..|more| - 1];
      MaxSeqGrows(rows, front);
      assert rows + more == (rows + front) + [more[|more| - 1]];
      MaxSeqSnoc(rows + front, more[|more| - 1]);
    }
  }

  /** A session that just takes its floor has nothing pending beyond it. */
  lemma NothingPending(rows: seq<Row>)
    ensures MessagesAfter(rows, MaxSeq(rows)) == []
  {
    MaxSeqBounds(rows);
    NoneNewer(rows, MaxSeq(rows));
  }

  lemma {:induction false} NoneNewer(rows: seq<Row>, from: nat)
    requires forall k :: 0 <= k < |rows| ==> rows[k].seqNo <= from
    ensures Newer(rows, from) == []
  {
    if rows != [] {
      NoneNewer(rows[..|rows| - 1], from);
    }
  }

  /** After a crash with a saved cursor, the next tick of a session on the topic repeats the partial batch from
      its beginning: nothing that was not saved as delivered is passed over. */
  lemma CrashRepeatsBatch(norm: string -> string, w: World, past: Past, i: nat, k: nat, more: seq<Row>,
                          key: string)
    requires Inv(norm, w, past) && i < |w.sessions| && w.sessions[i].midTick
    requires w.sessions[i].activeKey == KeyOf(norm, w.sessions[i].name) == Some(key) && key in w.saved
    ensures var w1 := AfterCrash(w, i, k);
            var w2 := AfterTick(norm, w1.(rows := w.rows + more), i);
            && |w1.log| == |w.log| + 1 && |w2.log| == |w.log| + 2
            && w1.log[|w.log|].Partial? && w2.log[|w.log| + 1].Whole?
            && w1.log[|w.log|].key == key == w2.log[|w.log| + 1].key
            && w1.log[|w.log|].rows <= w2.log[|w.log| + 1].rows
  {
    hide KeyOf, MessagesAfter, ForKey, MaxSeq, Wanted, Ascending, Exact, Exclusive, Partials;
    SessionInStep(norm, w, past, i);
    PartialIsRepeated(w.rows, more, key, w.saved[key]);
  }

  /** A topic set while a tick is under way changes nothing about what that tick delivers. */
  lemma TopicChangeWaits(w: World, i: nat, name: Option<string>)
    requires i < |w.sessions|
    ensures var w1 := w.(sessions := w.sessions[i := w.sessions[i].(name := name)]);
            && AfterDelivery(w1, i).log == AfterDelivery(w, i).log
            && AfterDelivery(w1, i).saved == AfterDelivery(w, i).saved
  {
    hide MessagesAfter, ForKey, PendingMax, MaxSeq;
    var s := w.sessions[i].(midTick := false);
    assert From(s.(name := name)) == From(s);
  }

  // ── what a crash loses ──────────────────────────────────────────────────

  /** Where a session on the topic reads from at its next tick, and what a crash does to that: a saved cursor is
      kept, and without one reading resumes above everything stored. */
  lemma CrashMovesCursor(norm: string -> string, w: World, past: Past, i: nat, k: nat, key: string)
    requires Inv(norm, w, past) && i < |w.sessions| && KeyOf(norm, w.sessions[i].name) == Some(key)
    ensures var w1 := AfterCrash(w, i, k);
            var before := From(Entered(norm, w, w.sessions[i]));
            var after := From(Entered(norm, w1, w1.sessions[i]));
            && before <= after <= MaxSeq(w.rows)
            && after == (if key in w.saved then before else MaxSeq(w.rows))
  {
    hide KeyOf, MessagesAfter, ForKey, MaxSeq, Exclusive, Partials, Wanted, Clean, Ascending;
    SessionInStep(norm, w, past, i);
    assert Exact(w, past, key);
  }

  /** The rows of the topic that a crash makes the session skip, and when there are none. */
  lemma CrashSkips(norm: string -> string, w: World, past: Past, i: nat, k: nat, key: string)
    requires Inv(norm, w, past) && i < |w.sessions| && KeyOf(norm, w.sessions[i].name) == Some(key)
    ensures var w1 := AfterCrash(w, i, k);
            var before := From(Entered(norm, w, w.sessions[i]));
            var after := From(Entered(norm, w1, w1.sessions[i]));
            var pending := Wanted(w.rows, key, before, MaxSeq(w.rows));
            && Wanted(w.rows, key, before, after) == (if key in w.saved then [] else pending)
            && (Wanted(w.rows, key, before, after) == [] <==> key in w.saved || pending == [])
  {
    hide Inv, KeyOf, AfterCrash, Entered, Wanted;
    CrashMovesCursor(norm, w, past, i, k, key);
    WantedNone(w.rows, key, From(Entered(norm, w, w.sessions[i])), From(Entered(norm, w, w.sessions[i])));
  }

  ghost predicate StaysOn(acts: seq<Act>, i: nat) {
    forall n :: 0 <= n < |acts| && acts[n].TopicAct? ==> acts[n].i != i
  }

  /** The session holds the topic, and its cursor, floor and everything it will get are above `top`. */
  ghost predicate Above(norm: string -> string, w: World, i: nat, key: string, top: nat) {
    && i < |w.sessions| && KeyOf(norm, w.sessions[i].name) == Some(key)
    && top <= MaxSeq(w.rows)
    && (w.sessions[i].floor.Some? ==> top <= w.sessions[i].floor.value)
    && (key in w.saved ==> top <= w.saved[key])
  }

  ghost predicate AllAbove(rows: seq<Row>, top: nat) { forall r :: r in rows ==> top < r.seqNo }

  /** What was added to the log shows no row of the topic at or below `top`. */
  ghost predicate NewsAbove(log: seq<Event>, log': seq<Event>, key: string, top: nat) {
    log <= log' && forall n :: |log| <= n < |log'| && log'[n].key == key ==> AllAbove(log'[n].rows, top)
  }

  /** Only the session that holds a topic has it in hand. */
  lemma HolderOnly(norm: string -> string, w: World, i: nat, j: nat, key: string)
    requires Exclusive(norm, w) && i < |w.sessions| && j < |w.sessions|
    requires KeyOf(norm, w.sessions[i].name) == Some(key) && w.sessions[j].activeKey == Some(key)
    ensures j == i
  {
    hide KeyOf;
    Others(norm, w, i);
    assert key in Claims(norm, w.sessions[i]) && key in Claims(norm, w.sessions[j]);
  }

  lemma HolderReadsAbove(norm: string -> string, w: World, past: Past, i: nat, j: nat, key: string,
                         top: nat)
    requires Inv(norm, w, past) && Above(norm, w, i, key, top)
    requires j < |w.sessions| && w.sessions[j].activeKey == Some(key)
    ensures j == i && top <= From(w.sessions[j])
    ensures AllAbove(ForKey(key, MessagesAfter(w.rows, From(w.sessions[j]))), top)
  {
    HolderOnly(norm, w, i, j, key);
    SessionInStep(norm, w, past, j);
    OutOfTopic(w.rows, key, From(w.sessions[j]), 0);
  }

  lemma EventAbove(log: seq<Event>, e: Event, key: string, top: nat)
    requires e.key == key ==> AllAbove(e.rows, top)
    ensures NewsAbove(log, log + [e], key, top)
  {
  }

  lemma FinishAbove(norm: string -> string, w: World, past: Past, i: nat, key: string, top: nat, j: nat)
    requires Inv(norm, w, past) && Above(norm, w, i, key, top) && Allowed(norm, w, FinishAct(j))
    ensures Above(norm, AfterDelivery(w, j), i, key, top)
    ensures NewsAbove(w.log, AfterDelivery(w, j).log, key, top)
  {
    hide KeyOf, MessagesAfter, ForKey, PendingMax, MaxSeq, Inv, AllAbove;
    var s := w.sessions[j].(midTick := false);
    match s.activeKey {
      case None =>
      case Some(other) =>
        if other == key {
          HolderReadsAbove(norm, w, past, i, j, key, top);
        }
        EventAbove(w.log, Whole(other, ForKey(other, MessagesAfter(w.rows, From(s)))), key, top);
    }
  }

  lemma CrashAbove(norm: string -> string, w: World, past: Past, i: nat, key: string, top: nat, j: nat,
                   k: nat)
    requires Inv(norm, w, past) && Above(norm, w, i, key, top) && Allowed(norm, w, CrashAct(j, k))
    ensures Above(norm, AfterCrash(w, j, k), i, key, top)
    ensures NewsAbove(w.log, AfterCrash(w, j, k).log, key, top)
  {
    hide KeyOf, MessagesAfter, ForKey, PendingMax, MaxSeq, Inv;
    var s := w.sessions[j];
    if s.midTick && s.activeKey.Some? {
      var other := s.activeKey.value;
      var out := ForKey(other, MessagesAfter(w.rows, From(s)));
      if other == key {
        HolderReadsAbove(norm, w, past, i, j, key, top);
      }
      EventAbove(w.log, Partial(other, out[..Min(k, |out|)]), key, top);
    }
  }

  lemma StepAbove(norm: string -> string, w: World, past: Past, i: nat, key: string, top: nat, act: Act)
    requires Inv(norm, w, past) && Above(norm, w, i, key, top) && Allowed(norm, w, act)
    requires act.TopicAct? ==> act.i != i
    ensures Above(norm, Next(norm, w, act), i, key, top)
    ensures NewsAbove(w.log, Next(norm, w, act).log, key, top)
  {
    hide KeyOf, AfterDelivery, AfterCrash, Inv, MaxSeq, AllAbove;
    match act {
      case StoreAct(row) => InsertedMax(w.rows, row);
      case TopicAct(j, name) =>
      case EnterAct(j) =>
      case FinishAct(j) => FinishAbove(norm, w, past, i, key, top, j);
      case CrashAct(j, k) => CrashAbove(norm, w, past, i, key, top, j, k);
    }
  }

  lemma {:induction false} InsertedMax(rows: seq<Row>, row: Row)
    ensures MaxSeq(rows) <= MaxSeq(Inserted(rows, row))
  {
    if rows != [] && row.seqNo < rows[|rows| - 1].seqNo {
      var front := Inserted(rows[..|rows| - 1], row);
      InsertedMax(rows[..|rows| - 1], row);
      assert (front + [rows[|rows| - 1]])[..|front|] == front;
    } else {
      assert (rows + [row])[..|rows|] == rows;
    }
  }

  lemma NewsJoin(a: seq<Event>, b: seq<Event>, c: seq<Event>, key: string, top: nat)
    requires NewsAbove(a, b, key, top) && NewsAbove(b, c, key, top)
    ensures NewsAbove(a, c, key, top)
  {
    hide AllAbove;
    forall n | |a| <= n < |c| && c[n].key == key
      ensures AllAbove(c[n].rows, top)
    {
      if n < |b| {
        assert c[n] == b[n];
      }
    }
  }

  lemma {:induction false} RunAbove(norm: string -> string, w: World, past: Past, i: nat, key: string,
                                    top: nat, acts: seq<Act>)
    requires Inv(norm, w, past) && Above(norm, w, i, key, top) && StaysOn(acts, i)
    ensures Above(norm, After(norm, w, acts), i, key, top)
    ensures NewsAbove(w.log, After(norm, w, acts).log, key, top)
    decreases |acts|
  {
    hide Inv, Above, Allowed, Next, AllAbove;
    if acts != [] {
      var n := |acts| - 1;
      RunAbove(norm, w, past, i, key, top, acts[..n]);
      RunKeepsInv(norm, w, past, acts[..n]);
      var w1 := After(norm, w, acts[..n]);
      if Allowed(norm, w1, acts[n]) {
        StepAbove(norm, w1, PastAfter(norm, w, past, acts[..n]), i, key, top, acts[n]);
        NewsJoin(w.log, w1.log, Next(norm, w1, acts[n]).log, key, top);
      }
    }
  }

  lemma {:induction false} DeliveredFrozen(log: seq<Event>, log': seq<Event>, key: string, top: nat)
    requires NewsAbove(log, log', key, top)
    ensures forall r: Row :: r.seqNo <= top ==> (r in Delivered(log', key) <==> r in Delivered(log, key))
    decreases |log'|
  {
    if log == log' {
    } else {
      var n := |log'| - 1;
      DeliveredFrozen(log, log'[..n], key, top);
      assert log'[n].key == key ==> AllAbove(log'[n].rows, top);
    }
  }

  /** A crash of a session whose topic has no saved cursor loses, for good, everything stored that it had not shown:
      whatever happens next, short of the session taking another topic. */
  lemma UnsavedCursorLoses(norm: string -> string, w: World, past: Past, i: nat, k: nat, key: string,
                           acts: seq<Act>)
    requires Inv(norm, w, past) && i < |w.sessions| && KeyOf(norm, w.sessions[i].name) == Some(key)
    requires key !in w.saved && StaysOn(acts, i)
    ensures var w1 := AfterCrash(w, i, k);
            var w2 := After(norm, w1, acts);
            && Inv(norm, w2, PastAfter(norm, w1, past, acts))
            && (forall r :: r in w.rows ==> (r in Delivered(w2.log, key) <==> r in Delivered(w1.log, key)))
            && (forall r :: r in w.rows ==> r !in Clean(w2.log, key))
  {
    hide Inv, KeyOf, MaxSeq, Delivered, Clean, MessagesAfter, ForKey;
    var w1 := AfterCrash(w, i, k);
    var w2 := After(norm, w1, acts);
    var top := MaxSeq(w.rows);
    CrashKeepsInv(norm, w, past, i, k);
    RunAbove(norm, w1, past, i, key, top, acts);
    RunKeepsInv(norm, w1, past, acts);
    DeliveredFrozen(w1.log, w2.log, key, top);
    InvFacts(norm, w1, past);
    CleanAbove(w1.log, w2.log, key, top);
    assert forall r :: r in w.rows ==> r.seqNo <= top by {
      MaxSeqBounds(w.rows);
    }
  }

  lemma {:induction false} CleanAbove(log: seq<Event>, log': seq<Event>, key: string, top: nat)
    requires NewsAbove(log, log', key, top) && Clean(log, key) == []
    ensures AllAbove(Clean(log', key), top)
    decreases |log'|
  {
    if log == log' {
    } else {
      var n := |log'| - 1;
      CleanAbove(log, log'[..n], key, top);
      assert log'[n].key == key ==> AllAbove(log'[n].rows, top);
    }
  }

  /** With a saved cursor nothing is lost: once the cursor has passed what was stored at the crash, every row of
      the topic since its start has been delivered. */
  lemma SavedCursorLosesNothing(norm: string -> string, w: World, past: Past, i: nat, k: nat, key: string,
                                acts: seq<Act>)
    requires Inv(norm, w, past) && i < |w.sessions| && key in w.saved
    ensures var w2 := After(norm, AfterCrash(w, i, k), acts);
            && key in w2.saved && key in past.starts
            && (MaxSeq(w.rows) <= w2.saved[key] ==>
                  forall r ::
                    r in w.rows && Deliverable(key, r) && past.starts[key] < r.seqNo && r.seqNo !in past.late ==>
                      r in Clean(w2.log, key))
  {
    hide Inv, KeyOf, MaxSeq, Clean, MessagesAfter, ForKey, Deliverable, AfterCrash, Wanted, Timely, LateBelow;
    var w1 := AfterCrash(w, i, k);
    var w2 := After(norm, w1, acts);
    CrashKeepsInv(norm, w, past, i, k);
    CrashGrows(w, i, k);
    RunKeepsInv(norm, w1, past, acts);
    RunGrows(norm, w1, past, acts);
    var past2 := PastAfter(norm, w1, past, acts);
    InvExact(norm, w2, past2, key);
    InvExact(norm, w, past, key);
    if MaxSeq(w.rows) <= w2.saved[key] {
      MaxSeqBounds(w.rows);
      forall r | r in w.rows && Deliverable(key, r) && past.starts[key] < r.seqNo && r.seqNo !in past.late
        ensures r in Clean(w2.log, key)
      {
        DeliveredIff(w2, past2, key, r);
      }
    }
  }

  lemma InvExact(norm: string -> string, w: World, past: Past, key: string)
    requires Inv(norm, w, past)
    ensures Exact(w, past, key) && LateBelow(w, past.late) && (key in w.saved ==> key in past.starts)
  {
  }

  lemma CrashGrows(w: World, i: nat, k: nat)
    requires i < |w.sessions|
    ensures AfterCrash(w, i, k).rows == w.rows && AfterCrash(w, i, k).saved == w.saved
  {
  }

  lemma {:induction false} RunGrows(norm: string -> string, w: World, past: Past, acts: seq<Act>)
    requires Inv(norm, w, past)
    ensures var w' := After(norm, w, acts);
            var past' := PastAfter(norm, w, past, acts);
            && (forall r :: r in w.rows ==> r in w'.rows) && w.log <= w'.log
            && (forall s :: s in past'.late ==> s in past.late || NewSeq(w.rows, s))
            && (forall key :: key in w.saved ==> key in w'.saved)
            && (forall key :: key in w.saved && key in past.starts ==>
                  key in past'.starts && past'.starts[key] == past.starts[key])
    decreases |acts|
  {
    hide Inv, Allowed, Next, NextPast;
    if acts != [] {
      var n := |acts| - 1;
      RunGrows(norm, w, past, acts[..n]);
      var w1 := After(norm, w, acts[..n]);
      if Allowed(norm, w1, acts[n]) {
        StepGrows(norm, w1, PastAfter(norm, w, past, acts[..n]), acts[n]);
      }
    }
  }

  /** Exactly when a crash loses nothing: everything the session still had to deliver has been delivered by any run
      that stays on the topic and catches up, if and only if the cursor had been saved or nothing was pending. */
  lemma CrashLosesNothingIff(norm: string -> string, w: World, past: Past, i: nat, k: nat, key: string,
                             acts: seq<Act>)
    requires Inv(norm, w, past) && i < |w.sessions| && KeyOf(norm, w.sessions[i].name) == Some(key)
    requires StaysOn(acts, i)
    requires var saved := After(norm, AfterCrash(w, i, k), acts).saved; key in saved && MaxSeq(w.rows) <= saved[key]
    ensures var w2 := After(norm, AfterCrash(w, i, k), acts);
            var pending := Wanted(w.rows, key, From(Entered(norm, w, w.sessions[i])), MaxSeq(w.rows));
            (forall r :: r in pending ==> r in Clean(w2.log, key)) <==> key in w.saved || pending == []
  {
    hide Inv, KeyOf, MaxSeq, Clean, MessagesAfter, ForKey, Deliverable, AfterCrash, Entered, Wanted, Exact, NewSeq;
    var w2 := After(norm, AfterCrash(w, i, k), acts);
    var before := From(Entered(norm, w, w.sessions[i]));
    var pending := Wanted(w.rows, key, before, MaxSeq(w.rows));
    WantedMembers(w.rows, key, before, MaxSeq(w.rows));
    if key in w.saved {
      SavedCursorLosesNothing(norm, w, past, i, k, key, acts);
      ReadsFromSaved(norm, w, past, i, key);
      InvExact(norm, w, past, key);
    } else if pending != [] {
      UnsavedCursorLoses(norm, w, past, i, k, key, acts);
      assert pending[0] in pending;
    }
  }

  lemma ReadsFromSaved(norm: string -> string, w: World, past: Past, i: nat, key: string)
    requires Inv(norm, w, past) && i < |w.sessions| && KeyOf(norm, w.sessions[i].name) == Some(key) && key in w.saved
    ensures From(Entered(norm, w, w.sessions[i])) == w.saved[key]
    ensures key in past.starts && past.starts[key] <= w.saved[key]
  {
    hide KeyOf, MaxSeq, Exclusive, Partials, Wanted, Clean, Ascending;
    SessionInStep(norm, w, past, i);
    assert Exact(w, past, key);
  }

  // ── two sessions on one topic ───────────────────────────────────────────

  /** One tick of a session on a topic. */
  lemma TickOf(norm: string -> string, w: World, i: nat, key: string)
    requires i < |w.sessions| && KeyOf(norm, w.sessions[i].name) == Some(key)
    ensures var from := From(Entered(norm, w, w.sessions[i]));
            var w' := AfterTick(norm, w, i);
            && w'.log == w.log + [Whole(key, ForKey(key, MessagesAfter(w.rows, from)))]
            && w'.rows == w.rows && |w'.sessions| == |w.sessions|
            && (forall j :: 0 <= j < |w.sessions| && j != i ==> w'.sessions[j] == w.sessions[j])
  {
    hide KeyOf, ForKey, MessagesAfter, MaxSeq;
    var s := Entered(norm, w, w.sessions[i]);
    assert s.activeKey == Some(key);
    assert From(s.(midTick := false)) == From(s);
  }

  lemma BatchMembers(rows: seq<Row>, key: string, from: nat)
    requires Ascending(rows)
    ensures forall r :: r in ForKey(key, MessagesAfter(rows, from)) <==>
              r in rows && Deliverable(key, r) && from < r.seqNo <= NewCursor(from, MessagesAfter(rows, from))
  {
    hide Deliverable, ForKey, MessagesAfter;
    BatchIsWanted(rows, key, from);
    WantedMembers(rows, key, from, NewCursor(from, MessagesAfter(rows, from)));
  }

  /** Exactly when two sessions that tick on one topic both deliver a row: it is one of the topic's, beyond both
      cursors and within both batches. */
  lemma SharedTopicRepeats(norm: string -> string, w: World, i: nat, j: nat, key: string)
    requires Ascending(w.rows) && i < |w.sessions| && j < |w.sessions| && i != j
    requires KeyOf(norm, w.sessions[i].name) == Some(key) == KeyOf(norm, w.sessions[j].name)
    ensures var w1 := AfterTick(norm, w, i);
            var w2 := AfterTick(norm, w1, j);
            var ci := From(Entered(norm, w, w.sessions[i]));
            var cj := From(Entered(norm, w1, w.sessions[j]));
            var ei := NewCursor(ci, MessagesAfter(w.rows, ci));
            var ej := NewCursor(cj, MessagesAfter(w.rows, cj));
            && |w2.log| == |w.log| + 2 && w.log < w1.log < w2.log
            && w1.log[|w.log|].key == key == w2.log[|w.log| + 1].key
            && (forall r ::
                  r in w1.log[|w.log|].rows && r in w2.log[|w.log| + 1].rows <==>
                  r in w.rows && Deliverable(key, r) && Max(ci, cj) < r.seqNo <= Min(ei, ej))
            && ((forall r :: r in w1.log[|w.log|].rows ==> r !in w2.log[|w.log| + 1].rows) <==>
                Wanted(w.rows, key, Max(ci, cj), Min(ei, ej)) == [])
  {
    hide KeyOf, Entered, AfterTick, ForKey, MessagesAfter, Deliverable, NewCursor, Ascending, Wanted;
    var w1 := AfterTick(norm, w, i);
    var ci := From(Entered(norm, w, w.sessions[i]));
    var cj := From(Entered(norm, w1, w.sessions[j]));
    TickOf(norm, w, i, key);
    TickOf(norm, w1, j, key);
    BatchMembers(w.rows, key, ci);
    BatchMembers(w.rows, key, cj);
    var lo, hi := Max(ci, cj), Min(NewCursor(ci, MessagesAfter(w.rows, ci)), NewCursor(cj, MessagesAfter(w.rows, cj)));
    WantedMembers(w.rows, key, lo, hi);
    if Wanted(w.rows, key, lo, hi) != [] {
      assert Wanted(w.rows, key, lo, hi)[0] in Wanted(w.rows, key, lo, hi);
    }
  }

  // ── worlds in which the conventions are broken ──────────────────────────

  /** A row from the peer, outside every topic. */
  const NEWS: Row := Row(1, false, None)

  /** Processes just started on an empty store. */
  function EmptyWorld(names: seq<Option<string>>): World { World([], map[], AllStarted(names), []) }

  lemma OneRow()
    ensures MessagesAfter([NEWS], 0) == [NEWS] && ForKey("", [NEWS]) == [NEWS] && MaxSeq([NEWS]) == 1
    ensures MessagesAfter([], 0) == [] && ForKey("", []) == [] && MaxSeq([]) == 0
    ensures Inserted([], NEWS) == [NEWS] && Wanted([NEWS], "", 0, 1) == [NEWS] && Deliverable("", NEWS)
  {
    assert [NEWS][..0] == [];
    assert Newer([NEWS], 0) == Newer([], 0) + [NEWS];
    assert ForKey("", [NEWS]) == ForKey("", []) + [NEWS];
    assert Wanted([NEWS], "", 0, 1) == Wanted([], "", 0, 1) + [NEWS];
  }

  /** A session begins its first tick on the main branch, and a row is stored before it reads. */
  function FirstTickInterrupted(norm: string -> string, name: Option<string>): World {
    AfterEnter(norm, EmptyWorld([name]), 0).(rows := [NEWS])
  }

  /** If the process is killed there, the row is never shown, however the run goes on. */
  lemma FirstRowCanBeLost(norm: string -> string, name: Option<string>, acts: seq<Act>)
    requires KeyOf(norm, name) == Some("") && StaysOn(acts, 0)
    ensures var w := FirstTickInterrupted(norm, name);
            && Inv(norm, w, Past(map[], {})) && w == After(norm, EmptyWorld([name]), [EnterAct(0), StoreAct(NEWS)])
            && NEWS !in Delivered(After(norm, AfterCrash(w, 0, 0), acts).log, "")
  {
    hide KeyOf, Inv, Inserted, MaxSeq, MessagesAfter, ForKey, Newer, Wanted, Deliverable;
    OneRow();
    var w0 := EmptyWorld([name]);
    FreshStart(norm, w0);
    EnterKeepsInv(norm, w0, Past(map[], {}), 0);
    var w1 := AfterEnter(norm, w0, 0);
    StoreKeepsInv(norm, w1, Past(map[], {}), NEWS);
    var w := FirstTickInterrupted(norm, name);
    var both := [EnterAct(0), StoreAct(NEWS)];
    assert both[..1] == [EnterAct(0)] && [EnterAct(0)][..0] == [];
    assert After(norm, w0, [EnterAct(0)]) == w1;
    UnsavedCursorLoses(norm, w, Past(map[], {}), 0, 0, "", acts);
    NothingShown(w, AfterCrash(w, 0, 0).log);
  }

  lemma NothingShown(w: World, log: seq<Event>)
    requires log == [] || exists key :: log == [Partial(key, [])]
    ensures Delivered(log, "") == []
  {
    assert log != [] ==> log[..|log| - 1] == [];
  }

  /** Two sessions on the main branch that have each ticked once before the row came. */
  function BothOnMain(norm: string -> string, name: Option<string>): World {
    AfterTick(norm, AfterTick(norm, EmptyWorld([name, name]), 0), 1).(rows := [NEWS])
  }

  /** Each shows the row to its agent. */
  lemma SharedTopicShowsTwice(norm: string -> string, name: Option<string>)
    requires KeyOf(norm, name) == Some("")
    ensures var w := BothOnMain(norm, name);
            var w2 := AfterTick(norm, AfterTick(norm, w, 0), 1);
            w2.log == w.log + [Whole("", [NEWS]), Whole("", [NEWS])]
  {
    hide KeyOf, Inserted, MaxSeq, MessagesAfter, ForKey, Newer, Wanted, Deliverable;
    OneRow();
    var w0 := EmptyWorld([name, name]);
    var w1 := AfterTick(norm, w0, 0);
    var w2 := AfterTick(norm, w1, 1);
    var w := BothOnMain(norm, name);
    assert forall i :: 0 <= i < 2 ==> w.sessions[i].cursor == Some(0) && w.sessions[i].activeKey == Some("");
    TickOf(norm, w, 0, "");
    TickOf(norm, AfterTick(norm, w, 0), 1, "");
  }
}
