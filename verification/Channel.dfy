/** Several sessions share one store; each delivers only its own topic, through a cursor kept per topic. */
module Channel {
  import opened Base
  import opened Types

  const BATCH: nat := 256

  /** A stored message that has a seq. */
  datatype Row = Row(seqNo: nat, mine: bool, topic: Option<Topic>)

  /** What the loop of one process remembers; `name` is the topic its agent asks for, which can change while a tick
      is under way (`midTick`), between reading it and delivering. */
  datatype Session = Session(
    name: Option<string>,
    activeKey: Option<string>,
    cursor: Option<nat>,
    floor: Option<nat>,
    midTick: bool,
    lastNudge: nat)

  /** A process that has just been started. */
  function Started(name: Option<string>): Session {
    Session(name, None, None, None, false, 0)
  }

  /** Deliveries, by the topic they were made for: whole batches, and what a process got out before it died. */
  datatype Event = Whole(key: string, rows: seq<Row>) | Partial(key: string, rows: seq<Row>)

  datatype World = World(
    rows: seq<Row>,
    saved: map<string, nat>,
    sessions: seq<Session>,
    log: seq<Event>)

  /** `classify_topic` and `scope_key` in one: no key without a topic, the empty key for the main branch, and
      otherwise the normalised name. `norm` joins the words of a name and lower-cases them. */
  function KeyOf(norm: string -> string, name: Option<string>): Option<string> {
    match name
    case None => None
    case Some(n) =>
      if norm(n) == "" then None
      else if norm(n) in {"главная", "main"} then Some("")
      else Some(norm(n))
  }

  function TopicOf(key: string): Option<Topic> {
    if key == "" then None else Some(key)
  }

  predicate Deliverable(key: string, r: Row) { !r.mine && r.topic == TopicOf(key) }

  function MaxSeq(rows: seq<Row>): nat {
    if rows == [] then 0 else Max(MaxSeq(rows[..|rows| - 1]), rows[|rows| - 1].seqNo)
  }

  /** The stored rows are read by seq, so that is where a new one appears. */
  function Inserted(rows: seq<Row>, row: Row): seq<Row> {
    if rows != [] && row.seqNo < rows[|rows| - 1].seqNo
    then Inserted(rows[..|rows| - 1], row) + [rows[|rows| - 1]]
    else rows + [row]
  }

  /** `messages_after_seq` without its limit. */
  function Newer(rows: seq<Row>, from: nat): seq<Row> {
    if rows == [] then []
    else Newer(rows[..|rows| - 1], from) + if from < rows[|rows| - 1].seqNo then [rows[|rows| - 1]] else []
  }

  function MessagesAfter(rows: seq<Row>, from: nat): seq<Row> {
    Newer(rows, from)[..Min(BATCH, |Newer(rows, from)|)]
  }

  function ForKey(key: string, rows: seq<Row>): seq<Row> {
    if rows == [] then []
    else ForKey(key, rows[..|rows| - 1]) + if Deliverable(key, rows[|rows| - 1]) then [rows[|rows| - 1]] else []
  }

  // ── one tick on values ──────────────────────────────────────────────────

  /** The first half of a tick: the floor of the session, and its cursor if the topic changed. */
  function Entered(norm: string -> string, w: World, s: Session): Session {
    var floor := s.floor.GetOr(MaxSeq(w.rows));
    var key := KeyOf(norm, s.name);
    if key == s.activeKey then s.(floor := Some(floor), midTick := true)
    else
      var cursor := if key.None? then None
                    else Some(if key.value in w.saved then w.saved[key.value] else floor);
      s.(floor := Some(floor), activeKey := key, cursor := cursor, midTick := true)
  }

  function AfterEnter(norm: string -> string, w: World, i: nat): World
    requires i < |w.sessions|
  {
    w.(sessions := w.sessions[i := Entered(norm, w, w.sessions[i])])
  }

  function From(s: Session): nat { s.cursor.GetOr(s.floor.GetOr(0)) }

  /** The nudge of a session without a topic: the greatest new seq from the peer, if it is news. */
  function PendingMax(rows: seq<Row>): nat {
    if rows == [] then 0
    else Max(PendingMax(rows[..|rows| - 1]), if rows[|rows| - 1].mine then 0 else rows[|rows| - 1].seqNo)
  }

  function NewCursor(from: nat, batch: seq<Row>): nat { Max(from, MaxSeq(batch)) }

  /** The second half of a tick: what the store holds now is delivered under the topic read in the first half. */
  function AfterDelivery(w: World, i: nat): World
    requires i < |w.sessions|
  {
    var s := w.sessions[i].(midTick := false);
    var from := From(s);
    var batch := MessagesAfter(w.rows, from);
    match s.activeKey
    case None =>
      w.(sessions := w.sessions[i := s.(lastNudge := Max(s.lastNudge, PendingMax(batch)))])
    case Some(key) =>
      var cursor := NewCursor(from, batch);
      var w1 := w.(log := w.log + [Whole(key, ForKey(key, batch))]);
      if cursor == from then w1.(sessions := w.sessions[i := s])
      else w1.(sessions := w.sessions[i := s.(cursor := Some(cursor))], saved := w.saved[key := cursor])
  }

  /** A tick during which nothing else happens. */
  function AfterTick(norm: string -> string, w: World, i: nat): World
    requires i < |w.sessions|
  {
    AfterDelivery(AfterEnter(norm, w, i), i)
  }

  /** The process dies, in the middle of a tick after its first `k` notifications and before the cursor is saved, and
      is started again with the topic it had. */
  function AfterCrash(w: World, i: nat, k: nat): World
    requires i < |w.sessions|
  {
    var s := w.sessions[i];
    var w1 := w.(sessions := w.sessions[i := Started(s.name)]);
    if s.midTick && s.activeKey.Some? then
      var out := ForKey(s.activeKey.value, MessagesAfter(w.rows, From(s)));
      w1.(log := w.log + [Partial(s.activeKey.value, out[..Min(k, |out|)])])
    else w1
  }

  // ── the loops over one batch ────────────────────────────────────────────

  method GreatestFromPeer(batch: seq<Row>) returns (pending: nat)
    ensures pending == PendingMax(batch)
    ensures forall r :: r in batch && !r.mine ==> r.seqNo <= pending
    ensures pending > 0 ==> exists r :: r in batch && !r.mine && r.seqNo == pending
  {
    PendingIsGreatest(batch);
    pending := 0;
    var k := 0;
    while k < |batch|
      invariant 0 <= k <= |batch| && pending == PendingMax(batch[..k])
    {
      assert batch[..k + 1][..k] == batch[..k];
      if !batch[k].mine {
        pending := Max(pending, batch[k].seqNo);
      }
      k := k + 1;
    }
    assert batch[..k] == batch;
  }

  lemma {:induction false} PendingIsGreatest(rows: seq<Row>)
    ensures forall r :: r in rows && !r.mine ==> r.seqNo <= PendingMax(rows)
    ensures PendingMax(rows) > 0 ==> exists r :: r in rows && !r.mine && r.seqNo == PendingMax(rows)
  {
    if rows != [] {
      PendingIsGreatest(rows[..|rows| - 1]);
      assert rows == rows[..|rows| - 1] + [rows[|rows| - 1]];
      assert rows[|rows| - 1] in rows;
    }
  }

  /** The cursor moves over every row read; rows of the topic that are not our own go out. */
  method Deliver(key: string, from: nat, batch: seq<Row>) returns (newcur: nat, out: seq<Row>)
    ensures newcur == NewCursor(from, batch) && out == ForKey(key, batch)
  {
    newcur, out := from, [];
    var k := 0;
    while k < |batch|
      invariant 0 <= k <= |batch|
      invariant newcur == NewCursor(from, batch[..k]) && out == ForKey(key, batch[..k])
    {
      assert batch[..k + 1][..k] == batch[..k];
      newcur := Max(newcur, batch[k].seqNo);
      if !batch[k].mine && batch[k].topic == TopicOf(key) {
        out := out + [batch[k]];
      }
      k := k + 1;
    }
    assert batch[..k] == batch;
  }

  function AllStarted(names: seq<Option<string>>): (sessions: seq<Session>)
    ensures |sessions| == |names|
  {
    seq(|names|, i requires 0 <= i < |names| => Started(names[i]))
  }

  // ── the system ──────────────────────────────────────────────────────────

  class System {
    const norm: string -> string
    var rows: seq<Row>
    var saved: map<string, nat>
    var sessions: seq<Session>
    var log: seq<Event>

    function State(): World
      reads this
    {
      World(rows, saved, sessions, log)
    }

    /** Processes that have just been started on a store, with the cursors earlier ones left behind. */
    constructor (norm: string -> string, rows: seq<Row>, saved: map<string, nat>, names: seq<Option<string>>)
      ensures this.norm == norm && State() == World(rows, saved, AllStarted(names), [])
    {
      this.norm, this.rows, this.saved, log := norm, rows, saved, [];
      sessions := AllStarted(names);
    }

    /** A received message is stored: mostly at the end, but a packet may arrive late. */
    method Store(r: Row)
      modifies this`rows
      ensures rows == Inserted(old(rows), r)
    {
      rows := Inserted(rows, r);
    }

    method SetTopic(i: nat, name: Option<string>)
      requires i < |sessions|
      modifies this`sessions
      ensures sessions == old(sessions)[i := old(sessions)[i].(name := name)]
    {
      sessions := sessions[i := sessions[i].(name := name)];
    }

    /** The part of a tick before the store is read. */
    method Enter(i: nat)
      requires i < |sessions|
      modifies this`sessions
      ensures State() == AfterEnter(norm, old(State()), i)
    {
      var s := sessions[i].(midTick := true);
      if s.floor.None? {
        s := s.(floor := Some(MaxSeq(rows)));
      }
      var key := KeyOf(norm, s.name);
      if key != s.activeKey {
        s := s.(activeKey := key,
                cursor := if key.None? then None
                          else Some(if key.value in saved then saved[key.value] else s.floor.value));
      }
      sessions := sessions[i := s];
    }

    /** The part of a tick from the store read on. */
    method Finish(i: nat)
      requires i < |sessions|
      modifies this
      ensures State() == AfterDelivery(old(State()), i)
    {
      hide ForKey, PendingMax, MessagesAfter, MaxSeq;
      var s := sessions[i].(midTick := false);
      var from := From(s);
      var batch := MessagesAfter(rows, from);
      match s.activeKey {
        case None =>
          var pending := GreatestFromPeer(batch);
          if pending > s.lastNudge {
            s := s.(lastNudge := pending);
          }
          sessions := sessions[i := s];
        case Some(key) =>
          var newcur, out := Deliver(key, from, batch);
          log := log + [Whole(key, out)];
          if newcur != from {
            s := s.(cursor := Some(newcur));
            saved := saved[key := newcur];
          }
          sessions := sessions[i := s];
      }
    }

    method Crash(i: nat, k: nat)
      requires i < |sessions|
      modifies this
      ensures State() == AfterCrash(old(State()), i, k)
    {
      var s := sessions[i];
      if s.midTick && s.activeKey.Some? {
        var out := ForKey(s.activeKey.value, MessagesAfter(rows, From(s)));
        log := log + [Partial(s.activeKey.value, out[..Min(k, |out|)])];
      }
      sessions := sessions[i := Started(s.name)];
    }
  }
}
