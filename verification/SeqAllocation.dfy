/** Allocation of outgoing seqs over every sequence of store operations (store.rs, seq management). */
module SeqAllocation {
  import opened Base
  import opened Types
  import opened LocalStore

  /** Seqs `[from, to]` handed out while the pull cursor stood at `pulled`. */
  datatype Grant = Grant(from: nat, to: nat, pulled: nat)

  datatype Config = Config(st: StoreState, grants: seq<Grant>)

  datatype Op =
    | NextSeq
    | Reserve(count: nat)
    | Pulled(s: nat)
    | SaveOwn(m: Message)
    | SaveReceived(m: Message, advance: nat)

  /** A save is made for a seq that carries no message yet: one that was granted to us, or one that
      was pulled and past which the cursor moves in the same operation. */
  ghost predicate Enabled(c: Config, op: Op) {
    match op
    case SaveOwn(m) =>
      && m.serverSeq.Some?
      && !HasSeq(c.st.tables.messages, m.serverSeq.value)
      && exists i :: 0 <= i < |c.grants| && c.grants[i].from <= m.serverSeq.value <= c.grants[i].to
    case SaveReceived(m, advance) =>
      m.serverSeq.Some? && m.serverSeq.value <= advance && !HasSeq(c.st.tables.messages, m.serverSeq.value)
    case _ => true
  }

  /** What one operation does. */
  function Step(c: Config, op: Op): Config {
    var n := c.st.nextSend;
    match op
    case NextSeq =>
      Config(c.st.(nextSend := n + 1), c.grants + [Grant(n, n, c.st.lastPulled)])
    case Reserve(count) =>
      if count == 0 || n + count > U64_MAX then c
      else Config(c.st.(nextSend := n + count), c.grants + [Grant(n, n + count - 1, c.st.lastPulled)])
    case Pulled(s) => c.(st := SetPulled(c.st, s))
    case SaveOwn(m) => c.(st := c.st.(tables := Save(c.st.tables, m)))
    case SaveReceived(m, advance) => c.(st := SetPulled(c.st.(tables := Save(c.st.tables, m)), advance))
  }

  /** The store's own methods perform these operations. */
  method Perform(store: Store, grants: seq<Grant>, op: Op) returns (grants': seq<Grant>)
    modifies store
    ensures Config(store.State(), grants') == Step(Config(old(store.State()), grants), op)
  {
    grants' := grants;
    var pulled := store.lastPulled;
    match op {
      case NextSeq =>
        var s := store.NextSendSeq();
        grants' := grants + [Grant(s, s, pulled)];
      case Reserve(count) =>
        var start := store.ReserveSendSeqRange(count);
        if start.Ok? {
          grants' := grants + [Grant(start.value, start.value + count - 1, pulled)];
        }
      case Pulled(s) =>
        store.SetLastPulledSeq(s);
      case SaveOwn(m) =>
        store.SaveMessage(m);
      case SaveReceived(m, advance) =>
        store.SaveMessage(m);
        store.SetLastPulledSeq(advance);
    }
  }

  function Run(c: Config, ops: seq<Op>): Config
    decreases |ops|
  {
    if ops == [] then c else Run(Step(c, ops[0]), ops[1..])
  }

  ghost predicate AllEnabled(c: Config, ops: seq<Op>)
    decreases |ops|
  {
    ops != [] ==> Enabled(c, ops[0]) && AllEnabled(Step(c, ops[0]), ops[1..])
  }

  ghost predicate Safe(c: Config) {
    && (forall i :: 0 <= i < |c.grants| ==>
          c.grants[i].pulled < c.grants[i].from <= c.grants[i].to < c.st.nextSend)
    && (forall i, j :: 0 <= i < j < |c.grants| ==> c.grants[i].to < c.grants[j].from)
    && c.st.lastPulled < c.st.nextSend
    && DistinctSeqs(c.st.tables.messages)
    && SeqsBelow(c.st.tables.messages, c.st.nextSend)
  }

  lemma StepKeepsSafe(c: Config, op: Op)
    requires Safe(c) && Enabled(c, op)
    ensures Safe(Step(c, op))
  {
    match op
    case SaveOwn(m) =>
      var i :| 0 <= i < |c.grants| && c.grants[i].from <= m.serverSeq.value <= c.grants[i].to;
    case _ =>
  }

  /** Every run grants disjoint ascending ranges above the cursor, keeps the counter above the cursor, and keeps
      stored seqs distinct and below the counter. */
  lemma {:induction false} EveryRunIsSafe(c: Config, ops: seq<Op>)
    requires Safe(c) && AllEnabled(c, ops)
    ensures Safe(Run(c, ops))
    decreases |ops|
  {
    if ops != [] {
      StepKeepsSafe(c, ops[0]);
      EveryRunIsSafe(Step(c, ops[0]), ops[1..]);
    }
  }

  const EMPTY: Config := Config(StoreState(0, 1, Tables(map[], map[]), map[]), [])

  lemma RunsFromEmptyAreSafe(ops: seq<Op>)
    requires AllEnabled(EMPTY, ops)
    ensures Safe(Run(EMPTY, ops))
  {
    EveryRunIsSafe(EMPTY, ops);
  }

  /** Between the two store calls that record a received packet the bound on stored seqs can be broken;
      it holds there exactly when the packet's seq is already below the counter. */
  lemma BoundBetweenSaveAndCursor(c: Config, m: Message)
    requires Safe(c) && m.serverSeq.Some?
    ensures SeqsBelow(Save(c.st.tables, m).messages, c.st.nextSend) <==> m.serverSeq.value < c.st.nextSend
  {
    assert Save(c.st.tables, m).messages[m.id] == m;
  }
}
