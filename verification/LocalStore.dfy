/** The client's local database for one dialogue (ParanoiaLibrary/src/store.rs). */
module LocalStore {
  import opened Base
  import opened Types

  type Messages = map<Id, Message>

  /** The tables that received packets are written to. */
  datatype Tables = Tables(messages: Messages, chunks: map<Id, map<nat, ChunkRow>>)

  /** The value of a whole store. */
  datatype StoreState = StoreState(
    lastPulled: nat,
    nextSend: nat,
    tables: Tables,
    journal: map<Id, Outbound>)

  /** `set_last_pulled_seq`, and then the table updates, on values. */
  function SetPulled(st: StoreState, s: nat): StoreState {
    st.(lastPulled := Max(st.lastPulled, s), nextSend := Max(st.nextSend, s + 1))
  }

  function Save(t: Tables, m: Message): Tables {
    t.(messages := t.messages[m.id := m])
  }

  function SetStatus(t: Tables, id: Id, status: Status): Tables {
    if id in t.messages then t.(messages := t.messages[id := t.messages[id].(status := status)]) else t
  }

  predicate Confirmed(m: Message) { m.status.Delivered? || m.status.Read? }

  function ReadUntil(t: Tables, upTo: nat): Tables {
    t.(messages := map id | id in t.messages ::
          var m := t.messages[id];
          if m.serverSeq.Some? && m.serverSeq.value <= upTo && m.status in {Sent, Delivered}
          then m.(status := Read) else m)
  }

  function DeleteSeqs(t: Tables, seqs: set<nat>): Tables {
    t.(messages := map id | id in t.messages &&
                            !(t.messages[id].serverSeq.Some? && t.messages[id].serverSeq.value in seqs)
                         :: t.messages[id])
  }

  /** Some message carries server seq `s`. */
  ghost predicate HasSeq(messages: Messages, s: nat) {
    exists id :: id in messages && messages[id].serverSeq == Some(s)
  }

  /** No two messages carry the same server seq. */
  ghost predicate DistinctSeqs(messages: Messages) {
    forall a, b :: a in messages && b in messages && a != b && messages[a].serverSeq.Some?
      ==> messages[a].serverSeq != messages[b].serverSeq
  }

  ghost predicate SeqsBelow(messages: Messages, n: nat) {
    forall id :: id in messages && messages[id].serverSeq.Some? ==> messages[id].serverSeq.value < n
  }

  ghost predicate KeyedById(messages: Messages) {
    forall id :: id in messages ==> messages[id].id == id
  }

  /** A message still being sent has a journal row. */
  ghost predicate SendingJournalled(st: StoreState) {
    forall id :: id in st.tables.messages && st.tables.messages[id].status.Sending? ==> id in st.journal
  }

  /** Journal rows describe seq ranges that were granted to this client and that never overlap. */
  ghost predicate JournalSane(st: StoreState) {
    && (forall id :: id in st.journal ==>
          && st.journal[id].transferId == id
          && 0 < st.journal[id].headerSeq
          && st.journal[id].chunkCount == |st.journal[id].chunkSizes|
          && st.journal[id].headerSeq + st.journal[id].chunkCount < st.nextSend)
    && (forall a, b :: a in st.journal && b in st.journal && a != b ==> DisjointRanges(st.journal[a], st.journal[b]))
  }

  ghost predicate DisjointRanges(a: Outbound, b: Outbound) {
    a.headerSeq + a.chunkCount < b.headerSeq || b.headerSeq + b.chunkCount < a.headerSeq
  }

  /** What holds of a store at every operation boundary. */
  ghost predicate Inv(st: StoreState) {
    && st.nextSend > st.lastPulled
    && KeyedById(st.tables.messages)
    && DistinctSeqs(st.tables.messages)
    && SeqsBelow(st.tables.messages, st.nextSend)
    && SendingJournalled(st)
    && JournalSane(st)
  }

  lemma InvPositive(st: StoreState)
    requires Inv(st)
    ensures 0 < st.nextSend
  {
  }

  lemma CounterKeepsInv(st: StoreState, next: nat)
    requires Inv(st) && st.nextSend <= next
    ensures Inv(st.(nextSend := next))
  {
  }

  /** Storing a message under a seq that was just granted. */
  lemma GrantedSaveKeepsInv(st: StoreState, m: Message, next: nat)
    requires Inv(st) && m.serverSeq == Some(st.nextSend) && st.nextSend < next
    requires m.status.Sending? ==> m.id in st.journal
    ensures Inv(st.(nextSend := next, tables := Save(st.tables, m)))
  {
  }

  /** A transfer begins: a range is granted, the message is stored as Sending, the journal row is written. */
  lemma BeginTransferKeepsInv(st: StoreState, m: Message, t: Outbound)
    requires Inv(st)
    requires m.serverSeq == Some(st.nextSend) && m.id == t.transferId
    requires t.headerSeq == st.nextSend && t.chunkCount == |t.chunkSizes|
    ensures Inv(StoreState(st.lastPulled, st.nextSend + t.chunkCount + 1, Save(st.tables, m),
                           st.journal[t.transferId := t]))
  {
  }

  /** A transfer ends: the row goes and the message, if it is still there, gets a final status. */
  lemma EndTransferKeepsInv(st: StoreState, id: Id, status: Status)
    requires Inv(st) && !status.Sending?
    ensures Inv(st.(tables := SetStatus(st.tables, id, status), journal := st.journal - {id}))
  {
  }

  function Bumped(journal: map<Id, Outbound>, id: Id): map<Id, Outbound> {
    if id in journal then journal[id := journal[id].(attempts := journal[id].attempts + 1)] else journal
  }

  lemma BumpKeepsInv(st: StoreState, id: Id)
    requires Inv(st)
    ensures Inv(st.(journal := Bumped(st.journal, id)))
  {
  }

  /** `SELECT data ... ORDER BY chunk_index` over indices `[i, n)`. */
  function ChunkData(rows: map<nat, ChunkRow>, i: nat, n: nat): Bytes
    requires i <= n
    decreases n - i
  {
    if i == n then [] else (if i in rows then rows[i].data else []) + ChunkData(rows, i + 1, n)
  }

  /** `MAX(f)` over the rows with index in `[i, n)`. */
  function MaxOf(rows: map<nat, ChunkRow>, f: ChunkRow -> nat, i: nat, n: nat): nat
    requires i <= n
    decreases n - i
  {
    if i == n then 0 else Max(if i in rows then f(rows[i]) else 0, MaxOf(rows, f, i + 1, n))
  }

  /** `chunk_index` is a `u32`. */
  const CHUNK_INDEX_END: nat := 0x1_0000_0000

  const TOTAL: ChunkRow -> nat := (r: ChunkRow) => r.total
  const SENDER: ChunkRow -> nat := (r: ChunkRow) => r.sender
  const META: ChunkRow -> nat := (r: ChunkRow) => r.meta

  datatype Assembled = Assembled(sender: User, meta: Meta, data: Bytes)

  /** `try_assemble_chunks` on the rows of one transfer; a row was always saved just before. */
  function Assemble(rows: map<nat, ChunkRow>): Option<Assembled> {
    if rows == map[] || |rows| < MaxOf(rows, TOTAL, 0, CHUNK_INDEX_END) then None
    else Some(Assembled(
      MaxOf(rows, SENDER, 0, CHUNK_INDEX_END),
      MaxOf(rows, META, 0, CHUNK_INDEX_END),
      ChunkData(rows, 0, CHUNK_INDEX_END)))
  }

  /** What assembling yields: for chunks of one file, which agree on its length, it succeeds exactly when every index
      has arrived, in whatever order, and gives their bytes in index order. */
  lemma AssembleWhole(rows: map<nat, ChunkRow>, total: nat)
    requires rows != map[] && total <= CHUNK_INDEX_END
    requires forall i :: i in rows ==> i < total && rows[i].total == total
    ensures Assemble(rows).Some? <==> forall i: nat :: i < total ==> i in rows
    ensures Assemble(rows).Some? ==> Assemble(rows).value.data == Concat(DataOf(rows, total))
  {
    MaxOfSame(rows, TOTAL, total, 0, CHUNK_INDEX_END);
    KeysBelow(rows.Keys, total);
    ChunkDataBeyond(rows, total, CHUNK_INDEX_END);
    ChunkDataSplit(rows, 0, total, CHUNK_INDEX_END);
    ChunkDataConcat(rows, total);
  }

  /** Chunks that agree on their sender and their file's name give it both. */
  lemma AssembleNames(rows: map<nat, ChunkRow>, sender: User, meta: Meta)
    requires forall i :: i in rows ==> i < CHUNK_INDEX_END && rows[i].sender == sender && rows[i].meta == meta
    ensures Assemble(rows).Some? ==> Assemble(rows).value.sender == sender && Assemble(rows).value.meta == meta
  {
    hide ChunkData;
    MaxOfSame(rows, SENDER, sender, 0, CHUNK_INDEX_END);
    MaxOfSame(rows, META, meta, 0, CHUNK_INDEX_END);
    hide MaxOf;
    if rows != map[] {
      var i :| i in rows;
      assert i in rows && 0 <= i;
    }
  }

  /** The data of the rows with indices below `n`, in order. */
  function DataOf(rows: map<nat, ChunkRow>, n: nat): seq<Bytes> {
    seq(n, i requires 0 <= i < n => if i in rows then rows[i].data else [])
  }

  lemma {:induction false} MaxOfSame(rows: map<nat, ChunkRow>, f: ChunkRow -> nat, value: nat, i: nat, n: nat)
    requires i <= n && forall k :: k in rows ==> k < n && f(rows[k]) == value
    ensures MaxOf(rows, f, i, n) == if exists k :: k in rows && i <= k then value else 0
    decreases n - i
  {
    if i < n {
      MaxOfSame(rows, f, value, i + 1, n);
      assert forall k :: k in rows && i <= k ==> k == i || i + 1 <= k;
    }
  }

  /** A set of numbers below `n` has `n` elements exactly if it has them all. */
  lemma {:induction false} KeysBelow(keys: set<nat>, n: nat)
    requires forall k :: k in keys ==> k < n
    ensures |keys| <= n && (|keys| == n <==> forall i: nat :: i < n ==> i in keys)
    decreases n
  {
    if n == 0 {
      assert keys == {};
    } else {
      var rest := keys - {n - 1};
      KeysBelow(rest, n - 1);
      assert n - 1 in keys ==> keys == rest + {n - 1};
      assert n - 1 !in keys ==> keys == rest;
    }
  }

  lemma {:induction false} ChunkDataBeyond(rows: map<nat, ChunkRow>, i: nat, n: nat)
    requires i <= n && forall k :: k in rows ==> k < i
    ensures ChunkData(rows, i, n) == []
    decreases n - i
  {
    if i < n {
      ChunkDataBeyond(rows, i + 1, n);
    }
  }

  lemma {:induction false} ChunkDataSplit(rows: map<nat, ChunkRow>, i: nat, m: nat, n: nat)
    requires i <= m <= n
    ensures ChunkData(rows, i, n) == ChunkData(rows, i, m) + ChunkData(rows, m, n)
    decreases m - i
  {
    if i < m {
      ChunkDataSplit(rows, i + 1, m, n);
    }
  }

  lemma {:induction false} ChunkDataConcat(rows: map<nat, ChunkRow>, n: nat)
    ensures ChunkData(rows, 0, n) == Concat(DataOf(rows, n))
  {
    if n > 0 {
      ChunkDataConcat(rows, n - 1);
      ChunkDataSplit(rows, 0, n - 1, n);
      var last: Bytes := if n - 1 in rows then rows[n - 1].data else [];
      assert DataOf(rows, n) == DataOf(rows, n - 1) + [last];
      ConcatSnoc(DataOf(rows, n - 1), last);
      assert ChunkData(rows, n - 1, n) == last + ChunkData(rows, n, n);
    }
  }

  function RowsOf(t: Tables, transfer: Id): map<nat, ChunkRow> {
    if transfer in t.chunks then t.chunks[transfer] else map[]
  }

  /** `INSERT OR IGNORE`. */
  function AddChunk(t: Tables, transfer: Id, index: nat, row: ChunkRow): Tables {
    var rows := RowsOf(t, transfer);
    if index in rows then t else t.(chunks := t.chunks[transfer := rows[index := row]])
  }

  function DropChunks(t: Tables, transfer: Id): Tables {
    t.(chunks := t.chunks - {transfer})
  }

  /** The calls that write messages and journal rows one by one. */
  datatype Call =
    | SaveCall(m: Message)
    | InsertCall(t: Outbound)
    | DeleteCall(id: Id)
    | StatusCall(id: Id, status: Status)
    | BumpCall(id: Id)

  class Store {
    var lastPulled: nat
    var nextSend: nat
    var messages: Messages
    var chunks: map<Id, map<nat, ChunkRow>>
    var journal: map<Id, Outbound>
    /** Every message ever handed to `save_message`, in order. */
    ghost var saves: seq<Message>
    /** Every such call ever made, in order. */
    ghost var calls: seq<Call>

    function AllTables(): Tables
      reads this
    {
      Tables(messages, chunks)
    }

    function State(): StoreState
      reads this
    {
      StoreState(lastPulled, nextSend, Tables(messages, chunks), journal)
    }

    ghost predicate Valid()
      reads this
    {
      Inv(State())
    }

    /** A missing `dialogue_state` row reads as pulled up to 0, next seq 1. */
    constructor ()
      ensures Valid() && saves == [] && calls == []
      ensures State() == StoreState(0, 1, Tables(map[], map[]), map[])
    {
      lastPulled, nextSend := 0, 1;
      messages, chunks, journal := map[], map[], map[];
      saves, calls := [], [];
    }

    method NextSendSeq() returns (s: nat)
      modifies this`nextSend
      ensures s == old(nextSend) && nextSend == s + 1
    {
      nextSend := nextSend + 1;
      s := nextSend - 1;
    }

    method ReserveSendSeqRange(count: nat) returns (r: Result<nat>)
      modifies this`nextSend
      ensures r.Ok? <==> count > 0 && old(nextSend) + count <= U64_MAX
      ensures r.Ok? ==> r.value == old(nextSend) && nextSend == old(nextSend) + count
      ensures r.Err? ==> nextSend == old(nextSend)
      ensures r.Err? ==> r.error in {EmptyRange, RangeOverflow}
    {
      if count == 0 {
        return Err(EmptyRange);
      }
      var start := nextSend;
      if start + count > U64_MAX {
        return Err(RangeOverflow);
      }
      nextSend := start + count;
      return Ok(start);
    }

    method SetLastPulledSeq(s: nat)
      modifies this`lastPulled, this`nextSend
      ensures State() == SetPulled(old(State()), s)
    {
      lastPulled := Max(lastPulled, s);
      nextSend := Max(nextSend, s + 1);
    }

    method SaveMessage(m: Message)
      modifies this`messages, this`saves, this`calls
      ensures AllTables() == Save(old(AllTables()), m)
      ensures saves == old(saves) + [m] && calls == old(calls) + [SaveCall(m)]
    {
      messages := messages[m.id := m];
      saves, calls := saves + [m], calls + [SaveCall(m)];
    }

    method UpdateStatus(id: Id, status: Status)
      modifies this`messages, this`calls
      ensures AllTables() == SetStatus(old(AllTables()), id, status)
      ensures calls == old(calls) + [StatusCall(id, status)]
    {
      calls := calls + [StatusCall(id, status)];
      if id in messages {
        messages := messages[id := messages[id].(status := status)];
      }
    }

    method MarkReadUntil(upTo: nat)
      modifies this`messages
      ensures AllTables() == ReadUntil(old(AllTables()), upTo)
    {
      messages := ReadUntil(AllTables(), upTo).messages;
    }

    method GetMessageBySeq(s: nat) returns (r: Option<Id>)
      ensures r.Some? ==> r.value in messages && messages[r.value].serverSeq == Some(s)
      ensures r.None? ==> !HasSeq(messages, s)
    {
      if id :| id in messages && messages[id].serverSeq == Some(s) {
        return Some(id);
      }
      return None;
    }

    /** Server seqs of the messages the server has confirmed. */
    method GetDeliveredServerSeqs() returns (seqs: set<nat>)
      ensures forall s :: s in seqs <==>
                exists id :: id in messages && messages[id].status in {Delivered, Read}
                             && messages[id].serverSeq == Some(s)
    {
      seqs := set id | id in messages && Confirmed(messages[id]) && messages[id].serverSeq.Some?
                     :: messages[id].serverSeq.value;
    }

    method DeleteMessagesBySeqs(seqs: set<nat>)
      modifies this`messages
      ensures AllTables() == DeleteSeqs(old(AllTables()), seqs)
    {
      messages := DeleteSeqs(AllTables(), seqs).messages;
    }

    method SaveChunk(transfer: Id, index: nat, row: ChunkRow)
      modifies this`chunks
      ensures AllTables() == AddChunk(old(AllTables()), transfer, index, row)
    {
      chunks := AddChunk(AllTables(), transfer, index, row).chunks;
    }

    method TryAssembleChunks(transfer: Id) returns (r: Option<Assembled>)
      modifies this`chunks
      ensures r == Assemble(RowsOf(old(AllTables()), transfer))
      ensures AllTables() == if r.Some? then DropChunks(old(AllTables()), transfer) else old(AllTables())
    {
      r := Assemble(RowsOf(AllTables(), transfer));
      if r.Some? {
        chunks := chunks - {transfer};
      }
    }

    method InsertOutbound(t: Outbound)
      modifies this`journal, this`calls
      ensures State() == old(State()).(journal := old(journal)[t.transferId := t])
      ensures calls == old(calls) + [InsertCall(t)]
    {
      calls := calls + [InsertCall(t)];
      journal := journal[t.transferId := t];
    }

    method DeleteOutbound(transfer: Id)
      modifies this`journal, this`calls
      ensures State() == old(State()).(journal := old(journal) - {transfer})
      ensures calls == old(calls) + [DeleteCall(transfer)]
    {
      calls := calls + [DeleteCall(transfer)];
      journal := journal - {transfer};
    }

    method BumpOutboundAttempts(transfer: Id) returns (attempts: nat)
      modifies this`journal, this`calls
      ensures State() == old(State()).(journal := Bumped(old(journal), transfer))
      ensures calls == old(calls) + [BumpCall(transfer)]
      ensures attempts == if transfer in journal then journal[transfer].attempts else 0
    {
      calls := calls + [BumpCall(transfer)];
      journal := Bumped(journal, transfer);
      attempts := if transfer in journal then journal[transfer].attempts else 0;
    }
  }
}
