/** A process can be killed between two store calls. What that does to "a message still being sent has a journal row",
    which the operations on transfers keep only when all their store calls are made. */
module StoreCalls {
  import opened FileSend
  import opened LocalStore
  import opened Transfer
  import opened Types

  function AfterCall(st: StoreState, call: Call): StoreState {
    match call
    case SaveCall(m) => st.(tables := Save(st.tables, m))
    case InsertCall(t) => st.(journal := st.journal[t.transferId := t])
    case DeleteCall(id) => st.(journal := st.journal - {id})
    case StatusCall(id, status) => st.(tables := SetStatus(st.tables, id, status))
    case BumpCall(id) => st.(journal := Bumped(st.journal, id))
  }

  function AfterCalls(st: StoreState, calls: seq<Call>): StoreState
    decreases |calls|
  {
    if calls == [] then st else AfterCalls(AfterCall(st, calls[0]), calls[1..])
  }

  /** The store's own methods make these calls. */
  method Perform(store: Store, call: Call)
    modifies store
    ensures store.State() == AfterCall(old(store.State()), call) && store.calls == old(store.calls) + [call]
  {
    match call {
      case SaveCall(m) => store.SaveMessage(m);
      case InsertCall(t) => store.InsertOutbound(t);
      case DeleteCall(id) => store.DeleteOutbound(id);
      case StatusCall(id, status) => store.UpdateStatus(id, status);
      case BumpCall(id) => var attempts := store.BumpOutboundAttempts(id);
    }
  }

  predicate IsSending(st: StoreState, id: Id) {
    id in st.tables.messages && st.tables.messages[id].status.Sending?
  }

  /** The call does not leave a message in Sending without a row: it does not save one that has no row yet, delete the
      row of one, or set one without a row back to Sending. */
  predicate Harmless(st: StoreState, call: Call) {
    match call
    case SaveCall(m) => m.status.Sending? ==> m.id in st.journal
    case DeleteCall(id) => id in st.journal ==> !IsSending(st, id)
    case StatusCall(id, status) => status.Sending? && id in st.tables.messages ==> id in st.journal
    case _ => true
  }

  /** Exactly which single calls keep every message in Sending journalled. */
  lemma CallKeepsJournalledIff(st: StoreState, call: Call)
    requires SendingJournalled(st)
    ensures SendingJournalled(AfterCall(st, call)) <==> Harmless(st, call)
  {
    var st' := AfterCall(st, call);
    match call {
      case SaveCall(m) =>
        assert IsSending(st', m.id) <==> m.status.Sending?;
      case DeleteCall(id) =>
        assert IsSending(st', id) <==> IsSending(st, id);
      case StatusCall(id, status) =>
        assert IsSending(st', id) <==> id in st.tables.messages && status.Sending?;
      case _ =>
    }
  }

  lemma TwoCalls(st: StoreState, a: Call, b: Call)
    ensures AfterCalls(st, [a, b]) == AfterCall(AfterCall(st, a), b)
  {
    var st1 := AfterCall(st, a);
    assert [a, b][1..] == [b] && [b][1..] == [];
    assert AfterCalls(st, [a, b]) == AfterCalls(st1, [b]) == AfterCalls(AfterCall(st1, b), []);
  }

  /** All calls together are what the operations do. */
  lemma CallsTogether(st: StoreState, m: Message, t: Outbound, id: Id)
    ensures AfterCalls(st, BeginCalls(m, t)) ==
            st.(tables := Save(st.tables, m), journal := st.journal[t.transferId := t])
    ensures AfterCalls(st, CompletedCalls(id)) == ApplyRound(st, id, Completed)
    ensures AfterCalls(st, FailedCalls(id)) == ApplyRound(st, id, GaveUp)
    ensures AfterCalls(st, FailedCalls(id)) == ApplyRound(st, id, SourceGone)
  {
    TwoCalls(st, SaveCall(m), InsertCall(t));
    CallsTogetherOf(st, id);
  }

  /** So it is for a whole round, which counts the attempt first unless the source is gone. */
  lemma RoundTogether(st: StoreState, id: Id, round: Round)
    ensures AfterCalls(st, RoundCalls(id, round)) == ApplyRound(st, id, round)
  {
    var st1 := AfterCall(st, BumpCall(id));
    CallsTogetherOf(st, id);
    CallsTogetherOf(st1, id);
    BumpThenRemove(st.journal, id);
    if round.SourceGone? {
      assert [] + EndCalls(id, round) == FailedCalls(id);
    } else {
      var rest := EndCalls(id, round);
      assert ([BumpCall(id)] + rest)[1..] == rest;
      assert AfterCalls(st, [BumpCall(id)] + rest) == AfterCalls(st1, rest);
    }
  }

  lemma CallsTogetherOf(st: StoreState, id: Id)
    ensures AfterCalls(st, CompletedCalls(id)) == ApplyRound(st, id, Completed)
    ensures AfterCalls(st, FailedCalls(id)) == ApplyRound(st, id, GaveUp) == ApplyRound(st, id, SourceGone)
  {
    TwoCalls(st, DeleteCall(id), StatusCall(id, Sent));
    TwoCalls(st, StatusCall(id, Failed), DeleteCall(id));
  }

  /** Killed between the two calls of a beginning: the invariant is broken exactly if the message has no row, as is
      always so for a fresh id. */
  lemma KilledInBegin(st: StoreState, m: Message, t: Outbound)
    requires SendingJournalled(st) && m.status.Sending? && m.id == t.transferId
    ensures SendingJournalled(AfterCall(st, BeginCalls(m, t)[0])) <==> m.id in st.journal
    ensures SendingJournalled(AfterCalls(st, BeginCalls(m, t)))
  {
    CallKeepsJournalledIff(st, SaveCall(m));
    TwoCalls(st, SaveCall(m), InsertCall(t));
  }

  /** Killed between the two calls of a successful end: broken exactly if the message was still in Sending. */
  lemma KilledInCompleted(st: StoreState, id: Id)
    requires SendingJournalled(st) && id in st.journal
    ensures SendingJournalled(AfterCall(st, CompletedCalls(id)[0])) <==> !IsSending(st, id)
    ensures SendingJournalled(AfterCalls(st, CompletedCalls(id)))
  {
    CallKeepsJournalledIff(st, DeleteCall(id));
    CallKeepsJournalledIff(st, StatusCall(id, Sent));
    TwoCalls(st, DeleteCall(id), StatusCall(id, Sent));
  }

  /** Killed between the two calls of a failed end: never broken, since the status is set first. */
  lemma KilledInFailed(st: StoreState, id: Id)
    requires SendingJournalled(st)
    ensures SendingJournalled(AfterCall(st, FailedCalls(id)[0]))
    ensures SendingJournalled(AfterCalls(st, FailedCalls(id)))
  {
    CallKeepsJournalledIff(st, StatusCall(id, Failed));
    TwoCalls(st, StatusCall(id, Failed), DeleteCall(id));
  }

  /** The resumes that follow make rounds for the rows of their journals only. */
  ghost predicate RoundsOfRows(st: StoreState, log: seq<Logged>)
    decreases |log|
  {
    log != [] ==>
      var n := |log| - 1;
      RoundsOfRows(st, log[..n]) && log[n].transferId in ApplyRounds(st, log[..n]).journal
  }

  lemma {:induction false} RowStaysUntilItsRound(st: StoreState, id: Id, log: seq<Logged>)
    requires id in st.journal && forall i :: 0 <= i < |log| ==> log[i].transferId != id
    ensures id in ApplyRounds(st, log).journal
    decreases |log|
  {
    if log != [] {
      RowStaysUntilItsRound(st, id, log[..|log| - 1]);
    }
  }

  lemma {:induction false} ResumeIsOfRows(st: StoreState, log: seq<Logged>)
    requires forall i :: 0 <= i < |log| ==> log[i].transferId in st.journal
    requires forall i, j :: 0 <= i < j < |log| ==> log[i].transferId != log[j].transferId
    ensures RoundsOfRows(st, log)
    decreases |log|
  {
    hide ApplyRounds;
    if log != [] {
      var n := |log| - 1;
      ResumeIsOfRows(st, log[..n]);
      RowStaysUntilItsRound(st, log[n].transferId, log[..n]);
    }
  }

  /** So it is in one call of `resume_pending_transfers`, which makes one round for each row. */
  lemma OneRoundEachIsOfRows(st: StoreState, log: seq<Logged>)
    requires OneRoundEach(st.journal, log)
    ensures RoundsOfRows(st, log)
  {
    forall i | 0 <= i < |log|
      ensures log[i].transferId in st.journal
    {
      assert IdsOf(log)[i] == log[i].transferId;
    }
    ResumeIsOfRows(st, log);
  }

  /** A message in Sending without a row stays so through every resume. */
  lemma {:induction false} NoResumeFindsIt(st: StoreState, id: Id, log: seq<Logged>)
    requires IsSending(st, id) && id !in st.journal && RoundsOfRows(st, log)
    ensures IsSending(ApplyRounds(st, log), id) && id !in ApplyRounds(st, log).journal
    decreases |log|
  {
    if log != [] {
      NoResumeFindsIt(st, id, log[..|log| - 1]);
    }
  }

  /** A process killed after the first call of a beginning with a fresh id leaves the message in Sending for good. */
  lemma {:induction false} StuckAfterBegin(st: StoreState, m: Message, t: Outbound, log: seq<Logged>)
    requires m.status.Sending? && m.id == t.transferId && m.id !in st.journal
    requires RoundsOfRows(AfterCall(st, BeginCalls(m, t)[0]), log)
    ensures IsSending(ApplyRounds(AfterCall(st, BeginCalls(m, t)[0]), log), m.id)
  {
    hide ApplyRounds, RoundsOfRows;
    NoResumeFindsIt(AfterCall(st, SaveCall(m)), m.id, log);
  }

  /** So does one killed after the first call of a successful end. */
  lemma {:induction false} StuckAfterCompleted(st: StoreState, id: Id, log: seq<Logged>)
    requires IsSending(st, id) && RoundsOfRows(AfterCall(st, CompletedCalls(id)[0]), log)
    ensures IsSending(ApplyRounds(AfterCall(st, CompletedCalls(id)[0]), log), id)
  {
    hide ApplyRounds, RoundsOfRows;
    NoResumeFindsIt(AfterCall(st, DeleteCall(id)), id, log);
  }
}
