/** Shutdown against long polls (ParanoiaLibrary/src/ffi.rs): every atomic step of any number of
    `paranoia_begin_shutdown` and `race_shutdown` calls, interleaved in any way. */
module Shutdown {

  /** Where a `race_shutdown` call stands: before the fast path, past it, with its `notified()` future created,
      registered by `enable()`, in the `select!`, and returned with `None` or `Some`. */
  datatype Phase = Start | Passed | Created | Enabled | Waiting | Cancelled | Finished

  /** `seenCalls` is the number of `notify_waiters` calls when the future was created. */
  datatype Racer = Racer(phase: Phase, seenCalls: nat, woken: bool)

  /** A `paranoia_begin_shutdown` call: not yet made, between its two steps, returned. */
  datatype Caller = Idle | FlagStored | Returned

  datatype State = State(flag: bool, calls: nat, callers: seq<Caller>, racers: seq<Racer>)

  /** One atomic step. `ready` says whether the long poll has completed, `first` which branch `select!` looks at
      first. */
  datatype Step = CallerStep(i: nat) | RacerStep(i: nat, ready: bool, first: bool) | NewCaller | NewRacer

  predicate Registered(r: Racer) { r.phase in {Enabled, Waiting} }

  predicate Left(r: Racer) { r.phase in {Cancelled, Finished} }

  /** `notify_waiters`: wake whoever is registered, and let futures created earlier but not registered know. */
  function Woken(racers: seq<Racer>): seq<Racer> {
    seq(|racers|, i requires 0 <= i < |racers| =>
      if Registered(racers[i]) then racers[i].(woken := true) else racers[i])
  }

  function CallerMoves(st: State, i: nat): State
    requires i < |st.callers|
  {
    match st.callers[i]
    case Idle => st.(flag := true, callers := st.callers[i := FlagStored])
    case FlagStored => st.(calls := st.calls + 1, racers := Woken(st.racers), callers := st.callers[i := Returned])
    case Returned => st
  }

  function RacerMoves(st: State, r: Racer, ready: bool, first: bool): Racer {
    match r.phase
    case Start => r.(phase := if st.flag then Cancelled else Passed)
    case Passed => r.(phase := Created, seenCalls := st.calls)
    case Created => r.(phase := if st.calls != r.seenCalls then Cancelled else Enabled)
    case Enabled => r.(phase := if st.flag then Cancelled else Waiting)
    case Waiting =>
      if ready && (first || !r.woken) then r.(phase := Finished)
      else if r.woken then r.(phase := Cancelled)
      else r
    case _ => r
  }

  function Next(st: State, step: Step): State {
    match step
    case CallerStep(i) => if i < |st.callers| then CallerMoves(st, i) else st
    case RacerStep(i, ready, first) =>
      if i < |st.racers| then st.(racers := st.racers[i := RacerMoves(st, st.racers[i], ready, first)]) else st
    case NewCaller => st.(callers := st.callers + [Idle])
    case NewRacer => st.(racers := st.racers + [Racer(Start, 0, false)])
  }

  function Run(st: State, steps: seq<Step>): State
    decreases |steps|
  {
    if steps == [] then st else Run(Next(st, steps[0]), steps[1..])
  }

  const INITIAL: State := State(false, 0, [], [])

  ghost predicate SomeReturned(st: State) { exists i :: 0 <= i < |st.callers| && st.callers[i] == Returned }

  ghost predicate Inv(st: State) {
    && (forall i :: 0 <= i < |st.callers| && st.callers[i] != Idle ==> st.flag)
    && (st.calls > 0 ==> st.flag)
    && (forall i :: 0 <= i < |st.racers| ==> RacerInv(st, st.racers[i]))
  }

  ghost predicate RacerInv(st: State, r: Racer) {
    && (r.phase.Created? ==> r.seenCalls <= st.calls)
    && (r.woken || r.phase.Cancelled? ==> st.flag)
    && (r.phase.Waiting? && !r.woken ==> !SomeReturned(st))
  }

  lemma StepKeepsInv(st: State, step: Step)
    requires Inv(st)
    ensures Inv(Next(st, step))
  {
    var st' := Next(st, step);
    match step {
      case CallerStep(i) =>
        if i < |st.callers| {
          CallerKeepsInv(st, i);
        }
      case RacerStep(i, ready, first) =>
        if i < |st.racers| {
          assert SomeReturned(st) ==> st.flag;
          assert SomeReturned(st') == SomeReturned(st);
          assert RacerInv(st, st.racers[i]);
          forall j | 0 <= j < |st'.racers|
            ensures RacerInv(st', st'.racers[j])
          {
            assert RacerInv(st, st.racers[j]);
          }
        }
      case NewCaller =>
        assert SomeReturned(st') ==> SomeReturned(st);
        forall j | 0 <= j < |st'.racers|
          ensures RacerInv(st', st'.racers[j])
        {
          assert RacerInv(st, st.racers[j]);
        }
      case NewRacer =>
        forall j | 0 <= j < |st'.racers|
          ensures RacerInv(st', st'.racers[j])
        {
          assert j < |st.racers| ==> RacerInv(st, st.racers[j]);
        }
    }
  }

  lemma CallerKeepsInv(st: State, i: nat)
    requires Inv(st) && i < |st.callers|
    ensures Inv(CallerMoves(st, i))
  {
    var st' := CallerMoves(st, i);
    if st.callers[i].Idle? {
      assert SomeReturned(st') ==> SomeReturned(st);
    }
    forall j | 0 <= j < |st'.racers|
      ensures RacerInv(st', st'.racers[j])
    {
      assert RacerInv(st, st.racers[j]);
    }
  }

  lemma {:induction false} RunKeepsInv(st: State, steps: seq<Step>)
    requires Inv(st)
    ensures Inv(Run(st, steps))
    decreases |steps|
  {
    if steps != [] {
      StepKeepsInv(st, steps[0]);
      RunKeepsInv(Next(st, steps[0]), steps[1..]);
    }
  }

  /** No lost wakeup: whatever the interleaving, once some shutdown call has returned every racer still waiting
      holds a delivered notification, and nobody was ever cancelled without a shutdown. */
  lemma NoLostWakeup(steps: seq<Step>)
    ensures var st := Run(INITIAL, steps);
            && (SomeReturned(st) ==>
                  forall i :: 0 <= i < |st.racers| && st.racers[i].phase.Waiting? ==> st.racers[i].woken)
            && (forall i :: 0 <= i < |st.racers| && st.racers[i].phase.Cancelled? ==> st.flag)
  {
    RunKeepsInv(INITIAL, steps);
    var st := Run(INITIAL, steps);
    forall i | 0 <= i < |st.racers|
      ensures RacerInv(st, st.racers[i])
    {
    }
  }

  // ── after shutdown everybody leaves ─────────────────────────────────────

  /** Steps a racer may still need. */
  function Remaining(r: Racer): nat {
    match r.phase
    case Start => 5
    case Passed => 4
    case Created => 3
    case Enabled => 2
    case Waiting => 1
    case _ => 0
  }

  function OwnSteps(steps: seq<Step>, i: nat): nat {
    if steps == [] then 0
    else (if steps[0].RacerStep? && steps[0].i == i then 1 else 0) + OwnSteps(steps[1..], i)
  }

  /** After a shutdown call has returned, a racer's own step always takes it further, and others never set it back. */
  lemma StepLeads(st: State, step: Step, i: nat)
    requires Inv(st) && SomeReturned(st) && i < |st.racers|
    ensures var st' := Next(st, step);
            && SomeReturned(st') && i < |st'.racers|
            && Remaining(st'.racers[i]) <= Remaining(st.racers[i])
            && (step.RacerStep? && step.i == i && !Left(st.racers[i]) ==>
                  Remaining(st'.racers[i]) < Remaining(st.racers[i]))
  {
    assert RacerInv(st, st.racers[i]);
    var k :| 0 <= k < |st.callers| && st.callers[k] == Returned;
    assert Next(st, step).callers[k] == Returned;
  }

  /** Every racer returns after at most five of its own steps, however they interleave with everything else; one
      that starts after shutdown began returns `None` with its first step. */
  lemma {:induction false} EverybodyLeaves(st: State, steps: seq<Step>, i: nat)
    requires Inv(st) && SomeReturned(st) && i < |st.racers|
    requires OwnSteps(steps, i) >= Remaining(st.racers[i])
    ensures i < |Run(st, steps).racers| && Left(Run(st, steps).racers[i])
    decreases |steps|
  {
    if steps != [] {
      StepKeepsInv(st, steps[0]);
      StepLeads(st, steps[0], i);
      EverybodyLeaves(Next(st, steps[0]), steps[1..], i);
    }
  }

  lemma LateRacersReturnAtOnce(steps: seq<Step>, i: nat, ready: bool, first: bool)
    requires var st := Run(INITIAL, steps);
             i < |st.racers| && st.racers[i].phase.Start? && exists k :: 0 <= k < |st.callers| && !st.callers[k].Idle?
    ensures Next(Run(INITIAL, steps), RacerStep(i, ready, first)).racers[i].phase == Cancelled
  {
    RunKeepsInv(INITIAL, steps);
  }

  // ── who returns what ────────────────────────────────────────────────────

  /** With which answer a racer's own step makes it return: `None` if it finds the flag, a call of `notify_waiters`
      since its future was made, or a notification which `select!` looks at first or which comes alone; `Some` if the
      poll has completed and no such notification goes before it. Otherwise it only goes on. */
  lemma ReturnsIff(st: State, i: nat, ready: bool, first: bool)
    requires i < |st.racers| && !Left(st.racers[i])
    ensures var r, r' := st.racers[i], Next(st, RacerStep(i, ready, first)).racers[i];
            && (r'.phase.Finished? <==> r.phase.Waiting? && ready && (!r.woken || first))
            && (r'.phase.Cancelled? <==>
                  || (r.phase in {Start, Enabled} && st.flag)
                  || (r.phase.Created? && st.calls != r.seenCalls)
                  || (r.phase.Waiting? && r.woken && !(ready && first)))
            && (!Left(r') ==> Remaining(r') == if r.phase.Waiting? then Remaining(r) else Remaining(r) - 1)
  {
  }

  /** The second step of a shutdown call wakes everybody who is registered by then, and nobody else. */
  lemma NotifyWakes(st: State, i: nat, j: nat)
    requires i < |st.callers| && st.callers[i].FlagStored? && j < |st.racers|
    ensures var r, r' := st.racers[j], Next(st, CallerStep(i)).racers[j];
            r' == if r.phase.Enabled? || r.phase.Waiting? then r.(woken := true) else r
  {
  }

  /** A racer that has returned keeps its answer. */
  lemma {:induction false} AnswerStays(st: State, steps: seq<Step>, i: nat)
    requires i < |st.racers| && Left(st.racers[i])
    ensures i < |Run(st, steps).racers| && Run(st, steps).racers[i].phase == st.racers[i].phase
    decreases |steps|
  {
    if steps != [] {
      AnswerStays(Next(st, steps[0]), steps[1..], i);
    }
  }

  ghost predicate NoCallerSteps(steps: seq<Step>) {
    forall k :: 0 <= k < |steps| ==> !steps[k].CallerStep?
  }

  /** No shutdown has begun, and nobody has seen one. */
  ghost predicate Undisturbed(st: State) {
    && !st.flag && st.calls == 0
    && forall i :: 0 <= i < |st.racers| ==> UndisturbedRacer(st.racers[i])
  }

  ghost predicate UndisturbedRacer(r: Racer) {
    !r.woken && !r.phase.Cancelled? && (r.phase.Created? ==> r.seenCalls == 0)
  }

  lemma StepUndisturbed(st: State, step: Step)
    requires Undisturbed(st) && !step.CallerStep?
    ensures Undisturbed(Next(st, step))
  {
    var st' := Next(st, step);
    forall j | 0 <= j < |st'.racers|
      ensures UndisturbedRacer(st'.racers[j])
    {
      assert j < |st.racers| ==> UndisturbedRacer(st.racers[j]);
    }
  }

  /** Without a shutdown nobody is cancelled, and a racer's own steps take it to its `select!`. */
  lemma {:induction false} UndisturbedRun(st: State, steps: seq<Step>, i: nat)
    requires Undisturbed(st) && NoCallerSteps(steps) && i < |st.racers|
    ensures Undisturbed(Run(st, steps)) && i < |Run(st, steps).racers|
    ensures var r := Run(st, steps).racers[i];
            r.phase.Finished? || r.phase.Waiting? || Remaining(r) + OwnSteps(steps, i) <= Remaining(st.racers[i])
    decreases |steps|
  {
    if steps != [] {
      var st1, rest := Next(st, steps[0]), steps[1..];
      assert forall k :: 0 <= k < |rest| ==> rest[k] == steps[k + 1];
      StepUndisturbed(st, steps[0]);
      assert UndisturbedRacer(st.racers[i]);
      UndisturbedRun(st1, rest, i);
      if Left(st1.racers[i]) {
        AnswerStays(st1, rest, i);
      } else if st1.racers[i].phase.Waiting? {
        StaysInSelect(st1, rest, i);
      }
    }
  }

  /** From the `select!` there is no way back. */
  lemma {:induction false} StaysInSelect(st: State, steps: seq<Step>, i: nat)
    requires Undisturbed(st) && NoCallerSteps(steps) && i < |st.racers| && st.racers[i].phase.Waiting?
    ensures i < |Run(st, steps).racers|
    ensures Run(st, steps).racers[i].phase.Waiting? || Run(st, steps).racers[i].phase.Finished?
    decreases |steps|
  {
    if steps != [] {
      var st1, rest := Next(st, steps[0]), steps[1..];
      assert forall k :: 0 <= k < |rest| ==> rest[k] == steps[k + 1];
      assert UndisturbedRacer(st.racers[i]);
      StepUndisturbed(st, steps[0]);
      if Left(st1.racers[i]) {
        AnswerStays(st1, rest, i);
      } else {
        StaysInSelect(st1, rest, i);
      }
    }
  }

  /** In a run without shutdown calls, a racer whose fifth own step, or a later one, finds the poll completed has
      returned its result, whatever else goes on before and after. */
  lemma CompletedPollIsReturned(st: State, before: seq<Step>, after: seq<Step>, i: nat, first: bool)
    requires Undisturbed(st) && i < |st.racers| && NoCallerSteps(before) && NoCallerSteps(after)
    requires OwnSteps(before, i) >= 4
    ensures var st1 := Run(Next(Run(st, before), RacerStep(i, true, first)), after);
            i < |st1.racers| && st1.racers[i].phase.Finished?
  {
    UndisturbedRun(st, before, i);
    var st1 := Run(st, before);
    assert UndisturbedRacer(st1.racers[i]);
    AnswerStays(Next(st1, RacerStep(i, true, first)), after, i);
  }

  lemma InitialUndisturbed(steps: seq<Step>)
    requires NoCallerSteps(steps)
    ensures Undisturbed(Run(INITIAL, steps))
    ensures forall i :: 0 <= i < |Run(INITIAL, steps).racers| ==> !Run(INITIAL, steps).racers[i].phase.Cancelled?
  {
    RunUndisturbed(INITIAL, steps);
    assert forall i :: 0 <= i < |Run(INITIAL, steps).racers| ==> UndisturbedRacer(Run(INITIAL, steps).racers[i]);
  }

  lemma {:induction false} RunUndisturbed(st: State, steps: seq<Step>)
    requires Undisturbed(st) && NoCallerSteps(steps)
    ensures Undisturbed(Run(st, steps))
    decreases |steps|
  {
    if steps != [] {
      var rest := steps[1..];
      assert forall k :: 0 <= k < |rest| ==> rest[k] == steps[k + 1];
      StepUndisturbed(st, steps[0]);
      RunUndisturbed(Next(st, steps[0]), rest);
    }
  }
}
