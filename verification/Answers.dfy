/**
 * What the world outside the executor answers, and what it has to do with the course of a run:
 * packages/workflow-engine/src/executor.ts asks handlers, conditions and the approval gate, and every
 * move that ends a step, a wait or a compensation is what their answers make it.
 */
module Answers {
  import opened Wrappers
  import opened WorkflowTypes
  import opened RunMachine
  import opened RunInvariants
  import opened RunTheorems
  import opened DriverProofs

  datatype ApprovalStatus = ApprovalPending | Granted | Denied | Expired
  datatype HandlerAnswer = Returned(token: int) | Threw(message: string)
  datatype ConditionAnswer = Decided(passed: bool) | ConditionThrew(message: string)
  datatype GateAnswer = Requested(approvalId: string, status: ApprovalStatus) | GateThrew(message: string)

  /**
   * Everything one run may come to hear. A step asks its condition and the gate once, a handler once an
   * attempt; a waiting approval is looked up again and again, so its verdict depends on the lookup.
   */
  datatype World = World(
    registered: set<string>,
    gateConfigured: bool,
    handler: HandlerCall -> HandlerAnswer,
    condition: (StepId, map<StepId, Value>) -> ConditionAnswer,
    gate: StepId -> GateAnswer,
    verdict: (string, nat) -> ApprovalStatus,
    compensator: HandlerCall -> HandlerAnswer)

  const UNREGISTERED := "handler is not registered"
  const NO_GATE := "needs an approval gate but none is configured"
  const DENIED := "approval denied"
  const EXPIRED := "approval expired"

  predicate IsRegistered(step: StepDef, registered: set<string>) {
    step.handler.Some? && step.handler.value in registered
  }

  // --- the handler calls of one step -------------------------------------------------------

  function CallsOf(calls: seq<HandlerCall>, id: StepId): seq<HandlerCall> {
    if calls == [] then []
    else CallsOf(calls[..|calls| - 1], id) + if calls[|calls| - 1].step == id then [calls[|calls| - 1]] else []
  }

  lemma CallsOfOneMore(calls: seq<HandlerCall>, call: HandlerCall, id: StepId)
    ensures CallsOf(calls + [call], id) == CallsOf(calls, id) + if call.step == id then [call] else []
  {
    assert (calls + [call])[..|calls|] == calls;
  }

  lemma {:induction false} CallsOfAreCounted(calls: seq<HandlerCall>, id: StepId)
    ensures |CallsOf(calls, id)| == CountCalls(calls, id)
  {
    if calls != [] {
      CallsOfAreCounted(calls[..|calls| - 1], id);
    }
  }

  // --- what an answer leads to -------------------------------------------------------------

  /** The move of a step whose handler has just answered its latest call. */
  function AfterAnswer(id: StepId, answer: HandlerAnswer, attempts: nat, limit: nat): Move {
    match answer
    case Returned(token) => Finish(id, Data(token))
    case Threw(message) => if attempts < limit then CallHandler(id) else Break(id, message)
  }

  /** The failure a verdict on an approval amounts to. */
  predicate Rejects(status: ApprovalStatus, error: string) {
    (status.Denied? && error == DENIED) || (status.Expired? && error == EXPIRED)
  }

  ghost predicate ActionAnswered(w: World, p: Plan, s: Sys, m: Move)
    requires m.CallHandler? || m.Finish? || m.Break? || m.Refuse? || m.Park?
    requires m.id in p.steps && m.id in s.run.steps
  {
    var mine := CallsOf(s.calls, m.id);
    if mine == [] then
      if IsRegistered(p.steps[m.id], w.registered) then m == CallHandler(m.id) else m == Break(m.id, UNREGISTERED)
    else
      m == AfterAnswer(m.id, w.handler(mine[|mine| - 1]), |mine|, AttemptLimit(p, m.id))
  }

  ghost predicate ConditionAnswered(w: World, s: Sys, m: Move)
    requires m.Finish? || m.Break? || m.Refuse? || m.Park?
  {
    m == match w.condition(m.id, s.run.outputs)
    case Decided(passed) => Finish(m.id, Verdict(passed))
    case ConditionThrew(message) => Break(m.id, message)
  }

  ghost predicate GateAnswered(w: World, m: Move)
    requires m.Finish? || m.Break? || m.Refuse? || m.Park?
  {
    if !w.gateConfigured then m == Break(m.id, NO_GATE)
    else
      match w.gate(m.id)
      case GateThrew(message) => m == Break(m.id, message)
      case Requested(approvalId, status) =>
        match status
        case Granted => m == Finish(m.id, ApprovedBy(approvalId))
        case ApprovalPending => m.Park? && m.approvalId == Some(approvalId)
        case _ => m.Refuse? && m.approval == approvalId && Rejects(status, m.error)
  }

  /** A waiting approval ends as the gate says when it is looked up again. */
  ghost predicate LookupAnswered(w: World, st: StepState, m: Move)
    requires m.Settle? || m.Lapse?
  {
    && w.gateConfigured && st.approvalId.Some?
    && exists n: nat ::
         var status := w.verdict(st.approvalId.value, n);
         if m.Settle? then status.Granted? else Rejects(status, m.error)
  }

  /** The move is what the world's answers make it; the others follow from the state alone. */
  ghost predicate Answered(w: World, p: Plan, s: Sys, m: Move) {
    match m
    case CallHandler(id) => id in p.steps && id in s.run.steps && ActionAnswered(w, p, s, m)
    case Finish(id, _) => id in p.steps && id in s.run.steps && StepAnswered(w, p, s, m)
    case Break(id, _) => id in p.steps && id in s.run.steps && StepAnswered(w, p, s, m)
    case Refuse(id, _, _) => id in p.steps && id in s.run.steps && StepAnswered(w, p, s, m)
    case Park(id, _, _) => id in p.steps && id in s.run.steps && StepAnswered(w, p, s, m)
    case Settle(id, _) =>
      id in p.steps && id in s.run.steps && (p.steps[id].kind.Approval? ==> LookupAnswered(w, s.run.steps[id], m))
    case Lapse(id, _) =>
      id in p.steps && id in s.run.steps && (p.steps[id].kind.Approval? ==> LookupAnswered(w, s.run.steps[id], m))
    case Undo(id, worked) => worked == CompensatorWorks(w, s.run.outputs, id)
    case _ => true
  }

  ghost predicate StepAnswered(w: World, p: Plan, s: Sys, m: Move)
    requires m.Finish? || m.Break? || m.Refuse? || m.Park?
    requires m.id in p.steps && m.id in s.run.steps
  {
    match p.steps[m.id].kind
    case Action => ActionAnswered(w, p, s, m)
    case Conditional => ConditionAnswered(w, s, m)
    case Approval => GateAnswered(w, m)
    case _ => !m.Break? && !m.Refuse?
  }

  predicate CompensatorWorks(w: World, outputs: map<StepId, Value>, id: StepId) {
    w.compensator(HandlerCall(id, 1, outputs)).Returned?
  }

  /** Among the steps undone, exactly those whose compensator returned are compensated. */
  ghost predicate CompensatedAsAnswered(w: World, outputs: map<StepId, Value>, steps: States, undone: seq<StepId>) {
    forall id :: id in undone && id in steps ==> (steps[id].status.Compensated? <==> CompensatorWorks(w, outputs, id))
  }

  lemma UndoneAsAnswered(w: World, outputs: map<StepId, Value>, steps: States, undone: seq<StepId>, id: StepId,
                         after: States, worked: bool)
    requires CompensatedAsAnswered(w, outputs, steps, undone) && worked == CompensatorWorks(w, outputs, id)
    requires id in steps && id !in undone && steps[id].status.Completed?
    requires after == if worked then steps[id := steps[id].(status := Compensated)] else steps
    ensures CompensatedAsAnswered(w, outputs, after, undone + [id])
  {
  }

  ghost predicate AnsweredAt(w: World, p: Plan, trace: seq<Sys>, moves: seq<Move>, i: nat)
    requires i < |moves| && |trace| == |moves| + 1
  {
    Answered(w, p, trace[i], moves[i])
  }

  ghost predicate AnsweredTrace(w: World, p: Plan, trace: seq<Sys>, moves: seq<Move>) {
    |trace| == |moves| + 1 && forall i :: 0 <= i < |moves| ==> AnsweredAt(w, p, trace, moves, i)
  }

  lemma AnsweredExtends(w: World, p: Plan, trace: seq<Sys>, moves: seq<Move>, m: Move, s: Sys)
    requires AnsweredTrace(w, p, trace, moves) && Answered(w, p, trace[|moves|], m)
    ensures AnsweredTrace(w, p, trace + [s], moves + [m])
  {
    var longer := trace + [s];
    forall i | 0 <= i < |moves + [m]| ensures AnsweredAt(w, p, longer, moves + [m], i) {
      if i < |moves| {
        assert AnsweredAt(w, p, trace, moves, i);
      }
    }
  }

  // --- what the answers explain ------------------------------------------------------------

  /** Every attempt but the last threw; an action that completed returned, one that failed had no attempt left. */
  ghost predicate ActionExplained(w: World, step: StepDef, limit: nat, st: StepState, mine: seq<HandlerCall>) {
    && (mine != [] ==> IsRegistered(step, w.registered))
    && (forall i :: 0 <= i < |mine| - 1 ==> w.handler(mine[i]).Threw?)
    && (st.Done() ==> mine != [] && st.output.Some? && EndsReturning(w, mine, st.output.value))
    && (st.status.Failed? ==>
          if mine == [] then !IsRegistered(step, w.registered) && st.error == Some(UNREGISTERED)
          else |mine| >= limit && st.error.Some? && w.handler(mine[|mine| - 1]) == Threw(st.error.value))
  }

  ghost predicate EndsReturning(w: World, mine: seq<HandlerCall>, output: Value) {
    mine != [] && w.handler(mine[|mine| - 1]).Returned? && output == Data(w.handler(mine[|mine| - 1]).token)
  }

  /** A condition that completed a step decided so; one that broke it threw. */
  ghost predicate ConditionExplained(w: World, id: StepId, st: StepState) {
    && (st.Done() ==> st.output.Some? && exists seen :: DecidedSo(w.condition(id, seen), st.output.value))
    && (st.status.Failed? ==> st.error.Some? && exists seen :: w.condition(id, seen) == ConditionThrew(st.error.value))
  }

  predicate DecidedSo(answer: ConditionAnswer, output: Value) {
    answer.Decided? && output == Verdict(answer.passed)
  }

  /** An approval completes, waits or fails as the gate answered the request or, later, a lookup. */
  ghost predicate ApprovalExplained(w: World, id: StepId, st: StepState) {
    && (st.Done() ==> w.gateConfigured && st.output.Some? && GrantedBy(w, id, st.output.value, st.approvalId))
    && (st.status.Waiting? ==> w.gateConfigured && AwaitsGate(w, id, st.approvalId))
    && (st.status.Failed? ==> st.error.Some? && FailedBy(w, id, st.error.value, st.approvalId))
  }

  predicate AwaitsGate(w: World, id: StepId, approvalId: Option<string>) {
    approvalId.Some? && w.gate(id) == Requested(approvalId.value, ApprovalPending)
  }

  ghost predicate GrantedBy(w: World, id: StepId, output: Value, remembered: Option<string>) {
    output.ApprovedBy? && remembered == Some(output.approvalId) && var approvalId := output.approvalId;
    || w.gate(id) == Requested(approvalId, Granted)
    || (w.gate(id) == Requested(approvalId, ApprovalPending) && exists n: nat :: w.verdict(approvalId, n).Granted?)
  }

  ghost predicate FailedBy(w: World, id: StepId, error: string, remembered: Option<string>) {
    if !w.gateConfigured then error == NO_GATE
    else
      match w.gate(id)
      case GateThrew(message) => error == message
      case Requested(approvalId, status) =>
        && remembered == Some(approvalId)
        && (Rejects(status, error)
            || (status.ApprovalPending? && exists n: nat :: Rejects(w.verdict(approvalId, n), error)))
  }

  ghost predicate StepExplained(w: World, p: Plan, id: StepId, st: StepState, mine: seq<HandlerCall>)
    requires id in p.steps
  {
    match p.steps[id].kind
    case Action => ActionExplained(w, p.steps[id], AttemptLimit(p, id), st, mine)
    case Conditional => ConditionExplained(w, id, st)
    case Approval => ApprovalExplained(w, id, st)
    case _ => true
  }

  ghost predicate Explained(w: World, p: Plan, s: Sys) {
    && (forall id :: id in p.steps && id in s.run.steps ==>
          StepExplained(w, p, id, s.run.steps[id], CallsOf(s.calls, id)))
    && (forall id :: InStage(s, id, Attempted) ==> CallsOf(s.calls, id) != [])
    && Recorded(s)
  }

  /** The outputs of the run are those of its completed steps, and no step keeps a deadline past its end. */
  ghost predicate Recorded(s: Sys) {
    && (forall id :: id in s.run.outputs ==> id in s.run.steps && s.run.steps[id].Done())
    && (forall id :: id in s.run.steps ==> RecordedAt(s, id))
  }

  ghost predicate RecordedAt(s: Sys, id: StepId)
    requires id in s.run.steps
  {
    var st := s.run.steps[id];
    && (st.Done() ==> id in s.run.outputs && st.output == Some(s.run.outputs[id]))
    && (st.Done() || st.status.Failed? ==> st.resumeAt.None?)
  }

  /** A step that has neither moved nor been called is explained as before, and so is one just skipped. */
  lemma UntouchedStaysExplained(w: World, p: Plan, id: StepId, st: StepState, now: StepState, mine: seq<HandlerCall>)
    requires id in p.steps && StepExplained(w, p, id, st, mine)
    requires now == st || (st.status.Pending? && now == st.(status := Skipped))
    ensures StepExplained(w, p, id, now, mine)
  {
  }

  lemma OthersUntouched(p: Plan, s: Sys, m: Move, id: StepId)
    requires Enabled(p, s, m) && id in s.run.steps
    requires IsStepMove(m) || m.Undo? ==> id != m.id
    ensures var t := After(p, s, m);
      && t.run.steps.Keys == s.run.steps.Keys && CallsOf(t.calls, id) == CallsOf(s.calls, id)
      && (t.run.steps[id] == s.run.steps[id]
          || (s.run.steps[id].status.Pending? && t.run.steps[id] == s.run.steps[id].(status := Skipped)))
  {
    if IsStepMove(m) {
      StepMoveTouches(p, s, m);
    }
    if m.CallHandler? {
      CallsOfOneMore(s.calls, HandlerCall(m.id, s.run.steps[m.id].attempts + 1, s.run.outputs), id);
    }
  }

  /** The step a move is about is explained by the answer that led to the move. */
  ghost predicate OwnExplained(w: World, p: Plan, s: Sys, id: StepId) {
    id in p.steps && id in s.run.steps && StepExplained(w, p, id, s.run.steps[id], CallsOf(s.calls, id))
  }

  /** A move of this step is enabled and answered, in a state that explains and fits the step. */
  ghost predicate MovesOn(w: World, p: Plan, s: Sys, m: Move)
    requires IsStepMove(m) || m.Undo?
  {
    && Enabled(p, s, m) && Answered(w, p, s, m) && OwnExplained(w, p, s, m.id) && StageFits(p, s, m.id)
    && !s.run.steps[m.id].status.Compensated?
  }

  lemma CalledOnceMore(w: World, step: StepDef, limit: nat, st: StepState, now: StepState, mine: seq<HandlerCall>,
                       call: HandlerCall)
    requires ActionExplained(w, step, limit, st, mine) && IsRegistered(step, w.registered)
    requires mine != [] ==> w.handler(mine[|mine| - 1]).Threw?
    requires !now.Done() && !now.status.Failed?
    ensures ActionExplained(w, step, limit, now, mine + [call])
  {
    forall i | 0 <= i < |mine + [call]| - 1 ensures w.handler((mine + [call])[i]).Threw? {
      assert (mine + [call])[i] == mine[i];
    }
  }

  lemma CalledIsExplained(w: World, p: Plan, s: Sys, m: Move)
    requires m.CallHandler? && MovesOn(w, p, s, m)
    ensures OwnExplained(w, p, After(p, s, m), m.id)
  {
    var st, mine := s.run.steps[m.id], CallsOf(s.calls, m.id);
    var call := HandlerCall(m.id, st.attempts + 1, s.run.outputs);
    CallsOfOneMore(s.calls, call, m.id);
    CalledOnceMore(w, p.steps[m.id], AttemptLimit(p, m.id), st, st.(attempts := st.attempts + 1), mine, call);
  }

  lemma FinishedIsExplained(w: World, p: Plan, s: Sys, m: Move)
    requires m.Finish? && MovesOn(w, p, s, m)
    ensures OwnExplained(w, p, After(p, s, m), m.id)
  {
    FinishLeaves(p, s, m);
    if p.steps[m.id].kind.Conditional? {
      assert DecidedSo(w.condition(m.id, s.run.outputs), m.output);
    }
  }

  lemma FinishLeaves(p: Plan, s: Sys, m: Move)
    requires Enabled(p, s, m) && m.Finish?
    ensures var t := After(p, s, m);
      && t.calls == s.calls && m.id in t.run.steps && m.id in s.run.steps
      && t.run.steps[m.id] == Complete(s.run.steps[m.id], m.output, |s.order| + 1)
  {
    SkipFromOnlySkips(p, Completing(s, m.id, m.output).run.steps, m.id);
  }

  lemma BrokenIsExplained(w: World, p: Plan, s: Sys, m: Move)
    requires m.Break? && MovesOn(w, p, s, m)
    ensures OwnExplained(w, p, After(p, s, m), m.id)
  {
    if p.steps[m.id].kind.Conditional? {
      assert w.condition(m.id, s.run.outputs) == ConditionThrew(m.error);
    }
  }

  lemma RefusedIsExplained(w: World, p: Plan, s: Sys, m: Move)
    requires m.Refuse? && MovesOn(w, p, s, m)
    ensures OwnExplained(w, p, After(p, s, m), m.id)
  {
  }

  lemma ParkedIsExplained(w: World, p: Plan, s: Sys, m: Move)
    requires m.Park? && MovesOn(w, p, s, m)
    ensures OwnExplained(w, p, After(p, s, m), m.id)
  {
  }

  lemma EndedWaitIsExplained(w: World, p: Plan, s: Sys, m: Move)
    requires (m.Settle? || m.Lapse?) && MovesOn(w, p, s, m)
    ensures OwnExplained(w, p, After(p, s, m), m.id)
  {
  }

  lemma SkippedAfterIsExplained(w: World, p: Plan, s: Sys, m: Move)
    requires m.SkipAfter? && MovesOn(w, p, s, m)
    ensures OwnExplained(w, p, After(p, s, m), m.id)
  {
    SkipFromOnlySkips(p, s.run.steps, m.id);
    UntouchedStaysExplained(w, p, m.id, s.run.steps[m.id], After(p, s, m).run.steps[m.id], CallsOf(s.calls, m.id));
  }

  lemma BegunOrUndoneIsExplained(w: World, p: Plan, s: Sys, m: Move)
    requires (m.Begin? || m.Undo?) && MovesOn(w, p, s, m)
    ensures OwnExplained(w, p, After(p, s, m), m.id)
  {
  }

  lemma OwnStepIsExplained(w: World, p: Plan, s: Sys, m: Move)
    requires (IsStepMove(m) || m.Undo?) && MovesOn(w, p, s, m)
    ensures OwnExplained(w, p, After(p, s, m), m.id)
  {
    match m
    case Begin(_) => BegunOrUndoneIsExplained(w, p, s, m);
    case CallHandler(_) => CalledIsExplained(w, p, s, m);
    case Finish(_, _) => FinishedIsExplained(w, p, s, m);
    case Break(_, _) => BrokenIsExplained(w, p, s, m);
    case Refuse(_, _, _) => RefusedIsExplained(w, p, s, m);
    case Park(_, _, _) => ParkedIsExplained(w, p, s, m);
    case SkipAfter(_) => SkippedAfterIsExplained(w, p, s, m);
    case Settle(_, _) => EndedWaitIsExplained(w, p, s, m);
    case Lapse(_, _) => EndedWaitIsExplained(w, p, s, m);
    case Undo(_, _) => BegunOrUndoneIsExplained(w, p, s, m);
  }

  lemma MoverFits(w: World, p: Plan, s: Sys, m: Move)
    requires Inv(p, s) && Enabled(p, s, m) && Answered(w, p, s, m) && Explained(w, p, s)
    requires IsStepMove(m) || m.Undo?
    ensures MovesOn(w, p, s, m)
  {
  }

  /** Only a call to its handler puts a step in the stage of waiting for the answer. */
  lemma AttemptedWasCalled(p: Plan, s: Sys, m: Move, id: StepId)
    requires Enabled(p, s, m) && InStage(After(p, s, m), id, Attempted)
    requires InStage(s, id, Attempted) ==> CallsOf(s.calls, id) != []
    ensures CallsOf(After(p, s, m).calls, id) != []
  {
    if m.CallHandler? {
      CallsOfOneMore(s.calls, HandlerCall(m.id, s.run.steps[m.id].attempts + 1, s.run.outputs), id);
    }
  }

  lemma MoveKeepsRecord(p: Plan, s: Sys, m: Move)
    requires Enabled(p, s, m) && Recorded(s)
    requires IsStepMove(m) || m.Undo? ==> m.id in p.steps && m.id in s.run.steps && StageFits(p, s, m.id)
    ensures Recorded(After(p, s, m))
  {
    var t := After(p, s, m);
    if IsStepMove(m) || m.Undo? {
      OwnRecorded(p, s, m);
    }
    forall id | id in t.run.steps ensures RecordedAt(t, id) {
      if (IsStepMove(m) || m.Undo?) && id == m.id {
      } else {
        SameKeys(p, s, m);
        OthersUntouched(p, s, m, id);
        assert RecordedAt(s, id);
      }
    }
    forall id | id in t.run.outputs ensures id in t.run.steps && t.run.steps[id].Done() {
      if !((IsStepMove(m) || m.Undo?) && id == m.id) {
        OthersUntouched(p, s, m, id);
      }
    }
  }

  lemma SameKeys(p: Plan, s: Sys, m: Move)
    requires Enabled(p, s, m)
    ensures After(p, s, m).run.steps.Keys == s.run.steps.Keys
  {
    if IsStepMove(m) {
      StepMoveTouches(p, s, m);
    }
  }

  lemma OwnRecorded(p: Plan, s: Sys, m: Move)
    requires Enabled(p, s, m) && Recorded(s) && (IsStepMove(m) || m.Undo?)
    requires m.id in p.steps && m.id in s.run.steps && StageFits(p, s, m.id)
    ensures var t := After(p, s, m);
      && m.id in t.run.steps && RecordedAt(t, m.id) && (m.id in t.run.outputs ==> t.run.steps[m.id].Done())
      && (forall id :: id != m.id ==> (id in t.run.outputs <==> id in s.run.outputs))
      && (forall id :: id != m.id && id in s.run.outputs ==> t.run.outputs[id] == s.run.outputs[id])
  {
    assert RecordedAt(s, m.id);
    if m.Finish? {
      FinishLeaves(p, s, m);
    } else if m.SkipAfter? {
      SkipFromOnlySkips(p, s.run.steps, m.id);
    }
  }

  lemma MoveKeepsExplained(w: World, p: Plan, s: Sys, m: Move)
    requires Inv(p, s) && Enabled(p, s, m) && Answered(w, p, s, m) && Explained(w, p, s)
    ensures Explained(w, p, After(p, s, m))
  {
    var t := After(p, s, m);
    if IsStepMove(m) || m.Undo? {
      MoverFits(w, p, s, m);
      OwnStepIsExplained(w, p, s, m);
    }
    forall id | id in p.steps && id in t.run.steps
      ensures StepExplained(w, p, id, t.run.steps[id], CallsOf(t.calls, id))
    {
      if (IsStepMove(m) || m.Undo?) && id == m.id {
        assert OwnExplained(w, p, t, id);
      } else {
        assert s.run.steps.Keys == p.steps.Keys;
        OthersUntouched(p, s, m, id);
        UntouchedStaysExplained(w, p, id, s.run.steps[id], t.run.steps[id], CallsOf(s.calls, id));
      }
    }
    MoveKeepsRecord(p, s, m);
    forall id | InStage(t, id, Attempted) ensures CallsOf(t.calls, id) != [] {
      AttemptedWasCalled(p, s, m, id);
    }
  }

  /** Over any run each ending is explained by what the world answered. */
  lemma {:induction false} AnswersExplainTrace(w: World, p: Plan, trace: seq<Sys>, moves: seq<Move>)
    requires Sound(p) && IsTrace(p, trace, moves) && AnsweredTrace(w, p, trace, moves)
    ensures Explained(w, p, trace[|moves|])
  {
    if moves != [] {
      var n := |moves| - 1;
      var shorter, init := trace[..n + 1], moves[..n];
      forall i | 0 <= i < n ensures Follows(p, shorter, init, i) && AnsweredAt(w, p, shorter, init, i) {
        assert Follows(p, trace, moves, i) && AnsweredAt(w, p, trace, moves, i);
      }
      AnswersExplainTrace(w, p, shorter, init);
      TraceIsReachable(p, shorter, init);
      assert Follows(p, trace, moves, n) && AnsweredAt(w, p, trace, moves, n);
      MoveKeepsExplained(w, p, trace[n], moves[n]);
    }
  }

  /**
   * Every attempt before the last one threw; an action completed with what the last one returned, and
   * failed unregistered or, with the last error, once it had thrown in all its attempts.
   */
  ghost predicate DecidedByHandler(w: World, step: StepDef, limit: nat, st: StepState, mine: seq<HandlerCall>) {
    && |mine| == st.attempts <= limit
    && (forall i :: 0 <= i < |mine| - 1 ==> w.handler(mine[i]).Threw?)
    && (st.Done() ==> mine != [] && st.output.Some? && EndsReturning(w, mine, st.output.value))
    && (st.status.Failed? && mine == [] ==> !IsRegistered(step, w.registered))
    && (st.status.Failed? && mine != [] ==>
          |mine| == limit && st.error.Some? && w.handler(mine[limit - 1]) == Threw(st.error.value))
  }

  /** Over any run the handler alone decides what becomes of an action. */
  lemma HandlersDecide(w: World, p: Plan, trace: seq<Sys>, moves: seq<Move>, s: Sys, id: StepId)
    requires Sound(p) && IsTrace(p, trace, moves) && AnsweredTrace(w, p, trace, moves) && s == trace[|moves|]
    requires id in p.steps && p.steps[id].kind.Action? && id in s.run.steps
    ensures DecidedByHandler(w, p.steps[id], AttemptLimit(p, id), s.run.steps[id], CallsOf(s.calls, id))
  {
    AnswersExplainTrace(w, p, trace, moves);
    TraceIsReachable(p, trace, moves);
    CallsFit(p, s, id);
    assert StepExplained(w, p, id, s.run.steps[id], CallsOf(s.calls, id));
  }

  lemma CallsFit(p: Plan, s: Sys, id: StepId)
    requires Inv(p, s) && id in p.steps && id in s.run.steps
    ensures |CallsOf(s.calls, id)| == s.run.steps[id].attempts <= AttemptLimit(p, id)
  {
    assert CallsCounted(p, s, id);
    CallsOfAreCounted(s.calls, id);
  }

  /** What is known of an action whose call is in flight. */
  lemma ActionInFlight(w: World, p: Plan, trace: seq<Sys>, moves: seq<Move>, s: Sys, id: StepId)
    requires Sound(p) && IsTrace(p, trace, moves) && AnsweredTrace(w, p, trace, moves) && s == trace[|moves|]
    requires Executing(p, s, id)
    ensures |CallsOf(s.calls, id)| == s.run.steps[id].attempts
    ensures s.inFlight[id].Started? <==> CallsOf(s.calls, id) == []
  {
    AnswersExplainTrace(w, p, trace, moves);
    TraceIsReachable(p, trace, moves);
    assert StageFits(p, s, id);
    CallsFit(p, s, id);
  }
}
