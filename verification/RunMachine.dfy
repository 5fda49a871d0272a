/**
 * A workflow run as a state machine (packages/workflow-engine/src/executor.ts).
 *
 * A move is one stretch of the executor between two awaits. The members of a running batch
 * may take their moves in any order; handlers, conditions, the approval gate and the clock
 * decide only which enabled move comes next.
 */
module RunMachine {
  import opened Wrappers
  import opened WorkflowTypes
  import opened Validator

  datatype Value = Verdict(passed: bool) | ApprovedBy(approvalId: string) | ResumedAt(now: int) | Data(token: int)

  datatype StepStatus = Pending | Running | Waiting | Completed | Failed | Skipped | Compensated

  datatype StepState = StepState(
    status: StepStatus,
    attempts: nat,
    output: Option<Value>,
    error: Option<string>,
    approvalId: Option<string>,
    resumeAt: Option<int>,
    sequence: Option<nat>)
  {
    /** Completed, whether or not it was undone later. */
    predicate Done() { status.Completed? || status.Compensated? }
    predicate Untouched() { status.Pending? || status.Skipped? }
  }

  datatype RunStatus =
    | RunPending | RunRunning | Suspended | RunCompleted | RunFailed | Compensating | RunCompensated | Cancelled

  datatype StepFailure = StepFailure(stepId: StepId, error: string)

  type States = map<StepId, StepState>

  datatype Run = Run(
    status: RunStatus,
    steps: States,
    outputs: map<StepId, Value>,
    error: Option<StepFailure>)

  /** Where a call of `executeStep` (or a tolerated failure being settled) stands between awaits. */
  datatype Stage = Started | Attempted | SkipOwed

  datatype HandlerCall = HandlerCall(step: StepId, attempt: nat, outputs: map<StepId, Value>)

  /** The run, the step calls in flight, and the history the theorems speak about. */
  datatype Sys = Sys(
    run: Run,
    inFlight: map<StepId, Stage>,
    order: seq<StepId>,        // steps in the order they completed
    begun: seq<StepId>,        // steps in the order `executeStep` entered them
    calls: seq<HandlerCall>,   // every handler invocation with the outputs it was shown
    undone: seq<StepId>,       // compensators in the order they were invoked
    refused: set<StepId>)      // tolerated approvals that `request` itself turned down

  /** A definition by step id, as `failRun` indexes it. */
  datatype Plan = Plan(steps: map<StepId, StepDef>, defaultAttempts: Option<int>)

  predicate Needs(p: Plan, id: StepId, dep: StepId) {
    id in p.steps && dep in p.steps[id].dependsOn
  }

  function Edges(p: Plan): map<StepId, seq<StepId>> {
    map id | id in p.steps :: p.steps[id].dependsOn
  }

  /** `new Map(definition.steps.map((step) => [step.id, step]))`. */
  function ById(steps: seq<StepDef>): map<StepId, StepDef> {
    if steps == [] then map[]
    else ById(steps[..|steps| - 1])[steps[|steps| - 1].id := steps[|steps| - 1]]
  }

  function PlanOf(d: Definition): Plan {
    Plan(ById(d.steps), d.maxAttempts)
  }

  ghost predicate Sound(p: Plan) {
    && (forall id :: id in p.steps ==> p.steps[id].id == id)
    && (forall id, dep :: Needs(p, id, dep) ==> dep in p.steps)
    && Acyclic(Edges(p))
  }

  /** `n` is the larger of `wanted` and one. */
  predicate IsAtLeastOne(n: nat, wanted: int) {
    n >= 1 && n >= wanted && (n == 1 || n == wanted)
  }

  /** `Math.max(1, policy?.maxAttempts ?? 1)` with the step's policy before the definition's. */
  function AttemptLimit(p: Plan, id: StepId): (n: nat)
    requires id in p.steps
    ensures n >= 1
    ensures p.steps[id].maxAttempts.Some? ==> IsAtLeastOne(n, p.steps[id].maxAttempts.value)
    ensures p.steps[id].maxAttempts.None? && p.defaultAttempts.Some? ==> IsAtLeastOne(n, p.defaultAttempts.value)
    ensures p.steps[id].maxAttempts.None? && p.defaultAttempts.None? ==> n == 1
  {
    var own := p.steps[id].maxAttempts;
    var policy := if own.Some? then own else p.defaultAttempts;
    if policy.Some? && policy.value > 1 then policy.value else 1
  }

  // --- what the driver looks at ------------------------------------------------------------

  ghost predicate Ready(p: Plan, steps: States, id: StepId) {
    && id in p.steps && id in steps && steps[id].status.Pending?
    && (forall dep :: Needs(p, id, dep) ==> dep in steps && steps[dep].status.Completed?)
  }

  predicate Fatal(p: Plan, steps: States, id: StepId) {
    id in p.steps && id in steps && steps[id].status.Failed? && !p.steps[id].continueOnError
  }

  ghost predicate NoneReady(p: Plan, steps: States) { forall id :: !Ready(p, steps, id) }
  ghost predicate NoneFatal(p: Plan, steps: States) { forall id :: !Fatal(p, steps, id) }
  ghost predicate AnyWaiting(steps: States) { exists id :: id in steps && steps[id].status.Waiting? }

  /** Nothing more will happen to this step unless the run fails. */
  predicate Settled(p: Plan, steps: States, id: StepId)
    requires id in p.steps && id in steps
  {
    steps[id].status.Completed? || steps[id].status.Skipped?
      || (steps[id].status.Failed? && p.steps[id].continueOnError)
  }

  // --- atomic updates ----------------------------------------------------------------------

  function Complete(st: StepState, output: Value, sequence: nat): StepState {
    st.(status := Completed, output := Some(output), sequence := Some(sequence), resumeAt := None,
        approvalId := if output.ApprovedBy? then Some(output.approvalId) else st.approvalId)
  }

  function Fail(st: StepState, error: string): StepState {
    st.(status := Failed, error := Some(error), resumeAt := None)
  }

  /** A chain of dependents leading from one step to another through pending steps only. */
  ghost predicate PendingChain(p: Plan, steps: States, c: seq<StepId>) {
    && |c| >= 2
    && (forall i :: 1 <= i < |c| ==> c[i] in steps && steps[c[i]].status.Pending?)
    && (forall i, j :: 0 <= i < j < |c| && j - i == 1 ==> Needs(p, c[j], c[i]))
  }

  ghost predicate PendingDownstream(p: Plan, steps: States, from: StepId, to: StepId) {
    exists c :: PendingChain(p, steps, c) && c[0] == from && c[|c| - 1] == to
  }

  ghost function SkipFrom(p: Plan, steps: States, from: StepId): States {
    map id | id in steps ::
      if PendingDownstream(p, steps, from, id) then steps[id].(status := Skipped) else steps[id]
  }

  ghost function Completing(s: Sys, id: StepId, output: Value): Sys
    requires id in s.run.steps
  {
    s.(run := s.run.(steps := s.run.steps[id := Complete(s.run.steps[id], output, |s.order| + 1)],
                     outputs := s.run.outputs[id := output]),
       order := s.order + [id],
       inFlight := s.inFlight - {id})
  }

  ghost function Skipping(p: Plan, s: Sys, from: StepId): Sys {
    s.(run := s.run.(steps := SkipFrom(p, s.run.steps, from)), inFlight := s.inFlight - {from})
  }

  /** A failure; a tolerated one still owes its dependents the skip. */
  ghost function Failing(p: Plan, s: Sys, id: StepId, error: string): Sys
    requires id in s.run.steps && id in p.steps
  {
    s.(run := s.run.(steps := s.run.steps[id := Fail(s.run.steps[id], error)]),
       inFlight := if p.steps[id].continueOnError then s.inFlight[id := SkipOwed] else s.inFlight - {id})
  }

  // --- moves -------------------------------------------------------------------------------

  datatype Move =
    | Drive
    | Begin(id: StepId)
    | CallHandler(id: StepId)
    | Finish(id: StepId, output: Value)
    | Break(id: StepId, error: string)
    | Refuse(id: StepId, approval: string, error: string)
    | Park(id: StepId, approvalId: Option<string>, resumeAt: Option<int>)
    | SkipAfter(id: StepId)
    | Settle(id: StepId, output: Value)
    | Lapse(id: StepId, error: string)
    | Suspend
    | Conclude
    | GiveUp(id: StepId)
    | Undo(id: StepId, worked: bool)
    | EndUndo

  ghost predicate InStage(s: Sys, id: StepId, stage: Stage) {
    id in s.inFlight && s.inFlight[id] == stage
  }

  /** A step call that has begun and neither finished nor failed. */
  ghost predicate Executing(p: Plan, s: Sys, id: StepId) {
    id in p.steps && id in s.run.steps && (InStage(s, id, Started) || InStage(s, id, Attempted))
  }

  ghost predicate WaitingStep(p: Plan, s: Sys, id: StepId) {
    id in p.steps && id in s.run.steps && s.run.steps[id].status.Waiting? && s.inFlight == map[]
  }

  ghost predicate Quiet(s: Sys) { s.run.status.RunRunning? && s.inFlight == map[] }

  predicate Undoable(p: Plan, steps: States, id: StepId) {
    id in p.steps && id in steps && steps[id].status.Completed? && TruthyText(p.steps[id].compensate)
  }

  /** The time a schedule names itself; without one it counts from the moment it begins. */
  function FixedTime(step: StepDef): Option<int> {
    if step.schedule.Some? then step.schedule.value.resumeAt else None
  }

  /** The outputs `executeStep` may complete this step with. */
  predicate MayFinish(step: StepDef, stage: Stage, output: Value) {
    match step.kind
    case Action => stage.Attempted?
    case Conditional => output.Verdict?
    case Approval => output.ApprovedBy?
    case Schedule => output.ResumedAt? && (FixedTime(step).Some? ==> FixedTime(step).value <= output.now)
    case _ => false
  }

  /** What this step must remember to be found again once it waits. */
  predicate MayWait(step: StepDef, approvalId: Option<string>, resumeAt: Option<int>) {
    match step.kind
    case Approval => approvalId.Some?
    case Schedule => resumeAt.Some? && (FixedTime(step).Some? ==> resumeAt == FixedTime(step))
    case Event => true
    case _ => false
  }

  /**
   * The outputs that may end the wait, and when: an event is delivered to a suspended run, the
   * others are looked up while the run is driven.
   */
  predicate MaySettle(kind: StepKind, status: RunStatus, st: StepState, output: Value) {
    && (if kind.Event? then status.Suspended? else status.RunRunning?)
    && EndsWait(kind, st, output)
  }

  predicate EndsWait(kind: StepKind, st: StepState, output: Value) {
    match kind
    case Approval => output.ApprovedBy? && st.approvalId == Some(output.approvalId)
    case Schedule => output.ResumedAt? && st.resumeAt.Some? && st.resumeAt.value <= output.now
    case _ => true
  }

  ghost predicate Enabled(p: Plan, s: Sys, m: Move) {
    match m
    case Drive => (s.run.status.RunPending? || s.run.status.Suspended?) && s.inFlight == map[]
    case Begin(id) => s.run.status.RunRunning? && Ready(p, s.run.steps, id)
    case CallHandler(id) =>
      Executing(p, s, id) && p.steps[id].kind.Action? && s.run.steps[id].attempts < AttemptLimit(p, id)
    case Finish(id, output) => Executing(p, s, id) && MayFinish(p.steps[id], s.inFlight[id], output)
    case Break(id, _) => Executing(p, s, id)
    case Refuse(id, _, _) => Executing(p, s, id) && p.steps[id].kind.Approval?
    case Park(id, approvalId, resumeAt) =>
      Executing(p, s, id) && s.inFlight[id].Started? && MayWait(p.steps[id], approvalId, resumeAt)
    case SkipAfter(id) => id in p.steps && id in s.run.steps && InStage(s, id, SkipOwed)
    case Settle(id, output) =>
      WaitingStep(p, s, id) && MaySettle(p.steps[id].kind, s.run.status, s.run.steps[id], output)
    case Lapse(id, _) => WaitingStep(p, s, id) && s.run.status.RunRunning? && !p.steps[id].kind.Schedule?
    case Suspend => Quiet(s) && NoneFatal(p, s.run.steps) && NoneReady(p, s.run.steps) && AnyWaiting(s.run.steps)
    case Conclude => Quiet(s) && NoneFatal(p, s.run.steps) && NoneReady(p, s.run.steps) && !AnyWaiting(s.run.steps)
    case GiveUp(id) => Quiet(s) && Fatal(p, s.run.steps, id)
    case Undo(id, _) => s.run.status.Compensating? && Undoable(p, s.run.steps, id) && UndoIsNext(s, id)
    case EndUndo => s.run.status.Compensating?
  }

  ghost predicate Later(steps: States, a: StepId, b: StepId) {
    a in steps && b in steps && steps[a].sequence.GetOr(0) > steps[b].sequence.GetOr(0)
  }

  /** Everything undone so far completed after this step did. */
  ghost predicate UndoIsNext(s: Sys, id: StepId) {
    forall u :: u in s.undone ==> Later(s.run.steps, u, id)
  }

  ghost function SetStep(s: Sys, id: StepId, st: StepState): Sys {
    s.(run := s.run.(steps := s.run.steps[id := st]))
  }

  ghost function SetStatus(s: Sys, status: RunStatus): Sys {
    s.(run := s.run.(status := status))
  }

  ghost function Beginning(s: Sys, id: StepId): Sys
    requires id in s.run.steps
  {
    SetStep(s, id, s.run.steps[id].(status := Running)).(inFlight := s.inFlight[id := Started], begun := s.begun + [id])
  }

  ghost function Calling(s: Sys, id: StepId): Sys
    requires id in s.run.steps
  {
    var attempt := s.run.steps[id].attempts + 1;
    SetStep(s, id, s.run.steps[id].(attempts := attempt))
      .(inFlight := s.inFlight[id := Attempted], calls := s.calls + [HandlerCall(id, attempt, s.run.outputs)])
  }

  ghost function Refusing(p: Plan, s: Sys, id: StepId, approval: string, error: string): Sys
    requires id in s.run.steps && id in p.steps
  {
    SetStep(s, id, Fail(s.run.steps[id].(approvalId := Some(approval)), error))
      .(inFlight := s.inFlight - {id},
        refused := if p.steps[id].continueOnError then s.refused + {id} else s.refused)
  }

  ghost function Parking(s: Sys, id: StepId, approvalId: Option<string>, resumeAt: Option<int>): Sys
    requires id in s.run.steps
  {
    SetStep(s, id, s.run.steps[id].(status := Waiting, approvalId := approvalId, resumeAt := resumeAt))
      .(inFlight := s.inFlight - {id})
  }

  ghost function Undoing(s: Sys, id: StepId, worked: bool): Sys
    requires id in s.run.steps
  {
    (if worked then SetStep(s, id, s.run.steps[id].(status := Compensated)) else s).(undone := s.undone + [id])
  }

  ghost function GivingUp(s: Sys, id: StepId): Sys
    requires id in s.run.steps
  {
    s.(run := s.run.(status := Compensating,
                     error := Some(StepFailure(id, s.run.steps[id].error.GetOr("step failed")))))
  }

  ghost predicate AnyCompensated(steps: States) { exists id :: id in steps && steps[id].status.Compensated? }

  predicate RejectedBy(p: Plan, id: StepId, output: Value)
    requires id in p.steps
  {
    p.steps[id].kind.Conditional? && output == Verdict(false)
  }

  ghost function After(p: Plan, s: Sys, m: Move): Sys
    requires Enabled(p, s, m)
  {
    match m
    case Drive => SetStatus(s, RunRunning)
    case Begin(id) => Beginning(s, id)
    case CallHandler(id) => Calling(s, id)
    case Finish(id, output) =>
      if RejectedBy(p, id, output) then Skipping(p, Completing(s, id, output), id) else Completing(s, id, output)
    case Break(id, error) => Failing(p, s, id, error)
    case Refuse(id, approval, error) => Refusing(p, s, id, approval, error)
    case Park(id, approvalId, resumeAt) => Parking(s, id, approvalId, resumeAt)
    case SkipAfter(id) => Skipping(p, s, id)
    case Settle(id, output) => Completing(s, id, output)
    case Lapse(id, error) => Failing(p, s, id, error)
    case Suspend => SetStatus(s, Suspended)
    case Conclude => SetStatus(s, RunCompleted)
    case GiveUp(id) => GivingUp(s, id)
    case Undo(id, worked) => Undoing(s, id, worked)
    case EndUndo => SetStatus(s, if AnyCompensated(s.run.steps) then RunCompensated else RunFailed)
  }

  function FreshStep(): StepState {
    StepState(Pending, 0, None, None, None, None, None)
  }

  ghost function Initial(p: Plan): Sys {
    Sys(Run(RunPending, map id | id in p.steps :: FreshStep(), map[], None), map[], [], [], [], [], {})
  }

  /** The state a sequence of moves leads to, if each is enabled when its turn comes. */
  ghost function Replay(p: Plan, moves: seq<Move>): Option<Sys> {
    if moves == [] then Some(Initial(p))
    else
      var last := moves[|moves| - 1];
      match Replay(p, moves[..|moves| - 1])
      case None => None
      case Some(s) => if Enabled(p, s, last) then Some(After(p, s, last)) else None
  }

  lemma {:induction false} ByIdIndexed(steps: seq<StepDef>, i: nat)
    requires UniqueIds(steps) && i < |steps|
    ensures steps[i].id in ById(steps) && ById(steps)[steps[i].id] == steps[i]
    decreases |steps|
  {
    if i < |steps| - 1 {
      ByIdIndexed(steps[..|steps| - 1], i);
    }
  }

  lemma {:induction false} ByIdSource(steps: seq<StepDef>, id: StepId)
    requires id in ById(steps)
    ensures ById(steps)[id].id == id && exists i :: 0 <= i < |steps| && steps[i] == ById(steps)[id]
  {
    var last := steps[|steps| - 1];
    if id != last.id {
      ByIdSource(steps[..|steps| - 1], id);
    }
  }

  lemma ByIdFaithful(steps: seq<StepDef>)
    requires UniqueIds(steps)
    ensures ById(steps).Keys == Ids(steps)
    ensures forall step :: step in steps ==> ById(steps)[step.id] == step
    ensures forall id :: id in ById(steps) ==> ById(steps)[id] in steps && ById(steps)[id].id == id
  {
    forall step | step in steps ensures step.id in ById(steps) && ById(steps)[step.id] == step {
      var i :| 0 <= i < |steps| && steps[i] == step;
      ByIdIndexed(steps, i);
    }
    forall id | id in ById(steps) ensures ById(steps)[id] in steps && ById(steps)[id].id == id {
      ByIdSource(steps, id);
    }
  }

  lemma {:induction false} ByIdHasEdges(steps: seq<StepDef>)
    ensures ById(steps).Keys == EdgeMap(steps).Keys
    ensures forall id :: id in ById(steps) ==> ById(steps)[id].dependsOn == EdgeMap(steps)[id]
  {
    if steps != [] {
      ByIdHasEdges(steps[..|steps| - 1]);
    }
  }

  /** A validated definition is a plan a run can be driven through. */
  lemma ValidatedIsSound(d: Definition)
    requires Validated(d)
    ensures Sound(PlanOf(d))
    ensures PlanOf(d).steps.Keys == Ids(d.steps)
    ensures forall step :: step in d.steps ==> PlanOf(d).steps[step.id] == step
    ensures forall id :: id in PlanOf(d).steps ==> PlanOf(d).steps[id] in d.steps
  {
    ByIdFaithful(d.steps);
    ByIdHasEdges(d.steps);
    assert Edges(PlanOf(d)) == EdgeMap(d.steps);
  }
}
