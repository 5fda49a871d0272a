/**
 * packages/workflow-engine/src/executor.ts, one executor driving one run.
 *
 * The fields are the run the driver mutates, the copy the store holds, and the calls of
 * `executeStep` in flight; the ghost fields are the history of the machine in RunMachine.
 * Every method keeps `Valid`: the current state is reached by a sequence of the machine's moves.
 */
module Executor {
  import opened Wrappers
  import opened WorkflowTypes
  import opened Validator
  import opened RunMachine
  import opened RunInvariants
  import opened RunTheorems
  import opened DriverProofs
  import opened Answers

  /** What a handler's answer leads to, with or without attempts left. */
  ghost predicate FollowsHandler(m: Move, id: StepId, answer: HandlerAnswer, more: bool) {
    && (answer.Returned? ==> m == Finish(id, Data(answer.token)))
    && (answer.Threw? && more ==> m == CallHandler(id))
    && (answer.Threw? && !more ==> m == Break(id, answer.message))
  }

  /** What a gate's first answer leads to. */
  ghost predicate FollowsGate(m: Move, id: StepId, answer: GateAnswer) {
    match answer
    case GateThrew(message) => m == Break(id, message)
    case Requested(approvalId, Granted) => m == Finish(id, ApprovedBy(approvalId))
    case Requested(approvalId, Denied) => m == Refuse(id, approvalId, DENIED)
    case Requested(approvalId, Expired) => m == Refuse(id, approvalId, EXPIRED)
    case Requested(approvalId, ApprovalPending) => m.Park? && m.approvalId == Some(approvalId)
  }

  /**
   * A schedule step waits for its time, read off the clock between `before` and `after`, or finishes
   * if that has come.
   */
  ghost predicate ObeysSchedule(m: Move, spec: ScheduleSpec, before: int, after: int) {
    var delay := spec.delayMs.GetOr(0);
    && (m.Finish? || (m.Park? && m.resumeAt.Some?))
    && (m.Finish? ==> (if spec.resumeAt.Some? then spec.resumeAt.value else before + delay) <= after)
    && (m.Park? && spec.resumeAt.Some? ==> m.resumeAt == spec.resumeAt && spec.resumeAt.value > before)
    && (m.Park? && spec.resumeAt.None? ==> before <= m.resumeAt.value - delay <= after && m.resumeAt.value > before)
  }

  ghost function LapseMoves(step: StepDef, message: string): seq<Move> {
    [Lapse(step.id, message)] + if step.continueOnError then [SkipAfter(step.id)] else []
  }

  lemma LapseMovesJoin(before: seq<Move>, step: StepDef, message: string)
    ensures before + LapseMoves(step, message)
      == if step.continueOnError then before + [Lapse(step.id, message)] + [SkipAfter(step.id)]
        else before + [Lapse(step.id, message)]
  {
  }

  ghost function VerdictMoves(step: StepDef, approvalId: string, verdict: ApprovalStatus): seq<Move> {
    match verdict
    case Granted => [Settle(step.id, ApprovedBy(approvalId))]
    case Denied => LapseMoves(step, DENIED)
    case Expired => LapseMoves(step, EXPIRED)
    case ApprovalPending => []
  }

  /** A waiting approval is looked up when it names its request and there is a gate. */
  predicate LooksUp(w: World, step: StepDef, state: StepState) {
    step.kind.Approval? && TruthyText(state.approvalId) && w.gateConfigured
  }

  /** What re-checking a waiting step amounts to; if its approval is looked up, it is the `n`th lookup. */
  ghost function SettleMoves(w: World, step: StepDef, state: StepState, now: int, n: nat): seq<Move> {
    if LooksUp(w, step, state)
      then VerdictMoves(step, state.approvalId.value, w.verdict(state.approvalId.value, n))
    else if step.kind.Schedule? && state.resumeAt.Some? && state.resumeAt.value <= now
      then [Settle(step.id, ResumedAt(now))]
    else if step.kind.Event? && state.resumeAt.Some? && state.resumeAt.value <= now
      then LapseMoves(step, "timed out waiting for event")
    else []
  }

  /** How often the gate is asked in one round. */
  ghost function Lookups(w: World, list: seq<StepDef>, steps: States): nat {
    if list == [] then 0
    else Lookups(w, list[..|list| - 1], steps) + LookupsOf(w, list[|list| - 1], steps)
  }

  ghost function LookupsOf(w: World, step: StepDef, steps: States): nat {
    if step.id in steps && steps[step.id].status.Waiting? && LooksUp(w, step, steps[step.id]) then 1 else 0
  }

  /** The moves of one round over all waiting steps, in definition order; lookups are numbered from `n`. */
  ghost function RoundMoves(w: World, list: seq<StepDef>, steps: States, now: int, n: nat): seq<Move> {
    if list == [] then []
    else
      var init := list[..|list| - 1];
      RoundMoves(w, init, steps, now, n) + RoundMovesOf(w, list[|list| - 1], steps, now, n + Lookups(w, init, steps))
  }

  ghost function RoundMovesOf(w: World, step: StepDef, steps: States, now: int, n: nat): seq<Move> {
    if step.id in steps && steps[step.id].status.Waiting? then SettleMoves(w, step, steps[step.id], now, n) else []
  }

  lemma LookupsNext(w: World, list: seq<StepDef>, step: StepDef, steps: States)
    ensures Lookups(w, list + [step], steps) == Lookups(w, list, steps) + LookupsOf(w, step, steps)
  {
    assert (list + [step])[..|list|] == list;
  }

  lemma RoundMovesNext(w: World, list: seq<StepDef>, step: StepDef, steps: States, at: int, n: nat)
    ensures RoundMoves(w, list + [step], steps, at, n)
      == RoundMoves(w, list, steps, at, n) + RoundMovesOf(w, step, steps, at, n + Lookups(w, list, steps))
  {
    assert (list + [step])[..|list|] == list;
  }

  /** The round before its `k`th step. */
  ghost predicate RoundAt(w: World, d: Definition, before: States, steps: States, first: seq<Move>, now: seq<Move>,
                          asked: nat, lookups: nat, at: int, k: nat) {
    && k <= |d.steps| && RoundUpTo(w, d.steps[..k], before, first, now, asked, lookups, at)
    && WaitersAhead(d, before, steps, k)
  }

  /** The moves and lookups made for a list of steps. */
  ghost predicate RoundUpTo(w: World, list: seq<StepDef>, before: States, first: seq<Move>, now: seq<Move>,
                            asked: nat, lookups: nat, at: int) {
    now == first + RoundMoves(w, list, before, at, asked) && lookups == asked + Lookups(w, list, before)
  }

  lemma RoundUpToNext(w: World, list: seq<StepDef>, step: StepDef, before: States, first: seq<Move>, now: seq<Move>,
                      later: seq<Move>, asked: nat, lookups: nat, at: int)
    requires RoundUpTo(w, list, before, first, now, asked, lookups, at)
    requires later == now + RoundMovesOf(w, step, before, at, lookups)
    ensures RoundUpTo(w, list + [step], before, first, later, asked, lookups + LookupsOf(w, step, before), at)
  {
    LookupsNext(w, list, step, before);
    RoundMovesNext(w, list, step, before, at, asked);
    JoinsOn(first, now, later, RoundMoves(w, list, before, at, asked), RoundMovesOf(w, step, before, at, lookups));
  }

  /**
   * In a round every schedule whose time has come completes, every event past its deadline lapses, and
   * every approval that is looked up ends as the gate says, once it says so.
   */
  lemma {:induction false} RoundEndsWaits(w: World, list: seq<StepDef>, steps: States, now: int, n: nat, step: StepDef)
    requires step in list && step.id in steps && steps[step.id].status.Waiting?
    ensures var st, moves := steps[step.id], RoundMoves(w, list, steps, now, n);
      && (step.kind.Schedule? && st.resumeAt.Some? && st.resumeAt.value <= now ==>
            Settle(step.id, ResumedAt(now)) in moves)
      && (step.kind.Event? && st.resumeAt.Some? && st.resumeAt.value <= now ==>
            Lapse(step.id, "timed out waiting for event") in moves)
      && (step.kind.Approval? && w.gateConfigured && st.approvalId.Some? && st.approvalId.value != "" ==>
            exists k: nat :: n <= k
              && VerdictTaken(w.verdict(st.approvalId.value, k), step.id, st.approvalId.value, moves))
  {
    var init, last := list[..|list| - 1], list[|list| - 1];
    if step == last {
      var k := n + Lookups(w, init, steps);
      var own := RoundMovesOf(w, step, steps, now, k);
      assert forall m :: m in own ==> m in RoundMoves(w, list, steps, now, n);
      if LooksUp(w, step, steps[step.id]) {
        assert VerdictTaken(w.verdict(steps[step.id].approvalId.value, k), step.id, steps[step.id].approvalId.value,
                            own);
      }
    } else {
      assert step in init;
      RoundEndsWaits(w, init, steps, now, n, step);
      assert forall m :: m in RoundMoves(w, init, steps, now, n) ==> m in RoundMoves(w, list, steps, now, n);
    }
  }

  /** What is done about a verdict. */
  predicate VerdictTaken(status: ApprovalStatus, id: StepId, approvalId: string, moves: seq<Move>) {
    && (status.Granted? ==> Settle(id, ApprovedBy(approvalId)) in moves)
    && (status.Denied? ==> Lapse(id, "approval denied") in moves)
    && (status.Expired? ==> Lapse(id, "approval expired") in moves)
  }

  /** A step the round has not come to is looked at as it was when the round began. */
  lemma SeenAsBefore(w: World, d: Definition, before: States, steps: States, at: int, n: nat, k: nat)
    requires k < |d.steps| && WaitersAhead(d, before, steps, k)
    ensures RoundMovesOf(w, d.steps[k], steps, at, n) == RoundMovesOf(w, d.steps[k], before, at, n)
    ensures LookupsOf(w, d.steps[k], steps) == LookupsOf(w, d.steps[k], before)
  {
  }

  lemma RoundGoesOn(w: World, d: Definition, before: States, steps: States, after: States, first: seq<Move>,
                    now: seq<Move>, later: seq<Move>, asked: nat, lookups: nat, lookupsAfter: nat, at: int, k: nat)
    requires UniqueIds(d.steps) && k < |d.steps|
    requires RoundAt(w, d, before, steps, first, now, asked, lookups, at, k)
    requires later == now + RoundMovesOf(w, d.steps[k], steps, at, lookups)
    requires lookupsAfter == lookups + LookupsOf(w, d.steps[k], steps) && WaitersKept(steps, after, d.steps[k].id)
    ensures RoundAt(w, d, before, after, first, later, asked, lookupsAfter, at, k + 1)
  {
    NextWaiterIsAhead(d, before, steps, k, after);
    SeenAsBefore(w, d, before, steps, at, lookups, k);
    PrefixGrows(d.steps, k);
    RoundUpToNext(w, d.steps[..k], d.steps[k], before, first, now, later, asked, lookups, at);
  }

  lemma RoundIsOver(w: World, d: Definition, before: States, steps: States, first: seq<Move>, now: seq<Move>,
                    asked: nat, lookups: nat, at: int)
    requires RoundAt(w, d, before, steps, first, now, asked, lookups, at, |d.steps|)
    ensures RoundUpTo(w, d.steps, before, first, now, asked, lookups, at)
  {
    WholePrefix(d.steps);
  }

  lemma JoinsOn(first: seq<Move>, now: seq<Move>, later: seq<Move>, a: seq<Move>, b: seq<Move>)
    requires now == first + a && later == now + b
    ensures later == first + (a + b)
  {
  }

  /** One completion, with the payload, for every step waiting for this event, in definition order. */
  ghost function Deliveries(list: seq<StepDef>, steps: States, eventType: string, payload: int): seq<Move> {
    if list == [] then []
    else
      var last := list[|list| - 1];
      Deliveries(list[..|list| - 1], steps, eventType, payload)
      + if Awaits(last, steps, eventType) then [Settle(last.id, Data(payload))] else []
  }

  lemma DeliveriesNext(before: seq<Move>, now: seq<Move>, list: seq<StepDef>, step: StepDef, steps: States,
                       eventType: string, payload: int)
    requires now == before + Deliveries(list, steps, eventType, payload)
    ensures (if Awaits(step, steps, eventType) then now + [Settle(step.id, Data(payload))] else now)
         == before + Deliveries(list + [step], steps, eventType, payload)
  {
    assert (list + [step])[..|list|] == list;
  }

  /** The delivery loop before its `k`th step. */
  ghost predicate DeliveringAt(d: Definition, before: States, steps: States, first: seq<Move>, now: seq<Move>,
                               eventType: string, payload: int, k: nat) {
    && k <= |d.steps| && now == first + Deliveries(d.steps[..k], before, eventType, payload)
    && LaterUntouched(d, before, steps, k) && DeliveredUpTo(d, before, steps, eventType, k)
  }

  lemma DeliveringNext(d: Definition, before: States, steps: States, after: States, first: seq<Move>, now: seq<Move>,
                       later: seq<Move>, eventType: string, payload: int, k: nat)
    requires UniqueIds(d.steps) && k < |d.steps|
    requires DeliveringAt(d, before, steps, first, now, eventType, payload, k)
    requires later == now + if Awaits(d.steps[k], steps, eventType) then [Settle(d.steps[k].id, Data(payload))] else []
    requires if Awaits(d.steps[k], steps, eventType)
      then d.steps[k].id in after && after == steps[d.steps[k].id := after[d.steps[k].id]]
        && after[d.steps[k].id].status.Completed?
      else after == steps
    ensures DeliveringAt(d, before, after, first, later, eventType, payload, k + 1)
    ensures Awaits(d.steps[k], steps, eventType) == Awaits(d.steps[k], before, eventType)
  {
    PrefixGrows(d.steps, k);
    DeliveriesNext(first, now, d.steps[..k], d.steps[k], before, eventType, payload);
    NextIsUntouched(d, before, steps, k, after, eventType);
    DeliveredOneMore(d, before, steps, after, eventType, k);
  }

  /** Whether a cancel has come in while a batch ran. */
  method CancelArrives() returns (yes: bool) { yes := *; }

  /** The first failure in slice order, as `Promise.all` reports the outcomes. */
  method FirstOutcome(slice: seq<StepDef>, outcomes: map<StepId, StepFailure>) returns (fatal: Option<StepFailure>)
    ensures fatal.None? <==> forall step :: step in slice ==> step.id !in outcomes
    ensures fatal.Some? ==>
      exists k :: 0 <= k < |slice| && slice[k].id in outcomes && fatal.value == outcomes[slice[k].id]
                                        && forall j :: 0 <= j < k ==> slice[j].id !in outcomes
  {
    for k := 0 to |slice|
      invariant forall j :: 0 <= j < k ==> slice[j].id !in outcomes
    {
      if slice[k].id in outcomes {
        return Some(outcomes[slice[k].id]);
      }
    }
    return None;
  }

  method InsertDescending(steps: States, ids: seq<StepId>, id: StepId) returns (longer: seq<StepId>)
    requires id in steps && Descending(steps, ids) && forall other :: other in ids ==> other in steps
    requires forall other :: other in ids ==> Later(steps, other, id) || Later(steps, id, other)
    ensures Descending(steps, longer)
    ensures forall x :: x in longer <==> x in ids || x == id
  {
    var at := 0;
    while at < |ids| && steps[ids[at]].sequence.GetOr(0) > steps[id].sequence.GetOr(0)
      invariant 0 <= at <= |ids|
      invariant forall i :: 0 <= i < at ==> Later(steps, ids[i], id)
    {
      at := at + 1;
    }
    longer := ids[..at] + [id] + ids[at..];
    forall i, j | 0 <= i < j < |longer| ensures Later(steps, longer[i], longer[j]) {
      if i == at && j > at {
        assert Later(steps, id, ids[at]);
        if j > at + 1 {
          assert Later(steps, ids[at], ids[j - 1]);
        }
      }
    }
  }

  class WorkflowExecutor {
    const definition: Definition
    const plan: Plan
    const maxStepConcurrency: nat
    const world: World

    var status: RunStatus
    var steps: States
    var outputs: map<StepId, Value>
    var error: Option<StepFailure>
    var inFlight: map<StepId, Stage>
    var stored: Run
    var clock: int
    var calls: seq<HandlerCall>   // the calls to handlers so far, whose answers steps await
    var lookups: nat              // how often a waiting approval has been looked up

    ghost var order: seq<StepId>
    ghost var begun: seq<StepId>
    ghost var undone: seq<StepId>
    ghost var refused: set<StepId>
    ghost var moves: seq<Move>
    ghost var trace: seq<Sys>

    ghost function View(): Sys
      reads this
    {
      Sys(Run(status, steps, outputs, error), inFlight, order, begun, calls, undone, refused)
    }

    ghost predicate Valid()
      reads this
    {
      && Indexes(plan, definition) && maxStepConcurrency >= 1
      && IsTrace(plan, trace, moves) && trace[|moves|] == View()
      && AnsweredTrace(world, plan, trace, moves)
    }

    /** The run `start` creates, before it is driven. */
    constructor (definition: Definition, maxStepConcurrency: nat, world: World, now: int)
      requires Validated(definition) && maxStepConcurrency >= 1
      ensures Valid() && View() == Initial(plan) && stored == View().run && inFlight == map[]
      ensures this.definition == definition && plan == PlanOf(definition) && this.world == world
    {
      this.definition := definition;
      this.plan := PlanOf(definition);
      this.maxStepConcurrency := maxStepConcurrency;
      this.world := world;
      var all := ById(definition.steps);
      var blank := map id | id in all :: FreshStep();
      status, steps, outputs, error, inFlight := RunPending, blank, map[], None, map[];
      stored := Run(RunPending, blank, map[], None);
      clock, calls, lookups := now, [], 0;
      order, begun, undone, refused, moves := [], [], [], {}, [];
      trace := [Initial(PlanOf(definition))];
      new;
      PlanIndexes(definition);
    }

    method Now() returns (now: int)
      modifies this`clock
      ensures now == clock >= old(clock)
    {
      var passed: nat :| true;
      clock := clock + passed;
      now := clock;
    }

    // --- state transitions ---------------------------------------------------------------

    /** `highest + 1` over every sequence handed out so far. */
    method NextSequence() returns (next: nat)
      ensures IsNextSequence(steps, next)
    {
      var highest := 0;
      var rest := steps.Keys;
      while rest != {}
        invariant rest <= steps.Keys
        invariant forall id :: id in steps.Keys - rest ==> steps[id].sequence.GetOr(0) <= highest
        invariant highest == 0 || exists id :: id in steps && steps[id].sequence == Some(highest)
        decreases rest
      {
        var id :| id in rest;
        rest := rest - {id};
        if steps[id].sequence.GetOr(0) > highest {
          highest := steps[id].sequence.value;
        }
      }
      next := highest + 1;
    }

    method CompleteStep(id: StepId, output: Value)
      requires Valid() && id in steps
      modifies this`steps, this`outputs, this`inFlight, this`order
      ensures View() == Completing(old(View()), id, output)
    {
      var next := NextSequence();
      NextIsCount(plan, trace, moves, View(), next);
      steps := steps[id := Complete(steps[id], output, next)];
      outputs := outputs[id := output];
      inFlight := inFlight - {id};
      order := order + [id];
    }

    /** The inner pass of `skipDependents`: every pending step that depends on `current` directly. */
    method SkipDirectDependents(current: StepId) returns (skipped: seq<StepId>)
      requires Indexes(plan, definition) && steps.Keys == plan.steps.Keys
      modifies this`steps
      ensures OnlySkips(old(steps), steps) && NoDuplicates(skipped)
      ensures forall id :: id in skipped <==> NewlySkipped(old(steps), steps, id)
      ensures forall id :: id in skipped <==>
        id in old(steps) && old(steps)[id].status.Pending? && Needs(plan, id, current)
    {
      ghost var before := steps;
      skipped := [];
      for k := 0 to |definition.steps|
        invariant DirectPass(definition, plan, before, steps, skipped, current, k)
      {
        var step := definition.steps[k];
        if current in step.dependsOn && step.id in steps && steps[step.id].status.Pending? {
          DirectPassSkips(definition, plan, before, steps, skipped, current, k);
          steps := steps[step.id := steps[step.id].(status := Skipped)];
          skipped := skipped + [step.id];
        } else {
          DirectPassGoesOn(definition, plan, before, steps, skipped, current, k);
        }
      }
      DirectSkipsCover(definition, plan, before, steps, skipped, current);
    }

    /** Marks every pending step downstream of `stepId` as skipped and returns their ids. */
    method SkipDependents(stepId: StepId) returns (skipped: seq<StepId>)
      requires Indexes(plan, definition) && steps.Keys == plan.steps.Keys
      modifies this`steps
      ensures steps == SkipFrom(plan, old(steps), stepId)
      ensures NoDuplicates(skipped)
      ensures forall id :: id in skipped <==> NewlySkipped(old(steps), steps, id)
    {
      ghost var before := steps;
      skipped := [];
      var queue := [stepId];

      while queue != []
        invariant SkipTrail(plan, before, steps, stepId, skipped)
        invariant forall id :: id in queue ==> id == stepId || id in skipped
        invariant SkipFrontier(plan, steps, stepId, skipped, queue)
        decreases PendingSteps(steps), |queue|
      {
        var current := queue[0];
        ghost var middle, skippedSoFar, queueSoFar := steps, skipped, queue;
        queue := queue[1..];

        var direct := SkipDirectDependents(current);
        TrailAdvances(plan, before, middle, steps, stepId, skipped, current, direct);
        skipped := skipped + direct;
        queue := queue + direct;
        FrontierAdvances(plan, middle, steps, stepId, skippedSoFar, queueSoFar, direct);
      }
      SkipsAreComplete(plan, before, steps, stepId, skipped);
    }

    /** Pending steps whose dependencies have all completed, in definition order. */
    method ReadySteps() returns (ready: seq<StepDef>)
      requires Indexes(plan, definition)
      ensures ready == ReadyAmong(plan, steps, definition.steps) && UniqueIds(ready)
      ensures forall step :: step in ready <==> step in definition.steps && Ready(plan, steps, step.id)
    {
      ready := [];
      for k := 0 to |definition.steps|
        invariant ready == ReadyAmong(plan, steps, definition.steps[..k])
      {
        var step := definition.steps[k];
        PrefixGrows(definition.steps, k);
        ReadyAmongNext(plan, steps, definition.steps[..k], step);
        var isReady := IsReady(step);
        if isReady {
          ready := ready + [step];
        }
      }
      WholePrefix(definition.steps);
      ReadyAmongExact(plan, steps, definition.steps);
    }

    method IsReady(step: StepDef) returns (yes: bool)
      requires step.id in plan.steps && plan.steps[step.id] == step
      ensures yes <==> Ready(plan, steps, step.id)
    {
      if step.id !in steps || !steps[step.id].status.Pending? {
        return false;
      }
      for j := 0 to |step.dependsOn|
        invariant forall i :: 0 <= i < j ==> step.dependsOn[i] in steps && steps[step.dependsOn[i]].status.Completed?
      {
        if !(step.dependsOn[j] in steps && steps[step.dependsOn[j]].status.Completed?) {
          assert Needs(plan, step.id, step.dependsOn[j]);
          return false;
        }
      }
      return true;
    }

    method HasWaiting() returns (waiting: bool)
      ensures waiting <==> AnyWaiting(steps)
    {
      waiting := exists id :: id in steps && steps[id].status.Waiting?;
    }

    /** The k-th step is the first that failed fatally. */
    ghost predicate FirstFatal(k: nat, id: StepId)
      reads this
    {
      && k < |definition.steps| && definition.steps[k].id == id
      && forall j :: 0 <= j < k ==> !Fatal(plan, steps, definition.steps[j].id)
    }

    /** The first failed step, in definition order, that the run is not configured to tolerate. */
    method FatalFailure() returns (failure: Option<StepFailure>)
      requires Indexes(plan, definition)
      ensures failure.None? <==> NoneFatal(plan, steps)
      ensures failure.Some? ==>
        Fatal(plan, steps, failure.value.stepId)
          && failure.value.error == steps[failure.value.stepId].error.GetOr("step failed")
      ensures failure.Some? ==> exists k :: FirstFatal(k, failure.value.stepId)
    {
      for k := 0 to |definition.steps|
        invariant forall j :: 0 <= j < k ==> !Fatal(plan, steps, definition.steps[j].id)
      {
        var step := definition.steps[k];
        if step.id in steps && steps[step.id].status.Failed? && !step.continueOnError {
          assert Fatal(plan, steps, step.id) && FirstFatal(k, step.id);
          return Some(StepFailure(step.id, steps[step.id].error.GetOr("step failed")));
        }
      }
      forall id ensures !Fatal(plan, steps, id) {
        if id in plan.steps {
          var j :| 0 <= j < |definition.steps| && definition.steps[j].id == id;
        }
      }
      return None;
    }

    // --- one step ------------------------------------------------------------------------

    /** Appends a move already carried out on the fields. */
    ghost method Log(m: Move)
      requires IsTrace(plan, trace, moves) && Enabled(plan, trace[|moves|], m)
      requires AnsweredTrace(world, plan, trace, moves) && Answered(world, plan, trace[|moves|], m)
      modifies this`moves, this`trace
      ensures IsTrace(plan, trace, moves) && AnsweredTrace(world, plan, trace, moves) && moves == old(moves) + [m]
      ensures trace[|moves|] == After(plan, old(trace[|moves|]), m)
    {
      TraceExtends(plan, trace, moves, m);
      AnsweredExtends(world, plan, trace, moves, m, After(plan, trace[|moves|], m));
      trace := trace + [After(plan, trace[|moves|], m)];
      moves := moves + [m];
    }

    /** The synchronous head of `executeStep`. The caller shows the step is still ready. */
    method BeginStep(step: StepDef)
      requires Valid() && status.RunRunning? && Ready(plan, steps, step.id)
      modifies this`steps, this`inFlight, this`begun, this`moves, this`trace
      ensures Valid() && View() == Beginning(old(View()), step.id) && moves == old(moves) + [Begin(step.id)]
    {
      steps := steps[step.id := steps[step.id].(status := Running)];
      inFlight := inFlight[step.id := Started];
      begun := begun + [step.id];
      Log(Begin(step.id));
    }

    method FinishStep(id: StepId, output: Value)
      requires Valid() && Enabled(plan, View(), Finish(id, output))
      requires Answered(world, plan, View(), Finish(id, output))
      modifies this`steps, this`outputs, this`inFlight, this`order, this`moves, this`trace
      ensures Valid() && View() == After(plan, old(View()), Finish(id, output))
        && moves == old(moves) + [Finish(id, output)]
    {
      TraceKeys(plan, trace, moves);
      CompleteStep(id, output);
      if plan.steps[id].kind.Conditional? && output == Verdict(false) {
        SkipBelow(id);
      }
      Log(Finish(id, output));
    }

    /** A call gone for good takes everything pending downstream with it. */
    method SkipBelow(id: StepId)
      requires Indexes(plan, definition) && steps.Keys == plan.steps.Keys
      modifies this`steps, this`inFlight
      ensures View() == Skipping(plan, old(View()), id)
    {
      var _ := SkipDependents(id);
      inFlight := inFlight - {id};
    }

    /** The catch block up to its next await: a tolerated failure still owes the skip. */
    method FailStep(id: StepId, message: string, ghost m: Move) returns (failure: Option<StepFailure>)
      requires Valid() && (m == Break(id, message) || m == Lapse(id, message))
      requires Enabled(plan, View(), m) && Answered(world, plan, View(), m)
      modifies this`steps, this`inFlight, this`moves, this`trace
      ensures Valid() && View() == After(plan, old(View()), m) && moves == old(moves) + [m]
      ensures failure == if plan.steps[id].continueOnError then None else Some(StepFailure(id, message))
    {
      steps := steps[id := Fail(steps[id], message)];
      if plan.steps[id].continueOnError {
        inFlight := inFlight[id := SkipOwed];
        failure := None;
      } else {
        inFlight := inFlight - {id};
        failure := Some(StepFailure(id, message));
      }
      Log(m);
    }

    method SkipAfterFailure(id: StepId)
      requires Valid() && Enabled(plan, View(), SkipAfter(id))
      modifies this`steps, this`inFlight, this`moves, this`trace
      ensures Valid() && View() == After(plan, old(View()), SkipAfter(id)) && moves == old(moves) + [SkipAfter(id)]
    {
      TraceKeys(plan, trace, moves);
      SkipBelow(id);
      Log(SkipAfter(id));
    }

    method ParkStep(id: StepId, approvalId: Option<string>, resumeAt: Option<int>)
      requires Valid() && Enabled(plan, View(), Park(id, approvalId, resumeAt))
      requires Answered(world, plan, View(), Park(id, approvalId, resumeAt))
      modifies this`steps, this`inFlight, this`moves, this`trace
      ensures Valid() && View() == After(plan, old(View()), Park(id, approvalId, resumeAt))
        && moves == old(moves) + [Park(id, approvalId, resumeAt)]
    {
      steps := steps[id := steps[id].(status := Waiting, approvalId := approvalId, resumeAt := resumeAt)];
      inFlight := inFlight - {id};
      Log(Park(id, approvalId, resumeAt));
    }

    method RefuseStep(id: StepId, approvalId: string, message: string) returns (failure: Option<StepFailure>)
      requires Valid() && Enabled(plan, View(), Refuse(id, approvalId, message))
      requires Answered(world, plan, View(), Refuse(id, approvalId, message))
      modifies this`steps, this`inFlight, this`refused, this`moves, this`trace
      ensures Valid() && View() == After(plan, old(View()), Refuse(id, approvalId, message))
        && moves == old(moves) + [Refuse(id, approvalId, message)]
      ensures failure == if plan.steps[id].continueOnError then None else Some(StepFailure(id, message))
    {
      ghost var before := View();
      steps := steps[id := Fail(steps[id].(approvalId := Some(approvalId)), message)];
      inFlight := inFlight - {id};
      if plan.steps[id].continueOnError {
        refused := refused + {id};
        failure := None;
      } else {
        failure := Some(StepFailure(id, message));
      }
      assert View() == Refusing(plan, before, id, approvalId, message);
      Log(Refuse(id, approvalId, message));
    }

    /** One pass of the retry loop: the attempt is counted and the handler shown the outputs so far. */
    method CallStepHandler(id: StepId)
      requires Valid() && Enabled(plan, View(), CallHandler(id))
      requires Answered(world, plan, View(), CallHandler(id))
      modifies this`steps, this`inFlight, this`calls, this`moves, this`trace
      ensures Valid() && View() == After(plan, old(View()), CallHandler(id)) && moves == old(moves) + [CallHandler(id)]
    {
      var attempt := steps[id].attempts + 1;
      steps := steps[id := steps[id].(attempts := attempt)];
      inFlight := inFlight[id := Attempted];
      calls := calls + [HandlerCall(id, attempt, outputs)];
      Log(CallHandler(id));
    }

    /** A step whose call is in flight, as the batch finds it. */
    lemma InFlightFacts(id: StepId)
      requires Valid() && id in inFlight
      ensures id in plan.steps && id in steps && status.RunRunning?
      ensures inFlight[id].Started? ==> steps[id].attempts == 0
      ensures inFlight[id].Attempted? ==> plan.steps[id].kind.Action?
      ensures if inFlight[id].SkipOwed? then InStage(View(), id, SkipOwed) else Executing(plan, View(), id)
      ensures steps[id].attempts <= AttemptLimit(plan, id)
    {
      TraceIsReachable(plan, trace, moves);
      assert CallsCounted(plan, View(), id) && StageFits(plan, View(), id);
    }

    /** `runHandlerWithRetry`, from one await to the next. */
    method AdvanceAction(id: StepId) returns (failure: Option<StepFailure>, ghost m: Move)
      requires Valid() && Executing(plan, View(), id) && plan.steps[id].kind.Action?
      modifies this
      ensures Valid() && stored == old(stored) && clock == old(clock)
      ensures IsSegment(plan, old(View()), m, id) && View() == After(plan, old(View()), m) && moves == old(moves) + [m]
      ensures failure == FailureOf(plan, m)
      ensures old(inFlight)[id].Started? ==>
        m == if IsRegistered(plan.steps[id], world.registered) then CallHandler(id) else Break(id, UNREGISTERED)
      ensures old(inFlight)[id].Attempted? ==>
        CallsOf(old(calls), id) != []
          && FollowsHandler(m, id, world.handler(CallsOf(old(calls), id)[|CallsOf(old(calls), id)| - 1]),
                                                        old(steps[id]).attempts < AttemptLimit(plan, id))
    {
      ActionInFlight(world, plan, trace, moves, View(), id);
      if inFlight[id].Started? {
        failure, m := FirstCall(id);
      } else {
        var mine := CallsOf(calls, id);
        failure, m := TakeHandlerAnswer(id, world.handler(mine[|mine| - 1]));
      }
    }

    /** The handler is looked up before its first call. */
    method FirstCall(id: StepId) returns (failure: Option<StepFailure>, ghost m: Move)
      requires Valid() && Executing(plan, View(), id) && plan.steps[id].kind.Action?
      requires steps[id].attempts == 0 && CallsOf(calls, id) == []
      modifies this
      ensures Valid() && stored == old(stored) && clock == old(clock)
      ensures IsSegment(plan, old(View()), m, id) && View() == After(plan, old(View()), m) && moves == old(moves) + [m]
      ensures failure == FailureOf(plan, m)
      ensures m == if IsRegistered(plan.steps[id], world.registered) then CallHandler(id) else Break(id, UNREGISTERED)
    {
      if IsRegistered(plan.steps[id], world.registered) {
        m := CallHandler(id);
        CallStepHandler(id);
        failure := None;
      } else {
        m := Break(id, UNREGISTERED);
        failure := FailStep(id, UNREGISTERED, m);
      }
    }

    /** An answer ends the step or, while attempts are left, leads to another call. */
    method TakeHandlerAnswer(id: StepId, answer: HandlerAnswer) returns (failure: Option<StepFailure>, ghost m: Move)
      requires Valid() && Executing(plan, View(), id) && plan.steps[id].kind.Action? && inFlight[id].Attempted?
      requires CallsOf(calls, id) != [] && |CallsOf(calls, id)| == steps[id].attempts
      requires answer == world.handler(CallsOf(calls, id)[|CallsOf(calls, id)| - 1])
      modifies this
      ensures Valid() && stored == old(stored) && clock == old(clock)
      ensures IsSegment(plan, old(View()), m, id) && View() == After(plan, old(View()), m) && moves == old(moves) + [m]
      ensures failure == FailureOf(plan, m)
      ensures FollowsHandler(m, id, answer, old(steps[id]).attempts < AttemptLimit(plan, id))
    {
      match answer {
        case Returned(token) =>
          m := Finish(id, Data(token));
          FinishStep(id, Data(token));
          failure := None;
        case Threw(message) => failure, m := RetryOrBreak(id, message);
      }
    }

    method RetryOrBreak(id: StepId, message: string) returns (failure: Option<StepFailure>, ghost m: Move)
      requires Valid() && Executing(plan, View(), id) && plan.steps[id].kind.Action? && inFlight[id].Attempted?
      requires CallsOf(calls, id) != [] && |CallsOf(calls, id)| == steps[id].attempts
      requires world.handler(CallsOf(calls, id)[|CallsOf(calls, id)| - 1]) == Threw(message)
      modifies this
      ensures Valid() && stored == old(stored) && clock == old(clock)
      ensures IsSegment(plan, old(View()), m, id) && View() == After(plan, old(View()), m) && moves == old(moves) + [m]
      ensures failure == FailureOf(plan, m)
      ensures m == if old(steps[id]).attempts < AttemptLimit(plan, id) then CallHandler(id) else Break(id, message)
    {
      if steps[id].attempts < AttemptLimit(plan, id) {
        m := CallHandler(id);
        CallStepHandler(id);
        failure := None;
      } else {
        m := Break(id, message);
        failure := FailStep(id, message, m);
      }
    }

    /** The condition decides what the step completes with, or breaks it. */
    method AdvanceCondition(id: StepId) returns (failure: Option<StepFailure>, ghost m: Move)
      requires Valid() && Executing(plan, View(), id) && plan.steps[id].kind.Conditional?
      modifies this
      ensures Valid() && stored == old(stored) && clock == old(clock)
      ensures IsSegment(plan, old(View()), m, id) && View() == After(plan, old(View()), m) && moves == old(moves) + [m]
      ensures failure == FailureOf(plan, m)
      ensures m == match world.condition(id, old(outputs))
        case Decided(passed) => Finish(id, Verdict(passed))
        case ConditionThrew(message) => Break(id, message)
    {
      match world.condition(id, outputs) {
        case Decided(passed) =>
          m := Finish(id, Verdict(passed));
          FinishStep(id, Verdict(passed));
          failure := None;
        case ConditionThrew(message) =>
          m := Break(id, message);
          failure := FailStep(id, message, m);
      }
    }

    /** `beginApproval`. */
    method AdvanceApproval(id: StepId) returns (failure: Option<StepFailure>, ghost m: Move)
      requires Valid() && Executing(plan, View(), id) && plan.steps[id].kind.Approval? && inFlight[id].Started?
      modifies this
      ensures Valid() && stored == old(stored) && clock >= old(clock)
      ensures IsSegment(plan, old(View()), m, id) && View() == After(plan, old(View()), m) && moves == old(moves) + [m]
      ensures failure == FailureOf(plan, m)
      ensures if world.gateConfigured then FollowsGate(m, id, world.gate(id)) else m == Break(id, NO_GATE)
      ensures m.Park? ==> var ttl := plan.steps[id].approval.GetOr(ApprovalSpec("", None)).ttlMs;
        if TruthyNumber(ttl) then m.resumeAt.Some? && old(clock) <= m.resumeAt.value - ttl.value <= clock
          else m.resumeAt == old(steps[id]).resumeAt
    {
      if !world.gateConfigured {
        m := Break(id, NO_GATE);
        failure := FailStep(id, NO_GATE, m);
        return;
      }
      failure, m := TakeAnswer(id, world.gate(id));
    }

    /** What the gate said in its first answer is acted upon. */
    method TakeAnswer(id: StepId, answer: GateAnswer) returns (failure: Option<StepFailure>, ghost m: Move)
      requires Valid() && Executing(plan, View(), id) && plan.steps[id].kind.Approval? && inFlight[id].Started?
      requires world.gateConfigured && answer == world.gate(id)
      modifies this
      ensures Valid() && stored == old(stored) && clock >= old(clock)
      ensures IsSegment(plan, old(View()), m, id) && View() == After(plan, old(View()), m) && moves == old(moves) + [m]
      ensures failure == FailureOf(plan, m) && FollowsGate(m, id, answer)
      ensures m.Park? ==> var ttl := plan.steps[id].approval.GetOr(ApprovalSpec("", None)).ttlMs;
        if TruthyNumber(ttl) then m.resumeAt.Some? && old(clock) <= m.resumeAt.value - ttl.value <= clock
          else m.resumeAt == old(steps[id]).resumeAt
    {
      var spec := plan.steps[id].approval.GetOr(ApprovalSpec("", None));
      match answer {
        case GateThrew(message) =>
          m := Break(id, message);
          failure := FailStep(id, message, m);
        case Requested(approvalId, verdict) =>
          match verdict {
            case Granted =>
              m := Finish(id, ApprovedBy(approvalId));
              FinishStep(id, ApprovedBy(approvalId));
              failure := None;
            case Denied =>
              m := Refuse(id, approvalId, DENIED);
              failure := RefuseStep(id, approvalId, DENIED);
            case Expired =>
              m := Refuse(id, approvalId, EXPIRED);
              failure := RefuseStep(id, approvalId, EXPIRED);
            case ApprovalPending =>
              m := AwaitVerdict(id, approvalId, spec.ttlMs);
              failure := None;
          }
      }
    }

    /** Nobody has decided yet: the step waits, until a deadline when the approval has a lifetime. */
    method AwaitVerdict(id: StepId, approvalId: string, ttlMs: Option<int>) returns (ghost m: Move)
      requires Valid() && Executing(plan, View(), id) && plan.steps[id].kind.Approval? && inFlight[id].Started?
      requires world.gateConfigured && world.gate(id) == Requested(approvalId, ApprovalPending)
      modifies this
      ensures Valid() && stored == old(stored) && clock >= old(clock)
      ensures IsSegment(plan, old(View()), m, id) && View() == After(plan, old(View()), m) && moves == old(moves) + [m]
      ensures m.Park? && m == Park(id, Some(approvalId), m.resumeAt)
      ensures if TruthyNumber(ttlMs) then m.resumeAt.Some? && old(clock) <= m.resumeAt.value - ttlMs.value <= clock
        else m.resumeAt == old(steps[id]).resumeAt
    {
      var now := Now();
      var resumeAt := if TruthyNumber(ttlMs) then Some(now + ttlMs.value) else steps[id].resumeAt;
      m := Park(id, Some(approvalId), resumeAt);
      ParkStep(id, Some(approvalId), resumeAt);
    }

    method AdvanceSchedule(id: StepId) returns (failure: Option<StepFailure>, ghost m: Move)
      requires Valid() && Executing(plan, View(), id) && plan.steps[id].kind.Schedule? && inFlight[id].Started?
      modifies this
      ensures Valid() && stored == old(stored) && clock >= old(clock)
      ensures IsSegment(plan, old(View()), m, id) && View() == After(plan, old(View()), m) && moves == old(moves) + [m]
      ensures failure == FailureOf(plan, m)
      ensures ObeysSchedule(m, plan.steps[id].schedule.GetOr(ScheduleSpec(None, None)), old(clock), clock)
    {
      var spec := plan.steps[id].schedule.GetOr(ScheduleSpec(None, None));
      var first := Now();
      var resumeAt := if spec.resumeAt.Some? then spec.resumeAt.value else first + spec.delayMs.GetOr(0);
      var second := Now();
      if resumeAt <= second {
        var third := Now();
        m := Finish(id, ResumedAt(third));
        FinishStep(id, ResumedAt(third));
      } else {
        m := Park(id, steps[id].approvalId, Some(resumeAt));
        ParkStep(id, steps[id].approvalId, Some(resumeAt));
      }
      failure := None;
    }

    method AdvanceEvent(id: StepId) returns (failure: Option<StepFailure>, ghost m: Move)
      requires Valid() && Executing(plan, View(), id) && plan.steps[id].kind.Event? && inFlight[id].Started?
      modifies this
      ensures Valid() && stored == old(stored) && clock >= old(clock)
      ensures IsSegment(plan, old(View()), m, id) && View() == After(plan, old(View()), m) && moves == old(moves) + [m]
      ensures failure == FailureOf(plan, m)
      ensures m.Park? && var timeout := plan.steps[id].event.GetOr(EventSpec("", None)).timeoutMs;
        if TruthyNumber(timeout) then m.resumeAt.Some? && old(clock) <= m.resumeAt.value - timeout.value <= clock
          else m.resumeAt == old(steps[id]).resumeAt
    {
      var spec := plan.steps[id].event.GetOr(EventSpec("", None));
      var resumeAt := steps[id].resumeAt;
      if TruthyNumber(spec.timeoutMs) {
        var now := Now();
        resumeAt := Some(now + spec.timeoutMs.value);
      }
      m := Park(id, steps[id].approvalId, resumeAt);
      ParkStep(id, steps[id].approvalId, resumeAt);
      failure := None;
    }

    /** The next segment of one step call in flight. */
    method Advance(id: StepId) returns (failure: Option<StepFailure>, ghost m: Move)
      requires Valid() && id in inFlight
      modifies this
      ensures Valid() && stored == old(stored) && clock >= old(clock)
      ensures IsSegment(plan, old(View()), m, id) && View() == After(plan, old(View()), m) && moves == old(moves) + [m]
      ensures failure == FailureOf(plan, m)
    {
      InFlightFacts(id);
      if inFlight[id].SkipOwed? {
        m := SkipAfter(id);
        SkipAfterFailure(id);
        return None, m;
      }
      match plan.steps[id].kind {
        case Action => failure, m := AdvanceAction(id);
        case Conditional => failure, m := AdvanceCondition(id);
        case Approval => failure, m := AdvanceApproval(id);
        case Schedule => failure, m := AdvanceSchedule(id);
        case Event => failure, m := AdvanceEvent(id);
      }
    }

    // --- a batch -------------------------------------------------------------------------

    method BeginSlice(slice: seq<StepDef>, ghost later: set<StepId>)
      requires Valid() && status.RunRunning? && inFlight == map[] && NoneFatal(plan, steps)
      requires UniqueIds(slice) && AllReady(plan, steps, slice, later) && |slice| <= maxStepConcurrency
      modifies this`steps, this`inFlight, this`begun, this`moves, this`trace
      ensures Valid() && NoneFatal(plan, steps) && AllReady(plan, steps, [], later)
      ensures AllInSlice(View(), slice) && WithinSlots(trace, |old(trace)|, maxStepConcurrency)
      ensures old(moves) <= moves && PendingSteps(steps) <= old(PendingSteps(steps))
      ensures slice != [] ==> PendingSteps(steps) < old(PendingSteps(steps))
    {
      for i := 0 to |slice|
        invariant Valid() && NoneFatal(plan, steps) && AllReady(plan, steps, slice[i..], later)
        invariant AllInSlice(View(), slice) && WithinSlots(trace, |old(trace)|, maxStepConcurrency)
        invariant old(moves) <= moves && PendingSteps(steps) <= old(PendingSteps(steps))
        invariant i > 0 ==> PendingSteps(steps) < old(PendingSteps(steps))
      {
        BeginMember(slice, i, later, |old(trace)|);
      }
    }

    method BeginMember(slice: seq<StepDef>, i: nat, ghost later: set<StepId>, ghost from: nat)
      requires Valid() && status.RunRunning? && NoneFatal(plan, steps) && UniqueIds(slice)
        && i < |slice| <= maxStepConcurrency
      requires AllReady(plan, steps, slice[i..], later) && AllInSlice(View(), slice)
        && WithinSlots(trace, from, maxStepConcurrency)
      modifies this`steps, this`inFlight, this`begun, this`moves, this`trace
      ensures Valid() && NoneFatal(plan, steps) && AllReady(plan, steps, slice[i + 1..], later)
      ensures AllInSlice(View(), slice) && WithinSlots(trace, from, maxStepConcurrency)
      ensures old(moves) <= moves && PendingSteps(steps) < old(PendingSteps(steps))
    {
      assert slice[i] in slice[i..] && slice[i..][1..] == slice[i + 1..];
      BeginKeepsReady(plan, trace, moves, View(), slice[i..], later);
      ghost var traceBefore, movesBefore := trace, moves;
      BeginStep(slice[i]);
      assert InSlice(slice, slice[i].id);
      SlotsOneMore(plan, traceBefore, movesBefore, trace, moves, Begin(slice[i].id), slice, from, maxStepConcurrency);
    }

    /** One slice of a batch: every member is begun, then their segments interleave in any order. */
    method RunSlice(slice: seq<StepDef>, ghost later: set<StepId>) returns (fatal: Option<StepFailure>)
      requires Valid() && status.RunRunning? && inFlight == map[] && NoneFatal(plan, steps)
      requires UniqueIds(slice) && AllReady(plan, steps, slice, later) && |slice| <= maxStepConcurrency
      modifies this
      ensures Valid() && status.RunRunning? && inFlight == map[] && stored == old(stored) && clock >= old(clock)
      ensures fatal.None? <==> NoneFatal(plan, steps)
      ensures fatal.Some? ==>
        Fatal(plan, steps, fatal.value.stepId)
          && fatal.value.error == steps[fatal.value.stepId].error.GetOr("step failed")
      ensures fatal.Some? ==> InSlice(slice, fatal.value.stepId)
      ensures AllReady(plan, steps, [], later) && WithinSlots(trace, |old(trace)|, maxStepConcurrency)
      ensures old(moves) <= moves && PendingSteps(steps) <= old(PendingSteps(steps))
      ensures slice != [] ==> PendingSteps(steps) < old(PendingSteps(steps))
    {
      BeginSlice(slice, later);
      ghost var begunPending := PendingSteps(steps);
      var outcomes: map<StepId, StepFailure> := map[];
      while inFlight != map[]
        invariant Valid() && status.RunRunning? && stored == old(stored) && clock >= old(clock)
        invariant SliceProgress(plan, View(), slice, later, outcomes)
          && WithinSlots(trace, |old(trace)|, maxStepConcurrency)
        invariant old(moves) <= moves && PendingSteps(steps) <= begunPending
        decreases WorkLeft(plan, View(), slice)
      {
        outcomes := AdvanceMember(slice, later, outcomes, |old(trace)|);
      }
      fatal := FirstOutcome(slice, outcomes);
    }

    /** The next segment of any one member, whichever it is, and what it reports. */
    method AdvanceMember(slice: seq<StepDef>, ghost later: set<StepId>, outcomes: map<StepId, StepFailure>,
                         ghost from: nat)
      returns (reported: map<StepId, StepFailure>)
      requires Valid() && status.RunRunning? && inFlight != map[] && UniqueIds(slice) && |slice| <= maxStepConcurrency
      requires SliceProgress(plan, View(), slice, later, outcomes) && WithinSlots(trace, from, maxStepConcurrency)
      modifies this
      ensures Valid() && status.RunRunning? && stored == old(stored) && clock >= old(clock)
      ensures SliceProgress(plan, View(), slice, later, reported) && WithinSlots(trace, from, maxStepConcurrency)
      ensures old(moves) <= moves && PendingSteps(steps) <= old(PendingSteps(steps))
      ensures WorkLeft(plan, View(), slice) < old(WorkLeft(plan, View(), slice))
    {
      var id :| id in inFlight;
      ghost var before := View();
      ghost var traceBefore, movesBefore := trace, moves;
      var failure, m := Advance(id);
      SegmentKeepsProgress(plan, traceBefore, movesBefore, before, m, id, slice, later, outcomes);
      reported := if failure.Some? then outcomes[id := failure.value] else outcomes;
      SlotsOneMore(plan, traceBefore, movesBefore, trace, moves, m, slice, from, maxStepConcurrency);
    }

    /** Runs ready steps, at most `maxStepConcurrency` at a time, stopping after a slice that failed fatally. */
    method RunBatch(ready: seq<StepDef>) returns (fatal: Option<StepFailure>)
      requires Valid() && status.RunRunning? && inFlight == map[] && NoneFatal(plan, steps)
      requires ready != [] && UniqueIds(ready) && forall step :: step in ready ==> Ready(plan, steps, step.id)
      modifies this
      ensures Valid() && status.RunRunning? && inFlight == map[] && stored == old(stored) && clock >= old(clock)
      ensures fatal.None? <==> NoneFatal(plan, steps)
      ensures fatal.Some? ==>
        Fatal(plan, steps, fatal.value.stepId)
          && fatal.value.error == steps[fatal.value.stepId].error.GetOr("step failed")
      ensures WithinSlots(trace, |old(trace)|, maxStepConcurrency)
      ensures old(moves) <= moves && PendingSteps(steps) < old(PendingSteps(steps))
    {
      fatal := None;
      var i := 0;
      while i < |ready|
        invariant 0 <= i <= |ready|
        invariant Valid() && status.RunRunning? && inFlight == map[] && stored == old(stored) && clock >= old(clock)
        invariant fatal.None? && NoneFatal(plan, steps) && WithinSlots(trace, |old(trace)|, maxStepConcurrency)
        invariant forall k :: i <= k < |ready| ==> Ready(plan, steps, ready[k].id)
        invariant old(moves) <= moves && PendingSteps(steps) <= old(PendingSteps(steps))
        invariant i > 0 ==> PendingSteps(steps) < old(PendingSteps(steps))
      {
        var end := if i + maxStepConcurrency < |ready| then i + maxStepConcurrency else |ready|;
        fatal := RunPart(ready, i, end, |old(trace)|);
        if fatal.Some? {
          return;
        }
        i := end;
      }
    }

    /** One slice of the ready list; the slices after it stay ready. */
    method RunPart(ready: seq<StepDef>, i: nat, end: nat, ghost from: nat) returns (fatal: Option<StepFailure>)
      requires Valid() && status.RunRunning? && inFlight == map[] && NoneFatal(plan, steps) && UniqueIds(ready)
      requires i < end <= |ready| && end - i <= maxStepConcurrency
        && forall k :: i <= k < |ready| ==> Ready(plan, steps, ready[k].id)
      requires WithinSlots(trace, from, maxStepConcurrency)
      modifies this
      ensures Valid() && status.RunRunning? && inFlight == map[] && stored == old(stored) && clock >= old(clock)
      ensures fatal.None? <==> NoneFatal(plan, steps)
      ensures fatal.Some? ==>
        Fatal(plan, steps, fatal.value.stepId)
          && fatal.value.error == steps[fatal.value.stepId].error.GetOr("step failed")
      ensures WithinSlots(trace, from, maxStepConcurrency)
        && forall k :: end <= k < |ready| ==> Ready(plan, steps, ready[k].id)
      ensures old(moves) <= moves && PendingSteps(steps) < old(PendingSteps(steps))
    {
      var slice := ready[i..end];
      ghost var later := set k | end <= k < |ready| :: ready[k].id;
      ghost var traceBefore, movesBefore := trace, moves;
      fatal := RunSlice(slice, later);
      SlotsJoin(plan, traceBefore, movesBefore, trace, moves, from, maxStepConcurrency);
    }

    // --- waiting steps -------------------------------------------------------------------

    method SettleStep(id: StepId, output: Value)
      requires Valid() && Enabled(plan, View(), Settle(id, output))
      requires Answered(world, plan, View(), Settle(id, output))
      modifies this`steps, this`outputs, this`inFlight, this`order, this`moves, this`trace
      ensures Valid() && View() == After(plan, old(View()), Settle(id, output))
        && moves == old(moves) + [Settle(id, output)]
    {
      CompleteStep(id, output);
      Log(Settle(id, output));
    }

    /** A denied, expired or timed-out wait, with the skip a tolerated one owes. */
    method LapseStep(id: StepId, message: string)
      requires Valid() && status.RunRunning? && WaitingStep(plan, View(), id) && !plan.steps[id].kind.Schedule?
      requires Answered(world, plan, View(), Lapse(id, message))
      modifies this`steps, this`inFlight, this`moves, this`trace
      ensures Valid() && inFlight == map[] && moves == old(moves) + LapseMoves(plan.steps[id], message)
      ensures PendingSteps(steps) <= old(PendingSteps(steps)) && WaitersKept(old(steps), steps, id)
    {
      ghost var before, first := steps, moves;
      LapseMovesJoin(first, plan.steps[id], message);
      FailWait(id, message);
      if plan.steps[id].continueOnError {
        ghost var between := steps;
        SkipNow(id);
        WaitersKeptTwice(before, between, steps, id);
      }
    }

    /** A wait that ends badly; a tolerated one still owes the skip. */
    method FailWait(id: StepId, message: string)
      requires Valid() && status.RunRunning? && WaitingStep(plan, View(), id) && !plan.steps[id].kind.Schedule?
      requires Answered(world, plan, View(), Lapse(id, message))
      modifies this`steps, this`inFlight, this`moves, this`trace
      ensures Valid() && moves == old(moves) + [Lapse(id, message)]
      ensures inFlight == if plan.steps[id].continueOnError then map[id := SkipOwed] else map[]
      ensures id in steps
      ensures PendingSteps(steps) <= old(PendingSteps(steps)) && WaitersKept(old(steps), steps, id)
    {
      MoveKeepsWaiters(plan, View(), Lapse(id, message));
      PendingFallsOfTrace(plan, trace, moves, View(), Lapse(id, message));
      var failure := FailStep(id, message, Lapse(id, message));
    }

    /** The skip a lapsed wait still owes. */
    method SkipNow(id: StepId)
      requires Valid() && id in plan.steps && id in steps && id in inFlight && inFlight[id] == SkipOwed
      modifies this`steps, this`inFlight, this`moves, this`trace
      ensures Valid() && inFlight == old(inFlight) - {id} && moves == old(moves) + [SkipAfter(id)]
      ensures PendingSteps(steps) <= old(PendingSteps(steps)) && WaitersKept(old(steps), steps, id)
    {
      MoveKeepsWaiters(plan, View(), SkipAfter(id));
      PendingFallsOfTrace(plan, trace, moves, View(), SkipAfter(id));
      SkipAfterFailure(id);
    }

    /** A wait that ends well. */
    method EndWait(id: StepId, output: Value)
      requires Valid() && WaitingStep(plan, View(), id) && status.RunRunning?
      requires MaySettle(plan.steps[id].kind, status, steps[id], output)
      requires Answered(world, plan, View(), Settle(id, output))
      modifies this`steps, this`outputs, this`inFlight, this`order, this`moves, this`trace
      ensures Valid() && inFlight == map[] && moves == old(moves) + [Settle(id, output)]
      ensures PendingSteps(steps) <= old(PendingSteps(steps)) && WaitersKept(old(steps), steps, id)
    {
      MoveKeepsWaiters(plan, View(), Settle(id, output));
      PendingFallsOfTrace(plan, trace, moves, View(), Settle(id, output));
      SettleStep(id, output);
    }

    /** Re-checks one waiting step against the gate and the clock. */
    method SettleWaitingStep(step: StepDef, now: int)
      requires Valid() && status.RunRunning? && inFlight == map[]
      requires step.id in plan.steps && plan.steps[step.id] == step && step.id in steps
        && steps[step.id].status.Waiting?
      modifies this`steps, this`outputs, this`inFlight, this`order, this`lookups, this`moves, this`trace
      ensures Valid() && inFlight == map[]
      ensures moves == old(moves) + SettleMoves(world, step, old(steps[step.id]), now, old(lookups))
      ensures lookups == old(lookups) + LookupsOf(world, step, old(steps))
      ensures PendingSteps(steps) <= old(PendingSteps(steps)) && WaitersKept(old(steps), steps, step.id)
      ensures !DueStep(old(steps[step.id]), now) ==> View() == old(View())
    {
      var state := steps[step.id];
      if LooksUp(world, step, state) {
        CheckWaitingApproval(step, state.approvalId.value);
        return;
      }
      if state.resumeAt.None? || state.resumeAt.value > now {
        return;
      }
      if step.kind.Schedule? {
        EndWait(step.id, ResumedAt(now));
      } else if step.kind.Event? {
        LapseStep(step.id, "timed out waiting for event");
      }
    }

    /** Asks the gate about a waiting approval and acts on its verdict. */
    method CheckWaitingApproval(step: StepDef, approvalId: string)
      requires Valid() && status.RunRunning? && inFlight == map[] && step.kind.Approval? && world.gateConfigured
      requires step.id in plan.steps && plan.steps[step.id] == step && step.id in steps
        && steps[step.id].status.Waiting?
      requires steps[step.id].approvalId == Some(approvalId)
      modifies this`steps, this`outputs, this`inFlight, this`order, this`lookups, this`moves, this`trace
      ensures Valid() && inFlight == map[] && lookups == old(lookups) + 1
      ensures moves == old(moves) + VerdictMoves(step, approvalId, world.verdict(approvalId, old(lookups)))
      ensures PendingSteps(steps) <= old(PendingSteps(steps)) && WaitersKept(old(steps), steps, step.id)
    {
      var verdict := world.verdict(approvalId, lookups);
      lookups := lookups + 1;
      match verdict {
        case Granted => EndWait(step.id, ApprovedBy(approvalId));
        case Denied => LapseStep(step.id, DENIED);
        case Expired => LapseStep(step.id, EXPIRED);
        case ApprovalPending =>
      }
    }

    /** Re-checks approvals, schedule delays and event timeouts, in definition order. */
    method SettleWaitingSteps(now: int)
      requires Valid() && status.RunRunning? && inFlight == map[]
      modifies this`steps, this`outputs, this`inFlight, this`order, this`lookups, this`moves, this`trace
      ensures Valid() && status.RunRunning? && inFlight == map[]
      ensures moves == old(moves) + RoundMoves(world, definition.steps, old(steps), now, old(lookups))
      ensures lookups == old(lookups) + Lookups(world, definition.steps, old(steps))
      ensures PendingSteps(steps) <= old(PendingSteps(steps))
      ensures !Due(old(steps), now) ==> View() == old(View())
    {
      ghost var before, first, asked := steps, moves, lookups;
      for k := 0 to |definition.steps|
        invariant Valid() && status.RunRunning? && inFlight == map[]
        invariant RoundAt(world, definition, before, steps, first, moves, asked, lookups, now, k)
        invariant PendingSteps(steps) <= old(PendingSteps(steps))
        invariant !Due(before, now) ==> View() == old(View())
      {
        ghost var was, done, sofar := steps, moves, lookups;
        SettleIfWaiting(definition.steps[k], now);
        RoundGoesOn(world, definition, before, was, steps, first, done, moves, asked, sofar, lookups, now, k);
      }
      RoundIsOver(world, definition, before, steps, first, moves, asked, lookups, now);
    }

    method SettleIfWaiting(step: StepDef, now: int)
      requires Valid() && status.RunRunning? && inFlight == map[] && step.id in plan.steps
        && plan.steps[step.id] == step
      modifies this`steps, this`outputs, this`inFlight, this`order, this`lookups, this`moves, this`trace
      ensures Valid() && status.RunRunning? && inFlight == map[]
      ensures moves == old(moves) + RoundMovesOf(world, step, old(steps), now, old(lookups))
      ensures lookups == old(lookups) + LookupsOf(world, step, old(steps))
      ensures PendingSteps(steps) <= old(PendingSteps(steps)) && WaitersKept(old(steps), steps, step.id)
      ensures !Due(old(steps), now) ==> View() == old(View())
    {
      if step.id in steps && steps[step.id].status.Waiting? {
        SettleWaitingStep(step, now);
      }
    }

    // --- endings -------------------------------------------------------------------------

    method Save()
      modifies this`stored
      ensures stored == View().run
    {
      stored := Run(status, steps, outputs, error);
    }

    method CompleteRun()
      requires Valid() && Enabled(plan, View(), Conclude)
      modifies this`status, this`stored, this`moves, this`trace
      ensures Valid() && View() == After(plan, old(View()), Conclude) && old(moves) <= moves && stored == View().run
    {
      var fatal := FatalFailure();
      status := if fatal.Some? then RunFailed else RunCompleted;
      Log(Conclude);
      Save();
    }

    /** Completed steps with a compensator, latest completion first. */
    method UndoOrder() returns (ids: seq<StepId>)
      requires Valid()
      ensures forall id :: id in ids <==> Undoable(plan, steps, id)
      ensures Descending(steps, ids)
    {
      ids := [];
      for k := 0 to |definition.steps|
        invariant SortedAmong(ids, k)
      {
        ids := AddUndoable(ids, k);
      }
      forall id | Undoable(plan, steps, id) ensures id in ids {
        var j :| 0 <= j < |definition.steps| && definition.steps[j].id == id;
      }
    }

    /** The undoable steps among the first `k`, latest completion first. */
    ghost predicate SortedAmong(ids: seq<StepId>, k: nat)
      reads this
    {
      && k <= |definition.steps| && Descending(steps, ids)
      && (forall id :: id in ids ==> Undoable(plan, steps, id))
      && (forall j :: 0 <= j < k && Undoable(plan, steps, definition.steps[j].id) ==> definition.steps[j].id in ids)
      && (forall id :: id in ids ==> exists j :: 0 <= j < k && definition.steps[j].id == id)
    }

    method AddUndoable(ids: seq<StepId>, k: nat) returns (longer: seq<StepId>)
      requires Valid() && k < |definition.steps| && SortedAmong(ids, k)
      ensures SortedAmong(longer, k + 1)
    {
      var step := definition.steps[k];
      if step.id in steps && steps[step.id].status.Completed? && TruthyText(step.compensate) {
        DistinctNumbers(plan, trace, moves, View(), step.id);
        longer := InsertDescending(steps, ids, step.id);
      } else {
        longer := ids;
      }
    }

    /** Invokes one compensator; a throwing one leaves the step completed. */
    method UndoOne(id: StepId) returns (worked: bool)
      requires Valid() && Enabled(plan, View(), Undo(id, true))
      modifies this`steps, this`undone, this`moves, this`trace
      ensures Valid() && moves == old(moves) + [Undo(id, worked)] && undone == old(undone) + [id]
      ensures worked == CompensatorWorks(world, outputs, id)
      ensures steps == if worked then old(steps)[id := old(steps[id]).(status := Compensated)] else old(steps)
    {
      worked := world.compensator(HandlerCall(id, 1, outputs)).Returned?;
      if worked {
        steps := steps[id := steps[id].(status := Compensated)];
      }
      undone := undone + [id];
      Log(Undo(id, worked));
    }

    /** The compensation loop. */
    method UndoAll(completed: seq<StepId>)
      requires Valid() && status.Compensating? && undone == []
      requires Descending(steps, completed) && forall id :: id in completed ==> Undoable(plan, steps, id)
      modifies this`steps, this`undone, this`moves, this`trace
      ensures Valid() && old(moves) <= moves
      ensures UndoProgress(plan, old(steps), steps, completed, undone, world.registered, |completed|)
      ensures CompensatedAsAnswered(world, outputs, steps, undone)
    {
      ghost var before := steps;
      for i := 0 to |completed|
        invariant Valid() && old(moves) <= moves
        invariant UndoProgress(plan, before, steps, completed, undone, world.registered, i)
        invariant CompensatedAsAnswered(world, outputs, steps, undone)
      {
        UndoNext(completed, i, before);
      }
    }

    method UndoNext(completed: seq<StepId>, i: nat, ghost before: States)
      requires Valid() && status.Compensating? && i < |completed|
      requires UndoProgress(plan, before, steps, completed, undone, world.registered, i)
      requires CompensatedAsAnswered(world, outputs, steps, undone)
      modifies this`steps, this`undone, this`moves, this`trace
      ensures Valid() && old(moves) <= moves
      ensures UndoProgress(plan, before, steps, completed, undone, world.registered, i + 1)
      ensures CompensatedAsAnswered(world, outputs, steps, undone)
    {
      var id := completed[i];
      NotYetUndone(plan, before, steps, completed, undone, world.registered, i);
      if !CanCompensate(plan, world.registered, id) {
        UndoSkipProgress(plan, before, steps, completed, undone, world.registered, i);
        return;
      }
      ghost var steps0, undone0 := steps, undone;
      var worked := UndoOne(id);
      UndoneAsAnswered(world, outputs, steps0, undone0, id, steps, worked);
      UndoStepProgress(plan, before, steps0, completed, undone0, world.registered, i, worked);
    }

    /** Compensates completed steps in reverse completion order, then ends the run. */
    method FailRun(failure: StepFailure)
      requires Valid() && status.RunRunning? && inFlight == map[]
      requires Fatal(plan, steps, failure.stepId) && failure.error == steps[failure.stepId].error.GetOr("step failed")
      modifies this`status, this`error, this`steps, this`undone, this`stored, this`moves, this`trace
      ensures Valid() && stored == View().run && old(moves) <= moves
      ensures status == if AnyCompensated(steps) then RunCompensated else RunFailed
      ensures error == Some(failure) && Descending(old(steps), undone)
        && PendingSteps(steps) == old(PendingSteps(steps))
      ensures forall id :: id in undone <==> Undoable(plan, old(steps), id) && CanCompensate(plan, world.registered, id)
      ensures forall id :: id in old(steps) ==>
        id in steps && (steps[id] == old(steps[id])
          || (id in undone && steps[id] == old(steps[id]).(status := Compensated)))
      ensures CompensatedAsAnswered(world, outputs, steps, undone)
    {
      NothingUndoneYet(plan, trace, moves, View());
      status := Compensating;
      error := Some(failure);
      Log(GiveUp(failure.stepId));
      Save();
      ghost var before := steps;
      var completed := UndoOrder();
      UndoAll(completed);
      UndoFinished(plan, before, steps, completed, undone, world.registered);
      EndRun();
    }

    method EndRun()
      requires Valid() && status.Compensating?
      modifies this`status, this`stored, this`moves, this`trace
      ensures Valid() && stored == View().run && old(moves) <= moves
      ensures status == if AnyCompensated(steps) then RunCompensated else RunFailed
    {
      var any := exists id :: id in steps && steps[id].status.Compensated?;
      status := if any then RunCompensated else RunFailed;
      Log(EndUndo);
      Save();
    }

    /** Whatever has ended so far, in this run, is explained by what the world answered. */
    lemma AnswersDecide()
      requires Valid()
      ensures Explained(world, plan, View())
      ensures forall id :: id in plan.steps && id in steps && plan.steps[id].kind.Action? ==>
        DecidedByHandler(world, plan.steps[id], AttemptLimit(plan, id), steps[id], CallsOf(calls, id))
    {
      AnswersExplainTrace(world, plan, trace, moves);
      forall id | id in plan.steps && id in steps && plan.steps[id].kind.Action?
        ensures DecidedByHandler(world, plan.steps[id], AttemptLimit(plan, id), steps[id], CallsOf(calls, id))
      {
        HandlersDecide(world, plan, trace, moves, View(), id);
      }
    }

    // --- the driver ----------------------------------------------------------------------

    /** Between calls the store holds the run; after a cancel only the stored copy counts. */
    ghost predicate AtRest()
      reads this
    {
      stored.status.Cancelled?
        || (stored == View().run && inFlight == map[] && !status.RunRunning? && !status.Compensating?)
    }

    /** `cancel` works on the stored copy: what has ended stays, everything else is skipped. */
    method Cancel() returns (result: Run)
      modifies this`stored
      ensures result == stored == CancelledRun(old(stored))
      ensures old(stored.status) in {RunCompleted, RunFailed, RunCompensated, Cancelled} ==> stored == old(stored)
      ensures old(stored.status) in {RunPending, RunRunning, Suspended, Compensating} ==>
        && stored.status.Cancelled? && stored.outputs == old(stored.outputs) && stored.error == old(stored.error)
        && stored.steps.Keys == old(stored.steps.Keys)
        && forall id :: id in stored.steps ==>
             stored.steps[id] == if old(stored.steps)[id].status in {Pending, Running, Waiting}
               then old(stored.steps)[id].(status := Skipped) else old(stored.steps)[id]
    {
      if !IsTerminal(stored.status) {
        stored := stored.(status := Cancelled, steps := SkipUnfinished(stored.steps));
      }
      result := stored;
    }

    /** Nothing is ready: the run waits, or is over. */
    method SuspendOrComplete()
      requires Valid() && status.RunRunning? && inFlight == map[] && NoneFatal(plan, steps) && NoneReady(plan, steps)
      modifies this`status, this`stored, this`moves, this`trace
      ensures Valid() && AtRest() && EndsWell(plan, View(), stored) && old(moves) <= moves
      ensures stored == Run(if AnyWaiting(steps) then Suspended else RunCompleted, steps, outputs, error)
    {
      var waiting := HasWaiting();
      if waiting {
        status := Suspended;
        Log(Suspend);
        Save();
      } else {
        CompleteRun();
      }
    }

    /** Saves the failed run and undoes what can be undone. */
    method SaveAndFail(failure: StepFailure)
      requires Valid() && status.RunRunning? && inFlight == map[]
      requires Fatal(plan, steps, failure.stepId) && failure.error == steps[failure.stepId].error.GetOr("step failed")
      modifies this`status, this`error, this`steps, this`undone, this`stored, this`moves, this`trace
      ensures Valid() && AtRest() && EndsWell(plan, View(), stored) && old(moves) <= moves
      ensures PendingSteps(stored.steps) == old(PendingSteps(steps))
    {
      Save();
      FailRun(failure);
    }

    /** The rest of a turn once steps are ready: a batch, and a cancel that may have come meanwhile. */
    method RunReady(ready: seq<StepDef>) returns (done: bool)
      requires Valid() && status.RunRunning? && inFlight == map[] && NoneFatal(plan, steps)
        && !IsTerminal(stored.status)
      requires ready != [] && UniqueIds(ready) && forall step :: step in ready ==> Ready(plan, steps, step.id)
      modifies this
      ensures Valid() && old(moves) <= moves
      ensures done ==> AtRest() && EndsWell(plan, View(), stored)
      ensures done && !stored.status.Cancelled? ==> PendingSteps(stored.steps) < old(PendingSteps(steps))
      ensures !done ==>
        status.RunRunning? && inFlight == map[] && !IsTerminal(stored.status)
          && PendingSteps(steps) < old(PendingSteps(steps))
    {
      var failure := RunBatch(ready);

      var cancelled := CancelArrives();
      if cancelled {
        var _ := Cancel();
        return true;
      }

      if failure.Some? {
        SaveAndFail(failure.value);
        return true;
      }
      Save();
      return false;
    }

    /** One turn of the loop; `done` when the driver returns. */
    method Turn(now: int) returns (done: bool)
      requires Valid() && status.RunRunning? && inFlight == map[] && !IsTerminal(stored.status)
      modifies this
      ensures Valid() && old(moves) <= moves
      ensures done ==> AtRest() && EndsWell(plan, View(), stored)
      ensures !done ==>
        status.RunRunning? && inFlight == map[] && !IsTerminal(stored.status)
          && PendingSteps(steps) < old(PendingSteps(steps))
      ensures old(!Due(steps, now) && NoneFatal(plan, steps) && NoneReady(plan, steps)) ==>
        done && stored == Run(if old(AnyWaiting(steps)) then Suspended
          else RunCompleted, old(steps), old(outputs), old(error))
      ensures old(!Due(steps, now) && NoneFatal(plan, steps) && !NoneReady(plan, steps)) && done ==>
        Moved(old(steps), stored)
      ensures done ==> !stored.status.Cancelled? ==> PendingSteps(stored.steps) <= old(PendingSteps(steps))
    {
      SettleWaitingSteps(now);
      done := Proceed();
    }

    /** The rest of a turn: fail, run what is ready, or come to rest. */
    method Proceed() returns (done: bool)
      requires Valid() && status.RunRunning? && inFlight == map[] && !IsTerminal(stored.status)
      modifies this
      ensures Valid() && old(moves) <= moves
      ensures done ==> AtRest() && EndsWell(plan, View(), stored)
      ensures !done ==>
        status.RunRunning? && inFlight == map[] && !IsTerminal(stored.status)
          && PendingSteps(steps) < old(PendingSteps(steps))
      ensures old(NoneFatal(plan, steps) && NoneReady(plan, steps)) ==>
        done && stored == Run(if old(AnyWaiting(steps)) then Suspended
          else RunCompleted, old(steps), old(outputs), old(error))
      ensures old(NoneFatal(plan, steps) && !NoneReady(plan, steps)) && done ==> Moved(old(steps), stored)
      ensures done && !stored.status.Cancelled? ==> PendingSteps(stored.steps) <= old(PendingSteps(steps))
    {
      var settled := FatalFailure();
      if settled.Some? {
        SaveAndFail(settled.value);
        return true;
      }

      var ready := ReadySteps();
      if ready == [] {
        NothingReady(definition, plan, steps, ready);
        SuspendOrComplete();
        return true;
      }

      SomethingReady(plan, steps, ready);
      done := RunReady(ready);
    }

    /**
     * Drives the run until it completes, fails or suspends. `first` is the clock reading of the
     * first settle. A cancel may arrive while a batch is running; then the driver hands back the
     * stored run and saves nothing over it.
     *
     * When the filter of `tick` finds nothing due at `first`, driving leaves every step as it was
     * exactly if no step is ready.
     */
    method Drive(first: int) returns (result: Run)
      requires Valid() && AtRest() && (stored.status.RunPending? || stored.status.Suspended?)
      modifies this
      ensures Valid() && AtRest() && result == stored && old(moves) < moves
      ensures EndsWell(plan, View(), result)
      ensures old(!Due(steps, first) && NoneFatal(plan, steps)) ==>
        (result.steps == old(steps) <==> old(NoneReady(plan, steps)))
      ensures old(status.Suspended? && !Due(steps, first) && NoneFatal(plan, steps) && NoneReady(plan, steps)
        && AnyWaiting(steps)) ==>
        result == old(stored)
    {
      SetRunning();
      var done := Turn(first);
      if done {
        return stored;
      }
      result := KeepDriving();
    }

    method SetRunning()
      requires Valid() && Enabled(plan, View(), RunMachine.Drive)
      modifies this`status, this`moves, this`trace
      ensures Valid() && status.RunRunning? && moves == old(moves) + [RunMachine.Drive]
    {
      status := RunRunning;
      Log(RunMachine.Drive);
    }

    /** The turns after the first. */
    method KeepDriving() returns (result: Run)
      requires Valid() && status.RunRunning? && inFlight == map[] && !IsTerminal(stored.status)
      modifies this
      ensures Valid() && AtRest() && result == stored && old(moves) <= moves && EndsWell(plan, View(), result)
      ensures !result.status.Cancelled? ==> PendingSteps(result.steps) <= old(PendingSteps(steps))
    {
      while true
        invariant Valid() && status.RunRunning? && inFlight == map[] && old(moves) <= moves
          && !IsTerminal(stored.status)
        invariant PendingSteps(steps) <= old(PendingSteps(steps))
        decreases PendingSteps(steps)
      {
        var now := Now();
        var done := Turn(now);
        if done {
          return stored;
        }
      }
    }

    /** Re-drives a suspended run; any other is returned as it is. */
    method Resume(now: int) returns (result: Run)
      requires Valid() && AtRest()
      modifies this
      ensures Valid() && AtRest() && result == stored && old(moves) <= moves
      ensures !old(stored.status).Suspended? ==> result == old(stored) && moves == old(moves)
      ensures old(stored.status).Suspended? ==> EndsWell(plan, View(), result) && old(moves) < moves
      ensures old(stored.status.Suspended? && !Due(stored.steps, now)) ==>
        (result.steps == old(stored.steps) <==> old(NoneReady(plan, stored.steps)))
    {
      if !stored.status.Suspended? {
        return stored;
      }
      SuspendedIsNotFatal(plan, trace, moves, View());
      result := Drive(now);
    }

    /** Completes every step waiting for this event; the run is saved, still suspended, and driven on. */
    method NotifyEvent(eventType: string, payload: int, now: int) returns (result: Option<Run>)
      requires Valid() && AtRest()
      modifies this
      ensures Valid() && AtRest() && old(moves) <= moves
      ensures result.None? <==>
        !old(stored.status).Suspended?
          || !exists step :: step in definition.steps && Awaits(step, old(stored.steps), eventType)
      ensures result.None? ==> View() == old(View()) && stored == old(stored)
      ensures result.Some? ==> result.value == stored && EndsWell(plan, View(), stored)
      ensures result.Some? ==> old(moves) + Deliveries(definition.steps, old(stored.steps), eventType, payload) <= moves
    {
      if !stored.status.Suspended? {
        return None;
      }
      var matched := DeliverEvent(eventType, payload);
      if !matched {
        return None;
      }
      Save();
      var run := Drive(now);
      result := Some(run);
    }

    /** The loop of `notifyEvent`: every step waiting for this type completes with the payload. */
    method DeliverEvent(eventType: string, payload: int) returns (matched: bool)
      requires Valid() && status.Suspended? && inFlight == map[]
      modifies this`steps, this`outputs, this`inFlight, this`order, this`moves, this`trace
      ensures Valid() && inFlight == map[]
        && moves == old(moves) + Deliveries(definition.steps, old(steps), eventType, payload)
      ensures DeliveredUpTo(definition, old(steps), steps, eventType, |definition.steps|)
      ensures matched <==> exists step :: step in definition.steps && Awaits(step, old(steps), eventType)
      ensures !matched ==> View() == old(View())
    {
      matched := false;
      ghost var before, first := steps, moves;
      for k := 0 to |definition.steps|
        invariant Valid() && status.Suspended? && inFlight == map[]
        invariant DeliveringAt(definition, before, steps, first, moves, eventType, payload, k)
        invariant matched <==> exists j :: 0 <= j < k && Awaits(definition.steps[j], before, eventType)
        invariant !matched ==> View() == old(View())
      {
        ghost var was, done := steps, moves;
        var awaited := DeliverTo(definition.steps[k], eventType, payload);
        DeliveringNext(definition, before, was, steps, first, done, moves, eventType, payload, k);
        matched := matched || awaited;
      }
      WholePrefix(definition.steps);
    }

    /** Completes one step if it waits for this event. */
    method DeliverTo(step: StepDef, eventType: string, payload: int) returns (awaited: bool)
      requires Valid() && status.Suspended? && inFlight == map[] && step.id in plan.steps && plan.steps[step.id] == step
      modifies this`steps, this`outputs, this`inFlight, this`order, this`moves, this`trace
      ensures Valid() && status.Suspended? && inFlight == map[] && awaited == Awaits(step, old(steps), eventType)
      ensures !awaited ==> View() == old(View()) && moves == old(moves)
      ensures awaited ==>
        View() == After(plan, old(View()), Settle(step.id, Data(payload)))
          && moves == old(moves) + [Settle(step.id, Data(payload))]
      ensures awaited ==>
        step.id in steps && steps == old(steps)[step.id := steps[step.id]] && steps[step.id].status.Completed?
    {
      awaited := Awaits(step, steps, eventType);
      if awaited {
        WaitersAreKnown(plan, trace, moves, View(), step.id);
        SettleStep(step.id, Data(payload));
      }
    }
  }

  // --- starting a run ----------------------------------------------------------------------

  function MissingHandlers(d: Definition, registered: set<string>): set<string> {
    (set step | step in d.steps && TruthyText(step.handler) && step.handler.value !in registered :: step.handler.value)
    + (set step | step in d.steps && TruthyText(step.compensate)
      && step.compensate.value !in registered :: step.compensate.value)
  }

  /** A name is missing exactly when some step asks for it, as handler or compensator, and nobody registered it. */
  lemma MissingExactly(d: Definition, registered: set<string>, name: string)
    ensures name in MissingHandlers(d, registered) <==>
      && name != "" && name !in registered
      && exists step :: step in d.steps && (step.handler == Some(name) || step.compensate == Some(name))
  {
    if step :| step in d.steps && (step.handler == Some(name) || step.compensate == Some(name)) {}
  }

  /** Refuses to start while a handler is missing; otherwise creates the run and drives it. */
  method Start(d: Definition, maxStepConcurrency: nat, world: World, now: int)
    returns (r: Result<WorkflowExecutor, set<string>>)
    requires Validated(d) && maxStepConcurrency >= 1
    ensures r.Failure? <==> MissingHandlers(d, world.registered) != {}
    ensures r.Failure? ==> r.error == MissingHandlers(d, world.registered)
    ensures r.Success? ==> fresh(r.value) && r.value.Valid() && r.value.AtRest() && r.value.definition == d
    ensures r.Success? ==> EndsWell(r.value.plan, r.value.View(), r.value.stored) && r.value.world == world
  {
    var missing := MissingHandlers(d, world.registered);
    if missing != {} {
      return Failure(missing);
    }
    var executor := new WorkflowExecutor(d, maxStepConcurrency, world, now);
    var _ := executor.Drive(now);
    return Success(executor);
  }
}
