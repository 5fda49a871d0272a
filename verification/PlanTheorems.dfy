/** What can be read off a definition before any run of it starts. */
module PlanTheorems {
  import opened Wrappers
  import opened WorkflowTypes
  import opened Validator
  import opened RunMachine
  import opened RunInvariants
  import opened RunTheorems

  /** An approval whose refusal the run tolerates. */
  predicate ToleratedApproval(p: Plan, id: StepId) {
    id in p.steps && p.steps[id].kind.Approval? && p.steps[id].continueOnError
  }

  ghost predicate KindsKnown(p: Plan) {
    forall id :: id in p.steps ==> !p.steps[id].kind.UnknownKind?
  }

  /** No step depends on a tolerated approval. */
  ghost predicate NoneBehindApproval(p: Plan) {
    forall id, dep :: Needs(p, id, dep) ==> !ToleratedApproval(p, dep)
  }

  ghost predicate CompletesUnsettled(p: Plan, moves: seq<Move>) {
    Replay(p, moves).Some? && Replay(p, moves).value.run.status.RunCompleted? && !AllSettled(p, Replay(p, moves).value)
  }

  // --- a run that refuses one approval and finishes everything else it can -----------------

  /** Between batches of such a run a step is pending, at rest, or waits for an event or for its time. */
  ghost predicate CalmStep(p: Plan, st: StepState, x: StepId, ask: StepId) {
    || (st.status.Pending? && st.attempts == 0)
    || (st.status.Completed? && x != ask)
    || (st.status.Failed? && x == ask)
    || (st.status.Waiting? && x in p.steps && MayWait(p.steps[x], st.approvalId, st.resumeAt)
      && !p.steps[x].kind.Approval?)
  }

  ghost predicate Calm(p: Plan, s: Sys, ask: StepId, act: StepId) {
    && Quiet(s) && s.run.steps.Keys == p.steps.Keys && ask in p.steps && act in p.steps
    && (forall x :: x in s.run.steps ==> CalmStep(p, s.run.steps[x], x, ask))
    && s.run.steps[act].status.Pending?
  }

  function WaitingSteps(steps: States): set<StepId> {
    set id | id in steps && steps[id].status.Waiting?
  }

  /** `t` is `s` with one step in another state. */
  ghost predicate OneChanged(s: Sys, t: Sys, x: StepId) {
    && x in s.run.steps && x in t.run.steps && t.run.steps == s.run.steps[x := t.run.steps[x]]
    && t.run.status == s.run.status && t.inFlight == s.inFlight
  }

  ghost predicate Begun(s: Sys, t: Sys, x: StepId) {
    OneChanged(s, t, x) && !t.run.steps[x].status.Pending?
  }

  lemma BegunStaysCalm(p: Plan, s: Sys, t: Sys, x: StepId, ask: StepId, act: StepId)
    requires Calm(p, s, ask, act) && Begun(s, t, x) && x != act && s.run.steps[x].status.Pending?
    requires CalmStep(p, t.run.steps[x], x, ask)
    ensures Calm(p, t, ask, act) && PendingSteps(t.run.steps) < PendingSteps(s.run.steps)
  {
    assert x in PendingSteps(s.run.steps);
  }

  lemma RefuseIt(p: Plan, moves: seq<Move>, s: Sys, ask: StepId) returns (more: seq<Move>, t: Sys)
    requires Replay(p, moves) == Some(s) && Quiet(s) && Ready(p, s.run.steps, ask) && p.steps[ask].kind.Approval?
    ensures Replay(p, more) == Some(t) && Begun(s, t, ask) && t.run.steps[ask].status.Failed?
  {
    var begun := Beginning(s, ask);
    ReplayOne(p, moves, s, Begin(ask));
    ReplayOne(p, moves + [Begin(ask)], begun, Refuse(ask, "a1", "approval denied"));
    more := moves + [Begin(ask)] + [Refuse(ask, "a1", "approval denied")];
    t := Refusing(p, begun, ask, "a1", "approval denied");
  }

  lemma FinishAction(p: Plan, moves: seq<Move>, s: Sys, x: StepId) returns (more: seq<Move>, t: Sys)
    requires Replay(p, moves) == Some(s) && Quiet(s) && Ready(p, s.run.steps, x) && p.steps[x].kind.Action?
    requires s.run.steps[x].attempts == 0
    ensures Replay(p, more) == Some(t) && Begun(s, t, x) && t.run.steps[x].status.Completed?
  {
    var begun := Beginning(s, x);
    var called := Calling(begun, x);
    ReplayOne(p, moves, s, Begin(x));
    ReplayOne(p, moves + [Begin(x)], begun, CallHandler(x));
    ReplayOne(p, moves + [Begin(x)] + [CallHandler(x)], called, Finish(x, Data(0)));
    more := moves + [Begin(x)] + [CallHandler(x)] + [Finish(x, Data(0))];
    t := Completing(called, x, Data(0));
  }

  lemma FinishAtOnce(p: Plan, moves: seq<Move>, s: Sys, x: StepId) returns (more: seq<Move>, t: Sys)
    requires Replay(p, moves) == Some(s) && Quiet(s) && Ready(p, s.run.steps, x)
    requires p.steps[x].kind.Approval? || p.steps[x].kind.Conditional?
    ensures Replay(p, more) == Some(t) && Begun(s, t, x) && t.run.steps[x].status.Completed?
  {
    var begun, output := Beginning(s, x), if p.steps[x].kind.Approval? then ApprovedBy("a1") else Verdict(true);
    ReplayOne(p, moves, s, Begin(x));
    ReplayOne(p, moves + [Begin(x)], begun, Finish(x, output));
    more := moves + [Begin(x)] + [Finish(x, output)];
    t := Completing(begun, x, output);
  }

  /** An event waits without a deadline, a schedule until its time. */
  lemma ParkIt(p: Plan, moves: seq<Move>, s: Sys, x: StepId) returns (more: seq<Move>, t: Sys)
    requires Replay(p, moves) == Some(s) && Quiet(s) && Ready(p, s.run.steps, x)
    requires p.steps[x].kind.Event? || p.steps[x].kind.Schedule?
    ensures Replay(p, more) == Some(t) && Begun(s, t, x) && t.run.steps[x].status.Waiting?
    ensures MayWait(p.steps[x], t.run.steps[x].approvalId, t.run.steps[x].resumeAt)
  {
    var begun := Beginning(s, x);
    var until := if p.steps[x].kind.Event? then None else Some(FixedTime(p.steps[x]).GetOr(0));
    ReplayOne(p, moves, s, Begin(x));
    ReplayOne(p, moves + [Begin(x)], begun, Park(x, None, until));
    more := moves + [Begin(x)] + [Park(x, None, until)];
    t := Parking(begun, x, None, until);
  }

  lemma BeginOne(p: Plan, moves: seq<Move>, s: Sys, x: StepId, ask: StepId, act: StepId)
    returns (more: seq<Move>, t: Sys)
    requires Replay(p, moves) == Some(s) && Calm(p, s, ask, act) && Ready(p, s.run.steps, x)
    requires KindsKnown(p) && ToleratedApproval(p, ask) && Needs(p, act, ask)
    ensures Replay(p, more) == Some(t) && Calm(p, t, ask, act) && PendingSteps(t.run.steps) < PendingSteps(s.run.steps)
  {
    assert CalmStep(p, s.run.steps[ask], ask, ask) && CalmStep(p, s.run.steps[x], x, ask);
    assert x != act;
    if x == ask {
      more, t := RefuseIt(p, moves, s, x);
    } else if p.steps[x].kind.Action? {
      more, t := FinishAction(p, moves, s, x);
    } else if p.steps[x].kind.Event? || p.steps[x].kind.Schedule? {
      more, t := ParkIt(p, moves, s, x);
    } else {
      more, t := FinishAtOnce(p, moves, s, x);
    }
    BegunStaysCalm(p, s, t, x, ask, act);
  }

  /** The run is suspended and the event delivered; then it is driven on. */
  lemma DeliverIt(p: Plan, moves: seq<Move>, s: Sys, x: StepId) returns (more: seq<Move>, t: Sys)
    requires Replay(p, moves) == Some(s) && WaitingStep(p, s, x) && p.steps[x].kind.Event? && Enabled(p, s, Suspend)
    ensures Replay(p, more) == Some(t) && OneChanged(s, t, x) && t.run.steps[x].status.Completed?
  {
    var slept := SetStatus(s, Suspended);
    var told := Completing(slept, x, Data(0));
    ReplayOne(p, moves, s, Suspend);
    ReplayOne(p, moves + [Suspend], slept, Settle(x, Data(0)));
    ReplayOne(p, moves + [Suspend] + [Settle(x, Data(0))], told, Drive);
    more := moves + [Suspend] + [Settle(x, Data(0))] + [Drive];
    t := SetStatus(told, RunRunning);
  }

  /** The run is suspended until a schedule's time has come; then it is resumed. */
  lemma WaitForIt(p: Plan, moves: seq<Move>, s: Sys, x: StepId) returns (more: seq<Move>, t: Sys)
    requires Replay(p, moves) == Some(s) && WaitingStep(p, s, x) && p.steps[x].kind.Schedule? && Enabled(p, s, Suspend)
    requires s.run.steps[x].resumeAt.Some?
    ensures Replay(p, more) == Some(t) && OneChanged(s, t, x) && t.run.steps[x].status.Completed?
  {
    var slept, woken := SetStatus(s, Suspended), SetStatus(SetStatus(s, Suspended), RunRunning);
    var settle := Settle(x, ResumedAt(s.run.steps[x].resumeAt.value));
    ReplayOne(p, moves, s, Suspend);
    ReplayOne(p, moves + [Suspend], slept, Drive);
    ReplayOne(p, moves + [Suspend] + [Drive], woken, settle);
    more := moves + [Suspend] + [Drive] + [settle];
    t := Completing(woken, x, settle.output);
  }

  lemma EndOneWait(p: Plan, moves: seq<Move>, s: Sys, x: StepId, ask: StepId, act: StepId)
    returns (more: seq<Move>, t: Sys)
    requires Replay(p, moves) == Some(s) && Calm(p, s, ask, act) && NoneReady(p, s.run.steps)
    requires KindsKnown(p) && ToleratedApproval(p, ask) && x in s.run.steps && s.run.steps[x].status.Waiting?
    ensures Replay(p, more) == Some(t) && Calm(p, t, ask, act)
    ensures PendingSteps(t.run.steps) == PendingSteps(s.run.steps)
      && WaitingSteps(t.run.steps) < WaitingSteps(s.run.steps)
  {
    NothingFatal(p, s, ask, act);
    assert CalmStep(p, s.run.steps[x], x, ask);
    if p.steps[x].kind.Event? {
      more, t := DeliverIt(p, moves, s, x);
    } else {
      more, t := WaitForIt(p, moves, s, x);
    }
    assert x in WaitingSteps(s.run.steps);
  }

  lemma NothingFatal(p: Plan, s: Sys, ask: StepId, act: StepId)
    requires Calm(p, s, ask, act) && ToleratedApproval(p, ask)
    ensures NoneFatal(p, s.run.steps)
  {
    forall x ensures !Fatal(p, s.run.steps, x) {
      if x in s.run.steps {
        assert CalmStep(p, s.run.steps[x], x, ask);
      }
    }
  }

  /** Batches run while anything is ready; then the run sleeps until a wait can end, and so on. */
  lemma RunOutOfWork(p: Plan, moves: seq<Move>, s: Sys, ask: StepId, act: StepId) returns (more: seq<Move>, t: Sys)
    requires Replay(p, moves) == Some(s) && Calm(p, s, ask, act)
    requires KindsKnown(p) && ToleratedApproval(p, ask) && Needs(p, act, ask)
    ensures Replay(p, more) == Some(t) && Calm(p, t, ask, act)
    ensures NoneReady(p, t.run.steps) && !AnyWaiting(t.run.steps)
    decreases PendingSteps(s.run.steps), WaitingSteps(s.run.steps)
  {
    if !NoneReady(p, s.run.steps) {
      var x :| Ready(p, s.run.steps, x);
      more, t := BeginOne(p, moves, s, x, ask, act);
      more, t := RunOutOfWork(p, more, t, ask, act);
    } else if AnyWaiting(s.run.steps) {
      var x :| x in s.run.steps && s.run.steps[x].status.Waiting?;
      more, t := EndOneWait(p, moves, s, x, ask, act);
      more, t := RunOutOfWork(p, more, t, ask, act);
    } else {
      more, t := moves, s;
    }
  }

  /** A dependent of a tolerated approval can be stranded: some run completes with it still pending. */
  lemma DependentCanBeStranded(p: Plan, ask: StepId, act: StepId) returns (moves: seq<Move>)
    requires Sound(p) && KindsKnown(p) && ToleratedApproval(p, ask) && Needs(p, act, ask)
    ensures CompletesUnsettled(p, moves)
    ensures act in Replay(p, moves).value.run.steps && Replay(p, moves).value.run.steps[act].status.Pending?
  {
    var begun := SetStatus(Initial(p), RunRunning);
    ReplayOne(p, [], Initial(p), Drive);
    var t;
    moves, t := RunOutOfWork(p, [] + [Drive], begun, ask, act);
    NothingFatal(p, t, ask, act);
    ReplayOne(p, moves, t, Conclude);
    moves := moves + [Conclude];
  }

  lemma NoTrapNoStranding(p: Plan, s: Sys)
    requires NoneBehindApproval(p) && Inv(p, s)
    ensures !Stranded(p, s)
  {
    forall dep | dep in s.refused ensures ToleratedApproval(p, dep) {
      assert RefusedStep(p, s, dep);
    }
  }

  lemma ValidatedKindsKnown(d: Definition)
    requires Validated(d)
    ensures Sound(PlanOf(d)) && KindsKnown(PlanOf(d))
  {
    ValidatedIsSound(d);
    ByIdFaithful(d.steps);
  }

  /**
   * Every completed run of a validated definition has every step at rest, if and only if no step of
   * the definition depends on a tolerated approval.
   */
  lemma CompletionSettlesExactly(d: Definition)
    requires Validated(d)
    ensures NoneBehindApproval(PlanOf(d)) <==> forall moves :: !CompletesUnsettled(PlanOf(d), moves)
  {
    var p := PlanOf(d);
    ValidatedKindsKnown(d);
    if NoneBehindApproval(p) {
      forall moves ensures !CompletesUnsettled(p, moves) {
        if Replay(p, moves).Some? && Replay(p, moves).value.run.status.RunCompleted? {
          RunKeepsInv(p, moves);
          NoTrapNoStranding(p, Replay(p, moves).value);
          CompletedRunIsSettled(p, moves, Replay(p, moves).value);
        }
      }
    } else {
      var act, ask :| Needs(p, act, ask) && ToleratedApproval(p, ask);
      var moves := DependentCanBeStranded(p, ask, act);
    }
  }
}
