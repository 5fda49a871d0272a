/** What holds of every run: consequences of the invariant kept by every move. */
module RunTheorems {
  import opened Wrappers
  import opened WorkflowTypes
  import opened RunMachine
  import opened RunInvariants

  ghost predicate Reachable(p: Plan, moves: seq<Move>, s: Sys) {
    Sound(p) && Replay(p, moves) == Some(s)
  }

  // --- no run gets stuck -------------------------------------------------------------------

  /** The driver has found nothing to begin, nothing to wait for and nothing fatal. */
  ghost predicate OutOfWork(p: Plan, s: Sys) {
    s.inFlight == map[] && NoneFatal(p, s.run.steps) && NoneReady(p, s.run.steps) && !AnyWaiting(s.run.steps)
      && !InUndo(s.run.status)
  }

  ghost predicate AllSettled(p: Plan, s: Sys) {
    forall id :: id in p.steps ==> id in s.run.steps && Settled(p, s.run.steps, id)
  }

  /** Some step waits for good on an approval that `request` itself refused. */
  ghost predicate Stranded(p: Plan, s: Sys) {
    exists id, dep :: Needs(p, id, dep) && dep in s.refused && id in s.run.steps && !s.run.steps[id].status.Skipped?
  }

  lemma OutOfWorkSettledOrPending(p: Plan, s: Sys, id: StepId)
    requires Inv(p, s) && OutOfWork(p, s) && id in p.steps
    ensures s.run.steps[id].status.Pending? || Settled(p, s.run.steps, id)
  {
    assert StageFits(p, s, id);
    assert !Fatal(p, s.run.steps, id);
  }

  /** A pending step then waits on another pending step, or on a refused approval. */
  lemma PendingBlame(p: Plan, s: Sys, id: StepId) returns (dep: StepId)
    requires Sound(p) && Inv(p, s) && OutOfWork(p, s)
    requires id in p.steps && s.run.steps[id].status.Pending?
    ensures Needs(p, id, dep) && dep in p.steps && (s.run.steps[dep].status.Pending? || dep in s.refused)
  {
    assert !Ready(p, s.run.steps, id);
    dep :| Needs(p, id, dep) && !s.run.steps[dep].status.Completed?;
    OutOfWorkSettledOrPending(p, s, dep);
    assert !Blocks(p, s, dep);
  }

  lemma RefusedDependentsUntouched(p: Plan, s: Sys, id: StepId, dep: StepId)
    requires Inv(p, s) && Needs(p, id, dep) && dep in s.refused && id in s.run.steps
    ensures s.run.steps[id].Untouched()
  {
    assert RefusedStep(p, s, dep);
    OrderIsDone(p, s);
  }

  /** Every step has come to rest, except exactly when a refused approval stranded one. */
  lemma OutOfWorkIsSettled(p: Plan, s: Sys)
    requires Sound(p) && Inv(p, s) && OutOfWork(p, s)
    ensures AllSettled(p, s) <==> !Stranded(p, s)
  {
    if !AllSettled(p, s) && !Stranded(p, s) {
      var stuck := set id | id in p.steps && s.run.steps[id].status.Pending?;
      forall id | id in p.steps ensures id in stuck || Settled(p, s.run.steps, id) {
        OutOfWorkSettledOrPending(p, s, id);
      }
      forall id | id in stuck ensures WaitsOn(Edges(p), id, stuck) {
        var dep := PendingBlame(p, s, id);
        assert IsEdge(Edges(p), id, dep);
      }
      MutualWaitIsACycle(Edges(p), stuck);
    }
    if Stranded(p, s) {
      var id, dep :| Needs(p, id, dep) && dep in s.refused && id in s.run.steps && !s.run.steps[id].status.Skipped?;
      RefusedDependentsUntouched(p, s, id, dep);
      assert !Settled(p, s.run.steps, id);
    }
  }

  /** A run the engine reports completed has no step pending, running or waiting. */
  lemma CompletedRunIsSettled(p: Plan, moves: seq<Move>, s: Sys)
    requires Reachable(p, moves, s) && s.run.status.RunCompleted?
    ensures AllSettled(p, s) <==> !Stranded(p, s)
    ensures s.refused == {} ==> AllSettled(p, s)
  {
    RunKeepsInv(p, moves);
    OutOfWorkIsSettled(p, s);
  }

  function StepNamed(id: StepId, kind: StepKind, dependsOn: seq<StepId>, continueOnError: bool): StepDef {
    StepDef(id, "step", kind, dependsOn, Some("handler"), None, false, Some(ApprovalSpec("reason", None)), None, None,
            None, continueOnError)
  }

  /** A tolerated approval step and an action that depends on it. */
  function AskThenAct(ask: StepId, act: StepId): Plan {
    Plan(map[ask := StepNamed(ask, Approval, [], true), act := StepNamed(act, Action, [ask], false)], None)
  }

  lemma AskThenActIsSound(ask: StepId, act: StepId)
    requires ask != act
    ensures Sound(AskThenAct(ask, act))
  {
    var p := AskThenAct(ask, act);
    forall id, dep | IsEdge(Edges(p), id, dep) ensures id == act && dep == ask {}
    RankedIsAcyclic(Edges(p), map[ask := 0, act := 1]);
  }

  /** The state after the approval has been begun and refused. */
  ghost function AskRefused(ask: StepId, act: StepId): Sys {
    var p := AskThenAct(ask, act);
    Refusing(p, Beginning(SetStatus(Initial(p), RunRunning), ask), ask, "a1", "approval denied")
  }

  lemma AskRefusedReached(ask: StepId, act: StepId)
    requires ask != act
    ensures Replay(AskThenAct(ask, act), [Drive, Begin(ask), Refuse(ask, "a1", "approval denied")]) ==
      Some(AskRefused(ask, act))
  {
    var p := AskThenAct(ask, act);
    var s1 := SetStatus(Initial(p), RunRunning);
    ReplayOne(p, [], Initial(p), Drive);
    ReplayOne(p, [Drive], s1, Begin(ask));
    assert [Drive] + [Begin(ask)] == [Drive, Begin(ask)];
    ReplayOne(p, [Drive, Begin(ask)], Beginning(s1, ask), Refuse(ask, "a1", "approval denied"));
    assert [Drive, Begin(ask)] + [Refuse(ask, "a1", "approval denied")] ==
      [Drive, Begin(ask), Refuse(ask, "a1", "approval denied")];
  }

  /** A tolerated approval refused outright: the run completes with its dependent still pending. */
  lemma RefusedApprovalStrandsDependent(ask: StepId, act: StepId) returns (moves: seq<Move>, s: Sys)
    requires ask != act
    ensures Reachable(AskThenAct(ask, act), moves, s) && s.run.status.RunCompleted?
    ensures act in s.run.steps && s.run.steps[act].status.Pending?
  {
    AskThenActIsSound(ask, act);
    AskRefusedReached(ask, act);
    var p, before := AskThenAct(ask, act), AskRefused(ask, act);
    assert before.inFlight == map[];
    assert Needs(p, act, ask) && !Ready(p, before.run.steps, act);
    moves := [Drive, Begin(ask), Refuse(ask, "a1", "approval denied")];
    ReplayOne(p, moves, before, Conclude);
    moves, s := moves + [Conclude], SetStatus(before, RunCompleted);
  }

  lemma ReplayOne(p: Plan, moves: seq<Move>, s: Sys, m: Move)
    requires Replay(p, moves) == Some(s) && Enabled(p, s, m)
    ensures Replay(p, moves + [m]) == Some(After(p, s, m))
  {
    assert (moves + [m])[..|moves|] == moves;
  }

  // --- statuses only move forward ----------------------------------------------------------

  function Level(status: StepStatus): nat {
    match status
    case Pending => 0
    case Running => 1
    case Waiting => 2
    case Completed => 3
    case Failed => 3
    case Skipped => 3
    case Compensated => 4
  }

  /** A step either keeps its status or moves to a later level; `Skipped` and `Failed` are final. */
  predicate Forward(a: StepStatus, b: StepStatus) {
    a == b || (Level(a) < Level(b) && !a.Skipped? && !a.Failed?)
  }

  ghost predicate AllForward(a: States, b: States) {
    a.Keys == b.Keys && forall id :: id in a ==> Forward(a[id].status, b[id].status)
  }

  lemma StepMoveForward(p: Plan, s: Sys, m: Move)
    requires Shaped(p, s) && Enabled(p, s, m) && IsStepMove(m)
    ensures m.id in s.run.steps && m.id in After(p, s, m).run.steps
    ensures Forward(s.run.steps[m.id].status, After(p, s, m).run.steps[m.id].status)
    ensures !After(p, s, m).run.steps[m.id].status.Pending?
  {
    StepMoveTouches(p, s, m);
    assert StageFits(p, s, m.id);
  }

  lemma TouchForward(s: Sys, t: Sys, id: StepId)
    requires Touches(s, t, id) && Forward(s.run.steps[id].status, t.run.steps[id].status)
    ensures AllForward(s.run.steps, t.run.steps)
  {
  }

  lemma MoveIsForward(p: Plan, s: Sys, m: Move)
    requires Shaped(p, s) && Enabled(p, s, m)
    ensures AllForward(s.run.steps, After(p, s, m).run.steps)
  {
    if IsStepMove(m) {
      StepMoveTouches(p, s, m);
      StepMoveForward(p, s, m);
      TouchForward(s, After(p, s, m), m.id);
    }
  }

  /** Between any two points of any run every step has kept its status or moved forward. */
  lemma {:induction false} RunIsForward(p: Plan, moves: seq<Move>, i: nat)
    requires Sound(p) && i <= |moves| && Replay(p, moves).Some?
    ensures Replay(p, moves[..i]).Some?
    ensures AllForward(Replay(p, moves[..i]).value.run.steps, Replay(p, moves).value.run.steps)
    decreases |moves|
  {
    if i == |moves| {
      assert moves[..i] == moves;
    } else {
      var init := moves[..|moves| - 1];
      RunIsForward(p, init, i);
      assert init[..i] == moves[..i];
      RunKeepsInv(p, init);
      MoveIsForward(p, Replay(p, init).value, moves[|moves| - 1]);
    }
  }

  // --- progress ----------------------------------------------------------------------------

  ghost function PendingSteps(steps: States): set<StepId> {
    set id | id in steps && steps[id].status.Pending?
  }

  lemma ForwardPending(a: States, b: States)
    requires AllForward(a, b)
    ensures PendingSteps(b) <= PendingSteps(a)
  {
  }

  /** No step ever returns to pending, and beginning one leaves fewer. */
  lemma PendingOnlyFalls(p: Plan, s: Sys, m: Move)
    requires Shaped(p, s) && Enabled(p, s, m)
    ensures PendingSteps(After(p, s, m).run.steps) <= PendingSteps(s.run.steps)
    ensures m.Begin? ==> PendingSteps(After(p, s, m).run.steps) < PendingSteps(s.run.steps)
  {
    MoveIsForward(p, s, m);
    ForwardPending(s.run.steps, After(p, s, m).run.steps);
    if m.Begin? {
      assert m.id in PendingSteps(s.run.steps) && m.id !in PendingSteps(Beginning(s, m.id).run.steps);
    }
  }

  // --- completion order and compensation ---------------------------------------------------

  lemma InOrderMeansDone(p: Plan, s: Sys, id: StepId) returns (i: nat)
    requires Numbered(p, s) && id in s.order
    ensures i < |s.order| && s.order[i] == id && Entered(s, i)
  {
    i :| 0 <= i < |s.order| && s.order[i] == id;
    assert Entered(s, i);
  }

  /** Along any dependency walk from a completed step every step completed, each earlier than the last. */
  lemma {:induction false} DependenciesCompletedEarlier(p: Plan, s: Sys, c: seq<StepId>)
    requires Numbered(p, s) && IsWalk(Edges(p), c) && |c| >= 2 && c[0] in s.order
    ensures c[|c| - 1] in s.order && Later(s.run.steps, c[0], c[|c| - 1])
  {
    var i := InOrderMeansDone(p, s, c[0]);
    assert IsEdge(Edges(p), c[0], c[1]) && Needs(p, c[0], c[1]);
    assert Before(s.order, i, c[1]);
    var j :| 0 <= j < i && s.order[j] == c[1];
    assert Entered(s, j);
    if |c| > 2 {
      var tail := c[1..];
      DependenciesCompletedEarlier(p, s, tail);
      assert tail[0] == c[1] && tail[|tail| - 1] == c[|c| - 1];
    }
  }

  /** `id` depends on `dep`, directly or through others. */
  ghost predicate DependsOn(p: Plan, id: StepId, dep: StepId) {
    exists c :: IsWalk(Edges(p), c) && |c| >= 2 && c[0] == id && c[|c| - 1] == dep
  }

  lemma NumberedExactly(p: Plan, s: Sys, id: StepId)
    requires Numbered(p, s) && id in s.run.steps
    ensures s.run.steps[id].sequence.Some? <==> s.run.steps[id].Done()
    ensures s.run.steps[id].sequence.Some? ==>
      1 <= s.run.steps[id].sequence.value <= |s.order| && s.order[s.run.steps[id].sequence.value - 1] == id
  {
    if id in s.order {
      var i := InOrderMeansDone(p, s, id);
    }
  }

  ghost predicate HasNumber(steps: States, id: StepId, n: nat) {
    id in steps && steps[id].sequence == Some(n)
  }

  ghost predicate NumberTaken(steps: States, n: nat) {
    exists id :: HasNumber(steps, id, n)
  }

  /** Completion numbers are exactly 1..k, one completed step each. */
  lemma CompletionNumbers(p: Plan, moves: seq<Move>, s: Sys)
    requires Reachable(p, moves, s)
    ensures forall n: nat :: NumberTaken(s.run.steps, n) <==> 1 <= n <= |s.order|
    ensures forall a, b, n: nat :: HasNumber(s.run.steps, a, n) && HasNumber(s.run.steps, b, n) ==> a == b
    ensures forall id :: id in s.run.steps ==> (s.run.steps[id].sequence.Some? <==> s.run.steps[id].Done())
  {
    RunKeepsInv(p, moves);
    NumberedExactlyAll(p, s);
  }

  lemma NumberedExactlyAll(p: Plan, s: Sys)
    requires Numbered(p, s)
    ensures forall n: nat :: NumberTaken(s.run.steps, n) <==> 1 <= n <= |s.order|
    ensures forall a, b, n: nat :: HasNumber(s.run.steps, a, n) && HasNumber(s.run.steps, b, n) ==> a == b
    ensures forall id :: id in s.run.steps ==> (s.run.steps[id].sequence.Some? <==> s.run.steps[id].Done())
  {
    forall n: nat | 1 <= n <= |s.order| ensures NumberTaken(s.run.steps, n) {
      assert Entered(s, n - 1);
      assert HasNumber(s.run.steps, s.order[n - 1], n);
    }
    forall id, n: nat | HasNumber(s.run.steps, id, n) ensures 1 <= n <= |s.order| && s.order[n - 1] == id {
      NumberedExactly(p, s, id);
    }
    forall id | id in s.run.steps ensures s.run.steps[id].sequence.Some? <==> s.run.steps[id].Done() {
      NumberedExactly(p, s, id);
    }
  }

  /** A completed step's number exceeds those of all its transitive dependencies. */
  lemma CompletionIsTopological(p: Plan, moves: seq<Move>, s: Sys, id: StepId, dep: StepId)
    requires Reachable(p, moves, s) && id in s.run.steps && s.run.steps[id].Done() && DependsOn(p, id, dep)
    ensures Later(s.run.steps, id, dep)
  {
    RunKeepsInv(p, moves);
    var c :| IsWalk(Edges(p), c) && |c| >= 2 && c[0] == id && c[|c| - 1] == dep;
    DependenciesCompletedEarlier(p, s, c);
  }

  /** A step is undone before anything it depended on, and no compensator runs twice. */
  lemma CompensationIsReverseTopological(p: Plan, moves: seq<Move>, s: Sys)
    requires Reachable(p, moves, s)
    ensures forall i, j :: 0 <= i < j < |s.undone| ==> Later(s.run.steps, s.undone[i], s.undone[j])
    ensures NoDuplicates(s.undone)
    ensures forall i, j :: 0 <= i < |s.undone| && 0 <= j < |s.undone| && DependsOn(p, s.undone[i], s.undone[j]) ==>
      i < j
  {
    RunKeepsInv(p, moves);
    UndoneTopologically(p, s);
  }

  lemma UndoneTopologically(p: Plan, s: Sys)
    requires Numbered(p, s) && UndoneInOrder(s)
    ensures NoDuplicates(s.undone)
    ensures forall i, j :: 0 <= i < |s.undone| && 0 <= j < |s.undone| && DependsOn(p, s.undone[i], s.undone[j]) ==>
      i < j
  {
    forall i, j | 0 <= j < i < |s.undone| ensures !Later(s.run.steps, s.undone[i], s.undone[j]) {
      assert Later(s.run.steps, s.undone[j], s.undone[i]);
    }
    forall i, j | 0 <= i < |s.undone| && 0 <= j < |s.undone| && DependsOn(p, s.undone[i], s.undone[j]) ensures i < j {
      var c :| IsWalk(Edges(p), c) && |c| >= 2 && c[0] == s.undone[i] && c[|c| - 1] == s.undone[j];
      DependenciesCompletedEarlier(p, s, c);
    }
    forall i, j | 0 <= i < j < |s.undone| ensures s.undone[i] != s.undone[j] {
      assert Later(s.run.steps, s.undone[i], s.undone[j]);
    }
  }

  /** Steps begin once, handlers are called within their limit and shown what they depend on. */
  lemma HandlersAreAccounted(p: Plan, moves: seq<Move>, s: Sys)
    requires Reachable(p, moves, s)
    ensures NoDuplicates(s.begun)
    ensures forall id :: id in p.steps ==> CountCalls(s.calls, id) <= AttemptLimit(p, id)
    ensures forall call, dep :: call in s.calls && Needs(p, call.step, dep) ==>
      dep in call.outputs && dep in s.run.outputs && call.outputs[dep] == s.run.outputs[dep]
    ensures forall id :: id in s.run.outputs <==> id in s.run.steps && s.run.steps[id].Done()
  {
    RunKeepsInv(p, moves);
    forall id | id in p.steps ensures CountCalls(s.calls, id) <= AttemptLimit(p, id) {
      assert CallsCounted(p, s, id);
    }
    forall call, dep | call in s.calls && Needs(p, call.step, dep)
      ensures dep in call.outputs && dep in s.run.outputs && call.outputs[dep] == s.run.outputs[dep]
    {
      var i :| 0 <= i < |s.calls| && s.calls[i] == call;
      assert SawDependencies(p, s.run, s.calls[i]);
    }
    forall id | id in s.order ensures id in s.run.steps && s.run.steps[id].Done() {
      var i := InOrderMeansDone(p, s, id);
    }
  }

  // --- skips -------------------------------------------------------------------------------

  /** Walking up from a step about to block, everything downstream is pending until it is skipped. */
  lemma {:induction false} DownstreamPendingOrSkipped(p: Plan, s: Sys, from: StepId, c: seq<StepId>)
    requires Sound(p) && AboutToSkip(p, s, from)
    requires IsWalk(Edges(p), c) && |c| >= 2 && c[|c| - 1] == from
    ensures c[0] in p.steps && s.run.steps[c[0]].Untouched()
    ensures s.run.steps[c[0]].status.Pending? ==> PendingDownstream(p, s.run.steps, from, c[0])
  {
    assert IsEdge(Edges(p), c[0], c[1]) && Needs(p, c[0], c[1]);
    if |c| == 2 {
      if s.run.steps[c[0]].status.Pending? {
        ChainExtends(p, s.run.steps, from, from, c[0]);
      }
    } else {
      var tail := c[1..];
      DownstreamPendingOrSkipped(p, s, from, tail);
      assert tail[0] == c[1];
      if s.run.steps[c[1]].status.Skipped? {
        assert Blocks(p, s, c[1]);
        assert c[1] != from;
      } else {
        assert s.run.steps[c[1]].status.Pending?;
        if s.run.steps[c[0]].status.Pending? {
          ChainExtends(p, s.run.steps, from, c[1], c[0]);
        }
      }
    }
  }

  lemma {:induction false} ChainIsDependency(p: Plan, steps: States, c: seq<StepId>)
    requires PendingChain(p, steps, c)
    ensures DependsOn(p, c[|c| - 1], c[0])
  {
    var walk := seq(|c|, i requires 0 <= i < |c| => c[|c| - 1 - i]);
    forall i, j | 0 <= i < j < |walk| && j - i == 1 ensures IsEdge(Edges(p), walk[i], walk[j]) {
      assert Needs(p, c[|c| - 1 - i], c[|c| - 1 - j]);
    }
    assert IsWalk(Edges(p), walk);
  }

  /**
   * Beside the step `from` itself, exactly its pending transitive dependents changed, and all its
   * dependents are skipped.
   */
  ghost predicate SkipsExactlyBelow(p: Plan, before: States, after: States, from: StepId) {
    && before.Keys == after.Keys
    && (forall x :: x in before && x != from ==>
         (after[x] != before[x] <==> before[x].status.Pending? && DependsOn(p, x, from)))
    && (forall x :: x in before && x != from && DependsOn(p, x, from) ==> after[x].status.Skipped?)
  }

  /** The skip marks exactly the pending transitive dependents, and afterwards none is left. */
  lemma SkipMarksBelow(p: Plan, s: Sys, from: StepId)
    requires Sound(p) && AboutToSkip(p, s, from)
    ensures SkipsExactlyBelow(p, s.run.steps, SkipFrom(p, s.run.steps, from), from)
  {
    SkipFromOnlySkips(p, s.run.steps, from);
    forall id | id in s.run.steps && PendingDownstream(p, s.run.steps, from, id) ensures DependsOn(p, id, from) {
      var c :| PendingChain(p, s.run.steps, c) && c[0] == from && c[|c| - 1] == id;
      ChainIsDependency(p, s.run.steps, c);
    }
    forall id | id in s.run.steps && DependsOn(p, id, from)
      ensures s.run.steps[id].Untouched()
        && (s.run.steps[id].status.Pending? ==> PendingDownstream(p, s.run.steps, from, id))
    {
      var c :| IsWalk(Edges(p), c) && |c| >= 2 && c[0] == id && c[|c| - 1] == from;
      DownstreamPendingOrSkipped(p, s, from, c);
    }
  }

  /** The moves that skip: the skip a tolerated failure owes, and a conditional that said no. */
  ghost predicate SkippingMove(p: Plan, s: Sys, m: Move) {
    Enabled(p, s, m) && (m.SkipAfter? || (m.Finish? && RejectedBy(p, m.id, m.output)))
  }

  lemma OwedSkipMarks(p: Plan, s: Sys, from: StepId)
    requires Sound(p) && Inv(p, s) && from in p.steps && InStage(s, from, SkipOwed)
    ensures SkipsExactlyBelow(p, s.run.steps, Skipping(p, s, from).run.steps, from)
  {
    SkipOwedIsAboutToSkip(p, s, from);
    SkipMarksBelow(p, s, from);
  }

  lemma RejectionMarks(p: Plan, s: Sys, from: StepId, output: Value)
    requires Sound(p) && Inv(p, s) && Executing(p, s, from) && RejectedBy(p, from, output)
    ensures SkipsExactlyBelow(p, s.run.steps, Skipping(p, Completing(s, from, output), from).run.steps, from)
  {
    var done := Completing(s, from, output);
    RejectingIsAboutToSkip(p, s, from, output);
    SkipMarksBelow(p, done, from);
    SkipsBelowEither(p, s.run.steps, done.run.steps, Skipping(p, done, from).run.steps, from);
  }

  lemma SkipsBelowEither(p: Plan, before: States, done: States, after: States, from: StepId)
    requires SkipsExactlyBelow(p, done, after, from) && from in before && from in done
      && done == before[from := done[from]]
    ensures SkipsExactlyBelow(p, before, after, from)
  {
  }

  /**
   * In every run, such a move changes exactly the pending transitive dependents of its step, and
   * leaves all of them skipped.
   */
  lemma SkipMarksPendingDependents(p: Plan, moves: seq<Move>, s: Sys, m: Move)
    requires Reachable(p, moves, s) && SkippingMove(p, s, m)
    ensures SkipsExactlyBelow(p, s.run.steps, After(p, s, m).run.steps, m.id)
  {
    RunKeepsInv(p, moves);
    if m.SkipAfter? {
      OwedSkipMarks(p, s, m.id);
    } else {
      RejectionMarks(p, s, m.id, m.output);
    }
  }

  /** Between batches every dependent, near or far, of a blocking step is skipped. */
  lemma {:induction false} BlockedDependentsAreSkipped(p: Plan, s: Sys, c: seq<StepId>)
    requires Sound(p) && Shaped(p, s) && SkipsClosed(p, s)
    requires IsWalk(Edges(p), c) && |c| >= 2 && Blocks(p, s, c[|c| - 1])
    ensures c[0] in s.run.steps && s.run.steps[c[0]].status.Skipped?
  {
    assert IsEdge(Edges(p), c[0], c[1]);
    if |c| > 2 {
      var tail := c[1..];
      BlockedDependentsAreSkipped(p, s, tail);
      assert tail[0] == c[1];
    }
    DependentOfBlocked(p, s, c[0], c[1]);
  }

  lemma DependentOfBlocked(p: Plan, s: Sys, id: StepId, dep: StepId)
    requires Sound(p) && Shaped(p, s) && SkipsClosed(p, s) && IsEdge(Edges(p), id, dep)
    requires Blocks(p, s, dep) || (dep in s.run.steps && s.run.steps[dep].status.Skipped?)
    ensures id in s.run.steps && s.run.steps[id].status.Skipped?
  {
    assert Needs(p, id, dep) && Blocks(p, s, dep);
  }

  /** Members of one ready batch are never downstream of one another. */
  lemma ReadyStepsAreIndependent(p: Plan, s: Sys, a: StepId, b: StepId)
    requires Numbered(p, s) && Ready(p, s.run.steps, a) && Ready(p, s.run.steps, b)
    ensures !DependsOn(p, a, b)
  {
    if DependsOn(p, a, b) {
      var c :| IsWalk(Edges(p), c) && |c| >= 2 && c[0] == a && c[|c| - 1] == b;
      assert IsEdge(Edges(p), c[0], c[1]) && Needs(p, c[0], c[1]);
      if |c| > 2 {
        var tail := c[1..];
        DependenciesCompletedEarlier(p, s, tail);
        assert tail[|tail| - 1] == b;
      }
      var i := InOrderMeansDone(p, s, b);
    }
  }

  /** A ready step stays ready until it is begun itself: nothing skipped mid-batch is later executed. */
  lemma ReadyUntilBegun(p: Plan, s: Sys, m: Move, id: StepId)
    requires Inv(p, s) && Enabled(p, s, m) && Ready(p, s.run.steps, id)
    requires s.run.status.RunRunning? && m != Begin(id)
    ensures Ready(p, After(p, s, m).run.steps, id)
  {
    if IsStepMove(m) {
      StepMoveKeepsReady(p, s, m, id);
    }
  }

  lemma StepMoveKeepsReady(p: Plan, s: Sys, m: Move, id: StepId)
    requires Shaped(p, s) && Enabled(p, s, m) && Ready(p, s.run.steps, id) && IsStepMove(m)
    requires s.run.status.RunRunning? && m != Begin(id)
    ensures Ready(p, After(p, s, m).run.steps, id)
  {
    StepMoveTouches(p, s, m);
    assert StageFits(p, s, m.id);
    assert m.id != id;
    StepMoveUnfinished(p, s, m);
    StaysPending(p, s, m, id);
  }

  lemma StaysPending(p: Plan, s: Sys, m: Move, id: StepId)
    requires Shaped(p, s) && Enabled(p, s, m) && Ready(p, s.run.steps, id) && IsStepMove(m) && m.id != id
    ensures After(p, s, m).run.steps[id].status.Pending?
  {
    assert StageFits(p, s, m.id);
    if m.SkipAfter? || m.Finish? {
      var before := if m.Finish? then Completing(s, m.id, m.output).run.steps else s.run.steps;
      if PendingDownstream(p, before, m.id, id) {
        var dep := ChainLastLink(p, before, m.id, id);
        if dep != m.id {
          var _ := ChainLastLink(p, before, m.id, dep);
        }
      }
    }
  }
}
