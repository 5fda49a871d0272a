/** What every move of a run keeps, and so what holds of every run. */
module RunInvariants {
  import opened Wrappers
  import opened WorkflowTypes
  import opened RunMachine

  // --- the invariant -----------------------------------------------------------------------

  /** Statuses, stages and waiting data fit together. */
  ghost predicate Shaped(p: Plan, s: Sys) {
    && s.run.steps.Keys == p.steps.Keys
    && (forall id :: id in s.inFlight ==> id in p.steps)
    && (forall id :: id in p.steps ==> StageFits(p, s, id))
    && (!s.run.status.RunRunning? ==> s.inFlight == map[])
    && (s.run.status.RunPending? ==> forall id :: id in p.steps ==> s.run.steps[id].status.Pending?)
    && (!InUndo(s.run.status) ==> s.undone == [] && forall id :: id in p.steps ==> !s.run.steps[id].status.Compensated?)
    && (s.run.status.Suspended? || s.run.status.RunCompleted? ==> NoneFatal(p, s.run.steps))
    && (s.run.status.RunCompleted? ==> NoneReady(p, s.run.steps) && !AnyWaiting(s.run.steps))
    && !s.run.status.Cancelled?
  }

  ghost predicate StageFits(p: Plan, s: Sys, id: StepId)
    requires id in p.steps && id in s.run.steps
  {
    var st := s.run.steps[id];
    && (st.status.Running? <==> InStage(s, id, Started) || InStage(s, id, Attempted))
    && (InStage(s, id, SkipOwed) ==> st.status.Failed? && p.steps[id].continueOnError)
    && (InStage(s, id, Attempted) ==> p.steps[id].kind.Action?)
    && (st.Untouched() || InStage(s, id, Started) ==> st.attempts == 0)
    && (st.status.Waiting? ==> MayWait(p.steps[id], st.approvalId, st.resumeAt))
  }

  predicate InUndo(status: RunStatus) { status.Compensating? || status.RunCompensated? || status.RunFailed? }

  /** Completion numbers are exactly 1..k and every dependency completed earlier. */
  ghost predicate Numbered(p: Plan, s: Sys) {
    && NoDuplicates(s.order)
    && s.run.outputs.Keys == (set id | id in s.order)
    && (forall i :: 0 <= i < |s.order| ==> Entered(s, i))
    && (forall id :: id in s.run.steps ==>
          (s.run.steps[id].Done() ==> id in s.order) && (s.run.steps[id].sequence.Some? ==> id in s.order))
    && (forall i, dep :: 0 <= i < |s.order| && Needs(p, s.order[i], dep) ==> Before(s.order, i, dep))
    && (forall id, dep :: Needs(p, id, dep) && id in s.run.steps && !s.run.steps[id].Untouched() ==> dep in s.order)
  }

  /** The i-th completion carries number i + 1 and its step's output is the run's. */
  ghost predicate Entered(s: Sys, i: nat)
    requires i < |s.order|
  {
    var id := s.order[i];
    && id in s.run.steps && s.run.steps[id].Done()
    && s.run.steps[id].sequence == Some(i + 1)
    && id in s.run.outputs && s.run.steps[id].output == Some(s.run.outputs[id])
  }

  ghost predicate Before(s: seq<StepId>, i: nat, id: StepId)
    requires i <= |s|
  {
    exists j :: 0 <= j < i && s[j] == id
  }

  /** A step whose dependents must all be skipped. */
  ghost predicate Blocks(p: Plan, s: Sys, id: StepId) {
    && id in p.steps && id in s.run.steps
    && var st := s.run.steps[id];
       || st.status.Skipped?
       || (st.status.Failed? && p.steps[id].continueOnError && id !in s.inFlight && id !in s.refused)
       || (p.steps[id].kind.Conditional? && st.Done() && st.output == Some(Verdict(false)))
  }

  /** Skipped steps are exactly those with a blocking dependency. */
  ghost predicate SkipsClosed(p: Plan, s: Sys) {
    && (forall id, dep :: Needs(p, id, dep) && id in s.run.steps && Blocks(p, s, dep) ==>
         s.run.steps[id].status.Skipped?)
    && (forall id :: id in s.run.steps && s.run.steps[id].status.Skipped? ==>
         exists dep :: Needs(p, id, dep) && Blocks(p, s, dep))
    && (forall id :: id in s.refused ==> RefusedStep(p, s, id))
  }

  ghost predicate RefusedStep(p: Plan, s: Sys, id: StepId) {
    && id in p.steps && id in s.run.steps && s.run.steps[id].status.Failed? && id !in s.inFlight
    && p.steps[id].continueOnError && p.steps[id].kind.Approval?
  }

  function CountCalls(calls: seq<HandlerCall>, id: StepId): nat {
    if calls == [] then 0
    else CountCalls(calls[..|calls| - 1], id) + (if calls[|calls| - 1].step == id then 1 else 0)
  }

  /** A handler is shown the final output of every step it depends on. */
  ghost predicate SawDependencies(p: Plan, r: Run, call: HandlerCall) {
    forall dep :: Needs(p, call.step, dep) ==>
      dep in call.outputs && dep in r.outputs && call.outputs[dep] == r.outputs[dep]
  }

  ghost predicate Accounted(p: Plan, s: Sys) {
    && NoDuplicates(s.begun)
    && (forall id :: id in s.run.steps ==> (id in s.begun <==> !s.run.steps[id].Untouched()))
    && (forall id :: id in s.begun ==> id in s.run.steps)
    && (forall id :: id in p.steps && id in s.run.steps ==> CallsCounted(p, s, id))
    && (forall i :: 0 <= i < |s.calls| ==>
         s.calls[i].step in p.steps && 1 <= s.calls[i].attempt && SawDependencies(p, s.run, s.calls[i]))
  }

  /** Compensators ran in strictly falling completion order. */
  ghost predicate UndoneInOrder(s: Sys) {
    && (forall i :: 0 <= i < |s.undone| ==> s.undone[i] in s.run.steps && s.undone[i] in s.order)
    && (forall i, j :: 0 <= i < j < |s.undone| ==> Later(s.run.steps, s.undone[i], s.undone[j]))
    && (forall id :: id in s.run.steps && s.run.steps[id].status.Compensated? ==> id in s.undone)
  }

  ghost predicate Inv(p: Plan, s: Sys) {
    Shaped(p, s) && Numbered(p, s) && SkipsClosed(p, s) && Accounted(p, s) && UndoneInOrder(s)
  }

  // --- skipping ----------------------------------------------------------------------------

  lemma ChainExtends(p: Plan, steps: States, from: StepId, mid: StepId, to: StepId)
    requires mid == from || PendingDownstream(p, steps, from, mid)
    requires Needs(p, to, mid) && to in steps && steps[to].status.Pending?
    ensures PendingDownstream(p, steps, from, to)
  {
    if mid == from {
      assert PendingChain(p, steps, [from, to]);
    } else {
      var c :| PendingChain(p, steps, c) && c[0] == from && c[|c| - 1] == mid;
      var longer := c + [to];
      assert PendingChain(p, steps, longer) && longer[0] == from && longer[|longer| - 1] == to;
    }
  }

  /** The last link of a pending chain is a dependency that is the start or was itself reached. */
  lemma ChainLastLink(p: Plan, steps: States, from: StepId, to: StepId) returns (dep: StepId)
    requires PendingDownstream(p, steps, from, to)
    ensures to in steps && steps[to].status.Pending?
    ensures Needs(p, to, dep) && (dep == from || PendingDownstream(p, steps, from, dep))
  {
    var c :| PendingChain(p, steps, c) && c[0] == from && c[|c| - 1] == to;
    dep := c[|c| - 2];
    assert Needs(p, c[|c| - 1], c[|c| - 2]);
    if |c| > 2 {
      var init := c[..|c| - 1];
      assert PendingChain(p, steps, init) && init[0] == from && init[|init| - 1] == dep;
    }
  }

  /** Nothing but pending steps becoming skipped. */
  ghost predicate OnlySkips(before: States, after: States) {
    && after.Keys == before.Keys
    && forall id :: id in before ==>
         after[id] == before[id] || (before[id].status.Pending? && after[id] == before[id].(status := Skipped))
  }

  lemma SkipFromOnlySkips(p: Plan, steps: States, from: StepId)
    ensures OnlySkips(steps, SkipFrom(p, steps, from))
  {
    forall id | id in steps && PendingDownstream(p, steps, from, id) ensures steps[id].status.Pending? {
      var _ := ChainLastLink(p, steps, from, id);
    }
  }

  /** `t` differs from `s` at step `id` and by skips alone. */
  ghost predicate Touches(s: Sys, t: Sys, id: StepId) {
    && id in s.run.steps && id in t.run.steps
    && OnlySkips(s.run.steps[id := t.run.steps[id]], t.run.steps)
    && (forall x :: x != id ==>
         (x in t.inFlight <==> x in s.inFlight) && (x in s.inFlight ==> t.inFlight[x] == s.inFlight[x]))
    && t.run.status == s.run.status && t.undone == s.undone
  }

  predicate IsStepMove(m: Move) {
    m.Begin? || m.CallHandler? || m.Finish? || m.Break? || m.Refuse? || m.Park? || m.SkipAfter? || m.Settle? || m.Lapse?
  }

  lemma StepMoveTouches(p: Plan, s: Sys, m: Move)
    requires IsStepMove(m) && Enabled(p, s, m)
    ensures Touches(s, After(p, s, m), m.id)
  {
    if m.Finish? {
      SkipFromOnlySkips(p, Completing(s, m.id, m.output).run.steps, m.id);
    } else if m.SkipAfter? {
      SkipFromOnlySkips(p, s.run.steps, m.id);
    }
  }

  // --- every move keeps the invariant ------------------------------------------------------

  lemma StepMoveFits(p: Plan, s: Sys, m: Move)
    requires IsStepMove(m) && Enabled(p, s, m) && Shaped(p, s)
    ensures StageFits(p, After(p, s, m), m.id)
  {
    if OpensStep(m) {
      OpeningMoveFits(p, s, m);
    } else {
      ClosingMoveFits(p, s, m);
    }
  }

  /** Moves after which the step is running or waiting. */
  predicate OpensStep(m: Move) { m.Begin? || m.CallHandler? || m.Park? }

  lemma OpeningMoveFits(p: Plan, s: Sys, m: Move)
    requires OpensStep(m) && Enabled(p, s, m) && Shaped(p, s)
    ensures StageFits(p, After(p, s, m), m.id)
  {
    assert StageFits(p, s, m.id);
  }

  lemma ClosingMoveFits(p: Plan, s: Sys, m: Move)
    requires IsStepMove(m) && !OpensStep(m) && Enabled(p, s, m) && Shaped(p, s)
    ensures StageFits(p, After(p, s, m), m.id)
  {
    assert StageFits(p, s, m.id);
  }

  lemma TouchKeepsShaped(p: Plan, s: Sys, t: Sys, id: StepId)
    requires Shaped(p, s) && Touches(s, t, id) && StageFits(p, t, id)
    requires s.run.status.RunRunning?
      || (s.run.status.Suspended? && t.inFlight == map[] && t.run.steps[id].status.Completed?)
    requires !t.run.steps[id].status.Compensated?
    ensures Shaped(p, t)
  {
    forall x | x in p.steps ensures StageFits(p, t, x) {
      assert StageFits(p, s, x);
    }
    if s.run.status.Suspended? {
      forall x | Fatal(p, t.run.steps, x) ensures Fatal(p, s.run.steps, x) {}
    }
  }

  lemma StatusMoveKeepsShaped(p: Plan, s: Sys, m: Move)
    requires !IsStepMove(m) && Shaped(p, s) && Enabled(p, s, m)
    ensures Shaped(p, After(p, s, m))
  {
    var t := After(p, s, m);
    forall x | x in p.steps ensures StageFits(p, t, x) {
      assert StageFits(p, s, x);
    }
  }

  lemma KeepsShaped(p: Plan, s: Sys, m: Move)
    requires Shaped(p, s) && Enabled(p, s, m)
    ensures Shaped(p, After(p, s, m))
  {
    if IsStepMove(m) {
      StepMoveTouches(p, s, m);
      StepMoveFits(p, s, m);
      TouchKeepsShaped(p, s, After(p, s, m), m.id);
    } else {
      StatusMoveKeepsShaped(p, s, m);
    }
  }

  /** `t` records the same completions as `s`, and no step but `begun` has been newly entered. */
  ghost predicate SameRecord(s: Sys, t: Sys, begun: set<StepId>) {
    && t.order == s.order && t.run.outputs == s.run.outputs && t.run.steps.Keys == s.run.steps.Keys
    && forall id :: id in s.run.steps ==> SameCompletion(s.run.steps[id], t.run.steps[id], id in begun)
  }

  predicate SameCompletion(a: StepState, b: StepState, begun: bool) {
    && b.Done() == a.Done() && b.sequence == a.sequence && (a.Done() ==> b.output == a.output)
    && (a.Untouched() && !begun ==> b.Untouched())
  }

  lemma SameRecordKeepsNumbered(p: Plan, s: Sys, t: Sys, begun: set<StepId>)
    requires Numbered(p, s) && SameRecord(s, t, begun)
    requires forall id, dep :: id in begun && Needs(p, id, dep) ==> dep in s.order
    ensures Numbered(p, t)
  {
    forall i | 0 <= i < |t.order| ensures Entered(t, i) {
      assert Entered(s, i);
    }
  }

  lemma SkippingSameRecord(p: Plan, s: Sys, from: StepId)
    ensures SameRecord(s, Skipping(p, s, from), {})
  {
    SkipFromOnlySkips(p, s.run.steps, from);
  }

  /** Only steps that completed are in the completion order. */
  lemma OrderIsDone(p: Plan, s: Sys)
    requires Numbered(p, s)
    ensures forall id :: id in s.order ==> id in s.run.steps && s.run.steps[id].Done()
  {
    forall id | id in s.order ensures id in s.run.steps && s.run.steps[id].Done() {
      var i :| 0 <= i < |s.order| && s.order[i] == id;
      assert Entered(s, i);
    }
  }

  lemma CompletingKeepsNumbered(p: Plan, s: Sys, id: StepId, output: Value)
    requires Numbered(p, s) && id in s.run.steps && !s.run.steps[id].Done() && !s.run.steps[id].Untouched()
    ensures Numbered(p, Completing(s, id, output))
  {
    var t := Completing(s, id, output);
    OrderIsDone(p, s);
    assert forall x :: x in t.order <==> x in s.order || x == id;
    forall i | 0 <= i < |t.order| ensures Entered(t, i) {
      if i < |s.order| {
        assert Entered(s, i);
      }
    }
    forall i, dep | 0 <= i < |t.order| && Needs(p, t.order[i], dep) ensures Before(t.order, i, dep) {
      if i < |s.order| {
        assert Before(s.order, i, dep);
        var j :| 0 <= j < i && s.order[j] == dep;
        assert t.order[j] == dep;
      } else {
        var j :| 0 <= j < |s.order| && s.order[j] == dep;
        assert t.order[j] == dep;
      }
    }
  }

  lemma StepMoveSameRecord(p: Plan, s: Sys, m: Move)
    requires Enabled(p, s, m) && IsStepMove(m) && !m.Finish? && !m.Settle? && !m.SkipAfter?
    requires Shaped(p, s)
    ensures SameRecord(s, After(p, s, m), if m.Begin? then {m.id} else {})
  {
    if OpensStep(m) {
      OpeningMoveSameRecord(p, s, m);
    } else {
      FailingMoveSameRecord(p, s, m);
    }
  }

  lemma OpeningMoveSameRecord(p: Plan, s: Sys, m: Move)
    requires Enabled(p, s, m) && OpensStep(m) && Shaped(p, s)
    ensures SameRecord(s, After(p, s, m), if m.Begin? then {m.id} else {})
  {
    assert StageFits(p, s, m.id);
  }

  lemma FailingMoveSameRecord(p: Plan, s: Sys, m: Move)
    requires Enabled(p, s, m) && (m.Break? || m.Refuse? || m.Lapse?) && Shaped(p, s)
    ensures SameRecord(s, After(p, s, m), {})
  {
    assert StageFits(p, s, m.id);
  }

  lemma StatusMoveSameRecord(p: Plan, s: Sys, m: Move)
    requires Enabled(p, s, m) && !IsStepMove(m)
    ensures SameRecord(s, After(p, s, m), {})
  {
  }

  lemma KeepsNumbered(p: Plan, s: Sys, m: Move)
    requires Shaped(p, s) && Numbered(p, s) && Enabled(p, s, m)
    ensures Numbered(p, After(p, s, m))
  {
    var t := After(p, s, m);
    if m.Finish? || m.Settle? {
      assert StageFits(p, s, m.id);
      CompletingKeepsNumbered(p, s, m.id, m.output);
      var done := Completing(s, m.id, m.output);
      SkippingSameRecord(p, done, m.id);
      SameRecordKeepsNumbered(p, done, Skipping(p, done, m.id), {});
    } else if m.SkipAfter? {
      SkippingSameRecord(p, s, m.id);
      SameRecordKeepsNumbered(p, s, t, {});
    } else if IsStepMove(m) {
      StepMoveSameRecord(p, s, m);
      SameRecordKeepsNumbered(p, s, t, if m.Begin? then {m.id} else {});
    } else {
      StatusMoveSameRecord(p, s, m);
      SameRecordKeepsNumbered(p, s, t, {});
    }
  }

  // --- skips -------------------------------------------------------------------------------

  /** Blocking steps and skipped steps are the same before and after. */
  ghost predicate SameBlocks(p: Plan, s: Sys, t: Sys) {
    && t.run.steps.Keys == s.run.steps.Keys
    && (forall id :: id in s.run.steps ==> (t.run.steps[id].status.Skipped? <==> s.run.steps[id].status.Skipped?))
    && (forall id :: Blocks(p, t, id) <==> Blocks(p, s, id))
    && (forall id :: id in t.refused ==> RefusedStep(p, t, id))
  }

  lemma SameBlocksKeepsSkips(p: Plan, s: Sys, t: Sys)
    requires SkipsClosed(p, s) && SameBlocks(p, s, t)
    ensures SkipsClosed(p, t)
  {
    forall id | id in t.run.steps && t.run.steps[id].status.Skipped?
      ensures exists dep :: Needs(p, id, dep) && Blocks(p, t, dep)
    {
      var dep :| Needs(p, id, dep) && Blocks(p, s, dep);
      assert Blocks(p, t, dep);
    }
  }

  /** Skips are closed except that the dependents of `from` may not have been skipped yet. */
  ghost predicate SkipsClosedBut(p: Plan, s: Sys, from: StepId) {
    && (forall id, dep :: dep != from && Needs(p, id, dep) && id in s.run.steps && Blocks(p, s, dep) ==>
         s.run.steps[id].status.Skipped?)
    && (forall id :: id in s.run.steps && s.run.steps[id].status.Skipped? ==>
         exists dep :: Needs(p, id, dep) && Blocks(p, s, dep))
    && (forall id :: id in s.refused ==> id != from && RefusedStep(p, s, id))
  }

  /** Every step that waits on `from` or on a pending step is still untouched. */
  ghost predicate UntouchedBelow(p: Plan, s: Sys, from: StepId) {
    forall id, dep :: Needs(p, id, dep) && id in s.run.steps
      && (dep == from || (dep in s.run.steps && s.run.steps[dep].status.Pending?))
      ==> s.run.steps[id].Untouched()
  }

  /** A step at the point where its dependents are about to be skipped. */
  ghost predicate AboutToSkip(p: Plan, s: Sys, from: StepId) {
    && s.run.steps.Keys == p.steps.Keys && from in p.steps
    && SkipsClosedBut(p, s, from) && UntouchedBelow(p, s, from)
    && !s.run.steps[from].Untouched()
    && Blocks(p, s.(inFlight := s.inFlight - {from}), from)
  }

  lemma SkippingBlocks(p: Plan, s: Sys, from: StepId, id: StepId)
    requires Sound(p) && AboutToSkip(p, s, from) && id in p.steps
    ensures Blocks(p, Skipping(p, s, from), id) <==>
      id == from || Blocks(p, s, id) || PendingDownstream(p, s.run.steps, from, id)
  {
    SkipFromOnlySkips(p, s.run.steps, from);
    if PendingDownstream(p, s.run.steps, from, id) {
      var _ := ChainLastLink(p, s.run.steps, from, id);
    }
  }

  /**
   * Skipping from a step that has just begun to block: its untouched dependents become skipped,
   * and theirs in turn, and nothing else does.
   */
  lemma SkippingKeepsSkips(p: Plan, s: Sys, from: StepId)
    requires Sound(p) && AboutToSkip(p, s, from)
    ensures SkipsClosed(p, Skipping(p, s, from))
  {
    var t := Skipping(p, s, from);
    SkipFromOnlySkips(p, s.run.steps, from);
    forall id, dep | Needs(p, id, dep) && id in t.run.steps && Blocks(p, t, dep)
      ensures t.run.steps[id].status.Skipped?
    {
      SkipReachesDependent(p, s, from, id, dep);
    }
    forall id | id in t.run.steps && t.run.steps[id].status.Skipped?
      ensures exists dep :: Needs(p, id, dep) && Blocks(p, t, dep)
    {
      SkippedIsBlocked(p, s, from, id);
    }
  }

  lemma SkipReachesDependent(p: Plan, s: Sys, from: StepId, id: StepId, dep: StepId)
    requires Sound(p) && AboutToSkip(p, s, from)
    requires Needs(p, id, dep) && id in s.run.steps && Blocks(p, Skipping(p, s, from), dep)
    ensures Skipping(p, s, from).run.steps[id].status.Skipped?
  {
    SkipFromOnlySkips(p, s.run.steps, from);
    SkippingBlocks(p, s, from, dep);
    if dep == from || PendingDownstream(p, s.run.steps, from, dep) {
      if dep != from {
        var _ := ChainLastLink(p, s.run.steps, from, dep);
      }
      assert s.run.steps[id].Untouched();
      if s.run.steps[id].status.Pending? {
        ChainExtends(p, s.run.steps, from, dep, id);
      }
    }
  }

  lemma SkippedIsBlocked(p: Plan, s: Sys, from: StepId, id: StepId)
    requires Sound(p) && AboutToSkip(p, s, from)
    requires id in s.run.steps && Skipping(p, s, from).run.steps[id].status.Skipped?
    ensures exists dep :: Needs(p, id, dep) && Blocks(p, Skipping(p, s, from), dep)
  {
    SkipFromOnlySkips(p, s.run.steps, from);
    if PendingDownstream(p, s.run.steps, from, id) {
      var dep := ChainLastLink(p, s.run.steps, from, id);
      SkippingBlocks(p, s, from, dep);
    } else {
      var dep :| Needs(p, id, dep) && Blocks(p, s, dep);
      SkippingBlocks(p, s, from, dep);
    }
  }

  /** No step that depends on an unfinished one has been entered. */
  lemma NumberedUntouchedBelow(p: Plan, s: Sys, from: StepId)
    requires Shaped(p, s) && Numbered(p, s) && from in p.steps && !s.run.steps[from].Done()
    ensures UntouchedBelow(p, s, from)
  {
    forall id | id in s.order ensures id in s.run.steps && s.run.steps[id].Done() {
      var i :| 0 <= i < |s.order| && s.order[i] == id;
      assert Entered(s, i);
    }
  }

  /** `t` differs from `s` at step `id` alone, which neither starts nor stops blocking. */
  ghost predicate QuietTouch(p: Plan, s: Sys, t: Sys, id: StepId) {
    && id in s.run.steps && id in t.run.steps && t.run.steps == s.run.steps[id := t.run.steps[id]]
    && !s.run.steps[id].status.Skipped? && !t.run.steps[id].status.Skipped?
    && !Blocks(p, s, id) && !Blocks(p, t, id)
    && id !in s.refused && (id in t.refused ==> RefusedStep(p, t, id))
    && (forall x :: x != id ==> (x in t.inFlight <==> x in s.inFlight) && (x in t.refused <==> x in s.refused))
  }

  lemma QuietTouchSameBlocks(p: Plan, s: Sys, t: Sys, id: StepId)
    requires SkipsClosed(p, s) && QuietTouch(p, s, t, id)
    ensures SameBlocks(p, s, t)
  {
    forall x ensures Blocks(p, t, x) <==> Blocks(p, s, x) {}
  }

  lemma RefusedAreFailed(p: Plan, s: Sys)
    requires SkipsClosed(p, s)
    ensures forall id :: id in s.refused ==> id in s.run.steps && s.run.steps[id].status.Failed?
  {
    forall id | id in s.refused ensures id in s.run.steps && s.run.steps[id].status.Failed? {
      assert RefusedStep(p, s, id);
    }
  }

  lemma StepMoveIsQuiet(p: Plan, s: Sys, m: Move)
    requires Shaped(p, s) && SkipsClosed(p, s) && Enabled(p, s, m) && IsStepMove(m)
    requires !m.SkipAfter? && !(m.Finish? && RejectedBy(p, m.id, m.output))
    ensures QuietTouch(p, s, After(p, s, m), m.id)
  {
    RefusedAreFailed(p, s);
    if OpensStep(m) {
      OpeningMoveIsQuiet(p, s, m);
    } else {
      ClosingMoveIsQuiet(p, s, m);
    }
  }

  lemma OpeningMoveIsQuiet(p: Plan, s: Sys, m: Move)
    requires Shaped(p, s) && Enabled(p, s, m) && OpensStep(m)
    requires forall id :: id in s.refused ==> id in s.run.steps && s.run.steps[id].status.Failed?
    ensures QuietTouch(p, s, After(p, s, m), m.id)
  {
    assert StageFits(p, s, m.id);
  }

  lemma ClosingMoveIsQuiet(p: Plan, s: Sys, m: Move)
    requires Shaped(p, s) && Enabled(p, s, m) && IsStepMove(m) && !OpensStep(m)
    requires !m.SkipAfter? && !(m.Finish? && RejectedBy(p, m.id, m.output))
    requires forall id :: id in s.refused ==> id in s.run.steps && s.run.steps[id].status.Failed?
    ensures QuietTouch(p, s, After(p, s, m), m.id)
  {
    assert StageFits(p, s, m.id);
  }

  lemma StatusMoveSameBlocks(p: Plan, s: Sys, m: Move)
    requires SkipsClosed(p, s) && Enabled(p, s, m) && !IsStepMove(m)
    ensures SameBlocks(p, s, After(p, s, m))
  {
    var t := After(p, s, m);
    forall x ensures Blocks(p, t, x) <==> Blocks(p, s, x) {}
    forall x | x in t.refused ensures RefusedStep(p, t, x) {
      assert RefusedStep(p, s, x);
    }
  }

  lemma OtherBlocksUnmoved(p: Plan, s: Sys, id: StepId, output: Value)
    requires Shaped(p, s) && SkipsClosed(p, s) && Executing(p, s, id)
    ensures SkipsClosedBut(p, Completing(s, id, output), id)
  {
    var done := Completing(s, id, output);
    assert StageFits(p, s, id);
    forall x | x != id ensures Blocks(p, done, x) <==> Blocks(p, s, x) {}
    forall x | x in done.run.steps && done.run.steps[x].status.Skipped?
      ensures exists dep :: Needs(p, x, dep) && Blocks(p, done, dep)
    {
      var dep :| Needs(p, x, dep) && Blocks(p, s, dep);
      assert Blocks(p, done, dep);
    }
    forall x | x in done.refused ensures x != id && RefusedStep(p, done, x) {
      assert RefusedStep(p, s, x);
    }
  }

  lemma RejectingIsAboutToSkip(p: Plan, s: Sys, id: StepId, output: Value)
    requires Sound(p) && Shaped(p, s) && Numbered(p, s) && SkipsClosed(p, s)
    requires Executing(p, s, id) && RejectedBy(p, id, output)
    ensures AboutToSkip(p, Completing(s, id, output), id)
  {
    assert StageFits(p, s, id);
    OtherBlocksUnmoved(p, s, id, output);
    NumberedUntouchedBelow(p, s, id);
  }

  lemma SkipOwedIsAboutToSkip(p: Plan, s: Sys, id: StepId)
    requires Sound(p) && Shaped(p, s) && Numbered(p, s) && SkipsClosed(p, s)
    requires id in p.steps && InStage(s, id, SkipOwed)
    ensures AboutToSkip(p, s, id)
  {
    assert StageFits(p, s, id);
    NumberedUntouchedBelow(p, s, id);
  }

  lemma KeepsSkips(p: Plan, s: Sys, m: Move)
    requires Sound(p) && Shaped(p, s) && Numbered(p, s) && SkipsClosed(p, s) && Enabled(p, s, m)
    ensures SkipsClosed(p, After(p, s, m))
  {
    var t := After(p, s, m);
    if m.SkipAfter? {
      SkipOwedIsAboutToSkip(p, s, m.id);
      SkippingKeepsSkips(p, s, m.id);
    } else if m.Finish? && RejectedBy(p, m.id, m.output) {
      RejectingIsAboutToSkip(p, s, m.id, m.output);
      SkippingKeepsSkips(p, Completing(s, m.id, m.output), m.id);
    } else if IsStepMove(m) {
      StepMoveIsQuiet(p, s, m);
      QuietTouchSameBlocks(p, s, t, m.id);
      SameBlocksKeepsSkips(p, s, t);
    } else {
      StatusMoveSameBlocks(p, s, m);
      SameBlocksKeepsSkips(p, s, t);
    }
  }

  // --- begun steps and handler calls -------------------------------------------------------

  lemma {:induction false} CountCallsNone(calls: seq<HandlerCall>, id: StepId)
    requires forall i :: 0 <= i < |calls| ==> calls[i].step != id
    ensures CountCalls(calls, id) == 0
  {
    if calls != [] {
      CountCallsNone(calls[..|calls| - 1], id);
    }
  }

  ghost predicate CallsCounted(p: Plan, s: Sys, id: StepId)
    requires id in p.steps && id in s.run.steps
  {
    var st := s.run.steps[id];
    CountCalls(s.calls, id) == st.attempts <= AttemptLimit(p, id)
  }

  /** `t` has made the calls `s` made and entered the steps `s` entered. */
  ghost predicate SameAccount(p: Plan, s: Sys, t: Sys) {
    && t.begun == s.begun && t.calls == s.calls && t.run.steps.Keys == s.run.steps.Keys
    && (forall id :: id in s.run.steps ==>
          t.run.steps[id].attempts == s.run.steps[id].attempts
            && (t.run.steps[id].Untouched() <==> s.run.steps[id].Untouched()))
    && (forall id :: id in s.run.outputs ==> id in t.run.outputs && t.run.outputs[id] == s.run.outputs[id])
  }

  lemma SameAccountKeeps(p: Plan, s: Sys, t: Sys)
    requires Accounted(p, s) && SameAccount(p, s, t)
    ensures Accounted(p, t)
  {
    forall id | id in p.steps && id in t.run.steps ensures CallsCounted(p, t, id) {
      assert CallsCounted(p, s, id);
    }
  }

  lemma BeginningAccounted(p: Plan, s: Sys, id: StepId)
    requires Accounted(p, s) && Ready(p, s.run.steps, id)
    ensures Accounted(p, Beginning(s, id))
  {
    var t := Beginning(s, id);
    assert forall x :: x in t.begun <==> x in s.begun || x == id;
    forall x | x in p.steps && x in t.run.steps ensures CallsCounted(p, t, x) {
      assert CallsCounted(p, s, x);
    }
  }

  lemma CallSeesDependencies(p: Plan, s: Sys, id: StepId)
    requires Numbered(p, s) && id in s.run.steps && !s.run.steps[id].Untouched()
    ensures SawDependencies(p, s.run, HandlerCall(id, s.run.steps[id].attempts + 1, s.run.outputs))
  {
  }

  lemma CallingAccounted(p: Plan, s: Sys, id: StepId)
    requires Accounted(p, s) && id in p.steps && id in s.run.steps && !s.run.steps[id].Untouched()
    requires s.run.steps[id].attempts < AttemptLimit(p, id)
    requires SawDependencies(p, s.run, HandlerCall(id, s.run.steps[id].attempts + 1, s.run.outputs))
    ensures Accounted(p, Calling(s, id))
  {
    var t := Calling(s, id);
    assert t.calls[..|t.calls| - 1] == s.calls;
    forall x | x in p.steps && x in t.run.steps ensures CallsCounted(p, t, x) {
      assert CallsCounted(p, s, x);
    }
    forall i | 0 <= i < |t.calls|
      ensures SawDependencies(p, t.run, t.calls[i]) && t.calls[i].step in p.steps && 1 <= t.calls[i].attempt
    {
      if i < |s.calls| {
        assert SawDependencies(p, s.run, s.calls[i]);
      }
    }
  }

  lemma EndingSameAccount(p: Plan, s: Sys, m: Move)
    requires Shaped(p, s) && Enabled(p, s, m) && (m.Break? || m.Refuse? || m.Park? || m.Lapse?)
    ensures SameAccount(p, s, After(p, s, m))
  {
    assert StageFits(p, s, m.id);
  }

  lemma StatusMoveSameAccount(p: Plan, s: Sys, m: Move)
    requires Enabled(p, s, m) && !IsStepMove(m)
    ensures SameAccount(p, s, After(p, s, m))
  {
  }

  lemma CompletingSameAccount(p: Plan, s: Sys, id: StepId, output: Value)
    requires Numbered(p, s) && id in s.run.steps && !s.run.steps[id].Done() && !s.run.steps[id].Untouched()
    ensures SameAccount(p, s, Completing(s, id, output))
  {
    OrderIsDone(p, s);
  }

  lemma SkippingSameAccount(p: Plan, s: Sys, from: StepId)
    ensures SameAccount(p, s, Skipping(p, s, from))
  {
    SkipFromOnlySkips(p, s.run.steps, from);
  }

  lemma CompletionAccounted(p: Plan, s: Sys, m: Move)
    requires Shaped(p, s) && Numbered(p, s) && Accounted(p, s) && Enabled(p, s, m) && (m.Finish? || m.Settle?)
    ensures Accounted(p, After(p, s, m))
  {
    MayCompleteNow(p, s, m);
    CompletingAccounted(p, s, m.id, m.output);
    SkippingAccounted(p, Completing(s, m.id, m.output), m.id);
  }

  /** A step about to complete has begun and not completed before. */
  lemma MayCompleteNow(p: Plan, s: Sys, m: Move)
    requires Shaped(p, s) && Enabled(p, s, m) && (m.Finish? || m.Settle?)
    ensures m.id in s.run.steps && !s.run.steps[m.id].Done() && !s.run.steps[m.id].Untouched()
  {
    assert StageFits(p, s, m.id);
  }

  lemma CompletingAccounted(p: Plan, s: Sys, id: StepId, output: Value)
    requires Numbered(p, s) && Accounted(p, s) && id in s.run.steps && !s.run.steps[id].Done()
      && !s.run.steps[id].Untouched()
    ensures Accounted(p, Completing(s, id, output))
  {
    CompletingSameAccount(p, s, id, output);
    SameAccountKeeps(p, s, Completing(s, id, output));
  }

  lemma SkippingAccounted(p: Plan, s: Sys, from: StepId)
    requires Accounted(p, s)
    ensures Accounted(p, Skipping(p, s, from))
  {
    SkippingSameAccount(p, s, from);
    SameAccountKeeps(p, s, Skipping(p, s, from));
  }

  lemma KeepsAccounted(p: Plan, s: Sys, m: Move)
    requires Shaped(p, s) && Numbered(p, s) && Accounted(p, s) && Enabled(p, s, m)
    ensures Accounted(p, After(p, s, m))
  {
    var t := After(p, s, m);
    if m.Begin? {
      BeginningAccounted(p, s, m.id);
    } else if m.CallHandler? {
      assert StageFits(p, s, m.id);
      CallSeesDependencies(p, s, m.id);
      CallingAccounted(p, s, m.id);
    } else if m.SkipAfter? {
      SkippingSameAccount(p, s, m.id);
      SameAccountKeeps(p, s, t);
    } else if m.Finish? || m.Settle? {
      CompletionAccounted(p, s, m);
    } else {
      if IsStepMove(m) {
        EndingSameAccount(p, s, m);
      } else {
        StatusMoveSameAccount(p, s, m);
      }
      SameAccountKeeps(p, s, t);
    }
  }

  // --- compensation ------------------------------------------------------------------------

  /** `t` undid what `s` undid, and no step changed its number or became compensated. */
  ghost predicate SameUndo(s: Sys, t: Sys) {
    && t.undone == s.undone && t.run.steps.Keys == s.run.steps.Keys && (forall id :: id in s.order ==> id in t.order)
    && (forall id :: id in s.run.steps ==>
          && (id in s.order ==> t.run.steps[id].sequence == s.run.steps[id].sequence)
          && (t.run.steps[id].status.Compensated? ==> s.run.steps[id].status.Compensated?))
  }

  lemma SameUndoKeeps(s: Sys, t: Sys)
    requires UndoneInOrder(s) && SameUndo(s, t)
    ensures UndoneInOrder(t)
  {
    forall i, j | 0 <= i < j < |t.undone| ensures Later(t.run.steps, t.undone[i], t.undone[j]) {
      assert Later(s.run.steps, s.undone[i], s.undone[j]);
    }
  }

  lemma UndoingKeepsOrder(p: Plan, s: Sys, id: StepId, worked: bool)
    requires Numbered(p, s) && UndoneInOrder(s) && Undoable(p, s.run.steps, id) && UndoIsNext(s, id)
    ensures UndoneInOrder(Undoing(s, id, worked))
  {
    var t := Undoing(s, id, worked);
    assert s.run.steps[id].Done();
    forall i, j | 0 <= i < j < |t.undone| ensures Later(t.run.steps, t.undone[i], t.undone[j]) {
      if j < |s.undone| {
        assert Later(s.run.steps, s.undone[i], s.undone[j]);
      } else {
        assert Later(s.run.steps, s.undone[i], id);
      }
    }
    forall x | x in t.run.steps && t.run.steps[x].status.Compensated? ensures x in t.undone {
      if x == id {
        assert t.undone[|t.undone| - 1] == id;
      } else {
        assert x in s.undone;
      }
    }
  }

  lemma StepMoveSameUndo(p: Plan, s: Sys, t: Sys, id: StepId)
    requires Numbered(p, s) && Touches(s, t, id) && s.order <= t.order
    requires id in s.run.steps && !s.run.steps[id].Done() && !t.run.steps[id].status.Compensated?
    ensures SameUndo(s, t)
  {
    forall x | x in s.order ensures x in t.order && x in s.run.steps && s.run.steps[x].Done() {
      var i :| 0 <= i < |s.order| && s.order[i] == x;
      assert Entered(s, i) && t.order[i] == x;
    }
  }

  lemma StepMoveUnfinished(p: Plan, s: Sys, m: Move)
    requires Shaped(p, s) && Enabled(p, s, m) && IsStepMove(m)
    ensures !s.run.steps[m.id].Done() && s.order <= After(p, s, m).order
      && !After(p, s, m).run.steps[m.id].status.Compensated?
  {
    assert StageFits(p, s, m.id);
    StepMoveTouches(p, s, m);
  }

  lemma StatusMoveSameUndo(p: Plan, s: Sys, m: Move)
    requires Enabled(p, s, m) && !IsStepMove(m) && !m.Undo?
    ensures SameUndo(s, After(p, s, m))
  {
  }

  lemma KeepsUndoOrder(p: Plan, s: Sys, m: Move)
    requires Shaped(p, s) && Numbered(p, s) && UndoneInOrder(s) && Enabled(p, s, m)
    ensures UndoneInOrder(After(p, s, m))
  {
    if m.Undo? {
      UndoingKeepsOrder(p, s, m.id, m.worked);
    } else {
      if IsStepMove(m) {
        StepMoveTouches(p, s, m);
        StepMoveUnfinished(p, s, m);
        StepMoveSameUndo(p, s, After(p, s, m), m.id);
      } else {
        StatusMoveSameUndo(p, s, m);
      }
      SameUndoKeeps(s, After(p, s, m));
    }
  }

  // --- every run ---------------------------------------------------------------------------

  lemma MoveKeepsInv(p: Plan, s: Sys, m: Move)
    requires Sound(p) && Inv(p, s) && Enabled(p, s, m)
    ensures Inv(p, After(p, s, m))
  {
    KeepsShaped(p, s, m);
    KeepsNumbered(p, s, m);
    KeepsSkips(p, s, m);
    KeepsAccounted(p, s, m);
    KeepsUndoOrder(p, s, m);
  }

  lemma InitialInv(p: Plan)
    requires Sound(p)
    ensures Inv(p, Initial(p))
  {
    InitialShaped(p);
    var s := Initial(p);
    forall id | id in p.steps ensures CallsCounted(p, s, id) {}
  }

  lemma InitialShaped(p: Plan)
    ensures Shaped(p, Initial(p))
  {
    forall id | id in p.steps ensures StageFits(p, Initial(p), id) {}
  }

  lemma {:induction false} RunKeepsInv(p: Plan, moves: seq<Move>)
    requires Sound(p)
    ensures Replay(p, moves).Some? ==> Inv(p, Replay(p, moves).value)
  {
    if moves == [] {
      InitialInv(p);
    } else {
      var init := moves[..|moves| - 1];
      RunKeepsInv(p, init);
      if Replay(p, moves).Some? {
        MoveKeepsInv(p, Replay(p, init).value, moves[|moves| - 1]);
      }
    }
  }
}
