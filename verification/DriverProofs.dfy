/**
 * Proof support for the driver: the history a run leaves behind, what a scan of the definition
 * finds, and what one segment of a batch, one skip and one compensation keep.
 */
module DriverProofs {
  import opened Wrappers
  import opened WorkflowTypes
  import opened Validator
  import opened RunMachine
  import opened RunInvariants
  import opened RunTheorems

  // The history of a run, kept as data so that each method only appends to it.

  ghost predicate Follows(p: Plan, trace: seq<Sys>, moves: seq<Move>, i: nat)
    requires i < |moves| && |trace| == |moves| + 1
  {
    Enabled(p, trace[i], moves[i]) && trace[i + 1] == After(p, trace[i], moves[i])
  }

  ghost predicate IsTrace(p: Plan, trace: seq<Sys>, moves: seq<Move>) {
    && |trace| == |moves| + 1 && trace[0] == Initial(p)
    && forall i :: 0 <= i < |moves| ==> Follows(p, trace, moves, i)
  }

  lemma TraceExtends(p: Plan, trace: seq<Sys>, moves: seq<Move>, m: Move)
    requires IsTrace(p, trace, moves) && Enabled(p, trace[|moves|], m)
    ensures IsTrace(p, trace + [After(p, trace[|moves|], m)], moves + [m])
  {
    var longer := trace + [After(p, trace[|moves|], m)];
    forall i | 0 <= i < |moves + [m]| ensures Follows(p, longer, moves + [m], i) {
      if i < |moves| {
        assert Follows(p, trace, moves, i);
      }
    }
  }

  /** The trace is a run of the machine, so everything proved of runs holds of it. */
  lemma {:induction false} TraceIsReachable(p: Plan, trace: seq<Sys>, moves: seq<Move>)
    requires Sound(p) && IsTrace(p, trace, moves)
    ensures Reachable(p, moves, trace[|moves|]) && Inv(p, trace[|moves|])
  {
    if moves != [] {
      var n := |moves| - 1;
      var shorter, init := trace[..n + 1], moves[..n];
      forall i | 0 <= i < n ensures Follows(p, shorter, init, i) {
        assert Follows(p, trace, moves, i);
      }
      TraceIsReachable(p, shorter, init);
      assert Follows(p, trace, moves, n);
      MoveKeepsInv(p, trace[n], moves[n]);
    } else {
      InitialInv(p);
    }
  }

  /** Moves determine the trace, so a run that goes on keeps the states it went through. */
  lemma TraceDetermined(p: Plan, shorter: seq<Sys>, init: seq<Move>, trace: seq<Sys>, moves: seq<Move>)
    requires IsTrace(p, shorter, init) && IsTrace(p, trace, moves) && init <= moves
    ensures trace[..|shorter|] == shorter
  {
    SameUpTo(p, shorter, init, trace, moves, |init|);
  }

  lemma {:induction false} SameUpTo(p: Plan, shorter: seq<Sys>, init: seq<Move>, trace: seq<Sys>, moves: seq<Move>,
                                    n: nat)
    requires IsTrace(p, shorter, init) && IsTrace(p, trace, moves) && init <= moves && n <= |init|
    ensures forall i :: 0 <= i <= n ==> shorter[i] == trace[i]
  {
    if n > 0 {
      SameUpTo(p, shorter, init, trace, moves, n - 1);
      assert Follows(p, shorter, init, n - 1) && Follows(p, trace, moves, n - 1);
      assert init[n - 1] == moves[n - 1];
    }
  }

  lemma TraceKeys(p: Plan, trace: seq<Sys>, moves: seq<Move>)
    requires Sound(p) && IsTrace(p, trace, moves)
    ensures trace[|moves|].run.steps.Keys == p.steps.Keys
  {
    TraceIsReachable(p, trace, moves);
  }

  /** The counter never skips or repeats: it stands one past the number of completions. */
  lemma NextIsCount(p: Plan, trace: seq<Sys>, moves: seq<Move>, s: Sys, next: nat)
    requires Sound(p) && IsTrace(p, trace, moves) && s == trace[|moves|]
    requires IsNextSequence(s.run.steps, next)
    ensures next == |s.order| + 1
  {
    TraceIsReachable(p, trace, moves);
    if s.order != [] {
      assert Entered(s, |s.order| - 1);
    }
    if next > 1 {
      var id :| id in s.run.steps && s.run.steps[id].sequence == Some(next - 1);
      NumberedExactly(p, s, id);
    }
  }

  /** One past the highest sequence handed out. */
  ghost predicate IsNextSequence(steps: States, next: nat) {
    && next >= 1
    && (forall id :: id in steps ==> steps[id].sequence.GetOr(0) < next)
    && (next == 1 || exists id :: id in steps && steps[id].sequence == Some(next - 1))
  }

  /** Skips spread to a closed set: nothing pending is left within reach of `from`. */
  lemma {:induction false} ClosedSkipReachesChain(p: Plan, before: States, after: States, from: StepId, c: seq<StepId>)
    requires OnlySkips(before, after) && PendingChain(p, before, c) && c[0] == from
    requires forall id, dep ::
      Needs(p, id, dep) && id in after && (dep == from || NewlySkipped(before, after, dep)) ==>
        !after[id].status.Pending?
    ensures NewlySkipped(before, after, c[|c| - 1])
    decreases |c|
  {
    assert Needs(p, c[|c| - 1], c[|c| - 2]);
    if |c| > 2 {
      var init := c[..|c| - 1];
      assert PendingChain(p, before, init);
      ClosedSkipReachesChain(p, before, after, from, init);
    }
  }

  ghost predicate NewlySkipped(before: States, after: States, id: StepId) {
    id in before && id in after && before[id].status.Pending? && after[id].status.Skipped?
  }

  /** The plan holds exactly the definition's steps, each under its own id. */
  ghost predicate Indexes(p: Plan, d: Definition) {
    && Sound(p)
    && UniqueIds(d.steps)
    && (forall j :: 0 <= j < |d.steps| ==> d.steps[j].id in p.steps && p.steps[d.steps[j].id] == d.steps[j])
    && (forall id :: id in p.steps ==> exists j :: 0 <= j < |d.steps| && d.steps[j].id == id)
    && (forall id :: id in p.steps ==> !p.steps[id].kind.UnknownKind?)
  }

  lemma PlanIndexes(d: Definition)
    requires Validated(d)
    ensures Indexes(PlanOf(d), d)
  {
    ValidatedIsSound(d);
    forall j | 0 <= j < |d.steps|
      ensures d.steps[j].id in PlanOf(d).steps && PlanOf(d).steps[d.steps[j].id] == d.steps[j]
    {
      ByIdIndexed(d.steps, j);
    }
    forall id | id in PlanOf(d).steps
      ensures (exists j :: 0 <= j < |d.steps| && d.steps[j].id == id) && !PlanOf(d).steps[id].kind.UnknownKind?
    {
      ByIdSource(d.steps, id);
      var j :| 0 <= j < |d.steps| && d.steps[j] == PlanOf(d).steps[id];
      assert StepFault(d.steps[j]).None?;
    }
  }

  /** A scan of the definition has met every step that needs `current`. */
  lemma ScanCovers(d: Definition, p: Plan, current: StepId, id: StepId) returns (j: nat)
    requires Indexes(p, d) && Needs(p, id, current)
    ensures j < |d.steps| && d.steps[j].id == id && current in d.steps[j].dependsOn
  {
    j :| 0 <= j < |d.steps| && d.steps[j].id == id;
  }

  /** Dependents of everything skipped so far are no longer pending, unless still queued. */
  ghost predicate SkipFrontier(p: Plan, steps: States, from: StepId, skipped: seq<StepId>, queue: seq<StepId>) {
    forall id, dep :: Needs(p, id, dep) && id in steps && (dep == from || dep in skipped) && dep !in queue ==>
      !steps[id].status.Pending?
  }

  /** The steps skipped so far, each within pending reach of `from`. */
  ghost predicate SkipTrail(p: Plan, before: States, steps: States, from: StepId, skipped: seq<StepId>) {
    && OnlySkips(before, steps) && NoDuplicates(skipped)
    && (forall id :: id in skipped <==> NewlySkipped(before, steps, id))
    && (forall id :: id in skipped ==> PendingDownstream(p, before, from, id))
  }

  lemma TrailAdvances(p: Plan, before: States, middle: States, after: States, from: StepId, skipped: seq<StepId>,
                      current: StepId, direct: seq<StepId>)
    requires SkipTrail(p, before, middle, from, skipped) && (current == from || current in skipped)
    requires OnlySkips(middle, after) && NoDuplicates(direct)
    requires forall id :: id in direct <==> NewlySkipped(middle, after, id)
    requires forall id :: id in direct ==> Needs(p, id, current)
    ensures SkipTrail(p, before, after, from, skipped + direct)
  {
    forall id | id in direct ensures PendingDownstream(p, before, from, id) && id !in skipped {
      assert NewlySkipped(middle, after, id);
      ChainExtends(p, before, from, current, id);
    }
    NoDuplicatesAppend(skipped, direct);
    forall id ensures id in skipped + direct <==> NewlySkipped(before, after, id) {
      if id in before && id !in direct {
        assert !NewlySkipped(middle, after, id);
      }
    }
  }

  /** `skipped` lists the dependents of `current` skipped since `before`. */
  ghost predicate DirectSkips(p: Plan, before: States, steps: States, skipped: seq<StepId>, current: StepId) {
    && OnlySkips(before, steps) && NoDuplicates(skipped)
    && (forall id :: id in skipped <==> NewlySkipped(before, steps, id))
    && (forall id :: id in skipped ==> Needs(p, id, current))
  }

  /** None of the first `k` steps is a pending dependent of `current`. */
  ghost predicate Scanned(d: Definition, steps: States, current: StepId, k: nat) {
    forall j :: 0 <= j < k <= |d.steps| && current in d.steps[j].dependsOn && d.steps[j].id in steps ==>
      !steps[d.steps[j].id].status.Pending?
  }

  lemma ScansOneMore(d: Definition, before: States, after: States, current: StepId, k: nat)
    requires OnlySkips(before, after) && k < |d.steps| && Scanned(d, before, current, k)
    requires current in d.steps[k].dependsOn && d.steps[k].id in after ==> !after[d.steps[k].id].status.Pending?
    ensures Scanned(d, after, current, k + 1)
  {
  }

  /** One pass over the definition, `k` steps in. */
  ghost predicate DirectPass(d: Definition, p: Plan, before: States, steps: States, skipped: seq<StepId>,
                             current: StepId, k: nat) {
    Indexes(p, d) && DirectSkips(p, before, steps, skipped, current) && Scanned(d, steps, current, k)
  }

  lemma DirectPassGoesOn(d: Definition, p: Plan, before: States, steps: States, skipped: seq<StepId>, current: StepId,
                         k: nat)
    requires DirectPass(d, p, before, steps, skipped, current, k) && k < |d.steps|
    requires !(current in d.steps[k].dependsOn && d.steps[k].id in steps && steps[d.steps[k].id].status.Pending?)
    ensures DirectPass(d, p, before, steps, skipped, current, k + 1)
  {
  }

  lemma DirectPassSkips(d: Definition, p: Plan, before: States, steps: States, skipped: seq<StepId>, current: StepId,
                        k: nat)
    requires DirectPass(d, p, before, steps, skipped, current, k) && k < |d.steps|
    requires current in d.steps[k].dependsOn && d.steps[k].id in steps && steps[d.steps[k].id].status.Pending?
    ensures DirectPass(d, p, before, steps[d.steps[k].id := steps[d.steps[k].id].(status := Skipped)],
                       skipped + [d.steps[k].id], current, k + 1)
  {
    DirectSkipsOneMore(p, before, steps, skipped, current, d.steps[k].id);
    ScansOneMore(d, steps, steps[d.steps[k].id := steps[d.steps[k].id].(status := Skipped)], current, k);
  }

  lemma DirectSkipsCover(d: Definition, p: Plan, before: States, after: States, skipped: seq<StepId>, current: StepId)
    requires Indexes(p, d) && DirectSkips(p, before, after, skipped, current) && Scanned(d, after, current, |d.steps|)
    ensures forall id :: id in skipped <==> id in before && before[id].status.Pending? && Needs(p, id, current)
  {
    forall id | id in before && before[id].status.Pending? && Needs(p, id, current) ensures id in skipped {
      var j := ScanCovers(d, p, current, id);
      assert NewlySkipped(before, after, id);
    }
    forall id | id in skipped ensures NewlySkipped(before, after, id) {}
  }

  lemma DirectSkipsOneMore(p: Plan, before: States, steps: States, skipped: seq<StepId>, current: StepId, id: StepId)
    requires DirectSkips(p, before, steps, skipped, current)
    requires id in steps && steps[id].status.Pending? && Needs(p, id, current)
    ensures DirectSkips(p, before, steps[id := steps[id].(status := Skipped)], skipped + [id], current)
  {
    var after := steps[id := steps[id].(status := Skipped)];
    assert !NewlySkipped(before, steps, id);
    NoDuplicatesAppend(skipped, [id]);
    forall x ensures x in skipped + [id] <==> NewlySkipped(before, after, x) {
      assert x in skipped <==> NewlySkipped(before, steps, x);
    }
  }

  lemma FrontierAdvances(p: Plan, before: States, after: States, from: StepId, skipped: seq<StepId>,
                         queue: seq<StepId>, direct: seq<StepId>)
    requires OnlySkips(before, after) && queue != [] && SkipFrontier(p, before, from, skipped, queue)
    requires forall id :: id in direct <==> NewlySkipped(before, after, id)
    requires forall id :: id in direct <==> id in before && before[id].status.Pending? && Needs(p, id, queue[0])
    ensures SkipFrontier(p, after, from, skipped + direct, queue[1..] + direct)
    ensures if direct == [] then after == before else PendingSteps(after) < PendingSteps(before)
  {
    forall id, dep | Needs(p, id, dep) && id in after && (dep == from || dep in skipped + direct)
      && dep !in queue[1..] + direct
      ensures !after[id].status.Pending?
    {
      if dep in queue {
        assert dep == queue[0];
        if before[id].status.Pending? {
          assert id in direct;
        }
      } else {
        assert !before[id].status.Pending?;
      }
    }
    if direct == [] {
      forall id | id in before ensures after[id] == before[id] {
        assert !NewlySkipped(before, after, id);
      }
    } else {
      assert direct[0] in PendingSteps(before) && direct[0] !in PendingSteps(after);
    }
  }

  lemma SkipsAreComplete(p: Plan, before: States, after: States, from: StepId, skipped: seq<StepId>)
    requires OnlySkips(before, after) && SkipFrontier(p, after, from, skipped, [])
    requires forall id :: id in skipped <==> NewlySkipped(before, after, id)
    requires forall id :: id in skipped ==> PendingDownstream(p, before, from, id)
    ensures after == SkipFrom(p, before, from)
  {
    forall id | id in before && PendingDownstream(p, before, from, id) ensures NewlySkipped(before, after, id) {
      var c :| PendingChain(p, before, c) && c[0] == from && c[|c| - 1] == id;
      ClosedSkipReachesChain(p, before, after, from, c);
    }
    forall id | id in before ensures after[id] == SkipFrom(p, before, from)[id] {
      if !PendingDownstream(p, before, from, id) {
        assert !NewlySkipped(before, after, id);
      }
    }
  }

  // --- measures and frames of a batch ------------------------------------------------------

  /** How many segments a step call may still take. */
  ghost function Remaining(p: Plan, s: Sys, id: StepId): nat {
    if id !in s.inFlight || id !in p.steps || id !in s.run.steps then 0
    else if s.inFlight[id].SkipOwed? then 1
    else
      2 + (if s.run.steps[id].attempts < AttemptLimit(p, id) then AttemptLimit(p, id) - s.run.steps[id].attempts else 0)
  }

  ghost function WorkLeft(p: Plan, s: Sys, members: seq<StepDef>): nat {
    if members == [] then 0 else Remaining(p, s, members[0].id) + WorkLeft(p, s, members[1..])
  }

  /** A move of a call in flight. */
  ghost predicate IsSegment(p: Plan, s: Sys, m: Move, id: StepId) {
    (m.CallHandler? || m.Finish? || m.Break? || m.Refuse? || m.Park? || m.SkipAfter?) && m.id == id && Enabled(p, s, m)
  }

  ghost predicate FatalMove(p: Plan, m: Move) {
    (m.Break? || m.Refuse? || m.Lapse?) && m.id in p.steps && !p.steps[m.id].continueOnError
  }

  ghost function FailureOf(p: Plan, m: Move): Option<StepFailure> {
    if FatalMove(p, m) then Some(StepFailure(m.id, m.error)) else None
  }

  lemma SegmentShortens(p: Plan, s: Sys, m: Move, id: StepId)
    requires Shaped(p, s) && IsSegment(p, s, m, id)
    ensures Remaining(p, After(p, s, m), id) < Remaining(p, s, id)
    ensures forall x :: x != id ==> Remaining(p, After(p, s, m), x) == Remaining(p, s, x)
    ensures After(p, s, m).inFlight.Keys <= s.inFlight.Keys
  {
    SegmentSparesOthers(p, s, m, id);
    assert StageFits(p, s, id);
  }

  lemma SegmentSparesOthers(p: Plan, s: Sys, m: Move, id: StepId)
    requires IsSegment(p, s, m, id)
    ensures forall x :: x != id ==> Remaining(p, After(p, s, m), x) == Remaining(p, s, x)
  {
    StepMoveTouches(p, s, m);
  }

  lemma {:induction false} WorkFalls(p: Plan, s: Sys, t: Sys, members: seq<StepDef>, id: StepId)
    requires UniqueIds(members)
    requires Remaining(p, t, id) < Remaining(p, s, id)
    requires forall x :: x != id ==> Remaining(p, t, x) == Remaining(p, s, x)
    ensures WorkLeft(p, t, members) <= WorkLeft(p, s, members)
    ensures InSlice(members, id) ==> WorkLeft(p, t, members) < WorkLeft(p, s, members)
  {
    if members != [] {
      WorkFalls(p, s, t, members[1..], id);
      if InSlice(members, id) {
        var step :| step in members && step.id == id;
        assert step == members[0] || step in members[1..];
      }
    }
  }

  /** What a failing move leaves behind is exactly the failure `executeStep` reports. */
  lemma FatalAfterMove(p: Plan, s: Sys, m: Move)
    requires Shaped(p, s) && Enabled(p, s, m) && IsStepMove(m) && !m.SkipAfter?
    ensures Fatal(p, After(p, s, m).run.steps, m.id) <==> FatalMove(p, m)
    ensures FatalMove(p, m) ==> After(p, s, m).run.steps[m.id].error == Some(m.error)
  {
    StepMoveTouches(p, s, m);
    assert StageFits(p, s, m.id);
  }

  /** The members not yet begun, and the steps of later slices, are all ready. */
  ghost predicate AllReady(p: Plan, steps: States, members: seq<StepDef>, later: set<StepId>) {
    && (forall step :: step in members ==> Ready(p, steps, step.id) && step.id !in later)
    && (forall id :: id in later ==> Ready(p, steps, id))
  }

  /** Mid-batch: later slices still ready, calls in flight all members, fatal failures all recorded. */
  ghost predicate SliceProgress(p: Plan, s: Sys, slice: seq<StepDef>, later: set<StepId>,
                                outcomes: map<StepId, StepFailure>) {
    && (forall id :: id in s.inFlight ==> InSlice(slice, id))
    && (forall id :: id in later ==> Ready(p, s.run.steps, id))
    && (forall id :: Fatal(p, s.run.steps, id) <==> id in outcomes)
    && (forall id :: id in outcomes ==>
          && id in s.run.steps && outcomes[id] == StepFailure(id, s.run.steps[id].error.GetOr("step failed"))
          && InSlice(slice, id))
  }

  /** From this point on, never more than `max` step calls were in flight. */
  ghost predicate WithinSlots(trace: seq<Sys>, from: nat, max: nat) {
    forall i :: from <= i < |trace| ==> |trace[i].inFlight| <= max
  }

  ghost predicate AllInSlice(s: Sys, slice: seq<StepDef>) { forall id :: id in s.inFlight ==> InSlice(slice, id) }

  lemma {:induction false} IdsWithin(ids: set<StepId>, slice: seq<StepDef>)
    requires forall id :: id in ids ==> InSlice(slice, id)
    ensures |ids| <= |slice|
  {
    if slice == [] {
      assert forall id :: id in ids ==> exists step :: step in slice && step.id == id;
      assert ids == {};
    } else {
      var last := slice[|slice| - 1].id;
      forall id | id in ids - {last} ensures InSlice(slice[..|slice| - 1], id) {
        var step :| step in slice && step.id == id;
        assert slice == slice[..|slice| - 1] + [slice[|slice| - 1]];
        assert step in slice[..|slice| - 1];
      }
      IdsWithin(ids - {last}, slice[..|slice| - 1]);
      assert last in ids ==> ids == (ids - {last}) + {last};
      assert last !in ids ==> ids == ids - {last};
    }
  }

  /** One more move by members of a slice that fits leaves the bound intact. */
  lemma SlotsOneMore(p: Plan, before: seq<Sys>, init: seq<Move>, trace: seq<Sys>, moves: seq<Move>, m: Move,
                     slice: seq<StepDef>, from: nat, max: nat)
    requires IsTrace(p, before, init) && IsTrace(p, trace, moves) && moves == init + [m]
    requires WithinSlots(before, from, max) && AllInSlice(trace[|moves|], slice) && |slice| <= max
    ensures WithinSlots(trace, from, max)
  {
    TraceDetermined(p, before, init, trace, moves);
    var s := trace[|moves|];
    IdsWithin(s.inFlight.Keys, slice);
    assert |s.inFlight| == |s.inFlight.Keys|;
    forall i | from <= i < |trace| ensures |trace[i].inFlight| <= max {
      if i < |before| {
        assert trace[..|before|][i] == before[i];
      }
    }
  }

  /** The bound on one stretch and the bound on the next give the bound on both. */
  lemma SlotsJoin(p: Plan, before: seq<Sys>, init: seq<Move>, trace: seq<Sys>, moves: seq<Move>, from: nat, max: nat)
    requires IsTrace(p, before, init) && IsTrace(p, trace, moves) && init <= moves
    requires WithinSlots(before, from, max) && WithinSlots(trace, |before|, max)
    ensures WithinSlots(trace, from, max)
  {
    TraceDetermined(p, before, init, trace, moves);
    forall i | from <= i < |trace| ensures |trace[i].inFlight| <= max {
      if i < |before| {
        assert trace[..|before|][i] == before[i];
      }
    }
  }

  ghost predicate InSlice(slice: seq<StepDef>, id: StepId) {
    exists step :: step in slice && step.id == id
  }

  lemma SegmentKeepsFatal(p: Plan, s: Sys, m: Move, id: StepId, slice: seq<StepDef>, later: set<StepId>,
                          outcomes: map<StepId, StepFailure>)
    requires Shaped(p, s) && IsSegment(p, s, m, id) && SliceProgress(p, s, slice, later, outcomes)
    ensures forall x :: Fatal(p, After(p, s, m).run.steps, x) <==> x in outcomes || (x == id && FatalMove(p, m))
    ensures FatalMove(p, m) ==> After(p, s, m).run.steps[id].error == Some(m.error)
    ensures id !in outcomes
    ensures forall x :: x in outcomes ==> x in s.run.steps && After(p, s, m).run.steps[x] == s.run.steps[x]
  {
    SegmentLeavesFatal(p, s, m, id);
    FatalAfterSegment(p, s, m, id);
    assert Fatal(p, s.run.steps, id) <==> id in outcomes;
  }

  /** A step in a batch is not failed yet, and its move fails no other step. */
  lemma SegmentLeavesFatal(p: Plan, s: Sys, m: Move, id: StepId)
    requires Shaped(p, s) && IsSegment(p, s, m, id)
    ensures !Fatal(p, s.run.steps, id) && !(m.SkipAfter? && FatalMove(p, m))
    ensures forall x :: x != id ==> (Fatal(p, After(p, s, m).run.steps, x) <==> Fatal(p, s.run.steps, x))
    ensures forall x :: x != id && Fatal(p, s.run.steps, x) ==>
      x in s.run.steps && After(p, s, m).run.steps[x] == s.run.steps[x]
  {
    StepMoveTouches(p, s, m);
    assert StageFits(p, s, id);
  }

  lemma FatalAfterSegment(p: Plan, s: Sys, m: Move, id: StepId)
    requires Shaped(p, s) && IsSegment(p, s, m, id)
    ensures Fatal(p, After(p, s, m).run.steps, id) <==> FatalMove(p, m)
    ensures FatalMove(p, m) ==> After(p, s, m).run.steps[id].error == Some(m.error)
  {
    if m.SkipAfter? {
      StepMoveTouches(p, s, m);
      assert StageFits(p, s, id);
    } else {
      FatalAfterMove(p, s, m);
    }
  }

  lemma SegmentKeepsReady(p: Plan, trace: seq<Sys>, moves: seq<Move>, s: Sys, m: Move, id: StepId, later: set<StepId>)
    requires Sound(p) && IsTrace(p, trace, moves) && s == trace[|moves|] && s.run.status.RunRunning?
    requires IsSegment(p, s, m, id) && forall x :: x in later ==> Ready(p, s.run.steps, x)
    ensures forall x :: x in later ==> Ready(p, After(p, s, m).run.steps, x)
  {
    TraceIsReachable(p, trace, moves);
    forall x | x in later ensures Ready(p, After(p, s, m).run.steps, x) {
      ReadyUntilBegun(p, s, m, x);
    }
  }

  /** Each segment brings the slice nearer its end. */
  lemma SegmentShortensSlice(p: Plan, trace: seq<Sys>, moves: seq<Move>, s: Sys, m: Move, id: StepId,
                             slice: seq<StepDef>)
    requires Sound(p) && IsTrace(p, trace, moves) && s == trace[|moves|] && s.run.status.RunRunning?
    requires IsSegment(p, s, m, id) && UniqueIds(slice) && InSlice(slice, id)
    ensures WorkLeft(p, After(p, s, m), slice) < WorkLeft(p, s, slice)
    ensures PendingSteps(After(p, s, m).run.steps) <= PendingSteps(s.run.steps)
    ensures After(p, s, m).run.status.RunRunning? && After(p, s, m).inFlight.Keys <= s.inFlight.Keys
  {
    TraceIsReachable(p, trace, moves);
    PendingOnlyFalls(p, s, m);
    SegmentShortens(p, s, m, id);
    WorkFalls(p, s, After(p, s, m), slice, id);
    StepMoveTouches(p, s, m);
  }

  lemma SegmentKeepsFatalOfTrace(p: Plan, trace: seq<Sys>, moves: seq<Move>, s: Sys, m: Move, id: StepId,
                                 slice: seq<StepDef>, later: set<StepId>, outcomes: map<StepId, StepFailure>)
    requires Sound(p) && IsTrace(p, trace, moves) && s == trace[|moves|]
    requires IsSegment(p, s, m, id) && SliceProgress(p, s, slice, later, outcomes)
    ensures forall x :: Fatal(p, After(p, s, m).run.steps, x) <==> x in outcomes || (x == id && FatalMove(p, m))
    ensures FatalMove(p, m) ==> id in After(p, s, m).run.steps && After(p, s, m).run.steps[id].error == Some(m.error)
    ensures id !in outcomes
    ensures forall x :: x in outcomes ==>
      x in s.run.steps && x in After(p, s, m).run.steps && After(p, s, m).run.steps[x] == s.run.steps[x]
  {
    TraceIsReachable(p, trace, moves);
    SegmentKeepsFatal(p, s, m, id, slice, later, outcomes);
  }

  lemma ProgressFrame(p: Plan, s: Sys, t: Sys, id: StepId, failure: Option<StepFailure>,
                      slice: seq<StepDef>, later: set<StepId>, outcomes: map<StepId, StepFailure>)
    requires SliceProgress(p, s, slice, later, outcomes) && InSlice(slice, id) && id !in outcomes
    requires t.inFlight.Keys <= s.inFlight.Keys && forall x :: x in later ==> Ready(p, t.run.steps, x)
    requires forall x :: Fatal(p, t.run.steps, x) <==> x in outcomes || (x == id && failure.Some?)
    requires failure.Some? ==>
      id in t.run.steps && failure.value == StepFailure(id, t.run.steps[id].error.GetOr("step failed"))
    requires forall x :: x in outcomes ==> x in s.run.steps && x in t.run.steps && t.run.steps[x] == s.run.steps[x]
    ensures SliceProgress(p, t, slice, later, if failure.Some? then outcomes[id := failure.value] else outcomes)
  {
  }

  lemma SegmentKeepsProgress(p: Plan, trace: seq<Sys>, moves: seq<Move>, s: Sys, m: Move, id: StepId,
                             slice: seq<StepDef>, later: set<StepId>, outcomes: map<StepId, StepFailure>)
    requires Sound(p) && IsTrace(p, trace, moves) && s == trace[|moves|] && s.run.status.RunRunning?
    requires IsSegment(p, s, m, id) && UniqueIds(slice) && id in s.inFlight
      && SliceProgress(p, s, slice, later, outcomes)
    ensures SliceProgress(p, After(p, s, m), slice, later,
                          if FailureOf(p, m).Some? then outcomes[id := FailureOf(p, m).value] else outcomes)
    ensures WorkLeft(p, After(p, s, m), slice) < WorkLeft(p, s, slice)
    ensures PendingSteps(After(p, s, m).run.steps) <= PendingSteps(s.run.steps)
    ensures After(p, s, m).run.status.RunRunning?
  {
    SegmentShortensSlice(p, trace, moves, s, m, id, slice);
    SegmentKeepsReady(p, trace, moves, s, m, id, later);
    SegmentKeepsFatalOfTrace(p, trace, moves, s, m, id, slice, later, outcomes);
    ProgressFrame(p, s, After(p, s, m), id, FailureOf(p, m), slice, later, outcomes);
  }

  lemma BeginKeepsReady(p: Plan, trace: seq<Sys>, moves: seq<Move>, s: Sys, slice: seq<StepDef>, later: set<StepId>)
    requires Sound(p) && IsTrace(p, trace, moves) && s == trace[|moves|] && s.run.status.RunRunning?
    requires slice != [] && UniqueIds(slice) && AllReady(p, s.run.steps, slice, later)
    ensures AllReady(p, Beginning(s, slice[0].id).run.steps, slice[1..], later)
    ensures NoneFatal(p, s.run.steps) ==> NoneFatal(p, Beginning(s, slice[0].id).run.steps)
    ensures PendingSteps(Beginning(s, slice[0].id).run.steps) < PendingSteps(s.run.steps)
  {
    var m := Begin(slice[0].id);
    TraceIsReachable(p, trace, moves);
    PendingOnlyFalls(p, s, m);
    forall step | step in slice[1..] ensures Ready(p, After(p, s, m).run.steps, step.id) {
      ReadyUntilBegun(p, s, m, step.id);
    }
    forall x | x in later ensures Ready(p, After(p, s, m).run.steps, x) {
      ReadyUntilBegun(p, s, m, x);
    }
    if NoneFatal(p, s.run.steps) {
      forall x ensures !Fatal(p, After(p, s, m).run.steps, x) {
        assert !Fatal(p, s.run.steps, x);
      }
    }
  }

  // --- waiting and compensation ------------------------------------------------------------

  /** The condition under which `tick` resumes a run for this waiting step. */
  predicate DueStep(st: StepState, now: int) {
    (st.resumeAt.Some? && st.resumeAt.value <= now) || st.approvalId.Some?
  }

  predicate Due(steps: States, now: int) {
    exists id :: id in steps && steps[id].status.Waiting? && DueStep(steps[id], now)
  }

  lemma PendingFallsOfTrace(p: Plan, trace: seq<Sys>, moves: seq<Move>, s: Sys, m: Move)
    requires Sound(p) && IsTrace(p, trace, moves) && s == trace[|moves|] && Enabled(p, s, m)
    ensures PendingSteps(After(p, s, m).run.steps) <= PendingSteps(s.run.steps)
  {
    TraceIsReachable(p, trace, moves);
    PendingOnlyFalls(p, s, m);
  }

  /** Strictly falling completion numbers. */
  ghost predicate Descending(steps: States, ids: seq<StepId>) {
    forall i, j :: 0 <= i < j < |ids| ==> Later(steps, ids[i], ids[j])
  }

  lemma NumbersDiffer(p: Plan, s: Sys, a: StepId, b: StepId)
    requires Numbered(p, s) && a in s.run.steps && b in s.run.steps && a != b && s.run.steps[a].Done()
      && s.run.steps[b].Done()
    ensures Later(s.run.steps, a, b) || Later(s.run.steps, b, a)
  {
    NumberedExactly(p, s, a);
    NumberedExactly(p, s, b);
  }

  lemma TraceIsNumbered(p: Plan, trace: seq<Sys>, moves: seq<Move>)
    requires Sound(p) && IsTrace(p, trace, moves)
    ensures Numbered(p, trace[|moves|])
  {
    TraceIsReachable(p, trace, moves);
  }

  lemma DistinctNumbers(p: Plan, trace: seq<Sys>, moves: seq<Move>, s: Sys, id: StepId)
    requires Sound(p) && IsTrace(p, trace, moves) && s == trace[|moves|] && id in s.run.steps && s.run.steps[id].Done()
    ensures forall other :: other in s.run.steps && s.run.steps[other].Done() && other != id ==>
      Later(s.run.steps, other, id) || Later(s.run.steps, id, other)
  {
    TraceIsNumbered(p, trace, moves);
    forall other | other in s.run.steps && s.run.steps[other].Done() && other != id
      ensures Later(s.run.steps, other, id) || Later(s.run.steps, id, other)
    {
      NumbersDiffer(p, s, other, id);
    }
  }

  predicate CanCompensate(p: Plan, registered: set<string>, id: StepId) {
    id in p.steps && TruthyText(p.steps[id].compensate) && p.steps[id].compensate.value in registered
  }

  lemma NothingUndoneYet(p: Plan, trace: seq<Sys>, moves: seq<Move>, s: Sys)
    requires Sound(p) && IsTrace(p, trace, moves) && s == trace[|moves|] && s.run.status.RunRunning?
    ensures s.undone == []
  {
    TraceIsReachable(p, trace, moves);
  }

  /** Compensation has dealt with the first `i` steps of the undo order. */
  ghost predicate UndoProgress(p: Plan, before: States, steps: States, completed: seq<StepId>, undone: seq<StepId>,
                               registered: set<string>, i: nat) {
    && i <= |completed| && steps.Keys == before.Keys && Descending(before, completed) && Descending(before, undone)
    && (forall k :: 0 <= k < |completed| ==> Undoable(p, before, completed[k]))
    && (forall id :: id in undone ==> id in completed[..i])
    && (forall k :: 0 <= k < i ==> (completed[k] in undone <==> CanCompensate(p, registered, completed[k])))
    && (forall id :: id in before ==>
         steps[id] == before[id] || (id in undone && steps[id] == before[id].(status := Compensated)))
  }

  lemma NotYetUndone(p: Plan, before: States, steps: States, completed: seq<StepId>, undone: seq<StepId>,
                     registered: set<string>, i: nat)
    requires UndoProgress(p, before, steps, completed, undone, registered, i) && i < |completed|
    ensures Undoable(p, before, completed[i]) && completed[i] in steps && completed[i] !in undone
      && steps[completed[i]] == before[completed[i]]
    ensures forall u :: u in undone ==> Later(before, u, completed[i]) && Later(steps, u, completed[i])
  {
    forall u | u in undone ensures Later(before, u, completed[i]) && u != completed[i] {
      var k :| 0 <= k < i && completed[..i][k] == u;
    }
  }

  lemma UndoStepProgress(p: Plan, before: States, steps: States, completed: seq<StepId>, undone: seq<StepId>,
                         registered: set<string>, i: nat, worked: bool)
    requires UndoProgress(p, before, steps, completed, undone, registered, i) && i < |completed|
    requires CanCompensate(p, registered, completed[i])
    ensures completed[i] in steps && steps[completed[i]].status.Completed?
      && forall u :: u in undone ==> Later(steps, u, completed[i])
    ensures UndoProgress(p, before,
                         if worked then steps[completed[i] := steps[completed[i]].(status := Compensated)] else steps,
      completed, undone + [completed[i]], registered, i + 1)
  {
    NotYetUndone(p, before, steps, completed, undone, registered, i);
    assert completed[..i + 1] == completed[..i] + [completed[i]];
    forall k | 0 <= k < i ensures completed[k] != completed[i] {
      assert Later(before, completed[k], completed[i]);
    }
  }

  lemma UndoSkipProgress(p: Plan, before: States, steps: States, completed: seq<StepId>, undone: seq<StepId>,
                         registered: set<string>, i: nat)
    requires UndoProgress(p, before, steps, completed, undone, registered, i) && i < |completed|
    requires !CanCompensate(p, registered, completed[i])
    ensures UndoProgress(p, before, steps, completed, undone, registered, i + 1)
  {
    NotYetUndone(p, before, steps, completed, undone, registered, i);
    assert completed[..i + 1] == completed[..i] + [completed[i]];
  }

  lemma UndoFinished(p: Plan, before: States, steps: States, completed: seq<StepId>, undone: seq<StepId>,
                     registered: set<string>)
    requires UndoProgress(p, before, steps, completed, undone, registered, |completed|)
    ensures forall id :: id in undone <==> id in completed && CanCompensate(p, registered, id)
    ensures PendingSteps(steps) == PendingSteps(before)
  {
    assert completed[..|completed|] == completed;
    forall id | id in completed ensures id in undone <==> CanCompensate(p, registered, id) {
      var k :| 0 <= k < |completed| && completed[k] == id;
    }
  }

  // --- the driver --------------------------------------------------------------------------

  predicate IsTerminal(status: RunStatus) {
    status.RunCompleted? || status.RunFailed? || status.RunCompensated? || status.Cancelled?
  }

  predicate IsTerminalStep(status: StepStatus) {
    status.Completed? || status.Skipped? || status.Failed? || status.Compensated?
  }

  function SkipUnfinished(steps: States): States {
    map id | id in steps :: if IsTerminalStep(steps[id].status) then steps[id] else steps[id].(status := Skipped)
  }

  function CancelledRun(r: Run): Run {
    if IsTerminal(r.status) then r else r.(status := Cancelled, steps := SkipUnfinished(r.steps))
  }

  /** A run that was cancelled or has fewer pending steps: not the steps it started from, if any of them was pending. */
  ghost predicate Moved(before: States, result: Run) {
    result.status.Cancelled? || PendingSteps(result.steps) < PendingSteps(before)
  }

  lemma SomethingReady(p: Plan, steps: States, ready: seq<StepDef>)
    requires ready != [] && forall step :: step in ready ==> Ready(p, steps, step.id)
    ensures !NoneReady(p, steps)
  {
    assert Ready(p, steps, ready[0].id);
  }

  /** How `drive` may hand a run back. */
  ghost predicate EndsWell(p: Plan, s: Sys, result: Run) {
    && result.status in {Suspended, RunCompleted, RunFailed, RunCompensated, Cancelled}
    && (result.status.Suspended? ==>
         AnyWaiting(result.steps) && NoneReady(p, result.steps) && NoneFatal(p, result.steps))
    && (result.status.RunCompleted? ==> result == s.run && OutOfWork(p, s))
    && (result.status.Cancelled? ==> forall id :: id in result.steps ==> IsTerminalStep(result.steps[id].status))
  }

  lemma SuspendedIsNotFatal(p: Plan, trace: seq<Sys>, moves: seq<Move>, s: Sys)
    requires Sound(p) && IsTrace(p, trace, moves) && s == trace[|moves|] && s.run.status.Suspended?
    ensures NoneFatal(p, s.run.steps)
  {
    TraceIsReachable(p, trace, moves);
  }

  lemma WaitersAreKnown(p: Plan, trace: seq<Sys>, moves: seq<Move>, s: Sys, id: StepId)
    requires Sound(p) && IsTrace(p, trace, moves) && s == trace[|moves|] && id in s.run.steps
      && s.run.steps[id].status.Waiting?
    ensures id in p.steps
  {
    TraceIsReachable(p, trace, moves);
  }

  /** The steps a scan has not come to yet are as they were. */
  ghost predicate LaterUntouched(d: Definition, before: States, steps: States, k: nat) {
    steps.Keys == before.Keys
      && forall j :: k <= j < |d.steps| && d.steps[j].id in before ==> steps[d.steps[j].id] == before[d.steps[j].id]
  }

  lemma NextIsUntouched(d: Definition, before: States, steps: States, k: nat, after: States, eventType: string)
    requires UniqueIds(d.steps) && k < |d.steps| && LaterUntouched(d, before, steps, k)
    requires after == steps
      || (d.steps[k].id in steps && d.steps[k].id in after && after == steps[d.steps[k].id := after[d.steps[k].id]])
    ensures Awaits(d.steps[k], steps, eventType) == Awaits(d.steps[k], before, eventType)
    ensures LaterUntouched(d, before, after, k + 1)
  {
    forall j | k + 1 <= j < |d.steps| && d.steps[j].id in before ensures after[d.steps[j].id] == before[d.steps[j].id] {
      assert d.steps[k].id != d.steps[j].id;
    }
  }

  /** No step but `id` has begun or ended a wait, or changed while waiting. */
  ghost predicate WaitersKept(before: States, after: States, id: StepId) {
    && after.Keys == before.Keys
    && forall x :: x in before && x != id && (before[x].status.Waiting? || after[x].status.Waiting?) ==>
         after[x] == before[x]
  }

  lemma WaitersKeptTwice(a: States, b: States, c: States, id: StepId)
    requires WaitersKept(a, b, id) && WaitersKept(b, c, id)
    ensures WaitersKept(a, c, id)
  {
  }

  lemma MoveKeepsWaiters(p: Plan, s: Sys, m: Move)
    requires IsStepMove(m) && Enabled(p, s, m)
    ensures WaitersKept(s.run.steps, After(p, s, m).run.steps, m.id)
  {
    StepMoveTouches(p, s, m);
  }

  /** The waiting steps a scan has not come to yet are as they were. */
  ghost predicate WaitersAhead(d: Definition, before: States, steps: States, k: nat) {
    && steps.Keys == before.Keys
    && forall j :: k <= j < |d.steps| && d.steps[j].id in before
         && (before[d.steps[j].id].status.Waiting? || steps[d.steps[j].id].status.Waiting?)
         ==> steps[d.steps[j].id] == before[d.steps[j].id]
  }

  lemma NextWaiterIsAhead(d: Definition, before: States, steps: States, k: nat, after: States)
    requires UniqueIds(d.steps) && k < |d.steps| && WaitersAhead(d, before, steps, k)
      && WaitersKept(steps, after, d.steps[k].id)
    ensures WaitersAhead(d, before, after, k + 1)
  {
    forall j | k + 1 <= j < |d.steps| && d.steps[j].id in before
      && (before[d.steps[j].id].status.Waiting? || after[d.steps[j].id].status.Waiting?)
      ensures after[d.steps[j].id] == before[d.steps[j].id]
    {
      assert d.steps[k].id != d.steps[j].id;
    }
  }

  /** What the delivery loop leaves behind, `k` steps in: awaiting steps completed, the others as they were. */
  ghost predicate DeliveredUpTo(d: Definition, before: States, after: States, eventType: string, k: nat) {
    && after.Keys == before.Keys
    && forall j :: 0 <= j < k <= |d.steps| && d.steps[j].id in before ==>
         if Awaits(d.steps[j], before, eventType) then after[d.steps[j].id].status.Completed?
           else after[d.steps[j].id] == before[d.steps[j].id]
  }

  lemma DeliveredOneMore(d: Definition, before: States, steps: States, after: States, eventType: string, k: nat)
    requires UniqueIds(d.steps) && k < |d.steps| && DeliveredUpTo(d, before, steps, eventType, k)
      && LaterUntouched(d, before, steps, k)
    requires if Awaits(d.steps[k], steps, eventType)
             then d.steps[k].id in after && after == steps[d.steps[k].id := after[d.steps[k].id]]
               && after[d.steps[k].id].status.Completed?
             else after == steps
    ensures DeliveredUpTo(d, before, after, eventType, k + 1)
  {
    forall j | 0 <= j < k && d.steps[j].id in before ensures after[d.steps[j].id] == steps[d.steps[j].id] {
      assert d.steps[j].id != d.steps[k].id;
    }
  }

  ghost predicate AwaitsIn(p: Plan, steps: States, id: StepId, eventType: string) {
    id in p.steps && Awaits(p.steps[id], steps, eventType)
  }

  /** A pending step whose every dependency has completed or waits for this event. */
  ghost predicate OnlyNeedsEvent(p: Plan, steps: States, id: StepId, eventType: string) {
    && id in p.steps && id in steps && steps[id].status.Pending?
    && forall dep :: Needs(p, id, dep) ==>
         dep in steps && (steps[dep].status.Completed? || AwaitsIn(p, steps, dep, eventType))
  }

  /**
   * The run `notifyEvent` saves before it drives has a ready step, if and only if in the stored run
   * some pending step lacks nothing but this event.
   */
  lemma SavedRunIsReadyExactly(p: Plan, d: Definition, before: States, after: States, eventType: string)
    requires Indexes(p, d) && before.Keys == p.steps.Keys && DeliveredUpTo(d, before, after, eventType, |d.steps|)
    ensures (exists id :: Ready(p, after, id)) <==> exists id :: OnlyNeedsEvent(p, before, id, eventType)
  {
    ReadyAsNeeded(p, d, before, after, eventType);
  }

  lemma ReadyAsNeeded(p: Plan, d: Definition, before: States, after: States, eventType: string)
    requires Indexes(p, d) && before.Keys == p.steps.Keys && DeliveredUpTo(d, before, after, eventType, |d.steps|)
    ensures forall id :: Ready(p, after, id) <==> OnlyNeedsEvent(p, before, id, eventType)
  {
    forall id | id in p.steps ensures DeliveredAt(p, before, after, id, eventType) {
      StepIsDelivered(p, d, before, after, eventType, id);
    }
    forall id ensures Ready(p, after, id) <==> OnlyNeedsEvent(p, before, id, eventType) {
      ReadyOnceDelivered(p, before, after, id, eventType);
    }
  }

  ghost predicate DeliveredAt(p: Plan, before: States, after: States, id: StepId, eventType: string) {
    && id in before && id in after
    && if AwaitsIn(p, before, id, eventType) then after[id].status.Completed? else after[id] == before[id]
  }

  lemma StepIsDelivered(p: Plan, d: Definition, before: States, after: States, eventType: string, id: StepId)
    requires Indexes(p, d) && before.Keys == p.steps.Keys && DeliveredUpTo(d, before, after, eventType, |d.steps|)
      && id in p.steps
    ensures DeliveredAt(p, before, after, id, eventType)
  {
    var j :| 0 <= j < |d.steps| && d.steps[j].id == id;
    assert p.steps[id] == d.steps[j];
  }

  lemma ReadyOnceDelivered(p: Plan, before: States, after: States, id: StepId, eventType: string)
    requires Sound(p) && after.Keys == before.Keys == p.steps.Keys
    requires forall x :: x in p.steps ==> DeliveredAt(p, before, after, x, eventType)
    ensures Ready(p, after, id) <==> OnlyNeedsEvent(p, before, id, eventType)
  {
    forall dep | Needs(p, id, dep)
      ensures dep in p.steps
        && (after[dep].status.Completed? <==> before[dep].status.Completed? || AwaitsIn(p, before, dep, eventType))
    {
      assert DeliveredAt(p, before, after, dep, eventType);
    }
    if id in p.steps {
      assert DeliveredAt(p, before, after, id, eventType);
    }
  }

  /** A step waiting for an event of this type. */
  predicate Awaits(step: StepDef, steps: States, eventType: string) {
    step.id in steps && steps[step.id].status.Waiting? && step.kind.Event? && step.event.Some?
      && step.event.value.eventType == eventType
  }

  /** An event reaches the waiting event steps of its own type and no others. */
  lemma AwaitsExactly(step: StepDef, steps: States, eventType: string)
    ensures Awaits(step, steps, eventType) <==>
      && step.kind == Event && step.id in steps && steps[step.id].status == Waiting
      && exists timeoutMs :: step.event == Some(EventSpec(eventType, timeoutMs))
  {
    if step.event.Some? {
      assert step.event.value == EventSpec(step.event.value.eventType, step.event.value.timeoutMs);
    }
  }

  /** The ready steps of a list, in its order. */
  ghost function ReadyAmong(p: Plan, steps: States, list: seq<StepDef>): seq<StepDef> {
    if list == [] then []
    else
      var last := list[|list| - 1];
      ReadyAmong(p, steps, list[..|list| - 1]) + if Ready(p, steps, last.id) then [last] else []
  }

  lemma ReadyAmongNext(p: Plan, steps: States, list: seq<StepDef>, step: StepDef)
    ensures ReadyAmong(p, steps, list + [step]) ==
      ReadyAmong(p, steps, list) + if Ready(p, steps, step.id) then [step] else []
  {
    assert (list + [step])[..|list|] == list;
  }

  lemma {:induction false} ReadyAmongExact(p: Plan, steps: States, list: seq<StepDef>)
    ensures forall step :: step in ReadyAmong(p, steps, list) <==> step in list && Ready(p, steps, step.id)
    ensures UniqueIds(list) ==> UniqueIds(ReadyAmong(p, steps, list))
  {
    if list != [] {
      var init, last := list[..|list| - 1], list[|list| - 1];
      assert list == init + [last];
      ReadyAmongExact(p, steps, init);
      if UniqueIds(list) {
        var ready := ReadyAmong(p, steps, init);
        forall i | 0 <= i < |ready| ensures ready[i].id != last.id {
          assert ready[i] in init;
        }
      }
    }
  }

  lemma NothingReady(d: Definition, p: Plan, steps: States, ready: seq<StepDef>)
    requires Indexes(p, d) && ready == []
    requires forall step :: step in ready <==> step in d.steps && Ready(p, steps, step.id)
    ensures NoneReady(p, steps)
  {
    forall id ensures !Ready(p, steps, id) {
      if id in p.steps {
        var j :| 0 <= j < |d.steps| && d.steps[j].id == id;
        assert d.steps[j] !in ready;
      }
    }
  }
}
