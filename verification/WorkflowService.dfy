/** packages/workflow-engine/src/workflow-service.ts: the periodic tick over suspended runs. */
module WorkflowService {
  import opened Wrappers
  import opened WorkflowTypes
  import opened RunMachine
  import opened RunTheorems
  import opened DriverProofs
  import opened Executor

  predicate DueRun(r: Run, now: int) {
    r.status.Suspended? && Due(r.steps, now)
  }

  /** The filter admits a suspended run with a wait that is past its time or hangs on an approval. */
  lemma DueExactly(r: Run, now: int)
    ensures DueRun(r, now) <==> r.status == Suspended && exists id ::
      && id in r.steps && r.steps[id].status == Waiting
      && (r.steps[id].approvalId != None || exists at :: r.steps[id].resumeAt == Some(at) && at <= now)
  {
    forall id | id in r.steps
      ensures DueStep(r.steps[id], now) <==>
        r.steps[id].approvalId != None || exists at :: r.steps[id].resumeAt == Some(at) && at <= now
    {
      if r.steps[id].resumeAt.Some? {
        assert r.steps[id].resumeAt == Some(r.steps[id].resumeAt.value);
      }
    }
  }

  // --- the periodic tick -------------------------------------------------------------------

  /** All there is to know of one run between ticks. */
  datatype Snapshot = Snapshot(plan: Plan, view: Sys, stored: Run, moves: seq<Move>)

  /** The run was driven on and came to rest again. */
  ghost predicate DrivenOn(before: Snapshot, after: Snapshot) {
    after.plan == before.plan && EndsWell(after.plan, after.view, after.stored) && before.moves < after.moves
  }

  ghost predicate Ascending(picked: seq<nat>, n: nat) {
    && (forall i :: 0 <= i < |picked| ==> picked[i] < n)
    && (forall i, j :: 0 <= i < j < |picked| ==> picked[i] < picked[j])
  }

  /**
   * What a tick has done once it has seen the first `n` runs: those the filter calls due were resumed,
   * in order and once each, unless their resume threw; all the others are as they were.
   */
  ghost predicate Ticked(before: seq<Snapshot>, after: seq<Snapshot>, n: nat, now: int,
                         resumed: seq<Run>, woken: seq<nat>, threw: set<nat>) {
    && n <= |before| == |after|
    && (forall i :: 0 <= i < n ==> ((i in woken || i in threw) <==> DueRun(before[i].stored, now)))
    && Ascending(woken, n) && (forall i :: i in threw ==> i < n && i !in woken)
    && |resumed| == |woken| && (forall j :: 0 <= j < |woken| ==> resumed[j] == after[woken[j]].stored)
    && (forall i :: 0 <= i < |before| ==> if i in woken then DrivenOn(before[i], after[i]) else after[i] == before[i])
  }

  lemma TickedNotDue(before: seq<Snapshot>, after: seq<Snapshot>, n: nat, now: int,
                     resumed: seq<Run>, woken: seq<nat>, threw: set<nat>)
    requires Ticked(before, after, n, now, resumed, woken, threw) && n < |before| && !DueRun(after[n].stored, now)
    ensures Ticked(before, after, n + 1, now, resumed, woken, threw)
  {
  }

  lemma TickedThrew(before: seq<Snapshot>, after: seq<Snapshot>, n: nat, now: int,
                    resumed: seq<Run>, woken: seq<nat>, threw: set<nat>)
    requires Ticked(before, after, n, now, resumed, woken, threw) && n < |before| && DueRun(after[n].stored, now)
    ensures Ticked(before, after, n + 1, now, resumed, woken, threw + {n})
  {
  }

  lemma TickedWoke(before: seq<Snapshot>, after: seq<Snapshot>, n: nat, now: int,
                   resumed: seq<Run>, woken: seq<nat>, threw: set<nat>, driven: Snapshot)
    requires Ticked(before, after, n, now, resumed, woken, threw) && n < |before| && DueRun(after[n].stored, now)
    requires DrivenOn(after[n], driven)
    ensures Ticked(before, after[n := driven], n + 1, now, resumed + [driven.stored], woken + [n], threw)
  {
    forall i | 0 <= i < n + 1 ensures i in woken + [n] <==> i in woken || i == n {}
  }

  class WorkflowService {
    const runs: seq<WorkflowExecutor>
    var ticking: bool

    constructor (runs: seq<WorkflowExecutor>)
      requires forall i :: 0 <= i < |runs| ==> runs[i].Valid() && runs[i].AtRest()
      requires forall i, j :: 0 <= i < j < |runs| ==> runs[i] != runs[j]
      ensures this.runs == runs && !ticking && Valid()
    {
      this.runs := runs;
      ticking := false;
    }

    ghost function Objects(): set<WorkflowExecutor> {
      set i | 0 <= i < |runs| :: runs[i]
    }

    /** Every run is at rest between ticks, and none is listed twice. */
    ghost predicate Valid()
      reads Objects()
    {
      && (forall i :: 0 <= i < |runs| ==> runs[i].Valid() && runs[i].AtRest())
      && (forall i, j :: 0 <= i < j < |runs| ==> runs[i] != runs[j])
    }

    ghost function SnapshotOf(run: WorkflowExecutor): Snapshot
      reads run
    {
      Snapshot(run.plan, run.View(), run.stored, run.moves)
    }

    ghost function Snapshots(): (all: seq<Snapshot>)
      reads Objects()
      ensures |all| == |runs|
    {
      seq(|runs|, i requires 0 <= i < |runs| reads Objects() => SnapshotOf(runs[i]))
    }

    /** The call to `resume`: it throws when the run or its definition is no longer there. */
    method TryResume(run: WorkflowExecutor, now: int) returns (result: Option<Run>)
      requires run.Valid() && run.AtRest() && DueRun(run.stored, now)
      modifies run
      ensures run.Valid() && run.AtRest()
      ensures if result.Some? then result.value == run.stored && DrivenOn(old(SnapshotOf(run)), SnapshotOf(run))
        else SnapshotOf(run) == old(SnapshotOf(run))
    {
      var found: bool := *;
      if !found {
        return None;
      }
      var after := run.Resume(now);
      result := Some(after);
    }

    method ResumeAt(k: nat, now: int) returns (result: Option<Run>, ghost driven: Snapshot)
      requires Valid() && k < |runs| && DueRun(runs[k].stored, now)
      modifies runs[k]
      ensures Valid() && Snapshots() == old(Snapshots())[k := driven]
      ensures if result.None? then driven == old(Snapshots()[k])
        else DrivenOn(old(Snapshots()[k]), driven) && result.value == driven.stored
    {
      ghost var before := Snapshots();
      result := TryResume(runs[k], now);
      driven := SnapshotOf(runs[k]);
      assert Snapshots() == before[k := driven];
    }

    /** One turn of the loop; `seen` is what has been resumed so far, `before` how the tick found the runs. */
    method Visit(k: nat, now: int, seen: seq<Run>, ghost before: seq<Snapshot>, ghost woken: seq<nat>,
                 ghost threw: set<nat>)
      returns (resumed: seq<Run>, ghost wokenNow: seq<nat>, ghost threwNow: set<nat>)
      requires Valid() && k < |runs| && Ticked(before, Snapshots(), k, now, seen, woken, threw)
      modifies runs[k]
      ensures Valid() && Ticked(before, Snapshots(), k + 1, now, resumed, wokenNow, threwNow)
    {
      ghost var so := Snapshots();
      if !DueRun(runs[k].stored, now) {
        TickedNotDue(before, so, k, now, seen, woken, threw);
        return seen, woken, threw;
      }
      var result, driven := ResumeAt(k, now);
      if result.None? {
        assert so[k := driven] == so;
        TickedThrew(before, so, k, now, seen, woken, threw);
        return seen, woken, threw + {k};
      }
      TickedWoke(before, so, k, now, seen, woken, threw, driven);
      return seen + [result.value], woken + [k], threw;
    }

    /** Visits every run; a resume that throws keeps no other run from its turn. */
    method VisitAll(now: int) returns (resumed: seq<Run>, ghost woken: seq<nat>, ghost threw: set<nat>)
      requires Valid()
      modifies Objects()
      ensures Valid() && Ticked(old(Snapshots()), Snapshots(), |runs|, now, resumed, woken, threw)
    {
      ghost var before := Snapshots();
      resumed, woken, threw := [], [], {};
      for k := 0 to |runs|
        invariant Valid() && Ticked(before, Snapshots(), k, now, resumed, woken, threw)
      {
        resumed, woken, threw := Visit(k, now, resumed, before, woken, threw);
      }
    }

    /** A tick already under way keeps a second one out. */
    method Tick(now: int) returns (resumed: seq<Run>, ghost woken: seq<nat>, ghost threw: set<nat>)
      requires Valid()
      modifies this, Objects()
      ensures Valid() && ticking == old(ticking)
      ensures Ticked(old(Snapshots()), Snapshots(), if old(ticking) then 0 else |runs|, now, resumed, woken, threw)
    {
      if ticking {
        return [], [], {};
      }
      ticking := true;
      resumed, woken, threw := VisitAll(now);
      ticking := false;
    }
  }

  // --- the save inside notifyEvent ---------------------------------------------------------

  /** An event wait and an action that depends on it. */
  function WaitThenAct(wait: StepId, act: StepId): Plan {
    Plan(map[wait := StepNamed(wait, Event, [], false), act := StepNamed(act, Action, [wait], false)], None)
  }

  ghost function WaitParked(wait: StepId, act: StepId): Sys {
    Parking(Beginning(SetStatus(Initial(WaitThenAct(wait, act)), RunRunning), wait), wait, None, None)
  }

  ghost function Notified(wait: StepId, act: StepId): Sys
    requires wait != act
  {
    Completing(SetStatus(WaitParked(wait, act), Suspended), wait, Data(0))
  }

  lemma WaitThenActIsSound(wait: StepId, act: StepId)
    requires wait != act
    ensures Sound(WaitThenAct(wait, act))
  {
    var p := WaitThenAct(wait, act);
    forall id, dep | IsEdge(Edges(p), id, dep) ensures id == act && dep == wait {}
    RankedIsAcyclic(Edges(p), map[wait := 0, act := 1]);
  }

  lemma WaitParkedReached(wait: StepId, act: StepId) returns (moves: seq<Move>)
    requires wait != act
    ensures Replay(WaitThenAct(wait, act), moves) == Some(WaitParked(wait, act))
  {
    var p := WaitThenAct(wait, act);
    var s1 := SetStatus(Initial(p), RunRunning);
    ReplayOne(p, [], Initial(p), Drive);
    ReplayOne(p, [] + [Drive], s1, Begin(wait));
    ReplayOne(p, [] + [Drive] + [Begin(wait)], Beginning(s1, wait), Park(wait, None, None));
    moves := [] + [Drive] + [Begin(wait)] + [Park(wait, None, None)];
  }

  lemma ParkedSuspends(wait: StepId, act: StepId)
    requires wait != act
    ensures Enabled(WaitThenAct(wait, act), WaitParked(wait, act), Suspend)
  {
    var p, parked := WaitThenAct(wait, act), WaitParked(wait, act);
    assert parked.inFlight == map[] && parked.run.steps[wait].status.Waiting?;
    assert Needs(p, act, wait) && !Ready(p, parked.run.steps, act);
  }

  /**
   * `notifyEvent` saves the run before driving it. What it saves may be suspended with no step
   * waiting and one ready, which no later tick will find due.
   */
  lemma NotifiedRunCanBeMissed(wait: StepId, act: StepId) returns (moves: seq<Move>)
    requires wait != act
    ensures Reachable(WaitThenAct(wait, act), moves, Notified(wait, act))
    ensures Notified(wait, act).run.status.Suspended?
    ensures forall now :: !DueRun(Notified(wait, act).run, now)
    ensures Ready(WaitThenAct(wait, act), Notified(wait, act).run.steps, act)
  {
    var p, parked := WaitThenAct(wait, act), WaitParked(wait, act);
    WaitThenActIsSound(wait, act);
    moves := WaitParkedReached(wait, act);
    ParkedSuspends(wait, act);
    ReplayOne(p, moves, parked, Suspend);
    moves := moves + [Suspend];
    ReplayOne(p, moves, SetStatus(parked, Suspended), Settle(wait, Data(0)));
    moves := moves + [Settle(wait, Data(0))];
  }

  /** What a run saved by `notifyEvent` is missed for: a step is ready, but no tick at this time resumes the run. */
  ghost predicate Missed(p: Plan, saved: Run, now: int) {
    (exists id :: Ready(p, saved.steps, id)) && !DueRun(saved, now)
  }

  /** A step that waits for something else than this event, and whose time or approval the filter looks at. */
  ghost predicate DueForOther(p: Plan, steps: States, id: StepId, eventType: string, now: int) {
    id in steps && steps[id].status.Waiting? && !AwaitsIn(p, steps, id, eventType) && DueStep(steps[id], now)
  }

  /** Some pending step lacks nothing but this event, and no step is due that waits for another reason. */
  ghost predicate OnlyTheEventWakes(p: Plan, steps: States, eventType: string, now: int) {
    (exists id :: OnlyNeedsEvent(p, steps, id, eventType)) && forall id :: !DueForOther(p, steps, id, eventType, now)
  }

  /**
   * The run saved with its event delivered is missed by a tick at `now`, if and only if in the stored
   * run some pending step lacks nothing but this event and no step is due that waits for another reason.
   */
  lemma SavedRunMissedExactly(p: Plan, d: Definition, stored: Run, saved: Run, eventType: string, now: int)
    requires Indexes(p, d) && stored.steps.Keys == p.steps.Keys && stored.status.Suspended?
    requires saved.status == stored.status && DeliveredUpTo(d, stored.steps, saved.steps, eventType, |d.steps|)
    ensures Missed(p, saved, now) <==> OnlyTheEventWakes(p, stored.steps, eventType, now)
  {
    SavedRunIsReadyExactly(p, d, stored.steps, saved.steps, eventType);
    DueOnceDelivered(p, d, stored.steps, saved.steps, eventType, now);
    MissedInParts(p, stored, saved, eventType, now);
  }

  lemma MissedInParts(p: Plan, stored: Run, saved: Run, eventType: string, now: int)
    requires saved.status.Suspended?
    requires (exists id :: Ready(p, saved.steps, id)) <==> exists id :: OnlyNeedsEvent(p, stored.steps, id, eventType)
    requires Due(saved.steps, now) <==> exists id :: DueForOther(p, stored.steps, id, eventType, now)
    ensures Missed(p, saved, now) <==> OnlyTheEventWakes(p, stored.steps, eventType, now)
  {
  }

  lemma DueOnceDelivered(p: Plan, d: Definition, before: States, after: States, eventType: string, now: int)
    requires Indexes(p, d) && before.Keys == p.steps.Keys && DeliveredUpTo(d, before, after, eventType, |d.steps|)
    ensures Due(after, now) <==> exists id :: DueForOther(p, before, id, eventType, now)
  {
    forall id | id in p.steps ensures DeliveredAt(p, before, after, id, eventType) {
      StepIsDelivered(p, d, before, after, eventType, id);
    }
    DueOnlyForOther(p, before, after, eventType, now);
  }

  lemma DueOnlyForOther(p: Plan, before: States, after: States, eventType: string, now: int)
    requires before.Keys == after.Keys == p.steps.Keys
    requires forall id :: id in p.steps ==> DeliveredAt(p, before, after, id, eventType)
    ensures Due(after, now) <==> exists id :: DueForOther(p, before, id, eventType, now)
  {
    forall id | id in p.steps
      ensures after[id].status.Waiting? && DueStep(after[id], now) <==> DueForOther(p, before, id, eventType, now)
    {
      assert DeliveredAt(p, before, after, id, eventType);
    }
  }
}
