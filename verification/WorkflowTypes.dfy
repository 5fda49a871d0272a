/** Workflow definitions (packages/workflow-engine/src/types.ts) and their dependency graph. */
module WorkflowTypes {
  import opened Wrappers

  datatype StepId = StepId(text: string)

  datatype StepKind = Action | Conditional | Approval | Schedule | Event | UnknownKind(text: string)

  datatype ApprovalSpec = ApprovalSpec(reason: string, ttlMs: Option<int>)
  datatype ScheduleSpec = ScheduleSpec(delayMs: Option<int>, resumeAt: Option<int>)
  datatype EventSpec = EventSpec(eventType: string, timeoutMs: Option<int>)

  datatype StepDef = StepDef(
    id: StepId,
    name: string,
    kind: StepKind,
    dependsOn: seq<StepId>,
    handler: Option<string>,
    compensate: Option<string>,
    hasCondition: bool,
    approval: Option<ApprovalSpec>,
    schedule: Option<ScheduleSpec>,
    event: Option<EventSpec>,
    maxAttempts: Option<int>,
    continueOnError: bool)

  datatype Definition = Definition(id: string, version: string, steps: seq<StepDef>, maxAttempts: Option<int>)

  /** `if (x)` on an optional number or string: zero and the empty string count as absent. */
  predicate TruthyNumber(x: Option<int>) { x.Some? && x.value != 0 }
  predicate TruthyText(x: Option<string>) { x.Some? && x.value != "" }

  ghost function Ids(steps: seq<StepDef>): set<StepId> {
    set step | step in steps :: step.id
  }

  /** One entry per id, the last step with that id winning, as `new Map(...)` does. */
  function EdgeMap(steps: seq<StepDef>): map<StepId, seq<StepId>> {
    if steps == [] then map[]
    else
      var last := steps[|steps| - 1];
      EdgeMap(steps[..|steps| - 1])[last.id := last.dependsOn]
  }

  function DepsOf(edges: map<StepId, seq<StepId>>, id: StepId): seq<StepId> {
    if id in edges then edges[id] else []
  }

  predicate IsEdge(edges: map<StepId, seq<StepId>>, id: StepId, dep: StepId) {
    dep in DepsOf(edges, id)
  }

  /** A walk along `dependsOn` edges, each element depending on the next. */
  ghost predicate IsWalk(edges: map<StepId, seq<StepId>>, c: seq<StepId>) {
    forall i, j :: 0 <= i < j < |c| && j - i == 1 ==> IsEdge(edges, c[i], c[j])
  }

  ghost predicate IsClosedChain(edges: map<StepId, seq<StepId>>, c: seq<StepId>) {
    |c| >= 2 && c[0] == c[|c| - 1] && IsWalk(edges, c)
  }

  ghost predicate Acyclic(edges: map<StepId, seq<StepId>>) {
    !exists c :: IsClosedChain(edges, c)
  }

  /** A rank under which everything a step depends on comes strictly before it. */
  ghost predicate Ranks(edges: map<StepId, seq<StepId>>, rank: map<StepId, nat>) {
    forall id, dep :: IsEdge(edges, id, dep) ==> id in rank && dep in rank && rank[dep] < rank[id]
  }

  lemma {:induction false} RankFallsAlongWalk(edges: map<StepId, seq<StepId>>, rank: map<StepId, nat>, c: seq<StepId>)
    requires Ranks(edges, rank) && IsWalk(edges, c) && |c| >= 2
    ensures c[0] in rank && c[|c| - 1] in rank && rank[c[|c| - 1]] < rank[c[0]]
  {
    assert IsEdge(edges, c[0], c[1]);
    if |c| > 2 {
      var tail := c[1..];
      assert IsWalk(edges, tail);
      RankFallsAlongWalk(edges, rank, tail);
      assert tail[0] == c[1] && tail[|tail| - 1] == c[|c| - 1];
    }
  }

  /** A ranked graph has no closed chain. */
  lemma RankedIsAcyclic(edges: map<StepId, seq<StepId>>, rank: map<StepId, nat>)
    requires Ranks(edges, rank)
    ensures Acyclic(edges)
  {
    forall c | IsClosedChain(edges, c) ensures false {
      RankFallsAlongWalk(edges, rank, c);
    }
  }

  ghost predicate WaitsOn(edges: map<StepId, seq<StepId>>, id: StepId, others: set<StepId>) {
    exists dep :: IsEdge(edges, id, dep) && dep in others
  }

  /** A walk of the given length that never leaves `within`. */
  lemma {:induction false} WalkInside(edges: map<StepId, seq<StepId>>, within: set<StepId>, length: nat)
    returns (c: seq<StepId>)
    requires within != {}
    requires forall id {:trigger WaitsOn(edges, id, within)} :: id in within ==> WaitsOn(edges, id, within)
    ensures |c| == length + 1 && IsWalk(edges, c) && (forall id :: id in c ==> id in within)
  {
    if length == 0 {
      var id :| id in within;
      c := [id];
    } else {
      var init := WalkInside(edges, within, length - 1);
      var last := init[|init| - 1];
      assert WaitsOn(edges, last, within);
      var dep :| IsEdge(edges, last, dep) && dep in within;
      c := init + [dep];
    }
  }

  /** Steps that each wait on another of their number contain a closed chain. */
  lemma MutualWaitIsACycle(edges: map<StepId, seq<StepId>>, waiting: set<StepId>)
    requires waiting != {}
    requires forall id {:trigger WaitsOn(edges, id, waiting)} :: id in waiting ==> WaitsOn(edges, id, waiting)
    ensures !Acyclic(edges)
  {
    var c := WalkInside(edges, waiting, |waiting|);
    if NoDuplicates(c) {
      DistinctCount(c);
      SubsetCount((set id | id in c), waiting);
      assert false;
    }
    var i, j :| 0 <= i < j < |c| && c[i] == c[j];
    var loop := c[i..j + 1];
    assert IsClosedChain(edges, loop);
  }

  lemma {:induction false} SubsetCount<T>(a: set<T>, b: set<T>)
    requires a <= b
    ensures |a| <= |b|
  {
    assert b == a + (b - a);
  }

  lemma {:induction false} EdgeMapFaithful(steps: seq<StepDef>)
    ensures EdgeMap(steps).Keys == Ids(steps)
    ensures forall id :: id in EdgeMap(steps) ==>
      exists step :: step in steps && step.id == id && EdgeMap(steps)[id] == step.dependsOn
  {
    if steps != [] {
      var init, last := steps[..|steps| - 1], steps[|steps| - 1];
      EdgeMapFaithful(init);
      assert steps == init + [last];
      forall id | id in EdgeMap(steps)
        ensures exists step :: step in steps && step.id == id && EdgeMap(steps)[id] == step.dependsOn
      {
        if id == last.id {
          assert last in steps;
        } else {
          var step :| step in init && step.id == id && EdgeMap(init)[id] == step.dependsOn;
          assert step in steps;
        }
      }
      assert Ids(steps) == Ids(init) + {last.id};
    }
  }
}
