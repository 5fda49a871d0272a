/** packages/workflow-engine/src/validator.ts: a definition is checked before it can be registered. */
module Validator {
  import opened Wrappers
  import opened WorkflowTypes

  datatype StepProblem =
    | EmptyStepId | EmptyName | UnknownStepKind | MissingHandler | MissingCondition
    | MissingReason | MissingEventType | MissingSchedule | BadMaxAttempts

  datatype ValidationError =
    | EmptyDefinitionId | EmptyVersion | NoSteps
    | BadStep(step: StepDef, problem: StepProblem)
    | DuplicateStepId(id: StepId)
    | UnknownDependency(id: StepId, dependency: StepId)
    | SelfDependency(id: StepId)
    | DependencyCycle(path: seq<StepId>)

  /** The first rule a single step breaks, in the order the source checks them. */
  function StepFault(step: StepDef): Option<StepProblem> {
    if step.id.text == "" then Some(EmptyStepId)
    else if step.name == "" then Some(EmptyName)
    else if step.kind.UnknownKind? then Some(UnknownStepKind)
    else if step.kind.Action? && !TruthyText(step.handler) then Some(MissingHandler)
    else if step.kind.Conditional? && !step.hasCondition then Some(MissingCondition)
    else if step.kind.Approval? && (step.approval.None? || step.approval.value.reason == "") then Some(MissingReason)
    else if step.kind.Event? && (step.event.None? || step.event.value.eventType == "") then Some(MissingEventType)
    else if step.kind.Schedule? && (step.schedule.None? ||
         (!TruthyNumber(step.schedule.value.delayMs) && !TruthyNumber(step.schedule.value.resumeAt)))
           then Some(MissingSchedule)
    else if step.maxAttempts.Some? && step.maxAttempts.value < 1 then Some(BadMaxAttempts)
    else None
  }

  /** What is asked of a step, rule by rule. */
  predicate BreaksRule(step: StepDef, problem: StepProblem) {
    match problem
    case EmptyStepId => step.id == StepId("")
    case EmptyName => step.name == ""
    case UnknownStepKind => step.kind.UnknownKind?
    case MissingHandler => step.kind.Action? && (step.handler.None? || step.handler == Some(""))
    case MissingCondition => step.kind.Conditional? && !step.hasCondition
    case MissingReason => step.kind.Approval? && (step.approval.Some? ==> step.approval.value.reason == "")
    case MissingEventType => step.kind.Event? && (step.event.Some? ==> step.event.value.eventType == "")
    case MissingSchedule => step.kind.Schedule? && (step.schedule.Some? ==>
        NoTime(step.schedule.value.delayMs) && NoTime(step.schedule.value.resumeAt))
    case BadMaxAttempts => step.maxAttempts.Some? && step.maxAttempts.value < 1
  }

  predicate NoTime(t: Option<int>) { t.None? || t == Some(0) }

  /** The place of a rule in the order in which they are checked. */
  function Rank(problem: StepProblem): nat {
    match problem
    case EmptyStepId => 0
    case EmptyName => 1
    case UnknownStepKind => 2
    case BadMaxAttempts => 4
    case _ => 3
  }

  /** A step is at fault exactly when it breaks a rule, and the rule named is broken, with none checked before it. */
  lemma StepFaultExactly(step: StepDef)
    ensures StepFault(step).None? <==> forall problem :: !BreaksRule(step, problem)
    ensures StepFault(step).Some? ==>
      var problem := StepFault(step).value;
      BreaksRule(step, problem) && forall other :: Rank(other) < Rank(problem) ==> !BreaksRule(step, other)
  {
    if StepFault(step).Some? {
      assert BreaksRule(step, StepFault(step).value);
    }
  }

  ghost predicate UniqueIds(steps: seq<StepDef>) {
    forall i, j :: 0 <= i < j < |steps| ==> steps[i].id != steps[j].id
  }

  ghost predicate DependenciesKnown(steps: seq<StepDef>) {
    forall step, dep :: step in steps && dep in step.dependsOn ==> dep in Ids(steps) && dep != step.id
  }

  /** What registration promises the executor. */
  ghost predicate Validated(d: Definition) {
    && d.id != "" && d.version != "" && d.steps != []
    && (forall step :: step in d.steps ==> StepFault(step).None?)
    && UniqueIds(d.steps)
    && DependenciesKnown(d.steps)
    && Acyclic(EdgeMap(d.steps))
  }

  /** Every dependency sits strictly earlier in the finish order. */
  ghost predicate Ordered(edges: map<StepId, seq<StepId>>, finished: seq<StepId>) {
    && NoDuplicates(finished)
    && (forall i, dep :: 0 <= i < |finished| && IsEdge(edges, finished[i], dep) ==> Earlier(finished, i, dep))
  }

  ghost predicate Earlier(s: seq<StepId>, i: nat, id: StepId)
    requires i <= |s|
  {
    exists j :: 0 <= j < i && s[j] == id
  }

  lemma OrderedExtends(edges: map<StepId, seq<StepId>>, finished: seq<StepId>, id: StepId)
    requires Ordered(edges, finished) && id !in finished
    requires forall dep :: IsEdge(edges, id, dep) ==> dep in finished
    ensures Ordered(edges, finished + [id])
  {
    var longer := finished + [id];
    forall i, dep | 0 <= i < |longer| && IsEdge(edges, longer[i], dep) ensures Earlier(longer, i, dep) {
      if i < |finished| {
        assert Earlier(finished, i, dep);
        var j :| 0 <= j < i && finished[j] == dep;
        assert longer[j] == dep;
      } else {
        var j :| 0 <= j < |finished| && finished[j] == dep;
        assert longer[j] == dep;
      }
    }
  }

  ghost function Universe(edges: map<StepId, seq<StepId>>): set<StepId> {
    edges.Keys + set id, dep | id in edges && dep in edges[id] :: dep
  }

  lemma LessLeft(all: set<StepId>, visiting: set<StepId>, visited: set<StepId>, more: set<StepId>, id: StepId)
    requires id in all && id !in visiting && id !in visited && visited <= more
    ensures all - (visiting + {id}) - more < all - visiting - visited
  {
    assert id in all - visiting - visited;
    assert id !in all - (visiting + {id}) - more;
  }

  /** The three variables `findCycle` closes over, with `finished` recording the order of leaving. */
  class CycleFinder {
    const edges: map<StepId, seq<StepId>>
    var visiting: set<StepId>
    var visited: set<StepId>
    var path: seq<StepId>
    ghost var finished: seq<StepId>

    constructor (edges: map<StepId, seq<StepId>>)
      ensures this.edges == edges && Valid() && path == [] && finished == []
    {
      this.edges := edges;
      visiting, visited, path, finished := {}, {}, [], [];
    }

    ghost predicate Valid()
      reads this
    {
      && (forall id :: id in visiting <==> id in path)
      && (forall id :: id in visited <==> id in finished)
      && visiting !! visited
      && visiting + visited <= Universe(edges)
      && NoDuplicates(path)
      && IsWalk(edges, path)
      && Ordered(edges, finished)
    }

    method Walk(id: StepId) returns (cycle: Option<seq<StepId>>)
      requires Valid() && id in Universe(edges)
      requires path != [] ==> IsEdge(edges, path[|path| - 1], id)
      modifies this
      ensures cycle.None? ==> Valid() && path == old(path) && id in visited && old(visited) <= visited
      ensures cycle.Some? ==> IsClosedChain(edges, cycle.value)
      decreases Universe(edges) - visiting - visited
    {
      if id in visited {
        return None;
      }
      if id in visiting {
        var at :| 0 <= at < |path| && path[at] == id;
        cycle := Some(path[at..] + [id]);
        return;
      }

      Enter(id);
      ghost var before := path;
      var deps := DepsOf(edges, id);
      for k := 0 to |deps|
        invariant Valid() && path == before && visiting == old(visiting) + {id} && old(visited) <= visited
        invariant forall j :: 0 <= j < k ==> deps[j] in visited
      {
        assert path[|path| - 1] == id && IsEdge(edges, id, deps[k]);
        LessLeft(Universe(edges), old(visiting), old(visited), visited, id);
        cycle := Walk(deps[k]);
        if cycle.Some? {
          return;
        }
      }

      assert path == old(path) + [id];
      Leave(id, old(path));
      assert visiting == old(visiting);
      cycle := None;
    }

    method Enter(id: StepId)
      requires Valid() && id in Universe(edges) && id !in visited && id !in visiting
      requires path != [] ==> IsEdge(edges, path[|path| - 1], id)
      modifies this`visiting, this`path
      ensures Valid() && path == old(path) + [id] && visiting == old(visiting) + {id}
    {
      visiting := visiting + {id};
      path := path + [id];
    }

    method Leave(id: StepId, ghost outer: seq<StepId>)
      requires Valid() && path == outer + [id] && forall dep :: IsEdge(edges, id, dep) ==> dep in visited
      modifies this
      ensures Valid() && path == outer && visiting == old(visiting) - {id} && visited == old(visited) + {id}
    {
      OrderedExtends(edges, finished, id);
      assert path[..|path| - 1] == outer;
      path := path[..|path| - 1];
      visiting := visiting - {id};
      visited := visited + {id};
      finished := finished + [id];
    }
  }

  ghost function PositionIn(s: seq<StepId>): (rank: map<StepId, nat>)
    requires NoDuplicates(s)
    ensures forall i :: 0 <= i < |s| ==> s[i] in rank && rank[s[i]] == i
    ensures forall id :: id in rank ==> id in s
  {
    if s == [] then map[] else PositionIn(s[..|s| - 1])[s[|s| - 1] := |s| - 1]
  }

  /** Leaving order is a rank: the depth-first search delivers a topological order. */
  lemma FinishOrderRanks(edges: map<StepId, seq<StepId>>, finished: seq<StepId>)
    requires Ordered(edges, finished)
    requires forall id :: id in edges ==> id in finished
    ensures Ranks(edges, PositionIn(finished))
  {
    var rank := PositionIn(finished);
    forall id, dep | IsEdge(edges, id, dep)
      ensures id in rank && dep in rank && rank[dep] < rank[id]
    {
      var i :| 0 <= i < |finished| && finished[i] == id;
      assert Earlier(finished, i, dep);
      var j :| 0 <= j < i && finished[j] == dep;
    }
  }

  /** Null exactly when `dependsOn` is acyclic; otherwise a genuine closed chain of edges. */
  method FindCycle(steps: seq<StepDef>) returns (cycle: Option<seq<StepId>>)
    ensures cycle.None? <==> Acyclic(EdgeMap(steps))
    ensures cycle.None? ==> exists rank :: Ranks(EdgeMap(steps), rank)
    ensures cycle.Some? ==> IsClosedChain(EdgeMap(steps), cycle.value)
  {
    EdgeMapFaithful(steps);
    var edges := EdgeMap(steps);
    var finder := new CycleFinder(edges);
    for i := 0 to |steps|
      invariant finder.Valid() && finder.edges == edges && finder.path == []
      invariant forall j :: 0 <= j < i ==> steps[j].id in finder.visited
    {
      assert steps[i].id in edges;
      cycle := finder.Walk(steps[i].id);
      if cycle.Some? {
        return;
      }
    }
    cycle := None;
    FinishOrderRanks(edges, finder.finished);
    RankedIsAcyclic(edges, PositionIn(finder.finished));
  }

  ghost predicate EachSound(steps: seq<StepDef>) {
    UniqueIds(steps) && forall step :: step in steps ==> StepFault(step).None?
  }

  /** Checks each step by itself and against the ids before it. */
  method CheckSteps(steps: seq<StepDef>) returns (fault: Option<ValidationError>, ids: set<StepId>)
    ensures fault.None? <==> EachSound(steps)
    ensures fault.None? ==> ids == Ids(steps)
    ensures fault.Some? ==>
      match fault.value
      case BadStep(step, problem) => step in steps && StepFault(step) == Some(problem)
      case DuplicateStepId(id) => exists i, j :: 0 <= i < j < |steps| && steps[i].id == steps[j].id == id
      case _ => false
  {
    ids := {};
    for i := 0 to |steps|
      invariant ids == set j | 0 <= j < i :: steps[j].id
      invariant forall j :: 0 <= j < i ==> StepFault(steps[j]).None?
      invariant forall j, k :: 0 <= j < k < i ==> steps[j].id != steps[k].id
    {
      var problem := StepFault(steps[i]);
      if problem.Some? {
        assert steps[i] in steps;
        return Some(BadStep(steps[i], problem.value)), ids;
      }
      if steps[i].id in ids {
        ghost var j :| 0 <= j < i && steps[j].id == steps[i].id;
        return Some(DuplicateStepId(steps[i].id)), ids;
      }
      ids := ids + {steps[i].id};
    }
    fault := None;
  }

  ghost predicate Knows(ids: set<StepId>, step: StepDef) {
    forall dep :: dep in step.dependsOn ==> dep in ids && dep != step.id
  }

  /** Checks the dependencies of one step against all the ids. */
  method CheckDependenciesOf(step: StepDef, ids: set<StepId>) returns (fault: Option<ValidationError>)
    ensures fault.None? <==> Knows(ids, step)
    ensures fault.Some? ==>
      match fault.value
      case UnknownDependency(id, dep) => id == step.id && dep in step.dependsOn && dep !in ids
      case SelfDependency(id) => id == step.id && id in step.dependsOn
      case _ => false
  {
    for k := 0 to |step.dependsOn|
      invariant forall m :: 0 <= m < k ==> step.dependsOn[m] in ids && step.dependsOn[m] != step.id
    {
      var dep := step.dependsOn[k];
      assert dep in step.dependsOn;
      if dep !in ids {
        return Some(UnknownDependency(step.id, dep));
      }
      if dep == step.id {
        return Some(SelfDependency(step.id));
      }
    }
    fault := None;
  }

  lemma UnknownBreaksRule(steps: seq<StepDef>, step: StepDef)
    requires step in steps && !Knows(Ids(steps), step)
    ensures !DependenciesKnown(steps)
  {
    var dep :| dep in step.dependsOn && !(dep in Ids(steps) && dep != step.id);
  }

  method CheckDependencies(steps: seq<StepDef>, ids: set<StepId>) returns (fault: Option<ValidationError>)
    requires ids == Ids(steps)
    ensures fault.None? <==> DependenciesKnown(steps)
    ensures fault.Some? ==>
      match fault.value
      case UnknownDependency(id, dep) => dep !in Ids(steps)
        && exists step :: step in steps && step.id == id && dep in step.dependsOn
      case SelfDependency(id) => exists step :: step in steps && step.id == id && id in step.dependsOn
      case _ => false
  {
    for i := 0 to |steps|
      invariant forall j :: 0 <= j < i ==> Knows(ids, steps[j])
    {
      assert steps[i] in steps;
      fault := CheckDependenciesOf(steps[i], ids);
      if fault.Some? {
        UnknownBreaksRule(steps, steps[i]);
        return;
      }
    }
    assert forall step :: step in steps ==> Knows(ids, step);
    fault := None;
  }

  /** Accepts exactly the validated definitions, and each rejection names a rule really broken. */
  method ValidateDefinition(d: Definition) returns (r: Result<(), ValidationError>)
    ensures r.Success? <==> Validated(d)
    ensures r.Failure? ==>
      match r.error
      case EmptyDefinitionId => d.id == ""
      case EmptyVersion => d.version == ""
      case NoSteps => d.steps == []
      case BadStep(step, problem) => step in d.steps && StepFault(step) == Some(problem)
      case DuplicateStepId(id) => exists i, j :: 0 <= i < j < |d.steps| && d.steps[i].id == d.steps[j].id == id
      case UnknownDependency(id, dep) =>
        dep !in Ids(d.steps) && exists step :: step in d.steps && step.id == id && dep in step.dependsOn
      case SelfDependency(id) => exists step :: step in d.steps && step.id == id && id in step.dependsOn
      case DependencyCycle(path) => IsClosedChain(EdgeMap(d.steps), path)
  {
    if d.id == "" { return Failure(EmptyDefinitionId); }
    if d.version == "" { return Failure(EmptyVersion); }
    if d.steps == [] { return Failure(NoSteps); }

    var fault, ids := CheckSteps(d.steps);
    if fault.Some? {
      return Failure(fault.value);
    }
    fault := CheckDependencies(d.steps, ids);
    if fault.Some? {
      return Failure(fault.value);
    }
    var cycle := FindCycle(d.steps);
    if cycle.Some? {
      return Failure(DependencyCycle(cycle.value));
    }
    return Success(());
  }
}
