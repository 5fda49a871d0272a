/** packages/observability/src/tracer.ts over the in-memory store: opening, closing and reading spans. */
module Tracer {
  import opened Wrappers
  import opened SpanForest

  datatype StartOptions = StartOptions(
    name: string, traceId: string, parent: Option<SpanId>, startedAt: Option<int>, key: string)

  datatype EndOptions = EndOptions(
    status: Option<SpanStatus>, error: Option<string>, cost: Option<real>, tokens: Option<int>, endedAt: Option<int>)

  datatype Trace = Trace(rootSpanId: SpanId, startedAt: int, endedAt: Option<int>, status: SpanStatus, spanCount: nat,
                         errorCount: nat, spend: Spend)

  // --- the store's invariant ---------------------------------------------------------------

  /** Spans in the order they were opened; a parent in the store was always opened before its child. */
  ghost predicate Recorded(born: seq<SpanId>, nodes: Nodes) {
    && NoDuplicates(born) && (forall id :: id in born <==> id in nodes)
    && (forall id :: id in nodes ==> nodes[id].id == id)
    && forall i, j :: 0 <= i < |born| && 0 <= j < |born| && nodes[born[j]].parent == Some(born[i]) ==> i < j
  }

  /** A newly generated id: not in use, and nobody's parent. */
  ghost predicate Unused(nodes: Nodes, id: SpanId) {
    id !in nodes && forall x :: x in nodes ==> nodes[x].parent != Some(id)
  }

  lemma OpeningKeepsRecord(born: seq<SpanId>, nodes: Nodes, s: Span)
    requires Recorded(born, nodes) && Unused(nodes, s.id) && s.parent != Some(s.id)
    ensures Recorded(born + [s.id], nodes[s.id := s])
  {
    var more, now := born + [s.id], nodes[s.id := s];
    NoDuplicatesAppend(born, [s.id]);
    forall i, j | 0 <= i < |more| && 0 <= j < |more| && now[more[j]].parent == Some(more[i]) ensures i < j {
      if j < |born| {
        assert born[j] in born;
      }
    }
  }

  /** Closing or annotating a span changes neither its id nor its parent, nor anything else's. */
  lemma RewritingKeepsRecord(born: seq<SpanId>, nodes: Nodes, s: Span)
    requires Recorded(born, nodes) && s.id in nodes && s.parent == nodes[s.id].parent
    ensures Recorded(born, nodes[s.id := s])
  {
    forall i, j | 0 <= i < |born| && 0 <= j < |born| && nodes[s.id := s][born[j]].parent == Some(born[i])
      ensures i < j
    {
      assert nodes[born[j]].parent == Some(born[i]);
    }
  }

  ghost function Position(born: seq<SpanId>, id: SpanId): (at: nat)
    requires id in born
    ensures at < |born| && born[at] == id
  {
    var at :| 0 <= at < |born| && born[at] == id; at
  }

  ghost function Births(born: seq<SpanId>): Ranks {
    map id | id in born :: Position(born, id)
  }

  function TraceNodes(nodes: Nodes, traceId: string): Nodes {
    map id | id in nodes && nodes[id].traceId == traceId :: nodes[id]
  }

  /** Within every trace the order of opening ranks parents before children. */
  lemma RecordRanksTrace(born: seq<SpanId>, nodes: Nodes, traceId: string)
    requires Recorded(born, nodes)
    ensures ParentsFirst(TraceNodes(nodes, traceId), Births(born))
    ensures forall id :: id in TraceNodes(nodes, traceId) ==> Births(born)[id] < |born|
  {
    var here, rank := TraceNodes(nodes, traceId), Births(born);
    forall id | id in here && ParentIn(here, id).Some? ensures rank[ParentIn(here, id).value] < rank[id] {
      var p := ParentIn(here, id).value;
      assert born[rank[p]] == p && born[rank[id]] == id;
    }
  }

  // --- sorting -----------------------------------------------------------------------------

  function InsertByStart(nodes: Nodes, id: SpanId, sorted: seq<SpanId>): seq<SpanId> {
    if sorted == [] || StartOf(nodes, id) <= StartOf(nodes, sorted[0]) then [id] + sorted
    else [sorted[0]] + InsertByStart(nodes, id, sorted[1..])
  }

  function StartOf(nodes: Nodes, id: SpanId): int { if id in nodes then nodes[id].startedAt else 0 }

  /** Oldest first, equal times in the order given. */
  function ByStart(nodes: Nodes, ids: seq<SpanId>): seq<SpanId> {
    if ids == [] then [] else InsertByStart(nodes, ids[0], ByStart(nodes, ids[1..]))
  }

  ghost predicate Rising(nodes: Nodes, ids: seq<SpanId>) {
    forall i, j :: 0 <= i < j < |ids| ==> StartOf(nodes, ids[i]) <= StartOf(nodes, ids[j])
  }

  lemma RisingOnTop(nodes: Nodes, id: SpanId, rest: seq<SpanId>)
    requires Rising(nodes, rest) && (rest != [] ==> StartOf(nodes, id) <= StartOf(nodes, rest[0]))
    ensures Rising(nodes, [id] + rest)
  {
  }

  lemma {:induction false} InsertByStartRises(nodes: Nodes, id: SpanId, sorted: seq<SpanId>)
    requires Rising(nodes, sorted)
    ensures var r := InsertByStart(nodes, id, sorted);
      Rising(nodes, r) && r != [] && (r[0] == id || (sorted != [] && r[0] == sorted[0]))
    ensures multiset(InsertByStart(nodes, id, sorted)) == multiset(sorted) + multiset{id}
  {
    if sorted == [] || StartOf(nodes, id) <= StartOf(nodes, sorted[0]) {
      RisingOnTop(nodes, id, sorted);
    } else {
      InsertByStartRises(nodes, id, sorted[1..]);
      RisingOnTop(nodes, sorted[0], InsertByStart(nodes, id, sorted[1..]));
      assert sorted == [sorted[0]] + sorted[1..];
    }
  }

  /** Sorting puts spans in order of time and keeps each exactly once. */
  lemma {:induction false} ByStartSorts(nodes: Nodes, ids: seq<SpanId>)
    ensures Rising(nodes, ByStart(nodes, ids)) && multiset(ByStart(nodes, ids)) == multiset(ids)
  {
    if ids != [] {
      ByStartSorts(nodes, ids[1..]);
      InsertByStartRises(nodes, ids[0], ByStart(nodes, ids[1..]));
      assert ids == [ids[0]] + ids[1..];
    }
  }

  ghost function StartingAt(nodes: Nodes, ids: seq<SpanId>, at: int): seq<SpanId> {
    if ids == [] then []
    else (if StartOf(nodes, ids[0]) == at then [ids[0]] else []) + StartingAt(nodes, ids[1..], at)
  }

  lemma StartingOnTop(nodes: Nodes, id: SpanId, rest: seq<SpanId>, at: int)
    ensures StartingAt(nodes, [id] + rest, at) ==
      if StartOf(nodes, id) == at then [id] + StartingAt(nodes, rest, at) else StartingAt(nodes, rest, at)
  {
    assert ([id] + rest)[1..] == rest;
  }

  lemma {:induction false} InsertByStartIsStable(nodes: Nodes, id: SpanId, sorted: seq<SpanId>, at: int)
    ensures StartingAt(nodes, InsertByStart(nodes, id, sorted), at) == StartingAt(nodes, [id] + sorted, at)
  {
    if sorted != [] && StartOf(nodes, id) > StartOf(nodes, sorted[0]) {
      var rest := sorted[1..];
      InsertByStartIsStable(nodes, id, rest, at);
      StartingOnTop(nodes, sorted[0], InsertByStart(nodes, id, rest), at);
      StartingOnTop(nodes, id, rest, at);
      StartingOnTop(nodes, id, sorted, at);
      StartingOnTop(nodes, sorted[0], rest, at);
      assert sorted == [sorted[0]] + rest;
    }
  }

  /** Spans that began at one time stay in the order given. */
  lemma {:induction false} ByStartIsStable(nodes: Nodes, ids: seq<SpanId>, at: int)
    ensures StartingAt(nodes, ByStart(nodes, ids), at) == StartingAt(nodes, ids, at)
  {
    if ids != [] {
      ByStartIsStable(nodes, ids[1..], at);
      InsertByStartIsStable(nodes, ids[0], ByStart(nodes, ids[1..]), at);
      StartingOnTop(nodes, ids[0], ByStart(nodes, ids[1..]), at);
      StartingOnTop(nodes, ids[0], ids[1..], at);
      assert ids == [ids[0]] + ids[1..];
    }
  }

  // --- the tracer --------------------------------------------------------------------------

  /** What closing makes of a span. */
  function Closed(s: Span, options: EndOptions, now: int): Span {
    s.(status := options.status.GetOr(Ok), endedAt := Some(options.endedAt.GetOr(now)), error := options.error,
       cost := if options.cost.Some? then options.cost else s.cost,
       tokens := if options.tokens.Some? then options.tokens else s.tokens)
  }

  /** A span ends as told, well and now unless told otherwise; cost and tokens stay when none are reported. */
  lemma ClosedExactly(s: Span, options: EndOptions, now: int)
    ensures var c := Closed(s, options, now);
      && c.id == s.id && c.traceId == s.traceId && c.parent == s.parent && c.name == s.name
      && c.startedAt == s.startedAt && c.events == s.events && c.error == options.error
      && (options.status.Some? ==> c.status == options.status.value) && (options.status.None? ==> c.status.Ok?)
      && (options.endedAt.Some? ==> c.endedAt == options.endedAt) && (options.endedAt.None? ==> c.endedAt == Some(now))
      && (options.cost.Some? ==> c.cost == options.cost) && (options.cost.None? ==> c.cost == s.cost)
      && (options.tokens.Some? ==> c.tokens == options.tokens) && (options.tokens.None? ==> c.tokens == s.tokens)
  {
  }

  class Tracer {
    const maxSpansPerTrace: int
    var spansById: Nodes
    var byTrace: map<string, seq<SpanId>>
    var openByKey: map<string, SpanId>
    var spanCountByTrace: map<string, nat>
    ghost var born: seq<SpanId>

    constructor (maxSpansPerTrace: int)
      ensures Valid() && spansById == map[] && this.maxSpansPerTrace == maxSpansPerTrace
    {
      this.maxSpansPerTrace := maxSpansPerTrace;
      spansById, byTrace, openByKey, spanCountByTrace, born := map[], map[], map[], map[], [];
    }

    ghost predicate Valid()
      reads this
    {
      && Recorded(born, spansById) && Indexed(spansById, byTrace)
      && spanCountByTrace.Keys == byTrace.Keys
      && forall t :: t in byTrace ==> spanCountByTrace[t] == |byTrace[t]| <= maxSpansPerTrace
    }

    /** Opens a span unless its trace is full; the generated id is new. */
    method StartSpan(options: StartOptions, id: SpanId, now: int) returns (result: Result<Option<Span>, string>)
      requires Valid() && Unused(spansById, id) && options.parent != Some(id)
      modifies this
      ensures Valid()
      ensures result.Failure? <==> options.traceId == "" || options.name == ""
      ensures result.Success? ==>
        (result.value.None? <==> |TraceNodes(old(spansById), options.traceId)| >= maxSpansPerTrace)
      ensures result.Failure? || result.value.None? ==> spansById == old(spansById) && openByKey == old(openByKey)
      ensures result.Success? && result.value.Some? ==>
        var s := result.value.value;
        && s == Span(id, options.traceId, options.parent, options.name, Running, options.startedAt.GetOr(now), None,
                     None, None, None, [])
        && spansById == old(spansById)[id := s] && born == old(born) + [id]
        && openByKey == if options.key != "" then old(openByKey)[options.key := id] else old(openByKey)
    {
      if options.traceId == "" {
        return Failure("traceId must not be empty");
      }
      if options.name == "" {
        return Failure("name must not be empty");
      }
      IndexCounts(spansById, byTrace, options.traceId);
      var count := if options.traceId in spanCountByTrace then spanCountByTrace[options.traceId] else 0;
      if count >= maxSpansPerTrace {
        return Success(None);
      }
      var span := Span(id, options.traceId, options.parent, options.name, Running, options.startedAt.GetOr(now), None,
                       None, None, None, []);
      Open(span, count);
      if options.key != "" {
        openByKey := openByKey[options.key := id];
      }
      return Success(Some(span));
    }

    /** Stores a new span and counts it. */
    method Open(span: Span, count: nat)
      requires Valid() && Unused(spansById, span.id) && span.parent != Some(span.id) && count < maxSpansPerTrace
      requires count == if span.traceId in spanCountByTrace then spanCountByTrace[span.traceId] else 0
      modifies this`spansById, this`byTrace, this`born, this`spanCountByTrace
      ensures Valid() && spansById == old(spansById)[span.id := span] && born == old(born) + [span.id]
    {
      OpeningKeepsRecord(born, spansById, span);
      OpeningKeepsIndex(spansById, byTrace, span);
      spansById := spansById[span.id := span];
      byTrace := byTrace[span.traceId := (if span.traceId in byTrace then byTrace[span.traceId] else []) + [span.id]];
      born := born + [span.id];
      spanCountByTrace := spanCountByTrace[span.traceId := count + 1];
    }

    /** Stores a span that is known already; its place in the index stays. */
    method Rewrite(s: Span)
      requires Valid() && s.id in spansById && s.parent == spansById[s.id].parent
        && s.traceId == spansById[s.id].traceId
      modifies this`spansById
      ensures Valid() && spansById == old(spansById)[s.id := s]
    {
      RewritingKeepsRecord(born, spansById, s);
      RewritingKeepsIndex(spansById, byTrace, s);
      spansById := spansById[s.id := s];
    }

    /** Closes a running span, once; anything else is left alone. */
    method EndSpan(id: SpanId, options: EndOptions, now: int) returns (closed: Option<Span>)
      requires Valid()
      modifies this`spansById
      ensures Valid()
      ensures closed.Some? <==> id in old(spansById) && old(spansById)[id].status.Running?
      ensures closed.None? ==> spansById == old(spansById)
      ensures closed.Some? ==>
        closed.value == Closed(old(spansById)[id], options, now) && spansById == old(spansById)[id := closed.value]
    {
      if id !in spansById || !spansById[id].status.Running? {
        return None;
      }
      var span := Closed(spansById[id], options, now);
      Rewrite(span);
      return Some(span);
    }

    /** Closes the span a key stands for; the key then stands for nothing. */
    method EndByKey(key: string, options: EndOptions, now: int) returns (closed: Option<Span>)
      requires Valid()
      modifies this`spansById, this`openByKey
      ensures Valid() && key !in openByKey && openByKey == old(openByKey) - {key}
      ensures closed.Some? <==>
        key in old(openByKey) && old(openByKey)[key] in old(spansById)
          && old(spansById)[old(openByKey)[key]].status.Running?
      ensures closed.None? ==> spansById == old(spansById)
      ensures closed.Some? ==>
        var id := old(openByKey)[key]; spansById == old(spansById)[id := Closed(old(spansById)[id], options, now)]
    {
      if key !in openByKey {
        return None;
      }
      var id := openByKey[key];
      openByKey := openByKey - {key};
      closed := EndSpan(id, options, now);
    }

    /** Annotates a span, open or closed. */
    method AddEvent(id: SpanId, name: string)
      requires Valid()
      modifies this`spansById
      ensures Valid()
      ensures spansById ==
        if id in old(spansById)
          then old(spansById)[id := old(spansById)[id].(events := old(spansById)[id].events + [name])]
            else old(spansById)
    {
      if id in spansById {
        Rewrite(spansById[id].(events := spansById[id].events + [name]));
      }
    }

    /** The spans of a trace, oldest first, each exactly once. */
    method Spans(traceId: string) returns (ids: seq<SpanId>)
      requires Valid()
      ensures Rising(spansById, ids) && NoDuplicates(ids)
      ensures forall id :: id in ids <==> id in TraceNodes(spansById, traceId)
    {
      ids := if traceId in byTrace then byTrace[traceId] else [];
      SortedIndex(spansById, byTrace, traceId, ids);
      ids := ByStart(spansById, ids);
    }

    /** Rolls a trace up; its spend is the flat total and so what the forest of its spans adds up to. */
    method Summarise(traceId: string) returns (trace: Option<Trace>)
      requires Valid()
      ensures var nodes := TraceNodes(spansById, traceId);
        && (trace.None? <==> nodes == map[])
        && (trace.Some? ==> exists ids :: Lists(ids, nodes) && Summary(nodes, ids, trace.value))
    {
      var ids := Spans(traceId);
      var nodes := TraceNodes(spansById, traceId);
      if ids == [] {
        return None;
      }
      assert ids[0] in ids;
      ByStartSame(spansById, nodes, ids);
      var root := FirstRoot(nodes, ids);
      var startedAt, endedAt := Extent(nodes, ids);
      var status, errors := RollUp(nodes, ids);
      var spend := SumUp(nodes, ids);
      return Some(Trace(root, startedAt, endedAt, status, |ids|, errors, spend));
    }

    /** The trace as a forest of parent and child lists, each list oldest first. */
    method Tree(traceId: string) returns (roots: seq<SpanId>, kids: Children)
      requires Valid()
      ensures var nodes := TraceNodes(spansById, traceId);
        && Linked(nodes, kids, roots) && Rising(nodes, roots) && (forall id :: id in kids ==> Rising(nodes, kids[id]))
        && Grown(nodes, kids, Births(born), |born|) && Listed(nodes, Births(born), roots, 0)
    {
      var ids := Spans(traceId);
      var nodes := TraceNodes(spansById, traceId);
      var unsorted, listed := Link(nodes, ids);
      roots, kids := SortLists(nodes, ids, unsorted, listed);
      RecordRanksTrace(born, spansById, traceId);
      LinkedIsGrown(nodes, kids, roots, Births(born), |born|);
    }
  }

  /** What every trace shows: the forest holds each of its spans once and rolls up to the flat total. */
  lemma TreeAgreesWithSummary(nodes: Nodes, kids: Children, roots: seq<SpanId>, rank: Ranks, bound: nat,
                              ids: seq<SpanId>, trace: Trace)
    requires Linked(nodes, kids, roots) && Grown(nodes, kids, rank, bound) && Listed(nodes, rank, roots, 0)
    requires Lists(ids, nodes) && Summary(nodes, ids, trace)
    ensures ForestSpend(nodes, kids, rank, bound, roots, 0) == trace.spend
    ensures |WalkAll(nodes, kids, rank, bound, roots, 0)| == trace.spanCount == |nodes|
  {
    var walked := WalkAll(nodes, kids, rank, bound, roots, 0);
    ForestSpendIsFlatTotal(nodes, kids, roots, rank, bound, ids);
    forall y ensures multiset(walked)[y] == multiset(ids)[y] {
      ForestHoldsEachSpanOnce(nodes, kids, roots, rank, bound, y);
      OccursOnce(ids, y);
    }
    assert multiset(walked) == multiset(ids);
    assert |walked| == |multiset(walked)| == |ids|;
    DistinctSize(ids, nodes.Keys);
  }

  // --- one pass over a trace ---------------------------------------------------------------

  ghost predicate Lists(ids: seq<SpanId>, nodes: Nodes) {
    NoDuplicates(ids) && forall id :: id in ids <==> id in nodes
  }

  predicate NoParent(s: Span) { s.parent.None? || s.parent.value.text == "" }

  /** A parent is named by an id that is not empty. */
  lemma HasParentExactly(s: Span)
    ensures !NoParent(s) <==> exists id: SpanId :: s.parent == Some(id) && id != SpanId("")
  {
    if !NoParent(s) {
      assert s.parent == Some(s.parent.value) && s.parent.value != SpanId("");
    }
  }

  predicate Within(ids: seq<SpanId>, nodes: Nodes) { forall id :: id in ids ==> id in nodes }

  /** The oldest span without a parent, or the oldest of all if every span names one. */
  ghost predicate IsRoot(nodes: Nodes, ids: seq<SpanId>, root: SpanId)
    requires Within(ids, nodes)
  {
    && root in ids
    && (NoParent(nodes[root]) || forall id :: id in ids ==> !NoParent(nodes[id]))
    && forall id :: id in ids && NoParent(nodes[id]) == NoParent(nodes[root]) ==>
         nodes[root].startedAt <= nodes[id].startedAt
  }

  /** From the first start to the last end, if every span has ended. */
  ghost predicate IsExtent(nodes: Nodes, ids: seq<SpanId>, startedAt: int, endedAt: Option<int>)
    requires Within(ids, nodes)
  {
    && (exists id :: id in ids && nodes[id].startedAt == startedAt)
    && (forall id :: id in ids ==> startedAt <= nodes[id].startedAt)
    && (endedAt.Some? <==> forall id :: id in ids ==> nodes[id].endedAt.Some?)
    && (endedAt.Some? ==> exists id :: id in ids && nodes[id].endedAt == endedAt)
    && (endedAt.Some? ==> forall id :: id in ids ==> nodes[id].endedAt.value <= endedAt.value)
  }

  ghost predicate AnyIs(nodes: Nodes, ids: seq<SpanId>, status: SpanStatus)
    requires Within(ids, nodes)
  {
    exists id :: id in ids && nodes[id].status == status
  }

  /** Still running beats failed, failed beats cancelled, cancelled beats fine. */
  ghost predicate IsStatus(nodes: Nodes, ids: seq<SpanId>, status: SpanStatus)
    requires Within(ids, nodes)
  {
    && (status.Running? <==> AnyIs(nodes, ids, Running))
    && (status.Failed? <==> !AnyIs(nodes, ids, Running) && AnyIs(nodes, ids, Failed))
    && (status.Cancelled? <==>
         !AnyIs(nodes, ids, Running) && !AnyIs(nodes, ids, Failed) && AnyIs(nodes, ids, Cancelled))
  }

  ghost predicate Summary(nodes: Nodes, ids: seq<SpanId>, t: Trace) {
    && Within(ids, nodes) && IsRoot(nodes, ids, t.rootSpanId) && IsExtent(nodes, ids, t.startedAt, t.endedAt)
    && IsStatus(nodes, ids, t.status) && t.spanCount == |ids|
    && t.errorCount == |set id | id in ids && nodes[id].status == Failed| && t.spend == Total(nodes, ids)
  }

  lemma ByStartSame(all: Nodes, nodes: Nodes, ids: seq<SpanId>)
    requires Rising(all, ids) && forall id :: id in ids ==> id in all && id in nodes && nodes[id] == all[id]
    ensures Rising(nodes, ids) && Within(ids, nodes)
  {
    forall i, j | 0 <= i < j < |ids| ensures StartOf(nodes, ids[i]) <= StartOf(nodes, ids[j]) {
      assert ids[i] in ids && ids[j] in ids;
    }
  }

  method FirstRoot(nodes: Nodes, ids: seq<SpanId>) returns (root: SpanId)
    requires Within(ids, nodes) && Rising(nodes, ids) && ids != []
    ensures IsRoot(nodes, ids, root)
  {
    for i := 0 to |ids|
      invariant forall j :: 0 <= j < i ==> !NoParent(nodes[ids[j]])
    {
      assert ids[i] in ids;
      if NoParent(nodes[ids[i]]) {
        EarliestOf(nodes, ids, i);
        return ids[i];
      }
    }
    assert ids[0] in ids;
    EarliestOf(nodes, ids, 0);
    return ids[0];
  }

  lemma EarliestOf(nodes: Nodes, ids: seq<SpanId>, i: nat)
    requires Within(ids, nodes) && Rising(nodes, ids) && i < |ids|
    requires forall j :: 0 <= j < i ==> NoParent(nodes[ids[j]]) != NoParent(nodes[ids[i]])
    ensures forall id :: id in ids && NoParent(nodes[id]) == NoParent(nodes[ids[i]]) ==>
      nodes[ids[i]].startedAt <= nodes[id].startedAt
  {
    forall id | id in ids && NoParent(nodes[id]) == NoParent(nodes[ids[i]])
      ensures nodes[ids[i]].startedAt <= nodes[id].startedAt
    {
      var k :| 0 <= k < |ids| && ids[k] == id;
      assert ids[i] in ids;
      if i < k {
        assert StartOf(nodes, ids[i]) <= StartOf(nodes, ids[k]);
      }
    }
  }

  method Extent(nodes: Nodes, ids: seq<SpanId>) returns (startedAt: int, endedAt: Option<int>)
    requires Within(ids, nodes) && ids != []
    ensures IsExtent(nodes, ids, startedAt, endedAt)
  {
    assert ids[0] in ids;
    startedAt, endedAt := nodes[ids[0]].startedAt, nodes[ids[0]].endedAt;
    assert ids[..1] == [ids[0]];
    for i := 1 to |ids|
      invariant Within(ids[..i], nodes) && IsExtent(nodes, ids[..i], startedAt, endedAt)
    {
      assert ids[i] in ids;
      var span := nodes[ids[i]];
      ExtentOneMore(nodes, ids[..i], ids[i], startedAt, endedAt);
      PrefixGrows(ids, i);
      startedAt := if span.startedAt < startedAt then span.startedAt else startedAt;
      endedAt := LaterEnd(endedAt, span.endedAt);
    }
    WholePrefix(ids);
  }

  function LaterEnd(a: Option<int>, b: Option<int>): Option<int> {
    if a.None? || b.None? then None else if b.value > a.value then b else a
  }

  lemma ExtentOneMore(nodes: Nodes, ids: seq<SpanId>, id: SpanId, startedAt: int, endedAt: Option<int>)
    requires Within(ids, nodes) && id in nodes && IsExtent(nodes, ids, startedAt, endedAt)
    ensures Within(ids + [id], nodes)
    ensures var s := nodes[id];
      IsExtent(nodes, ids + [id],
               if s.startedAt < startedAt then s.startedAt else startedAt, LaterEnd(endedAt, s.endedAt))
  {
    var more, s := ids + [id], nodes[id];
    assert id in more;
    forall x | x in more ensures x in ids || x == id {}
    forall x | x in ids ensures x in more {}
    var first :| first in ids && nodes[first].startedAt == startedAt;
    assert first in more;
    if endedAt.Some? && s.endedAt.Some? {
      var last :| last in ids && nodes[last].endedAt == endedAt;
      assert last in more;
    }
  }

  method RollUp(nodes: Nodes, ids: seq<SpanId>) returns (status: SpanStatus, errors: nat)
    requires Lists(ids, nodes) && Within(ids, nodes)
    ensures IsStatus(nodes, ids, status) && errors == |set id | id in ids && nodes[id].status == Failed|
  {
    errors := 0;
    var running, cancelled := false, false;
    for i := 0 to |ids|
      invariant running == AnyIs(nodes, ids[..i], Running) && cancelled == AnyIs(nodes, ids[..i], Cancelled)
      invariant errors == |set id | id in ids[..i] && nodes[id].status == Failed|
    {
      assert ids[i] in ids;
      var s := nodes[ids[i]].status;
      PrefixGrows(ids, i);
      SomeOneMore(nodes, ids[..i], ids[i], Running);
      SomeOneMore(nodes, ids[..i], ids[i], Cancelled);
      CountOneMore(nodes, ids[..i], ids[i]);
      running := running || s.Running?;
      cancelled := cancelled || s.Cancelled?;
      errors := errors + if s.Failed? then 1 else 0;
    }
    WholePrefix(ids);
    FailedCounted(nodes, ids);
    status := if running then Running else if errors > 0 then Failed else if cancelled then Cancelled else Ok;
  }

  lemma SomeOneMore(nodes: Nodes, ids: seq<SpanId>, id: SpanId, status: SpanStatus)
    requires Within(ids, nodes) && id in nodes
    ensures Within(ids + [id], nodes)
    ensures AnyIs(nodes, ids + [id], status) <==> AnyIs(nodes, ids, status) || nodes[id].status == status
  {
    var more := ids + [id];
    assert id in more;
    if AnyIs(nodes, ids, status) {
      var x :| x in ids && nodes[x].status == status;
      assert x in more;
    }
  }

  lemma CountOneMore(nodes: Nodes, ids: seq<SpanId>, id: SpanId)
    requires Within(ids, nodes) && id in nodes && id !in ids
    ensures Within(ids + [id], nodes)
    ensures |set x | x in ids + [id] && nodes[x].status == Failed|
         == |set x | x in ids && nodes[x].status == Failed| + if nodes[id].status == Failed then 1 else 0
  {
    var was := set x | x in ids && nodes[x].status == Failed;
    var now := set x | x in ids + [id] && nodes[x].status == Failed;
    if nodes[id].status == Failed {
      assert now == was + {id};
    } else {
      assert now == was;
    }
  }

  lemma FailedCounted(nodes: Nodes, ids: seq<SpanId>)
    requires Within(ids, nodes)
    ensures |set id | id in ids && nodes[id].status == Failed| > 0 <==> AnyIs(nodes, ids, Failed)
  {
    var failed := set id | id in ids && nodes[id].status == Failed;
    if AnyIs(nodes, ids, Failed) {
      var x :| x in ids && nodes[x].status == Failed;
      assert x in failed;
    } else {
      assert failed == {};
    }
  }

  method SumUp(nodes: Nodes, ids: seq<SpanId>) returns (spend: Spend)
    requires Within(ids, nodes)
    ensures spend == Total(nodes, ids)
  {
    spend := NOTHING;
    for i := 0 to |ids|
      invariant spend == Total(nodes, ids[..i])
    {
      assert ids[i] in ids;
      TotalOfPrefix(nodes, ids, i);
      spend := Plus(spend, SpendOf(nodes[ids[i]]));
    }
    WholePrefix(ids);
  }

  lemma TotalOfPrefix(nodes: Nodes, ids: seq<SpanId>, i: nat)
    requires i < |ids|
    ensures Total(nodes, ids[..i + 1]) == Plus(Total(nodes, ids[..i]), SpendAt(nodes, ids[i]))
  {
    PrefixGrows(ids, i);
    TotalOneMore(nodes, ids[..i], ids[i]);
  }

  lemma TotalOneMore(nodes: Nodes, ids: seq<SpanId>, id: SpanId)
    ensures Total(nodes, ids + [id]) == Plus(Total(nodes, ids), SpendAt(nodes, id))
  {
    TotalConcat(nodes, ids, [id]);
    TotalOne(nodes, id);
  }

  // --- building the forest -----------------------------------------------------------------

  /** The lists once the spans in `done` have been handed to their parents. */
  ghost predicate LinkedSoFar(nodes: Nodes, done: seq<SpanId>, kids: Children, roots: seq<SpanId>) {
    && kids.Keys == nodes.Keys
    && (forall id, c :: id in kids ==>
         multiset(kids[id])[c] == if c in done && ParentIn(nodes, c) == Some(id) then 1 else 0)
    && (forall c :: multiset(roots)[c] == if c in done && ParentIn(nodes, c).None? then 1 else 0)
  }

  lemma LinkOneMore(nodes: Nodes, done: seq<SpanId>, kids: Children, roots: seq<SpanId>, id: SpanId)
    requires LinkedSoFar(nodes, done, kids, roots) && id in nodes && id !in done
    ensures var p := ParentIn(nodes, id);
      if p.Some? then LinkedSoFar(nodes, done + [id], kids[p.value := kids[p.value] + [id]], roots)
      else LinkedSoFar(nodes, done + [id], kids, roots + [id])
  {
  }

  /** Hands every span to its parent; a span whose parent is not of this trace becomes a root. */
  method Link(nodes: Nodes, ids: seq<SpanId>) returns (roots: seq<SpanId>, kids: Children)
    requires Lists(ids, nodes)
    ensures Linked(nodes, kids, roots)
  {
    roots := [];
    kids := map id | id in nodes :: [];
    for i := 0 to |ids|
      invariant LinkedSoFar(nodes, ids[..i], kids, roots)
    {
      var id := ids[i];
      assert id in ids;
      PrefixGrows(ids, i);
      LinkOneMore(nodes, ids[..i], kids, roots, id);
      var parent := ParentIn(nodes, id);
      if parent.Some? {
        kids := kids[parent.value := kids[parent.value] + [id]];
      } else {
        roots := roots + [id];
      }
    }
    WholePrefix(ids);
  }

  /** Sorts every list by time of start; what is listed where does not change. */
  method SortLists(nodes: Nodes, ids: seq<SpanId>, roots: seq<SpanId>, kids: Children)
    returns (sortedRoots: seq<SpanId>, sorted: Children)
    requires Lists(ids, nodes) && Linked(nodes, kids, roots)
    ensures Linked(nodes, sorted, sortedRoots) && Rising(nodes, sortedRoots)
    ensures forall id :: id in sorted ==> Rising(nodes, sorted[id])
  {
    sorted := kids;
    for i := 0 to |ids|
      invariant SortedSoFar(nodes, ids[..i], kids, sorted)
    {
      assert ids[i] in ids && ids[i] !in ids[..i];
      SortOneMore(nodes, ids[..i], kids, sorted, ids[i]);
      PrefixGrows(ids, i);
      sorted := sorted[ids[i] := ByStart(nodes, sorted[ids[i]])];
    }
    WholePrefix(ids);
    sortedRoots := ByStart(nodes, roots);
    SortingKeepsLinks(nodes, ids, kids, roots, sorted);
  }

  ghost predicate SortedSoFar(nodes: Nodes, done: seq<SpanId>, kids: Children, sorted: Children) {
    && sorted.Keys == kids.Keys
    && forall id :: id in kids ==> sorted[id] == if id in done then ByStart(nodes, kids[id]) else kids[id]
  }

  lemma SortOneMore(nodes: Nodes, done: seq<SpanId>, kids: Children, sorted: Children, id: SpanId)
    requires SortedSoFar(nodes, done, kids, sorted) && id in kids && id !in done
    ensures SortedSoFar(nodes, done + [id], kids, sorted[id := ByStart(nodes, sorted[id])])
  {
  }

  lemma SortingKeepsLinks(nodes: Nodes, ids: seq<SpanId>, kids: Children, roots: seq<SpanId>, sorted: Children)
    requires Lists(ids, nodes) && Linked(nodes, kids, roots) && SortedSoFar(nodes, ids, kids, sorted)
    ensures Linked(nodes, sorted, ByStart(nodes, roots)) && Rising(nodes, ByStart(nodes, roots))
    ensures forall id :: id in sorted ==> Rising(nodes, sorted[id])
  {
    ByStartSorts(nodes, roots);
    forall id | id in kids ensures Rising(nodes, sorted[id]) && multiset(sorted[id]) == multiset(kids[id]) {
      ByStartSorts(nodes, kids[id]);
    }
  }

  // --- the index by trace ------------------------------------------------------------------

  ghost predicate Indexed(nodes: Nodes, byTrace: map<string, seq<SpanId>>) {
    && (forall t :: t in byTrace ==> NoDuplicates(byTrace[t]))
    && (forall t, id :: t in byTrace && id in byTrace[t] ==> id in nodes && nodes[id].traceId == t)
    && forall id :: id in nodes ==> nodes[id].traceId in byTrace && id in byTrace[nodes[id].traceId]
  }

  lemma OpeningKeepsIndex(nodes: Nodes, byTrace: map<string, seq<SpanId>>, s: Span)
    requires Indexed(nodes, byTrace) && s.id !in nodes
    ensures Indexed(nodes[s.id := s],
                    byTrace[s.traceId := (if s.traceId in byTrace then byTrace[s.traceId] else []) + [s.id]])
  {
    var ids := if s.traceId in byTrace then byTrace[s.traceId] else [];
    NoDuplicatesAppend(ids, [s.id]);
  }

  lemma RewritingKeepsIndex(nodes: Nodes, byTrace: map<string, seq<SpanId>>, s: Span)
    requires Indexed(nodes, byTrace) && s.id in nodes && s.traceId == nodes[s.id].traceId
    ensures Indexed(nodes[s.id := s], byTrace)
  {
  }

  lemma DistinctSize(ids: seq<SpanId>, all: set<SpanId>)
    requires NoDuplicates(ids) && forall id :: id in ids <==> id in all
    ensures |ids| == |all|
  {
    DistinctCount(ids);
    assert (set id | id in ids) == all;
  }

  lemma IndexCounts(nodes: Nodes, byTrace: map<string, seq<SpanId>>, t: string)
    requires Indexed(nodes, byTrace)
    ensures |TraceNodes(nodes, t)| == if t in byTrace then |byTrace[t]| else 0
  {
    var here := TraceNodes(nodes, t);
    if t in byTrace {
      DistinctSize(byTrace[t], here.Keys);
      assert |here| == |here.Keys|;
    } else {
      assert here == map[];
    }
  }

  lemma SortedIndex(nodes: Nodes, byTrace: map<string, seq<SpanId>>, t: string, ids: seq<SpanId>)
    requires Indexed(nodes, byTrace) && ids == if t in byTrace then byTrace[t] else []
    ensures var sorted := ByStart(nodes, ids);
      Rising(nodes, sorted) && NoDuplicates(sorted) && forall id :: id in sorted <==> id in TraceNodes(nodes, t)
  {
    IndexLists(nodes, byTrace, t, ids);
    SortedLists(nodes, ids, TraceNodes(nodes, t));
  }

  lemma IndexLists(nodes: Nodes, byTrace: map<string, seq<SpanId>>, t: string, ids: seq<SpanId>)
    requires Indexed(nodes, byTrace) && ids == if t in byTrace then byTrace[t] else []
    ensures NoDuplicates(ids) && forall id :: id in ids <==> id in TraceNodes(nodes, t)
  {
  }

  lemma SortedLists(nodes: Nodes, ids: seq<SpanId>, here: Nodes)
    requires NoDuplicates(ids) && forall id :: id in ids <==> id in here
    ensures var sorted := ByStart(nodes, ids);
      Rising(nodes, sorted) && NoDuplicates(sorted) && forall id :: id in sorted <==> id in here
  {
    ByStartSorts(nodes, ids);
    SameOccurrences(ids, ByStart(nodes, ids));
  }

  lemma SameOccurrences(a: seq<SpanId>, b: seq<SpanId>)
    requires NoDuplicates(a) && multiset(a) == multiset(b)
    ensures NoDuplicates(b) && forall id :: id in a <==> id in b
  {
    forall id ensures id in a <==> id in b {
      assert id in multiset(a) <==> id in multiset(b);
    }
    forall i, j | 0 <= i < j < |b| ensures b[i] != b[j] {
      OccursOnce(a, b[i]);
      TwicePresent(b, i, j);
    }
  }

  lemma TwicePresent(b: seq<SpanId>, i: nat, j: nat)
    requires i < j < |b|
    ensures b[i] == b[j] ==> multiset(b)[b[i]] >= 2
  {
    assert b == b[..i] + [b[i]] + b[i + 1..j] + [b[j]] + b[j + 1..];
  }
}
