/** The spans of one trace as a forest: parent pointers on one side, child lists on the other. */
module SpanForest {
  import opened Wrappers

  datatype SpanId = SpanId(text: string)

  datatype SpanStatus = Running | Ok | Failed | Cancelled

  datatype Span = Span(
    id: SpanId, traceId: string, parent: Option<SpanId>, name: string, status: SpanStatus, startedAt: int,
    endedAt: Option<int>, error: Option<string>, cost: Option<real>, tokens: Option<int>, events: seq<string>)

  type Nodes = map<SpanId, Span>

  type Children = map<SpanId, seq<SpanId>>

  type Ranks = map<SpanId, nat>

  // --- parent pointers ---------------------------------------------------------------------

  /** The parent, if it is a span of the same trace. */
  function ParentIn(nodes: Nodes, id: SpanId): Option<SpanId> {
    if id in nodes && nodes[id].parent.Some? && nodes[id].parent.value in nodes then nodes[id].parent else None
  }

  /** Every parent was there before its children. */
  ghost predicate ParentsFirst(nodes: Nodes, rank: Ranks) {
    && (forall id :: id in nodes ==> id in rank)
    && forall id :: id in nodes && ParentIn(nodes, id).Some? ==> rank[ParentIn(nodes, id).value] < rank[id]
  }

  /** `y` stands at or below `x`. */
  ghost predicate Under(nodes: Nodes, rank: Ranks, x: SpanId, y: SpanId)
    requires ParentsFirst(nodes, rank) && y in nodes
    decreases rank[y]
  {
    x == y || (ParentIn(nodes, y).Some? && Under(nodes, rank, x, ParentIn(nodes, y).value))
  }

  /** The ancestor of `y` that has no parent. */
  ghost function Top(nodes: Nodes, rank: Ranks, y: SpanId): (top: SpanId)
    requires ParentsFirst(nodes, rank) && y in nodes
    ensures top in nodes && ParentIn(nodes, top).None? && Under(nodes, rank, top, y)
    decreases rank[y]
  {
    if ParentIn(nodes, y).None? then y else Top(nodes, rank, ParentIn(nodes, y).value)
  }

  /** The child of `x` on the way down to `y`. */
  ghost function Toward(nodes: Nodes, rank: Ranks, x: SpanId, y: SpanId): (child: SpanId)
    requires ParentsFirst(nodes, rank) && y in nodes && Under(nodes, rank, x, y) && x != y
    ensures child in nodes && ParentIn(nodes, child) == Some(x) && Under(nodes, rank, child, y)
    decreases rank[y]
  {
    var p := ParentIn(nodes, y).value;
    if p == x then y else Toward(nodes, rank, x, p)
  }

  lemma {:induction false} OneTop(nodes: Nodes, rank: Ranks, x: SpanId, y: SpanId)
    requires ParentsFirst(nodes, rank) && x in nodes && y in nodes && Under(nodes, rank, x, y)
      && ParentIn(nodes, x).None?
    ensures x == Top(nodes, rank, y)
    decreases rank[y]
  {
    if x != y {
      OneTop(nodes, rank, x, ParentIn(nodes, y).value);
    }
  }

  lemma {:induction false} UnderIsYounger(nodes: Nodes, rank: Ranks, x: SpanId, y: SpanId)
    requires ParentsFirst(nodes, rank) && x in nodes && y in nodes && Under(nodes, rank, x, y)
    ensures rank[x] <= rank[y]
    decreases rank[y]
  {
    if x != y {
      UnderIsYounger(nodes, rank, x, ParentIn(nodes, y).value);
    }
  }

  /** Of the children of `x`, only the one toward `y` has `y` under it. */
  lemma {:induction false} OneChildToward(nodes: Nodes, rank: Ranks, x: SpanId, c: SpanId, y: SpanId)
    requires ParentsFirst(nodes, rank) && y in nodes && c in nodes && ParentIn(nodes, c) == Some(x)
      && Under(nodes, rank, c, y)
    ensures x != y && Under(nodes, rank, x, y) && c == Toward(nodes, rank, x, y)
    decreases rank[y]
  {
    UnderIsYounger(nodes, rank, c, y);
    if c != y {
      OneChildToward(nodes, rank, x, c, ParentIn(nodes, y).value);
    }
  }

  // --- child lists -------------------------------------------------------------------------

  /** Each span is listed once under its parent, or once among the roots if it has none here. */
  ghost predicate Linked(nodes: Nodes, kids: Children, roots: seq<SpanId>) {
    && kids.Keys == nodes.Keys
    && (forall id, c :: id in kids ==> multiset(kids[id])[c] == if ParentIn(nodes, c) == Some(id) then 1 else 0)
    && (forall c :: multiset(roots)[c] == if c in nodes && ParentIn(nodes, c).None? then 1 else 0)
  }

  ghost predicate Listed(nodes: Nodes, rank: Ranks, cs: seq<SpanId>, floor: nat) {
    forall c :: c in cs ==> c in nodes && c in rank && rank[c] >= floor
  }

  ghost predicate Grown(nodes: Nodes, kids: Children, rank: Ranks, bound: nat) {
    && ParentsFirst(nodes, rank) && (forall id :: id in nodes ==> rank[id] < bound)
    && kids.Keys == nodes.Keys
    && forall id :: id in kids ==> Listed(nodes, rank, kids[id], rank[id] + 1)
  }

  lemma KidHasParent(nodes: Nodes, kids: Children, roots: seq<SpanId>, id: SpanId, c: SpanId)
    requires Linked(nodes, kids, roots) && id in kids && c in kids[id]
    ensures c in nodes && ParentIn(nodes, c) == Some(id)
  {
    assert multiset(kids[id])[c] > 0;
    assert multiset(kids[id])[c] == if ParentIn(nodes, c) == Some(id) then 1 else 0;
  }

  lemma LinkedIsGrown(nodes: Nodes, kids: Children, roots: seq<SpanId>, rank: Ranks, bound: nat)
    requires Linked(nodes, kids, roots) && ParentsFirst(nodes, rank) && forall id :: id in nodes ==> rank[id] < bound
    ensures Grown(nodes, kids, rank, bound) && Listed(nodes, rank, roots, 0)
  {
    forall id | id in kids ensures Listed(nodes, rank, kids[id], rank[id] + 1) {
      forall c | c in kids[id] ensures c in nodes && rank[c] >= rank[id] + 1 {
        KidHasParent(nodes, kids, roots, id, c);
      }
    }
    forall c | c in roots ensures c in nodes {
      assert multiset(roots)[c] > 0;
    }
  }

  /** A span and everything below it, parents before children. */
  ghost function Walk(nodes: Nodes, kids: Children, rank: Ranks, bound: nat, id: SpanId): seq<SpanId>
    requires Grown(nodes, kids, rank, bound) && id in nodes
    decreases bound - rank[id], 0, 0
  {
    [id] + WalkAll(nodes, kids, rank, bound, kids[id], rank[id] + 1)
  }

  ghost function WalkAll(nodes: Nodes, kids: Children, rank: Ranks, bound: nat, cs: seq<SpanId>,
                         floor: nat): seq<SpanId>
    requires Grown(nodes, kids, rank, bound) && Listed(nodes, rank, cs, floor) && floor <= bound
    decreases bound - floor, 1, |cs|
  {
    if cs == [] then []
    else
      assert cs[0] in cs;
      Walk(nodes, kids, rank, bound, cs[0]) + WalkAll(nodes, kids, rank, bound, cs[1..], floor)
  }

  ghost function Holding(nodes: Nodes, rank: Ranks, cs: seq<SpanId>, y: SpanId): nat
    requires ParentsFirst(nodes, rank) && y in nodes
  {
    if cs == [] then 0 else (if Under(nodes, rank, cs[0], y) then 1 else 0) + Holding(nodes, rank, cs[1..], y)
  }

  lemma {:induction false} OnlyOneHolds(nodes: Nodes, rank: Ranks, cs: seq<SpanId>, y: SpanId, w: SpanId)
    requires ParentsFirst(nodes, rank) && y in nodes && Under(nodes, rank, w, y)
    requires forall c :: c in cs && Under(nodes, rank, c, y) ==> c == w
    ensures Holding(nodes, rank, cs, y) == multiset(cs)[w]
  {
    if cs != [] {
      assert cs == [cs[0]] + cs[1..];
      OnlyOneHolds(nodes, rank, cs[1..], y, w);
    }
  }

  lemma {:induction false} NoneHolds(nodes: Nodes, rank: Ranks, cs: seq<SpanId>, y: SpanId)
    requires ParentsFirst(nodes, rank) && y in nodes
    requires forall c :: c in cs ==> !Under(nodes, rank, c, y)
    ensures Holding(nodes, rank, cs, y) == 0
  {
    if cs != [] {
      assert cs == [cs[0]] + cs[1..];
      NoneHolds(nodes, rank, cs[1..], y);
    }
  }

  lemma ChildrenHold(nodes: Nodes, kids: Children, roots: seq<SpanId>, rank: Ranks, x: SpanId, y: SpanId)
    requires Linked(nodes, kids, roots) && ParentsFirst(nodes, rank) && x in nodes && y in nodes
    ensures Holding(nodes, rank, kids[x], y) == if x != y && Under(nodes, rank, x, y) then 1 else 0
  {
    if x != y && Under(nodes, rank, x, y) {
      var w := Toward(nodes, rank, x, y);
      forall c | c in kids[x] && Under(nodes, rank, c, y) ensures c == w {
        KidHasParent(nodes, kids, roots, x, c);
        OneChildToward(nodes, rank, x, c, y);
      }
      OnlyOneHolds(nodes, rank, kids[x], y, w);
    } else {
      forall c | c in kids[x] ensures !Under(nodes, rank, c, y) {
        KidHasParent(nodes, kids, roots, x, c);
        if Under(nodes, rank, c, y) {
          OneChildToward(nodes, rank, x, c, y);
        }
      }
      NoneHolds(nodes, rank, kids[x], y);
    }
  }

  /** A walk meets exactly what is under its start, and each only once. */
  lemma {:induction false} WalkMeetsOnce(nodes: Nodes, kids: Children, roots: seq<SpanId>, rank: Ranks, bound: nat,
                                         x: SpanId, y: SpanId)
    requires Linked(nodes, kids, roots) && Grown(nodes, kids, rank, bound) && x in nodes && y in nodes
    ensures multiset(Walk(nodes, kids, rank, bound, x))[y] == if Under(nodes, rank, x, y) then 1 else 0
    decreases bound - rank[x], 0, 0
  {
    WalkAllMeets(nodes, kids, roots, rank, bound, kids[x], rank[x] + 1, y);
    ChildrenHold(nodes, kids, roots, rank, x, y);
  }

  lemma {:induction false} WalkAllMeets(nodes: Nodes, kids: Children, roots: seq<SpanId>, rank: Ranks, bound: nat,
                                        cs: seq<SpanId>, floor: nat, y: SpanId)
    requires Linked(nodes, kids, roots) && Grown(nodes, kids, rank, bound) && y in nodes
    requires Listed(nodes, rank, cs, floor) && floor <= bound
    ensures multiset(WalkAll(nodes, kids, rank, bound, cs, floor))[y] == Holding(nodes, rank, cs, y)
    decreases bound - floor, 1, |cs|
  {
    if cs != [] {
      assert cs[0] in cs;
      WalkMeetsOnce(nodes, kids, roots, rank, bound, cs[0], y);
      WalkAllMeets(nodes, kids, roots, rank, bound, cs[1..], floor, y);
    }
  }

  lemma {:induction false} WalkStaysInside(nodes: Nodes, kids: Children, rank: Ranks, bound: nat, x: SpanId)
    requires Grown(nodes, kids, rank, bound) && x in nodes
    ensures forall y :: y in Walk(nodes, kids, rank, bound, x) ==> y in nodes
    decreases bound - rank[x], 0, 0
  {
    WalkAllStaysInside(nodes, kids, rank, bound, kids[x], rank[x] + 1);
  }

  lemma {:induction false} WalkAllStaysInside(nodes: Nodes, kids: Children, rank: Ranks, bound: nat, cs: seq<SpanId>,
                                              floor: nat)
    requires Grown(nodes, kids, rank, bound) && Listed(nodes, rank, cs, floor) && floor <= bound
    ensures forall y :: y in WalkAll(nodes, kids, rank, bound, cs, floor) ==> y in nodes
    decreases bound - floor, 1, |cs|
  {
    if cs != [] {
      assert cs[0] in cs;
      WalkStaysInside(nodes, kids, rank, bound, cs[0]);
      WalkAllStaysInside(nodes, kids, rank, bound, cs[1..], floor);
    }
  }

  /** Walking all the roots meets every span of the trace exactly once, and nothing else. */
  lemma ForestHoldsEachSpanOnce(nodes: Nodes, kids: Children, roots: seq<SpanId>, rank: Ranks, bound: nat, y: SpanId)
    requires Linked(nodes, kids, roots) && Grown(nodes, kids, rank, bound) && Listed(nodes, rank, roots, 0)
    ensures multiset(WalkAll(nodes, kids, rank, bound, roots, 0))[y] == if y in nodes then 1 else 0
  {
    if y in nodes {
      var top := Top(nodes, rank, y);
      WalkAllMeets(nodes, kids, roots, rank, bound, roots, 0, y);
      forall c | c in roots && Under(nodes, rank, c, y) ensures c == top {
        assert multiset(roots)[c] > 0;
        OneTop(nodes, rank, c, y);
      }
      OnlyOneHolds(nodes, rank, roots, y, top);
    } else {
      WalkAllStaysInside(nodes, kids, rank, bound, roots, 0);
      assert y !in WalkAll(nodes, kids, rank, bound, roots, 0);
    }
  }

  // --- sums --------------------------------------------------------------------------------

  function Cost(s: Span): real { s.cost.GetOr(0.0) }

  function Tokens(s: Span): int { s.tokens.GetOr(0) }

  /** Cost and tokens of a list of spans, added up. */
  datatype Spend = Spend(cost: real, tokens: int)

  function Plus(a: Spend, b: Spend): Spend { Spend(a.cost + b.cost, a.tokens + b.tokens) }

  function SpendOf(s: Span): Spend { Spend(Cost(s), Tokens(s)) }

  /** What a span does not report counts as nothing. */
  lemma SpendOfExactly(s: Span)
    ensures s.cost.Some? ==> SpendOf(s).cost == s.cost.value
    ensures s.cost.None? ==> SpendOf(s).cost == 0.0
    ensures s.tokens.Some? ==> SpendOf(s).tokens == s.tokens.value
    ensures s.tokens.None? ==> SpendOf(s).tokens == 0
  {
  }

  const NOTHING := Spend(0.0, 0)

  function SpendAt(nodes: Nodes, id: SpanId): Spend {
    if id in nodes then SpendOf(nodes[id]) else NOTHING
  }

  function Total(nodes: Nodes, ids: seq<SpanId>): Spend {
    if ids == [] then NOTHING else Plus(SpendAt(nodes, ids[0]), Total(nodes, ids[1..]))
  }

  /** Spend rolled up over a span and its children. */
  ghost function TreeSpend(nodes: Nodes, kids: Children, rank: Ranks, bound: nat, id: SpanId): Spend
    requires Grown(nodes, kids, rank, bound) && id in nodes
    decreases bound - rank[id], 0, 0
  {
    Plus(SpendOf(nodes[id]), ForestSpend(nodes, kids, rank, bound, kids[id], rank[id] + 1))
  }

  ghost function ForestSpend(nodes: Nodes, kids: Children, rank: Ranks, bound: nat, cs: seq<SpanId>, floor: nat): Spend
    requires Grown(nodes, kids, rank, bound) && Listed(nodes, rank, cs, floor) && floor <= bound
    decreases bound - floor, 1, |cs|
  {
    if cs == [] then NOTHING
    else
      assert cs[0] in cs;
      Plus(TreeSpend(nodes, kids, rank, bound, cs[0]), ForestSpend(nodes, kids, rank, bound, cs[1..], floor))
  }

  lemma {:induction false} TotalConcat(nodes: Nodes, a: seq<SpanId>, b: seq<SpanId>)
    ensures Total(nodes, a + b) == Plus(Total(nodes, a), Total(nodes, b))
    decreases |a|
  {
    if a == [] {
      assert a + b == b;
      PlusLaws(NOTHING, Total(nodes, b), NOTHING);
    } else {
      assert (a + b)[1..] == a[1..] + b;
      TotalConcat(nodes, a[1..], b);
      PlusLaws(SpendAt(nodes, a[0]), Total(nodes, a[1..]), Total(nodes, b));
    }
  }

  lemma TotalOne(nodes: Nodes, x: SpanId)
    ensures Total(nodes, [x]) == SpendAt(nodes, x)
  {
    assert [x][1..] == [];
    PlusLaws(SpendAt(nodes, x), NOTHING, NOTHING);
  }

  lemma PlusLaws(a: Spend, b: Spend, c: Spend)
    ensures Plus(Plus(a, b), c) == Plus(a, Plus(b, c)) && Plus(a, b) == Plus(b, a) && Plus(NOTHING, b) == b
      && Plus(a, NOTHING) == a
  {
  }

  lemma {:induction false} WalkSpend(nodes: Nodes, kids: Children, rank: Ranks, bound: nat, x: SpanId)
    requires Grown(nodes, kids, rank, bound) && x in nodes
    ensures TreeSpend(nodes, kids, rank, bound, x) == Total(nodes, Walk(nodes, kids, rank, bound, x))
    decreases bound - rank[x], 0, 0
  {
    WalkAllSpend(nodes, kids, rank, bound, kids[x], rank[x] + 1);
    TotalOnTop(nodes, x, WalkAll(nodes, kids, rank, bound, kids[x], rank[x] + 1));
  }

  lemma TotalOnTop(nodes: Nodes, x: SpanId, rest: seq<SpanId>)
    ensures Total(nodes, [x] + rest) == Plus(SpendAt(nodes, x), Total(nodes, rest))
  {
    assert ([x] + rest)[1..] == rest;
  }

  lemma {:induction false} WalkAllSpend(nodes: Nodes, kids: Children, rank: Ranks, bound: nat, cs: seq<SpanId>,
                                        floor: nat)
    requires Grown(nodes, kids, rank, bound) && Listed(nodes, rank, cs, floor) && floor <= bound
    ensures ForestSpend(nodes, kids, rank, bound, cs, floor) ==
      Total(nodes, WalkAll(nodes, kids, rank, bound, cs, floor))
    decreases bound - floor, 1, |cs|
  {
    if cs != [] {
      assert cs[0] in cs;
      WalkSpend(nodes, kids, rank, bound, cs[0]);
      WalkAllSpend(nodes, kids, rank, bound, cs[1..], floor);
      TotalConcat(nodes, Walk(nodes, kids, rank, bound, cs[0]), WalkAll(nodes, kids, rank, bound, cs[1..], floor));
    }
  }

  lemma {:induction false} TotalIgnoresOrder(nodes: Nodes, a: seq<SpanId>, b: seq<SpanId>)
    requires multiset(a) == multiset(b)
    ensures Total(nodes, a) == Total(nodes, b)
    decreases |a|
  {
    if a == [] {
      assert |multiset(b)| == |b|;
    } else {
      var x, rest := a[0], a[1..];
      assert a == [x] + rest;
      assert x in multiset(b);
      var i :| 0 <= i < |b| && b[i] == x;
      TakeOut(b, i);
      Cancel(multiset(rest), multiset(b[..i] + b[i + 1..]), x);
      TotalIgnoresOrder(nodes, rest, b[..i] + b[i + 1..]);
      TotalSkips(nodes, b[..i], x, b[i + 1..]);
      PlusLaws(SpendAt(nodes, x), Total(nodes, rest), NOTHING);
    }
  }

  lemma Cancel(a: multiset<SpanId>, b: multiset<SpanId>, x: SpanId)
    requires a + multiset{x} == b + multiset{x}
    ensures a == b
  {
    forall y ensures a[y] == b[y] {
      assert (a + multiset{x})[y] == (b + multiset{x})[y];
    }
  }

  lemma TakeOut(b: seq<SpanId>, i: nat)
    requires i < |b|
    ensures b == b[..i] + [b[i]] + b[i + 1..]
    ensures multiset(b) == multiset(b[..i] + b[i + 1..]) + multiset{b[i]}
  {
    assert b == b[..i] + [b[i]] + b[i + 1..];
  }

  lemma TotalSkips(nodes: Nodes, before: seq<SpanId>, x: SpanId, after: seq<SpanId>)
    ensures Total(nodes, before + [x] + after) == Plus(Total(nodes, before + after), SpendAt(nodes, x))
  {
    var a, s, b := Total(nodes, before), SpendAt(nodes, x), Total(nodes, after);
    TotalConcat(nodes, before + [x], after);
    TotalConcat(nodes, before, [x]);
    TotalConcat(nodes, before, after);
    TotalOne(nodes, x);
    PlusLaws(a, s, b);
    PlusLaws(a, b, s);
    PlusLaws(s, b, a);
  }

  /** Spend rolled up over the whole forest is the flat total over the trace, listed in any order. */
  lemma ForestSpendIsFlatTotal(nodes: Nodes, kids: Children, roots: seq<SpanId>, rank: Ranks, bound: nat,
                               ids: seq<SpanId>)
    requires Linked(nodes, kids, roots) && Grown(nodes, kids, rank, bound) && Listed(nodes, rank, roots, 0)
    requires NoDuplicates(ids) && forall id :: id in ids <==> id in nodes
    ensures ForestSpend(nodes, kids, rank, bound, roots, 0) == Total(nodes, ids)
  {
    var walked := WalkAll(nodes, kids, rank, bound, roots, 0);
    WalkAllSpend(nodes, kids, rank, bound, roots, 0);
    forall y ensures multiset(walked)[y] == multiset(ids)[y] {
      ForestHoldsEachSpanOnce(nodes, kids, roots, rank, bound, y);
      OccursOnce(ids, y);
    }
    TotalIgnoresOrder(nodes, walked, ids);
  }

  lemma {:induction false} OccursOnce(ids: seq<SpanId>, y: SpanId)
    requires NoDuplicates(ids)
    ensures multiset(ids)[y] == if y in ids then 1 else 0
  {
    if ids != [] {
      var last := |ids| - 1;
      OccursOnce(ids[..last], y);
      assert ids == ids[..last] + [ids[last]];
    }
  }
}
