/** packages/policy-engine/src/quota-guard.ts: fixed-window quotas over a counter store. */
module QuotaGuard {
  import opened Wrappers

  datatype Period = Minute | Hour | Day | Month

  function PeriodMs(p: Period): (ms: int)
    ensures ms > 0
  {
    match p
    case Minute => 60_000
    case Hour => 3_600_000
    case Day => 86_400_000
    case Month => 2_592_000_000
  }

  datatype Scope = Scope(orgId: Option<string>, userId: Option<string>, agentId: Option<string>)

  datatype Limit = Limit(id: string, resource: string, scope: Scope, period: Period, limit: int)

  /** The parts `counterKey` joins: the limit, the caller's scope with wildcards, and the window. */
  datatype Key = Key(limitId: string, resource: string, org: string, user: string, agent: string, window: int)

  datatype Counter = Counter(value: int, expiresAt: int)

  type Counters = map<Key, Counter>

  /** The in-memory store fixes a deadline once; the key/value store renews it on every increment. */
  datatype StoreKind = DeadlineOnce | DeadlineRenewed

  /**
   * What the clock shows while one limit is counted: as the key is built, as the store looks the
   * counter up, as it sets a deadline, and as the status is written.
   */
  datatype Reading = Reading(keyAt: int, storedAt: int, deadlineAt: int, reportedAt: int)

  /** One call of `consume`; every governing limit has readings of its own. */
  datatype Request = Request(resource: string, scope: Scope, amount: int, clock: string -> Reading)

  function At(l: Limit, r: Request): Reading { r.clock(l.id) }

  datatype Status = Status(limitId: string, resource: string, period: Period, used: int, limit: int, remaining: int,
                           exceeded: bool, resetsAt: int)

  // --- counters ----------------------------------------------------------------------------

  /** An entry counts until its deadline. */
  function Live(cs: Counters, key: Key, now: int): Option<int> {
    if key in cs && now < cs[key].expiresAt then Some(cs[key].value) else None
  }

  function Bumped(kind: StoreKind, cs: Counters, key: Key, amount: int, ttlMs: int, at: Reading): Counters {
    var existing := Live(cs, key, at.storedAt);
    cs[key := Counter(existing.GetOr(0) + amount,
                      if kind.DeadlineOnce? && existing.Some? then cs[key].expiresAt else at.deadlineAt + ttlMs)]
  }

  /** A live counter goes on counting and keeps or renews its deadline; anything else starts afresh. */
  ghost predicate CountedIn(kind: StoreKind, before: Counters, after: Counters, key: Key, amount: int, ttlMs: int,
                            at: Reading) {
    && after.Keys == before.Keys + {key}
    && (forall other :: other in before && other != key ==> after[other] == before[other])
    && if key in before && at.storedAt < before[key].expiresAt
       then after[key].value == before[key].value + amount
         && (kind.DeadlineOnce? ==> after[key].expiresAt == before[key].expiresAt)
         && (kind.DeadlineRenewed? ==> after[key].expiresAt == at.deadlineAt + ttlMs)
       else after[key] == Counter(amount, at.deadlineAt + ttlMs)
  }

  class CounterStore {
    const kind: StoreKind
    var counters: Counters

    constructor (kind: StoreKind)
      ensures this.kind == kind && counters == map[]
    {
      this.kind := kind;
      counters := map[];
    }

    /** Reads an entry, deleting it once its deadline has passed. */
    method ReadLive(key: Key, now: int) returns (value: Option<int>)
      modifies this
      ensures value == Live(old(counters), key, now)
      ensures counters == if key in old(counters) && value.None? then old(counters) - {key} else old(counters)
    {
      if key !in counters {
        return None;
      }
      if now >= counters[key].expiresAt {
        counters := counters - {key};
        return None;
      }
      return Some(counters[key].value);
    }

    method Increment(key: Key, amount: int, ttlMs: int, at: Reading) returns (next: int)
      modifies this
      ensures counters == Bumped(kind, old(counters), key, amount, ttlMs, at)
      ensures CountedIn(kind, old(counters), counters, key, amount, ttlMs, at) && next == counters[key].value
    {
      var existing := ReadLive(key, at.storedAt);
      next := existing.GetOr(0) + amount;
      var expiresAt := if kind.DeadlineOnce? && existing.Some? then counters[key].expiresAt else at.deadlineAt + ttlMs;
      counters := counters[key := Counter(next, expiresAt)];
    }
  }

  // --- limits and keys ---------------------------------------------------------------------

  predicate CoversField(limit: Option<string>, candidate: Option<string>) {
    limit.None? || limit == candidate
  }

  /** A limit field left undefined is a wildcard. */
  predicate Covers(limit: Scope, candidate: Scope) {
    CoversField(limit.orgId, candidate.orgId) && CoversField(limit.userId, candidate.userId)
      && CoversField(limit.agentId, candidate.agentId)
  }

  predicate Governs(l: Limit, r: Request) {
    l.resource == r.resource && Covers(l.scope, r.scope)
  }

  /** A limit governs a request for its resource by a caller who has every name the limit's scope asks for. */
  lemma GovernsExactly(l: Limit, r: Request)
    ensures Governs(l, r) <==>
      && r.resource == l.resource
      && (l.scope.orgId.Some? ==> r.scope.orgId == l.scope.orgId)
      && (l.scope.userId.Some? ==> r.scope.userId == l.scope.userId)
      && (l.scope.agentId.Some? ==> r.scope.agentId == l.scope.agentId)
  {
  }

  /** The periods in milliseconds, each in terms of the shorter one. */
  lemma PeriodsNest()
    ensures PeriodMs(Minute) == 60 * 1000 && PeriodMs(Hour) == 60 * PeriodMs(Minute)
    ensures PeriodMs(Day) == 24 * PeriodMs(Hour) && PeriodMs(Month) == 30 * PeriodMs(Day)
  {
  }

  function Window(period: Period, now: int): int {
    now / PeriodMs(period)
  }

  function WindowEnd(period: Period, now: int): int {
    (Window(period, now) + 1) * PeriodMs(period)
  }

  function KeyFor(l: Limit, r: Request): Key {
    Key(l.id, l.resource, r.scope.orgId.GetOr("*"), r.scope.userId.GetOr("*"), r.scope.agentId.GetOr("*"),
        Window(l.period, At(l, r).keyAt))
  }

  /** Two names of one kind that a key cannot tell apart: an absent one reads as the wildcard. */
  predicate SameName(a: Option<string>, b: Option<string>) {
    a == b || (a.None? && b == Some("*")) || (b.None? && a == Some("*"))
  }

  predicate SameNames(a: Scope, b: Scope) {
    SameName(a.orgId, b.orgId) && SameName(a.userId, b.userId) && SameName(a.agentId, b.agentId)
  }

  /** Under one limit two requests share a counter exactly when their windows and the names of their callers agree. */
  lemma SharedCounterExactly(l: Limit, q: Request, r: Request)
    ensures KeyFor(l, q) == KeyFor(l, r) <==>
      Window(l.period, At(l, q).keyAt) == Window(l.period, At(l, r).keyAt) && SameNames(q.scope, r.scope)
  {
  }

  /** Different limits never share one. */
  lemma LimitsCountApart(l: Limit, m: Limit, q: Request, r: Request)
    requires l.id != m.id
    ensures KeyFor(l, q) != KeyFor(m, r)
  {
  }

  lemma WindowContains(period: Period, now: int)
    ensures Window(period, now) * PeriodMs(period) <= now < WindowEnd(period, now)
  {
    var size, w := PeriodMs(period), now / PeriodMs(period);
    assert now == w * size + now % size;
    assert (w + 1) * size == w * size + size;
  }

  function ToStatus(l: Limit, used: int, now: int): Status {
    Status(l.id, l.resource, l.period, used, l.limit,
           if l.limit > used then l.limit - used else 0, used > l.limit, WindowEnd(l.period, now))
  }

  /** The status reported for a limit once the amount has been counted. */
  function StatusAfter(kind: StoreKind, cs: Counters, l: Limit, r: Request): Status {
    ToStatus(l, Live(cs, KeyFor(l, r), At(l, r).storedAt).GetOr(0) + r.amount, At(l, r).reportedAt)
  }

  /**
   * What a caller reads off a status: what is left, whether the limit is passed, and the next instant
   * at which a window begins.
   */
  lemma StatusMeans(l: Limit, used: int, now: int)
    ensures var st := ToStatus(l, used, now);
      && st.limitId == l.id && st.resource == l.resource && st.period == l.period && st.limit == l.limit
      && st.used == used && (st.exceeded <==> used > l.limit)
      && (!st.exceeded ==> st.used + st.remaining == l.limit) && (st.exceeded ==> st.remaining == 0)
      && now < st.resetsAt <= now + PeriodMs(l.period) && st.resetsAt % PeriodMs(l.period) == 0
  {
    WindowContains(l.period, now);
    var size, w := PeriodMs(l.period), Window(l.period, now);
    assert (w + 1) * size == w * size + size;
    MultipleOf(w + 1, size);
  }

  lemma MultipleOf(k: int, size: int)
    requires size > 0
    ensures (k * size) % size == 0
  {
    var n := k * size;
    assert n == (n / size) * size + n % size;
    var d := k - n / size;
    assert d * size == k * size - (n / size) * size;
    if d >= 1 {
      Scaled(d, 1, size);
    } else if d <= -1 {
      Scaled(0, d, size);
    }
  }

  function Applicable(limits: seq<Limit>, r: Request): seq<Limit> {
    if limits == [] then []
    else
      Applicable(limits[..|limits| - 1], r) + (if Governs(limits[|limits| - 1], r) then [limits[|limits| - 1]] else [])
  }

  /** One counter per governing limit, bumped in order. */
  function AllBumped(kind: StoreKind, cs: Counters, governing: seq<Limit>, r: Request): Counters {
    if governing == [] then cs
    else
      var l := governing[|governing| - 1];
      Bumped(kind, AllBumped(kind, cs, governing[..|governing| - 1], r), KeyFor(l, r), r.amount, PeriodMs(l.period),
             At(l, r))
  }

  /** Consumption comes before the check, so a rejected call counts too. */
  function Consumed(kind: StoreKind, cs: Counters, limits: seq<Limit>, r: Request): Counters {
    AllBumped(kind, cs, Applicable(limits, r), r)
  }

  /** No governing limit is exceeded once the amount has been counted. */
  ghost predicate Admits(kind: StoreKind, cs: Counters, limits: seq<Limit>, r: Request) {
    forall l :: l in limits && Governs(l, r) ==>
      Live(cs, KeyFor(l, r), At(l, r).storedAt).GetOr(0) + r.amount <= l.limit
  }

  ghost predicate DistinctIds(limits: seq<Limit>) {
    forall i, j :: 0 <= i < j < |limits| ==> limits[i].id != limits[j].id
  }

  // --- the guard ---------------------------------------------------------------------------

  /** Limits keep their places: one with this id is replaced where it stands, a new one goes to the end. */
  ghost predicate SetIn(before: seq<Limit>, after: seq<Limit>, l: Limit) {
    || ((forall j :: 0 <= j < |before| ==> before[j].id != l.id) && after == before + [l])
    || (exists at :: 0 <= at < |before| && before[at].id == l.id && after == before[at := l])
  }

  datatype LimitError = EmptyId | EmptyResource | BadLimit

  class QuotaGuard {
    var limits: seq<Limit>
    const store: CounterStore

    constructor (store: CounterStore)
      ensures this.store == store && limits == [] && Valid()
    {
      this.store := store;
      limits := [];
    }

    ghost predicate Valid()
      reads this
    {
      DistinctIds(limits) && forall l :: l in limits ==> l.limit >= 0
    }

    /** Replaces the limit with this id in place, or adds it at the end. */
    method SetLimit(l: Limit) returns (error: Option<LimitError>)
      requires Valid()
      modifies this
      ensures Valid()
      ensures error.Some? <==> l.id == "" || l.resource == "" || l.limit < 0
      ensures error.Some? ==> limits == old(limits)
      ensures error.None? ==> SetIn(old(limits), limits, l)
    {
      if l.id == "" { return Some(EmptyId); }
      if l.resource == "" { return Some(EmptyResource); }
      if l.limit < 0 { return Some(BadLimit); }
      var at := 0;
      while at < |limits| && limits[at].id != l.id
        invariant 0 <= at <= |limits|
        invariant forall j :: 0 <= j < at ==> limits[j].id != l.id
      {
        at := at + 1;
      }
      ghost var before := limits;
      if at < |limits| {
        limits := limits[at := l];
        assert limits[at] == l;
        assert forall j :: 0 <= j < |before| && j != at ==> limits[j] == before[j] && before[j].id != l.id;
      } else {
        limits := limits + [l];
        assert limits[|before|] == l;
        assert forall j :: 0 <= j < |before| ==> limits[j] == before[j];
      }
      return None;
    }

    method Consume(r: Request) returns (allowed: bool, statuses: seq<Status>)
      requires Valid()
      modifies store
      ensures store.counters == Consumed(store.kind, old(store.counters), limits, r)
      ensures allowed <==> Admits(store.kind, old(store.counters), limits, r)
      ensures |statuses| == |Applicable(limits, r)|
      ensures forall i :: 0 <= i < |statuses| ==>
        statuses[i] == StatusAfter(store.kind, old(store.counters), Applicable(limits, r)[i], r)
    {
      var governing := Applicable(limits, r);
      ApplicableExact(limits, r);
      statuses := [];
      allowed := true;
      ghost var before := store.counters;
      for i := 0 to |governing|
        invariant |statuses| == i
          && forall j :: 0 <= j < i ==> statuses[j] == StatusAfter(store.kind, before, governing[j], r)
        invariant store.counters == AllBumped(store.kind, before, governing[..i], r)
        invariant allowed <==>
          forall j :: 0 <= j < i ==>
            Live(before, KeyFor(governing[j], r), At(governing[j], r).storedAt).GetOr(0) + r.amount
              <= governing[j].limit
      {
        PrefixGrows(governing, i);
        var status := ConsumeOne(governing[i], r, before, governing[..i]);
        statuses := statuses + [status];
        allowed := allowed && !status.exceeded;
      }
      WholePrefix(governing);
    }

    /** Counts against one limit; the limits counted before it have other ids. */
    method ConsumeOne(l: Limit, r: Request, ghost before: Counters, ghost done: seq<Limit>) returns (status: Status)
      requires store.counters == AllBumped(store.kind, before, done, r)
      requires forall other :: other in done ==> other.id != l.id
      modifies store
      ensures store.counters == AllBumped(store.kind, before, done + [l], r)
      ensures status == StatusAfter(store.kind, before, l, r)
    {
      assert (done + [l])[..|done|] == done;
      BumpedApart(store.kind, before, done, r, KeyFor(l, r));
      var used := store.Increment(KeyFor(l, r), r.amount, PeriodMs(l.period), At(l, r));
      status := ToStatus(l, used, At(l, r).reportedAt);
    }
  }

  lemma {:induction false} ApplicableExact(limits: seq<Limit>, r: Request)
    requires DistinctIds(limits)
    ensures DistinctIds(Applicable(limits, r))
    ensures forall l :: l in Applicable(limits, r) <==> l in limits && Governs(l, r)
  {
    if limits != [] {
      var init, last := limits[..|limits| - 1], limits[|limits| - 1];
      ApplicableExact(init, r);
      assert limits == init + [last];
      var before := Applicable(init, r);
      forall j | 0 <= j < |before| ensures before[j].id != last.id {
        assert before[j] in init;
        var k :| 0 <= k < |init| && init[k] == before[j];
      }
    }
  }

  /** They come in the order in which the limits were set. */
  lemma {:induction false} ApplicableInOrder(a: seq<Limit>, b: seq<Limit>, r: Request)
    ensures Applicable(a + b, r) == Applicable(a, r) + Applicable(b, r)
  {
    if b == [] {
      assert a + b == a;
    } else {
      var init, last := b[..|b| - 1], b[|b| - 1];
      assert a + b == (a + init) + [last];
      ApplicableInOrder(a, init, r);
    }
  }

  // --- one counter at a time ---------------------------------------------------------------

  ghost predicate SameAt(a: Counters, b: Counters, key: Key) {
    (key in a <==> key in b) && (key in a ==> a[key] == b[key])
  }

  /** Limits with other ids leave a counter alone. */
  lemma {:induction false} BumpedApart(kind: StoreKind, cs: Counters, governing: seq<Limit>, r: Request, key: Key)
    requires forall l :: l in governing ==> l.id != key.limitId
    ensures SameAt(AllBumped(kind, cs, governing, r), cs, key)
  {
    if governing != [] {
      var init := governing[..|governing| - 1];
      BumpedApart(kind, cs, init, r, key);
      assert governing[|governing| - 1] in governing;
    }
  }

  lemma {:induction false} BumpedOnce(kind: StoreKind, cs: Counters, governing: seq<Limit>, r: Request, l: Limit)
    requires DistinctIds(governing) && l in governing
    ensures SameAt(AllBumped(kind, cs, governing, r),
                   Bumped(kind, cs, KeyFor(l, r), r.amount, PeriodMs(l.period), At(l, r)), KeyFor(l, r))
  {
    var init, last := governing[..|governing| - 1], governing[|governing| - 1];
    assert governing == init + [last];
    if l == last {
      BumpedApart(kind, cs, init, r, KeyFor(l, r));
    } else {
      BumpedOnce(kind, cs, init, r, l);
      var k :| 0 <= k < |init| && init[k] == l;
    }
  }

  // --- whole histories ---------------------------------------------------------------------

  function Run(kind: StoreKind, limits: seq<Limit>, reqs: seq<Request>): Counters {
    if reqs == [] then map[] else Consumed(kind, Run(kind, limits, reqs[..|reqs| - 1]), limits, reqs[|reqs| - 1])
  }

  predicate Charges(l: Limit, key: Key, r: Request) {
    Governs(l, r) && KeyFor(l, r) == key
  }

  /** Everything counted under one key, admitted or not. */
  function Used(l: Limit, key: Key, reqs: seq<Request>): int {
    if reqs == [] then 0
    else Used(l, key, reqs[..|reqs| - 1]) + (if Charges(l, key, reqs[|reqs| - 1]) then reqs[|reqs| - 1].amount else 0)
  }

  /** What was admitted under one key. */
  ghost function Admitted(kind: StoreKind, limits: seq<Limit>, l: Limit, key: Key, reqs: seq<Request>): int {
    if reqs == [] then 0
    else
      var init, r := reqs[..|reqs| - 1], reqs[|reqs| - 1];
      Admitted(kind, limits, l, key, init)
      + (if Charges(l, key, r) && Admits(kind, Run(kind, limits, init), limits, r) then r.amount else 0)
  }

  /** A counter holds what was consumed under its key and outlives the key's window. */
  ghost predicate Tracks(cs: Counters, l: Limit, key: Key, reqs: seq<Request>) {
    if key in cs
    then cs[key].value == Used(l, key, reqs) && cs[key].expiresAt >= (key.window + 1) * PeriodMs(l.period)
    else Used(l, key, reqs) == 0
  }

  /** The store still looks the counter up inside the window its key names. */
  predicate Prompt(l: Limit, r: Request) {
    At(l, r).keyAt <= At(l, r).deadlineAt && At(l, r).storedAt < WindowEnd(l.period, At(l, r).keyAt)
  }

  ghost predicate AllPrompt(l: Limit, reqs: seq<Request>) {
    forall i :: 0 <= i < |reqs| && Governs(l, reqs[i]) ==> Prompt(l, reqs[i])
  }

  lemma BumpTracks(kind: StoreKind, cs: Counters, l: Limit, key: Key, init: seq<Request>, r: Request)
    requires Tracks(cs, l, key, init) && Charges(l, key, r) && Prompt(l, r)
    ensures Live(cs, key, At(l, r).storedAt).GetOr(0) == Used(l, key, init)
    ensures Tracks(Bumped(kind, cs, key, r.amount, PeriodMs(l.period), At(l, r)), l, key, init + [r])
  {
    WindowContains(l.period, At(l, r).keyAt);
    assert (init + [r])[..|init|] == init;
    assert (key.window + 1) * PeriodMs(l.period) == key.window * PeriodMs(l.period) + PeriodMs(l.period);
  }

  /** On either store no counter expires inside its own window, so none ever forgets. */
  lemma {:induction false} RunTracks(kind: StoreKind, limits: seq<Limit>, reqs: seq<Request>, l: Limit, key: Key)
    requires DistinctIds(limits) && l in limits && key.limitId == l.id && AllPrompt(l, reqs)
    ensures Tracks(Run(kind, limits, reqs), l, key, reqs)
  {
    if reqs != [] {
      var init, r := reqs[..|reqs| - 1], reqs[|reqs| - 1];
      var cs := Run(kind, limits, init);
      RunTracks(kind, limits, init, l, key);
      ApplicableExact(limits, r);
      assert reqs == init + [r];
      if Charges(l, key, r) {
        BumpedOnce(kind, cs, Applicable(limits, r), r, l);
        BumpTracks(kind, cs, l, key, init, r);
      } else {
        OtherKeyKept(kind, cs, limits, r, l, key);
      }
    }
  }

  lemma OtherKeyKept(kind: StoreKind, cs: Counters, limits: seq<Limit>, r: Request, l: Limit, key: Key)
    requires DistinctIds(limits) && l in limits && key.limitId == l.id && !Charges(l, key, r)
    ensures SameAt(Consumed(kind, cs, limits, r), cs, key)
  {
    ApplicableExact(limits, r);
    KeyMissed(kind, cs, Applicable(limits, r), r, key);
  }

  lemma {:induction false} KeyMissed(kind: StoreKind, cs: Counters, governing: seq<Limit>, r: Request, key: Key)
    requires forall l :: l in governing ==> KeyFor(l, r) != key
    ensures SameAt(AllBumped(kind, cs, governing, r), cs, key)
  {
    if governing != [] {
      KeyMissed(kind, cs, governing[..|governing| - 1], r, key);
      assert governing[|governing| - 1] in governing;
    }
  }

  ghost predicate NonNegative(reqs: seq<Request>) {
    forall i :: 0 <= i < |reqs| ==> reqs[i].amount >= 0
  }

  /** Per limit, caller and window, no more than the limit is ever admitted. */
  lemma {:induction false} WindowBound(kind: StoreKind, limits: seq<Limit>, reqs: seq<Request>, l: Limit, key: Key)
    requires DistinctIds(limits) && l in limits && l.limit >= 0 && key.limitId == l.id && NonNegative(reqs)
      && AllPrompt(l, reqs)
    ensures 0 <= Admitted(kind, limits, l, key, reqs) <= Used(l, key, reqs)
    ensures Admitted(kind, limits, l, key, reqs) <= l.limit
  {
    if reqs != [] {
      var init, r := reqs[..|reqs| - 1], reqs[|reqs| - 1];
      WindowBound(kind, limits, init, l, key);
      RunTracks(kind, limits, init, l, key);
      if Charges(l, key, r) {
        BumpTracks(kind, Run(kind, limits, init), l, key, init, r);
      }
    }
  }

  /** A request is admitted exactly when, with its amount, no governing limit's window is overdrawn. */
  lemma AdmitsExactly(kind: StoreKind, limits: seq<Limit>, reqs: seq<Request>, r: Request)
    requires DistinctIds(limits) && forall l :: l in limits ==> AllPrompt(l, reqs) && (Governs(l, r) ==> Prompt(l, r))
    ensures Admits(kind, Run(kind, limits, reqs), limits, r) <==>
      forall l :: l in limits && Governs(l, r) ==> Used(l, KeyFor(l, r), reqs) + r.amount <= l.limit
    ensures forall l :: l in limits && Governs(l, r) ==>
      StatusAfter(kind, Run(kind, limits, reqs), l, r).used == Used(l, KeyFor(l, r), reqs) + r.amount
  {
    forall l | l in limits && Governs(l, r)
      ensures Live(Run(kind, limits, reqs), KeyFor(l, r), At(l, r).storedAt).GetOr(0) == Used(l, KeyFor(l, r), reqs)
    {
      RunTracks(kind, limits, reqs, l, KeyFor(l, r));
      BumpTracks(kind, Run(kind, limits, reqs), l, KeyFor(l, r), reqs, r);
    }
  }

  // --- callers are counted apart -----------------------------------------------------------

  /** The requests of callers with these names. */
  function OwnRequests(scope: Scope, reqs: seq<Request>): seq<Request> {
    if reqs == [] then []
    else
      var last := reqs[|reqs| - 1];
      OwnRequests(scope, reqs[..|reqs| - 1]) + if SameNames(last.scope, scope) then [last] else []
  }

  predicate KeyOf(scope: Scope, key: Key) {
    SameName(scope.orgId, Some(key.org)) && SameName(scope.userId, Some(key.user))
      && SameName(scope.agentId, Some(key.agent))
  }

  /** The counters of a caller with these names are the same. */
  ghost predicate SameOwn(scope: Scope, a: Counters, b: Counters) {
    forall key :: KeyOf(scope, key) ==> SameAt(a, b, key)
  }

  lemma {:induction false} OwnKept(kind: StoreKind, scope: Scope, a: Counters, b: Counters, governing: seq<Limit>,
                                   r: Request)
    requires SameOwn(scope, a, b)
    ensures SameNames(r.scope, scope) ==>
      SameOwn(scope, AllBumped(kind, a, governing, r), AllBumped(kind, b, governing, r))
    ensures !SameNames(r.scope, scope) ==> SameOwn(scope, AllBumped(kind, a, governing, r), b)
  {
    if governing != [] {
      OwnKept(kind, scope, a, b, governing[..|governing| - 1], r);
    }
  }

  lemma {:induction false} OwnCountersKept(kind: StoreKind, limits: seq<Limit>, scope: Scope, reqs: seq<Request>)
    ensures SameOwn(scope, Run(kind, limits, reqs), Run(kind, limits, OwnRequests(scope, reqs)))
  {
    if reqs != [] {
      var init, r := reqs[..|reqs| - 1], reqs[|reqs| - 1];
      OwnCountersKept(kind, limits, scope, init);
      var own := OwnRequests(scope, init);
      OwnKept(kind, scope, Run(kind, limits, init), Run(kind, limits, own), Applicable(limits, r), r);
      assert (own + [r])[..|own|] == own && own + [] == own;
    }
  }

  /** Leaving out everything callers with other names did changes no answer: nobody uses up another's allowance. */
  lemma OthersNeverCount(kind: StoreKind, limits: seq<Limit>, reqs: seq<Request>, r: Request)
    ensures var all, own := Run(kind, limits, reqs), Run(kind, limits, OwnRequests(r.scope, reqs));
      && (Admits(kind, all, limits, r) <==> Admits(kind, own, limits, r))
      && forall l :: StatusAfter(kind, all, l, r) == StatusAfter(kind, own, l, r)
  {
    OwnCountersKept(kind, limits, r.scope, reqs);
    SameOwnSameAnswers(kind, limits, Run(kind, limits, reqs), Run(kind, limits, OwnRequests(r.scope, reqs)), r);
  }

  lemma SameOwnSameAnswers(kind: StoreKind, limits: seq<Limit>, a: Counters, b: Counters, r: Request)
    requires SameOwn(r.scope, a, b)
    ensures Admits(kind, a, limits, r) <==> Admits(kind, b, limits, r)
    ensures forall l :: StatusAfter(kind, a, l, r) == StatusAfter(kind, b, l, r)
  {
    forall l ensures SameAt(a, b, KeyFor(l, r)) {
      assert KeyOf(r.scope, KeyFor(l, r));
    }
  }

  predicate SameCaller(key: Key, l: Limit, r: Request) {
    KeyFor(l, r).(window := key.window) == key
  }

  /** What was admitted for one limit and caller at times from `a` to `b`. */
  ghost function AdmittedBetween(kind: StoreKind, limits: seq<Limit>, l: Limit, key: Key, a: int, b: int,
                                 reqs: seq<Request>): int {
    if reqs == [] then 0
    else
      var init, r := reqs[..|reqs| - 1], reqs[|reqs| - 1];
      AdmittedBetween(kind, limits, l, key, a, b, init)
      + (if Governs(l, r) && SameCaller(key, l, r) && a <= At(l, r).keyAt <= b
        && Admits(kind, Run(kind, limits, init), limits, r) then r.amount else 0)
  }

  lemma TwoWindows(period: Period, a: int, now: int)
    requires a <= now <= a + PeriodMs(period)
    ensures Window(period, now) == Window(period, a) || Window(period, now) == Window(period, a) + 1
  {
    WindowContains(period, a);
    WindowContains(period, now);
    var size, w, v := PeriodMs(period), Window(period, a), Window(period, now);
    assert (w + 1) * size == w * size + size && (v + 1) * size == v * size + size;
    assert (w + 2) * size == w * size + size + size;
    Scaled(v + 1, w, size);
    Scaled(w + 2, v, size);
  }

  /** An interval no longer than a period meets at most two windows. */
  lemma {:induction false} IntervalWithinTwoWindows(kind: StoreKind, limits: seq<Limit>, reqs: seq<Request>, l: Limit,
                                                    key: Key, a: int, b: int)
    requires DistinctIds(limits) && l in limits && l.limit >= 0 && key.limitId == l.id && NonNegative(reqs)
      && AllPrompt(l, reqs)
    requires b <= a + PeriodMs(l.period) && key.window == Window(l.period, a)
    ensures AdmittedBetween(kind, limits, l, key, a, b, reqs)
      <= Admitted(kind, limits, l, key, reqs) + Admitted(kind, limits, l, key.(window := key.window + 1), reqs)
  {
    if reqs != [] {
      var init, r := reqs[..|reqs| - 1], reqs[|reqs| - 1];
      IntervalWithinTwoWindows(kind, limits, init, l, key, a, b);
      if Governs(l, r) && SameCaller(key, l, r) && a <= At(l, r).keyAt <= b {
        TwoWindows(l.period, a, At(l, r).keyAt);
        assert KeyFor(l, r) == key || KeyFor(l, r) == key.(window := key.window + 1);
      }
    }
  }

  /** In any interval no longer than one period, at most twice the limit is admitted. */
  lemma IntervalBound(kind: StoreKind, limits: seq<Limit>, reqs: seq<Request>, l: Limit, key: Key, a: int, b: int)
    requires DistinctIds(limits) && l in limits && l.limit >= 0 && key.limitId == l.id && NonNegative(reqs)
      && AllPrompt(l, reqs)
    requires b <= a + PeriodMs(l.period)
    ensures AdmittedBetween(kind, limits, l, key, a, b, reqs) <= 2 * l.limit
  {
    var first := key.(window := Window(l.period, a));
    AnyWindowSameCaller(kind, limits, reqs, l, key, first, a, b);
    IntervalWithinTwoWindows(kind, limits, reqs, l, first, a, b);
    WindowBound(kind, limits, reqs, l, first);
    WindowBound(kind, limits, reqs, l, first.(window := first.window + 1));
  }

  lemma {:induction false} AnyWindowSameCaller(kind: StoreKind, limits: seq<Limit>, reqs: seq<Request>, l: Limit,
                                               key: Key, other: Key, a: int, b: int)
    requires other == key.(window := other.window)
    ensures AdmittedBetween(kind, limits, l, key, a, b, reqs) == AdmittedBetween(kind, limits, l, other, a, b, reqs)
  {
    if reqs != [] {
      AnyWindowSameCaller(kind, limits, reqs[..|reqs| - 1], l, key, other, a, b);
    }
  }

  // --- exactly when the bound survives -----------------------------------------------------

  /** After any prompt history, one more request leaves the window's total within the limit. */
  ghost predicate NeverOverrun(kind: StoreKind, l: Limit, r: Request) {
    forall reqs :: AllPrompt(l, reqs) && NonNegative(reqs) ==>
      Admitted(kind, [l], l, KeyFor(l, r), reqs + [r]) <= l.limit
  }

  /** The same request for the whole limit, made in the instant the window opens. */
  function FirstThing(l: Limit, r: Request): Request {
    var start := Window(l.period, At(l, r).keyAt) * PeriodMs(l.period);
    Request(r.resource, r.scope, l.limit, _ => Reading(start, start, start, start))
  }

  lemma OnlyLimit(kind: StoreKind, cs: Counters, l: Limit, r: Request)
    requires Governs(l, r)
    ensures Consumed(kind, cs, [l], r) == Bumped(kind, cs, KeyFor(l, r), r.amount, PeriodMs(l.period), At(l, r))
    ensures Run(kind, [l], [r]) == Consumed(kind, map[], [l], r)
  {
    var one := [l];
    assert one[..|one| - 1] == [] && [r][..0] == [];
    assert Applicable(one, r) == one;
    assert AllBumped(kind, cs, one[..|one| - 1], r) == cs;
  }

  /** It is counted in the window of the other request, and its counter lasts exactly as long as that. */
  lemma FirstThingLasts(l: Limit, r: Request)
    ensures KeyFor(l, FirstThing(l, r)) == KeyFor(l, r)
    ensures At(l, FirstThing(l, r)).keyAt + PeriodMs(l.period) == WindowEnd(l.period, At(l, r).keyAt)
    ensures Prompt(l, FirstThing(l, r))
  {
    var size, w := PeriodMs(l.period), Window(l.period, At(l, r).keyAt);
    WindowOfStart(l.period, w);
    assert (w + 1) * size == w * size + size;
  }

  lemma FirstThingFills(kind: StoreKind, l: Limit, r: Request)
    requires Governs(l, r) && l.limit >= 0
    ensures AllPrompt(l, [FirstThing(l, r)]) && NonNegative([FirstThing(l, r)])
    ensures Run(kind, [l], [FirstThing(l, r)]) ==
      map[KeyFor(l, r) := Counter(l.limit, WindowEnd(l.period, At(l, r).keyAt))]
    ensures Admitted(kind, [l], l, KeyFor(l, r), [FirstThing(l, r)]) == l.limit
  {
    var first := FirstThing(l, r);
    FirstThingLasts(l, r);
    OnlyLimit(kind, map[], l, first);
    assert [first][..0] == [];
    assert Admits(kind, Run(kind, [l], []), [l], first);
  }

  lemma WindowOfStart(period: Period, w: int)
    ensures Window(period, w * PeriodMs(period)) == w
  {
    WindowContains(period, w * PeriodMs(period));
    var v, size := Window(period, w * PeriodMs(period)), PeriodMs(period);
    assert (v + 1) * size == v * size + size && (w + 1) * size == w * size + size;
    Scaled(v + 1, w, size);
    Scaled(w + 1, v, size);
  }

  /** A request that reaches the store when its window is over finds the counter gone. */
  lemma LateRequestOverruns(kind: StoreKind, l: Limit, r: Request)
    requires Governs(l, r) && 0 < r.amount <= l.limit && At(l, r).storedAt >= WindowEnd(l.period, At(l, r).keyAt)
    ensures Admitted(kind, [l], l, KeyFor(l, r), [FirstThing(l, r)] + [r]) == l.limit + r.amount
  {
    var first := FirstThing(l, r);
    FirstThingFills(kind, l, r);
    FirstThingLasts(l, r);
    assert ([first] + [r])[..1] == [first];
    assert Admits(kind, Run(kind, [l], [first]), [l], r);
  }

  /**
   * However promptly all others are counted, a request cannot push its window past the limit, if and
   * only if the store looks its counter up before the window its key names is over.
   */
  lemma BoundSurvivesExactly(kind: StoreKind, l: Limit, r: Request)
    requires Governs(l, r) && 0 < r.amount <= l.limit && At(l, r).keyAt <= At(l, r).deadlineAt
    ensures NeverOverrun(kind, l, r) <==> At(l, r).storedAt < WindowEnd(l.period, At(l, r).keyAt)
  {
    if At(l, r).storedAt < WindowEnd(l.period, At(l, r).keyAt) {
      forall reqs | AllPrompt(l, reqs) && NonNegative(reqs)
        ensures Admitted(kind, [l], l, KeyFor(l, r), reqs + [r]) <= l.limit
      {
        WindowBound(kind, [l], reqs + [r], l, KeyFor(l, r));
      }
    } else {
      FirstThingFills(kind, l, r);
      LateRequestOverruns(kind, l, r);
    }
  }
}
