/** packages/resilience/src/resilience-service.ts: retries in front of one circuit per key. */
module ResilienceService {
  import opened CircuitBreaker

  /** What one invocation of the guarded function came to. */
  datatype Attempt = Attempt(ok: bool, retryable: bool)

  /** The larger of the policy's number and one. */
  function AttemptLimit(maxAttempts: int): (n: nat)
    ensures n >= 1 && n >= maxAttempts && (n == 1 || n == maxAttempts)
  {
    if maxAttempts > 1 then maxAttempts else 1
  }

  // --- retries -----------------------------------------------------------------------------

  /** All but the last of `n` invocations failed in a way worth retrying, and the last one ends the matter. */
  ghost predicate Tried(limit: nat, answers: nat -> Attempt, n: nat, ok: bool) {
    && 1 <= n <= limit
    && (forall i: nat :: i < n - 1 ==> !answers(i).ok && answers(i).retryable)
    && ok == answers(n - 1).ok && (!ok ==> n == limit || !answers(n - 1).retryable)
  }

  /** The guarded function decides alone how often it is invoked and how it ends. */
  lemma TriesAreDetermined(limit: nat, answers: nat -> Attempt, m: nat, n: nat, okM: bool, okN: bool)
    requires Tried(limit, answers, m, okM) && Tried(limit, answers, n, okN)
    ensures m == n && okM == okN
  {
  }

  /** A call succeeds exactly when some answer within the limit is good and all before it are worth retrying. */
  lemma SucceedsExactly(limit: nat, answers: nat -> Attempt, n: nat, ok: bool)
    requires Tried(limit, answers, n, ok)
    ensures ok <==> exists k: nat ::
      k < limit && answers(k).ok && forall i: nat :: i < k ==> !answers(i).ok && answers(i).retryable
  {
    if ok {
      assert answers(n - 1).ok && forall i: nat :: i < n - 1 ==> !answers(i).ok && answers(i).retryable;
    } else {
      forall k: nat | k < limit && answers(k).ok
        ensures exists i: nat :: i < k && !(!answers(i).ok && answers(i).retryable)
      {
        assert n - 1 < k && !answers(n - 1).retryable;
      }
    }
  }

  // --- one execution, as the circuit sees it -----------------------------------------------

  datatype Outcome = Refused | Worked | Broke

  /** A refused execution invokes nothing; any other one works or breaks as the guarded function answers. */
  ghost predicate EndsBy(limit: nat, answers: nat -> Attempt, attempts: nat, outcome: Outcome) {
    if outcome.Refused? then attempts == 0 else Tried(limit, answers, attempts, outcome.Worked?)
  }

  /** What the circuit is told by one execution. */
  ghost function Told(s: Settings, before: seq<Event>, askedAt: int, endedAt: int, worked: bool): seq<Event> {
    if !Admits(s, After(s, before), askedAt) then [Asked(askedAt)]
    else [Asked(askedAt)] + if worked then [Succeeded] else [Failed(endedAt)]
  }

  /** Executions that fail one by one tell the circuit exactly what an outage tells it. */
  lemma FailingExecutionExtendsOutage(s: Settings, earlier: seq<Event>, calls: seq<Call>, call: Call)
    ensures Outage(s, earlier, calls + [call]) ==
      Outage(s, earlier, calls) + Told(s, Outage(s, earlier, calls), call.askedAt, call.failedAt, false)
    ensures Admitted(s, earlier, calls + [call]) ==
      Admitted(s, earlier, calls) + (if Admits(s, After(s, Outage(s, earlier, calls)), call.askedAt) then 1 else 0)
  {
    assert (calls + [call])[..|calls|] == calls;
    var before := Outage(s, earlier, calls);
    assert before + [Asked(call.askedAt)] + [Failed(call.failedAt)] ==
      before + ([Asked(call.askedAt)] + [Failed(call.failedAt)]);
    assert before + [Asked(call.askedAt)] + [] == before + [Asked(call.askedAt)];
  }

  /** Invocations of the guarded function over an outage: an admitted call makes its attempts, a refused one none. */
  ghost function Invocations(s: Settings, earlier: seq<Event>, calls: seq<Call>, attempts: seq<nat>): nat
    requires |attempts| == |calls|
  {
    if calls == [] then 0
    else
      var init := calls[..|calls| - 1];
      Invocations(s, earlier, init, attempts[..|calls| - 1])
      + if Admits(s, After(s, Outage(s, earlier, init)), calls[|calls| - 1].askedAt) then attempts[|calls| - 1] else 0
  }

  lemma {:induction false} InvocationsPerAdmission(s: Settings, earlier: seq<Event>, calls: seq<Call>,
                                                   attempts: seq<nat>, limit: nat)
    requires |attempts| == |calls| && forall i :: 0 <= i < |attempts| ==> attempts[i] <= limit
    ensures Invocations(s, earlier, calls, attempts) <= limit * Admitted(s, earlier, calls)
  {
    if calls != [] {
      InvocationsPerAdmission(s, earlier, calls[..|calls| - 1], attempts[..|calls| - 1], limit);
      OneMoreTime(limit, Admitted(s, earlier, calls[..|calls| - 1]));
    }
  }

  lemma OneMoreTime(limit: nat, n: nat)
    ensures limit * (n + 1) == limit * n + limit
  {
  }

  lemma NoMoreTimes(limit: nat, n: nat, m: nat)
    requires n <= m
    ensures limit * n <= limit * m
  {
  }

  /** So many invocations for each call of an outage that the circuit may let through. */
  function InvocationLimit(s: Settings, maxAttempts: int, elapsed: nat): nat
    requires s.resetTimeoutMs > 0
  {
    AttemptLimit(maxAttempts) * OutageLimit(s, elapsed)
  }

  /** An outage costs the failing dependency no more invocations than the admitted calls can make. */
  lemma InvocationBound(s: Settings, earlier: seq<Event>, calls: seq<Call>, attempts: seq<nat>, maxAttempts: int,
                        from: int)
    requires s.resetTimeoutMs > 0 && OneByOne(calls, from) && calls != []
    requires |attempts| == |calls| && forall i :: 0 <= i < |attempts| ==> attempts[i] <= AttemptLimit(maxAttempts)
    ensures Invocations(s, earlier, calls, attempts) <= InvocationLimit(s, maxAttempts, LastAsk(calls) - from)
  {
    OutageBound(s, earlier, calls, from);
    InvocationsPerAdmission(s, earlier, calls, attempts, AttemptLimit(maxAttempts));
    NoMoreTimes(AttemptLimit(maxAttempts), Admitted(s, earlier, calls), OutageLimit(s, LastAsk(calls) - from));
  }

  // --- what a key's circuit has heard, execution by execution ------------------------------

  /** One execution with the invocations it made, or an operator's reset. */
  datatype Entry = Ran(call: Call, attempts: nat, limit: nat, worked: bool) | WasReset

  ghost function Heard(s: Settings, log: seq<Entry>): seq<Event> {
    if log == [] then []
    else
      var before, e := Heard(s, log[..|log| - 1]), log[|log| - 1];
      if e.WasReset? then before + [Reset] else before + Told(s, before, e.call.askedAt, e.call.failedAt, e.worked)
  }

  /** A refused execution invokes nothing, an admitted one at least once and no more than its limit. */
  ghost predicate Fits(s: Settings, before: seq<Entry>, e: Entry) {
    e.Ran? ==> if Admits(s, After(s, Heard(s, before)), e.call.askedAt) then 1 <= e.attempts <= e.limit
      else e.attempts == 0
  }

  ghost predicate Kept(s: Settings, log: seq<Entry>) {
    log == [] || (Kept(s, log[..|log| - 1]) && Fits(s, log[..|log| - 1], log[|log| - 1]))
  }

  lemma HeardOneMore(s: Settings, log: seq<Entry>, e: Entry)
    ensures Heard(s, log + [e]) ==
      if e.WasReset? then Heard(s, log) + [Reset]
        else Heard(s, log) + Told(s, Heard(s, log), e.call.askedAt, e.call.failedAt, e.worked)
    ensures Kept(s, log + [e]) <==> Kept(s, log) && Fits(s, log, e)
  {
    assert (log + [e])[..|log|] == log;
  }

  ghost function TotalAttempts(log: seq<Entry>): nat {
    if log == [] then 0
    else TotalAttempts(log[..|log| - 1]) + if log[|log| - 1].Ran? then log[|log| - 1].attempts else 0
  }

  /** A stretch of a log in which nothing worked and no operator stepped in, under one retry policy. */
  ghost predicate AllBroke(log: seq<Entry>, limit: nat) {
    forall i :: 0 <= i < |log| ==> log[i].Ran? && !log[i].worked && log[i].limit <= limit
  }

  ghost function CallsOf(log: seq<Entry>): (calls: seq<Call>)
    ensures |calls| == |log|
  {
    seq(|log|, i requires 0 <= i < |log| => if log[i].Ran? then log[i].call else Call(0, 0))
  }

  ghost function AttemptsOf(log: seq<Entry>): (attempts: seq<nat>)
    ensures |attempts| == |log|
  {
    seq(|log|, i requires 0 <= i < |log| => if log[i].Ran? then log[i].attempts else 0)
  }

  /** Such a stretch is an outage after whatever came before, and its invocations are those of the outage. */
  ghost predicate IsOutage(s: Settings, before: seq<Entry>, stretch: seq<Entry>, limit: nat) {
    && Heard(s, before + stretch) == Outage(s, Heard(s, before), CallsOf(stretch))
    && TotalAttempts(stretch) == Invocations(s, Heard(s, before), CallsOf(stretch), AttemptsOf(stretch))
    && forall i :: 0 <= i < |stretch| ==> AttemptsOf(stretch)[i] <= limit
  }

  lemma {:induction false} StretchIsOutage(s: Settings, before: seq<Entry>, stretch: seq<Entry>, limit: nat)
    requires Kept(s, before + stretch) && AllBroke(stretch, limit)
    ensures IsOutage(s, before, stretch, limit)
  {
    if stretch == [] {
      assert before + stretch == before;
    } else {
      var init, e := stretch[..|stretch| - 1], stretch[|stretch| - 1];
      assert stretch == init + [e];
      StretchOneMore(s, before, init, e);
      StretchIsOutage(s, before, init, limit);
      OutageGoesOn(s, before, init, e, limit);
    }
  }

  lemma OutageGoesOn(s: Settings, before: seq<Entry>, init: seq<Entry>, e: Entry, limit: nat)
    requires IsOutage(s, before, init, limit) && Fits(s, before + init, e)
    requires e.Ran? && !e.worked && e.limit <= limit
    ensures IsOutage(s, before, init + [e], limit)
  {
    StretchOneMore(s, before, init, e);
    ListsGrow(init, e);
    FailingExecutionExtendsOutage(s, Heard(s, before), CallsOf(init), e.call);
    InvocationsOneMore(s, Heard(s, before), CallsOf(init), AttemptsOf(init), e.call, e.attempts);
  }

  lemma StretchOneMore(s: Settings, before: seq<Entry>, init: seq<Entry>, e: Entry)
    ensures Kept(s, before + (init + [e])) <==> Kept(s, before + init) && Fits(s, before + init, e)
    ensures e.Ran? ==>
      var earlier := Heard(s, before + init);
      Heard(s, before + (init + [e])) == earlier + Told(s, earlier, e.call.askedAt, e.call.failedAt, e.worked)
    ensures TotalAttempts(init + [e]) == TotalAttempts(init) + if e.Ran? then e.attempts else 0
  {
    assert before + (init + [e]) == (before + init) + [e];
    HeardOneMore(s, before + init, e);
    assert (init + [e])[..|init|] == init;
  }

  lemma ListsGrow(init: seq<Entry>, e: Entry)
    requires e.Ran?
    ensures CallsOf(init + [e]) == CallsOf(init) + [e.call] && AttemptsOf(init + [e]) == AttemptsOf(init) + [e.attempts]
  {
  }

  lemma InvocationsOneMore(s: Settings, earlier: seq<Event>, calls: seq<Call>, attempts: seq<nat>, call: Call, n: nat)
    requires |attempts| == |calls|
    ensures Invocations(s, earlier, calls + [call], attempts + [n])
      == Invocations(s, earlier, calls, attempts)
        + if Admits(s, After(s, Outage(s, earlier, calls)), call.askedAt) then n else 0
  {
    assert (calls + [call])[..|calls|] == calls && (attempts + [n])[..|calls|] == attempts;
  }

  /**
   * Whatever a key's executions did before, those of a stretch in which everything fails invoke
   * the dependency no more often than the bound allows.
   */
  lemma LoggedInvocationBound(s: Settings, before: seq<Entry>, stretch: seq<Entry>, maxAttempts: int, from: int)
    requires Kept(s, before + stretch) && AllBroke(stretch, AttemptLimit(maxAttempts)) && stretch != []
    requires s.resetTimeoutMs > 0 && OneByOne(CallsOf(stretch), from)
    ensures TotalAttempts(stretch) <= InvocationLimit(s, maxAttempts, LastAsk(CallsOf(stretch)) - from)
  {
    StretchIsOutage(s, before, stretch, AttemptLimit(maxAttempts));
    BoundOfOutage(s, before, stretch, maxAttempts, from);
  }

  lemma BoundOfOutage(s: Settings, before: seq<Entry>, stretch: seq<Entry>, maxAttempts: int, from: int)
    requires IsOutage(s, before, stretch, AttemptLimit(maxAttempts)) && stretch != []
    requires s.resetTimeoutMs > 0 && OneByOne(CallsOf(stretch), from)
    ensures TotalAttempts(stretch) <= InvocationLimit(s, maxAttempts, LastAsk(CallsOf(stretch)) - from)
  {
    var calls, attempts := CallsOf(stretch), AttemptsOf(stretch);
    InvocationBound(s, Heard(s, before), calls, attempts, maxAttempts, from);
  }

  function LogOf(log: map<string, seq<Entry>>, key: string): seq<Entry> { if key in log then log[key] else [] }

  // --- the service -------------------------------------------------------------------------

  datatype Policy = Policy(maxAttempts: int, breaker: Settings)

  class ResilienceService {
    var breakers: map<string, CircuitBreaker>
    ghost var log: map<string, seq<Entry>>

    constructor ()
      ensures Valid() && breakers == map[]
    {
      breakers, log := map[], map[];
    }

    /** Every key has a circuit of its own. */
    ghost predicate Valid()
      reads this, breakers.Values
    {
      && log.Keys == breakers.Keys
      && (forall key :: key in breakers ==> Agrees(breakers[key], log[key]))
      && Apart()
    }

    ghost predicate Apart()
      reads this
    {
      forall a, b :: a in breakers && b in breakers && a != b ==> breakers[a] != breakers[b]
    }

    /** The invariant while one circuit is ahead of its log. */
    ghost predicate ValidBut(key: string)
      reads this, breakers.Values
    {
      && log.Keys == breakers.Keys
      && (forall other :: other in breakers && other != key ==> Agrees(breakers[other], log[other]))
      && Apart()
    }

    /** A circuit has heard exactly what the log of its key says. */
    ghost predicate Agrees(breaker: CircuitBreaker, entries: seq<Entry>)
      reads breaker
    {
      breaker.Valid() && breaker.events == Heard(breaker.settings, entries) && Kept(breaker.settings, entries)
    }

    /** A known circuit keeps its settings; an unknown key gets a fresh one. */
    method BreakerFor(key: string, policy: Policy) returns (breaker: CircuitBreaker)
      requires Valid()
      modifies this
      ensures Valid() && key in breakers && breakers[key] == breaker && breakers.Keys == old(breakers.Keys) + {key}
      ensures forall other :: other in old(breakers) ==>
        breakers[other] == old(breakers[other]) && log[other] == old(log)[other]
      ensures key !in old(breakers) ==>
        fresh(breaker) && breaker.settings == policy.breaker && breaker.events == [] && log[key] == []
    {
      if key !in breakers {
        var made := new CircuitBreaker(policy.breaker);
        breakers := breakers[key := made];
        log := log[key := []];
      }
      return breakers[key];
    }

    /** Invokes the guarded function, whose `i`th invocation comes to `answers(i)`, until one ends the matter. */
    method AttemptWithRetries(maxAttempts: int, answers: nat -> Attempt) returns (ok: bool, attempts: nat)
      ensures Tried(AttemptLimit(maxAttempts), answers, attempts, ok)
    {
      var limit := AttemptLimit(maxAttempts);
      ok, attempts := false, 0;
      while attempts < limit
        invariant attempts <= limit && !ok
        invariant forall i: nat :: i < attempts ==> !answers(i).ok && answers(i).retryable
      {
        var answer := answers(attempts);
        attempts := attempts + 1;
        if answer.ok {
          ok := true;
          return;
        }
        if !answer.retryable {
          return;
        }
      }
    }

    /** The clock, read again after the attempts. */
    method LaterThan(now: int) returns (later: int)
      ensures later >= now
    {
      var passed: int := *;
      return if passed > 0 then now + passed else now;
    }

    /**
     * One execution asks the key's own circuit once and, if admitted, reports to it once.
     * No other key's circuit hears of it.
     */
    method Execute(key: string, policy: Policy, answers: nat -> Attempt, now: int)
      returns (outcome: Outcome, attempts: nat, ended: int)
      requires Valid()
      modifies this, breakers.Values
      ensures Valid() && key in breakers && ended >= now
      ensures EndsBy(AttemptLimit(policy.maxAttempts), answers, attempts, outcome)
      ensures breakers.Keys == old(breakers.Keys) + {key}
      ensures forall other :: other in old(breakers) && other != key ==>
        breakers[other] == old(breakers[other]) && breakers[other].events == old(breakers[other].events)
          && log[other] == old(log)[other]
      ensures if key in old(breakers) then breakers[key] == old(breakers[key])
        else breakers[key].settings == policy.breaker
      ensures TellsOne(breakers[key], Heard(breakers[key].settings, LogOf(old(log), key)), now, ended, outcome)
      ensures log[key] ==
        LogOf(old(log), key) + [Ran(Call(now, ended), attempts, AttemptLimit(policy.maxAttempts), outcome.Worked?)]
    {
      var breaker := BreakerFor(key, policy);
      outcome, attempts, ended := ExecuteKnown(key, policy.maxAttempts, answers, now);
    }

    method ExecuteKnown(key: string, maxAttempts: int, answers: nat -> Attempt, now: int)
      returns (outcome: Outcome, attempts: nat, ended: int)
      requires Valid() && key in breakers
      modifies this`log, breakers[key]
      ensures Valid() && ended >= now
      ensures EndsBy(AttemptLimit(maxAttempts), answers, attempts, outcome)
      ensures TellsOne(breakers[key], old(breakers[key].events), now, ended, outcome)
      ensures log.Keys == old(log.Keys)
        && log[key] == old(log)[key] + [Ran(Call(now, ended), attempts, AttemptLimit(maxAttempts), outcome.Worked?)]
      ensures forall other :: other in breakers && other != key ==>
        breakers[other].events == old(breakers[other].events) && log[other] == old(log)[other]
    {
      ghost var e;
      var breaker := breakers[key];
      outcome, attempts, ended, e := RunLogged(breaker, maxAttempts, answers, now, log[key]);
      Note(key, e);
    }

    /** The log of a key catches up with what its circuit has just heard. */
    ghost method Note(key: string, e: Entry)
      requires ValidBut(key) && key in breakers && Agrees(breakers[key], log[key] + [e])
      modifies this`log
      ensures Valid() && log == old(log)[key := old(log)[key] + [e]]
    {
      log := log[key := log[key] + [e]];
    }

    /** One guarded execution and the entry that the key's log gains by it. */
    method RunLogged(breaker: CircuitBreaker, maxAttempts: int, answers: nat -> Attempt, now: int,
                     ghost entries: seq<Entry>)
      returns (outcome: Outcome, attempts: nat, ended: int, ghost e: Entry)
      requires Agrees(breaker, entries)
      modifies breaker
      ensures TellsOne(breaker, old(breaker.events), now, ended, outcome) && ended >= now
      ensures EndsBy(AttemptLimit(maxAttempts), answers, attempts, outcome)
      ensures e == Ran(Call(now, ended), attempts, AttemptLimit(maxAttempts), outcome.Worked?)
        && Agrees(breaker, entries + [e])
    {
      outcome, attempts, ended := RunGuarded(breaker, maxAttempts, answers, now);
      e := Ran(Call(now, ended), attempts, AttemptLimit(maxAttempts), outcome.Worked?);
      HeardOneMore(breaker.settings, entries, e);
    }

    /** Asks the circuit, makes the attempts if it lets them through, and reports how they ended. */
    method RunGuarded(breaker: CircuitBreaker, maxAttempts: int, answers: nat -> Attempt, now: int)
      returns (outcome: Outcome, attempts: nat, ended: int)
      requires breaker.Valid()
      modifies breaker
      ensures breaker.Valid() && TellsOne(breaker, old(breaker.events), now, ended, outcome) && ended >= now
      ensures EndsBy(AttemptLimit(maxAttempts), answers, attempts, outcome)
    {
      ghost var before := breaker.events;
      attempts, ended := 0, now;
      var may := breaker.CanAttempt(now);
      if !may {
        return Refused, 0, now;
      }
      var ok, tries := AttemptWithRetries(maxAttempts, answers);
      attempts := tries;
      ended := LaterThan(now);
      if ok {
        var _ := breaker.RecordSuccess();
        outcome := Worked;
      } else {
        var _ := breaker.RecordFailure(ended);
        outcome := Broke;
      }
      assert breaker.events == before + Told(breaker.settings, before, now, ended, ok);
    }

    ghost predicate TellsOne(breaker: CircuitBreaker, before: seq<Event>, now: int, ended: int, outcome: Outcome)
      reads breaker
    {
      && breaker.events == before + Told(breaker.settings, before, now, ended, outcome.Worked?)
      && (outcome.Refused? <==> !Admits(breaker.settings, After(breaker.settings, before), now))
    }

    /** An operator closes one circuit; an unknown key is ignored. */
    method ResetCircuit(key: string)
      requires Valid()
      modifies this`log, breakers.Values
      ensures Valid()
      ensures forall other :: other in breakers ==>
        breakers[other].events == old(breakers[other].events) + if other == key then [Reset] else []
    {
      if key in breakers {
        ResetKnown(key);
      }
    }

    method ResetKnown(key: string)
      requires Valid() && key in breakers
      modifies this`log, breakers[key]
      ensures Valid() && breakers[key].events == old(breakers[key].events) + [Reset]
      ensures forall other :: other in breakers && other != key ==>
        breakers[other].events == old(breakers[other].events)
    {
      HeardOneMore(breakers[key].settings, log[key], WasReset);
      breakers[key].ForceClosed();
      Note(key, WasReset);
    }
  }
}
