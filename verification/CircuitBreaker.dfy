/** packages/resilience/src/circuit-breaker.ts: one circuit guarding one target. */
module CircuitBreaker {
  import opened Wrappers

  datatype State = Closed | Open | HalfOpen

  datatype Circuit = Circuit(state: State, failures: nat, successes: nat, openedAt: Option<int>)

  datatype Settings = Settings(failureThreshold: int, resetTimeoutMs: int, successThreshold: int)

  /** What a circuit is told: a call asks to proceed, a call ends, or an operator steps in. */
  datatype Event = Asked(now: int) | Succeeded | Failed(now: int) | Reset

  const FRESH := Circuit(Closed, 0, 0, None)

  // --- one event ---------------------------------------------------------------------------

  function Admits(s: Settings, c: Circuit, now: int): bool {
    match c.state
    case Closed => true
    case Open => c.openedAt.Some? && now - c.openedAt.value >= s.resetTimeoutMs
    case HalfOpen => c.successes == 0 && c.failures == 0
  }

  function Step(s: Settings, c: Circuit, e: Event): Circuit {
    match e
    case Asked(now) =>
      if c.state.Open? && Admits(s, c, now) then c.(state := HalfOpen, successes := 0) else c
    case Succeeded =>
      var quiet := c.(failures := 0);
      if !c.state.HalfOpen? then quiet
      else if c.successes + 1 >= s.successThreshold then quiet.(state := Closed, successes := 0, openedAt := None)
      else quiet.(successes := c.successes + 1)
    case Failed(now) =>
      var worse := c.(failures := c.failures + 1, successes := 0);
      if c.state.HalfOpen? || worse.failures >= s.failureThreshold then worse.(state := Open, openedAt := Some(now))
        else worse
    case Reset => FRESH
  }

  /** The circuit after everything it was told. */
  function After(s: Settings, events: seq<Event>): Circuit {
    if events == [] then FRESH else Step(s, After(s, events[..|events| - 1]), events[|events| - 1])
  }

  lemma AfterOneMore(s: Settings, events: seq<Event>, e: Event)
    ensures After(s, events + [e]) == Step(s, After(s, events), e)
  {
    assert (events + [e])[..|events|] == events;
  }

  // --- every history -----------------------------------------------------------------------

  /** How many failures in a row open a closed circuit; never fewer than one. */
  function Limit(s: Settings): nat {
    if s.failureThreshold > 1 then s.failureThreshold else 1
  }

  /** The most recent call that ended did so well, with no reset since. */
  ghost predicate LastEndedWell(events: seq<Event>) {
    events != [] &&
    var last := events[|events| - 1];
    last.Succeeded? || (last.Asked? && LastEndedWell(events[..|events| - 1]))
  }

  /** A closed circuit is always short of its limit; an open one knows since when. */
  lemma {:induction false} EveryHistoryIsSound(s: Settings, events: seq<Event>)
    ensures var c := After(s, events);
      && (c.state.Closed? ==> c.failures < Limit(s) && c.successes == 0 && c.openedAt.None?)
      && (!c.state.Closed? ==> c.openedAt.Some?)
      && (c.successes > 0 ==> c.state.HalfOpen? && c.failures == 0 && c.successes < s.successThreshold)
      && (!c.state.Closed? ==> (c.failures == 0 <==> LastEndedWell(events)))
  {
    if events != [] {
      EveryHistoryIsSound(s, events[..|events| - 1]);
    }
  }

  /** Failures in a row: those since the last success or reset. Asking does not interrupt them. */
  ghost function FailedInARow(events: seq<Event>): nat {
    if events == [] then 0
    else
      var init := events[..|events| - 1];
      match events[|events| - 1]
      case Asked(_) => FailedInARow(init)
      case Failed(_) => FailedInARow(init) + 1
      case Succeeded => 0
      case Reset => 0
  }

  /** In whatever state, the circuit counts the failures in a row and nothing else. */
  lemma {:induction false} FailuresAreInARow(s: Settings, events: seq<Event>)
    ensures After(s, events).failures == FailedInARow(events)
  {
    if events != [] {
      FailuresAreInARow(s, events[..|events| - 1]);
    }
  }

  /** A closed circuit opens at the failure that brings the failures in a row to the threshold, and at nothing else. */
  lemma OpensExactly(s: Settings, events: seq<Event>, e: Event)
    requires After(s, events).state.Closed?
    ensures After(s, events + [e]).state.Open? <==> e.Failed? && FailedInARow(events + [e]) >= s.failureThreshold
    ensures !After(s, events + [e]).state.Open? ==> After(s, events + [e]).state.Closed?
    ensures After(s, events + [e]).state.Open? ==> After(s, events + [e]).openedAt == Some(e.now)
  {
    AfterOneMore(s, events, e);
    FailuresAreInARow(s, events);
    FailuresAreInARow(s, events + [e]);
  }

  /** Successes reported while the circuit is half-open, since it became so. */
  ghost function GoodSinceProbe(s: Settings, events: seq<Event>): nat {
    if events == [] || !After(s, events[..|events| - 1]).state.HalfOpen? then 0
    else
      var init := events[..|events| - 1];
      GoodSinceProbe(s, init) + if events[|events| - 1].Succeeded? then 1 else 0
  }

  lemma {:induction false} SuccessesAreSinceProbe(s: Settings, events: seq<Event>)
    requires After(s, events).state.HalfOpen?
    ensures After(s, events).successes == GoodSinceProbe(s, events)
  {
    var init := events[..|events| - 1];
    EveryHistoryIsSound(s, init);
    if After(s, init).state.HalfOpen? {
      SuccessesAreSinceProbe(s, init);
    }
  }

  /** A half-open circuit closes at the success that makes them enough, opens at any failure, and else stays. */
  lemma LeavesHalfOpenExactly(s: Settings, events: seq<Event>, e: Event)
    requires After(s, events).state.HalfOpen?
    ensures var c := After(s, events + [e]);
      && (c.state.Closed? <==> e.Reset? || (e.Succeeded? && GoodSinceProbe(s, events) + 1 >= s.successThreshold))
      && (c.state.Open? <==> e.Failed?) && (e.Failed? ==> c.openedAt == Some(e.now))
  {
    AfterOneMore(s, events, e);
    SuccessesAreSinceProbe(s, events);
  }

  /** An open circuit is left by a reset, or by asking once a whole timeout has passed. */
  lemma LeavesOpenExactly(s: Settings, events: seq<Event>, e: Event)
    requires After(s, events).state.Open?
    ensures var c := After(s, events + [e]);
      && (c.state.Closed? <==> e.Reset?)
      && (c.state.HalfOpen? <==> e.Asked? && e.now >= After(s, events).openedAt.GetOr(0) + s.resetTimeoutMs)
  {
    AfterOneMore(s, events, e);
    EveryHistoryIsSound(s, events);
  }

  /** When an open circuit was opened, according to its history: at its last failure. */
  ghost function LastFailure(events: seq<Event>): Option<int> {
    if events == [] then None
    else
      var last := events[|events| - 1];
      if last.Failed? then Some(last.now) else if last.Reset? then None else LastFailure(events[..|events| - 1])
  }

  lemma {:induction false} OpenedAtLastFailure(s: Settings, events: seq<Event>)
    ensures var c := After(s, events); !c.state.Closed? && c.failures >= Limit(s) ==> c.openedAt == LastFailure(events)
  {
    if events != [] {
      OpenedAtLastFailure(s, events[..|events| - 1]);
      EveryHistoryIsSound(s, events[..|events| - 1]);
    }
  }

  /** An open circuit past its limit lets a call through exactly when its last failure is a full timeout ago. */
  lemma {:induction false} OpenAdmitsExactly(s: Settings, events: seq<Event>, now: int)
    requires After(s, events).state.Open? && After(s, events).failures >= Limit(s)
    ensures LastFailure(events).Some?
    ensures Admits(s, After(s, events), now) <==> now >= LastFailure(events).value + s.resetTimeoutMs
  {
    OpenedAtLastFailure(s, events);
    EveryHistoryIsSound(s, events);
  }

  /** Short of the limit again after a late success, an open circuit does not note a late failure. */
  lemma LateFailureIsNotNoted()
    ensures var s := Settings(2, 10, 1);
      var events := [Failed(0), Failed(0), Succeeded, Failed(9)];
      && After(s, events).state.Open? && LastFailure(events) == Some(9) && Admits(s, After(s, events), 10)
  {
    var s := Settings(2, 10, 1);
    AfterOneMore(s, [], Failed(0));
    AfterOneMore(s, [Failed(0)], Failed(0));
    AfterOneMore(s, [Failed(0), Failed(0)], Succeeded);
    AfterOneMore(s, [Failed(0), Failed(0), Succeeded], Failed(9));
    assert [] + [Failed(0)] == [Failed(0)] && [Failed(0)] + [Failed(0)] == [Failed(0), Failed(0)];
    assert [Failed(0), Failed(0)] + [Succeeded] == [Failed(0), Failed(0), Succeeded];
    assert [Failed(0), Failed(0), Succeeded] + [Failed(9)] == [Failed(0), Failed(0), Succeeded, Failed(9)];
  }

  // --- the probe ---------------------------------------------------------------------------

  ghost predicate OnlyAsks(events: seq<Event>) {
    forall i :: 0 <= i < |events| ==> events[i].Asked?
  }

  /** Asking alone never moves a circuit that is not open. */
  lemma {:induction false} AsksChangeNothing(s: Settings, events: seq<Event>, asks: seq<Event>)
    requires !After(s, events).state.Open? && OnlyAsks(asks)
    ensures After(s, events + asks) == After(s, events)
  {
    if asks == [] {
      assert events + asks == events;
    } else {
      var init, last := asks[..|asks| - 1], asks[|asks| - 1];
      AsksChangeNothing(s, events, init);
      assert events + asks == (events + init) + [last];
      AfterOneMore(s, events + init, last);
    }
  }

  /**
   * While a probe is out, however many others ask and whenever, all of them are refused,
   * unless the last call to end before the probe was a late success: then all are let through.
   */
  lemma SecondProbeExactly(s: Settings, events: seq<Event>, now: int, asks: seq<Event>, later: int)
    requires After(s, events).state.Open? && Admits(s, After(s, events), now) && OnlyAsks(asks)
    ensures Admits(s, After(s, events + [Asked(now)] + asks), later) <==> LastEndedWell(events)
  {
    EveryHistoryIsSound(s, events);
    AfterOneMore(s, events, Asked(now));
    AsksChangeNothing(s, events + [Asked(now)], asks);
  }

  /** Two calls in flight: the failure opens the circuit, the late success disarms the gate. */
  lemma {:induction false} LateSuccessWeakensTheGate()
    ensures var s := Settings(1, 10, 1);
      var events := [Asked(0), Asked(0), Failed(1), Succeeded];
      && After(s, events).state.Open? && Admits(s, After(s, events), 11)
      && Admits(s, After(s, events + [Asked(11)]), 11)
  {
    var s := Settings(1, 10, 1);
    var events := [Asked(0), Asked(0), Failed(1), Succeeded];
    AfterOneMore(s, [], Asked(0));
    AfterOneMore(s, [Asked(0)], Asked(0));
    AfterOneMore(s, [Asked(0), Asked(0)], Failed(1));
    AfterOneMore(s, [Asked(0), Asked(0), Failed(1)], Succeeded);
    assert [] + [Asked(0)] == [Asked(0)] && [Asked(0)] + [Asked(0)] == [Asked(0), Asked(0)];
    assert [Asked(0), Asked(0)] + [Failed(1)] == [Asked(0), Asked(0), Failed(1)];
    assert [Asked(0), Asked(0), Failed(1)] + [Succeeded] == events;
    SecondProbeExactly(s, events, 11, [], 11);
    assert events + [Asked(11)] + [] == events + [Asked(11)];
  }

  /**
   * After a successful probe, calls flow again exactly when one success is enough to close.
   * Otherwise the circuit refuses every later call until something other than asking happens.
   */
  lemma RecoversExactly(s: Settings, events: seq<Event>, now: int, asks: seq<Event>, later: int)
    requires After(s, events).state.Open? && Admits(s, After(s, events), now) && OnlyAsks(asks)
    ensures Admits(s, After(s, events + [Asked(now)] + [Succeeded] + asks), later) <==> s.successThreshold <= 1
    ensures After(s, events + [Asked(now)] + [Succeeded] + asks).state.Closed? <==> s.successThreshold <= 1
  {
    AfterOneMore(s, events, Asked(now));
    AfterOneMore(s, events + [Asked(now)], Succeeded);
    AsksChangeNothing(s, events + [Asked(now)] + [Succeeded], asks);
  }

  /** A failed probe opens the circuit again for a whole timeout. */
  lemma {:induction false} FailedProbeReopens(s: Settings, events: seq<Event>, now: int, failedAt: int, later: int)
    requires After(s, events).state.Open? && Admits(s, After(s, events), now)
    ensures Admits(s, After(s, events + [Asked(now)] + [Failed(failedAt)]), later) <==>
      later >= failedAt + s.resetTimeoutMs
  {
    AfterOneMore(s, events, Asked(now));
    AfterOneMore(s, events + [Asked(now)], Failed(failedAt));
  }

  // --- an outage ---------------------------------------------------------------------------

  /** A call that asks at one time and, if admitted, fails at another. */
  datatype Call = Call(askedAt: int, failedAt: int)

  /** Each call is over before the next one asks. */
  ghost predicate OneByOne(calls: seq<Call>, from: int) {
    && (forall i :: 0 <= i < |calls| ==> from <= calls[i].askedAt <= calls[i].failedAt)
    && (forall i, j :: 0 <= i < j < |calls| ==> calls[i].failedAt <= calls[j].askedAt)
  }

  /**
   * What a circuit has been told once an outage follows what it heard earlier: refused calls have
   * nothing to report.
   */
  ghost function Outage(s: Settings, earlier: seq<Event>, calls: seq<Call>): seq<Event> {
    if calls == [] then earlier
    else
      var before, call := Outage(s, earlier, calls[..|calls| - 1]), calls[|calls| - 1];
      before + [Asked(call.askedAt)] + if Admits(s, After(s, before), call.askedAt) then [Failed(call.failedAt)] else []
  }

  ghost function Admitted(s: Settings, earlier: seq<Event>, calls: seq<Call>): nat {
    if calls == [] then 0
    else
      var init := calls[..|calls| - 1];
      Admitted(s, earlier, init)
        + if Admits(s, After(s, Outage(s, earlier, init)), calls[|calls| - 1].askedAt) then 1 else 0
  }

  /** This many timeouts, one after the other. */
  function Timeouts(s: Settings, n: nat): int {
    if n == 0 then 0 else Timeouts(s, n - 1) + s.resetTimeoutMs
  }

  lemma {:induction false} TimeoutsAre(s: Settings, n: nat)
    ensures Timeouts(s, n) == n * s.resetTimeoutMs
  {
    if n > 0 {
      TimeoutsAre(s, n - 1);
      assert (n - 1) * s.resetTimeoutMs + s.resetTimeoutMs == n * s.resetTimeoutMs;
    }
  }

  /**
   * The state of an outage: the first calls use up what is left of the limit, each later one a whole
   * timeout. A circuit found half-open stays so until the first call gets through.
   */
  ghost predicate ContainedAt(s: Settings, c: Circuit, n: nat, from: int) {
    && (c.state.HalfOpen? ==> n == 0)
    && (c.state.Closed? ==> n <= c.failures < Limit(s))
    && (c.state.Open? ==> c.openedAt.Some? && (n >= Limit(s) ==> Timeouts(s, n - Limit(s)) <= c.openedAt.value - from))
  }

  /** No call of an outage has opened the circuit after the end of its last call. */
  ghost predicate OpenedBy(c: Circuit, n: nat, end: int) {
    c.state.Open? && n > 0 ==> c.openedAt.Some? && c.openedAt.value <= end
  }

  ghost predicate Contained(s: Settings, earlier: seq<Event>, calls: seq<Call>, from: int) {
    var c, n := After(s, Outage(s, earlier, calls)), Admitted(s, earlier, calls);
    && ContainedAt(s, c, n, from)
    && if calls == [] then n == 0 else OpenedBy(c, n, calls[|calls| - 1].failedAt)
  }

  lemma OneMoreIsContainedAt(s: Settings, c: Circuit, n: nat, from: int, call: Call)
    requires s.resetTimeoutMs >= 0 && ContainedAt(s, c, n, from) && from <= call.askedAt <= call.failedAt
    requires Admits(s, c, call.askedAt)
    ensures var d := Step(s, Step(s, c, Asked(call.askedAt)), Failed(call.failedAt));
      ContainedAt(s, d, n + 1, from) && OpenedBy(d, n + 1, call.failedAt)
  {
    if c.state.Open? && n >= Limit(s) {
      assert Timeouts(s, n + 1 - Limit(s)) == Timeouts(s, n - Limit(s)) + s.resetTimeoutMs;
    } else {
      assert Timeouts(s, 0) == 0;
    }
  }

  lemma {:induction false} OutageIsContained(s: Settings, earlier: seq<Event>, calls: seq<Call>, from: int)
    requires s.resetTimeoutMs >= 0 && OneByOne(calls, from)
    ensures Contained(s, earlier, calls, from)
  {
    if calls == [] {
      EveryHistoryIsSound(s, earlier);
    } else {
      var init, call := calls[..|calls| - 1], calls[|calls| - 1];
      assert calls == init + [call];
      LastOf(init, call, from);
      OutageIsContained(s, earlier, init, from);
      OneMoreIsContained(s, earlier, init, call, from);
    }
  }

  lemma OneMoreIsContained(s: Settings, earlier: seq<Event>, init: seq<Call>, call: Call, from: int)
    requires s.resetTimeoutMs >= 0 && from <= call.askedAt <= call.failedAt && Contained(s, earlier, init, from)
    requires init != [] ==> init[|init| - 1].failedAt <= call.askedAt
    ensures Contained(s, earlier, init + [call], from)
  {
    var c := After(s, Outage(s, earlier, init));
    OutageStep(s, earlier, init, call);
    if Admits(s, c, call.askedAt) {
      OneMoreIsContainedAt(s, c, Admitted(s, earlier, init), from, call);
    }
  }

  lemma LastOf(init: seq<Call>, call: Call, from: int)
    requires OneByOne(init + [call], from)
    ensures from <= call.askedAt <= call.failedAt && (init + [call])[|init|] == call
    ensures init != [] ==> init[|init| - 1].failedAt <= call.askedAt
  {
    var calls := init + [call];
    assert calls[|init|] == call;
    assert init != [] ==> calls[|init| - 1] == init[|init| - 1];
  }

  /**
   * One more failing call: an admitted one counts as a failure and may open the circuit, a refused
   * one changes nothing.
   */
  lemma OutageStep(s: Settings, earlier: seq<Event>, init: seq<Call>, call: Call)
    ensures var c, d := After(s, Outage(s, earlier, init)), After(s, Outage(s, earlier, init + [call]));
      && Admitted(s, earlier, init + [call]) ==
           Admitted(s, earlier, init) + (if Admits(s, c, call.askedAt) then 1 else 0)
      && d == if Admits(s, c, call.askedAt) then Step(s, Step(s, c, Asked(call.askedAt)), Failed(call.failedAt)) else c
  {
    var calls, events := init + [call], Outage(s, earlier, init);
    assert calls[..|calls| - 1] == init && calls[|calls| - 1] == call;
    AfterOneMore(s, events, Asked(call.askedAt));
    if Admits(s, After(s, events), call.askedAt) {
      AfterOneMore(s, events + [Asked(call.askedAt)], Failed(call.failedAt));
    } else {
      assert events + [Asked(call.askedAt)] + [] == events + [Asked(call.askedAt)];
    }
  }

  function LastAsk(calls: seq<Call>): int
    requires calls != []
  {
    calls[|calls| - 1].askedAt
  }

  /** The limit at once, and one probe for every full timeout that has passed. */
  function OutageLimit(s: Settings, elapsed: nat): nat
    requires s.resetTimeoutMs > 0
  {
    Limit(s) + elapsed / s.resetTimeoutMs
  }

  /** So many calls leave at least this much time for the timeouts between them. */
  predicate InTime(s: Settings, n: nat, elapsed: int) {
    n > Limit(s) ==> Timeouts(s, n - Limit(s)) <= elapsed
  }

  lemma AdmittedInTime(s: Settings, earlier: seq<Event>, init: seq<Call>, call: Call, from: int)
    requires s.resetTimeoutMs >= 0 && OneByOne(init + [call], from)
    ensures call.askedAt >= from && InTime(s, Admitted(s, earlier, init + [call]), call.askedAt - from)
  {
    LastOf(init, call, from);
    InitOneByOne(init, call, from);
    OutageIsContained(s, earlier, init, from);
    OutageStep(s, earlier, init, call);
    LastInTime(s, After(s, Outage(s, earlier, init)), Admitted(s, earlier, init), from, call,
      if init == [] then from else init[|init| - 1].failedAt);
  }

  lemma InitOneByOne(init: seq<Call>, call: Call, from: int)
    requires OneByOne(init + [call], from)
    ensures OneByOne(init, from)
  {
    var calls := init + [call];
    assert forall i :: 0 <= i < |init| ==> init[i] == calls[i];
  }

  lemma LastInTime(s: Settings, c: Circuit, n: nat, from: int, call: Call, end: int)
    requires s.resetTimeoutMs >= 0 && ContainedAt(s, c, n, from) && OpenedBy(c, n, end)
    requires from <= call.askedAt && end <= call.askedAt
    ensures InTime(s, n + if Admits(s, c, call.askedAt) then 1 else 0, call.askedAt - from)
  {
  }

  /**
   * While everything fails, no more calls get through than the limit plus one per full timeout,
   * whatever the circuit went through before.
   */
  lemma {:induction false} OutageBound(s: Settings, earlier: seq<Event>, calls: seq<Call>, from: int)
    requires s.resetTimeoutMs > 0 && OneByOne(calls, from) && calls != []
    ensures LastAsk(calls) >= from && Admitted(s, earlier, calls) <= OutageLimit(s, LastAsk(calls) - from)
  {
    assert calls == calls[..|calls| - 1] + [calls[|calls| - 1]];
    AdmittedInTime(s, earlier, calls[..|calls| - 1], calls[|calls| - 1], from);
    var n, spent := Admitted(s, earlier, calls), LastAsk(calls) - from;
    TimeoutsSpent(s, if n > Limit(s) then n - Limit(s) else 0, spent);
  }

  lemma TimeoutsSpent(s: Settings, n: nat, spent: int)
    requires s.resetTimeoutMs > 0 && Timeouts(s, n) <= spent
    ensures n <= spent / s.resetTimeoutMs
  {
    TimeoutsAre(s, n);
    Quotient(n, s.resetTimeoutMs, spent);
  }

  lemma Quotient(k: nat, timeout: int, spent: int)
    requires timeout > 0 && k * timeout <= spent
    ensures k <= spent / timeout
  {
    var q := spent / timeout;
    assert spent == q * timeout + spent % timeout;
    assert (q + 1) * timeout == q * timeout + timeout;
    Scaled(q + 1, k, timeout);
  }

  /** The busiest outage: the limit at once, then one call per timeout. */
  ghost function Steady(s: Settings, from: int, n: nat): (calls: seq<Call>)
    ensures |calls| == n
  {
    if n == 0 then []
    else
      var at := SteadyTime(s, from, n - 1);
      Steady(s, from, n - 1) + [Call(at, at)]
  }

  function SteadyTime(s: Settings, from: int, i: nat): int {
    if i < Limit(s) then from else SteadyTime(s, from, i - 1) + s.resetTimeoutMs
  }

  lemma {:induction false} SteadyTimeIs(s: Settings, from: int, i: nat)
    requires i + 1 >= Limit(s)
    ensures SteadyTime(s, from, i) == from + (i + 1 - Limit(s)) * s.resetTimeoutMs
  {
    if i >= Limit(s) {
      SteadyTimeIs(s, from, i - 1);
      var k := i - Limit(s);
      assert (k + 1) * s.resetTimeoutMs == k * s.resetTimeoutMs + s.resetTimeoutMs;
    }
  }

  lemma {:induction false} SteadyTimeRises(s: Settings, from: int, i: nat, j: nat)
    requires i <= j && s.resetTimeoutMs > 0
    ensures from <= SteadyTime(s, from, i) <= SteadyTime(s, from, j)
    decreases i + j
  {
    if i < j {
      SteadyTimeRises(s, from, i, j - 1);
    } else if i > 0 {
      SteadyTimeRises(s, from, i - 1, i - 1);
    }
  }

  lemma {:induction false} SteadyTimes(s: Settings, from: int, n: nat)
    ensures forall i :: 0 <= i < n ==> Steady(s, from, n)[i] == Call(SteadyTime(s, from, i), SteadyTime(s, from, i))
  {
    if n > 0 {
      SteadyTimes(s, from, n - 1);
    }
  }

  lemma SteadyIsOneByOne(s: Settings, from: int, n: nat)
    requires s.resetTimeoutMs > 0
    ensures OneByOne(Steady(s, from, n), from)
  {
    SteadyTimes(s, from, n);
    forall i: nat, j: nat | i <= j ensures from <= SteadyTime(s, from, i) <= SteadyTime(s, from, j) {
      SteadyTimeRises(s, from, i, j);
    }
  }

  /** During the busiest outage: everything so far was admitted, and the circuit opened last just now. */
  ghost predicate AllAdmitted(s: Settings, earlier: seq<Event>, from: int, n: nat) {
    var calls := Steady(s, from, n);
    var c := After(s, Outage(s, earlier, calls));
    && Admitted(s, earlier, calls) == n
    && if n < Limit(s) then c.state.Closed? && c.failures == n
       else c.state.Open? && c.openedAt == Some(SteadyTime(s, from, n - 1)) && c.failures >= n
  }

  /** Closed, with no failure counting towards the limit. */
  predicate Rested(s: Settings, earlier: seq<Event>) {
    After(s, earlier).state.Closed? && After(s, earlier).failures == 0
  }

  lemma {:induction false} SteadyIsAdmitted(s: Settings, earlier: seq<Event>, from: int, n: nat)
    requires Rested(s, earlier)
    ensures AllAdmitted(s, earlier, from, n)
  {
    if n > 0 {
      SteadyIsAdmitted(s, earlier, from, n - 1);
      NextIsAdmitted(s, earlier, from, n);
    }
  }

  lemma NextTime(s: Settings, from: int, i: nat)
    ensures i >= Limit(s) ==> SteadyTime(s, from, i) == SteadyTime(s, from, i - 1) + s.resetTimeoutMs
  {
  }

  lemma NextIsAdmitted(s: Settings, earlier: seq<Event>, from: int, n: nat)
    requires n > 0 && AllAdmitted(s, earlier, from, n - 1)
    ensures AllAdmitted(s, earlier, from, n)
  {
    var at := SteadyTime(s, from, n - 1);
    NextTime(s, from, n - 1);
    var init, calls := Steady(s, from, n - 1), Steady(s, from, n);
    var events := Outage(s, earlier, init);
    assert calls == init + [Call(at, at)];
    assert calls[..|calls| - 1] == init;
    AfterOneMore(s, events, Asked(at));
    AfterOneMore(s, events + [Asked(at)], Failed(at));
  }

  /** The bound is met: in the busiest outage of a target that was well before, every call gets through. */
  lemma OutageBoundIsTight(s: Settings, earlier: seq<Event>, from: int, n: nat)
    requires s.resetTimeoutMs > 0 && Rested(s, earlier)
    ensures OneByOne(Steady(s, from, n), from) && Admitted(s, earlier, Steady(s, from, n)) == n
    ensures n >= Limit(s) ==> LastAsk(Steady(s, from, n)) == from + (n - Limit(s)) * s.resetTimeoutMs
  {
    SteadyIsAdmitted(s, earlier, from, n);
    SteadyIsOneByOne(s, from, n);
    SteadyTimes(s, from, n);
    if n >= Limit(s) {
      SteadyTimeIs(s, from, n - 1);
    }
  }

  // --- the breaker -------------------------------------------------------------------------

  class CircuitBreaker {
    const settings: Settings
    var state: State
    var consecutiveFailures: nat
    var consecutiveSuccesses: nat
    var openedAt: Option<int>
    ghost var events: seq<Event>

    constructor (settings: Settings)
      ensures Valid() && this.settings == settings && events == []
    {
      this.settings := settings;
      state, consecutiveFailures, consecutiveSuccesses, openedAt := Closed, 0, 0, None;
      events := [];
    }

    ghost function View(): Circuit
      reads this
    {
      Circuit(state, consecutiveFailures, consecutiveSuccesses, openedAt)
    }

    /** The fields are what the circuit's history makes them. */
    ghost predicate Valid()
      reads this
    {
      View() == After(settings, events)
    }

    /** Enters into the history what has just changed the fields. */
    ghost method Note(before: Circuit, e: Event)
      requires before == After(settings, events) && View() == Step(settings, before, e)
      modifies this`events
      ensures Valid() && events == old(events) + [e]
    {
      AfterOneMore(settings, events, e);
      events := events + [e];
    }

    /** Asking may turn an expired open circuit half-open. */
    method CanAttempt(now: int) returns (may: bool)
      requires Valid()
      modifies this
      ensures Valid() && events == old(events) + [Asked(now)]
        && may == Admits(settings, After(settings, old(events)), now)
    {
      ghost var before := View();
      if state == Closed {
        may := true;
      } else if state == Open {
        may := openedAt.Some? && now - openedAt.value >= settings.resetTimeoutMs;
        if may {
          state := HalfOpen;
          consecutiveSuccesses := 0;
        }
      } else {
        may := consecutiveSuccesses == 0 && consecutiveFailures == 0;
      }
      Note(before, Asked(now));
    }

    method RecordSuccess() returns (next: State)
      requires Valid()
      modifies this
      ensures Valid() && events == old(events) + [Succeeded] && next == state && consecutiveFailures == 0
    {
      ghost var before := View();
      consecutiveFailures := 0;
      if state == HalfOpen {
        consecutiveSuccesses := consecutiveSuccesses + 1;
        if consecutiveSuccesses >= settings.successThreshold {
          state := Closed;
          consecutiveSuccesses := 0;
          openedAt := None;
        }
      }
      Note(before, Succeeded);
      return state;
    }

    method RecordFailure(now: int) returns (next: State)
      requires Valid()
      modifies this
      ensures Valid() && events == old(events) + [Failed(now)] && next == state
    {
      ghost var before := View();
      consecutiveFailures := consecutiveFailures + 1;
      consecutiveSuccesses := 0;
      if state == HalfOpen || consecutiveFailures >= settings.failureThreshold {
        state := Open;
        openedAt := Some(now);
      }
      Note(before, Failed(now));
      return state;
    }

    /** An operator shuts the circuit; its history stays on record. */
    method ForceClosed()
      requires Valid()
      modifies this
      ensures Valid() && events == old(events) + [Reset]
    {
      ghost var before := View();
      state, consecutiveFailures, consecutiveSuccesses, openedAt := Closed, 0, 0, None;
      Note(before, Reset);
    }
  }
}
