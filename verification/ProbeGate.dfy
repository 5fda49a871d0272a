/** packages/resilience/src/circuit-breaker.ts with its calls told apart: when the half-open gate really is single. */
module ProbeGate {
  import opened Wrappers
  import opened CircuitBreaker

  /** What happens at a circuit, call by call. A refused call has nothing to report. */
  datatype Happening = Asks(call: nat, now: int) | EndsWell(call: nat) | EndsBadly(call: nat, now: int) | Resets

  function EventOf(h: Happening): Event {
    match h
    case Asks(_, now) => Asked(now)
    case EndsWell(_) => Succeeded
    case EndsBadly(_, now) => Failed(now)
    case Resets => Reset
  }

  /** The circuit itself cannot tell calls apart. */
  function Told(hs: seq<Happening>): seq<Event> {
    if hs == [] then [] else Told(hs[..|hs| - 1]) + [EventOf(hs[|hs| - 1])]
  }

  function At(s: Settings, hs: seq<Happening>): Circuit { After(s, Told(hs)) }

  lemma AtOneMore(s: Settings, hs: seq<Happening>, h: Happening)
    ensures At(s, hs + [h]) == Step(s, At(s, hs), EventOf(h)) && Told(hs + [h]) == Told(hs) + [EventOf(h)]
  {
    assert (hs + [h])[..|hs|] == hs;
    AfterOneMore(s, Told(hs), EventOf(h));
  }

  predicate LetsThrough(s: Settings, hs: seq<Happening>, now: int) { Admits(s, At(s, hs), now) }

  /** The calls let through that have not ended. */
  ghost function InFlight(s: Settings, hs: seq<Happening>): set<nat> {
    if hs == [] then {}
    else
      var init := hs[..|hs| - 1];
      FlightAfter(s, init, InFlight(s, init), hs[|hs| - 1])
  }

  ghost function FlightAfter(s: Settings, hs: seq<Happening>, flying: set<nat>, h: Happening): set<nat> {
    match h
    case Asks(call, now) => if LetsThrough(s, hs, now) then flying + {call} else flying
    case EndsWell(call) => flying - {call}
    case EndsBadly(call, _) => flying - {call}
    case Resets => flying
  }

  predicate AsksFor(h: Happening, call: nat) { h.Asks? && h.call == call }

  predicate Ends(h: Happening, call: nat) { (h.EndsWell? || h.EndsBadly?) && h.call == call }

  /** A call asks once, and ends only while it is in flight. */
  ghost predicate MayHappen(s: Settings, hs: seq<Happening>, h: Happening) {
    && (h.Asks? ==> forall i :: 0 <= i < |hs| ==> !AsksFor(hs[i], h.call))
    && (h.EndsWell? || h.EndsBadly? ==> h.call in InFlight(s, hs))
  }

  ghost predicate Proper(s: Settings, hs: seq<Happening>) {
    hs == [] || (Proper(s, hs[..|hs| - 1]) && MayHappen(s, hs[..|hs| - 1], hs[|hs| - 1]))
  }

  lemma ProperOneMore(s: Settings, hs: seq<Happening>, h: Happening)
    ensures Proper(s, hs + [h]) <==> Proper(s, hs) && MayHappen(s, hs, h)
    ensures InFlight(s, hs + [h]) == FlightAfter(s, hs, InFlight(s, hs), h)
  {
    assert (hs + [h])[..|hs|] == hs;
  }

  lemma {:induction false} InFlightHasAsked(s: Settings, hs: seq<Happening>, call: nat)
    requires call in InFlight(s, hs)
    ensures exists i :: 0 <= i < |hs| && AsksFor(hs[i], call)
  {
    var init, last := hs[..|hs| - 1], hs[|hs| - 1];
    if call in InFlight(s, init) {
      InFlightHasAsked(s, init, call);
      var i :| 0 <= i < |init| && AsksFor(init[i], call);
      assert AsksFor(hs[i], call);
    } else {
      assert AsksFor(hs[|hs| - 1], call);
    }
  }

  /** The call to end most recently did so well, with no reset since. */
  ghost predicate LastEndedWellIn(hs: seq<Happening>) { LastEndedWell(Told(hs)) }

  // --- while the probe is out --------------------------------------------------------------

  /** Happenings among which one call does not end and no operator steps in. */
  ghost predicate Leaves(later: seq<Happening>, call: nat) {
    forall i :: 0 <= i < |later| ==> !Ends(later[i], call) && !later[i].Resets?
  }

  /** An open circuit is about to let this call through as its probe. */
  ghost predicate ProbeGoesOut(s: Settings, hs: seq<Happening>, probe: nat, now: int) {
    Proper(s, hs) && At(s, hs).state.Open? && LetsThrough(s, hs, now) && MayHappen(s, hs, Asks(probe, now))
  }

  /** A run that goes on from `start` while `call` is out. */
  ghost predicate GoesOn(s: Settings, start: seq<Happening>, later: seq<Happening>, call: nat) {
    Proper(s, start + later) && Leaves(later, call)
  }

  /** However things go on while `call` is out, nobody else is let through. */
  ghost predicate Shut(s: Settings, start: seq<Happening>, call: nat) {
    forall later, now :: GoesOn(s, start, later, call) ==> !LetsThrough(s, start + later, now)
  }

  lemma ProbeOut(s: Settings, hs: seq<Happening>, probe: nat, now: int)
    requires ProbeGoesOut(s, hs, probe, now)
    ensures var out := hs + [Asks(probe, now)];
      && Proper(s, out) && InFlight(s, out) == InFlight(s, hs) + {probe} && probe !in InFlight(s, hs)
      && At(s, out).state.HalfOpen? && At(s, out).successes == 0 && (At(s, out).failures == 0 <==> LastEndedWellIn(hs))
  {
    AtOneMore(s, hs, Asks(probe, now));
    ProperOneMore(s, hs, Asks(probe, now));
    EveryHistoryIsSound(s, Told(hs));
    if probe in InFlight(s, hs) {
      InFlightHasAsked(s, hs, probe);
    }
  }

  /** None of the calls in flight at `start` ends, and no operator steps in. */
  ghost predicate NobodyEnds(s: Settings, start: seq<Happening>, later: seq<Happening>) {
    && (forall i :: 0 <= i < |later| ==> !later[i].Resets?)
    && forall i, call :: 0 <= i < |later| && call in InFlight(s, start) ==> !Ends(later[i], call)
  }

  /** A half-open gate that admits no one stays as it is until one of the calls in flight ends. */
  lemma {:induction false} StaysShut(s: Settings, start: seq<Happening>, later: seq<Happening>)
    requires Proper(s, start + later) && NobodyEnds(s, start, later)
    requires At(s, start).state.HalfOpen? && !(At(s, start).successes == 0 && At(s, start).failures == 0)
    ensures At(s, start + later) == At(s, start) && InFlight(s, start + later) == InFlight(s, start)
  {
    if later == [] {
      assert start + later == start;
    } else {
      var init, h := later[..|later| - 1], later[|later| - 1];
      assert start + later == (start + init) + [h];
      ProperOneMore(s, start + init, h);
      assert forall i :: 0 <= i < |init| ==> init[i] == later[i];
      StaysShut(s, start, init);
      AtOneMore(s, start + init, h);
      assert !later[|later| - 1].Resets?
        && forall call :: call in InFlight(s, start) ==> !Ends(later[|later| - 1], call);
    }
  }

  /**
   * Whatever follows while a probe is out: another call is let through only if the last call to end
   * before the probe ended well, or a call other than the probe, in flight already, has ended since.
   */
  lemma SecondCallNeedsAnEnding(s: Settings, hs: seq<Happening>, probe: nat, now: int, later: seq<Happening>, at: int)
    requires ProbeGoesOut(s, hs, probe, now) && GoesOn(s, hs + [Asks(probe, now)], later, probe)
    requires LetsThrough(s, hs + [Asks(probe, now)] + later, at)
    ensures LastEndedWellIn(hs)
      || exists i, call :: 0 <= i < |later| && call in InFlight(s, hs) && call != probe && Ends(later[i], call)
  {
    var out := hs + [Asks(probe, now)];
    ProbeOut(s, hs, probe, now);
    if !LastEndedWellIn(hs) && NobodyEnds(s, out, later) {
      StaysShut(s, out, later);
    }
  }

  /** Another call still in flight can end badly; after one reset timeout the gate opens again. */
  lemma OtherCallReopens(s: Settings, start: seq<Happening>, call: nat, other: nat, now: int)
    requires Proper(s, start) && At(s, start).state.HalfOpen? && other in InFlight(s, start) && other != call
    ensures GoesOn(s, start, [EndsBadly(other, now)], call)
    ensures LetsThrough(s, start + [EndsBadly(other, now)], now + s.resetTimeoutMs)
  {
    AtOneMore(s, start, EndsBadly(other, now));
    ProperOneMore(s, start, EndsBadly(other, now));
  }

  /**
   * A probe keeps everyone else out until it ends, if and only if, when it goes out, no other call is
   * still in flight and the last call to end did not end well.
   */
  lemma GateIsSingleExactly(s: Settings, hs: seq<Happening>, probe: nat, now: int)
    requires ProbeGoesOut(s, hs, probe, now)
    ensures Shut(s, hs + [Asks(probe, now)], probe) <==> InFlight(s, hs) == {} && !LastEndedWellIn(hs)
  {
    var out := hs + [Asks(probe, now)];
    ProbeOut(s, hs, probe, now);
    if InFlight(s, hs) == {} && !LastEndedWellIn(hs) {
      forall later, at | GoesOn(s, out, later, probe) ensures !LetsThrough(s, out + later, at) {
        StaysShut(s, out, later);
      }
    } else if LastEndedWellIn(hs) {
      assert out + [] == out;
      assert GoesOn(s, out, [], probe) && LetsThrough(s, out + [], now);
    } else {
      var other :| other in InFlight(s, hs);
      OtherCallReopens(s, out, probe, other, now);
    }
  }

  /** Two calls went out together and one of them failed, so the circuit is open with the other still in flight. */
  lemma TwoOutOneFailed()
    ensures var s := Settings(1, 10, 1);
      var hs := [Asks(0, 0), Asks(1, 0), EndsBadly(0, 1)];
      && Proper(s, hs) && InFlight(s, hs) == {1} && At(s, hs) == Circuit(Open, 1, 0, Some(1))
  {
    var s := Settings(1, 10, 1);
    var one, two := [Asks(0, 0)], [Asks(0, 0), Asks(1, 0)];
    assert [] + [Asks(0, 0)] == one && one + [Asks(1, 0)] == two;
    AtOneMore(s, [], Asks(0, 0));
    ProperOneMore(s, [], Asks(0, 0));
    AtOneMore(s, one, Asks(1, 0));
    ProperOneMore(s, one, Asks(1, 0));
    AtOneMore(s, two, EndsBadly(0, 1));
    ProperOneMore(s, two, EndsBadly(0, 1));
    assert two + [EndsBadly(0, 1)] == [Asks(0, 0), Asks(1, 0), EndsBadly(0, 1)];
  }

  /** A probe is out; then the earlier call ends well, the circuit closes, and another call gets through. */
  lemma LateSuccessLetsSecondCallIn()
    ensures var s := Settings(1, 10, 1);
      var hs := [Asks(0, 0), Asks(1, 0), EndsBadly(0, 1)];
      && ProbeGoesOut(s, hs, 2, 11) && !LastEndedWellIn(hs)
      && GoesOn(s, hs + [Asks(2, 11)], [EndsWell(1)], 2)
      && LetsThrough(s, hs + [Asks(2, 11)] + [EndsWell(1)], 12)
  {
    var s := Settings(1, 10, 1);
    var hs := [Asks(0, 0), Asks(1, 0), EndsBadly(0, 1)];
    TwoOutOneFailed();
    EveryHistoryIsSound(s, Told(hs));
    ProbeOut(s, hs, 2, 11);
    AtOneMore(s, hs + [Asks(2, 11)], EndsWell(1));
    ProperOneMore(s, hs + [Asks(2, 11)], EndsWell(1));
  }

  // --- after a successful probe ------------------------------------------------------------

  /** However things go on without an operator, nobody is ever let through again. */
  ghost predicate ShutForGood(s: Settings, start: seq<Happening>) {
    forall later, now :: GoesOnUnaided(s, start, later) ==> !LetsThrough(s, start + later, now)
  }

  ghost predicate GoesOnUnaided(s: Settings, start: seq<Happening>, later: seq<Happening>) {
    Proper(s, start + later) && forall i :: 0 <= i < |later| ==> !later[i].Resets?
  }

  /**
   * After a probe that ended well before anything else did, the circuit refuses every later call for
   * good, if and only if one success is not enough to close it and no other call is still in flight.
   */
  lemma ShutForGoodExactly(s: Settings, hs: seq<Happening>, probe: nat, now: int)
    requires ProbeGoesOut(s, hs, probe, now)
    ensures ShutForGood(s, hs + [Asks(probe, now)] + [EndsWell(probe)]) <==>
      s.successThreshold >= 2 && InFlight(s, hs) == {}
  {
    var out := hs + [Asks(probe, now)];
    var done := out + [EndsWell(probe)];
    ProbeOut(s, hs, probe, now);
    AtOneMore(s, out, EndsWell(probe));
    ProperOneMore(s, out, EndsWell(probe));
    if s.successThreshold < 2 {
      assert done + [] == done;
      assert GoesOnUnaided(s, done, []) && LetsThrough(s, done + [], now);
    } else if InFlight(s, hs) == {} {
      forall later, at | GoesOnUnaided(s, done, later) ensures !LetsThrough(s, done + later, at) {
        StaysShut(s, done, later);
      }
    } else {
      var other :| other in InFlight(s, hs);
      OtherCallReopens(s, done, probe, other, now);
      assert GoesOnUnaided(s, done, [EndsBadly(other, now)]);
    }
  }
}
