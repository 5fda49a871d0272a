/**
 * Which filters, of several keys together, can be matched through an array; the rest agree on every
 * object document.
 */
module ArrayFilters {
  import opened Wrappers
  import opened Json
  import opened Matching

  /** A path and the scalar a document is to hold there. */
  datatype Demand = Demand(parts: Path, value: Value)

  ghost predicate Meets(v: Value, ds: set<Demand>) {
    forall d :: d in ds ==> Walk(Some(v), d.parts) == Some(d.value)
  }

  ghost predicate Crosses(v: Value, ds: set<Demand>) {
    exists d :: d in ds && CrossesArray(v, d.parts)
  }

  ghost predicate Free(ds: set<Demand>) {
    forall d, e :: d in ds && e in ds && d != e ==> !IsPrefix(d.parts, e.parts)
  }

  ghost predicate Bounded(ds: set<Demand>, n: nat) {
    forall d :: d in ds ==> |d.parts| <= n
  }

  ghost predicate ScalarDemands(ds: set<Demand>) { forall d :: d in ds ==> Scalar(d.value) }

  /** What is demanded below one property. */
  ghost function Below(ds: set<Demand>, x: Text): set<Demand> {
    set d | d in ds && d.parts != [] && d.parts[0] == x :: Demand(d.parts[1..], d.value)
  }

  ghost function Firsts(ds: set<Demand>): set<Text> {
    set d | d in ds && d.parts != [] :: d.parts[0]
  }

  lemma BelowKeeps(ds: set<Demand>, x: Text, n: nat)
    requires Free(ds) && Bounded(ds, n + 1)
    ensures Free(Below(ds, x)) && Bounded(Below(ds, x), n)
  {
    forall d, e | d in Below(ds, x) && e in Below(ds, x) && d != e ensures !IsPrefix(d.parts, e.parts) {
      var d0 :| d0 in ds && d0.parts != [] && d0.parts[0] == x && d == Demand(d0.parts[1..], d0.value);
      var e0 :| e0 in ds && e0.parts != [] && e0.parts[0] == x && e == Demand(e0.parts[1..], e0.value);
      assert !IsPrefix(d0.parts, e0.parts);
      assert d0.parts == [x] + d.parts && e0.parts == [x] + e.parts;
    }
  }

  lemma MeetsBelow(v: Value, ds: set<Demand>, x: Text)
    requires v.VObj? && Meets(v, ds) && x in v.fields
    ensures Meets(v.fields[x], Below(ds, x))
  {
  }

  // --- a document for any demands free of prefixes -----------------------------------------

  ghost predicate SomeEnds(ds: set<Demand>) { exists d :: d in ds && d.parts == [] }

  ghost function Nested(ds: set<Demand>, n: nat): Value
    decreases n
  {
    if SomeEnds(ds) then
      var d :| d in ds && d.parts == []; d.value
    else if n == 0 then VObj(map[])
    else VObj(map x | x in Firsts(ds) :: Nested(Below(ds, x), n - 1))
  }

  /** An object meets demands that do not end at it if each field meets what is demanded below it. */
  lemma FieldsMeet(v: Value, ds: set<Demand>)
    requires v.VObj? && !SomeEnds(ds)
    requires forall x :: x in Firsts(ds) ==> x in v.fields && Meets(v.fields[x], Below(ds, x))
    ensures Meets(v, ds)
  {
    forall d | d in ds ensures Walk(Some(v), d.parts) == Some(d.value) {
      var x := d.parts[0];
      assert x in Firsts(ds) && Demand(d.parts[1..], d.value) in Below(ds, x);
    }
  }

  lemma {:induction false} NestedMeets(ds: set<Demand>, n: nat)
    requires Free(ds) && Bounded(ds, n)
    ensures Meets(Nested(ds, n), ds)
    decreases n
  {
    if SomeEnds(ds) {
      EndIsAlone(ds);
    } else if n > 0 {
      forall x | x in Firsts(ds) ensures Meets(Nested(Below(ds, x), n - 1), Below(ds, x)) {
        BelowKeeps(ds, x, n - 1);
        NestedMeets(Below(ds, x), n - 1);
      }
      FieldsMeet(Nested(ds, n), ds);
    }
  }

  lemma EndIsAlone(ds: set<Demand>)
    requires Free(ds) && SomeEnds(ds)
    ensures forall d, e :: d in ds && e in ds ==> d == e
    ensures forall d :: d in ds ==> d.parts == []
  {
    var end :| end in ds && end.parts == [];
    forall d | d in ds ensures d == end {
      assert IsPrefix(end.parts, d.parts);
    }
  }

  // --- demands an array can meet -----------------------------------------------------------

  predicate AsksLength(d: Demand) { d.parts == [LENGTH] && d.value.VNum? && d.value.n >= 0 }

  ghost predicate AsksIndex(d: Demand, i: nat) { d.parts != [] && d.parts[0] == Digits(i) }

  /** Each asks for an index or for the length, and no index lies beyond a length asked for. */
  ghost predicate ArrayFits(ds: set<Demand>) {
    && ds != {}
    && (forall d :: d in ds ==> AsksLength(d) || exists i: nat :: AsksIndex(d, i))
    && (forall d, e, i: nat :: d in ds && e in ds && AsksLength(d) && AsksIndex(e, i) ==> i < d.value.n)
  }

  lemma {:induction false} ElementIsIndexed(items: seq<Value>, part: Text, i: nat)
    requires i <= |items| && Element(items, part, i).Some?
    ensures exists n: nat :: part == Digits(n)
    decreases |items| - i
  {
    if part != Digits(i) {
      ElementIsIndexed(items, part, i + 1);
    }
  }

  lemma {:induction false} ElementAt(items: seq<Value>, n: nat, i: nat)
    requires i <= n < |items|
    ensures Element(items, Digits(n), i) == Some(items[n])
    decreases n - i
  {
    if i < n {
      if Digits(i) == Digits(n) {
        DigitsInjective(i, n);
      }
      ElementAt(items, n, i + 1);
    }
  }

  lemma DigitsAreNotLength(i: nat)
    ensures Digits(i) != LENGTH
  {
    assert IsDigit(Digits(i)[0]) && !IsDigit(LENGTH[0]);
  }

  lemma OneIndex(d: Demand, i: nat, j: nat)
    requires AsksIndex(d, i) && AsksIndex(d, j)
    ensures i == j
  {
    DigitsInjective(i, j);
  }

  /** A length beyond every index asked for. */
  lemma {:induction false} IndexBound(ds: set<Demand>) returns (m: nat)
    ensures forall d, i: nat :: d in ds && AsksIndex(d, i) ==> i < m
    decreases |ds|
  {
    if ds == {} {
      m := 0;
    } else {
      var d :| d in ds;
      var rest := IndexBound(ds - {d});
      if j: nat :| AsksIndex(d, j) {
        m := if j < rest then rest else j + 1;
        forall e, i: nat | e in ds && AsksIndex(e, i) ensures i < m {
          if e == d {
            OneIndex(d, i, j);
          } else {
            assert e in ds - {d};
          }
        }
      } else {
        m := rest;
        forall e, i: nat | e in ds && AsksIndex(e, i) ensures i < m {
          assert e in ds - {d};
        }
      }
    }
  }

  lemma ArrayLength(ds: set<Demand>) returns (m: nat)
    requires Free(ds) && ArrayFits(ds)
    ensures forall d, i: nat :: d in ds && AsksIndex(d, i) ==> i < m
    ensures forall d :: d in ds && AsksLength(d) ==> d.value.n == m
  {
    if d :| d in ds && AsksLength(d) {
      m := d.value.n;
      forall e | e in ds && AsksLength(e) ensures e.value.n == m {
        assert e != d ==> !IsPrefix(d.parts, e.parts);
        assert IsPrefix(d.parts, e.parts);
      }
    } else {
      m := IndexBound(ds);
    }
  }

  lemma ArrayDocument(ds: set<Demand>, n: nat) returns (v: Value)
    requires Free(ds) && Bounded(ds, n + 1) && ArrayFits(ds)
    ensures v.VArr? && Meets(v, ds)
  {
    var m := ArrayLength(ds);
    var items := seq(m, i requires 0 <= i < m => Nested(Below(ds, Digits(i)), n));
    v := VArr(items);
    forall d | d in ds ensures Walk(Some(v), d.parts) == Some(d.value) {
      if AsksLength(d) {
        assert d.parts[1..] == [];
      } else {
        var i: nat :| AsksIndex(d, i);
        DigitsAreNotLength(i);
        ElementAt(items, i, 0);
        BelowKeeps(ds, Digits(i), n);
        NestedMeets(Below(ds, Digits(i)), n);
        assert Demand(d.parts[1..], d.value) in Below(ds, Digits(i));
      }
    }
  }

  // --- when some document is matched through an array --------------------------------------

  /** Somewhere below the document's own properties an array meets everything demanded there. */
  ghost predicate ReadableTogether(ds: set<Demand>, n: nat)
    decreases n
  {
    n > 0 && exists x :: x in Firsts(ds) && (ArrayFits(Below(ds, x)) || ReadableTogether(Below(ds, x), n - 1))
  }

  lemma {:induction false} CrossingDocument(ds: set<Demand>, n: nat) returns (v: Value)
    requires Free(ds) && Bounded(ds, n) && ReadableTogether(ds, n)
    ensures v.VObj? && Meets(v, ds) && Crosses(v, ds)
    decreases n
  {
    var x :| x in Firsts(ds) && (ArrayFits(Below(ds, x)) || ReadableTogether(Below(ds, x), n - 1));
    BelowKeeps(ds, x, n - 1);
    var inner;
    if ArrayFits(Below(ds, x)) {
      assert Bounded(Below(ds, x), n - 1 + 1);
      inner := ArrayDocument(Below(ds, x), n - 1);
    } else {
      inner := CrossingDocument(Below(ds, x), n - 1);
    }
    v := WithField(ds, n, x, inner);
    AroundInner(ds, n, x, inner);
  }

  lemma AroundInner(ds: set<Demand>, n: nat, x: Text, inner: Value)
    requires n > 0 && Free(ds) && Bounded(ds, n) && x in Firsts(ds) && Meets(inner, Below(ds, x)) && Below(ds, x) != {}
    requires if inner.VArr? then forall d :: d in Below(ds, x) ==> d.parts != [] else Crosses(inner, Below(ds, x))
    ensures Meets(WithField(ds, n, x, inner), ds) && Crosses(WithField(ds, n, x, inner), ds)
  {
    NobodyEnds(ds, x);
    WithFieldMeets(ds, n, x, inner);
    CrossesInside(ds, x, inner, WithField(ds, n, x, inner));
  }

  lemma NobodyEnds(ds: set<Demand>, x: Text)
    requires Free(ds) && x in Firsts(ds)
    ensures !SomeEnds(ds)
  {
    if SomeEnds(ds) {
      EndIsAlone(ds);
      assert false;
    }
  }

  ghost function WithField(ds: set<Demand>, n: nat, x: Text, inner: Value): Value
    requires n > 0
  {
    VObj((map y | y in Firsts(ds) :: Nested(Below(ds, y), n - 1))[x := inner])
  }

  lemma WithFieldMeets(ds: set<Demand>, n: nat, x: Text, inner: Value)
    requires n > 0 && Free(ds) && Bounded(ds, n) && !SomeEnds(ds) && Meets(inner, Below(ds, x))
    ensures Meets(WithField(ds, n, x, inner), ds)
  {
    forall y | y in Firsts(ds) ensures Meets(Nested(Below(ds, y), n - 1), Below(ds, y)) {
      BelowKeeps(ds, y, n - 1);
      NestedMeets(Below(ds, y), n - 1);
    }
    FieldsMeet(WithField(ds, n, x, inner), ds);
  }

  lemma CrossesInside(ds: set<Demand>, x: Text, inner: Value, v: Value)
    requires v.VObj? && x in v.fields && v.fields[x] == inner && Below(ds, x) != {}
    requires inner.VArr? ==> forall d :: d in Below(ds, x) ==> d.parts != []
    requires inner.VArr? || Crosses(inner, Below(ds, x))
    ensures Crosses(v, ds)
  {
    var e :| e in Below(ds, x) && CrossesArray(inner, e.parts);
    var d :| d in ds && d.parts != [] && d.parts[0] == x && e == Demand(d.parts[1..], d.value);
    assert CrossesArray(v, d.parts);
  }

  /** An array that meets scalar demands fits them. */
  lemma MeetingArrayFits(v: Value, ds: set<Demand>)
    requires v.VArr? && Meets(v, ds) && ds != {} && ScalarDemands(ds)
    ensures ArrayFits(ds)
  {
    forall d | d in ds ensures d.parts != [] && (AsksLength(d) || exists i: nat :: AsksIndex(d, i)) {
      AskedOfArray(v, d);
    }
    forall d, e, i: nat | d in ds && e in ds && AsksLength(d) && AsksIndex(e, i) ensures i < d.value.n {
      LengthMet(v, d);
      DigitsAreNotLength(i);
      IndexWithin(v, e, i);
    }
  }

  lemma LengthMet(v: Value, d: Demand)
    requires v.VArr? && AsksLength(d) && Walk(Some(v), d.parts) == Some(d.value)
    ensures d.value == VNum(|v.items|)
  {
    assert d.parts[1..] == [];
    assert Walk(Some(v), d.parts) == Walk(Property(v, LENGTH), []);
  }

  lemma AskedOfArray(v: Value, d: Demand)
    requires v.VArr? && Walk(Some(v), d.parts) == Some(d.value) && Scalar(d.value)
    ensures d.parts != [] && (AsksLength(d) || exists i: nat :: AsksIndex(d, i))
  {
    var next := Property(v, d.parts[0]);
    if next.None? {
      WalkFromNothing(d.parts[1..]);
    } else if d.parts[0] == LENGTH {
      if d.parts[1..] != [] {
        WalkFromNothing(d.parts[1..][1..]);
      }
      assert d.parts == [d.parts[0]] + d.parts[1..];
    } else {
      ElementIsIndexed(v.items, d.parts[0], 0);
      var i: nat :| d.parts[0] == Digits(i);
      assert AsksIndex(d, i);
    }
  }

  lemma IndexWithin(v: Value, e: Demand, i: nat)
    requires v.VArr? && AsksIndex(e, i) && e.parts[0] != LENGTH && Walk(Some(v), e.parts) == Some(e.value)
    ensures i < |v.items|
  {
    if Element(v.items, e.parts[0], 0).None? {
      WalkFromNothing(e.parts[1..]);
    } else {
      FoundWithin(v.items, i, 0);
    }
  }

  lemma {:induction false} FoundWithin(items: seq<Value>, i: nat, from: nat)
    requires from <= |items| && Element(items, Digits(i), from).Some?
    ensures i < |items|
    decreases |items| - from
  {
    if Digits(i) == Digits(from) {
      DigitsInjective(i, from);
    } else {
      FoundWithin(items, i, from + 1);
    }
  }

  lemma {:induction false} CrossingMeansReadable(v: Value, ds: set<Demand>, n: nat, d: Demand)
    requires v.VObj? && Meets(v, ds) && ScalarDemands(ds) && Bounded(ds, n)
    requires d in ds && CrossesArray(v, d.parts)
    ensures ReadableTogether(ds, n)
    decreases n
  {
    var x := d.parts[0];
    var inner, tail := v.fields[x], Demand(d.parts[1..], d.value);
    assert x in Firsts(ds) && tail in Below(ds, x);
    MeetsBelow(v, ds, x);
    if inner.VArr? {
      MeetingArrayFits(inner, Below(ds, x));
    } else {
      CrossingMeansReadable(inner, Below(ds, x), n - 1, tail);
    }
  }

  // --- filters -----------------------------------------------------------------------------

  ghost function DemandsOf(filter: seq<Condition>): set<Demand> {
    set i | 0 <= i < |filter| :: Demand(Split(filter[i].key), filter[i].expected)
  }

  /** At least as long as every path. */
  ghost function Depth(filter: seq<Condition>): nat {
    if filter == [] then 0 else Depth(filter[..|filter| - 1]) + |Split(filter[|filter| - 1].key)|
  }

  lemma {:induction false} DepthBounds(filter: seq<Condition>)
    ensures Bounded(DemandsOf(filter), Depth(filter))
  {
    if filter != [] {
      var init := filter[..|filter| - 1];
      DepthBounds(init);
      forall d | d in DemandsOf(filter) ensures |d.parts| <= Depth(filter) {
        var i :| 0 <= i < |filter| && d == Demand(Split(filter[i].key), filter[i].expected);
        if i < |init| {
          assert filter[i] == init[i] && d in DemandsOf(init);
        }
      }
    }
  }

  lemma DemandsMatch(v: Value, filter: seq<Condition>)
    ensures Matches(v, filter) <==> Meets(v, DemandsOf(filter))
    ensures AvoidsArrays(v, filter) <==> !Crosses(v, DemandsOf(filter))
  {
    forall i | 0 <= i < |filter|
      ensures Demand(Split(filter[i].key), filter[i].expected) in DemandsOf(filter)
      ensures GetByPath(v, filter[i].key) == Walk(Some(v), Split(filter[i].key))
    {
      GetByPathWalks(v, filter[i].key);
    }
  }

  lemma DemandsFree(filter: seq<Condition>)
    requires PrefixFree(filter)
    ensures Free(DemandsOf(filter))
  {
    forall d, e | d in DemandsOf(filter) && e in DemandsOf(filter) && d != e ensures !IsPrefix(d.parts, e.parts) {
      var i :| 0 <= i < |filter| && d == Demand(Split(filter[i].key), filter[i].expected);
      var j :| 0 <= j < |filter| && e == Demand(Split(filter[j].key), filter[j].expected);
      assert i != j;
    }
  }

  /** Read off the keys and expected values alone: some array could stand where the keys below it all can be read. */
  ghost predicate ReadableThroughArray(filter: seq<Condition>) {
    ReadableTogether(DemandsOf(filter), Depth(filter))
  }

  /**
   * The two forms agree on all object documents, arrays included, if and only if no dotted key is a
   * prefix of another and no array could meet all the keys that would lead through it.
   */
  lemma FormsAgreeOnAllObjectsExactly(filter: seq<Condition>)
    requires Scalars(filter) && DistinctKeys(filter)
    ensures PrefixFree(filter) && !ReadableThroughArray(filter) <==>
      forall v: Value :: v.VObj? ==> FormsAgreeOn(v, filter)
  {
    var ds, n := DemandsOf(filter), Depth(filter);
    DepthBounds(filter);
    if !PrefixFree(filter) {
      FormsAgreeExactly(filter);
    } else if ReadableThroughArray(filter) {
      DemandsFree(filter);
      var v := CrossingDocument(ds, n);
      DemandsMatch(v, filter);
      ContainmentIsMatching(v, filter);
      assert !FormsAgreeOn(v, filter);
    } else {
      forall v: Value | v.VObj? ensures FormsAgreeOn(v, filter) {
        DemandsMatch(v, filter);
        ContainmentIsMatching(v, filter);
        if Matches(v, filter) && Crosses(v, ds) {
          var d :| d in ds && CrossesArray(v, d.parts);
          CrossingMeansReadable(v, ds, n, d);
        }
      }
    }
  }
}
