/**
 * packages/common/src/matching.ts: a filter of dotted paths, matched directly by the in-memory
 * driver and, once expanded, by structural containment (packages/storage/src/postgres.ts).
 */
module Matching {
  import opened Wrappers
  import opened Json

  datatype Value =
    | VNull | VBool(b: bool) | VNum(n: int) | VStr(s: Text)
    | VObj(fields: Fields) | VArr(items: seq<Value>)

  type Fields = map<Text, Value>
  type Path = seq<Text>

  datatype Condition = Condition(key: Text, expected: Value)

  predicate Scalar(v: Value) { !v.VObj? && !v.VArr? }

  const LENGTH: Text := [108, 101, 110, 103, 116, 104]

  /** `value[part]` on what `typeof` calls an object; anything else has no properties. */
  function Property(v: Value, part: Text): Option<Value> {
    match v
    case VObj(fields) => if part in fields then Some(fields[part]) else None
    case VArr(items) => if part == LENGTH then Some(VNum(|items|)) else Element(items, part, 0)
    case _ => None
  }

  function Element(items: seq<Value>, part: Text, i: nat): Option<Value>
    requires i <= |items|
    decreases |items| - i
  {
    if i == |items| then None else if part == Digits(i) then Some(items[i]) else Element(items, part, i + 1)
  }

  /** `path.split(".")`. */
  function Split(path: Text): (parts: Path)
    ensures parts != []
  {
    if path == [] then [[]]
    else
      var rest := Split(path[1..]);
      if path[0] == 46 then [[]] + rest else [[path[0]] + rest[0]] + rest[1..]
  }

  function Join(parts: Path): Text
    requires parts != []
  {
    if |parts| == 1 then parts[0] else parts[0] + [46] + Join(parts[1..])
  }

  lemma {:induction false} JoinSplit(path: Text)
    ensures Join(Split(path)) == path
  {
    if path != [] {
      JoinSplit(path[1..]);
      var rest := Split(path[1..]);
      if path[0] == 46 {
        assert ([[]] + rest)[1..] == rest;
      } else {
        var parts := [[path[0]] + rest[0]] + rest[1..];
        assert parts[1..] == rest[1..];
      }
      assert path == [path[0]] + path[1..];
    }
  }

  function Walk(v: Option<Value>, parts: Path): Option<Value>
    decreases |parts|
  {
    if parts == [] then v
    else Walk(if v.Some? then Property(v.value, parts[0]) else None, parts[1..])
  }

  function GetByPath(source: Value, path: Text): Option<Value> {
    if 46 !in path then Property(source, path) else Walk(Some(source), Split(path))
  }

  lemma {:induction false} NoDotSplit(path: Text)
    requires 46 !in path
    ensures Split(path) == [path]
  {
    if path != [] {
      NoDotSplit(path[1..]);
      assert path == [path[0]] + path[1..];
    }
  }

  lemma GetByPathWalks(source: Value, path: Text)
    ensures GetByPath(source, path) == Walk(Some(source), Split(path))
  {
    if 46 !in path {
      NoDotSplit(path);
    }
  }

  // --- the two readings of a filter --------------------------------------------------------

  ghost predicate Matches(subject: Value, filter: seq<Condition>) {
    forall i :: 0 <= i < |filter| ==> GetByPath(subject, filter[i].key) == Some(filter[i].expected)
  }

  method MatchesWhere(subject: Value, filter: seq<Condition>) returns (matched: bool)
    ensures matched <==> Matches(subject, filter)
  {
    for i := 0 to |filter|
      invariant forall j :: 0 <= j < i ==> GetByPath(subject, filter[j].key) == Some(filter[j].expected)
    {
      if GetByPath(subject, filter[i].key) != Some(filter[i].expected) {
        return false;
      }
    }
    return true;
  }

  /** Walking to `parts` from `nested`, replacing whatever is no object on the way, and writing there. */
  function Put(nested: Fields, parts: Path, value: Value): Fields
    requires parts != []
    decreases |parts|
  {
    if |parts| == 1 then nested[parts[0] := value]
    else
      var inner := if parts[0] in nested && nested[parts[0]].VObj? then nested[parts[0]].fields else map[];
      nested[parts[0] := VObj(Put(inner, parts[1..], value))]
  }

  function Expanded(flat: seq<Condition>): Fields {
    if flat == [] then map[]
    else Put(Expanded(flat[..|flat| - 1]), Split(flat[|flat| - 1].key), flat[|flat| - 1].expected)
  }

  method ExpandPaths(flat: seq<Condition>) returns (nested: Fields)
    ensures nested == Expanded(flat)
  {
    nested := map[];
    for i := 0 to |flat|
      invariant nested == Expanded(flat[..i])
    {
      assert flat[..i + 1][..i] == flat[..i];
      if 46 !in flat[i].key {
        NoDotSplit(flat[i].key);
        nested := nested[flat[i].key := flat[i].expected];
      } else {
        nested := Put(nested, Split(flat[i].key), flat[i].expected);
      }
    }
    assert flat[..|flat|] == flat;
  }

  /** Containment of JSON documents, as the `@>` operator decides it below the top level. */
  ghost predicate Contains(v: Value, pattern: Value)
    decreases pattern, 0
  {
    match pattern
    case VObj(fields) => v.VObj? && forall k :: k in fields ==> k in v.fields && Contains(v.fields[k], fields[k])
    case VArr(items) => v.VArr? && forall i :: 0 <= i < |items| ==> SomeContains(v.items, items[i])
    case _ => v == pattern
  }

  ghost predicate SomeContains(items: seq<Value>, pattern: Value)
    decreases pattern, 1
  {
    exists j :: 0 <= j < |items| && Contains(items[j], pattern)
  }

  // --- one path at a time ------------------------------------------------------------------

  /** Like `Walk`, but through objects only. */
  function ObjectWalk(v: Value, parts: Path): Option<Value>
    decreases |parts|
  {
    if parts == [] then Some(v)
    else if v.VObj? && parts[0] in v.fields then ObjectWalk(v.fields[parts[0]], parts[1..])
    else None
  }

  /** A proper prefix of the path leads to an array. */
  predicate CrossesArray(v: Value, parts: Path)
    decreases |parts|
  {
    parts != [] && (v.VArr? || (v.VObj? && parts[0] in v.fields && CrossesArray(v.fields[parts[0]], parts[1..])))
  }

  lemma {:induction false} WalkFromNothing(parts: Path)
    ensures Walk(None, parts) == None
  {
    if parts != [] {
      WalkFromNothing(parts[1..]);
    }
  }

  lemma {:induction false} WalkOutsideArrays(v: Value, parts: Path)
    requires !CrossesArray(v, parts)
    ensures Walk(Some(v), parts) == ObjectWalk(v, parts)
    decreases |parts|
  {
    if parts != [] {
      if v.VObj? && parts[0] in v.fields {
        WalkOutsideArrays(v.fields[parts[0]], parts[1..]);
      } else {
        WalkFromNothing(parts[1..]);
      }
    }
  }

  lemma {:induction false} ObjectWalkAvoidsArrays(v: Value, parts: Path)
    requires CrossesArray(v, parts)
    ensures ObjectWalk(v, parts) == None
    decreases |parts|
  {
    if v.VObj? {
      ObjectWalkAvoidsArrays(v.fields[parts[0]], parts[1..]);
    }
  }

  /** The path may be added to the tree without replacing or shadowing anything. */
  predicate Fits(nested: Fields, parts: Path)
    requires parts != []
    decreases |parts|
  {
    if |parts| == 1 then parts[0] !in nested
    else parts[0] in nested ==> nested[parts[0]].VObj? && Fits(nested[parts[0]].fields, parts[1..])
  }

  ghost predicate ContainsField(v: Value, fields: Fields, k: Text) {
    v.VObj? && k in fields && k in v.fields && Contains(v.fields[k], fields[k])
  }

  lemma ContainsByField(v: Value, fields: Fields)
    ensures Contains(v, VObj(fields)) <==> v.VObj? && forall k :: k in fields ==> ContainsField(v, fields, k)
  {
  }

  /** Adding a path to the pattern adds exactly that path's demand. */
  lemma {:induction false} ContainsPut(v: Value, nested: Fields, parts: Path, value: Value)
    requires parts != [] && Scalar(value) && Fits(nested, parts)
    ensures Contains(v, VObj(Put(nested, parts, value))) <==>
      Contains(v, VObj(nested)) && ObjectWalk(v, parts) == Some(value)
    decreases |parts|
  {
    var k, after := parts[0], Put(nested, parts, value);
    ContainsByField(v, nested);
    ContainsByField(v, after);
    forall x | x != k
      ensures (x in after <==> x in nested) && (ContainsField(v, after, x) <==> ContainsField(v, nested, x)) {}
    assert k in after;
    if |parts| == 1 {
      assert parts[1..] == [];
      assert ContainsField(v, after, k) <==> ObjectWalk(v, parts) == Some(value);
    } else {
      var inner := if k in nested && nested[k].VObj? then nested[k].fields else map[];
      if v.VObj? && k in v.fields {
        ContainsPut(v.fields[k], inner, parts[1..], value);
        if k !in nested && ObjectWalk(v.fields[k], parts[1..]) == Some(value) {
          EmptyPattern(v.fields[k], parts[1..], value);
        }
      }
    }
  }

  lemma EmptyPattern(v: Value, parts: Path, value: Value)
    requires parts != [] && ObjectWalk(v, parts) == Some(value)
    ensures Contains(v, VObj(map[]))
  {
  }

  predicate IsPrefix(a: Path, b: Path) {
    a == [] || (b != [] && a[0] == b[0] && IsPrefix(a[1..], b[1..]))
  }

  lemma {:induction false} FitsAfterPut(nested: Fields, q: Path, value: Value, parts: Path)
    requires q != [] && parts != [] && Scalar(value) && Fits(nested, q) && Fits(nested, parts)
    requires !IsPrefix(q, parts) && !IsPrefix(parts, q)
    ensures Fits(Put(nested, q, value), parts)
    decreases |parts|
  {
    if parts[0] == q[0] {
      assert |parts| > 1 && |q| > 1;
      var inner := if q[0] in nested && nested[q[0]].VObj? then nested[q[0]].fields else map[];
      FitsAfterPut(inner, q[1..], value, parts[1..]);
    }
  }

  // --- whole filters -----------------------------------------------------------------------

  ghost predicate Scalars(filter: seq<Condition>) {
    forall i :: 0 <= i < |filter| ==> Scalar(filter[i].expected)
  }

  ghost predicate DistinctKeys(filter: seq<Condition>) {
    forall i, j :: 0 <= i < j < |filter| ==> filter[i].key != filter[j].key
  }

  /** No dotted key is a prefix of another, part by part. */
  ghost predicate PrefixFree(filter: seq<Condition>) {
    forall i, j :: 0 <= i < |filter| && 0 <= j < |filter| && i != j ==>
      !IsPrefix(Split(filter[i].key), Split(filter[j].key))
  }

  ghost predicate WalksMatch(v: Value, filter: seq<Condition>) {
    forall i :: 0 <= i < |filter| ==> ObjectWalk(v, Split(filter[i].key)) == Some(filter[i].expected)
  }

  ghost predicate AvoidsArrays(v: Value, filter: seq<Condition>) {
    forall i :: 0 <= i < |filter| ==> !CrossesArray(v, Split(filter[i].key))
  }

  lemma {:induction false} ExpandedFits(filter: seq<Condition>, parts: Path)
    requires parts != [] && Scalars(filter) && PrefixFree(filter)
    requires forall i :: 0 <= i < |filter| ==>
      !IsPrefix(Split(filter[i].key), parts) && !IsPrefix(parts, Split(filter[i].key))
    ensures Fits(Expanded(filter), parts)
    decreases |filter|
  {
    if filter != [] {
      var init, last := filter[..|filter| - 1], filter[|filter| - 1];
      ExpandedFits(init, parts);
      ExpandedFits(init, Split(last.key));
      FitsAfterPut(Expanded(init), Split(last.key), last.expected, parts);
    } else if |parts| > 1 {
      assert parts[0] !in Expanded(filter);
    }
  }

  lemma PrefixFreeInit(filter: seq<Condition>)
    requires filter != [] && Scalars(filter) && PrefixFree(filter)
    ensures Scalars(filter[..|filter| - 1]) && PrefixFree(filter[..|filter| - 1])
    ensures Fits(Expanded(filter[..|filter| - 1]), Split(filter[|filter| - 1].key))
  {
    var init := filter[..|filter| - 1];
    forall i, j | 0 <= i < |init| && 0 <= j < |init| && i != j
      ensures !IsPrefix(Split(init[i].key), Split(init[j].key))
    {
      assert init[i] == filter[i] && init[j] == filter[j];
    }
    ExpandedFits(init, Split(filter[|filter| - 1].key));
  }

  lemma WalksMatchLast(v: Value, filter: seq<Condition>)
    requires filter != []
    ensures WalksMatch(v, filter) <==>
      WalksMatch(v, filter[..|filter| - 1])
        && ObjectWalk(v, Split(filter[|filter| - 1].key)) == Some(filter[|filter| - 1].expected)
  {
  }

  lemma {:induction false} ContainsExpanded(v: Value, filter: seq<Condition>)
    requires v.VObj? && Scalars(filter) && PrefixFree(filter)
    ensures Contains(v, VObj(Expanded(filter))) <==> WalksMatch(v, filter)
    decreases |filter|
  {
    if filter != [] {
      var init, last := filter[..|filter| - 1], filter[|filter| - 1];
      PrefixFreeInit(filter);
      WalksMatchLast(v, filter);
      ContainsExpanded(v, init);
      ContainsPut(v, Expanded(init), Split(last.key), last.expected);
    }
  }

  /**
   * On every object document, containment of the expanded filter is direct matching along paths
   * that cross no array. The order of the keys does not matter: it appears on neither side.
   */
  lemma ContainmentIsMatching(v: Value, filter: seq<Condition>)
    requires v.VObj? && Scalars(filter) && PrefixFree(filter)
    ensures Contains(v, VObj(Expanded(filter))) <==> Matches(v, filter) && AvoidsArrays(v, filter)
  {
    ContainsExpanded(v, filter);
    forall i | 0 <= i < |filter|
      ensures ObjectWalk(v, Split(filter[i].key)) == Some(filter[i].expected)
        <==> GetByPath(v, filter[i].key) == Some(filter[i].expected) && !CrossesArray(v, Split(filter[i].key))
    {
      GetByPathWalks(v, filter[i].key);
      if CrossesArray(v, Split(filter[i].key)) {
        ObjectWalkAvoidsArrays(v, Split(filter[i].key));
      } else {
        WalkOutsideArrays(v, Split(filter[i].key));
      }
    }
  }

  // --- exactly when the two forms agree ----------------------------------------------------

  ghost predicate ArrayFree(v: Value) {
    match v
    case VObj(fields) => forall k :: k in fields ==> ArrayFree(fields[k])
    case VArr(_) => false
    case _ => true
  }

  lemma {:induction false} ArrayFreeAvoids(v: Value, parts: Path)
    requires ArrayFree(v)
    ensures !CrossesArray(v, parts)
    decreases |parts|
  {
    if parts != [] && v.VObj? && parts[0] in v.fields {
      ArrayFreeAvoids(v.fields[parts[0]], parts[1..]);
    }
  }

  lemma {:induction false} ContainsItself(v: Value)
    ensures Contains(v, v)
  {
    match v
    case VObj(fields) =>
      forall k | k in fields ensures Contains(fields[k], fields[k]) { ContainsItself(fields[k]); }
    case VArr(items) =>
      forall i | 0 <= i < |items| ensures SomeContains(v.items, items[i]) {
        ContainsItself(items[i]);
      }
    case _ =>
  }

  lemma {:induction false} PutArrayFree(nested: Fields, parts: Path, value: Value)
    requires parts != [] && ArrayFree(VObj(nested)) && Scalar(value)
    ensures ArrayFree(VObj(Put(nested, parts, value)))
    decreases |parts|
  {
    if |parts| > 1 {
      var inner := if parts[0] in nested && nested[parts[0]].VObj? then nested[parts[0]].fields else map[];
      assert ArrayFree(VObj(inner));
      PutArrayFree(inner, parts[1..], value);
    }
  }

  lemma {:induction false} ExpandedArrayFree(filter: seq<Condition>)
    requires Scalars(filter)
    ensures ArrayFree(VObj(Expanded(filter)))
    decreases |filter|
  {
    if filter != [] {
      ExpandedArrayFree(filter[..|filter| - 1]);
      PutArrayFree(Expanded(filter[..|filter| - 1]), Split(filter[|filter| - 1].key), filter[|filter| - 1].expected);
    }
  }

  /** A scalar found at the end of a path leaves nothing further along it. */
  lemma {:induction false} NothingBelowScalar(v: Option<Value>, short: Path, long: Path)
    requires IsPrefix(short, long) && short != long
    requires Walk(v, short).Some? && Scalar(Walk(v, short).value)
    ensures Walk(v, long) == None
    decreases |long|
  {
    if short == [] {
      WalkFromNothing(long[1..]);
    } else {
      assert short == [short[0]] + short[1..] && long == [long[0]] + long[1..];
      NothingBelowScalar(if v.Some? then Property(v.value, short[0]) else None, short[1..], long[1..]);
    }
  }

  lemma ConflictNeverMatches(v: Value, filter: seq<Condition>, i: nat, j: nat)
    requires Scalars(filter) && DistinctKeys(filter) && i < |filter| && j < |filter| && i != j
    requires IsPrefix(Split(filter[i].key), Split(filter[j].key))
    ensures !Matches(v, filter)
  {
    JoinSplit(filter[i].key);
    JoinSplit(filter[j].key);
    assert filter[i].key != filter[j].key;
    GetByPathWalks(v, filter[i].key);
    GetByPathWalks(v, filter[j].key);
    if Matches(v, filter) {
      NothingBelowScalar(Some(v), Split(filter[i].key), Split(filter[j].key));
    }
  }

  ghost predicate FormsAgreeOn(v: Value, filter: seq<Condition>) {
    Contains(v, VObj(Expanded(filter))) <==> Matches(v, filter)
  }

  /** The two forms agree on all documents without arrays exactly for prefix-free filters. */
  lemma FormsAgreeExactly(filter: seq<Condition>)
    requires Scalars(filter) && DistinctKeys(filter)
    ensures PrefixFree(filter) <==> forall v: Value :: v.VObj? && ArrayFree(v) ==> FormsAgreeOn(v, filter)
  {
    if PrefixFree(filter) {
      forall v: Value | v.VObj? && ArrayFree(v) ensures FormsAgreeOn(v, filter) {
        ContainmentIsMatching(v, filter);
        forall i | 0 <= i < |filter| ensures !CrossesArray(v, Split(filter[i].key)) {
          ArrayFreeAvoids(v, Split(filter[i].key));
        }
      }
    } else {
      var i, j :| 0 <= i < |filter| && 0 <= j < |filter| && i != j
        && IsPrefix(Split(filter[i].key), Split(filter[j].key));
      var v := VObj(Expanded(filter));
      ContainsItself(v);
      ExpandedArrayFree(filter);
      ConflictNeverMatches(v, filter, i, j);
      assert !FormsAgreeOn(v, filter);
    }
  }

  /** A path through an array: matched directly, never contained. */
  lemma ArrayPathsDisagree(name: Text, item: Value)
    requires 46 !in name && Scalar(item)
    ensures
      var doc := VObj(map[name := VArr([item])]);
      var filter := [Condition(name + [46, 48], item)];
      Matches(doc, filter) && !Contains(doc, VObj(Expanded(filter)))
  {
    var doc := VObj(map[name := VArr([item])]);
    var filter := [Condition(name + [46, 48], item)];
    SplitTwo(name, [48]);
    assert name + [46, 48] == name + [46] + [48];
    assert Digits(0) == [48];
    GetByPathWalks(doc, filter[0].key);
    var parts: Path := [name, [48]];
    assert parts[1..] == [[48]];
    assert Walk(Some(doc), parts) == Walk(Some(VArr([item])), [[48]]);
    assert Walk(Some(VArr([item])), [[48]]) == Walk(Some(item), []);
    assert CrossesArray(doc, parts);
    ContainmentIsMatching(doc, filter);
    assert !AvoidsArrays(doc, filter);
  }

  lemma {:induction false} SplitTwo(a: Text, b: Text)
    requires 46 !in a && 46 !in b
    ensures Split(a + [46] + b) == [a, b]
  {
    if a == [] {
      NoDotSplit(b);
      assert (a + [46] + b)[1..] == b;
    } else {
      SplitTwo(a[1..], b);
      assert (a + [46] + b)[1..] == a[1..] + [46] + b;
      assert a == [a[0]] + a[1..];
    }
  }
}
