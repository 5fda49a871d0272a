/**
 * `canonicalJson` (packages/audit/src/ledger.ts): keys sorted at every depth by UTF-16 code unit
 * (section 3.2.3 of RFC 8785), undefined members dropped.
 */
module CanonicalJson {
  import opened Json
  import opened JsonTree

  // --- key order ---------------------------------------------------------------------------

  /** JavaScript's `<` on strings. */
  predicate Less(a: Text, b: Text) {
    if b == [] then false
    else if a == [] then true
    else a[0] < b[0] || (a[0] == b[0] && Less(a[1..], b[1..]))
  }

  lemma {:induction false} LessTotal(a: Text, b: Text)
    ensures a == b || Less(a, b) || Less(b, a)
    ensures !(Less(a, b) && Less(b, a)) && !Less(a, a)
    decreases |a|
  {
    if a != [] {
      LessTotal(a[1..], a[1..]);
      if b != [] {
        LessTotal(a[1..], b[1..]);
        assert a == [a[0]] + a[1..] && b == [b[0]] + b[1..];
      }
    }
  }

  lemma {:induction false} LessTransitive(a: Text, b: Text, c: Text)
    requires Less(a, b) && Less(b, c)
    ensures Less(a, c)
    decreases |a|
  {
    if a != [] && a[0] == b[0] == c[0] {
      LessTransitive(a[1..], b[1..], c[1..]);
    }
  }

  ghost predicate Ascending(ms: seq<Member>) {
    forall i, j :: 0 <= i < j < |ms| ==> Less(ms[i].key, ms[j].key)
  }

  ghost predicate DistinctNames(ms: seq<Member>) {
    forall i, j :: 0 <= i < j < |ms| ==> ms[i].key != ms[j].key
  }

  function Insert(m: Member, sorted: seq<Member>): (r: seq<Member>)
    ensures forall x :: x in r <==> x == m || x in sorted
    ensures |r| == |sorted| + 1
  {
    if sorted == [] then [m]
    else if Less(sorted[0].key, m.key) then
      var rest := Insert(m, sorted[1..]);
      assert sorted == [sorted[0]] + sorted[1..];
      [sorted[0]] + rest
    else [m] + sorted
  }

  function SortMembers(ms: seq<Member>): (r: seq<Member>)
    ensures forall x :: x in r <==> x in ms
    ensures |r| == |ms|
  {
    if ms == [] then [] else
      assert ms == [ms[0]] + ms[1..];
      Insert(ms[0], SortMembers(ms[1..]))
  }

  lemma {:induction false} InsertAscends(m: Member, sorted: seq<Member>)
    requires Ascending(sorted) && forall x :: x in sorted ==> x.key != m.key
    ensures Ascending(Insert(m, sorted))
  {
    if sorted != [] {
      if Less(sorted[0].key, m.key) {
        var rest := Insert(m, sorted[1..]);
        InsertAscends(m, sorted[1..]);
        forall j | 0 <= j < |rest| ensures Less(sorted[0].key, rest[j].key) {
          assert rest[j] in rest;
          if rest[j] != m {
            var k :| 0 <= k < |sorted[1..]| && sorted[1..][k] == rest[j];
            assert sorted[k + 1] == rest[j];
          }
        }
      } else {
        LessTotal(m.key, sorted[0].key);
        assert sorted[0] in sorted;
        forall j | 0 <= j < |sorted| ensures Less(m.key, sorted[j].key) {
          if j > 0 {
            LessTransitive(m.key, sorted[0].key, sorted[j].key);
          }
        }
      }
    }
  }

  lemma {:induction false} SortAscends(ms: seq<Member>)
    requires DistinctNames(ms)
    ensures Ascending(SortMembers(ms))
  {
    if ms != [] {
      SortAscends(ms[1..]);
      forall x | x in SortMembers(ms[1..]) ensures x.key != ms[0].key {
        var k :| 0 <= k < |ms[1..]| && ms[1..][k] == x;
        assert ms[k + 1] == x;
      }
      InsertAscends(ms[0], SortMembers(ms[1..]));
    }
  }

  // --- the serialiser ----------------------------------------------------------------------

  function Defined(ms: seq<Member>): (r: seq<Member>)
    ensures forall x :: x in r <==> x in ms && !x.value.Undefined?
  {
    if ms == [] then [] else
      assert ms == [ms[0]] + ms[1..];
      (if ms[0].value.Undefined? then [] else [ms[0]]) + Defined(ms[1..])
  }

  function Canonical(v: Json): Text
    decreases v, 0
  {
    match v
    case Undefined => NULL
    case Null => NULL
    case Bool(b) => if b then TRUE else FALSE
    case Num(n) => Decimal(n)
    case Str(s) => Quote(s)
    case Arr(items) => [91] + CanonicalItems(items) + [93]
    case Obj(members) => [123] + CanonicalMembers(v, SortMembers(Defined(members))) + [125]
  }

  function CanonicalItems(items: seq<Json>): Text
    decreases items, 1
  {
    if items == [] then []
    else if |items| == 1 then Canonical(items[0])
    else Canonical(items[0]) + [44] + CanonicalItems(items[1..])
  }

  function CanonicalMembers(v: Json, sorted: seq<Member>): Text
    requires v.Obj? && forall m :: m in sorted ==> m in v.members
    decreases v, 0, |sorted|
  {
    if sorted == [] then []
    else
      var m := sorted[0];
      assert m in sorted;
      var head := Quote(m.key) + [58] + Canonical(m.value);
      if |sorted| == 1 then head else head + [44] + CanonicalMembers(v, sorted[1..])
  }

  /** The literals are those of RFC 8259. */
  lemma LiteralsAre()
    ensures Canonical(Null) == Units("null") && Canonical(Bool(true)) == Units("true")
    ensures Canonical(Bool(false)) == Units("false") && Canonical(Undefined) == Units("null")
  {
  }

  /** And so is the punctuation. */
  lemma ShapesAre(a: Json, b: Json, key: Text)
    ensures Canonical(Arr([a, b])) == Units("[") + (Canonical(a) + Units(",") + Canonical(b)) + Units("]")
    ensures !a.Undefined? ==>
      Canonical(Obj([Member(key, a)])) == Units("{") + (Quote(key) + Units(":") + Canonical(a)) + Units("}")
    ensures Quote(key) == Units("\"") + Escape(key) + Units("\"")
  {
    TwoItems(a, b);
    if !a.Undefined? {
      OneMember(key, a);
    }
  }

  lemma TwoItems(a: Json, b: Json)
    ensures CanonicalItems([a, b]) == Canonical(a) + Units(",") + Canonical(b)
  {
    assert [a, b][1..] == [b];
  }

  lemma OneMember(key: Text, a: Json)
    requires !a.Undefined?
    ensures Canonical(Obj([Member(key, a)])) == Units("{") + (Quote(key) + Units(":") + Canonical(a)) + Units("}")
  {
    var ms := [Member(key, a)];
    assert ms[1..] == [] && Defined(ms) == ms && SortMembers(ms) == ms;
  }

  // --- what a value means once order and undefined members are forgotten -------------------

  datatype Plain = PNull | PBool(b: bool) | PNum(n: int) | PStr(s: Text) | PArr(items: seq<Plain>)
    | PObj(m: map<Text, Plain>)

  function Meaning(v: Json): Plain
    decreases v, 0
  {
    match v
    case Undefined => PNull
    case Null => PNull
    case Bool(b) => PBool(b)
    case Num(n) => PNum(n)
    case Str(s) => PStr(s)
    case Arr(items) => PArr(ItemsMeaning(items))
    case Obj(members) => PObj(MembersMeaning(members))
  }

  function ItemsMeaning(items: seq<Json>): (r: seq<Plain>)
    ensures |r| == |items|
    decreases items, 1
  {
    if items == [] then [] else [Meaning(items[0])] + ItemsMeaning(items[1..])
  }

  function MembersMeaning(ms: seq<Member>): map<Text, Plain>
    decreases ms, 1
  {
    if ms == [] then map[]
    else
      var rest := MembersMeaning(ms[1..]);
      if ms[0].value.Undefined? then rest else rest[ms[0].key := Meaning(ms[0].value)]
  }

  /** JavaScript objects hold each key once. */
  ghost predicate Wellformed(v: Json)
    decreases v, 0
  {
    match v
    case Arr(items) => forall i :: 0 <= i < |items| ==> Wellformed(items[i])
    case Obj(members) => DistinctNames(members) && forall i :: 0 <= i < |members| ==> Wellformed(members[i].value)
    case _ => true
  }

  // --- the tree behind the text ------------------------------------------------------------

  function Normal(v: Json): Tree
    decreases v, 0
  {
    match v
    case Undefined => TNull
    case Null => TNull
    case Bool(b) => TBool(b)
    case Num(n) => TNum(n)
    case Str(s) => TStr(s)
    case Arr(items) => TArr(NormalItems(items))
    case Obj(members) => TObj(NormalMembers(v, SortMembers(Defined(members))))
  }

  function NormalItems(items: seq<Json>): (r: seq<Tree>)
    ensures |r| == |items|
    decreases items, 1
  {
    if items == [] then [] else [Normal(items[0])] + NormalItems(items[1..])
  }

  function NormalMembers(v: Json, sorted: seq<Member>): (r: seq<Entry>)
    requires v.Obj? && forall m :: m in sorted ==> m in v.members
    ensures |r| == |sorted| && forall i :: 0 <= i < |r| ==> r[i].key == sorted[i].key
    decreases v, 0, |sorted|
  {
    if sorted == [] then []
    else
      assert sorted[0] in sorted;
      [Entry(sorted[0].key, Normal(sorted[0].value))] + NormalMembers(v, sorted[1..])
  }

  lemma {:induction false} NormalMembersAt(v: Json, sorted: seq<Member>, i: nat)
    requires v.Obj? && (forall m :: m in sorted ==> m in v.members) && i < |sorted|
    ensures NormalMembers(v, sorted)[i] == Entry(sorted[i].key, Normal(sorted[i].value))
    decreases |sorted|
  {
    if i > 0 {
      NormalMembersAt(v, sorted[1..], i - 1);
    }
  }

  /** The serialiser prints the normal tree. */
  lemma {:induction false} CanonicalPrintsNormal(v: Json)
    ensures Canonical(v) == Print(Normal(v))
    decreases v, 0
  {
    match v
    case Arr(items) => CanonicalPrintsItems(items);
    case Obj(members) => CanonicalPrintsMembers(v, SortMembers(Defined(members)));
    case _ =>
  }

  lemma {:induction false} CanonicalPrintsItems(items: seq<Json>)
    ensures CanonicalItems(items) == PrintItems(NormalItems(items))
    decreases items, 1
  {
    if items != [] {
      CanonicalPrintsNormal(items[0]);
      CanonicalPrintsItems(items[1..]);
      assert NormalItems(items)[1..] == NormalItems(items[1..]);
    }
  }

  lemma {:induction false} CanonicalPrintsMembers(v: Json, sorted: seq<Member>)
    requires v.Obj? && forall m :: m in sorted ==> m in v.members
    ensures CanonicalMembers(v, sorted) == PrintEntries(NormalMembers(v, sorted))
    decreases v, 0, |sorted|
  {
    if sorted != [] {
      assert sorted[0] in sorted;
      CanonicalPrintsNormal(sorted[0].value);
      CanonicalPrintsMembers(v, sorted[1..]);
      assert NormalMembers(v, sorted)[1..] == NormalMembers(v, sorted[1..]);
    }
  }

  // --- trees with ascending keys carry their meaning uniquely ------------------------------

  function TreeMeaning(t: Tree): Plain
    decreases t, 0
  {
    match t
    case TNull => PNull
    case TBool(b) => PBool(b)
    case TNum(n) => PNum(n)
    case TStr(s) => PStr(s)
    case TArr(items) => PArr(TreesMeaning(items))
    case TObj(entries) => PObj(EntriesMeaning(entries))
  }

  function TreesMeaning(items: seq<Tree>): (r: seq<Plain>)
    ensures |r| == |items|
    decreases items, 1
  {
    if items == [] then [] else [TreeMeaning(items[0])] + TreesMeaning(items[1..])
  }

  function EntriesMeaning(entries: seq<Entry>): map<Text, Plain>
    decreases entries, 1
  {
    if entries == [] then map[] else EntriesMeaning(entries[1..])[entries[0].key := TreeMeaning(entries[0].value)]
  }

  ghost predicate AscendingKeys(entries: seq<Entry>) {
    forall i, j :: 0 <= i < j < |entries| ==> Less(entries[i].key, entries[j].key)
  }

  ghost predicate SortedTree(t: Tree)
    decreases t, 0
  {
    match t
    case TArr(items) => forall i :: 0 <= i < |items| ==> SortedTree(items[i])
    case TObj(entries) => AscendingKeys(entries) && forall i :: 0 <= i < |entries| ==> SortedTree(entries[i].value)
    case _ => true
  }

  lemma {:induction false} EntriesMeaningKeys(entries: seq<Entry>, key: Text)
    ensures key in EntriesMeaning(entries) <==> exists i :: 0 <= i < |entries| && entries[i].key == key
  {
    if entries != [] {
      EntriesMeaningKeys(entries[1..], key);
      if key in EntriesMeaning(entries[1..]) {
        var i :| 0 <= i < |entries[1..]| && entries[1..][i].key == key;
        assert entries[i + 1].key == key;
      }
      if i :| 0 <= i < |entries| && entries[i].key == key {
        assert i > 0 ==> entries[1..][i - 1].key == key;
      }
    }
  }

  /** The first key of an ascending list is the least key of its map. */
  lemma FirstKeyLeast(entries: seq<Entry>, key: Text)
    requires entries != [] && AscendingKeys(entries) && key in EntriesMeaning(entries)
    ensures key == entries[0].key || Less(entries[0].key, key)
  {
    EntriesMeaningKeys(entries, key);
    var i :| 0 <= i < |entries| && entries[i].key == key;
  }

  lemma RestLacksFirst(entries: seq<Entry>)
    requires entries != [] && AscendingKeys(entries)
    ensures AscendingKeys(entries[1..])
    ensures entries[0].key !in EntriesMeaning(entries[1..])
    ensures EntriesMeaning(entries[1..]) == EntriesMeaning(entries) - {entries[0].key}
  {
    EntriesMeaningKeys(entries[1..], entries[0].key);
    if entries[0].key in EntriesMeaning(entries[1..]) {
      var i :| 0 <= i < |entries[1..]| && entries[1..][i].key == entries[0].key;
      LessTotal(entries[0].key, entries[i + 1].key);
    }
  }

  lemma SameFirstKey(a: seq<Entry>, b: seq<Entry>)
    requires a != [] && b != [] && AscendingKeys(a) && AscendingKeys(b) && EntriesMeaning(a) == EntriesMeaning(b)
    ensures a[0].key == b[0].key
  {
    EntriesMeaningKeys(a, a[0].key);
    EntriesMeaningKeys(b, b[0].key);
    FirstKeyLeast(a, b[0].key);
    FirstKeyLeast(b, a[0].key);
    LessTotal(a[0].key, b[0].key);
  }

  lemma {:induction false} SortedTreesUnique(a: Tree, b: Tree)
    requires SortedTree(a) && SortedTree(b) && TreeMeaning(a) == TreeMeaning(b)
    ensures a == b
    decreases a, 0
  {
    match a
    case TArr(items) => SortedItemsUnique(items, b.items);
    case TObj(entries) => SortedEntriesUnique(entries, b.entries);
    case _ =>
  }

  lemma {:induction false} SortedItemsUnique(a: seq<Tree>, b: seq<Tree>)
    requires (forall i :: 0 <= i < |a| ==> SortedTree(a[i])) && (forall i :: 0 <= i < |b| ==> SortedTree(b[i]))
    requires TreesMeaning(a) == TreesMeaning(b)
    ensures a == b
    decreases a, 1
  {
    if a != [] {
      assert |TreesMeaning(a)| == |a| && |TreesMeaning(b)| == |b|;
      assert TreesMeaning(a)[0] == TreeMeaning(a[0]) && TreesMeaning(b)[0] == TreeMeaning(b[0]);
      assert TreesMeaning(a)[1..] == TreesMeaning(a[1..]) && TreesMeaning(b)[1..] == TreesMeaning(b[1..]);
      SortedTreesUnique(a[0], b[0]);
      SortedItemsUnique(a[1..], b[1..]);
      assert a == [a[0]] + a[1..] && b == [b[0]] + b[1..];
    }
  }

  lemma OnlyEmptyMeansNothing(entries: seq<Entry>)
    ensures EntriesMeaning(entries) == map[] <==> entries == []
  {
    if entries != [] {
      EntriesMeaningKeys(entries, entries[0].key);
    }
  }

  lemma {:induction false} SortedEntriesUnique(a: seq<Entry>, b: seq<Entry>)
    requires AscendingKeys(a) && AscendingKeys(b)
    requires (forall i :: 0 <= i < |a| ==> SortedTree(a[i].value))
      && (forall i :: 0 <= i < |b| ==> SortedTree(b[i].value))
    requires EntriesMeaning(a) == EntriesMeaning(b)
    ensures a == b
    decreases a, 1
  {
    OnlyEmptyMeansNothing(a);
    OnlyEmptyMeansNothing(b);
    if a != [] {
      SameFirstKey(a, b);
      assert EntriesMeaning(a)[a[0].key] == TreeMeaning(a[0].value)
        && EntriesMeaning(b)[b[0].key] == TreeMeaning(b[0].value);
      SortedTreesUnique(a[0].value, b[0].value);
      RestLacksFirst(a);
      RestLacksFirst(b);
      SortedEntriesUnique(a[1..], b[1..]);
      assert a == [a[0]] + a[1..] && b == [b[0]] + b[1..];
    }
  }

  // --- normalising keeps the meaning -------------------------------------------------------

  ghost predicate Holds(m: map<Text, Plain>, key: Text, p: Plain) {
    key in m && m[key] == p
  }

  lemma {:induction false} MembersMeaningAt(ms: seq<Member>, key: Text, p: Plain)
    requires DistinctNames(ms)
    ensures Holds(MembersMeaning(ms), key, p) <==>
      exists i :: 0 <= i < |ms| && ms[i].key == key && !ms[i].value.Undefined? && Meaning(ms[i].value) == p
    decreases |ms|
  {
    if ms != [] {
      MembersMeaningAt(ms[1..], key, p);
      if i :| 0 <= i < |ms[1..]| && ms[1..][i].key == key && !ms[1..][i].value.Undefined?
              && Meaning(ms[1..][i].value) == p {
        assert ms[i + 1].key == key && Meaning(ms[i + 1].value) == p;
      }
      if i :| 0 <= i < |ms| && ms[i].key == key && !ms[i].value.Undefined? && Meaning(ms[i].value) == p {
        assert i > 0 ==> ms[1..][i - 1].key == key && Meaning(ms[1..][i - 1].value) == p;
      }
    }
  }

  lemma {:induction false} DefinedDistinct(ms: seq<Member>)
    requires DistinctNames(ms)
    ensures DistinctNames(Defined(ms))
  {
    if ms != [] {
      DefinedDistinct(ms[1..]);
      var rest := Defined(ms[1..]);
      forall j | 0 <= j < |rest| ensures rest[j].key != ms[0].key {
        assert rest[j] in rest;
        var k :| 0 <= k < |ms[1..]| && ms[1..][k] == rest[j];
        assert ms[k + 1] == rest[j];
      }
    }
  }

  lemma AscendingDistinct(ms: seq<Member>)
    requires Ascending(ms)
    ensures DistinctNames(ms)
  {
    forall i, j | 0 <= i < j < |ms| ensures ms[i].key != ms[j].key {
      LessTotal(ms[i].key, ms[j].key);
    }
  }

  /** Sorting and dropping undefined members changes no lookup. */
  lemma SortedMembersMeanTheSame(ms: seq<Member>)
    requires DistinctNames(ms)
    ensures MembersMeaning(SortMembers(Defined(ms))) == MembersMeaning(ms)
  {
    var sorted := SortMembers(Defined(ms));
    DefinedDistinct(ms);
    SortAscends(Defined(ms));
    AscendingDistinct(sorted);
    forall key, p ensures Holds(MembersMeaning(sorted), key, p) <==> Holds(MembersMeaning(ms), key, p) {
      MembersMeaningAt(sorted, key, p);
      MembersMeaningAt(ms, key, p);
      if i :| 0 <= i < |sorted| && sorted[i].key == key && !sorted[i].value.Undefined?
              && Meaning(sorted[i].value) == p {
        assert sorted[i] in ms;
      }
      if i :| 0 <= i < |ms| && ms[i].key == key && !ms[i].value.Undefined? && Meaning(ms[i].value) == p {
        assert ms[i] in ms && ms[i] in sorted;
      }
    }
    SameLookups(MembersMeaning(sorted), MembersMeaning(ms));
  }

  lemma SameLookups(a: map<Text, Plain>, b: map<Text, Plain>)
    requires forall key, p :: Holds(a, key, p) <==> Holds(b, key, p)
    ensures a == b
  {
    forall key | key in a ensures key in b && a[key] == b[key] { assert Holds(a, key, a[key]); }
    forall key | key in b ensures key in a { assert Holds(b, key, b[key]); }
  }

  lemma {:induction false} NormalKeepsMeaning(v: Json)
    requires Wellformed(v)
    ensures TreeMeaning(Normal(v)) == Meaning(v) && SortedTree(Normal(v))
    decreases v, 0
  {
    match v
    case Arr(items) => NormalItemsKeepMeaning(items);
    case Obj(members) =>
      var sorted := SortMembers(Defined(members));
      DefinedDistinct(members);
      SortAscends(Defined(members));
      SortedMembersMeanTheSame(members);
      NormalMembersKeepMeaning(v, sorted);
      forall i | 0 <= i < |sorted| ensures SortedTree(NormalMembers(v, sorted)[i].value) {
        assert sorted[i] in sorted;
        NormalMembersAt(v, sorted, i);
        NormalKeepsMeaning(sorted[i].value);
      }
    case _ =>
  }

  lemma {:induction false} NormalItemsKeepMeaning(items: seq<Json>)
    requires forall i :: 0 <= i < |items| ==> Wellformed(items[i])
    ensures TreesMeaning(NormalItems(items)) == ItemsMeaning(items)
    ensures forall i :: 0 <= i < |items| ==> SortedTree(NormalItems(items)[i])
    decreases items, 1
  {
    if items != [] {
      NormalKeepsMeaning(items[0]);
      NormalItemsKeepMeaning(items[1..]);
      assert NormalItems(items)[1..] == NormalItems(items[1..]);
    }
  }

  lemma {:induction false} NormalMembersKeepMeaning(v: Json, sorted: seq<Member>)
    requires v.Obj? && Wellformed(v)
    requires forall m :: m in sorted ==> m in v.members && !m.value.Undefined?
    ensures EntriesMeaning(NormalMembers(v, sorted)) == MembersMeaning(sorted)
    decreases v, 0, |sorted|
  {
    if sorted != [] {
      assert sorted[0] in sorted;
      var i :| 0 <= i < |v.members| && v.members[i] == sorted[0];
      NormalKeepsMeaning(sorted[0].value);
      NormalMembersKeepMeaning(v, sorted[1..]);
      assert NormalMembers(v, sorted)[1..] == NormalMembers(v, sorted[1..]);
    }
  }

  /**
   * The serialiser separates exactly the values that differ once key order and undefined members
   * are forgotten: it is insensitive to both, and injective on everything else.
   */
  lemma CanonicalDecidesMeaning(a: Json, b: Json)
    requires Wellformed(a) && Wellformed(b)
    ensures Canonical(a) == Canonical(b) <==> Meaning(a) == Meaning(b)
  {
    CanonicalPrintsNormal(a);
    CanonicalPrintsNormal(b);
    NormalKeepsMeaning(a);
    NormalKeepsMeaning(b);
    if Canonical(a) == Canonical(b) {
      assert Print(Normal(a)) + [] == Print(Normal(b)) + [];
      PrintUnique(Normal(a), [], Normal(b), []);
    }
    if Meaning(a) == Meaning(b) {
      SortedTreesUnique(Normal(a), Normal(b));
    }
  }
}
