/** JSON text without freedom: trees with a fixed order of members, and their unique reading. */
module JsonTree {
  import opened Json

  datatype Tree =
    | TNull | TBool(b: bool) | TNum(n: int) | TStr(s: Text)
    | TArr(items: seq<Tree>) | TObj(entries: seq<Entry>)

  datatype Entry = Entry(key: Text, value: Tree)

  const NULL: Text := [110, 117, 108, 108]
  const TRUE: Text := [116, 114, 117, 101]
  const FALSE: Text := [102, 97, 108, 115, 101]

  function Print(t: Tree): (text: Text)
    ensures |text| > 0 && !Closes(text[0])
    decreases t, 0
  {
    match t
    case TNull => NULL
    case TBool(b) => if b then TRUE else FALSE
    case TNum(n) => Decimal(n)
    case TStr(s) => Quote(s)
    case TArr(items) => [91] + PrintItems(items) + [93]
    case TObj(entries) => [123] + PrintEntries(entries) + [125]
  }

  predicate Closes(u: Unit) { u == 93 || u == 125 || u == 44 }

  /** Elements joined with commas. */
  function PrintItems(items: seq<Tree>): Text
    decreases items, 1
  {
    if items == [] then []
    else if |items| == 1 then Print(items[0])
    else Print(items[0]) + [44] + PrintItems(items[1..])
  }

  function PrintEntry(e: Entry): Text
    decreases e, 1
  {
    Quote(e.key) + [58] + Print(e.value)
  }

  function PrintEntries(entries: seq<Entry>): Text
    decreases entries, 2
  {
    if entries == [] then []
    else if |entries| == 1 then PrintEntry(entries[0])
    else PrintEntry(entries[0]) + [44] + PrintEntries(entries[1..])
  }

  /** What may follow a value: nothing that could prolong a number. */
  predicate Ends(x: Text) { x == [] || !IsDigit(x[0]) }

  // --- numbers -----------------------------------------------------------------------------

  lemma {:induction false} DigitRunUnique(a: Text, x: Text, b: Text, y: Text)
    requires a + x == b + y && Ends(x) && Ends(y)
    requires (forall i :: 0 <= i < |a| ==> IsDigit(a[i])) && (forall i :: 0 <= i < |b| ==> IsDigit(b[i]))
    ensures a == b && x == y
  {
    AtSeam(a, x, b, y);
    AtSeam(b, y, a, x);
    if |a| == |b| {
      assert a == (a + x)[..|a|] && b == (b + y)[..|b|];
      assert x == (a + x)[|a|..] && y == (b + y)[|b|..];
    }
  }

  /** Where one way of splitting a text ends early, its rest begins inside the other's first part. */
  lemma AtSeam(a: Text, x: Text, b: Text, y: Text)
    requires a + x == b + y
    ensures |a| < |b| ==> x != [] && x[0] == b[|a|]
  {
    if |a| < |b| {
      assert (a + x)[|a|] == (b + y)[|a|];
    }
  }

  lemma NaturalUnique(a: nat, x: Text, b: nat, y: Text)
    requires Digits(a) + x == Digits(b) + y && Ends(x) && Ends(y)
    ensures a == b && x == y
  {
    DigitRunUnique(Digits(a), x, Digits(b), y);
    DigitsInjective(a, b);
  }

  lemma DecimalUnique(a: int, x: Text, b: int, y: Text)
    requires Decimal(a) + x == Decimal(b) + y && Ends(x) && Ends(y)
    ensures a == b && x == y
  {
    assert (Decimal(a) + x)[0] == Decimal(a)[0] && (Decimal(b) + y)[0] == Decimal(b)[0];
    if a < 0 {
      Assoc([45], Digits(-a), x);
      Assoc([45], Digits(-b), y);
      SameTail(45, Digits(-a) + x, Digits(-b) + y);
      NaturalUnique(-a, x, -b, y);
    } else {
      NaturalUnique(a, x, b, y);
    }
  }

  // --- trees -------------------------------------------------------------------------------

  lemma ConstantTails(word: Text, x: Text, y: Text)
    requires word + x == word + y
    ensures x == y
  {
    assert (word + x)[|word|..] == x && (word + y)[|word|..] == y;
  }

  /** The first unit of a printed tree gives away its kind. */
  function FirstUnit(t: Tree): Unit {
    Print(t)[0]
  }

  lemma SameKind(a: Tree, x: Text, b: Tree, y: Text)
    requires Print(a) + x == Print(b) + y
    ensures FirstUnit(a) == FirstUnit(b)
    ensures a.TNull? <==> b.TNull?
    ensures a.TBool? <==> b.TBool?
    ensures a.TNum? <==> b.TNum?
    ensures a.TStr? <==> b.TStr?
    ensures a.TArr? <==> b.TArr?
    ensures a.TObj? <==> b.TObj?
    ensures a.TBool? ==> a.b == b.b
  {
    assert (Print(a) + x)[0] == Print(a)[0] && (Print(b) + y)[0] == Print(b)[0];
  }

  lemma Bracketed(open: Unit, middle: Text, close: Unit, x: Text)
    ensures ([open] + middle + [close]) + x == [open] + (middle + ([close] + x))
  {
  }

  /** Printed trees decode uniquely: a text continues a tree in at most one way. */
  lemma {:induction false} PrintUnique(a: Tree, x: Text, b: Tree, y: Text)
    requires Print(a) + x == Print(b) + y && Ends(x) && Ends(y)
    ensures a == b && x == y
    decreases a, 0
  {
    SameKind(a, x, b, y);
    match a
    case TNull => ConstantTails(NULL, x, y);
    case TBool(v) => ConstantTails(if v then TRUE else FALSE, x, y);
    case TNum(n) => DecimalUnique(n, x, b.n, y);
    case TStr(s) => QuoteUnique(s, x, b.s, y);
    case TArr(items) =>
      Bracketed(91, PrintItems(items), 93, x);
      Bracketed(91, PrintItems(b.items), 93, y);
      SameTail(91, PrintItems(items) + ([93] + x), PrintItems(b.items) + ([93] + y));
      ItemsUnique(items, x, b.items, y);
    case TObj(entries) =>
      Bracketed(123, PrintEntries(entries), 125, x);
      Bracketed(123, PrintEntries(b.entries), 125, y);
      SameTail(123, PrintEntries(entries) + ([125] + x), PrintEntries(b.entries) + ([125] + y));
      EntriesUnique(entries, x, b.entries, y);
  }

  /** What follows the first element: a comma and the others, or the closing bracket. */
  function AfterItem(items: seq<Tree>, x: Text): Text
    requires items != []
  {
    if |items| == 1 then [93] + x else [44] + (PrintItems(items[1..]) + ([93] + x))
  }

  lemma ItemsUnfold(items: seq<Tree>, x: Text)
    ensures items == [] ==> PrintItems(items) + ([93] + x) == [93] + x
    ensures items != [] ==> PrintItems(items) + ([93] + x) == Print(items[0]) + AfterItem(items, x)
  {
  }

  lemma {:induction false} ItemsUnique(a: seq<Tree>, x: Text, b: seq<Tree>, y: Text)
    requires PrintItems(a) + ([93] + x) == PrintItems(b) + ([93] + y)
    ensures a == b && x == y
    decreases a, 1
  {
    ItemsUnfold(a, x);
    ItemsUnfold(b, y);
    FirstOfItems(a, x);
    FirstOfItems(b, y);
    if a == [] {
      SameTail(93, x, y);
    } else {
      PrintUnique(a[0], AfterItem(a, x), b[0], AfterItem(b, y));
      assert AfterItem(a, x)[0] == AfterItem(b, y)[0];
      if |a| == 1 {
        SameTail(93, x, y);
        assert a == [a[0]] && b == [b[0]];
      } else {
        SameTail(44, PrintItems(a[1..]) + ([93] + x), PrintItems(b[1..]) + ([93] + y));
        ItemsUnique(a[1..], x, b[1..], y);
        assert a == [a[0]] + a[1..] && b == [b[0]] + b[1..];
      }
    }
  }

  /** A printed list shows by its first unit whether it is empty. */
  lemma FirstOfItems(items: seq<Tree>, x: Text)
    ensures var text := PrintItems(items) + ([93] + x); text != [] && (text[0] == 93 <==> items == [])
  {
    ItemsUnfold(items, x);
  }

  function AfterEntry(entries: seq<Entry>, x: Text): Text
    requires entries != []
  {
    if |entries| == 1 then [125] + x else [44] + (PrintEntries(entries[1..]) + ([125] + x))
  }

  lemma Assoc(a: Text, b: Text, c: Text)
    ensures (a + b) + c == a + (b + c)
  {
  }

  lemma EntryUnfold(e: Entry, rest: Text)
    ensures PrintEntry(e) + rest == Quote(e.key) + ([58] + (Print(e.value) + rest))
  {
    Assoc(Quote(e.key) + [58], Print(e.value), rest);
    Assoc(Quote(e.key), [58], Print(e.value) + rest);
  }

  lemma EntriesUnfold(entries: seq<Entry>, x: Text)
    ensures entries == [] ==> PrintEntries(entries) + ([125] + x) == [125] + x
    ensures entries != [] ==>
      PrintEntries(entries) + ([125] + x) ==
        Quote(entries[0].key) + ([58] + (Print(entries[0].value) + AfterEntry(entries, x)))
  {
    if entries != [] {
      EntryUnfold(entries[0], AfterEntry(entries, x));
      if |entries| > 1 {
        Assoc(PrintEntry(entries[0]) + [44], PrintEntries(entries[1..]), [125] + x);
        Assoc(PrintEntry(entries[0]), [44], PrintEntries(entries[1..]) + ([125] + x));
      }
    }
  }

  lemma FirstOfEntries(entries: seq<Entry>, x: Text)
    ensures var text := PrintEntries(entries) + ([125] + x); text != [] && (text[0] == 125 <==> entries == [])
  {
    EntriesUnfold(entries, x);
  }

  lemma KeyUnique(a: Entry, x: Text, b: Entry, y: Text)
    requires Quote(a.key) + ([58] + (Print(a.value) + x)) == Quote(b.key) + ([58] + (Print(b.value) + y))
    ensures a.key == b.key && Print(a.value) + x == Print(b.value) + y
  {
    QuoteUnique(a.key, [58] + (Print(a.value) + x), b.key, [58] + (Print(b.value) + y));
    SameTail(58, Print(a.value) + x, Print(b.value) + y);
  }

  lemma {:induction false} EntriesUnique(a: seq<Entry>, x: Text, b: seq<Entry>, y: Text)
    requires PrintEntries(a) + ([125] + x) == PrintEntries(b) + ([125] + y)
    ensures a == b && x == y
    decreases a, 1
  {
    EntriesUnfold(a, x);
    EntriesUnfold(b, y);
    FirstOfEntries(a, x);
    FirstOfEntries(b, y);
    if a == [] {
      SameTail(125, x, y);
    } else {
      KeyUnique(a[0], AfterEntry(a, x), b[0], AfterEntry(b, y));
      PrintUnique(a[0].value, AfterEntry(a, x), b[0].value, AfterEntry(b, y));
      assert a[0] == b[0];
      assert AfterEntry(a, x)[0] == AfterEntry(b, y)[0];
      if |a| == 1 {
        SameTail(125, x, y);
        assert a == [a[0]] && b == [b[0]];
      } else {
        SameTail(44, PrintEntries(a[1..]) + ([125] + x), PrintEntries(b[1..]) + ([125] + y));
        EntriesUnique(a[1..], x, b[1..], y);
        assert a == [a[0]] + a[1..] && b == [b[0]] + b[1..];
      }
    }
  }
}
