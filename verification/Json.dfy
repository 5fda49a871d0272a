/** JSON values and their text, in UTF-16 code units as JavaScript strings hold them. */
module Json {

  type Unit = x: int | 0 <= x < 0x10000
  type Text = seq<Unit>

  datatype Json =
    | Undefined | Null | Bool(b: bool) | Num(n: int) | Str(s: Text)
    | Arr(items: seq<Json>) | Obj(members: seq<Member>)

  /** A property in insertion order. */
  datatype Member = Member(key: Text, value: Json)

  /** The code units of a plain literal. */
  function Units(s: string): Text {
    seq(|s|, i requires 0 <= i < |s| => if s[i] as int < 0x10000 then s[i] as int else 0)
  }

  // --- integers in decimal -----------------------------------------------------------------

  function Digits(n: nat): (t: Text)
    ensures |t| > 0 && forall i :: 0 <= i < |t| ==> IsDigit(t[i])
  {
    if n < 10 then [48 + n] else Digits(n / 10) + [48 + n % 10]
  }

  predicate IsDigit(u: Unit) { 48 <= u <= 57 }

  function Decimal(n: int): (t: Text)
    ensures |t| > 0 && (t[0] == 45 || IsDigit(t[0]))
  {
    if n < 0 then [45] + Digits(-n) else Digits(n)
  }

  /** What a run of digits stands for, read from the left. */
  function Value(t: Text): int {
    if t == [] then 0 else 10 * Value(t[..|t| - 1]) - 48 + t[|t| - 1]
  }

  lemma {:induction false} DigitsRead(n: nat)
    ensures Value(Digits(n)) == n && (n > 0 ==> Digits(n)[0] != 48)
  {
    if n >= 10 {
      DigitsRead(n / 10);
      var t := Digits(n);
      assert t[..|t| - 1] == Digits(n / 10);
    } else {
      assert [48 + n][..0] == [];
    }
  }

  /** A number is written in decimal without leading zeros, a negative one behind a minus sign. */
  lemma DecimalReads(n: int)
    ensures n >= 0 ==> Value(Decimal(n)) == n && (n > 0 ==> Decimal(n)[0] != '0' as int)
    ensures n < 0 ==> Decimal(n)[0] == '-' as int && Value(Decimal(n)[1..]) == -n
  {
    DigitsRead(if n < 0 then -n else n);
  }

  lemma {:induction false} DigitsInjective(a: nat, b: nat)
    requires Digits(a) == Digits(b)
    ensures a == b
  {
    var s, t := Digits(a), Digits(b);
    if a >= 10 && b >= 10 {
      assert s[..|s| - 1] == Digits(a / 10) && t[..|t| - 1] == Digits(b / 10);
      DigitsInjective(a / 10, b / 10);
      assert s[|s| - 1] == 48 + a % 10 && t[|t| - 1] == 48 + b % 10;
    } else {
      DigitsLength(a);
      DigitsLength(b);
    }
  }

  lemma DigitsLength(n: nat)
    ensures |Digits(n)| == 1 <==> n < 10
  {
  }

  // --- strings, section 7 of RFC 8259 ------------------------------------------------------

  predicate IsLead(u: Unit) { 0xD800 <= u < 0xDC00 }
  predicate IsTrail(u: Unit) { 0xDC00 <= u < 0xE000 }

  function HexDigit(n: int): Unit
    requires 0 <= n < 16
  {
    if n < 10 then 48 + n else 87 + n
  }

  /** `\uXXXX` with lower-case digits. */
  function UnicodeEscape(u: Unit): Text {
    [92, 117, HexDigit(u / 4096), HexDigit(u / 256 % 16), HexDigit(u / 16 % 16), HexDigit(u % 16)]
  }

  /** One unit on its own, as `JSON.stringify` writes it. */
  function EscapeUnit(u: Unit): (t: Text)
    ensures |t| > 0
  {
    if u == 34 || u == 92 then [92, u]
    else if u == 8 then [92, 98]
    else if u == 9 then [92, 116]
    else if u == 10 then [92, 110]
    else if u == 12 then [92, 102]
    else if u == 13 then [92, 114]
    else if u < 32 || IsLead(u) || IsTrail(u) then UnicodeEscape(u)
    else [u]
  }

  /** The short escapes are those of section 7 of RFC 8259. */
  lemma ShortEscapesAre()
    ensures EscapeUnit('"' as int) == Units("\\\"") && EscapeUnit('\\' as int) == Units("\\\\")
    ensures EscapeUnit(0x08) == Units("\\b") && EscapeUnit(0x09) == Units("\\t") && EscapeUnit(0x0A) == Units("\\n")
    ensures EscapeUnit(0x0C) == Units("\\f") && EscapeUnit(0x0D) == Units("\\r")
  {
  }

  /** Every other unit is written as it is, but for control characters and surrogates on their own. */
  lemma OtherUnitsAre(u: Unit)
    requires u !in {0x22, 0x5C, 0x08, 0x09, 0x0A, 0x0C, 0x0D}
    ensures 0x20 <= u < 0xD800 || 0xE000 <= u ==> EscapeUnit(u) == [u]
    ensures u < 0x20 || 0xD800 <= u < 0xE000 ==> EscapeUnit(u) == UnicodeEscape(u)
  {
  }

  /** Those are written by number, as `\u` and four hexadecimal digits. */
  lemma UnicodeEscapeReads(u: Unit)
    ensures UnicodeEscape(u)[..2] == Units("\\u") && HexRead(UnicodeEscape(u)[2..]) == u
  {
    HexDigitReads(u / 4096);
    HexDigitReads(u / 256 % 16);
    HexDigitReads(u / 16 % 16);
    HexDigitReads(u % 16);
    HexRoundTrip(u);
  }

  lemma HexDigitReads(n: int)
    requires 0 <= n < 16
    ensures HexValue(HexDigit(n)) == n && (HexDigit(n) as char in "0123456789abcdef")
  {
    assert "0123456789abcdef"[n] == HexDigit(n) as char;
  }

  /** Four lower-case hexadecimal digits. */
  function HexRead(t: Text): int {
    if |t| != 4 then -1
    else HexValue(t[0]) * 4096 + HexValue(t[1]) * 256 + HexValue(t[2]) * 16 + HexValue(t[3])
  }

  /** A surrogate pair is written as it is; a lone surrogate is escaped. */
  function Escape(s: Text): Text {
    if s == [] then []
    else if |s| >= 2 && IsLead(s[0]) && IsTrail(s[1]) then s[..2] + Escape(s[2..])
    else EscapeUnit(s[0]) + Escape(s[1..])
  }

  function Quote(s: Text): (t: Text)
    ensures |t| >= 2 && t[0] == 34
  {
    [34] + Escape(s) + [34]
  }

  // The reader below undoes the escapes; that it does is what makes strings uniquely decodable.

  function HexValue(u: Unit): int { if u < 58 then u - 48 else u - 87 }

  datatype Read = Stop(rest: Text) | Take(u: Unit, rest: Text) | Bad

  /** Reads one unit of a string body, or its closing quote. */
  function ReadUnit(t: Text): Read {
    if t == [] then Bad
    else if t[0] == 34 then Stop(t[1..])
    else if t[0] != 92 then Take(t[0], t[1..])
    else if |t| < 2 then Bad
    else if t[1] == 34 || t[1] == 92 then Take(t[1], t[2..])
    else if t[1] == 98 then Take(8, t[2..])
    else if t[1] == 116 then Take(9, t[2..])
    else if t[1] == 110 then Take(10, t[2..])
    else if t[1] == 102 then Take(12, t[2..])
    else if t[1] == 114 then Take(13, t[2..])
    else if t[1] == 117 && |t| >= 6 then
      var v := HexValue(t[2]) * 4096 + HexValue(t[3]) * 256 + HexValue(t[4]) * 16 + HexValue(t[5]);
      if 0 <= v < 0x10000 then Take(v, t[6..]) else Bad
    else Bad
  }

  lemma EscapeUnitReads(u: Unit, rest: Text)
    ensures ReadUnit(EscapeUnit(u) + rest) == Take(u, rest)
  {
    var t := EscapeUnit(u) + rest;
    assert t[|EscapeUnit(u)|..] == rest;
    if u < 32 || IsLead(u) || IsTrail(u) {
      HexRoundTrip(u);
    }
  }

  lemma HexRoundTrip(u: Unit)
    ensures u / 4096 * 4096 + u / 256 % 16 * 256 + u / 16 % 16 * 16 + u % 16 == u
    ensures forall n :: 0 <= n < 16 ==> HexValue(HexDigit(n)) == n
  {
    assert u / 256 == u / 4096 * 16 + u / 256 % 16;
    assert u / 16 == u / 256 * 16 + u / 16 % 16;
  }

  /** What reading `s` off the front of escaped text must look like. */
  ghost predicate Yields(t: Text, s: Text, rest: Text)
    decreases |s|
  {
    if s == [] then ReadUnit(t) == Stop(rest)
    else ReadUnit(t).Take? && ReadUnit(t).u == s[0] && Yields(ReadUnit(t).rest, s[1..], rest)
  }

  /** Escaped text, its closing quote, and whatever follows. */
  function Body(s: Text, rest: Text): Text {
    Escape(s) + [34] + rest
  }

  lemma BodyUnfolds(s: Text, rest: Text)
    ensures s == [] ==> Body(s, rest) == [34] + rest
    ensures |s| >= 2 && IsLead(s[0]) && IsTrail(s[1]) ==> Body(s, rest) == [s[0]] + ([s[1]] + Body(s[2..], rest))
    ensures s != [] && !(|s| >= 2 && IsLead(s[0]) && IsTrail(s[1])) ==>
      Body(s, rest) == EscapeUnit(s[0]) + Body(s[1..], rest)
  {
    if |s| >= 2 && IsLead(s[0]) && IsTrail(s[1]) {
      assert s[..2] == [s[0]] + [s[1]];
    }
  }

  lemma PlainUnitReads(u: Unit, rest: Text)
    requires u != 34 && u != 92
    ensures ReadUnit([u] + rest) == Take(u, rest)
  {
    assert ([u] + rest)[1..] == rest;
  }

  lemma YieldsOneMore(t: Text, u: Unit, s: Text, rest: Text, tail: Text)
    requires ReadUnit(t) == Take(u, tail) && Yields(tail, s, rest)
    ensures Yields(t, [u] + s, rest)
  {
    assert ([u] + s)[1..] == s;
  }

  lemma {:induction false} EscapeYields(s: Text, rest: Text)
    ensures Yields(Body(s, rest), s, rest)
    decreases |s|
  {
    BodyUnfolds(s, rest);
    if s == [] {
      assert ([34] + rest)[1..] == rest;
    } else if |s| >= 2 && IsLead(s[0]) && IsTrail(s[1]) {
      var tail := Body(s[2..], rest);
      EscapeYields(s[2..], rest);
      PlainUnitReads(s[1], tail);
      YieldsOneMore([s[1]] + tail, s[1], s[2..], rest, tail);
      PlainUnitReads(s[0], [s[1]] + tail);
      YieldsOneMore([s[0]] + ([s[1]] + tail), s[0], [s[1]] + s[2..], rest, [s[1]] + tail);
      assert s == [s[0]] + ([s[1]] + s[2..]);
    } else {
      var tail := Body(s[1..], rest);
      EscapeYields(s[1..], rest);
      EscapeUnitReads(s[0], tail);
      YieldsOneMore(EscapeUnit(s[0]) + tail, s[0], s[1..], rest, tail);
      assert s == [s[0]] + s[1..];
    }
  }

  lemma {:induction false} YieldsUnique(t: Text, a: Text, x: Text, b: Text, y: Text)
    requires Yields(t, a, x) && Yields(t, b, y)
    ensures a == b && x == y
    decreases |a|
  {
    if a != [] && b != [] {
      YieldsUnique(ReadUnit(t).rest, a[1..], x, b[1..], y);
      assert a == [a[0]] + a[1..] && b == [b[0]] + b[1..];
    }
  }

  lemma SameTail(u: Unit, a: Text, b: Text)
    requires [u] + a == [u] + b
    ensures a == b
  {
    assert ([u] + a)[1..] == a && ([u] + b)[1..] == b;
  }

  lemma QuoteIsBody(s: Text, rest: Text)
    ensures Quote(s) + rest == [34] + Body(s, rest)
  {
  }

  /** A quoted string can be read off the front of any text in one way only. */
  lemma QuoteUnique(a: Text, x: Text, b: Text, y: Text)
    requires Quote(a) + x == Quote(b) + y
    ensures a == b && x == y
  {
    QuoteIsBody(a, x);
    QuoteIsBody(b, y);
    SameTail(34, Body(a, x), Body(b, y));
    EscapeYields(a, x);
    EscapeYields(b, y);
    YieldsUnique(Body(a, x), a, x, b, y);
  }
}
