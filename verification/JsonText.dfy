/** JSON text and its UTF-8 form: RFC 8259 section 7, ECMA-262 section 25.5.2 and RFC 3629 section 3. */
module JsonText {
  import opened SqlText

  type Byte = b: int | 0 <= b < 0x100

  predicate IsHigh(u: int) { 0xD800 <= u <= 0xDBFF }

  predicate IsLow(u: int) { 0xDC00 <= u <= 0xDFFF }

  predicate IsSurrogate(u: int) { 0xD800 <= u <= 0xDFFF }

  /** Do the units at an offset form a surrogate pair? */
  predicate PairAt(s: Text, i: nat) {
    i + 1 < |s| && IsHigh(s[i]) && IsLow(s[i + 1])
  }

  // ---- UTF-8 ----

  function EncodePoint(cp: nat): seq<Byte>
    requires cp < 0x110000
  {
    if cp < 0x80 then [cp]
    else if cp < 0x800 then [0xC0 + cp / 0x40, 0x80 + cp % 0x40]
    else if cp < 0x10000 then [0xE0 + cp / 0x1000, 0x80 + cp / 0x40 % 0x40, 0x80 + cp % 0x40]
    else [0xF0 + cp / 0x40000, 0x80 + cp / 0x1000 % 0x40, 0x80 + cp / 0x40 % 0x40, 0x80 + cp % 0x40]
  }

  function PairPoint(high: int, low: int): (cp: nat)
    requires IsHigh(high) && IsLow(low)
    ensures 0x10000 <= cp < 0x110000
  {
    0x10000 + (high - 0xD800) * 0x400 + (low - 0xDC00)
  }

  /** An unpaired surrogate has no encoding; the replacement character stands for it. */
  function Utf8(s: Text): seq<Byte> {
    if s == [] then []
    else if PairAt(s, 0) then EncodePoint(PairPoint(s[0], s[1])) + Utf8(s[2..])
    else EncodePoint(if IsSurrogate(s[0]) then 0xFFFD else s[0]) + Utf8(s[1..])
  }

  predicate WellFormed(s: Text) {
    s == [] ||
    (if PairAt(s, 0) then WellFormed(s[2..]) else !IsSurrogate(s[0]) && WellFormed(s[1..]))
  }

  /** Well-formed text ends where a code point ends. */
  lemma {:induction false} Utf8Append(a: Text, b: Text)
    requires WellFormed(a)
    ensures Utf8(a + b) == Utf8(a) + Utf8(b)
    ensures WellFormed(b) ==> WellFormed(a + b)
  {
    if a == [] {
      assert a + b == b;
    } else {
      var n := if PairAt(a, 0) then 2 else 1;
      assert (a + b)[n..] == a[n..] + b;
      Utf8Append(a[n..], b);
    }
  }

  // ---- JSON strings ----

  const QUOTE: Unit := 0x22
  const ESCAPE: Unit := 0x5C

  function HexDigit(d: nat): Unit
    requires d < 16
  {
    if d < 10 then 0x30 + d else 0x61 + d - 10
  }

  function UnicodeEscape(u: Unit): Text {
    [ESCAPE, 0x75, HexDigit(u / 0x1000), HexDigit(u / 0x100 % 16), HexDigit(u / 0x10 % 16), HexDigit(u % 16)]
  }

  /** The letter of a two-unit escape, or -1 where there is none. */
  function ShortEscape(u: Unit): int {
    if u == QUOTE then QUOTE else if u == ESCAPE then ESCAPE
    else if u == 8 then 0x62 else if u == 9 then 0x74 else if u == 10 then 0x6E
    else if u == 12 then 0x66 else if u == 13 then 0x72 else -1
  }

  function QuotedUnit(u: Unit): Text {
    if ShortEscape(u) >= 0 then [ESCAPE, ShortEscape(u)]
    else if u < 0x20 || IsSurrogate(u) then UnicodeEscape(u)
    else [u]
  }

  function QuotedBody(s: Text): Text {
    if s == [] then []
    else if PairAt(s, 0) then s[..2] + QuotedBody(s[2..])
    else QuotedUnit(s[0]) + QuotedBody(s[1..])
  }

  function Quoted(s: Text): Text {
    [QUOTE] + QuotedBody(s) + [QUOTE]
  }

  // ---- reading a JSON string back ----

  function HexValue(u: int): int {
    if 0x30 <= u <= 0x39 then u - 0x30 else if 0x61 <= u <= 0x66 then u - 0x61 + 10
    else if 0x41 <= u <= 0x46 then u - 0x41 + 10 else -1
  }

  /** The unit that four hexadecimal digits denote, or -1. */
  function HexUnit(a: int, b: int, c: int, d: int): (u: int)
    ensures -1 <= u < 0x10000
  {
    var (w, x, y, z) := (HexValue(a), HexValue(b), HexValue(c), HexValue(d));
    if w < 0 || x < 0 || y < 0 || z < 0 then -1 else ((w * 16 + x) * 16 + y) * 16 + z
  }

  lemma HexReadsBack(u: Unit)
    ensures HexUnit(HexDigit(u / 0x1000), HexDigit(u / 0x100 % 16), HexDigit(u / 0x10 % 16), HexDigit(u % 16)) == u
  {
    assert forall d: nat | d < 16 :: HexValue(HexDigit(d)) == d;
    assert u / 0x10 == u / 0x100 * 16 + u / 0x10 % 16 && u / 0x100 == u / 0x1000 * 16 + u / 0x100 % 16;
  }

  function ShortMeaning(letter: int): int {
    if letter == QUOTE then QUOTE else if letter == ESCAPE then ESCAPE else if letter == 0x2F then 0x2F
    else if letter == 0x62 then 8 else if letter == 0x74 then 9 else if letter == 0x6E then 10
    else if letter == 0x66 then 12 else if letter == 0x72 then 13 else -1
  }

  /** The string a body stands for, up to its closing quotation mark, by the grammar of RFC 8259. */
  function Unquoted(t: Text): Option<Text> {
    if t == [] || t[0] < 0x20 then None
    else if t[0] == QUOTE then if |t| == 1 then Some([]) else None
    else if t[0] != ESCAPE then Prefixed(t[0], Unquoted(t[1..]))
    else if |t| >= 2 && ShortMeaning(t[1]) >= 0 then Prefixed(ShortMeaning(t[1]), Unquoted(t[2..]))
    else if |t| >= 6 && t[1] == 0x75 && HexUnit(t[2], t[3], t[4], t[5]) >= 0 then
      Prefixed(HexUnit(t[2], t[3], t[4], t[5]), Unquoted(t[6..]))
    else None
  }

  function Prefixed(u: Unit, rest: Option<Text>): Option<Text> {
    match rest
    case None => None
    case Some(s) => Some([u] + s)
  }

  /** A quoted string reads back as itself, unpaired surrogates included. */
  lemma {:induction false} QuotedReadsBack(s: Text)
    ensures Unquoted(QuotedBody(s) + [QUOTE]) == Some(s)
  {
    if s != [] {
      if PairAt(s, 0) {
        QuotedReadsBack(s[2..]);
        var rest := QuotedBody(s[2..]) + [QUOTE];
        assert QuotedBody(s) + [QUOTE] == [s[0], s[1]] + rest;
        hide QuotedBody, Unquoted;
        PairReadsBack(s[0], s[1], rest);
        assert s == [s[0]] + ([s[1]] + s[2..]);
      } else {
        hide Unquoted, QuotedUnit, PairAt;
        QuotedReadsBack(s[1..]);
        QuotedUnitReadsBack(s[0], QuotedBody(s[1..]) + [QUOTE]);
        assert QuotedBody(s) + [QUOTE] == QuotedUnit(s[0]) + (QuotedBody(s[1..]) + [QUOTE]);
        assert s == [s[0]] + s[1..];
      }
    }
  }

  lemma PairReadsBack(high: Unit, low: Unit, rest: Text)
    requires 0x5C < high && 0x5C < low
    ensures Unquoted([high, low] + rest) == Prefixed(high, Prefixed(low, Unquoted(rest)))
  {
    var t := [high, low] + rest;
    assert t[1..][1..] == rest;
  }

  lemma QuotedUnitReadsBack(u: Unit, rest: Text)
    ensures Unquoted(QuotedUnit(u) + rest) == Prefixed(u, Unquoted(rest))
  {
    hide HexUnit, HexDigit;
    var t := QuotedUnit(u) + rest;
    assert t[|QuotedUnit(u)|..] == rest;
    HexReadsBack(u);
  }

  // ---- JSON values ----

  /** What a result cell can hold; the digits of a finite number are any ASCII text. */
  datatype Value =
    | Null
    | Undefined
    | Bool(value: bool)
    | NotFinite
    | Number(digits: string)
    | Str(units: Text)
    | Array(items: seq<Value>)
    | Object(fields: seq<Field>)

  datatype Field = Field(key: Text, value: Value)

  const COMMA: Unit := 0x2C

  /** Elements separated by commas. */
  function Joined(parts: seq<Text>): Text {
    if parts == [] then []
    else if |parts| == 1 then parts[0]
    else Joined(parts[..|parts| - 1]) + [COMMA] + parts[|parts| - 1]
  }

  /** The text of a value; in an array, what has no text of its own becomes null. */
  function Json(v: Value): Text
    decreases v, 1
  {
    match v
    case Null => Ascii("null")
    case Undefined => Ascii("null")
    case Bool(b) => if b then Ascii("true") else Ascii("false")
    case NotFinite => Ascii("null")
    case Number(digits) => Ascii(digits)
    case Str(units) => Quoted(units)
    case Array(items) => Ascii("[") + Joined(seq(|items|, k requires 0 <= k < |items| => Json(items[k]))) + Ascii("]")
    case Object(fields) => Ascii("{") + Joined(Members(v, fields)) + Ascii("}")
  }

  /** The members of an object that have a text, in order. */
  function Members(ghost v: Value, fields: seq<Field>): seq<Text>
    requires forall f | f in fields :: f.value < v
    decreases v, 0, |fields|
  {
    if fields == [] then []
    else
      var f := fields[|fields| - 1];
      var rest := Members(v, fields[..|fields| - 1]);
      if f.value.Undefined? then rest else rest + [Quoted(f.key) + Ascii(":") + Json(f.value)]
  }

  // ---- every JSON text is well-formed ----

  lemma {:induction false} AsciiWellFormed(t: Text)
    requires forall k | 0 <= k < |t| :: t[k] < 0x80
    ensures WellFormed(t) && |Utf8(t)| == |t|
  {
    if t != [] { AsciiWellFormed(t[1..]); }
  }

  lemma QuotedUnitWellFormed(u: Unit)
    ensures WellFormed(QuotedUnit(u))
    ensures |Utf8(QuotedUnit(u))| ==
              if ShortEscape(u) >= 0 then 2 else if u < 0x20 then 6 else if u < 0x80 then 1
              else if u < 0x800 then 2 else if IsSurrogate(u) then 6 else 3
  {
    if ShortEscape(u) >= 0 || u < 0x20 || IsSurrogate(u) {
      AsciiWellFormed(QuotedUnit(u));
    } else {
      assert Utf8([u]) == EncodePoint(u) + Utf8([u][1..]) && [u][1..] == [];
    }
  }

  lemma {:induction false} QuotedWellFormed(s: Text)
    ensures WellFormed(QuotedBody(s)) && WellFormed(Quoted(s))
    ensures |Utf8(Quoted(s))| == 2 + |Utf8(QuotedBody(s))|
    decreases |s|
  {
    if s != [] {
      if PairAt(s, 0) {
        QuotedWellFormed(s[2..]);
        assert (s[..2] + QuotedBody(s[2..]))[2..] == QuotedBody(s[2..]);
      } else {
        QuotedWellFormed(s[1..]);
        QuotedUnitWellFormed(s[0]);
        Utf8Append(QuotedUnit(s[0]), QuotedBody(s[1..]));
      }
    }
    Utf8Append(QuotedBody(s), [QUOTE]);
    Utf8Append([QUOTE], QuotedBody(s) + [QUOTE]);
    assert [QUOTE] + (QuotedBody(s) + [QUOTE]) == Quoted(s);
  }
}
