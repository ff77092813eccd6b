/** The soft estimate of a result's size, proved to be the length of its JSON text in UTF-8. */
module ResultSize {
  import opened SqlText
  import opened JsonText

  /** The bytes of a unit outside pairs. */
  function UnitBytes(u: Unit): nat {
    if ShortEscape(u) >= 0 then 2 else if u < 0x20 then 6 else if u < 0x80 then 1
    else if u < 0x800 then 2 else if IsSurrogate(u) then 6 else 3
  }

  /** What one unit adds, or a pair, and how many units that is. */
  lemma StepSize(s: Text, i: nat)
    requires i < |s|
    ensures var n := if PairAt(s, i) then 2 else 1;
            && |Utf8(QuotedBody(s[i..]))| == |Utf8(QuotedBody(s[i + n..]))|
               + if n == 2 then 4 else UnitBytes(s[i])
  {
    var t := s[i..];
    QuotedWellFormed(t);
    if PairAt(t, 0) {
      assert t[2..] == s[i + 2..];
      var rest := QuotedBody(t[2..]);
      assert (t[..2] + rest)[2..] == rest;
      assert QuotedBody(t) == t[..2] + rest;
      assert PairAt(QuotedBody(t), 0);
    } else {
      assert t[1..] == s[i + 1..];
      QuotedUnitWellFormed(t[0]);
      Utf8Append(QuotedUnit(t[0]), QuotedBody(t[1..]));
    }
  }

  method StringBytes(value: Text) returns (bytes: nat)
    ensures bytes == |Utf8(Quoted(value))|
  {
    assert Utf8(QuotedBody([])) == [];
    hide Utf8, QuotedBody, QuotedUnit, WellFormed;
    bytes := 2;
    var i := 0;
    QuotedWellFormed(value);
    assert value[0..] == value;
    while i < |value|
      invariant i <= |value|
      invariant bytes + |Utf8(QuotedBody(value[i..]))| == |Utf8(Quoted(value))|
    {
      StepSize(value, i);
      var c := value[i];
      if c == 34 || c == 92 || c == 8 || c == 9 || c == 10 || c == 12 || c == 13 {
        bytes := bytes + 2;
      } else if c < 32 {
        bytes := bytes + 6;
      } else if c < 128 {
        bytes := bytes + 1;
      } else if c < 2048 {
        bytes := bytes + 2;
      } else if 0xD800 <= c <= 0xDBFF && 0xDC00 <= At(value, i + 1) <= 0xDFFF {
        bytes, i := bytes + 4, i + 1;
      } else if 0xD800 <= c <= 0xDFFF {
        bytes := bytes + 6;
      } else {
        bytes := bytes + 3;
      }
      i := i + 1;
    }
    assert value[i..] == [];
  }

  function Size(t: Text): nat { |Utf8(t)| }

  function Total(parts: seq<Text>): nat {
    if parts == [] then 0 else Total(parts[..|parts| - 1]) + Size(parts[|parts| - 1])
  }

  function Commas(n: nat): nat { if n == 0 then 0 else n - 1 }

  lemma {:induction false} JoinedSize(parts: seq<Text>)
    requires forall p | p in parts :: WellFormed(p)
    ensures WellFormed(Joined(parts)) && Size(Joined(parts)) == Total(parts) + Commas(|parts|)
  {
    if |parts| == 1 {
      assert parts[..0] == [];
    } else if |parts| > 1 {
      var init, last := parts[..|parts| - 1], parts[|parts| - 1];
      JoinedSize(init);
      AsciiWellFormed([COMMA]);
      Utf8Append(Joined(init), [COMMA]);
      Utf8Append(Joined(init) + [COMMA], last);
    }
  }

  /** Brackets around a well-formed text. */
  lemma BracketedSize(left: string, body: Text, right: string)
    requires WellFormed(body)
    ensures WellFormed(Ascii(left) + body + Ascii(right))
    ensures Size(Ascii(left) + body + Ascii(right)) == |left| + Size(body) + |right|
  {
    AsciiWellFormed(Ascii(left));
    AsciiWellFormed(Ascii(right));
    Utf8Append(Ascii(left), body);
    Utf8Append(Ascii(left) + body, Ascii(right));
  }

  lemma MemberSize(key: Text, text: Text)
    requires WellFormed(text)
    ensures WellFormed(Quoted(key) + Ascii(":") + text)
    ensures Size(Quoted(key) + Ascii(":") + text) == Size(Quoted(key)) + 1 + Size(text)
  {
    QuotedWellFormed(key);
    AsciiWellFormed(Ascii(":"));
    Utf8Append(Quoted(key), Ascii(":"));
    Utf8Append(Quoted(key) + Ascii(":"), text);
  }

  function ItemTexts(items: seq<Value>): (r: seq<Text>)
    ensures |r| == |items|
  {
    seq(|items|, k requires 0 <= k < |items| => Json(items[k]))
  }

  /** Every JSON text is well-formed: lone surrogates are escaped. */
  lemma {:induction false} JsonWellFormed(v: Value)
    ensures WellFormed(Json(v))
    decreases v, 1
  {
    match v
    case Null => AsciiWellFormed(Ascii("null"));
    case Undefined => AsciiWellFormed(Ascii("null"));
    case NotFinite => AsciiWellFormed(Ascii("null"));
    case Bool(b) => AsciiWellFormed(Ascii("true")); AsciiWellFormed(Ascii("false"));
    case Number(digits) => AsciiWellFormed(Ascii(digits));
    case Str(units) => QuotedWellFormed(units);
    case Array(items) =>
      forall k | 0 <= k < |items| ensures WellFormed(Json(items[k])) { JsonWellFormed(items[k]); }
      JoinedSize(ItemTexts(items));
      BracketedSize("[", Joined(ItemTexts(items)), "]");
    case Object(fields) =>
      MembersWellFormed(v, fields);
      JoinedSize(Members(v, fields));
      BracketedSize("{", Joined(Members(v, fields)), "}");
  }

  lemma {:induction false} MembersWellFormed(v: Value, fields: seq<Field>)
    requires forall f | f in fields :: f.value < v
    ensures forall p | p in Members(v, fields) :: WellFormed(p)
    decreases v, 0, |fields|
  {
    if fields != [] {
      var f := fields[|fields| - 1];
      MembersWellFormed(v, fields[..|fields| - 1]);
      JsonWellFormed(f.value);
      MemberSize(f.key, Json(f.value));
    }
  }

  /** The estimate of a value is the length of its JSON text in UTF-8. */
  method ValueBytes(v: Value) returns (bytes: nat)
    ensures bytes == Size(Json(v))
    decreases v
  {
    JsonWellFormed(v);
    match v
    case Null => AsciiWellFormed(Ascii("null")); return 4;
    case Undefined => AsciiWellFormed(Ascii("null")); return 4;
    case Str(units) => bytes := StringBytes(units);
    case Number(digits) => AsciiWellFormed(Ascii(digits)); return |digits|;
    case NotFinite => AsciiWellFormed(Ascii("null")); return 4;
    case Bool(b) =>
      AsciiWellFormed(Ascii("true"));
      AsciiWellFormed(Ascii("false"));
      return if b then 4 else 5;
    case Array(items) => bytes := ArrayBytes(v, items);
    case Object(fields) => bytes := ObjectBytes(v, fields);
  }

  method ArrayBytes(ghost v: Value, items: seq<Value>) returns (bytes: nat)
    requires v == Array(items)
    ensures bytes == Size(Json(v))
    decreases v, 0
  {
    ghost var texts := ItemTexts(items);
    bytes := 2 + if |items| > 0 then |items| - 1 else 0;
    for k := 0 to |items|
      invariant bytes == 2 + Commas(|items|) + Total(texts[..k])
    {
      var n := ValueBytes(items[k]);
      bytes := bytes + n;
      assert texts[..k + 1][..k] == texts[..k];
    }
    assert texts[..|items|] == texts;
    forall k | 0 <= k < |items| ensures WellFormed(texts[k]) { JsonWellFormed(items[k]); }
    JoinedSize(texts);
    BracketedSize("[", Joined(texts), "]");
  }

  method ObjectBytes(ghost v: Value, fields: seq<Field>) returns (bytes: nat)
    requires v == Object(fields)
    ensures bytes == Size(Json(v))
    decreases v, 0
  {
    bytes := 2;
    var count := 0;
    for k := 0 to |fields|
      invariant count == |Members(v, fields[..k])|
      invariant bytes == 2 + Commas(count) + Total(Members(v, fields[..k]))
    {
      var f := fields[k];
      assert fields[..k + 1][..k] == fields[..k];
      if !f.value.Undefined? {
        var key := StringBytes(f.key);
        var value := ValueBytes(f.value);
        JsonWellFormed(f.value);
        MemberSize(f.key, Json(f.value));
        bytes := bytes + key + 1 + value + if count > 0 then 1 else 0;
        count := count + 1;
      }
    }
    assert fields[..|fields|] == fields;
    MembersWellFormed(v, fields);
    JoinedSize(Members(v, fields));
    BracketedSize("{", Joined(Members(v, fields)), "}");
  }

  /** Columns and rows, each as one JSON array. */
  method EstimateResultBytes(columns: seq<Text>, rows: seq<seq<Value>>) returns (bytes: nat)
    ensures bytes == Size(Json(TextArray(columns))) + Size(Json(RowArray(rows)))
  {
    var a := ValueBytes(TextArray(columns));
    var b := ValueBytes(RowArray(rows));
    bytes := a + b;
  }

  function TextArray(texts: seq<Text>): Value {
    Array(seq(|texts|, k requires 0 <= k < |texts| => Str(texts[k])))
  }

  function RowArray(rows: seq<seq<Value>>): Value {
    Array(seq(|rows|, k requires 0 <= k < |rows| => Array(rows[k])))
  }
}
