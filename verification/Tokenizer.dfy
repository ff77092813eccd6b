/**
 The dialect-aware SQL scanner.  Between two tokens it remembers nothing but an
 offset; it looks back at one unit (for escape strings) or at the current line
 (for batch separators) and looks ahead past a token's end by a bounded class of
 units.  The recursive functions say what each rule consumes; `ReadToken` is the
 index-advancing scanner and is proved to compute the same token.
 */
module Tokenizer {
  import opened SqlText

  const NEWLINE := 0x0A
  const RETURN := 0x0D
  const SEMICOLON := 0x3B
  const DOLLAR := 0x24
  const MINUS := 0x2D
  const SLASH := 0x2F
  const STAR := 0x2A
  const QUOTE := 0x27
  const DOUBLE_QUOTE := 0x22
  const BACKSLASH := 0x5C

  const CLAUSE_WORDS: seq<string> := [
    "SELECT", "WITH", "FROM", "WHERE", "JOIN", "INNER", "LEFT", "RIGHT", "FULL", "CROSS", "OUTER", "ON", "USING", "AS",
    "GROUP", "BY", "HAVING", "ORDER", "LIMIT", "OFFSET", "FETCH", "UNION", "ALL", "DISTINCT"]

  const EXPRESSION_WORDS: seq<string> := [
    "INTERSECT", "EXCEPT", "RECURSIVE", "AND", "OR", "NOT", "IS", "NULL", "TRUE", "FALSE", "IN", "LIKE", "ILIKE",
    "BETWEEN",
    "EXISTS", "CASE", "WHEN", "THEN", "ELSE", "END", "ASC", "DESC", "OVER", "PARTITION"]

  const STATEMENT_WORDS: seq<string> := [
    "UPDATE", "SET", "INSERT", "INTO", "VALUES", "DELETE", "RETURNING", "OUTPUT", "TOP", "NATURAL", "LATERAL", "FINAL",
    "SAMPLE", "PREWHERE", "QUALIFY", "WINDOW", "MERGE", "ONLY", "TABLESAMPLE", "PIVOT", "UNPIVOT", "APPLY"]

  const KEYWORDS: seq<string> := CLAUSE_WORDS + EXPRESSION_WORDS + STATEMENT_WORDS

  /** JavaScript's `\s`. */
  predicate IsSpace(c: int) {
    0x09 <= c <= 0x0D || c == 0x20 || c == 0xA0 || c == 0x1680 || 0x2000 <= c <= 0x200A ||
    c == 0x2028 || c == 0x2029 || c == 0x202F || c == 0x205F || c == 0x3000 || c == 0xFEFF
  }

  /** Tab or space: the only units allowed beside a batch separator on its line. */
  predicate IsBlank(c: int) { c == 0x09 || c == 0x20 }

  predicate IsDigit(c: int) { 0x30 <= c <= 0x39 }

  predicate IsLetter(c: int) { 0x41 <= c <= 0x5A || 0x61 <= c <= 0x7A }

  predicate IsExponent(c: int) { c == 0x45 || c == 0x65 }

  predicate IsSign(c: int) { c == 0x2B || c == 0x2D }

  predicate IsTagPart(c: int) { IsLetter(c) || IsDigit(c) || c == 0x5F }

  /** The four spellings whose upper case is GO. */
  predicate IsGoWord(w: Text) {
    |w| == 2 && (w[0] == 0x47 || w[0] == 0x67) && (w[1] == 0x4F || w[1] == 0x6F)
  }

  /** The code point at an offset and the number of units it takes. */
  function CodePoint(t: Text, i: nat): (r: (nat, nat))
    requires i < |t|
    ensures 1 <= r.1 && i + r.1 <= |t|
  {
    if 0xD800 <= t[i] <= 0xDBFF && 0xDC00 <= At(t, i + 1) <= 0xDFFF
    then (0x10000 + (At(t, i) - 0xD800) * 0x400 + (At(t, i + 1) - 0xDC00), 2)
    else (t[i], 1)
  }

  function SkipSpace(t: Text, i: nat): (j: nat)
    requires i <= |t|
    ensures i <= j <= |t|
    ensures j < |t| ==> !IsSpace(t[j])
    decreases |t| - i
  {
    if IsSpace(At(t, i)) then SkipSpace(t, i + 1) else i
  }

  function LineEnd(t: Text, i: nat): (j: nat)
    requires i <= |t|
    ensures i <= j <= |t|
    decreases |t| - i
  {
    if i == |t| || t[i] == NEWLINE || t[i] == RETURN then i else LineEnd(t, i + 1)
  }

  function TagEnd(t: Text, i: nat): (j: nat)
    requires i <= |t|
    ensures i <= j <= |t|
    decreases |t| - i
  {
    if IsTagPart(At(t, i)) then TagEnd(t, i + 1) else i
  }

  /** Length of the dollar-quote delimiter `$tag$` at an offset, or 0. */
  function DollarTag(t: Text, i: nat): (n: nat)
    requires i < |t|
    ensures i + n <= |t|
  {
    if t[i] != DOLLAR then 0
    else if IsDigit(At(t, i + 1)) then 0
    else if i + 1 < |t| && At(t, TagEnd(t, i + 1)) == DOLLAR then TagEnd(t, i + 1) + 1 - i
    else 0
  }

  /** End of the first occurrence of the delimiter, or of the text. */
  function DollarEnd(t: Text, tag: Text, i: nat): (j: nat)
    requires i <= |t|
    ensures i <= j <= |t|
    decreases |t| - i
  {
    if i == |t| then i
    else if i + |tag| <= |t| && t[i..i + |tag|] == tag then i + |tag|
    else DollarEnd(t, tag, i + 1)
  }

  function QuotedEnd(t: Text, i: nat, closing: int, escapes: bool): (j: nat)
    requires i <= |t|
    ensures i <= j <= |t|
    decreases |t| - i
  {
    if i == |t| then i
    else if t[i] == closing then
      if At(t, i + 1) == closing then QuotedEnd(t, i + 2, closing, escapes) else i + 1
    else if t[i] == BACKSLASH && escapes then
      if i + 1 < |t| then QuotedEnd(t, i + 2, closing, escapes) else i + 1
    else QuotedEnd(t, i + 1, closing, escapes)
  }

  function DigitsEnd(t: Text, i: nat, dots: bool): (j: nat)
    requires i <= |t|
    ensures i <= j <= |t|
    decreases |t| - i
  {
    if IsDigit(At(t, i)) || (dots && At(t, i) == 0x2E) then DigitsEnd(t, i + 1, dots) else i
  }

  /** An exponent is consumed only when a digit follows its optional sign. */
  function ExponentDigits(t: Text, i: nat): (j: nat)
    requires i <= |t|
    ensures i <= j <= |t|
  {
    if !IsExponent(At(t, i)) then i
    else if IsDigit(At(t, i + 1)) then i + 1
    else if IsSign(At(t, i + 1)) && IsDigit(At(t, i + 2)) then i + 2
    else i
  }

  function NumberEnd(t: Text, i: nat): (j: nat)
    requires i < |t|
    ensures i < j <= |t|
  {
    var m := DigitsEnd(t, i + 1, true);
    var e := ExponentDigits(t, m);
    if e == m then m else DigitsEnd(t, e, false)
  }

  /** Only tabs and spaces between the start of the line and the offset. */
  predicate BlankBefore(t: Text, i: nat)
    requires i <= |t|
  {
    i == 0 || t[i - 1] == NEWLINE || (IsBlank(t[i - 1]) && BlankBefore(t, i - 1))
  }

  /** Only tabs and spaces between the offset and the end of its line or of the text. */
  predicate BlankAfter(t: Text, i: nat)
    requires i <= |t|
    decreases |t| - i
  {
    i == |t| || t[i] == NEWLINE || (t[i] == RETURN && At(t, i + 1) == NEWLINE) ||
    (IsBlank(t[i]) && BlankAfter(t, i + 1))
  }

  predicate IsPair(a: int, b: int) {
    || ((a == 0x3C || a == 0x3E || a == 0x21 || a == 0x3A) && b == 0x3D)   // <= >= != :=
    || (a == 0x3C && b == 0x3E) || (a == 0x7C && b == 0x7C) || (a == 0x3A && b == 0x3A)   // <> || ::
  }

  predicate IsPunctuation(c: int) {
    c == 0x28 || c == 0x29 || c == 0x2C || c == 0x2E || c == SEMICOLON
  }

  /** Tokens that end a statement. */
  predicate IsSeparator(tok: Token) {
    tok.kind == Punctuation && (tok.text == [SEMICOLON] || IsGoWord(tok.text))
  }

  /**
   A scanner for one dialect.  Identifier classes and upper-casing are exact on
   ASCII and arbitrary functions elsewhere.
   */
  datatype Lexer = Lexer(
    dialect: Dialect,
    wideStart: nat -> bool,
    widePart: nat -> bool,
    wideUpper: Unit -> Text)
  {
    predicate IdentifierStart(c: nat) {
      if c < 0x80 then IsLetter(c) || c == 0x5F else wideStart(c)
    }

    predicate IdentifierPart(c: nat) {
      if c < 0x80 then IsTagPart(c) || c == DOLLAR else widePart(c)
    }

    function Upper(w: Text): Text {
      if w == [] then []
      else (if 0x61 <= w[0] <= 0x7A then [w[0] - 0x20] else if w[0] < 0x80 then [w[0]] else wideUpper(w[0]))
           + Upper(w[1..])
    }

    predicate IsKeyword(w: Text) {
      exists k | 0 <= k < |KEYWORDS| :: Ascii(KEYWORDS[k]) == Upper(w)
    }

    predicate Nests() { dialect == Postgres || dialect == Sqlserver }

    predicate LineCommentAt(t: Text, i: nat)
      requires i < |t|
    {
      || (t[i] == MINUS && At(t, i + 1) == MINUS &&
          (dialect != Mysql || i + 2 == |t| || IsSpace(At(t, i + 2))))
      || (t[i] == 0x23 && dialect == Mysql)
    }

    /** Change of comment depth at an offset: `*` `/` closes, a nested `/` `*` opens. */
    function BlockDelta(t: Text, i: nat): (b: int)
      requires i < |t|
      ensures b != 0 ==> i + 2 <= |t|
      ensures -1 <= b <= 1
    {
      if t[i] == STAR && At(t, i + 1) == SLASH then -1
      else if Nests() && t[i] == SLASH && At(t, i + 1) == STAR then 1
      else 0
    }

    function BlockEnd(t: Text, i: nat, depth: nat): (j: nat)
      requires i <= |t|
      ensures i <= j <= |t|
      decreases |t| - i
    {
      if i == |t| || depth == 0 then i
      else
        var b := BlockDelta(t, i);
        BlockEnd(t, if b == 0 then i + 1 else i + 2, depth + b)
    }

    function DollarTagAt(t: Text, i: nat): (n: nat)
      requires i < |t|
      ensures i + n <= |t|
    {
      if dialect == Postgres then DollarTag(t, i) else 0
    }

    predicate BracketAt(c: int) { c == 0x5B && (dialect == Sqlserver || dialect == Sqlite) }

    predicate QuotedAt(c: int) {
      || c == QUOTE || c == DOUBLE_QUOTE || BracketAt(c)
      || (c == 0x60 && (dialect == Mysql || dialect == Sqlite || dialect == Clickhouse))
    }

    function Closing(c: int): int { if BracketAt(c) then 0x5D else c }

    predicate IsStringQuote(c: int) { c == QUOTE || (c == DOUBLE_QUOTE && dialect == Mysql) }

    predicate Escapes(t: Text, i: nat)
      requires i < |t|
    {
      || dialect == Mysql || dialect == Clickhouse
      || (dialect == Postgres && IsStringQuote(t[i]) && i > 0 && IsExponent(t[i - 1]))
    }

    function IdentifierEnd(t: Text, i: nat): (j: nat)
      requires i <= |t|
      ensures i <= j <= |t|
      decreases |t| - i
    {
      if i < |t| && IdentifierPart(CodePoint(t, i).0)
      then IdentifierEnd(t, i + CodePoint(t, i).1)
      else i
    }

    /** A batch separator stands alone on its line. */
    predicate IsGo(t: Text, start: nat, end: nat)
      requires start <= end <= |t|
    {
      dialect == Sqlserver && IsGoWord(t[start..end]) && BlankBefore(t, start) && BlankAfter(t, end)
    }

    function DollarTokenEnd(t: Text, i: nat): (j: nat)
      requires i < |t| && DollarTagAt(t, i) > 0
      ensures i < j <= |t|
    {
      var n := DollarTagAt(t, i);
      DollarEnd(t, t[i..i + n], i + n)
    }

    function WordEnd(t: Text, i: nat): (j: nat)
      requires i < |t|
      ensures i < j <= |t|
    {
      IdentifierEnd(t, i + CodePoint(t, i).1)
    }

    function WordKind(t: Text, start: nat, end: nat): Kind
      requires start <= end <= |t|
    {
      if IsGo(t, start, end) then Punctuation else if IsKeyword(t[start..end]) then Keyword else Identifier
    }

    /** Where a token ends: the rules in the order the scanner tries them. */
    function TokenEnd(t: Text, i: nat): (j: nat)
      requires i < |t|
      ensures i < j <= |t|
    {
      var c := t[i];
      if LineCommentAt(t, i) then LineEnd(t, i)
      else if c == SLASH && At(t, i + 1) == STAR then BlockEnd(t, i + 2, 1)
      else if DollarTagAt(t, i) > 0 then DollarTokenEnd(t, i)
      else if QuotedAt(c) then QuotedEnd(t, i + 1, Closing(c), Escapes(t, i))
      else if IsDigit(c) then NumberEnd(t, i)
      else if IdentifierStart(CodePoint(t, i).0) then WordEnd(t, i)
      else if !IsPunctuation(c) && IsPair(c, At(t, i + 1)) then i + 2
      else i + 1
    }

    /** The kind of a token, and whether its text is quoted. */
    function TokenKind(t: Text, i: nat, end: nat): (Kind, bool)
      requires i < end <= |t|
    {
      var c := t[i];
      if LineCommentAt(t, i) || (c == SLASH && At(t, i + 1) == STAR) then (Comment, false)
      else if DollarTagAt(t, i) > 0 then (String, true)
      else if QuotedAt(c) then (if IsStringQuote(c) then String else Identifier, true)
      else if IsDigit(c) then (Number, false)
      else if IdentifierStart(CodePoint(t, i).0) then (WordKind(t, i, end), false)
      else (if IsPunctuation(c) then Punctuation else Operator, false)
    }

    /** The token starting at an offset that holds no white space. */
    function TokenAt(t: Text, i: nat): (tok: Token)
      requires i < |t|
      ensures tok.start == i < tok.end <= |t| && tok.text == t[i..tok.end]
    {
      var end := TokenEnd(t, i);
      var (kind, quoted) := TokenKind(t, i, end);
      Token(kind, t[i..end], i, end, quoted)
    }

    /** The first token at or after an offset. */
    function NextToken(t: Text, i: nat): (r: Option<Token>)
      requires i <= |t|
      ensures r.Some? ==> i <= r.value.start < r.value.end <= |t|
                          && r.value.text == t[r.value.start..r.value.end]
    {
      var s := SkipSpace(t, i);
      if s == |t| then None else Some(TokenAt(t, s))
    }

    /** Every token from an offset on. */
    function Tokens(t: Text, i: nat): (toks: seq<Token>)
      requires i <= |t|
      ensures forall k | 0 <= k < |toks| :: i <= toks[k].start < toks[k].end <= |t|
      decreases |t| - i
    {
      match NextToken(t, i)
      case None => []
      case Some(tok) => [tok] + Tokens(t, tok.end)
    }
  }
}
