/** The index-advancing scanner, proved to read the tokens `Tokenizer` describes. */
module TokenReader {
  import opened SqlText
  import opened Tokenizer

  method ReadBlockComment(lexer: Lexer, t: Text, start: nat) returns (i: nat)
    requires start + 2 <= |t|
    ensures i == lexer.BlockEnd(t, start + 2, 1)
  {
    i := start + 2;
    var depth: nat := 1;
    while i < |t| && depth > 0
      invariant i <= |t|
      invariant lexer.BlockEnd(t, i, depth) == lexer.BlockEnd(t, start + 2, 1)
      decreases |t| - i
    {
      if t[i] == STAR && At(t, i + 1) == SLASH {
        depth, i := depth - 1, i + 2;
      } else if lexer.Nests() && t[i] == SLASH && At(t, i + 1) == STAR {
        depth, i := depth + 1, i + 2;
      } else {
        i := i + 1;
      }
    }
  }

  method ReadQuoted(lexer: Lexer, t: Text, start: nat) returns (i: nat)
    requires start < |t|
    ensures i == QuotedEnd(t, start + 1, lexer.Closing(t[start]), lexer.Escapes(t, start))
  {
    var closing, escapes := lexer.Closing(t[start]), lexer.Escapes(t, start);
    i := start + 1;
    while i < |t|
      invariant i <= |t|
      invariant QuotedEnd(t, i, closing, escapes) == QuotedEnd(t, start + 1, closing, escapes)
    {
      if t[i] == closing {
        i := i + 1;
        if At(t, i) != closing { break; }
        i := i + 1;
      } else if t[i] == BACKSLASH && escapes {
        i := i + if 2 <= |t| - i then 2 else |t| - i;
      } else {
        i := i + 1;
      }
    }
  }

  method ReadDigits(t: Text, start: nat, dots: bool) returns (i: nat)
    requires start <= |t|
    ensures i == DigitsEnd(t, start, dots)
  {
    i := start;
    while IsDigit(At(t, i)) || (dots && At(t, i) == 0x2E)
      invariant i <= |t|
      invariant DigitsEnd(t, i, dots) == DigitsEnd(t, start, dots)
      decreases |t| - i
    {
      i := i + 1;
    }
  }

  method ReadNumber(t: Text, start: nat) returns (i: nat)
    requires start < |t|
    ensures i == NumberEnd(t, start)
  {
    i := ReadDigits(t, start + 1, true);
    if IsExponent(At(t, i)) && (IsDigit(At(t, i + 1)) || (IsSign(At(t, i + 1)) && IsDigit(At(t, i + 2)))) {
      i := i + 1;
      if IsSign(At(t, i)) { i := i + 1; }
      i := ReadDigits(t, i, false);
    }
  }

  method ReadWord(lexer: Lexer, t: Text, start: nat) returns (i: nat)
    requires start < |t|
    ensures i == lexer.WordEnd(t, start)
  {
    i := start + CodePoint(t, start).1;
    while i < |t| && lexer.IdentifierPart(CodePoint(t, i).0)
      invariant i <= |t|
      invariant lexer.IdentifierEnd(t, i) == lexer.WordEnd(t, start)
    {
      i := i + CodePoint(t, i).1;
    }
  }

  method ReadLineComment(t: Text, start: nat) returns (i: nat)
    requires start <= |t|
    ensures i == LineEnd(t, start)
  {
    i := start;
    while i < |t| && t[i] != NEWLINE && t[i] != RETURN
      invariant i <= |t|
      invariant LineEnd(t, i) == LineEnd(t, start)
    {
      i := i + 1;
    }
  }

  method ReadDollar(lexer: Lexer, t: Text, start: nat) returns (i: nat)
    requires start < |t| && lexer.DollarTagAt(t, start) > 0
    ensures i == lexer.DollarTokenEnd(t, start)
  {
    var n := lexer.DollarTagAt(t, start);
    var tag := t[start..start + n];
    i := start + n;
    while i < |t|
      invariant i <= |t|
      invariant DollarEnd(t, tag, i) == DollarEnd(t, tag, start + n)
    {
      if i + n <= |t| && t[i..i + n] == tag { return i + n; }
      i := i + 1;
    }
  }

  /** Skips white space and reads one token. */
  method ReadToken(lexer: Lexer, t: Text, from: nat) returns (r: Option<Token>)
    requires from <= |t|
    ensures r == lexer.NextToken(t, from)
  {
    var start := from;
    while IsSpace(At(t, start))
      invariant start <= |t|
      invariant SkipSpace(t, start) == SkipSpace(t, from)
      decreases |t| - start
    {
      start := start + 1;
    }
    if start == |t| { return None; }
    var i := ReadEnd(lexer, t, start);
    var (kind, quoted) := lexer.TokenKind(t, start, i);
    return Some(Token(kind, t[start..i], start, i, quoted));
  }

  method ReadEnd(lexer: Lexer, t: Text, start: nat) returns (i: nat)
    requires start < |t|
    ensures i == lexer.TokenEnd(t, start)
  {
    var c := t[start];
    if lexer.LineCommentAt(t, start) { i := ReadLineComment(t, start); }
    else if c == SLASH && At(t, start + 1) == STAR { i := ReadBlockComment(lexer, t, start); }
    else if lexer.DollarTagAt(t, start) > 0 { i := ReadDollar(lexer, t, start); }
    else if lexer.QuotedAt(c) { i := ReadQuoted(lexer, t, start); }
    else if IsDigit(c) { i := ReadNumber(t, start); }
    else if lexer.IdentifierStart(CodePoint(t, start).0) { i := ReadWord(lexer, t, start); }
    else if !IsPunctuation(c) && IsPair(c, At(t, start + 1)) { i := start + 2; }
    else { i := start + 1; }
  }
}
