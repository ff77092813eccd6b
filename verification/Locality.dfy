/**
 What the scanner's answer depends on.  Two texts mirror each other on a window
 when they agree there at a fixed distance, both edges included; inside the
 window, scanning one is scanning the other, displaced.
 */
module Locality {
  import opened SqlText
  import opened Tokenizer

  /** A unit no rule of the scanner looks past unless it consumes it. */
  predicate Barrier(c: int) { c == -1 || c == SEMICOLON || c == NEWLINE }

  /** A unit that already settles every look back from the next offset. */
  predicate Solid(c: int) { c >= 0 && c != NEWLINE && !IsBlank(c) }

  ghost predicate Mirror(t: Text, t': Text, d: int, lo: nat, hi: nat) {
    && lo <= hi <= |t| && 0 <= lo + d && hi + d <= |t'|
    && (forall j: nat | lo <= j <= hi :: At(t', j + d) == At(t, j))
    && ((lo == 0 && d == 0) || (lo > 0 && lo + d > 0 && At(t', lo - 1 + d) == At(t, lo - 1) && Solid(At(t, lo - 1))))
    && Barrier(At(t, hi))
  }

  lemma MirrorSlice(t: Text, t': Text, d: int, lo: nat, hi: nat, i: nat, j: nat)
    requires Mirror(t, t', d, lo, hi) && lo <= i <= j <= hi
    ensures t'[i + d..j + d] == t[i..j]
  {
    forall k | i <= k < j ensures t'[k + d] == t[k] {
      assert At(t', k + d) == At(t, k);
    }
  }

  lemma MirrorEnds(t: Text, t': Text, d: int, lo: nat, hi: nat)
    requires Mirror(t, t', d, lo, hi)
    ensures hi == |t| <==> hi + d == |t'|
  {
    assert At(t', hi + d) == At(t, hi);
  }

  lemma {:induction false} SkipSpaceMirror(t: Text, t': Text, d: int, lo: nat, hi: nat, i: nat)
    requires Mirror(t, t', d, lo, hi) && lo <= i <= hi && SkipSpace(t, i) <= hi
    ensures SkipSpace(t', i + d) == SkipSpace(t, i) + d
    decreases hi - i
  {
    assert At(t', i + d) == At(t, i);
    if IsSpace(At(t, i)) { SkipSpaceMirror(t, t', d, lo, hi, i + 1); }
  }

  lemma {:induction false} LineEndMirror(t: Text, t': Text, d: int, lo: nat, hi: nat, i: nat)
    requires Mirror(t, t', d, lo, hi) && lo <= i <= hi && LineEnd(t, i) <= hi
    ensures LineEnd(t', i + d) == LineEnd(t, i) + d
    decreases hi - i
  {
    MirrorEnds(t, t', d, lo, hi);
    assert At(t', i + d) == At(t, i);
    if i < |t| && t[i] != NEWLINE && t[i] != RETURN { LineEndMirror(t, t', d, lo, hi, i + 1); }
  }

  lemma {:induction false} TagEndMirror(t: Text, t': Text, d: int, lo: nat, hi: nat, i: nat)
    requires Mirror(t, t', d, lo, hi) && lo <= i <= hi
    ensures TagEnd(t, i) <= hi && TagEnd(t', i + d) == TagEnd(t, i) + d
    decreases hi - i
  {
    assert At(t', i + d) == At(t, i);
    if IsTagPart(At(t, i)) { TagEndMirror(t, t', d, lo, hi, i + 1); }
  }

  lemma DollarTagMirror(t: Text, t': Text, d: int, lo: nat, hi: nat, i: nat)
    requires Mirror(t, t', d, lo, hi) && lo <= i < hi
    ensures DollarTag(t', i + d) == DollarTag(t, i) && i + DollarTag(t, i) <= hi
  {
    assert At(t', i + d) == At(t, i);
    assert At(t', i + 1 + d) == At(t, i + 1);
    TagEndMirror(t, t', d, lo, hi, i + 1);
    assert At(t', TagEnd(t, i + 1) + d) == At(t, TagEnd(t, i + 1));
  }

  predicate TagAt(t: Text, tag: Text, i: nat) {
    i + |tag| <= |t| && t[i..i + |tag|] == tag
  }

  lemma {:induction false} DollarEndMirror(t: Text, t': Text, d: int, lo: nat, hi: nat, tag: Text, i: nat)
    requires Mirror(t, t', d, lo, hi) && lo <= i <= hi && DollarEnd(t, tag, i) <= hi
    ensures DollarEnd(t', tag, i + d) == DollarEnd(t, tag, i) + d
    decreases hi - i
  {
    MirrorEnds(t, t', d, lo, hi);
    if i < |t| {
      TagMirror(t, t', d, lo, hi, tag, i);
      hide Mirror;
      if !TagAt(t, tag, i) { DollarEndMirror(t, t', d, lo, hi, tag, i + 1); }
    }
  }

  lemma TagMirror(t: Text, t': Text, d: int, lo: nat, hi: nat, tag: Text, i: nat)
    requires Mirror(t, t', d, lo, hi) && lo <= i < |t| && DollarEnd(t, tag, i) <= hi
    ensures TagAt(t', tag, i + d) <==> TagAt(t, tag, i)
    ensures !TagAt(t, tag, i) ==> i < hi && DollarEnd(t, tag, i + 1) <= hi
  {
    DollarEndLong(t, tag, i);
    MirrorEnds(t, t', d, lo, hi);
    if i + |tag| <= hi { MirrorSlice(t, t', d, lo, hi, i, i + |tag|); }
    hide Mirror;
  }

  /** An occurrence ends no earlier than the delimiter is long. */
  lemma {:induction false} DollarEndLong(t: Text, tag: Text, i: nat)
    requires i <= |t|
    ensures DollarEnd(t, tag, i) == |t| || DollarEnd(t, tag, i) >= i + |tag|
    decreases |t| - i
  {
    if i < |t| && !(i + |tag| <= |t| && t[i..i + |tag|] == tag) { DollarEndLong(t, tag, i + 1); }
  }

  lemma {:induction false} QuotedEndMirror(t: Text, t': Text, d: int, lo: nat, hi: nat, i: nat, closing: int,
                                           escapes: bool)
    requires Mirror(t, t', d, lo, hi) && lo <= i <= hi && QuotedEnd(t, i, closing, escapes) <= hi
    requires !Barrier(closing)
    ensures QuotedEnd(t', i + d, closing, escapes) == QuotedEnd(t, i, closing, escapes) + d
    decreases hi - i
  {
    MirrorEnds(t, t', d, lo, hi);
    assert At(t', i + d) == At(t, i);
    if i < hi {
      assert At(t', i + 1 + d) == At(t, i + 1);
      if t[i] == closing {
        if At(t, i + 1) == closing { QuotedEndMirror(t, t', d, lo, hi, i + 2, closing, escapes); }
      } else if t[i] == BACKSLASH && escapes {
        if i + 1 < |t| { QuotedEndMirror(t, t', d, lo, hi, i + 2, closing, escapes); }
      } else {
        QuotedEndMirror(t, t', d, lo, hi, i + 1, closing, escapes);
      }
    }
  }

  lemma {:induction false} DigitsEndMirror(t: Text, t': Text, d: int, lo: nat, hi: nat, i: nat, dots: bool)
    requires Mirror(t, t', d, lo, hi) && lo <= i <= hi
    ensures DigitsEnd(t, i, dots) <= hi && DigitsEnd(t', i + d, dots) == DigitsEnd(t, i, dots) + d
    decreases hi - i
  {
    assert At(t', i + d) == At(t, i);
    if IsDigit(At(t, i)) || (dots && At(t, i) == 0x2E) { DigitsEndMirror(t, t', d, lo, hi, i + 1, dots); }
  }

  lemma ExponentDigitsMirror(t: Text, t': Text, d: int, lo: nat, hi: nat, i: nat)
    requires Mirror(t, t', d, lo, hi) && lo <= i <= hi
    ensures i + d <= |t'| && ExponentDigits(t, i) <= hi && ExponentDigits(t', i + d) == ExponentDigits(t, i) + d
  {
    assert At(t', i + d) == At(t, i);
    if IsExponent(At(t, i)) {
      assert At(t', i + 1 + d) == At(t, i + 1);
      if IsSign(At(t, i + 1)) { assert At(t', i + 2 + d) == At(t, i + 2); }
    }
  }

  lemma NumberEndMirror(t: Text, t': Text, d: int, lo: nat, hi: nat, i: nat)
    requires Mirror(t, t', d, lo, hi) && lo <= i < hi
    ensures NumberEnd(t', i + d) == NumberEnd(t, i) + d
  {
    DigitsEndMirror(t, t', d, lo, hi, i + 1, true);
    var m := DigitsEnd(t, i + 1, true);
    assert At(t', m + d) == At(t, m);
    assert m + d == DigitsEnd(t', i + d + 1, true);
    ExponentDigitsMirror(t, t', d, lo, hi, m);
    DigitsEndMirror(t, t', d, lo, hi, ExponentDigits(t, m), false);
  }

  lemma CodePointMirror(t: Text, t': Text, d: int, lo: nat, hi: nat, i: nat)
    requires Mirror(t, t', d, lo, hi) && lo <= i < hi
    ensures i + d < |t'| && CodePoint(t', i + d) == CodePoint(t, i) && i + CodePoint(t, i).1 <= hi
  {
    assert At(t', i + d) == At(t, i);
    assert At(t', i + 1 + d) == At(t, i + 1);
  }

  lemma {:induction false} IdentifierEndMirror(lexer: Lexer, t: Text, t': Text, d: int, lo: nat, hi: nat, i: nat)
    requires Mirror(t, t', d, lo, hi) && lo <= i <= hi
    ensures lexer.IdentifierEnd(t, i) <= hi && lexer.IdentifierEnd(t', i + d) == lexer.IdentifierEnd(t, i) + d
    decreases hi - i
  {
    MirrorEnds(t, t', d, lo, hi);
    if i < hi {
      CodePointMirror(t, t', d, lo, hi, i);
      if lexer.IdentifierPart(CodePoint(t, i).0) {
        IdentifierEndMirror(lexer, t, t', d, lo, hi, i + CodePoint(t, i).1);
      }
    } else {
      assert At(t', i + d) == At(t, i);
    }
  }

  lemma {:induction false} BlankBeforeMirror(t: Text, t': Text, d: int, lo: nat, hi: nat, i: nat)
    requires Mirror(t, t', d, lo, hi) && lo <= i <= hi
    ensures BlankBefore(t', i + d) == BlankBefore(t, i)
    decreases i
  {
    if i > lo {
      assert At(t', i - 1 + d) == At(t, i - 1);
      BlankBeforeMirror(t, t', d, lo, hi, i - 1);
    }
  }

  lemma {:induction false} BlankAfterMirror(t: Text, t': Text, d: int, lo: nat, hi: nat, i: nat)
    requires Mirror(t, t', d, lo, hi) && lo <= i <= hi
    ensures BlankAfter(t', i + d) == BlankAfter(t, i)
    decreases hi - i
  {
    MirrorEnds(t, t', d, lo, hi);
    assert At(t', i + d) == At(t, i);
    if i < hi {
      assert At(t', i + 1 + d) == At(t, i + 1);
      BlankAfterMirror(t, t', d, lo, hi, i + 1);
    }
  }

  lemma {:induction false} BlockEndMirror(lexer: Lexer, t: Text, t': Text, d: int, lo: nat, hi: nat, i: nat, depth: nat)
    requires Mirror(t, t', d, lo, hi) && lo <= i <= hi && lexer.BlockEnd(t, i, depth) <= hi
    ensures lexer.BlockEnd(t', i + d, depth) == lexer.BlockEnd(t, i, depth) + d
    decreases hi - i
  {
    MirrorEnds(t, t', d, lo, hi);
    assert At(t', i + d) == At(t, i);
    if i < hi && depth > 0 {
      assert At(t', i + 1 + d) == At(t, i + 1);
      var b := lexer.BlockDelta(t, i);
      BlockEndMirror(lexer, t, t', d, lo, hi, if b == 0 then i + 1 else i + 2, depth + b);
    }
  }

  /** Every test that selects the rule for a token sees the same answer. */
  lemma GuardsMirror(lexer: Lexer, t: Text, t': Text, d: int, lo: nat, hi: nat, i: nat)
    requires Mirror(t, t', d, lo, hi) && lo <= i < hi
    ensures i + d < |t'| && t'[i + d] == t[i] && At(t', i + 1 + d) == At(t, i + 1)
    ensures lexer.LineCommentAt(t', i + d) == lexer.LineCommentAt(t, i)
    ensures lexer.DollarTagAt(t', i + d) == lexer.DollarTagAt(t, i)
    ensures lexer.Escapes(t', i + d) == lexer.Escapes(t, i)
    ensures CodePoint(t', i + d) == CodePoint(t, i)
  {
    MirrorEnds(t, t', d, lo, hi);
    assert At(t', i + d) == At(t, i);
    assert At(t', i + 1 + d) == At(t, i + 1);
    if At(t, i + 1) == MINUS { assert At(t', i + 2 + d) == At(t, i + 2); }
    DollarTagMirror(t, t', d, lo, hi, i);
    CodePointMirror(t, t', d, lo, hi, i);
    if i > lo { assert At(t', i - 1 + d) == At(t, i - 1); }
  }

  lemma DollarTokenMirror(lexer: Lexer, t: Text, t': Text, d: int, lo: nat, hi: nat, i: nat)
    requires Mirror(t, t', d, lo, hi) && lo <= i < hi && i + d < |t'|
    requires lexer.DollarTagAt(t', i + d) == lexer.DollarTagAt(t, i) > 0
    requires lexer.DollarTokenEnd(t, i) <= hi
    ensures lexer.DollarTokenEnd(t', i + d) == lexer.DollarTokenEnd(t, i) + d
  {
    var n := lexer.DollarTagAt(t, i);
    DollarTagMirror(t, t', d, lo, hi, i);
    var tag, tag' := t[i..i + n], t'[i + d..i + d + n];
    assert tag' == tag by {
      MirrorSlice(t, t', d, lo, hi, i, i + n);
      assert i + d + n == i + n + d;
    }
    DollarEndMirror(t, t', d, lo, hi, tag, i + n);
    assert DollarEnd(t', tag, i + d + n) == DollarEnd(t', tag, i + n + d);
  }

  lemma WordKindMirror(lexer: Lexer, t: Text, t': Text, d: int, lo: nat, hi: nat, i: nat, e: nat)
    requires Mirror(t, t', d, lo, hi) && lo <= i <= e <= hi
    ensures lexer.WordKind(t', i + d, e + d) == lexer.WordKind(t, i, e)
  {
    MirrorSlice(t, t', d, lo, hi, i, e);
    BlankBeforeMirror(t, t', d, lo, hi, i);
    BlankAfterMirror(t, t', d, lo, hi, e);
  }

  /** The rules whose tokens may contain any unit. */
  lemma EnclosedEndMirror(lexer: Lexer, t: Text, t': Text, d: int, lo: nat, hi: nat, i: nat)
    requires Mirror(t, t', d, lo, hi) && lo <= i < hi && lexer.TokenEnd(t, i) <= hi
    requires lexer.LineCommentAt(t, i) || (t[i] == SLASH && At(t, i + 1) == STAR) || lexer.DollarTagAt(t, i) > 0
    ensures i + d < |t'| && lexer.TokenEnd(t', i + d) == lexer.TokenEnd(t, i) + d
  {
    GuardsMirror(lexer, t, t', d, lo, hi, i);
    if lexer.LineCommentAt(t, i) {
      LineEndMirror(t, t', d, lo, hi, i);
    } else if t[i] == SLASH && At(t, i + 1) == STAR {
      BlockEndMirror(lexer, t, t', d, lo, hi, i + 2, 1);
    } else {
      DollarTokenMirror(lexer, t, t', d, lo, hi, i);
    }
  }

  lemma QuotedTokenMirror(lexer: Lexer, t: Text, t': Text, d: int, lo: nat, hi: nat, i: nat)
    requires Mirror(t, t', d, lo, hi) && lo <= i < hi && lexer.TokenEnd(t, i) <= hi
    requires !lexer.LineCommentAt(t, i) && t[i] != SLASH && lexer.DollarTagAt(t, i) == 0 && lexer.QuotedAt(t[i])
    ensures i + d < |t'| && lexer.TokenEnd(t', i + d) == lexer.TokenEnd(t, i) + d
  {
    GuardsMirror(lexer, t, t', d, lo, hi, i);
    QuotedEndMirror(t, t', d, lo, hi, i + 1, lexer.Closing(t[i]), lexer.Escapes(t, i));
    assert i + 1 + d == i + d + 1;
  }

  lemma PlainEndMirror(lexer: Lexer, t: Text, t': Text, d: int, lo: nat, hi: nat, i: nat)
    requires Mirror(t, t', d, lo, hi) && lo <= i < hi && lexer.TokenEnd(t, i) <= hi
    requires !lexer.LineCommentAt(t, i) && !(t[i] == SLASH && At(t, i + 1) == STAR)
    requires lexer.DollarTagAt(t, i) == 0 && !lexer.QuotedAt(t[i])
    ensures i + d < |t'| && lexer.TokenEnd(t', i + d) == lexer.TokenEnd(t, i) + d
  {
    GuardsMirror(lexer, t, t', d, lo, hi, i);
    if IsDigit(t[i]) {
      NumberEndMirror(t, t', d, lo, hi, i);
    } else if lexer.IdentifierStart(CodePoint(t, i).0) {
      CodePointMirror(t, t', d, lo, hi, i);
      IdentifierEndMirror(lexer, t, t', d, lo, hi, i + CodePoint(t, i).1);
    }
  }

  lemma TokenEndMirror(lexer: Lexer, t: Text, t': Text, d: int, lo: nat, hi: nat, i: nat)
    requires Mirror(t, t', d, lo, hi) && lo <= i < hi && lexer.TokenEnd(t, i) <= hi
    ensures i + d < |t'| && lexer.TokenEnd(t', i + d) == lexer.TokenEnd(t, i) + d
  {
    if lexer.LineCommentAt(t, i) || (t[i] == SLASH && At(t, i + 1) == STAR) || lexer.DollarTagAt(t, i) > 0 {
      EnclosedEndMirror(lexer, t, t', d, lo, hi, i);
    } else if lexer.QuotedAt(t[i]) {
      QuotedTokenMirror(lexer, t, t', d, lo, hi, i);
    } else {
      PlainEndMirror(lexer, t, t', d, lo, hi, i);
    }
  }

  /** A token that ends inside the window is the same token, displaced. */
  lemma TokenMirror(lexer: Lexer, t: Text, t': Text, d: int, lo: nat, hi: nat, i: nat)
    requires Mirror(t, t', d, lo, hi) && lo <= i < hi && lexer.TokenAt(t, i).end <= hi
    ensures i + d < |t'| && lexer.TokenAt(t', i + d) == ShiftToken(lexer.TokenAt(t, i), d)
  {
    var e := lexer.TokenEnd(t, i);
    TokenEndMirror(lexer, t, t', d, lo, hi, i);
    assert lexer.TokenKind(t', i + d, e + d) == lexer.TokenKind(t, i, e) by {
      GuardsMirror(lexer, t, t', d, lo, hi, i);
      WordKindMirror(lexer, t, t', d, lo, hi, i, e);
    }
    MirrorSlice(t, t', d, lo, hi, i, e);
  }

  /** A semicolon met outside a token is a separator whatever follows it. */
  lemma SemicolonToken(lexer: Lexer, t: Text, i: nat)
    requires i < |t| && t[i] == SEMICOLON
    ensures lexer.TokenAt(t, i) == Token(Punctuation, [SEMICOLON], i, i + 1, false)
    ensures IsSeparator(lexer.TokenAt(t, i))
  {
    assert t[i..i + 1] == [SEMICOLON];
  }

  /** A token is settled by a window that reaches its end, or that stops at its semicolon. */
  predicate Settled(t: Text, tok: Token, hi: nat) {
    tok.end <= hi || (tok.start == hi < |t| && t[hi] == SEMICOLON)
  }

  lemma NextTokenMirror(lexer: Lexer, t: Text, t': Text, d: int, lo: nat, hi: nat, i: nat)
    requires Mirror(t, t', d, lo, hi) && lo <= i <= hi
    requires lexer.NextToken(t, i).Some? && Settled(t, lexer.NextToken(t, i).value, hi)
    ensures lexer.NextToken(t', i + d) == Some(ShiftToken(lexer.NextToken(t, i).value, d))
  {
    var s := SkipSpace(t, i);
    SkipSpaceMirror(t, t', d, lo, hi, i);
    assert At(t', s + d) == At(t, s);
    if s < hi {
      TokenMirror(lexer, t, t', d, lo, hi, s);
    } else {
      SemicolonToken(lexer, t, s);
      SemicolonToken(lexer, t', s + d);
    }
  }

  lemma NoTokenMirror(lexer: Lexer, t: Text, t': Text, d: int, lo: nat, i: nat)
    requires Mirror(t, t', d, lo, |t|) && lo <= i <= |t|
    requires lexer.NextToken(t, i).None?
    ensures lexer.NextToken(t', i + d).None?
  {
    SkipSpaceMirror(t, t', d, lo, |t|, i);
    MirrorEnds(t, t', d, lo, |t|);
  }

  lemma ShiftTokensCons(tok: Token, toks: seq<Token>, d: int)
    ensures ShiftTokens([tok] + toks, d) == [ShiftToken(tok, d)] + ShiftTokens(toks, d)
  {
  }

  /** The untouched end of a text has the same tokens, displaced. */
  lemma {:induction false} TokensMirror(lexer: Lexer, t: Text, t': Text, d: int, lo: nat, i: nat)
    requires Mirror(t, t', d, lo, |t|) && lo <= i <= |t|
    ensures lexer.Tokens(t', i + d) == ShiftTokens(lexer.Tokens(t, i), d)
    decreases |t| - i
  {
    hide Lexer.NextToken, Mirror;
    match lexer.NextToken(t, i)
    case None =>
      NoTokenMirror(lexer, t, t', d, lo, i);
    case Some(tok) =>
      NextTokenMirror(lexer, t, t', d, lo, |t|, i);
      TokensMirror(lexer, t, t', d, lo, tok.end);
      ShiftTokensCons(tok, lexer.Tokens(t, tok.end), d);
  }

  /** Scanning may restart at the end of any token. */
  lemma {:induction false} TokensRest(lexer: Lexer, t: Text, i: nat, m: nat)
    requires i <= |t| && 0 < m <= |lexer.Tokens(t, i)|
    ensures var e := lexer.Tokens(t, i)[m - 1].end; lexer.Tokens(t, i)[m..] == lexer.Tokens(t, e)
    ensures forall k | 0 <= k < m - 1 :: lexer.Tokens(t, i)[k].end <= lexer.Tokens(t, i)[m - 1].start
    decreases |t| - i
  {
    var tok := lexer.NextToken(t, i).value;
    if m > 1 { TokensRest(lexer, t, tok.end, m - 1); }
  }

  /** Two texts that agree up to a window's edge share the tokens the window settles. */
  lemma {:induction false} StableTokens(lexer: Lexer, t: Text, t': Text, hi: nat, i: nat, m: nat)
    requires Mirror(t, t', 0, 0, hi) && i <= |t| && i <= |t'| && m <= |lexer.Tokens(t, i)|
    requires m > 0 ==> Settled(t, lexer.Tokens(t, i)[m - 1], hi)
    ensures m <= |lexer.Tokens(t', i)| && lexer.Tokens(t', i)[..m] == lexer.Tokens(t, i)[..m]
    decreases m
  {
    hide Lexer.NextToken;
    if m > 0 {
      var tok := lexer.NextToken(t, i).value;
      TokensRest(lexer, t, i, m);
      assert Settled(t, tok, hi);
      NextTokenMirror(lexer, t, t', 0, 0, hi, i);
      assert ShiftToken(tok, 0) == tok;
      StableTokens(lexer, t, t', hi, tok.end, m - 1);
      SamePrefix(tok, lexer.Tokens(t, tok.end), lexer.Tokens(t', tok.end), m);
    }
  }

  lemma SamePrefix<A>(x: A, xs: seq<A>, ys: seq<A>, m: nat)
    requires 0 < m <= |xs| + 1 && m <= |ys| + 1 && ys[..m - 1] == xs[..m - 1]
    ensures ([x] + ys)[..m] == ([x] + xs)[..m]
  {
    assert ([x] + xs)[..m] == [x] + xs[..m - 1];
    assert ([x] + ys)[..m] == [x] + ys[..m - 1];
  }

  /** What a separator token says about the text around it. */
  predicate EndsStatement(dialect: Dialect, t: Text, tok: Token)
    requires 0 <= tok.start < tok.end <= |t|
  {
    || (tok.end == tok.start + 1 && t[tok.start] == SEMICOLON)
    || (dialect == Sqlserver && tok.end == tok.start + 2 && IsGoWord(t[tok.start..tok.end])
        && BlankBefore(t, tok.start) && BlankAfter(t, tok.end))
  }

  lemma SeparatorShape(lexer: Lexer, t: Text, i: nat)
    requires i < |t| && IsSeparator(lexer.TokenAt(t, i))
    ensures EndsStatement(lexer.dialect, t, lexer.TokenAt(t, i))
  {
    var e := lexer.TokenEnd(t, i);
    assert |t[i..e]| == e - i && t[i..e][0] == t[i];
  }

  lemma {:induction false} SeparatorsShape(lexer: Lexer, t: Text, i: nat, k: nat)
    requires i <= |t| && k < |lexer.Tokens(t, i)| && IsSeparator(lexer.Tokens(t, i)[k])
    ensures EndsStatement(lexer.dialect, t, lexer.Tokens(t, i)[k])
    decreases k
  {
    var tok := lexer.NextToken(t, i).value;
    if k == 0 { SeparatorShape(lexer, t, SkipSpace(t, i)); }
    else { SeparatorsShape(lexer, t, tok.end, k - 1); }
  }
}
