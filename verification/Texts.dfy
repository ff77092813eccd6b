/** What the scanner and the parser make of some texts, for every way of classifying what is beyond ASCII. */
module Texts {
  import opened SqlText
  import opened Tokenizer
  import opened ScopeParser
  import opened BlockParser
  import opened ParserRaises

  // ---- scanning plain words ----

  predicate Letters(t: Text, i: nat, e: nat) {
    i < e <= |t| && forall k | i <= k < e :: IsLetter(t[k])
  }

  /** No identifier goes on at an offset. */
  predicate WordStops(t: Text, e: nat) {
    e == |t| || (e < |t| && t[e] < 0x80 && !IsTagPart(t[e]) && t[e] != DOLLAR)
  }

  lemma {:induction false} LettersEnd(lexer: Lexer, t: Text, i: nat, e: nat)
    requires i <= e <= |t| && (forall k | i <= k < e :: IsLetter(t[k])) && WordStops(t, e)
    ensures lexer.IdentifierEnd(t, i) == e
    decreases e - i
  {
    if i < e { LettersEnd(lexer, t, i + 1, e); }
  }

  lemma {:induction false} LettersWordEnd(lexer: Lexer, t: Text, i: nat, e: nat)
    requires Letters(t, i, e) && WordStops(t, e)
    ensures lexer.WordEnd(t, i) == e && IsLetter(t[i])
  {
    LettersEnd(lexer, t, i + 1, e);
    hide Lexer.IdentifierEnd, WordStops;
  }

  lemma {:induction false} WordToken(lexer: Lexer, t: Text, i: nat, e: nat)
    requires Letters(t, i, e) && WordStops(t, e)
    ensures lexer.TokenAt(t, i) == Token(lexer.WordKind(t, i, e), t[i..e], i, e, false)
  {
    hide Lexer.TokenEnd, Lexer.TokenKind, Lexer.WordEnd, Lexer.WordKind, WordStops;
    LettersWordEnd(lexer, t, i, e);
    LetterStarts(lexer, t, i);
  }

  lemma {:induction false} LetterStarts(lexer: Lexer, t: Text, i: nat)
    requires i < |t| && IsLetter(t[i])
    ensures lexer.TokenEnd(t, i) == lexer.WordEnd(t, i)
    ensures lexer.TokenKind(t, i, lexer.TokenEnd(t, i)) == (lexer.WordKind(t, i, lexer.WordEnd(t, i)), false)
  {
    hide Lexer.BlockEnd, Lexer.DollarTokenEnd, Lexer.IsKeyword, Lexer.IdentifierEnd, Lexer.WordEnd, Lexer.WordKind,
         Lexer.Escapes, LineEnd, QuotedEnd, NumberEnd;
    assert lexer.DollarTagAt(t, i) == 0 by { assert DollarTag(t, i) == 0; }
    assert CodePoint(t, i).0 == t[i];
  }

  lemma {:induction false} SignToken(lexer: Lexer, t: Text, i: nat)
    requires i < |t| && (IsPunctuation(t[i]) || t[i] == STAR)
    ensures lexer.TokenAt(t, i)
            == Token(if IsPunctuation(t[i]) then Punctuation else Operator, t[i..i + 1], i, i + 1, false)
  {
    hide Lexer.BlockEnd, Lexer.DollarTokenEnd, Lexer.IsKeyword, Lexer.IdentifierEnd, Lexer.WordEnd, Lexer.WordKind,
         Lexer.Escapes, LineEnd, QuotedEnd, NumberEnd;
    assert lexer.DollarTagAt(t, i) == 0 by { assert DollarTag(t, i) == 0; }
    assert CodePoint(t, i).0 == t[i];
  }

  lemma {:induction false} DigitToken(lexer: Lexer, t: Text, i: nat)
    requires i + 1 < |t| && IsDigit(t[i]) && t[i + 1] == 0x20
    ensures lexer.TokenAt(t, i) == Token(Number, t[i..i + 1], i, i + 1, false)
  {
    assert NumberEnd(t, i) == i + 1;
    hide Lexer.BlockEnd, Lexer.DollarTokenEnd, Lexer.IsKeyword, Lexer.IdentifierEnd, Lexer.WordEnd, Lexer.WordKind,
         Lexer.Escapes, LineEnd, QuotedEnd, NumberEnd;
    assert lexer.DollarTagAt(t, i) == 0 by { assert DollarTag(t, i) == 0; }
  }

  /** One blank, or none, and the token behind it. */
  lemma OneToken(lexer: Lexer, t: Text, i: nat, s: nat)
    requires i <= s <= i + 1 && s < |t| && !IsSpace(t[s]) && (i < s ==> t[i] == 0x20)
    ensures lexer.Tokens(t, i) == [lexer.TokenAt(t, s)] + lexer.Tokens(t, lexer.TokenAt(t, s).end)
  {
    hide Lexer.TokenAt;
    assert SkipSpace(t, s) == s;
    assert SkipSpace(t, i) == s;
    hide IsSpace, SkipSpace;
  }

  lemma {:induction false} UpperKeeps(lexer: Lexer, w: Text)
    requires forall k | 0 <= k < |w| :: 0x41 <= w[k] <= 0x5A
    ensures lexer.Upper(w) == w
  {
    if w != [] { UpperKeeps(lexer, w[1..]); }
  }

  /** A word of more than two letters is no batch separator. */
  lemma WordKindOf(lexer: Lexer, t: Text, i: nat, e: nat)
    requires i < e <= |t| && e - i != 2
    ensures lexer.WordKind(t, i, e) == if lexer.IsKeyword(t[i..e]) then Keyword else Identifier
  {
  }

  lemma ClauseWordsLong()
    ensures forall k | 0 <= k < |CLAUSE_WORDS| :: |CLAUSE_WORDS[k]| >= 2
  {
  }

  lemma ExpressionWordsLong()
    ensures forall k | 0 <= k < |EXPRESSION_WORDS| :: |EXPRESSION_WORDS[k]| >= 2
  {
  }

  lemma StatementWordsLong()
    ensures forall k | 0 <= k < |STATEMENT_WORDS| :: |STATEMENT_WORDS[k]| >= 2
  {
  }

  lemma KeywordsLong()
    ensures forall k | 0 <= k < |KEYWORDS| :: |KEYWORDS[k]| >= 2
  {
    hide CLAUSE_WORDS, EXPRESSION_WORDS, STATEMENT_WORDS;
    ClauseWordsLong();
    ExpressionWordsLong();
    StatementWordsLong();
  }

  lemma {:induction false} OneLetterName(lexer: Lexer, t: Text, i: nat)
    requires i < |t| && IsLetter(t[i])
    ensures lexer.WordKind(t, i, i + 1) == Identifier
  {
    hide KEYWORDS;
    KeywordsLong();
    var w := t[i..i + 1];
    assert w[1..] == [] && |lexer.Upper(w)| == 1;
    hide Lexer.Upper;
    forall k | 0 <= k < |KEYWORDS| ensures Ascii(KEYWORDS[k]) != lexer.Upper(w) {
      assert |Ascii(KEYWORDS[k])| == |KEYWORDS[k]|;
    }
  }

  lemma {:induction false} WordStep(lexer: Lexer, t: Text, i: nat, s: nat, e: nat)
    requires i <= s <= i + 1 && Letters(t, s, e) && WordStops(t, e) && (i < s ==> t[i] == 0x20)
    ensures lexer.Tokens(t, i) == [Token(lexer.WordKind(t, s, e), t[s..e], s, e, false)] + lexer.Tokens(t, e)
  {
    hide Lexer.TokenAt, Lexer.Tokens, Lexer.WordKind, WordStops;
    assert !IsSpace(t[s]) by { assert IsLetter(t[s]); }
    hide IsSpace, Letters;
    WordToken(lexer, t, s, e);
    OneToken(lexer, t, i, s);
  }

  lemma {:induction false} NameToken(lexer: Lexer, t: Text, i: nat)
    requires i < |t| && IsLetter(t[i]) && WordStops(t, i + 1)
    ensures lexer.TokenAt(t, i) == Token(Identifier, [t[i]], i, i + 1, false)
  {
    WordToken(lexer, t, i, i + 1);
    OneLetterName(lexer, t, i);
    assert t[i..i + 1] == [t[i]];
  }

  lemma {:induction false} NameStep(lexer: Lexer, t: Text, i: nat, s: nat)
    requires i <= s <= i + 1 && s < |t| && IsLetter(t[s]) && WordStops(t, s + 1) && (i < s ==> t[i] == 0x20)
    ensures lexer.Tokens(t, i) == [Token(Identifier, [t[s]], s, s + 1, false)] + lexer.Tokens(t, s + 1)
  {
    hide Lexer.TokenAt, Lexer.Tokens;
    assert !IsSpace(t[s]);
    NameToken(lexer, t, s);
    hide IsSpace, WordStops;
    OneToken(lexer, t, i, s);
  }

  /** Token after token, to the end. */
  lemma {:induction false} Chained<E>(s: seq<seq<E>>, es: seq<E>, k: nat)
    requires |s| == |es| + 1 && s[|es|] == [] && k <= |es| && forall k | 0 <= k < |es| :: s[k] == [es[k]] + s[k + 1]
    ensures s[k] == es[k..]
    decreases |es| - k
  {
    if k < |es| {
      Chained(s, es, k + 1);
      assert es[k..] == [es[k]] + es[k + 1..];
    }
  }

  predicate IsWord(kind: Kind) { kind == Keyword || kind == Identifier }

  // ---- parsing few tokens ----

  lemma {:induction false} ShortIsOther(lexer: Lexer, lex: Lexeme)
    requires |lex.text| == 1 && lex.text[0] < 0x80
    ensures WordOf(lexer, lex) == Other
  {
    assert lex.text[1..] == [] && |lexer.Upper(lex.text)| == 1;
  }

  function Six(): (r: seq<nat>)
    ensures |r| == 6 && forall k :: 0 <= k < 6 ==> r[k] == k
  {
    [0, 1, 2, 3, 4, 5]
  }

  lemma {:induction false} TopStep(env: Env, lo: nat, hi: nat)
    requires lo < hi && env.Closed(lo, hi) && !env.Open(lo)
    ensures env.Closed(lo + 1, hi) && env.Top(lo, hi) == [lo] + env.Top(lo + 1, hi)
  {
  }

  lemma {:induction false} NoneKept(s: seq<nat>, f: nat -> bool)
    requires forall i | i in s :: !f(i)
    ensures Filter(s, f) == [] && First(s, f) == None
  {
    if s != [] { NoneKept(s[1..], f); }
  }

  lemma {:induction false} SimpleTop(env: Env, top: seq<nat>)
    requires forall i | i in top :: env.W(i) == SELECT || env.W(i) == FROM || env.W(i) == Other
    ensures env.SetOperators(top) == [] && env.FirstUnsupported(top) == None
  {
    NoneKept(top, (i: nat) => IsSet(env.W(i)));
    NoneKept(top, (i: nat) => env.Unsupported(top, i));
  }

  lemma PlainQuery(env: Env, toks: seq<Token>, range: Range, top: seq<nat>, p: Progress, s: Stage)
    requires |toks| == |env.lex| && env.Ready(0, |toks|) && 0 < |toks| && env.W(0) == SELECT
    requires top == env.Top(0, |toks|) && env.SetOperators(top) == []
             && Select(env, toks, 0, |toks|, range, 0, top, p) == s
    ensures Declarations(env, toks, 0, |toks|, p) == Going(0, p) && Query(env, toks, 0, |toks|, range, Going(0, p)) == s
  {
    hide Env.Top, Env.SetOperators, Select, Compound, Ctes;
  }

  lemma {:induction false} PastToken(env: Env, toks: seq<Token>, i: nat, p: Progress)
    requires |toks| == |env.lex| && i < |toks| && env.Ready(i, |toks|) && env.Ready(i + 1, |toks|) && !env.Open(i)
    ensures Expressions(env, toks, i, |toks|, p) == Expressions(env, toks, i + 1, |toks|, p)
  {
    hide Env.Ready, Env.Open, Expression, MoreExpressions;
  }

  // ---- a set operator at the end ----

  const UNFINISHED_UNION := "SELECT 1 UNION"

  predicate Unfinished(t: Text) {
    |t| == 14 && Letters(t, 0, 6) && t[6] == 0x20 && t[7] == 0x31 && t[8] == 0x20 && Letters(t, 9, 14)
  }

  lemma UnfinishedUnits(t: Text)
    requires t == Ascii(UNFINISHED_UNION)
    ensures Unfinished(t) && t[0..6] == Ascii("SELECT") && t[9..14] == Ascii("UNION")
  {
  }

  lemma {:induction false} DigitStep(lexer: Lexer, t: Text, i: nat)
    requires i + 2 < |t| && t[i] == 0x20 && IsDigit(t[i + 1]) && t[i + 2] == 0x20
    ensures lexer.Tokens(t, i) == [Token(Number, [t[i + 1]], i + 1, i + 2, false)] + lexer.Tokens(t, i + 2)
  {
    hide Lexer.TokenAt, Lexer.Tokens;
    assert !IsSpace(t[i + 1]) && t[i + 1..i + 2] == [t[i + 1]];
    hide IsSpace;
    DigitToken(lexer, t, i + 1);
    OneToken(lexer, t, i, i + 1);
  }

  lemma {:induction false} UnfinishedTokens(lexer: Lexer, t: Text)
    requires Unfinished(t)
    ensures lexer.Tokens(t, 0)
            == [Token(lexer.WordKind(t, 0, 6), t[0..6], 0, 6, false), Token(Number, [0x31], 7, 8, false),
                                   Token(lexer.WordKind(t, 9, 14), t[9..14], 9, 14, false)]
  {
    assert WordStops(t, 6) && WordStops(t, 14) && lexer.Tokens(t, 14) == [];
    hide Lexer.Tokens, Lexer.WordKind, Letters, WordStops;
    WordStep(lexer, t, 0, 0, 6);
    DigitStep(lexer, t, 6);
    WordStep(lexer, t, 8, 9, 14);
  }

  // ---- what the parser sees ----

  lemma {:induction false} AllRelevant(all: seq<Token>, statement: Range)
    requires forall k | 0 <= k < |all| :: Relevant(all[k], statement)
    ensures RelevantTokens(all, statement) == all
  {
    if all != [] { AllRelevant(all[1..], statement); }
  }

  lemma {:induction false} WordFound(words: seq<(string, Word)>, k: nat, upper: Text)
    requires k < |words| && |upper| >= 2 && Ascii(words[k].0) == upper
             && forall j | 0 <= j < k :: Ascii(words[j].0) != upper
    ensures WordIn(words, upper) == words[k].1
  {
    if k > 0 { WordFound(words[1..], k - 1, upper); }
  }

  lemma Words(lexer: Lexer)
    ensures WordIn(WORDS, lexer.Upper(Ascii("SELECT"))) == SELECT && WordIn(WORDS, lexer.Upper(Ascii("UNION"))) == UNION
    ensures WordIn(WORDS, lexer.Upper(Ascii("FROM"))) == FROM
  {
    UpperKeeps(lexer, Ascii("SELECT"));
    UpperKeeps(lexer, Ascii("UNION"));
    UpperKeeps(lexer, Ascii("FROM"));
    assert WORDS[0] == ("SELECT", SELECT) && WORDS[4] == ("FROM", FROM) && WORDS[5] == ("UNION", UNION);
    hide Lexer.Upper, WordIn;
    WordFound(WORDS, 0, Ascii("SELECT"));
    WordFound(WORDS, 4, Ascii("FROM"));
    WordFound(WORDS, 5, Ascii("UNION"));
  }

  lemma {:induction false} NoParentheses(lex: seq<Lexeme>, i: nat, p: Parens)
    requires i <= |lex| && forall k | i <= k < |lex| :: !IsOpen(lex, k) && !IsClose(lex, k)
    ensures PairFrom(lex, i, [], p) == p
    decreases |lex| - i
  {
    if i < |lex| { NoParentheses(lex, i + 1, p); }
  }

  lemma RelevantUnfinished(all: seq<Token>)
    requires |all| == 3 && all[0].text == Ascii("SELECT") && all[2].text == Ascii("UNION") && all[1].text == [0x31]
             && all[1].kind == Number
    requires forall k | 0 <= k < 3 :: 0 <= all[k].start && all[k].end <= 14
    requires forall k | k == 0 || k == 2 :: all[k].kind == Keyword || all[k].kind == Identifier
    ensures RelevantTokens(all, Range(0, 14)) == all
  {
    assert |Ascii("SELECT")| == 6 && |Ascii("UNION")| == 5;
    hide Ascii;
    AllRelevant(all, Range(0, 14));
  }

  lemma UnfinishedWords(lexer: Lexer, toks: seq<Token>)
    requires |toks| == 3 && toks[0].text == Ascii("SELECT") && toks[2].text == Ascii("UNION") && toks[1].text == [0x31]
             && toks[1].kind == Number
    requires forall k | k == 0 || k == 2 :: !toks[k].quoted && (toks[k].kind == Keyword || toks[k].kind == Identifier)
    ensures var env := EnvOf(lexer, toks); env.W(0) == SELECT && RunsOut(env) && PairParens(env.lex).invalid.None?
  {
    Words(lexer);
    var env := EnvOf(lexer, toks);
    assert |Ascii("SELECT")| == 6 && |Ascii("UNION")| == 5;
    NoParentheses(env.lex, 0, Parens(map[], None));
    hide WordIn, Ascii, PairFrom, Lexer.Upper;
  }

  /** A set operator with nothing behind it: the parser raises. */
  lemma UnfinishedUnionRaises(lexer: Lexer)
    ensures ParseBlocks(lexer, lexer.Tokens(Ascii(UNFINISHED_UNION), 0), Range(0, 14)).Throws?
  {
    var t := Ascii(UNFINISHED_UNION);
    var all := lexer.Tokens(t, 0);
    UnfinishedUnits(t);
    UnfinishedTokens(lexer, t);
    WordKindOf(lexer, t, 0, 6);
    WordKindOf(lexer, t, 9, 14);
    hide Ascii, Lexer.Tokens, Lexer.WordKind, RelevantTokens, RunsOut, EnvOf, PairParens;
    RelevantUnfinished(all);
    UnfinishedWords(lexer, all);
    SelectRaisesIff(lexer, all, Range(0, 14));
  }
}
