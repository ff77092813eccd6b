/** A text whose last operand is taken for a name: what is claimed for it is not what it means. */
module OperandText {
  import opened SqlText
  import opened Tokenizer
  import opened ScopeParser
  import opened BlockParser
  import opened Texts
  import opened Projection
  import opened ProjectionMeaning
  import opened Scopes

  const DIVIDED := "SELECT a DIV b FROM t"

  const T := 0x74
  const A := 0x61
  const B := 0x62
  const DIV: Text := [0x44, 0x49, 0x56]

  // ---- its tokens ----

  function Tokens6(select: Kind, from: Kind): seq<Token> {
    [Token(select, Ascii("SELECT"), 0, 6, false), Token(Identifier, [A], 7, 8, false),
     Token(Identifier, DIV, 9, 12, false),
     Token(Identifier, [B], 13, 14, false), Token(from, Ascii("FROM"), 15, 19, false),
     Token(Identifier, [T], 20, 21, false)]
  }

  predicate Units(t: Text) {
    && |t| == 21 && Letters(t, 0, 6) && t[6] == 0x20 && t[7] == A && t[8] == 0x20 && Letters(t, 9, 12) && t[12] == 0x20
    && t[13] == B && t[14] == 0x20 && Letters(t, 15, 19) && t[19] == 0x20 && t[20] == T
  }

  lemma {:induction false} DividedUnits(t: Text)
    requires t == Ascii(DIVIDED)
    ensures Units(t) && t[0..6] == Ascii("SELECT") && t[9..12] == DIV && t[15..19] == Ascii("FROM")
  {
    assert t[9] == 0x44 && t[10] == 0x49 && t[11] == 0x56;
  }

  predicate NoneStartsWithD(words: seq<string>) {
    forall k | 0 <= k < |words| :: |words[k]| == 3 ==> words[k][0] as int % 0x80 != 0x44
  }

  lemma ClauseWordsApart()
    ensures NoneStartsWithD(CLAUSE_WORDS)
  {
  }

  lemma ExpressionWordsApart()
    ensures NoneStartsWithD(EXPRESSION_WORDS)
  {
  }

  lemma StatementWordsApart()
    ensures NoneStartsWithD(STATEMENT_WORDS)
  {
  }

  lemma KeywordsApart()
    ensures NoneStartsWithD(KEYWORDS)
  {
    hide CLAUSE_WORDS, EXPRESSION_WORDS, STATEMENT_WORDS;
    ClauseWordsApart();
    ExpressionWordsApart();
    StatementWordsApart();
  }

  lemma {:induction false} SpelledApart(w: string)
    requires |w| == 3 ==> w[0] as int % 0x80 != 0x44
    ensures Ascii(w) != DIV
  {
    assert |w| == 3 ==> Ascii(w)[0] == w[0] as int % 0x80;
  }

  /** The scanner knows no such word. */
  lemma {:induction false} DivIsName(lexer: Lexer)
    ensures lexer.Upper(DIV) == DIV && !lexer.IsKeyword(DIV)
  {
    UpperKeeps(lexer, DIV);
    KeywordsApart();
    hide KEYWORDS, Lexer.Upper, DIV, Ascii;
    forall k | 0 <= k < |KEYWORDS| ensures Ascii(KEYWORDS[k]) != DIV { SpelledApart(KEYWORDS[k]); }
  }

  lemma {:induction false} DividedHeadTokens(lexer: Lexer, t: Text)
    requires Units(t)
    ensures lexer.Tokens(t, 0) == [Token(lexer.WordKind(t, 0, 6), t[0..6], 0, 6, false)] + lexer.Tokens(t, 6)
    ensures lexer.Tokens(t, 6) == [Token(Identifier, [A], 7, 8, false)] + lexer.Tokens(t, 8)
    ensures lexer.Tokens(t, 8) == [Token(lexer.WordKind(t, 9, 12), t[9..12], 9, 12, false)] + lexer.Tokens(t, 12)
  {
    assert WordStops(t, 6) && WordStops(t, 8) && WordStops(t, 12) && IsLetter(t[7]);
    hide Lexer.Tokens, Lexer.WordKind, Letters, WordStops;
    WordStep(lexer, t, 0, 0, 6);
    NameStep(lexer, t, 6, 7);
    WordStep(lexer, t, 8, 9, 12);
  }

  lemma {:induction false} DividedTailTokens(lexer: Lexer, t: Text)
    requires Units(t)
    ensures lexer.Tokens(t, 12) == [Token(Identifier, [B], 13, 14, false)] + lexer.Tokens(t, 14)
    ensures lexer.Tokens(t, 14) == [Token(lexer.WordKind(t, 15, 19), t[15..19], 15, 19, false)] + lexer.Tokens(t, 19)
    ensures lexer.Tokens(t, 19) == [Token(Identifier, [T], 20, 21, false)] + []
  {
    assert lexer.Tokens(t, 21) == [];
    assert WordStops(t, 14) && WordStops(t, 19) && WordStops(t, 21) && IsLetter(t[13]) && IsLetter(t[20]);
    hide Lexer.Tokens, Lexer.WordKind, Letters, WordStops;
    NameStep(lexer, t, 12, 13);
    WordStep(lexer, t, 14, 15, 19);
    NameStep(lexer, t, 19, 20);
  }

  lemma {:induction false} DividedScan(lexer: Lexer, t: Text, es: seq<Token>)
    requires Units(t) && |es| == 6
    requires es[0] == Token(lexer.WordKind(t, 0, 6), t[0..6], 0, 6, false)
             && es[1] == Token(Identifier, [A], 7, 8, false)
    requires es[2] == Token(lexer.WordKind(t, 9, 12), t[9..12], 9, 12, false)
             && es[3] == Token(Identifier, [B], 13, 14, false)
    requires es[4] == Token(lexer.WordKind(t, 15, 19), t[15..19], 15, 19, false)
             && es[5] == Token(Identifier, [T], 20, 21, false)
    ensures lexer.Tokens(t, 0) == es
  {
    hide Lexer.Tokens, Lexer.WordKind, Letters;
    DividedHeadTokens(lexer, t);
    DividedTailTokens(lexer, t);
    Chained([lexer.Tokens(t, 0), lexer.Tokens(t, 6), lexer.Tokens(t, 8), lexer.Tokens(t, 12), lexer.Tokens(t, 14),
             lexer.Tokens(t, 19), []],
            es, 0);
  }

  lemma {:induction false} DividedTokens(lexer: Lexer) returns (select: Kind, from: Kind)
    ensures lexer.Tokens(Ascii(DIVIDED), 0) == Tokens6(select, from) && IsWord(select) && IsWord(from)
    ensures RelevantTokens(Tokens6(select, from), Range(0, 21)) == Tokens6(select, from)
  {
    hide Ascii, Letters, Lexer.Tokens, Lexer.WordKind, RelevantTokens, DIVIDED, Lexer.IsKeyword, DIV;
    var t := Ascii(DIVIDED);
    DividedUnits(t);
    assert |t| == 21;
    hide Units;
    select, from := lexer.WordKind(t, 0, 6), lexer.WordKind(t, 15, 19);
    WordKindOf(lexer, t, 0, 6);
    WordKindOf(lexer, t, 9, 12);
    WordKindOf(lexer, t, 15, 19);
    DivIsName(lexer);
    AllDivided(select, from);
    DividedScan(lexer, t, Tokens6(select, from));
  }

  lemma {:induction false} AllDivided(select: Kind, from: Kind)
    requires IsWord(select) && IsWord(from)
    ensures RelevantTokens(Tokens6(select, from), Range(0, 21)) == Tokens6(select, from)
  {
    assert |Ascii("SELECT")| == 6 && |Ascii("FROM")| == 4;
    hide Ascii;
    AllRelevant(Tokens6(select, from), Range(0, 21));
  }

  // ---- its parse ----

  /** What the parser sees of it. */
  ghost predicate Sees(env: Env) {
    && |env.lex| == 6 && |env.words| == 6 && env.pairs == map[]
    && env.words[0] == SELECT && env.words[4] == FROM
    && (forall i | 0 <= i < 6 && i != 0 && i != 4 :: env.words[i] == Other)
    && env.lex[5] == Lexeme(Kind.Identifier, [T], false)
    && (forall i | 0 <= i < 6 :: !IsOpen(env.lex, i) && !IsClose(env.lex, i) && !env.Dot(i) && !env.Comma(i))
  }

  predicate NoneIsDiv(words: seq<(string, Word)>) {
    forall k | 0 <= k < |words| :: |words[k].0| == 3 ==> words[k].0[0] as int % 0x80 != 0x44
  }

  lemma {:induction false} NotAWord(words: seq<(string, Word)>)
    requires NoneIsDiv(words)
    ensures WordIn(words, DIV) == Other
  {
    if words != [] {
      NotAWord(words[1..]);
      SpelledApart(words[0].0);
    }
  }

  lemma QueryWordsApart()
    ensures NoneIsDiv(QUERY_WORDS)
  {
  }

  lemma OtherWordsApart()
    ensures NoneIsDiv(OTHER_WORDS)
  {
  }

  lemma DivIsOther(lexer: Lexer)
    ensures WordOf(lexer, Lexeme(Identifier, DIV, false)) == Other
  {
    QueryWordsApart();
    OtherWordsApart();
    DivIsName(lexer);
    hide QUERY_WORDS, OTHER_WORDS, WordIn, DIV, Lexer.Upper;
    NotAWord(WORDS);
  }

  lemma {:induction false} DividedLex(lexer: Lexer, select: Kind, from: Kind)
    ensures var env, toks := EnvOf(lexer, Tokens6(select, from)), Tokens6(select, from);
            && |env.lex| == 6 && |env.words| == 6 && env.dialect == lexer.dialect
            && (forall i | 0 <= i < 6 :: env.lex[i] == Lexeme(toks[i].kind, toks[i].text, toks[i].quoted))
            && (forall i | 0 <= i < 6 :: env.words[i] == WordOf(lexer, env.lex[i]))
  {
    hide WordOf, PairParens, Ascii;
  }

  lemma {:induction false} DividedWords(lexer: Lexer, select: Kind, from: Kind)
    requires IsWord(select) && IsWord(from)
    ensures var words := EnvOf(lexer, Tokens6(select, from)).words;
            && |words| == 6 && words[0] == SELECT && words[4] == FROM
            && forall i | 0 <= i < 6 && i != 0 && i != 4 :: words[i] == Other
  {
    var toks := Tokens6(select, from);
    var env := EnvOf(lexer, toks);
    DividedLex(lexer, select, from);
    Words(lexer);
    DivIsOther(lexer);
    hide Ascii, PairParens, ClosedIdentifier;
    assert WordOf(lexer, env.lex[0]) == SELECT && WordOf(lexer, env.lex[4]) == FROM;
    hide EnvOf, WordIn, Lexer.Upper, WordOf, WORDS;
    ShortIsOther(lexer, env.lex[1]);
    ShortIsOther(lexer, env.lex[3]);
    ShortIsOther(lexer, env.lex[5]);
  }

  lemma {:induction false} DividedSees(lexer: Lexer, select: Kind, from: Kind)
    requires IsWord(select) && IsWord(from)
    ensures Sees(EnvOf(lexer, Tokens6(select, from)))
            && PairParens(EnvOf(lexer, Tokens6(select, from)).lex).invalid.None?
  {
    var env := EnvOf(lexer, Tokens6(select, from));
    DividedLex(lexer, select, from);
    DividedWords(lexer, select, from);
    assert |Ascii("SELECT")| == 6 && |Ascii("FROM")| == 4;
    assert env.pairs == PairParens(env.lex).pairs;
    hide Ascii, EnvOf, WordOf, PairFrom;
    NoParentheses(env.lex, 0, Parens(map[], None));
  }

  lemma {:induction false} DividedTop(env: Env)
    requires Sees(env) && env.Ready(0, 6)
    ensures env.Top(0, 6) == Six()
  {
    assert !env.Open(0) && !env.Open(1) && !env.Open(2) && !env.Open(3) && !env.Open(4) && !env.Open(5);
    assert env.Closed(6, 6) && env.Closed(5, 6) && env.Closed(4, 6) && env.Closed(3, 6) && env.Closed(2, 6)
           && env.Closed(1, 6);
    assert env.Top(6, 6) == [];
    hide Sees, Env.Ready, Env.Closed, Env.Open, Nested, Env.EndMark, Env.Top;
    TopStep(env, 5, 6);
    TopStep(env, 4, 6);
    TopStep(env, 3, 6);
    TopStep(env, 2, 6);
    TopStep(env, 1, 6);
    TopStep(env, 0, 6);
  }

  /** The relation the parser keeps. */
  function Kept(start: int): FromRef {
    FromRef(start, TableRef, start, [T], false, None, None, None, None, false)
  }

  lemma {:induction false} DividedRelation(env: Env, toks: seq<Token>, p: Progress)
    requires Sees(env) && env.Ready(0, 6) && |toks| == 6
    ensures RelationAfter(env, toks, 0, 6, 4, p) == Going(6, AddRef(p, Kept(toks[5].start)))
  {
    assert env.Parts(6, [5]) == ([5], 6);
    assert AliasAt(env, 6) == (None, 6);
    assert NamedAt(env, 5) == Some(NamedRelation(Column([T], false), None, RelationTail(None, None, 6)));
    hide NamedAt;
  }

  lemma {:induction false} DividedRelations(env: Env, toks: seq<Token>, p: Progress)
    requires Sees(env) && env.Ready(0, 6) && |toks| == 6
    ensures Relations(env, toks, 0, 6, Six(), 0, false, p) == Going(0, AddRef(p, Kept(toks[5].start)))
  {
    var q := AddRef(p, Kept(toks[5].start));
    DividedRelation(env, toks, p);
    assert env.W(0) == SELECT && env.W(1) == Other && env.W(2) == Other && env.W(3) == Other && env.W(4) == FROM;
    hide RelationAfter, Env.Ready, Sees, Env.W, Env.Comma, AddRef, Kept;
    assert Relations(env, toks, 0, 6, Six(), 6, true, q) == Going(0, q);
    assert SkipTo(Six(), 4, 6) == 5;
    assert MoreRelations(env, toks, 0, 6, Six(), 4, Going(6, q)) == Going(0, q);
    assert Relations(env, toks, 0, 6, Six(), 4, false, p) == Going(0, q);
    assert Relations(env, toks, 0, 6, Six(), 3, false, p) == Going(0, q);
    assert Relations(env, toks, 0, 6, Six(), 2, false, p) == Going(0, q);
    assert Relations(env, toks, 0, 6, Six(), 1, false, p) == Going(0, q);
  }

  lemma {:induction false} DividedExpressions(env: Env, toks: seq<Token>, p: Progress)
    requires Sees(env) && env.Ready(0, 6) && |toks| == 6
    ensures Expressions(env, toks, 0, 6, p) == Going(0, p)
  {
    assert forall i: nat | i <= 6 :: !env.Open(i) && env.Ready(i, 6);
    assert Expressions(env, toks, 6, 6, p) == Going(0, p);
    hide Sees, Nested, Env.Open, Env.W, Env.EndMark, Env.Ready, Expressions;
    PastToken(env, toks, 5, p);
    PastToken(env, toks, 4, p);
    PastToken(env, toks, 3, p);
    PastToken(env, toks, 2, p);
    PastToken(env, toks, 1, p);
    PastToken(env, toks, 0, p);
  }

  /** The block the parser makes of it. */
  ghost predicate DividedBlock(toks: seq<Token>, b: Block, statement: Range) {
    && |toks| == 6 && b.id == statement && b.setBranchIds == None && b.unsupported == None
    && b.selectItems == [[toks[1], toks[2], toks[3]]]
  }

  lemma {:induction false} TopWords(env: Env)
    requires Sees(env)
    ensures forall i | i in Six() :: env.W(i) == SELECT || env.W(i) == FROM || env.W(i) == Other
    ensures forall i | i in Six() :: !env.Comma(i)
  {
    forall i | i in Six() ensures i < 6 {}
  }

  lemma {:induction false} DividedEnd(env: Env)
    requires Sees(env)
    ensures env.ProjectionEnd(Six(), 0, 6) == 4
  {
    var f := (i: nat) => i > 0 && (env.ClauseAt(i).Some? || IsTail(env.W(i)));
    assert !f(0) && !f(1) && !f(2) && !f(3) && f(4);
    var s := Six();
    assert First(s[4..], f) == Some(4);
    assert s[3..][1..] == s[4..] && s[2..][1..] == s[3..] && s[1..][1..] == s[2..];
    assert First(s[3..], f) == Some(4);
    assert First(s[2..], f) == Some(4);
    assert First(s[1..], f) == Some(4);
  }

  lemma {:induction false} DividedItems(toks: seq<Token>)
    requires |toks| == 6
    ensures Items(toks, 1, [] + [4]) == [[toks[1], toks[2], toks[3]]]
  {
    assert [] + [4] == [4] && [4][1..] == [];
    assert Slice(toks, 1, 4) == [toks[1], toks[2], toks[3]];
  }

  lemma {:induction false} DividedNoCommas(env: Env)
    requires Sees(env)
    ensures env.Commas(Six(), 1, 4) == [] && env.AfterDistinct(1) == 1
  {
    assert env.AfterDistinct(1) == 1;
    TopWords(env);
    hide Sees, Env.W, Env.AfterDistinct, Env.Comma;
    NoneKept(Six(), (i: nat) => 1 <= i < 4 && env.Comma(i));
  }

  lemma {:induction false} DividedHead(env: Env, toks: seq<Token>, range: Range, p: Progress)
    requires Sees(env) && |toks| == 6
    ensures var q := SelectHead(env, toks, range, 6, 0, Six(), p);
            q == p.(block := p.block.(joinsMergeColumns := q.block.joinsMergeColumns, clauses := q.block.clauses,
                                      selectItems := [[toks[1], toks[2], toks[3]]]))
  {
    hide Env.ProjectionEnd, Env.Commas, Env.AfterDistinct, Items, Clauses;
    DividedEnd(env);
    DividedNoCommas(env);
    DividedItems(toks);
    TopWords(env);
    hide Sees, Six, Env.W;
  }

  lemma {:induction false} DividedParse(env: Env, toks: seq<Token>, range: Range)
    requires Sees(env) && |toks| == 6 && env.Ready(0, 6)
    ensures var r := Parse(env, toks, 0, 6, range, StatementBlock, None);
            r.Parsed? && |r.value| == 1 && DividedBlock(toks, r.value[0], range)
  {
    hide Env.Ready, Env.Top, Env.SetOperators, Env.FirstUnsupported, SelectHead, Declarations, Query, Relations,
         Expressions, Select;
    var p := Progress(NewBlock(range, StatementBlock, None), [], {});
    var q := SelectHead(env, toks, range, 6, 0, Six(), p);
    var end := AddRef(q, Kept(toks[5].start));
    DividedTop(env);
    DividedHead(env, toks, range, p);
    DividedSelect(env, toks, range, p, q, end);
    TopWords(env);
    assert env.W(0) == SELECT;
    hide Sees, Six, Env.W;
    SimpleTop(env, Six());
    PlainQuery(env, toks, range, Six(), p, Going(0, end));
  }

  lemma {:induction false} DividedSelect(env: Env, toks: seq<Token>, range: Range, p: Progress, q: Progress,
                                         end: Progress)
    requires Sees(env) && |toks| == 6 && env.Ready(0, 6)
    requires q == SelectHead(env, toks, range, 6, 0, Six(), p) && end == AddRef(q, Kept(toks[5].start))
    ensures env.Top(0, 6) == Six() && Select(env, toks, 0, 6, range, 0, Six(), p) == Going(0, end)
  {
    hide Env.Top, Env.SetOperators, Env.FirstUnsupported, Relations, Expressions, SelectHead;
    DividedTop(env);
    TopWords(env);
    SimpleTop(env, Six());
    DividedRelations(env, toks, q);
    DividedExpressions(env, toks, end);
    hide Env.Ready, Sees, Six, Env.W;
  }

  lemma {:induction false} DividedBlocks(lexer: Lexer, select: Kind, from: Kind) returns (b: Block)
    requires IsWord(select) && IsWord(from)
    requires RelevantTokens(Tokens6(select, from), Range(0, 21)) == Tokens6(select, from)
    ensures ParseBlocks(lexer, Tokens6(select, from), Range(0, 21)) == Parsed([b])
    ensures DividedBlock(Tokens6(select, from), b, Range(0, 21))
  {
    hide PairParens, Parse, Ascii, RelevantTokens, Env.Ready, DividedBlock, BindRef;
    var toks := Tokens6(select, from);
    var env := EnvOf(lexer, toks);
    DividedSees(lexer, select, from);
    StatementReady(lexer, toks);
    hide EnvOf;
    assert env.W(0) == SELECT;
    hide Tokens6, Sees;
    DividedParse(env, toks, Range(0, 21));
    var found := Parse(env, toks, 0, 6, Range(0, 21), StatementBlock, None).value;
    b := BindBlock(found, found[0], lexer.dialect, 21);
    assert BindBlocks(found, lexer.dialect, 21) == [b];
    SameSelect(toks, found[0], b);
  }

  lemma SameSelect(toks: seq<Token>, a: Block, b: Block)
    requires DividedBlock(toks, a, Range(0, 21)) && b == a.(from := b.from)
    ensures DividedBlock(toks, b, Range(0, 21))
  {
  }

  // ---- what is claimed for it, and what it means ----

  /** `a DIV b`, by itself. */
  predicate Division(item: seq<Token>) {
    && |item| == 3 && (forall i | 0 <= i < 3 :: item[i].kind == Identifier && !item[i].quoted)
    && item[0].text == [A] && item[1].text == DIV && item[2].text == [B]
  }

  lemma DividedIsDivision(select: Kind, from: Kind, b: Block)
    requires DividedBlock(Tokens6(select, from), b, Range(0, 21))
    ensures b.setBranchIds == None && b.unsupported == None && |b.selectItems| == 1 && Division(b.selectItems[0])
  {
    hide Ascii;
  }

  lemma {:induction false} DivisionPlain(lexer: Lexer, item: seq<Token>)
    requires Division(item)
    ensures AliasOf(lexer, item) == Some(Aliased(item[2], item[..2]))
    ensures !Complex(lexer, item[..2]) && !HasWildcard(lexer, item[..2]) && !Unfixed(lexer, item)
            && EndsBare(lexer, item)
  {
    assert lexer.Upper(item[0].text) == [0x41] && lexer.Upper(item[2].text) == [0x42];
    DivIsName(lexer);
    hide Lexer.Upper;
    assert Depth(item[..2], 0) == 0 && Depth(item[..2], 1) == 0 && Depth(item[..2], 2) == 0;
  }

  lemma {:induction false} DivisionClaim(s: Setting, found: Found, b: Block)
    requires b.setBranchIds == None && b.unsupported == None && |b.selectItems| == 1 && Division(b.selectItems[0])
    ensures Output(s, found, b) == Inference([[B]], true)
  {
    var known, item := KnownColumns(RelationsOf(found, b.id)), b.selectItems[0];
    DivisionPlain(s.lexer, item);
    assert SemanticName(item[2], s.lexer.dialect) == [B] by { assert FoldLower([B]) == [B]; }
    hide AliasOf, Complex, HasWildcard, SemanticName;
    assert InferItem(s.lexer, item, b.from, b.joinsMergeColumns, known) == Inference([[B]], true);
    assert b.selectItems[..0] == [];
    hide InferItem;
    assert [] + [[B]] == [[B]];
    assert InferItems(s.lexer, b.selectItems, b.from, b.joinsMergeColumns, known, true)
           == Append(Inference([], true), Inference([[B]], true));
  }

  lemma {:induction false} DivisionMeans(s: Setting, meaning: Range -> Shape, b: Block)
    requires s.blocks == [b] && Meaning(s, meaning) && s.operators.leading(DIV)
    requires b.setBranchIds == None && b.unsupported == None && |b.selectItems| == 1 && Division(b.selectItems[0])
    ensures meaning(b.id) == Some([None])
  {
    var item, shapes := b.selectItems[0], SourceShapes(s, meaning, 0);
    DivisionPlain(s.lexer, item);
    DivIsName(s.lexer);
    hide AliasOf, Complex, HasWildcard, Unfixed, EndsBare, Lexer.Upper;
    assert ItemShape(s.lexer, s.operators, item, b.from, b.joinsMergeColumns, shapes) == Some([None]);
    assert b.selectItems[..0] == [];
    hide ItemShape;
    var none: seq<Option<Text>> := [None];
    assert [] + none == none;
    assert ItemsShape(s.lexer, s.operators, b.selectItems, b.from, b.joinsMergeColumns, shapes)
           == Joined(Some([]), Some([None]));
    assert meaning(s.blocks[0].id) == BlockShape(s, meaning, 0);
  }

  /**
   Where DIV stands before an operand, as in MySQL: the one item of `SELECT a DIV b FROM t` is claimed to be
   the column `b`, and complete, where by every reading of the rules it is a column without a known name.
   */
  lemma OperandIsNamed(s: Setting, found: Found, meaning: Range -> Shape)
    requires ParseBlocks(s.lexer, s.lexer.Tokens(Ascii(DIVIDED), 0), Range(0, 21)) == Parsed(s.blocks)
    requires s.operators.leading(DIV) && Meaning(s, meaning)
    ensures |s.blocks| == 1
    ensures Output(s, found, s.blocks[0]) == Inference([[B]], true) && meaning(s.blocks[0].id) == Some([None])
  {
    var select, from := DividedTokens(s.lexer);
    var b := DividedBlocks(s.lexer, select, from);
    hide Ascii, RelevantTokens, Lexer.Tokens, Output, Meaning, ParseBlocks;
    DividedIsDivision(select, from, b);
    hide Tokens6, DividedBlock, Division;
    DivisionClaim(s, found, b);
    DivisionMeans(s, meaning, b);
  }
}
