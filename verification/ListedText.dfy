/** A text whose column list the parser drops: what is claimed for it is not what it means. */
module ListedText {
  import opened SqlText
  import opened Tokenizer
  import opened ScopeParser
  import opened BlockParser
  import opened Texts
  import opened Projection
  import opened ProjectionMeaning
  import opened CteScopes
  import opened Scopes
  import opened WrittenLists

  const LISTED := "SELECT * FROM t a(x)"

  const T := 0x74
  const A := 0x61
  const X := 0x78

  // ---- its tokens ----

  function Tokens8(select: Kind, from: Kind): seq<Token> {
    [Token(select, Ascii("SELECT"), 0, 6, false), Token(Operator, [STAR], 7, 8, false),
     Token(from, Ascii("FROM"), 9, 13, false),
     Token(Identifier, [T], 14, 15, false), Token(Identifier, [A], 16, 17, false),
     Token(Punctuation, [0x28], 17, 18, false),
     Token(Identifier, [X], 18, 19, false), Token(Punctuation, [0x29], 19, 20, false)]
  }

  predicate Units(t: Text) {
    && |t| == 20 && Letters(t, 0, 6) && t[6] == 0x20 && t[7] == STAR && t[8] == 0x20 && Letters(t, 9, 13)
       && t[13] == 0x20
    && t[14] == T && t[15] == 0x20 && t[16] == A && t[17] == 0x28 && t[18] == X && t[19] == 0x29
  }

  lemma {:induction false} ListedUnits(t: Text)
    requires t == Ascii(LISTED)
    ensures Units(t) && t[0..6] == Ascii("SELECT") && t[9..13] == Ascii("FROM")
  {
  }

  lemma {:induction false} SignStep(lexer: Lexer, t: Text, i: nat)
    requires i < |t| && IsPunctuation(t[i])
    ensures lexer.Tokens(t, i) == [Token(Punctuation, [t[i]], i, i + 1, false)] + lexer.Tokens(t, i + 1)
  {
    hide Lexer.TokenAt, Lexer.Tokens;
    assert !IsSpace(t[i]) && t[i..i + 1] == [t[i]];
    SignToken(lexer, t, i);
    hide IsSpace;
    OneToken(lexer, t, i, i);
  }

  lemma {:induction false} ListedHead(lexer: Lexer, t: Text)
    requires Units(t)
    ensures lexer.Tokens(t, 0) == [Token(lexer.WordKind(t, 0, 6), t[0..6], 0, 6, false)] + lexer.Tokens(t, 6)
    ensures lexer.Tokens(t, 6) == [Token(Operator, [STAR], 7, 8, false)] + lexer.Tokens(t, 8)
    ensures lexer.Tokens(t, 8) == [Token(lexer.WordKind(t, 9, 13), t[9..13], 9, 13, false)] + lexer.Tokens(t, 13)
  {
    assert WordStops(t, 6) && WordStops(t, 13) && !IsSpace(t[7]) && t[7..8] == [STAR];
    hide Lexer.TokenAt, Lexer.WordKind, Lexer.Tokens, Letters, WordStops, IsSpace;
    WordStep(lexer, t, 0, 0, 6);
    WordStep(lexer, t, 8, 9, 13);
    SignToken(lexer, t, 7);
    OneToken(lexer, t, 6, 7);
  }

  lemma {:induction false} ListedTail(lexer: Lexer, t: Text)
    requires Units(t)
    ensures lexer.Tokens(t, 13) == [Token(Identifier, [T], 14, 15, false)] + lexer.Tokens(t, 15)
    ensures lexer.Tokens(t, 15) == [Token(Identifier, [A], 16, 17, false)] + lexer.Tokens(t, 17)
    ensures lexer.Tokens(t, 17) == [Token(Punctuation, [0x28], 17, 18, false)] + lexer.Tokens(t, 18)
    ensures lexer.Tokens(t, 18) == [Token(Identifier, [X], 18, 19, false)] + lexer.Tokens(t, 19)
    ensures lexer.Tokens(t, 19) == [Token(Punctuation, [0x29], 19, 20, false)] + []
  {
    assert lexer.Tokens(t, 20) == [];
    assert WordStops(t, 15) && WordStops(t, 17) && WordStops(t, 19);
    hide Lexer.Tokens, Letters, WordStops;
    NameStep(lexer, t, 13, 14);
    NameStep(lexer, t, 15, 16);
    SignStep(lexer, t, 17);
    NameStep(lexer, t, 18, 18);
    SignStep(lexer, t, 19);
  }

  lemma {:induction false} ListedScan(lexer: Lexer, t: Text, es: seq<Token>)
    requires Units(t) && |es| == 8
    requires es[0] == Token(lexer.WordKind(t, 0, 6), t[0..6], 0, 6, false)
             && es[1] == Token(Operator, [STAR], 7, 8, false)
    requires es[2] == Token(lexer.WordKind(t, 9, 13), t[9..13], 9, 13, false)
    requires es[3] == Token(Identifier, [T], 14, 15, false) && es[4] == Token(Identifier, [A], 16, 17, false)
    requires es[5] == Token(Punctuation, [0x28], 17, 18, false) && es[6] == Token(Identifier, [X], 18, 19, false)
    requires es[7] == Token(Punctuation, [0x29], 19, 20, false)
    ensures lexer.Tokens(t, 0) == es
  {
    hide Lexer.Tokens, Lexer.WordKind, Letters;
    ListedHead(lexer, t);
    ListedTail(lexer, t);
    Chained([lexer.Tokens(t, 0), lexer.Tokens(t, 6), lexer.Tokens(t, 8), lexer.Tokens(t, 13), lexer.Tokens(t, 15),
             lexer.Tokens(t, 17),
           lexer.Tokens(t, 18), lexer.Tokens(t, 19), []], es, 0);
  }

  lemma {:induction false} ListedTokens(lexer: Lexer) returns (select: Kind, from: Kind)
    ensures lexer.Tokens(Ascii(LISTED), 0) == Tokens8(select, from) && IsWord(select) && IsWord(from)
    ensures RelevantTokens(Tokens8(select, from), Range(0, 20)) == Tokens8(select, from)
  {
    hide Ascii, Letters, Lexer.Tokens, Lexer.WordKind, RelevantTokens, LISTED, Lexer.IsKeyword;
    var t := Ascii(LISTED);
    ListedUnits(t);
    assert |t| == 20;
    hide Units;
    select, from := lexer.WordKind(t, 0, 6), lexer.WordKind(t, 9, 13);
    WordKindOf(lexer, t, 0, 6);
    WordKindOf(lexer, t, 9, 13);
    AllListed(select, from);
    ListedScan(lexer, t, Tokens8(select, from));
  }

  lemma {:induction false} AllListed(select: Kind, from: Kind)
    requires IsWord(select) && IsWord(from)
    ensures RelevantTokens(Tokens8(select, from), Range(0, 20)) == Tokens8(select, from)
  {
    assert |Ascii("SELECT")| == 6 && |Ascii("FROM")| == 4;
    hide Ascii;
    AllRelevant(Tokens8(select, from), Range(0, 20));
  }

  // ---- its parse ----

  /** What the parser sees of it. */
  ghost predicate Sees(env: Env) {
    && |env.lex| == 8 && |env.words| == 8 && env.dialect == Postgres && env.pairs == map[5 := 7]
    && env.words[0] == SELECT && env.words[2] == FROM
    && (forall i | 0 <= i < 8 && i != 0 && i != 2 :: env.words[i] == Other)
    && (forall i | 3 <= i < 8 && i != 5 && i != 7 :: env.lex[i].kind == Kind.Identifier && !env.lex[i].quoted)
    && env.lex[3].text == [T] && env.lex[4].text == [A] && env.lex[6].text == [X]
    && (forall i | 0 <= i < 8 :: (IsOpen(env.lex, i) <==> i == 5) && (IsClose(env.lex, i) <==> i == 7))
    && (forall i | 0 <= i < 8 :: !env.Dot(i) && !env.Comma(i))
  }

  lemma {:induction false} OnePair(lex: seq<Lexeme>)
    requires |lex| == 8 && forall i | 0 <= i < 8 :: (IsOpen(lex, i) <==> i == 5) && (IsClose(lex, i) <==> i == 7)
    ensures PairParens(lex) == Parens(map[5 := 7], None)
  {
    var none := Parens(map[], None);
    assert PairFrom(lex, 8, [], Parens(map[5 := 7], None)) == Parens(map[5 := 7], None);
    assert PairStep(lex, 7, [5], none) == ([], Parens(map[5 := 7], None));
    assert PairFrom(lex, 7, [5], none) == Parens(map[5 := 7], None);
    assert PairFrom(lex, 6, [5], none) == PairFrom(lex, 7, [5], none);
    assert [] + [5] == [5];
    assert PairStep(lex, 5, [], none) == ([5], none);
    assert PairFrom(lex, 5, [], none) == PairFrom(lex, 6, [5], none);
    assert PairFrom(lex, 4, [], none) == PairFrom(lex, 5, [], none);
    assert PairFrom(lex, 3, [], none) == PairFrom(lex, 4, [], none);
    assert PairFrom(lex, 2, [], none) == PairFrom(lex, 3, [], none);
    assert PairFrom(lex, 1, [], none) == PairFrom(lex, 2, [], none);
    assert PairFrom(lex, 0, [], none) == PairFrom(lex, 1, [], none);
  }

  lemma {:induction false} ListedLex(lexer: Lexer, select: Kind, from: Kind)
    ensures var (env, toks) := (EnvOf(lexer, Tokens8(select, from)), Tokens8(select, from));
            && |env.lex| == 8 && |env.words| == 8 && env.dialect == lexer.dialect
            && (forall i | 0 <= i < 8 :: env.lex[i] == Lexeme(toks[i].kind, toks[i].text, toks[i].quoted))
            && (forall i | 0 <= i < 8 :: env.words[i] == WordOf(lexer, env.lex[i]))
  {
    hide WordOf, PairParens, Ascii;
  }

  lemma {:induction false} ListedWords(lexer: Lexer, select: Kind, from: Kind)
    requires IsWord(select) && IsWord(from)
    ensures var words := EnvOf(lexer, Tokens8(select, from)).words;
            && |words| == 8 && words[0] == SELECT && words[2] == FROM
            && forall i | 0 <= i < 8 && i != 0 && i != 2 :: words[i] == Other
  {
    var toks := Tokens8(select, from);
    var env := EnvOf(lexer, toks);
    ListedLex(lexer, select, from);
    Words(lexer);
    hide Ascii, PairParens, ClosedIdentifier;
    assert WordOf(lexer, env.lex[0]) == SELECT && WordOf(lexer, env.lex[2]) == FROM;
    hide EnvOf, WordIn, Lexer.Upper, WordOf, WORDS;
    forall i | 0 <= i < 8 && i != 0 && i != 2 ensures env.words[i] == Other { ShortIsOther(lexer, env.lex[i]); }
  }

  lemma {:induction false} ListedSees(lexer: Lexer, select: Kind, from: Kind)
    requires lexer.dialect == Postgres && IsWord(select) && IsWord(from)
    ensures Sees(EnvOf(lexer, Tokens8(select, from)))
            && PairParens(EnvOf(lexer, Tokens8(select, from)).lex).invalid.None?
  {
    var env := EnvOf(lexer, Tokens8(select, from));
    ListedLex(lexer, select, from);
    ListedWords(lexer, select, from);
    assert |Ascii("SELECT")| == 6 && |Ascii("FROM")| == 4;
    assert env.pairs == PairParens(env.lex).pairs;
    hide Ascii, PairParens, EnvOf, WordOf;
    OnePair(env.lex);
  }

  lemma {:induction false} ListedTop(env: Env)
    requires Sees(env) && env.Ready(0, 8)
    ensures env.Top(0, 8) == Six()
  {
    assert !env.Open(0) && !env.Open(1) && !env.Open(2) && !env.Open(3) && !env.Open(4) && env.Open(5)
           && env.pairs[5] == 7;
    assert env.Closed(8, 8) && env.Closed(5, 8) && env.Closed(4, 8) && env.Closed(3, 8) && env.Closed(2, 8)
           && env.Closed(1, 8);
    hide Sees, Env.Ready, Env.Closed, Env.Open, Nested, Env.EndMark;
    assert env.Top(5, 8) == [5] + env.Top(8, 8) && env.Top(8, 8) == [];
    TopStep(env, 4, 8);
    TopStep(env, 3, 8);
    TopStep(env, 2, 8);
    TopStep(env, 1, 8);
    TopStep(env, 0, 8);
    hide Env.Top;
  }

  /** The relation the parser keeps: a name, an alias and no list. */
  function Kept(start: int): FromRef {
    FromRef(start, TableRef, start, [T], false, None, Some(Column([A], false)), None, None, false)
  }

  lemma {:induction false} ListedNamed(env: Env)
    requires Sees(env) && env.Ready(0, 8)
    ensures NamedAt(env, 3)
            == Some(NamedRelation(Column([T], false), None, RelationTail(Some(Column([A], false)), None, 5)))
    ensures AfterName(env, 3) == 5 && ListAfter(env, 3) == Some([Column([X], false)])
  {
    assert env.Parts(4, [3]) == ([3], 4);
    assert AliasAt(env, 4) == (Some(Column([A], false)), 5);
    assert env.Columns(8, 7, [Column([X], false)]) == Some([Column([X], false)]);
    assert env.Columns(6, 7, []) == Some([Column([X], false)]) by {
      assert [] + [Column([X], false)] == [Column([X], false)];
    }
  }

  lemma {:induction false} ListedSkip()
    ensures SkipTo(Six(), 2, 5) == 4
  {
    assert SkipTo(Six(), 4, 5) == 4;
    assert SkipTo(Six(), 3, 5) == 4;
  }

  lemma {:induction false} ListedRelations(env: Env, toks: seq<Token>, p: Progress)
    requires Sees(env) && env.Ready(0, 8) && |toks| == 8
    ensures Relations(env, toks, 0, 8, Six(), 0, false, p) == Going(0, AddRef(p, Kept(toks[3].start)))
  {
    assert env.W(0) == SELECT && env.W(1) == Other && env.W(2) == FROM && env.W(5) == Other && !env.Comma(5)
           && |env.lex| == 8;
    hide RelationAfter, SkipTo, Env.Ready, Sees, Env.W, Env.Comma, AddRef, Kept, Six, Relations;
    ListedRelation(env, toks, p);
    ListedSkip();
    ListedWalk(env, toks, Six(), p, AddRef(p, Kept(toks[3].start)));
  }

  lemma {:induction false} ListedWalk(env: Env, toks: seq<Token>, top: seq<nat>, p: Progress, q: Progress)
    requires |env.lex| == 8 && |toks| == 8 && env.Ready(0, 8) && |top| == 6 && forall k :: 0 <= k < 6 ==> top[k] == k
    requires env.W(0) == SELECT && env.W(1) == Other && env.W(2) == FROM && env.W(5) == Other && !env.Comma(5)
    requires SkipTo(top, 2, 5) == 4 && RelationAfter(env, toks, 0, 8, 2, p) == Going(5, q)
    ensures Relations(env, toks, 0, 8, top, 0, false, p) == Going(0, q)
  {
    hide RelationAfter, SkipTo, Env.Ready, Env.W, Env.Comma;
    assert Relations(env, toks, 0, 8, top, 6, true, q) == Going(0, q);
    assert Relations(env, toks, 0, 8, top, 5, true, q) == Going(0, q);
    assert MoreRelations(env, toks, 0, 8, top, 2, Going(5, q)) == Going(0, q);
    assert Relations(env, toks, 0, 8, top, 2, false, p) == Going(0, q);
    assert Relations(env, toks, 0, 8, top, 1, false, p) == Going(0, q);
  }

  lemma {:induction false} ListedRelation(env: Env, toks: seq<Token>, p: Progress)
    requires Sees(env) && env.Ready(0, 8) && |toks| == 8
    ensures RelationAfter(env, toks, 0, 8, 2, p) == Going(5, AddRef(p, Kept(toks[3].start)))
  {
    hide NamedAt;
    ListedNamed(env);
  }

  lemma {:induction false} ListedParenthesis(env: Env, toks: seq<Token>, p: Progress)
    requires |env.lex| == 8 && |toks| == 8 && env.Ready(5, 8) && env.Ready(6, 7) && env.Ready(8, 8) && p.owned == {}
    requires env.Open(5) && !env.Open(6) && env.W(6) == Other && 5 in env.pairs && env.pairs[5] == 7
    ensures Expressions(env, toks, 5, 8, p) == Going(0, p)
  {
    assert Expressions(env, toks, 8, 8, p) == Going(0, p);
    assert env.Ready(7, 7);
    hide Env.Ready, Nested, Env.Open, Env.W;
    assert Expressions(env, toks, 7, 7, p) == Going(0, p);
    assert Expressions(env, toks, 6, 7, p) == Going(0, p);
    assert Expression(env, toks, 5, 8, p) == Going(0, p);
  }

  lemma {:induction false} ListedExpressions(env: Env, toks: seq<Token>, p: Progress)
    requires Sees(env) && env.Ready(0, 8) && |toks| == 8 && p.owned == {}
    ensures Expressions(env, toks, 0, 8, p) == Going(0, p)
  {
    assert !env.Open(0) && !env.Open(1) && !env.Open(2) && !env.Open(3) && !env.Open(4) && env.Open(5) && !env.Open(6);
    assert env.W(6) == Other && env.pairs[5] == 7 && env.Ready(6, 7) && env.Ready(5, 8) && env.Ready(8, 8);
    assert env.Ready(4, 8) && env.Ready(3, 8) && env.Ready(2, 8) && env.Ready(1, 8);
    hide Sees, Nested, Env.Open, Env.W, Env.EndMark;
    ListedParenthesis(env, toks, p);
    hide Env.Ready, Expressions;
    PastToken(env, toks, 4, p);
    PastToken(env, toks, 3, p);
    PastToken(env, toks, 2, p);
    PastToken(env, toks, 1, p);
    PastToken(env, toks, 0, p);
  }

  /** The block the parser makes of it. */
  ghost predicate ListedBlock(toks: seq<Token>, b: Block, statement: Range) {
    && |toks| == 8 && b.id == statement && b.parentId == None && b.ctes == [] && b.setBranchIds == None
    && b.from == [Kept(toks[3].start)] && b.selectItems == [[toks[1]]] && !b.joinsMergeColumns && b.unsupported == None
  }

  lemma {:induction false} TopWords(env: Env)
    requires Sees(env)
    ensures forall i | i in Six() :: env.W(i) == SELECT || env.W(i) == FROM || env.W(i) == Other
    ensures forall i | i in Six() :: !env.Comma(i)
  {
    forall i | i in Six() ensures i < 8 {}
  }

  lemma {:induction false} ListedNoCommas(env: Env)
    requires Sees(env)
    ensures env.Commas(Six(), 1, 2) == [] && env.AfterDistinct(1) == 1
  {
    TopWords(env);
    NoneKept(Six(), (i: nat) => 1 <= i < 2 && env.Comma(i));
  }

  lemma {:induction false} ListedNoSets(env: Env)
    requires Sees(env)
    ensures env.SetOperators(Six()) == [] && env.FirstUnsupported(Six()) == None
  {
    TopWords(env);
    hide Sees;
    SimpleTop(env, Six());
  }

  lemma {:induction false} ListedItems(toks: seq<Token>)
    requires |toks| == 8
    ensures Items(toks, 1, [] + [2]) == [[toks[1]]]
  {
    assert [] + [2] == [2] && [2][1..] == [];
    assert Slice(toks, 1, 2) == [toks[1]];
  }

  lemma {:induction false} ListedHeadBlock(env: Env, toks: seq<Token>, range: Range, p: Progress)
    requires Sees(env) && |toks| == 8
    ensures var q := SelectHead(env, toks, range, 8, 0, Six(), p);
            q == p.(block := p.block.(joinsMergeColumns := false, clauses := q.block.clauses,
                                      selectItems := [[toks[1]]]))
  {
    hide Env.ProjectionEnd, Env.Commas, Env.AfterDistinct, Items, Clauses;
    ListedEnd(env);
    ListedNoCommas(env);
    ListedItems(toks);
    TopWords(env);
    hide Sees, Six, Env.W;
  }

  lemma {:induction false} ListedEnd(env: Env)
    requires Sees(env)
    ensures env.ProjectionEnd(Six(), 0, 8) == 2
  {
    var f := (i: nat) => i > 0 && (env.ClauseAt(i).Some? || IsTail(env.W(i)));
    assert !f(0) && !f(1) && f(2);
    assert Six()[1..][1..][0] == 2;
    assert First(Six()[1..][1..], f) == Some(2) && First(Six()[1..], f) == Some(2) && First(Six(), f) == Some(2);
  }

  lemma {:induction false} ListedQuery(env: Env, toks: seq<Token>, range: Range, p: Progress, end: Progress)
    requires Sees(env) && |toks| == 8 && env.Ready(0, 8) && p.owned == {}
    requires end == AddRef(SelectHead(env, toks, range, 8, 0, Six(), p), Kept(toks[3].start))
    ensures Declarations(env, toks, 0, 8, p) == Going(0, p)
            && Query(env, toks, 0, 8, range, Going(0, p)) == Going(0, end)
  {
    hide Env.Ready, Env.Top, Env.SetOperators, Env.FirstUnsupported, SelectHead, Select, Query, Declarations, Six,
         AddRef;
    assert env.W(0) == SELECT && |env.lex| == 8;
    hide Sees, Env.W, Kept;
    ListedSelect(env, toks, range, p, SelectHead(env, toks, range, 8, 0, Six(), p), end);
    ListedNoSets(env);
    PlainQuery(env, toks, range, Six(), p, Going(0, end));
  }

  lemma {:induction false} ListedParse(env: Env, toks: seq<Token>, range: Range)
    requires Sees(env) && |toks| == 8 && env.Ready(0, 8)
    ensures var r := Parse(env, toks, 0, 8, range, StatementBlock, None);
            r.Parsed? && |r.value| == 1 && ListedBlock(toks, r.value[0], range)
  {
    hide Env.Ready, Env.Top, SelectHead, Declarations, Query;
    var p := Progress(NewBlock(range, StatementBlock, None), [], {});
    var q := SelectHead(env, toks, range, 8, 0, Six(), p);
    ListedQuery(env, toks, range, p, AddRef(q, Kept(toks[3].start)));
    ListedHeadBlock(env, toks, range, p);
    hide Sees;
    assert [] + [Kept(toks[3].start)] == [Kept(toks[3].start)];
  }

  lemma {:induction false} ListedSelect(env: Env, toks: seq<Token>, range: Range, p: Progress, q: Progress,
                                        end: Progress)
    requires Sees(env) && |toks| == 8 && env.Ready(0, 8) && p.owned == {}
    requires q == SelectHead(env, toks, range, 8, 0, Six(), p) && end == AddRef(q, Kept(toks[3].start))
    ensures env.Top(0, 8) == Six() && Select(env, toks, 0, 8, range, 0, Six(), p) == Going(0, end)
  {
    hide Env.Top, Env.SetOperators, Env.FirstUnsupported, Relations, Expressions;
    ListedTop(env);
    ListedNoSets(env);
    assert q.owned == {};
    ListedRelations(env, toks, q);
    ListedExpressions(env, toks, end);
    hide Env.Ready, Env.Top, Env.SetOperators, Env.FirstUnsupported, Relations, Expressions, SelectHead, Sees;
  }

  lemma {:induction false} ListedBlocks(lexer: Lexer, select: Kind, from: Kind) returns (b: Block)
    requires lexer.dialect == Postgres && IsWord(select) && IsWord(from)
    requires RelevantTokens(Tokens8(select, from), Range(0, 20)) == Tokens8(select, from)
    ensures ParseBlocks(lexer, Tokens8(select, from), Range(0, 20)) == Parsed([b])
            && ListedBlock(Tokens8(select, from), b, Range(0, 20))
  {
    hide PairParens, Parse, Ascii, RelevantTokens, Env.Ready, ListedBlock;
    var toks := Tokens8(select, from);
    var env := EnvOf(lexer, toks);
    ListedSees(lexer, select, from);
    StatementReady(lexer, toks);
    hide EnvOf;
    assert env.W(0) == SELECT && env.W(1) == Other;
    hide Tokens8, Sees;
    ListedParse(env, toks, Range(0, 20));
    var found := Parse(env, toks, 0, 8, Range(0, 20), StatementBlock, None).value;
    b := BindBlock(found, found[0], Postgres, 20);
    assert found == [found[0]];
    ListedBound(toks, found, b);
    assert BindBlocks(found, Postgres, 20) == [b];
  }

  lemma {:induction false} ListedBound(toks: seq<Token>, found: seq<Block>, b: Block)
    requires |found| == 1 && ListedBlock(toks, found[0], Range(0, 20)) && b == BindBlock(found, found[0], Postgres, 20)
    ensures ListedBlock(toks, b, Range(0, 20))
  {
    var ref := Kept(toks[3].start);
    assert CteNames([], Postgres) == [];
    assert !Resolves(ref.name, ref.nameQuoted, [], Postgres);
    assert !DeclaredAbove(found, found[0], ref, Postgres, 20);
  }

  // ---- what is claimed for it, and what it means ----

  const ID: Text := [0x69, 0x64]

  /** A catalog in which `t` has the one column `id`. */
  ghost predicate OneColumn(catalog: TableName -> Option<Inference>) {
    catalog(TableName(None, [T], false)) == Some(Inference([ID], true))
  }

  lemma {:induction false} ListedBinding(s: Setting, found: Found, b: Block, start: int)
    requires OneColumn(s.catalog) && s.lexer.dialect == Postgres && EnvironmentOf(s, b.id) == []
    ensures Binding(s, found, b, Kept(start)) == Relation(start, false, [ID], true)
  {
    PickNone(Kept(start), Postgres);
  }

  /** The star is claimed to be `id`, and to be all there is. */
  lemma {:induction false} ListedClaim(s: Setting, found: Found, toks: seq<Token>, b: Block)
    requires OneColumn(s.catalog) && s.lexer.dialect == Postgres && EnvironmentOf(s, b.id) == []
    requires ListedBlock(toks, b, Range(0, 20)) && toks[1].text == [STAR]
    requires RelationsOf(found, b.id) == [Relation(toks[3].start, false, [ID], true)]
    ensures Output(s, found, b) == Inference([ID], true)
  {
    var known := KnownColumns(RelationsOf(found, b.id));
    var item := [toks[1]];
    assert known(toks[3].start) == Some([ID]);
    assert [Kept(toks[3].start)][1..] == [];
    assert Expanded([Kept(toks[3].start)], known, true) == Inference([ID] + [], true);
    StarPlain(s.lexer, item);
    assert InferItem(s.lexer, item, b.from, false, known) == Inference([ID], true);
    assert [item][..0] == [];
    assert InferItems(s.lexer, [item], b.from, false, known, true)
           == Append(Inference([], true), Inference([ID], true));
  }

  lemma StarPlain(lexer: Lexer, item: seq<Token>)
    requires |item| == 1 && item[0].text == [STAR]
    ensures !Complex(lexer, item) && AliasOf(lexer, item) == None && IsStar(item) && NameOfItem(lexer, item) == None
  {
    assert lexer.Upper([STAR]) == [STAR] by { assert [STAR][1..] == []; }
    assert Depth(item, 0) == 0 && Depth(item, 1) == 0;
  }

  /** As it is written its column is `x`. */
  lemma {:induction false} ListedMeans(w: Setting, meaning: Range -> Shape, toks: seq<Token>)
    requires |w.blocks| == 1 && Meaning(w, meaning) && OneColumn(w.catalog) && w.lexer.dialect == Postgres
    requires var b := w.blocks[0];
             && |toks| == 8 && b.id == Range(0, 20) && b.parentId == None && b.ctes == [] && b.setBranchIds == None
                && b.unsupported == None
             && b.from == [Kept(toks[3].start).(columnAliases := Some([Column([X], false)]))]
             && b.selectItems == [[toks[1]]] && !b.joinsMergeColumns && toks[1].text == [STAR]
    ensures meaning(Range(0, 20)) == Some([Some([X])])
  {
    var b, ref := w.blocks[0], w.blocks[0].from[0];
    var item, shapes := [toks[1]], SourceShapes(w, meaning, 0);
    PickNone(ref, Postgres);
    assert LookUp(w.blocks, 0, ref, Postgres) == None;
    assert TableShape(w, ref) == Some(WithNames([ID]));
    assert FoldLower([X]) == [X];
    assert AliasNames([Column([X], false)], Postgres) == [[X]];
    assert WithNames([[X]]) == [Some([X])];
    assert SourceShape(w, meaning, 0, ref) == Some([Some([X])]);
    assert shapes(ref.id) == Some([Some([X])]);
    assert [ref][1..] == [];
    assert Expansion([ref], shapes) == Some([Some([X])] + []) && [Some([X])] + [] == [Some([X])];
    StarPlain(w.lexer, item);
    assert ItemShape(w.lexer, w.operators, item, b.from, false, shapes) == Some([Some([X])]);
    assert [item][..0] == [];
    assert [] + [Some([X])] == [Some([X])];
    assert ItemsShape(w.lexer, w.operators, [item], b.from, false, shapes) == Joined(Some([]), Some([Some([X])]));
    assert meaning(b.id) == BlockShape(w, meaning, 0);
  }

  lemma {:induction false} ListedWritten(lexer: Lexer, toks: seq<Token>, s: Setting, b: Block)
    requires lexer.dialect == Postgres && s.lexer == lexer && s.blocks == [b] && ListedBlock(toks, b, Range(0, 20))
    requires Sees(EnvOf(lexer, toks)) && EnvOf(lexer, toks).Ready(0, 8) && IndexAt(toks, toks[3].start) == 3
    ensures var w := Written(s, toks);
            w == s.(blocks := [b.(from := [Kept(toks[3].start).(columnAliases := Some([Column([X], false)]))])])
  {
    var env := EnvOf(lexer, toks);
    ListedNamed(env);
    hide EnvOf, Sees, Env.Ready, ListAfter, AfterName;
    assert WrittenBlock(env, toks, b).from == [WrittenRef(env, toks, b.from[0])];
    assert Written(s, toks).blocks == [WrittenBlock(env, toks, b)];
  }

  lemma {:induction false} ListedIndex(select: Kind, from: Kind)
    ensures IndexAt(Tokens8(select, from), 14) == 3
  {
    var toks := Tokens8(select, from);
    hide Ascii;
    assert toks[3..][0] == toks[3] && toks[2..][0] == toks[2] && toks[1..][0] == toks[1];
    assert toks[2..][1..] == toks[3..] && toks[1..][1..] == toks[2..];
    assert IndexAt(toks[3..], 14) == 0;
    assert IndexAt(toks[2..], 14) == 1;
    assert IndexAt(toks[1..], 14) == 2;
  }

  lemma {:induction false} ListedWrong(s: Setting, found: Found, meaning: Range -> Shape, toks: seq<Token>, b: Block)
    requires s.blocks == [b] && ListedBlock(toks, b, Range(0, 20)) && toks[1].text == [STAR]
    requires OneColumn(s.catalog) && s.lexer.dialect == Postgres && EnvironmentOf(s, b.id) == []
    requires Meaning(s.(blocks := [b.(from := [Kept(toks[3].start).(columnAliases := Some([Column([X], false)]))])]),
                     meaning)
    ensures var bound := found.(relations := found.relations[b.id := Bindings(s, found, b)]);
            Output(s, bound, b) == Inference([ID], true) && !Right(meaning(b.id), Output(s, bound, b))
  {
    var bound := found.(relations := found.relations[b.id := Bindings(s, found, b)]);
    var w := s.(blocks := [b.(from := [Kept(toks[3].start).(columnAliases := Some([Column([X], false)]))])]);
    ListedBinding(s, found, b, toks[3].start);
    ListedMeans(w, meaning, toks);
    hide Binding, Meaning;
    assert Bindings(s, found, b) == [Relation(toks[3].start, false, [ID], true)];
    ListedClaim(s, bound, toks, b);
    assert WithNames([ID])[0] == Some(ID) && ID != [X];
  }

  /**
   In PostgreSQL, with a table `t` of one column `id`: the star of `SELECT * FROM t a(x)` is claimed to
   be `id`, and complete, where by every reading of the rules its column is `x`.
   */
  lemma ListIsDropped(lexer: Lexer, s: Setting, found: Found, meaning: Range -> Shape)
    requires lexer.dialect == Postgres && s.lexer == lexer && OneColumn(s.catalog)
    requires ParseBlocks(lexer, lexer.Tokens(Ascii(LISTED), 0), Range(0, 20)) == Parsed(s.blocks)
    requires EnvironmentOf(s, Range(0, 20)) == []
    requires Meaning(Written(s, RelevantTokens(lexer.Tokens(Ascii(LISTED), 0), Range(0, 20))), meaning)
    ensures |s.blocks| == 1
    ensures var b := s.blocks[0];
            var bound := found.(relations := found.relations[b.id := Bindings(s, found, b)]);
            Output(s, bound, b) == Inference([ID], true) && !Right(meaning(b.id), Output(s, bound, b))
  {
    var select, from := ListedTokens(lexer);
    var b := ListedBlocks(lexer, select, from);
    var toks := Tokens8(select, from);
    ListedSees(lexer, select, from);
    StatementReady(lexer, toks);
    ListedIndex(select, from);
    assert toks[1].text == [STAR] && toks[3].start == 14;
    hide Tokens8, Ascii, EnvOf, PairParens, RelevantTokens, Lexer.Tokens, ListedBlock, Output, Bindings, Meaning, Right,
         Written, ParseBlocks, Sees, Env.Ready;
    ListedWritten(lexer, toks, s, b);
    assert b.id == Range(0, 20) by { assert ListedBlock(toks, b, Range(0, 20)); }
    ListedWrong(s, found, meaning, toks, b);
  }
}
