/**
 The query-structure parser.  Every decision is taken on lexemes - kind, spelling,
 quoting - and every coordinate it writes is copied from a token or from the range
 it was given; that division is what makes cached syntax movable.
 */
module ScopeParser {
  import opened SqlText
  import opened Tokenizer

  datatype Outcome<+T> = Parsed(value: T) | Throws

  datatype Range = Range(start: int, end: int)

  datatype Column = Column(name: Text, quoted: bool)

  datatype RefKind = TableRef | CteRef | DerivedRef

  datatype FromRef = FromRef(
    id: int,
    kind: RefKind,
    declarationStart: int,
    name: Text,
    nameQuoted: bool,
    namespace: Option<Column>,
    alias: Option<Column>,
    columnAliases: Option<seq<Column>>,
    bodyScopeId: Option<Range>,
    lateral: bool)

  datatype Cte = Cte(name: Text, quoted: bool, columnAliases: Option<seq<Column>>, bodyScopeId: Range, recursive: bool)

  datatype ClauseName = SelectClause | FromClause | JoinClause | OnClause | WhereClause | HavingClause | GroupBy
    | OrderBy

  datatype Clause = Clause(name: ClauseName, start: int, end: int)

  datatype BlockKind = StatementBlock | CteBlock | DerivedBlock | ExpressionBlock | LateralBlock | CompoundBlock

  /** Why a block was given up; a construct is named by its word. */
  datatype Reason = NestingTooDeep | UnbalancedParentheses | UnsupportedWith | InvalidCteColumns | UnsupportedStatement
    | UnsupportedParenthesizedFrom | InvalidDerivedColumns | UnsupportedSource | InvalidRelation
    | UnsupportedWord(word: Word)

  /** Block identifiers are `query:start:end`; a pair of offsets stands for the string. */
  datatype Block = Block(
    id: Range,
    parentId: Option<Range>,
    range: Range,
    kind: BlockKind,
    selectItems: seq<seq<Token>>,
    from: seq<FromRef>,
    ctes: seq<Cte>,
    clauses: seq<Clause>,
    setBranchIds: Option<seq<Range>>,
    joinsMergeColumns: bool,
    unsupported: Option<Reason>)

  /** A token without its coordinates. */
  datatype Lexeme = Lexeme(kind: Kind, text: Text, quoted: bool)

  function Spelling(toks: seq<Token>): (r: seq<Lexeme>)
    ensures |r| == |toks|
  {
    seq(|toks|, i requires 0 <= i < |toks| => Lexeme(toks[i].kind, toks[i].text, toks[i].quoted))
  }

  function ClosedFrom(text: Text, i: nat, closing: int): bool
    decreases |text| - i
  {
    if i >= |text| then false
    else if text[i] != closing then ClosedFrom(text, i + 1, closing)
    else if At(text, i + 1) == closing then ClosedFrom(text, i + 2, closing)
    else i + 1 == |text|
  }

  function ClosingOf(text: Text): int {
    if At(text, 0) == 0x5B then 0x5D else At(text, 0)
  }

  predicate ClosedIdentifier(lex: Lexeme) {
    !lex.quoted || ClosedFrom(lex.text, 1, ClosingOf(lex.text))
  }

  /** Doubled closing units become single ones. */
  function Undouble(v: Text, closing: int): Text {
    if v == [] then []
    else if v[0] == closing && At(v, 1) == closing then [v[0]] + Undouble(v[2..], closing)
    else [v[0]] + Undouble(v[1..], closing)
  }

  function Decode(lex: Lexeme): Text {
    if !lex.quoted || lex.text == [] then lex.text
    else
      var inner := lex.text[1..];
      var value := if ClosedIdentifier(lex) && inner != [] then inner[..|inner| - 1] else inner;
      Undouble(value, ClosingOf(lex.text))
  }

  function FoldLower(name: Text): Text {
    seq(|name|, i requires 0 <= i < |name| => if 0x41 <= name[i] <= 0x5A then name[i] + 0x20 else name[i])
  }

  /** Unquoted PostgreSQL names fold their ASCII upper case; others are kept. */
  function IdentifierName(name: Text, quoted: bool, dialect: Dialect): Text {
    if dialect == Postgres && !quoted then FoldLower(name) else name
  }

  /** Does a name resolve among candidates: one exact match, or one case-insensitive match? */
  predicate Resolves(name: Text, quoted: bool, names: seq<Text>, dialect: Dialect) {
    var actual := IdentifierName(name, quoted, dialect);
    var exact := Matching(names, (c: Text) => c == actual);
    if exact == 1 then true
    else if exact > 1 || dialect == Postgres || dialect == Clickhouse then false
    else Matching(names, (c: Text) => FoldLower(c) == FoldLower(actual)) == 1
  }

  function Matching(names: seq<Text>, f: Text -> bool): nat {
    if names == [] then 0 else (if f(names[0]) then 1 else 0) + Matching(names[1..], f)
  }

  // ---- parentheses ----

  /** Parenthesis matching: what pairs with what, and what is wrong, if anything. */
  datatype Parens = Parens(pairs: map<nat, nat>, invalid: Option<Reason>)

  predicate IsText(lex: seq<Lexeme>, i: nat, c: Unit) {
    i < |lex| && lex[i].text == [c]
  }

  predicate IsOpen(lex: seq<Lexeme>, i: nat) { IsText(lex, i, 0x28) }

  predicate IsClose(lex: seq<Lexeme>, i: nat) { IsText(lex, i, 0x29) }

  /** One turn of the pairing loop, on the stack of open parentheses. */
  function PairStep(lex: seq<Lexeme>, i: nat, stack: seq<nat>, p: Parens): (seq<nat>, Parens)
    requires i < |lex|
  {
    if IsOpen(lex, i) then (stack + [i], if |stack| + 1 > 32 then p.(invalid := Some(NestingTooDeep)) else p)
    else if !IsClose(lex, i) then (stack, p)
    else if stack == [] then (stack, p.(invalid := Some(UnbalancedParentheses)))
    else (stack[..|stack| - 1], p.(pairs := p.pairs[stack[|stack| - 1] := i]))
  }

  function PairFrom(lex: seq<Lexeme>, i: nat, stack: seq<nat>, p: Parens): Parens
    requires i <= |lex|
    decreases |lex| - i
  {
    if i == |lex| then if stack != [] then p.(invalid := Some(UnbalancedParentheses)) else p
    else
      var (stack', p') := PairStep(lex, i, stack, p);
      PairFrom(lex, i + 1, stack', p')
  }

  function PairParens(lex: seq<Lexeme>): Parens {
    PairFrom(lex, 0, [], Parens(map[], None))
  }

  /** Only opening parentheses wait to be paired, or are. */
  ghost predicate OpensOnly(lex: seq<Lexeme>, stack: seq<nat>, pairs: map<nat, nat>) {
    (forall o | o in stack :: IsOpen(lex, o)) && (forall o | o in pairs :: IsOpen(lex, o))
  }

  /** Every opening parenthesis is closed, inside whatever encloses it. */
  ghost predicate Nested(lex: seq<Lexeme>, pairs: map<nat, nat>) {
    && OpensOnly(lex, [], pairs)
    && (forall o | o in pairs :: o < pairs[o] < |lex| && IsClose(lex, pairs[o]))
    && (forall o: nat | o < |lex| :: IsOpen(lex, o) ==> o in pairs)
    && (forall o, o' | o in pairs && o' in pairs :: o < o' < pairs[o] ==> pairs[o'] < pairs[o])
  }

  /** The loop's invariant: closed pairs enclose no open parenthesis. */
  ghost predicate Pairing(lex: seq<Lexeme>, i: nat, stack: seq<nat>, pairs: map<nat, nat>) {
    && i <= |lex|
    && (forall k | 0 <= k < |stack| :: stack[k] < i && stack[k] !in pairs)
    && (forall j, k | 0 <= j < k < |stack| :: stack[j] < stack[k])
    && (forall o | o in pairs :: o < pairs[o] < i && IsClose(lex, pairs[o]))
    && (forall o: nat | o < i :: IsOpen(lex, o) ==> o in pairs || o in stack)
    && (forall o, o' | o in pairs && o' in pairs :: o < o' < pairs[o] ==> pairs[o'] < pairs[o])
    && (forall o, k | o in pairs && 0 <= k < |stack| :: !(o < stack[k] < pairs[o]))
  }

  lemma PairingOpens(lex: seq<Lexeme>, i: nat, stack: seq<nat>, pairs: map<nat, nat>)
    requires Pairing(lex, i, stack, pairs) && i < |lex|
    ensures Pairing(lex, i + 1, stack + [i], pairs)
  {
  }

  lemma PairingKeeps(lex: seq<Lexeme>, i: nat, stack: seq<nat>, pairs: map<nat, nat>)
    requires Pairing(lex, i, stack, pairs) && i < |lex| && !IsOpen(lex, i)
    ensures Pairing(lex, i + 1, stack, pairs)
  {
  }

  lemma PairingCloses(lex: seq<Lexeme>, i: nat, rest: seq<nat>, top: nat, pairs: map<nat, nat>)
    requires Pairing(lex, i, rest + [top], pairs) && i < |lex| && IsClose(lex, i)
    ensures Pairing(lex, i + 1, rest, pairs[top := i])
  {
    var stack, pairs' := rest + [top], pairs[top := i];
    assert stack[|rest|] == top;
    forall k | 0 <= k < |rest| ensures stack[k] == rest[k] && rest[k] < top && rest[k] !in pairs' {}
    forall o: nat | o < i + 1 && IsOpen(lex, o) ensures o in pairs' || o in rest {
      assert o != i;
      if o in stack { var k :| 0 <= k < |stack| && stack[k] == o; }
    }
    forall o | o in pairs ensures !(o < top < pairs[o]) {
      assert stack[|rest|] == top;
    }
    forall o, k | o in pairs' && 0 <= k < |rest| ensures !(o < rest[k] < pairs'[o]) {
      assert stack[k] == rest[k];
    }
  }

  lemma PairingEnds(lex: seq<Lexeme>, pairs: map<nat, nat>)
    requires Pairing(lex, |lex|, [], pairs) && OpensOnly(lex, [], pairs)
    ensures Nested(lex, pairs)
  {
  }

  lemma PairingStep(lex: seq<Lexeme>, i: nat, stack: seq<nat>, p: Parens)
    requires Pairing(lex, i, stack, p.pairs) && i < |lex|
    requires OpensOnly(lex, stack, p.pairs)
    ensures var (stack', p') := PairStep(lex, i, stack, p);
            Pairing(lex, i + 1, stack', p'.pairs) && OpensOnly(lex, stack', p'.pairs)
  {
    if IsOpen(lex, i) {
      PairingOpens(lex, i, stack, p.pairs);
    } else if !IsClose(lex, i) || stack == [] {
      PairingKeeps(lex, i, stack, p.pairs);
    } else {
      var rest, top := stack[..|stack| - 1], stack[|stack| - 1];
      assert stack == rest + [top];
      PairingCloses(lex, i, rest, top, p.pairs);
    }
  }

  lemma {:induction false} PairFromNested(lex: seq<Lexeme>, i: nat, stack: seq<nat>, p: Parens)
    requires Pairing(lex, i, stack, p.pairs) && OpensOnly(lex, stack, p.pairs)
    ensures var r := PairFrom(lex, i, stack, p); r.invalid.None? ==> Nested(lex, r.pairs)
    decreases |lex| - i
  {
    if i == |lex| {
      if stack == [] { PairingEnds(lex, p.pairs); }
    } else {
      var (stack', p') := PairStep(lex, i, stack, p);
      PairingStep(lex, i, stack, p);
      PairFromNested(lex, i + 1, stack', p');
    }
  }

  /** A statement with no reported fault is properly parenthesised. */
  lemma PairParensNested(lex: seq<Lexeme>)
    ensures PairParens(lex).invalid.None? ==> Nested(lex, PairParens(lex).pairs)
  {
    PairFromNested(lex, 0, [], Parens(map[], None));
  }

  // ---- words ----

  /** The words the parser reacts to; every other lexeme is `Other`. */
  datatype Word = SELECT | WITH | RECURSIVE | AS | UNION | INTERSECT | EXCEPT | ORDER | BY | ALL | DISTINCT
    | APPLY | PIVOT | UNPIVOT | UNNEST | TABLESAMPLE | QUALIFY | WINDOW | ON | FINAL | PREWHERE | SAMPLE | ARRAY
    | JOIN | LIMIT | NATURAL | USING | FROM | WHERE | HAVING | GROUP | OFFSET | FETCH | LATERAL | Other

  const QUERY_WORDS: seq<(string, Word)> := [
    ("SELECT", SELECT), ("WITH", WITH), ("RECURSIVE", RECURSIVE), ("AS", AS), ("FROM", FROM), ("UNION", UNION),
    ("INTERSECT", INTERSECT), ("EXCEPT", EXCEPT), ("ORDER", ORDER), ("BY", BY), ("ALL", ALL), ("DISTINCT", DISTINCT)]

  const OTHER_WORDS: seq<(string, Word)> := [
    ("APPLY", APPLY), ("PIVOT", PIVOT), ("UNPIVOT", UNPIVOT), ("UNNEST", UNNEST), ("TABLESAMPLE", TABLESAMPLE),
    ("QUALIFY", QUALIFY), ("WINDOW", WINDOW), ("ON", ON), ("FINAL", FINAL), ("PREWHERE", PREWHERE),
    ("SAMPLE", SAMPLE), ("ARRAY", ARRAY), ("JOIN", JOIN), ("LIMIT", LIMIT), ("NATURAL", NATURAL), ("USING", USING),
    ("WHERE", WHERE), ("HAVING", HAVING), ("GROUP", GROUP), ("OFFSET", OFFSET), ("FETCH", FETCH),
    ("LATERAL", LATERAL)]

  const WORDS: seq<(string, Word)> := QUERY_WORDS + OTHER_WORDS

  function WordIn(words: seq<(string, Word)>, upper: Text): Word {
    if words == [] || |upper| < 2 then Other
    else if Ascii(words[0].0) == upper then words[0].1
    else WordIn(words[1..], upper)
  }

  function WordOf(lexer: Lexer, lex: Lexeme): Word {
    if lex.quoted || (lex.kind != Keyword && lex.kind != Identifier) then Other
    else WordIn(WORDS, lexer.Upper(lex.text))
  }

  predicate IsSet(w: Word) { w == UNION || w == INTERSECT || w == EXCEPT }

  predicate IsQuery(w: Word) { w == SELECT || w == WITH }

  predicate IsTail(w: Word) { w == LIMIT || w == OFFSET || w == FETCH }

  function Filter(s: seq<nat>, f: nat -> bool): (r: seq<nat>)
    ensures forall i :: i in r ==> i in s && f(i)
  {
    if s == [] then [] else (if f(s[0]) then [s[0]] else []) + Filter(s[1..], f)
  }

  lemma {:induction false} FilterAscends(s: seq<nat>, f: nat -> bool)
    requires forall j, k :: 0 <= j < k < |s| ==> s[j] < s[k]
    ensures forall j, k :: 0 <= j < k < |Filter(s, f)| ==> Filter(s, f)[j] < Filter(s, f)[k]
  {
    if s != [] {
      FilterAscends(s[1..], f);
      var rest := Filter(s[1..], f);
      forall k | 0 <= k < |rest| ensures s[0] < rest[k] { assert rest[k] in rest; }
    }
  }

  function First(s: seq<nat>, f: nat -> bool): (r: Option<nat>)
    ensures r.Some? ==> r.value in s && f(r.value)
  {
    if s == [] then None else if f(s[0]) then Some(s[0]) else First(s[1..], f)
  }

  // ---- coordinate-free decisions ----

  /** A statement's lexemes, their words and their parentheses. */
  datatype Env = Env(dialect: Dialect, lex: seq<Lexeme>, words: seq<Word>, pairs: map<nat, nat>) {
    function W(i: nat): Word { if i < |words| then words[i] else Other }

    predicate Open(i: nat) { IsOpen(lex, i) }

    predicate Dot(i: nat) { IsText(lex, i, 0x2E) }

    predicate Comma(i: nat) { IsText(lex, i, 0x2C) }

    predicate Identifier(i: nat) { i < |lex| && lex[i].kind == Kind.Identifier && ClosedIdentifier(lex[i]) }

    function Name(i: nat): Column
      requires i < |lex|
    {
      Column(Decode(lex[i]), lex[i].quoted)
    }

    /** No parenthesis opened in the interval closes outside it. */
    ghost predicate Closed(lo: nat, hi: nat) {
      && Nested(lex, pairs) && |words| == |lex| && lo <= hi <= |lex|
      && (forall o | o in pairs && lo <= o < hi :: pairs[o] < hi)
    }

    /** What can stand where an interval ends. */
    predicate EndMark(hi: nat) {
      hi == |lex| || IsClose(lex, hi) || IsSet(W(hi)) || W(hi) == ORDER
    }

    /** An interval the parser may be sent into. */
    ghost predicate Ready(lo: nat, hi: nat) {
      Closed(lo, hi) && EndMark(hi) && (forall i: nat | Open(i) || IsClose(lex, i) :: W(i) == Other)
    }

    /** The tokens of an interval that no parenthesis of it encloses. */
    function Top(lo: nat, hi: nat): (r: seq<nat>)
      requires Closed(lo, hi)
      ensures forall i :: i in r ==> lo <= i < hi
      ensures forall k :: 0 <= k < |r| ==> lo <= r[k] < hi
      ensures forall j, k :: 0 <= j < k < |r| ==> r[j] < r[k]
      decreases hi - lo
    {
      if lo == hi then []
      else
        var rest := Top(if Open(lo) then pairs[lo] + 1 else lo + 1, hi);
        assert forall k :: 0 <= k < |rest| ==> rest[k] in rest;
        [lo] + rest
    }

    /** `a, b, c` between parentheses, or nothing if it is anything else. */
    function Columns(i: nat, close: nat, seen: seq<Column>): Option<seq<Column>>
      requires close < |lex|
      decreases close - i
    {
      if i >= close then Some(seen)
      else if !Identifier(i) || (i + 1 < close && !Comma(i + 1)) then None
      else Columns(i + 2, close, seen + [Name(i)])
    }

    function ColumnList(open: nat): Option<seq<Column>>
      requires open in pairs && open < pairs[open] < |lex|
    {
      var close := pairs[open];
      match Columns(open + 1, close, [])
      case None => None
      case Some(cols) => if cols != [] && (close - open) % 2 == 0 then Some(cols) else None
    }

    function ClauseAt(i: nat): Option<ClauseName> {
      match W(i)
      case SELECT => Some(SelectClause)
      case FROM => Some(FromClause)
      case JOIN => Some(JoinClause)
      case ON => Some(OnClause)
      case WHERE => Some(WhereClause)
      case HAVING => Some(HavingClause)
      case GROUP => if W(i + 1) == BY then Some(GroupBy) else None
      case ORDER => if W(i + 1) == BY then Some(OrderBy) else None
      case _ => None
    }

    predicate Unsupported(top: seq<nat>, i: nat) {
      || W(i) in {APPLY, PIVOT, UNPIVOT, UNNEST, TABLESAMPLE, QUALIFY, WINDOW}
      || (W(i) == DISTINCT && W(i + 1) == ON)
      || (dialect == Clickhouse &&
          (|| W(i) in {FINAL, PREWHERE, SAMPLE}
           || (W(i) == ARRAY && W(i + 1) == JOIN)
           || (W(i) == LIMIT && exists j | j in top :: j > i && W(j) == BY)))
    }

    function SetOperators(top: seq<nat>): (r: seq<nat>)
      ensures forall i :: i in r ==> i in top && IsSet(W(i))
    {
      Filter(top, (i: nat) => IsSet(W(i)))
    }

    function OrderAfter(top: seq<nat>, last: nat): (r: Option<nat>)
      ensures r.Some? ==> r.value in top && r.value > last && W(r.value) == ORDER
    {
      First(top, (i: nat) => i > last && W(i) == ORDER && W(i + 1) == BY)
    }

    function FirstUnsupported(top: seq<nat>): (r: Option<nat>)
      ensures r.Some? ==> r.value in top
    {
      First(top, (i: nat) => Unsupported(top, i))
    }

    function ProjectionEnd(top: seq<nat>, start: nat, hi: nat): (r: nat)
      ensures r in top || r == hi
    {
      match First(top, (i: nat) => i > start && (ClauseAt(i).Some? || IsTail(W(i))))
      case Some(i) => i
      case None => hi
    }

    function AfterDistinct(i: nat): nat {
      if W(i) == DISTINCT || W(i) == ALL then i + 1 else i
    }

    function Commas(top: seq<nat>, from: nat, to: nat): (r: seq<nat>)
      ensures forall i :: i in r ==> i in top
    {
      Filter(top, (i: nat) => from <= i < to && Comma(i))
    }

    /** The dotted parts of a relation name, and the offset after them. */
    function Parts(i: nat, seen: seq<nat>): (r: (seq<nat>, nat))
      requires i <= |lex| && forall k :: k in seen ==> k < |lex|
      ensures forall k :: k in r.0 ==> k < |lex|
      ensures |r.0| >= |seen| && r.1 <= |lex|
      decreases |lex| - i
    {
      if Dot(i) && Identifier(i + 1) then Parts(i + 2, seen + [i + 1]) else (seen, i)
    }
  }

  /** A common table expression up to its body, or what is wrong with it. */
  datatype CteHeader = BadCte(reason: Reason) | CteHeader(aliases: Option<seq<Column>>, open: nat)

  function HeaderOf(env: Env, start: nat): (h: CteHeader)
    requires Nested(env.lex, env.pairs)
    ensures h.CteHeader? ==> start + 1 < h.open && env.Open(h.open) && env.W(h.open - 1) == AS && start < |env.lex|
    ensures h.CteHeader? ==> h.open == start + 2 || (env.Open(start + 1) && h.open == env.pairs[start + 1] + 2)
  {
    if !env.Identifier(start) then BadCte(UnsupportedWith)
    else
      var listed := env.Open(start + 1);
      var aliases := if listed then env.ColumnList(start + 1) else None;
      if listed && aliases.None? then BadCte(InvalidCteColumns)
      else
        var at := if listed then env.pairs[start + 1] + 1 else start + 1;
        if env.W(at) != AS || !env.Open(at + 1) || !IsQuery(env.W(at + 2)) then BadCte(UnsupportedWith)
        else CteHeader(aliases, at + 1)
  }

  /** What follows a relation: alias, column names, and where the next item may start. */
  datatype RelationTail = RelationTail(alias: Option<Column>, columns: Option<seq<Column>>, at: nat)

  /** The optional alias after a relation, and where it ends. */
  function AliasAt(env: Env, at: nat): (Option<Column>, nat) {
    var a := if env.W(at) == AS then at + 1 else at;
    if env.Identifier(a) then (Some(env.Name(a)), a + 1) else (None, a)
  }

  /** SQL Server's `WITH (...)` hint is skipped. */
  function SkipHint(env: Env, at: nat): nat
    requires Nested(env.lex, env.pairs)
  {
    if env.dialect == Sqlserver && env.W(at) == WITH && env.Open(at + 1) then env.pairs[at + 1] + 1 else at
  }

  function DerivedTail(env: Env, at: nat): Option<RelationTail>
    requires Nested(env.lex, env.pairs)
  {
    var (alias, after) := AliasAt(env, at);
    if !env.Open(after) then Some(RelationTail(alias, None, SkipHint(env, after)))
    else match env.ColumnList(after)
      case None => None
      case Some(cols) => Some(RelationTail(alias, Some(cols), SkipHint(env, env.pairs[after] + 1)))
  }

  /** A relation named by one or two parts. */
  datatype NamedRelation = NamedRelation(name: Column, namespace: Option<Column>, tail: RelationTail)

  function NamedAt(env: Env, at: nat): Option<NamedRelation>
    requires Nested(env.lex, env.pairs) && at < |env.lex|
  {
    var (parts, next) := env.Parts(at + 1, [at]);
    if |parts| > 2 || env.Dot(next) || env.Open(next) then None
    else
      var (alias, after) := AliasAt(env, next);
      assert parts[|parts| - 1] in parts && parts[0] in parts;
      Some(NamedRelation(env.Name(parts[|parts| - 1]), if |parts| == 2 then Some(env.Name(parts[0])) else None,
                         RelationTail(alias, None, SkipHint(env, after))))
  }

  /** Elements of the top level separate balanced intervals. */
  lemma {:induction false} TopCloses(env: Env, lo: nat, hi: nat, i: nat)
    requires env.Closed(lo, hi) && i in env.Top(lo, hi)
    ensures env.Closed(lo, i)
    decreases hi - lo
  {
    var next := if env.Open(lo) then env.pairs[lo] + 1 else lo + 1;
    if i != lo {
      assert i in env.Top(next, hi);
      TopCloses(env, next, hi, i);
      forall o | o in env.pairs && lo <= o < i ensures env.pairs[o] < i {
        if o >= next { assert next <= o < i; }
      }
    }
  }
}
