/** The output columns of one SELECT: what can be inferred from the sources known so far, and what there is to infer. */
module Projection {
  import opened SqlText
  import opened Tokenizer
  import opened ScopeParser

  /** Column names found, and whether they are claimed to be all of them. */
  datatype Inference = Inference(columns: seq<Text>, complete: bool)

  const UNKNOWN := Inference([], false)

  /** What a query really yields: nothing known, or its columns in order, each with or without a known name. */
  type Shape = Option<seq<Option<Text>>>

  function WithNames(names: seq<Text>): (r: seq<Option<Text>>)
    ensures |r| == |names|
  {
    seq(|names|, i requires 0 <= i < |names| => Some(names[i]))
  }

  /** The names of a shape all of whose columns have one. */
  function AllNames(columns: seq<Option<Text>>): (r: Option<seq<Text>>)
    ensures r.Some? ==> WithNames(r.value) == columns
  {
    if columns == [] then Some([])
    else match (columns[0], AllNames(columns[1..]))
         case (Some(n), Some(rest)) => Some([n] + rest)
         case _ => None
  }

  lemma {:induction false} AllNamesNamed(names: seq<Text>)
    ensures AllNames(WithNames(names)) == Some(names)
  {
    if names != [] {
      AllNamesNamed(names[1..]);
      assert WithNames(names)[1..] == WithNames(names[1..]);
      assert names == [names[0]] + names[1..];
    }
  }

  const DOT: Unit := 0x2E
  const OPEN: Unit := 0x28
  const CLOSE: Unit := 0x29
  const AS_WORD: Text := [0x41, 0x53]
  const ON_WORD: Text := [0x4F, 0x4E]
  const COLLATE: Text := [0x43, 0x4F, 0x4C, 0x4C, 0x41, 0x54, 0x45]
  const COUNT: Text := [0x43, 0x4F, 0x55, 0x4E, 0x54]
  const DISTINCT_WORD: Text := [0x44, 0x49, 0x53, 0x54, 0x49, 0x4E, 0x43, 0x54]
  const END_WORD: Text := [0x45, 0x4E, 0x44]
  const NULL_WORD: Text := [0x4E, 0x55, 0x4C, 0x4C]
  const TRUE_WORD: Text := [0x54, 0x52, 0x55, 0x45]
  const FALSE_WORD: Text := [0x46, 0x41, 0x4C, 0x53, 0x45]
  const APPLY: Text := [0x41, 0x50, 0x50, 0x4C, 0x59]
  const COLUMNS: Text := [0x43, 0x4F, 0x4C, 0x55, 0x4D, 0x4E, 0x53]
  const REPLACE: Text := [0x52, 0x45, 0x50, 0x4C, 0x41, 0x43, 0x45]
  const EXCEPT_WORD: Text := [0x45, 0x58, 0x43, 0x45, 0x50, 0x54]
  const OVER: Text := [0x4F, 0x56, 0x45, 0x52]
  const TRANSFORM: Text := [0x54, 0x52, 0x41, 0x4E, 0x53, 0x46, 0x4F, 0x52, 0x4D]

  // ---- names ----

  predicate IsIdentifier(tok: Token) { tok.kind == Identifier }

  function Decoded(tok: Token): Text { Decode(Lexeme(tok.kind, tok.text, tok.quoted)) }

  function SemanticName(tok: Token, dialect: Dialect): Text {
    IdentifierName(Decoded(tok), tok.quoted, dialect)
  }

  function Matches(names: seq<Text>, f: Text -> bool): seq<Text> {
    if names == [] then [] else (if f(names[0]) then [names[0]] else []) + Matches(names[1..], f)
  }

  function Exactly(name: Text): Text -> bool { c => c == name }

  function UpToCase(name: Text): Text -> bool { c => FoldLower(c) == FoldLower(name) }

  /** The candidate a name denotes: the one exact match, or the one match up to case where case does not decide. */
  function ResolveName(name: Text, quoted: bool, names: seq<Text>, dialect: Dialect): Option<Text> {
    var actual := IdentifierName(name, quoted, dialect);
    var exact := Matches(names, Exactly(actual));
    if |exact| == 1 then Some(exact[0])
    else if |exact| > 1 || dialect == Postgres || dialect == Clickhouse then None
    else
      var folded := Matches(names, UpToCase(actual));
      if |folded| == 1 then Some(folded[0]) else None
  }

  function Once(names: seq<Text>): seq<Text> {
    if names == [] then []
    else
      var rest := Once(names[..|names| - 1]);
      if names[|names| - 1] in rest then rest else rest + [names[|names| - 1]]
  }

  function RelationName(ref: FromRef, dialect: Dialect): Text {
    match ref.alias
    case Some(a) => IdentifierName(a.name, a.quoted, dialect)
    case None => IdentifierName(ref.name, ref.nameQuoted, dialect)
  }

  function NamespaceName(ref: FromRef, dialect: Dialect): Text
    requires ref.namespace.Some?
  {
    IdentifierName(ref.namespace.value.name, ref.namespace.value.quoted, dialect)
  }

  function Qualifiable(refs: seq<FromRef>): (r: seq<FromRef>)
    ensures forall x | x in r :: x in refs && x.namespace.Some?
  {
    if refs == [] then []
    else (if refs[0].alias.None? && refs[0].namespace.Some? then [refs[0]] else []) + Qualifiable(refs[1..])
  }

  function WithNamespace(refs: seq<FromRef>, name: Text, dialect: Dialect): (r: seq<FromRef>)
    requires forall x | x in refs :: x.namespace.Some?
    ensures forall x | x in r :: x in refs
  {
    if refs == [] then []
    else (if NamespaceName(refs[0], dialect) == name then [refs[0]] else []) + WithNamespace(refs[1..], name, dialect)
  }

  function WithName(refs: seq<FromRef>, name: Text, dialect: Dialect): (r: seq<FromRef>)
    ensures forall x | x in r :: x in refs
  {
    if refs == [] then []
    else (if RelationName(refs[0], dialect) == name then [refs[0]] else []) + WithName(refs[1..], name, dialect)
  }

  function NamespacesOf(refs: seq<FromRef>, dialect: Dialect): seq<Text>
    requires forall x | x in refs :: x.namespace.Some?
  {
    seq(|refs|, i requires 0 <= i < |refs| => NamespaceName(refs[i], dialect))
  }

  function RelationNames(refs: seq<FromRef>, dialect: Dialect): seq<Text> {
    seq(|refs|, i requires 0 <= i < |refs| => RelationName(refs[i], dialect))
  }

  /** The one relation a qualifier `t` or `s.t` denotes. */
  function RefForQualifier(tokens: seq<Token>, refs: seq<FromRef>, dialect: Dialect): (r: Option<FromRef>)
    ensures r.Some? ==> r.value in refs
  {
    if !Path(tokens) || (|tokens| != 1 && |tokens| != 3) then None
    else
      var eligible :=
        if |tokens| == 1 then Some(refs)
        else
          var spaces := Qualifiable(refs);
          match ResolveName(Decoded(tokens[0]), tokens[0].quoted, Once(NamespacesOf(spaces, dialect)), dialect)
          case None => None
          case Some(space) => Some(WithNamespace(spaces, space, dialect));
      match eligible
      case None => None
      case Some(few) =>
        var last := tokens[|tokens| - 1];
        match ResolveName(Decoded(last), last.quoted, RelationNames(few, dialect), dialect)
        case None => None
        case Some(name) =>
          var matched := WithName(few, name, dialect);
          if |matched| == 1 then Some(matched[0]) else None
  }

  /** Identifiers with dots between them. */
  predicate Path(tokens: seq<Token>) {
    forall i | 0 <= i < |tokens| :: if i % 2 == 0 then IsIdentifier(tokens[i]) else tokens[i].text == [DOT]
  }

  // ---- columns ----

  /** The columns of all sources, if all are known. */
  function AllColumns(refs: seq<FromRef>, known: int -> Option<seq<Text>>): Option<seq<Text>> {
    if refs == [] then Some([])
    else match (known(refs[0].id), AllColumns(refs[1..], known))
         case (Some(cs), Some(rest)) => Some(cs + rest)
         case _ => None
  }

  /** The name of the column that `c`, `t.c` or `s.t.c` denotes, if exactly one source column does. */
  function AsColumn(tokens: seq<Token>, refs: seq<FromRef>, known: int -> Option<seq<Text>>,
                    dialect: Dialect): Option<Text> {
    if !Path(tokens) || (|tokens| != 1 && |tokens| != 3 && |tokens| != 5) then None
    else
      var last := tokens[|tokens| - 1];
      var sources := if |tokens| == 1 then refs
                     else match RefForQualifier(tokens[..|tokens| - 2], refs, dialect)
                          case None => []
                          case Some(r) => [r];
      if sources == [] then None
      else match AllColumns(sources, known)
           case None => None
           case Some(found) =>
             match ResolveName(Decoded(last), last.quoted, found, dialect)
             case None => None
             case Some(name) => if |Matches(found, Exactly(name))| == 1 then Some(name) else None
  }

  // ---- select items ----

  datatype Aliased = Aliased(token: Token, expression: seq<Token>)

  /** `expression AS alias`, or `expression alias` after something an expression can end with. */
  function AliasOf(lexer: Lexer, tokens: seq<Token>): (r: Option<Aliased>)
    ensures r.Some? ==> |r.value.expression| < |tokens| && r.value.expression == tokens[..|r.value.expression|]
                        && IsIdentifier(r.value.token)
  {
    if |tokens| < 2 || !IsIdentifier(tokens[|tokens| - 1]) then None
    else
      var last, before := tokens[|tokens| - 1], tokens[|tokens| - 2];
      var word := lexer.Upper(before.text);
      if before.kind == Keyword && word == AS_WORD then
        if |tokens| > 2 then Some(Aliased(last, tokens[..|tokens| - 2])) else None
      else if word == COLLATE
           || !(before.kind == Identifier || before.kind == Number || before.kind == String || before.text == [CLOSE]
                || word == END_WORD || word == NULL_WORD || word == TRUE_WORD || word == FALSE_WORD) then None
      else Some(Aliased(last, tokens[..|tokens| - 1]))
  }

  predicate IsStar(tokens: seq<Token>) { |tokens| == 1 && tokens[0].text == [STAR] }

  predicate IsQualifiedStar(tokens: seq<Token>) {
    (|tokens| == 3 || |tokens| == 5) && tokens[|tokens| - 1].text == [STAR] && tokens[|tokens| - 2].text == [DOT]
    && Path(tokens[..|tokens| - 2])
  }

  /** A star that is neither a product nor the argument of COUNT. */
  predicate WildcardAt(lexer: Lexer, tokens: seq<Token>, i: nat)
    requires i < |tokens|
  {
    tokens[i].text == [STAR] &&
    if i == 0 || tokens[i - 1].text == [DOT] then true
    else if tokens[i - 1].text == [OPEN] then
      !(i >= 2 && lexer.Upper(tokens[i - 2].text) == COUNT && i + 1 < |tokens| && tokens[i + 1].text == [CLOSE])
    else tokens[i - 1].kind == Operator
  }

  predicate HasWildcard(lexer: Lexer, tokens: seq<Token>) {
    exists i | 0 <= i < |tokens| :: WildcardAt(lexer, tokens, i)
  }

  predicate IsSpecial(word: Text) {
    word == APPLY || word == COLUMNS || word == REPLACE || word == EXCEPT_WORD
  }

  /** Parenthesis depth before a token. */
  function Depth(tokens: seq<Token>, i: nat): int
    requires i <= |tokens|
  {
    if i == 0 then 0
    else
      var change := if tokens[i - 1].text == [OPEN] then 1 else if tokens[i - 1].text == [CLOSE] then -1 else 0;
      Depth(tokens, i - 1) + change
  }

  predicate Complex(lexer: Lexer, tokens: seq<Token>) {
    || (exists i | 0 <= i < |tokens| ::
          var w := lexer.Upper(tokens[i].text); IsSpecial(w) || w == OVER || w == TRANSFORM)
    || (|tokens| >= 2 && lexer.Upper(tokens[0].text) == DISTINCT_WORD && lexer.Upper(tokens[1].text) == ON_WORD)
    || (exists i | 0 <= i <= |tokens| :: Depth(tokens, i) < 0)
    || Depth(tokens, |tokens|) != 0
  }

  /** What one item adds to the projection, and whether it leaves it complete. */
  function InferItem(lexer: Lexer, item: seq<Token>, refs: seq<FromRef>, merges: bool,
                     known: int -> Option<seq<Text>>): Inference {
    if item == [] then UNKNOWN
    else
      var alias := AliasOf(lexer, item);
      var expression := if alias.Some? then alias.value.expression else item;
      var complicated := Complex(lexer, expression);
      var star := alias.None? && IsStar(expression);
      var qualified := alias.None? && IsQualifiedStar(expression);
      if !star && !qualified && HasWildcard(lexer, expression) then UNKNOWN
      else if star then
        if merges then UNKNOWN else Expanded(refs, known, refs != [] && !complicated)
      else if qualified then
        match RefForQualifier(expression[..|expression| - 2], refs, lexer.dialect)
        case None => UNKNOWN
        case Some(ref) =>
          match known(ref.id)
          case None => UNKNOWN
          case Some(cs) => Inference(cs, !complicated)
      else if alias.Some? then Inference([SemanticName(alias.value.token, lexer.dialect)], !complicated)
      else
        match if complicated then None else AsColumn(expression, refs, known, lexer.dialect)
        case None => UNKNOWN
        case Some(name) => Inference([name], true)
  }

  /** All sources in order; those unknown are left out, and the result is then not complete. */
  function Expanded(refs: seq<FromRef>, known: int -> Option<seq<Text>>, complete: bool): Inference {
    if refs == [] then Inference([], complete)
    else
      var rest := Expanded(refs[1..], known, complete);
      match known(refs[0].id)
      case None => rest.(complete := false)
      case Some(cs) => Inference(cs + rest.columns, rest.complete)
  }

  function Append(a: Inference, b: Inference): Inference {
    Inference(a.columns + b.columns, a.complete && b.complete)
  }

  function InferItems(lexer: Lexer, items: seq<seq<Token>>, refs: seq<FromRef>, merges: bool,
                      known: int -> Option<seq<Text>>, complete: bool): Inference {
    if items == [] then Inference([], complete)
    else Append(InferItems(lexer, items[..|items| - 1], refs, merges, known, complete),
                InferItem(lexer, items[|items| - 1], refs, merges, known))
  }

  /** The projection of a block from the columns of the sources that are known completely. */
  method InferSqlProjection(lexer: Lexer, block: Block, known: int -> Option<seq<Text>>) returns (r: Inference)
    ensures r == InferItems(lexer, block.selectItems, block.from, block.joinsMergeColumns, known,
                            block.unsupported.None? && block.selectItems != [])
  {
    var columns: seq<Text>, complete := [], block.unsupported.None? && block.selectItems != [];
    ghost var start := complete;
    for k := 0 to |block.selectItems|
      invariant Inference(columns, complete)
                == InferItems(lexer, block.selectItems[..k], block.from, block.joinsMergeColumns, known, start)
    {
      assert block.selectItems[..k + 1][..k] == block.selectItems[..k];
      var found := InferItem(lexer, block.selectItems[k], block.from, block.joinsMergeColumns, known);
      columns := columns + found.columns;
      if !found.complete { complete := false; }
    }
    assert block.selectItems[..|block.selectItems|] == block.selectItems;
    r := Inference(columns, complete);
  }

  /** Set operations take their names from the first branch and need the same number from all. */
  function CombineSqlSetProjection(branches: seq<Inference>): Inference {
    if branches == [] then UNKNOWN
    else Inference(branches[0].columns,
                   forall b | b in branches :: b.complete && |b.columns| == |branches[0].columns|)
  }
}
