/** What a SELECT list yields, by reference rules, and why an inference that claims to be complete agrees. */
module ProjectionMeaning {
  import opened SqlText
  import opened Tokenizer
  import opened ScopeParser
  import opened Projection

  /** The shapes of sources, as the names they offer when every column has one. */
  function Offered(shapes: int -> Shape): int -> Option<seq<Text>> {
    id => match shapes(id) case None => None case Some(columns) => AllNames(columns)
  }

  /** A star outside parentheses that is not a product. */
  predicate OpenStar(tokens: seq<Token>, i: nat)
    requires i < |tokens|
  {
    tokens[i].text == [STAR] && Depth(tokens, i) == 0
    && (i == 0 || tokens[i - 1].text == [DOT] || (tokens[i - 1].kind == Operator && tokens[i - 1].text != [OPEN]))
  }

  /** Expressions whose number of columns these rules do not fix: other stars, and ClickHouse's column functions. */
  predicate Unfixed(lexer: Lexer, expression: seq<Token>) {
    || expression == []
    || (exists i | 0 <= i < |expression| :: OpenStar(expression, i))
    || (exists i | 0 <= i < |expression| :: !expression[i].quoted && IsSpecial(lexer.Upper(expression[i].text)))
  }

  function Expansion(refs: seq<FromRef>, shapes: int -> Shape): Shape {
    if refs == [] then Some([])
    else match (shapes(refs[0].id), Expansion(refs[1..], shapes))
         case (Some(cs), Some(rest)) => Some(cs + rest)
         case _ => None
  }

  // ---- names of select items ----

  /**
   Words of a dialect's expressions that its scanner takes for names: leading ones stand before an operand,
   as DIV and REGEXP do in MySQL, and closing ones end an expression, as ISNULL does, or DAY behind INTERVAL 7.
   */
  datatype OperatorWords = OperatorWords(leading: Text -> bool, closing: Text -> bool)

  predicate IsOperatorWord(lexer: Lexer, tok: Token, words: Text -> bool) {
    !tok.quoted && words(lexer.Upper(tok.text))
  }

  predicate HasAs(lexer: Lexer, item: seq<Token>) {
    |item| > 2 && IsIdentifier(item[|item| - 1])
    && item[|item| - 2].kind == Keyword && lexer.Upper(item[|item| - 2].text) == AS_WORD
  }

  /** Names, literals and closing brackets may end an expression, and so may these words. */
  predicate MayEnd(lexer: Lexer, tok: Token) {
    || tok.kind == Identifier || tok.kind == Number || tok.kind == String || tok.text == [CLOSE] || tok.text == [0x5D]
    || lexer.Upper(tok.text) == END_WORD || lexer.Upper(tok.text) == NULL_WORD
    || lexer.Upper(tok.text) == TRUE_WORD || lexer.Upper(tok.text) == FALSE_WORD
  }

  /** A name that directly follows what an expression may end with. */
  predicate EndsBare(lexer: Lexer, item: seq<Token>) {
    |item| >= 2 && IsIdentifier(item[|item| - 1]) && !HasAs(lexer, item) && MayEnd(lexer, item[|item| - 2])
  }

  /** Such a name that belongs to the expression: the operand of the word before it, or a word that ends it. */
  predicate EndsInOperator(lexer: Lexer, operators: OperatorWords, item: seq<Token>) {
    EndsBare(lexer, item) && (|| IsOperatorWord(lexer, item[|item| - 2], operators.leading)
                              || IsOperatorWord(lexer, item[|item| - 1], operators.closing))
  }

  /** An item is named behind AS, or by a bare name. */
  function NameOfItem(lexer: Lexer, item: seq<Token>): Option<Aliased> {
    if HasAs(lexer, item) then Some(Aliased(item[|item| - 1], item[..|item| - 2]))
    else if EndsBare(lexer, item) then Some(Aliased(item[|item| - 1], item[..|item| - 1]))
    else None
  }

  /**
   A star is all sources in order, a qualified star one source, and anything else one column: without a known name
   if it ends in an operator, called by its name if it has one, or, if it is a column, by that column's name.
   */
  function ItemShape(lexer: Lexer, operators: OperatorWords, item: seq<Token>, refs: seq<FromRef>, merges: bool,
                     shapes: int -> Shape): Shape {
    if EndsInOperator(lexer, operators, item) then if Unfixed(lexer, item) then None else Some([None])
    else
      match NameOfItem(lexer, item)
      case Some(a) => if Unfixed(lexer, a.expression) then None else Some([Some(SemanticName(a.token, lexer.dialect))])
      case None =>
        if IsStar(item) then if merges || refs == [] then None else Expansion(refs, shapes)
        else if IsQualifiedStar(item) then
          match RefForQualifier(item[..|item| - 2], refs, lexer.dialect)
          case None => None
          case Some(ref) => shapes(ref.id)
        else if Unfixed(lexer, item) then None
        else Some([AsColumn(item, refs, Offered(shapes), lexer.dialect)])
  }

  function Joined(a: Shape, b: Shape): Shape {
    match (a, b) case (Some(x), Some(y)) => Some(x + y) case _ => None
  }

  function ItemsShape(lexer: Lexer, operators: OperatorWords, items: seq<seq<Token>>, refs: seq<FromRef>, merges: bool,
                      shapes: int -> Shape): Shape {
    if items == [] then Some([])
    else Joined(ItemsShape(lexer, operators, items[..|items| - 1], refs, merges, shapes),
                ItemShape(lexer, operators, items[|items| - 1], refs, merges, shapes))
  }

  /** Inference says nothing of a source that is not so. */
  ghost predicate Within(known: int -> Option<seq<Text>>, shapes: int -> Shape) {
    forall id :: known(id).Some? ==> shapes(id) == Some(WithNames(known(id).value))
  }

  lemma {:induction false} AllColumnsAgree(refs: seq<FromRef>, known: int -> Option<seq<Text>>, shapes: int -> Shape)
    requires Within(known, shapes)
    ensures AllColumns(refs, known).Some? ==> AllColumns(refs, Offered(shapes)) == AllColumns(refs, known)
  {
    if refs != [] {
      AllColumnsAgree(refs[1..], known, shapes);
      if known(refs[0].id).Some? { AllNamesNamed(known(refs[0].id).value); }
    }
  }

  /** A column found among known sources is the one there is. */
  lemma AsColumnAgrees(tokens: seq<Token>, refs: seq<FromRef>, known: int -> Option<seq<Text>>, shapes: int -> Shape,
                       dialect: Dialect)
    requires Within(known, shapes) && AsColumn(tokens, refs, known, dialect).Some?
    ensures AsColumn(tokens, refs, Offered(shapes), dialect) == AsColumn(tokens, refs, known, dialect)
  {
    var sources := if |tokens| == 1 then refs
                   else
                     match RefForQualifier(tokens[..|tokens| - 2], refs, dialect)
                     case None => []
                     case Some(r) => [r];
    AllColumnsAgree(sources, known, shapes);
  }

  lemma NamedAppend(a: seq<Text>, b: seq<Text>)
    ensures WithNames(a + b) == WithNames(a) + WithNames(b)
  {
  }

  lemma {:induction false} ExpandedAgrees(refs: seq<FromRef>, known: int -> Option<seq<Text>>, shapes: int -> Shape,
                                          complete: bool)
    requires Within(known, shapes) && Expanded(refs, known, complete).complete
    ensures Expansion(refs, shapes) == Some(WithNames(Expanded(refs, known, complete).columns))
  {
    if refs == [] {
      assert WithNames([]) == [];
    } else {
      ExpandedAgrees(refs[1..], known, shapes, complete);
      NamedAppend(known(refs[0].id).value, Expanded(refs[1..], known, complete).columns);
    }
  }

  /** An expression without wildcards and nothing special has one column. */
  lemma PlainIsFixed(lexer: Lexer, expression: seq<Token>)
    requires expression != [] && !HasWildcard(lexer, expression) && !Complex(lexer, expression)
    ensures !Unfixed(lexer, expression)
  {
    forall i | 0 <= i < |expression| ensures !OpenStar(expression, i) && !IsSpecial(lexer.Upper(expression[i].text)) {
      assert !WildcardAt(lexer, expression, i);
    }
  }

  lemma {:induction false} SignUpper(lexer: Lexer, c: Unit)
    requires c < 0x61
    ensures lexer.Upper([c]) == [c]
  {
    assert [c][1..] == [];
  }

  lemma AliasHasExpression(lexer: Lexer, item: seq<Token>)
    requires AliasOf(lexer, item).Some?
    ensures AliasOf(lexer, item).value.expression != []
  {
    hide Lexer.Upper;
  }

  /** What the inference takes for a name is one by these rules, which know more endings of expressions. */
  lemma AliasIsName(lexer: Lexer, item: seq<Token>)
    requires AliasOf(lexer, item).Some?
    ensures NameOfItem(lexer, item) == AliasOf(lexer, item)
  {
    SignUpper(lexer, CLOSE);
    hide Lexer.Upper;
  }

  /** A name is not bare behind a dot. */
  lemma JoinedNotBare(lexer: Lexer, item: seq<Token>)
    requires AliasOf(lexer, item).None?
    requires |item| < 2 || item[|item| - 2].text == [DOT]
    ensures NameOfItem(lexer, item).None? && !EndsBare(lexer, item)
  {
    SignUpper(lexer, DOT);
    hide Lexer.Upper;
  }

  /** What is claimed completely without a name is a path or a star. */
  lemma UnnamedIsPath(lexer: Lexer, item: seq<Token>, refs: seq<FromRef>, merges: bool, known: int -> Option<seq<Text>>)
    requires InferItem(lexer, item, refs, merges, known).complete && AliasOf(lexer, item).None?
    ensures IsStar(item) || IsQualifiedStar(item) || (Path(item) && |item| % 2 == 1)
  {
    hide Complex, HasWildcard, AliasOf, RefForQualifier, AllColumns, ResolveName, Path, IsStar, IsQualifiedStar,
         Expanded;
  }

  /** A path or a star has no bare name. */
  lemma PathNotBare(lexer: Lexer, item: seq<Token>)
    requires AliasOf(lexer, item).None? && (IsStar(item) || IsQualifiedStar(item) || (Path(item) && |item| % 2 == 1))
    ensures NameOfItem(lexer, item).None? && !EndsBare(lexer, item)
  {
    assert |item| < 2 || item[|item| - 2].text == [DOT];
    hide Path, IsStar, IsQualifiedStar, AliasOf, EndsBare, NameOfItem;
    JoinedNotBare(lexer, item);
  }

  /** A column, or a star that is known completely. */
  lemma UnnamedSound(lexer: Lexer, operators: OperatorWords, item: seq<Token>, refs: seq<FromRef>, merges: bool,
                     known: int -> Option<seq<Text>>, shapes: int -> Shape)
    requires Within(known, shapes) && InferItem(lexer, item, refs, merges, known).complete && AliasOf(lexer, item).None?
    ensures ItemShape(lexer, operators, item, refs, merges, shapes)
            == Some(WithNames(InferItem(lexer, item, refs, merges, known).columns))
    ensures !EndsInOperator(lexer, operators, item)
  {
    hide Complex, HasWildcard, Unfixed, RefForQualifier, AsColumn, AliasOf, NameOfItem, EndsBare, Decoded, Path;
    UnnamedIsPath(lexer, item, refs, merges, known);
    PathNotBare(lexer, item);
    if IsStar(item) {
      ExpandedAgrees(refs, known, shapes, refs != [] && !Complex(lexer, item));
    } else if !IsQualifiedStar(item) {
      PlainIsFixed(lexer, item);
      AsColumnAgrees(item, refs, known, shapes, lexer.dialect);
      assert WithNames([AsColumn(item, refs, known, lexer.dialect).value])
             == [AsColumn(item, refs, known, lexer.dialect)];
    }
  }

  /**
   What one item is claimed to add completely is what it adds, exactly unless its last name belongs to its
   expression; the number of columns is right in any case.
   */
  lemma ItemRightIff(lexer: Lexer, operators: OperatorWords, item: seq<Token>, refs: seq<FromRef>, merges: bool,
                     known: int -> Option<seq<Text>>, shapes: int -> Shape)
    requires Within(known, shapes) && InferItem(lexer, item, refs, merges, known).complete
    ensures var shape, names := ItemShape(lexer, operators, item, refs, merges, shapes),
              WithNames(InferItem(lexer, item, refs, merges, known).columns);
            && (shape == Some(names) <==> !EndsInOperator(lexer, operators, item))
            && (shape.Some? ==> |shape.value| == |names|)
  {
    hide Complex, HasWildcard, Unfixed, RefForQualifier, AsColumn, NameOfItem, AliasOf, EndsInOperator, Decoded, Path;
    match AliasOf(lexer, item) {
      case Some(a) =>
        AliasHasExpression(lexer, item);
        AliasIsName(lexer, item);
        PlainIsFixed(lexer, a.expression);
        assert WithNames([SemanticName(a.token, lexer.dialect)]) == [Some(SemanticName(a.token, lexer.dialect))];
      case None => UnnamedSound(lexer, operators, item, refs, merges, known, shapes);
    }
  }

  predicate NoneInOperator(lexer: Lexer, operators: OperatorWords, items: seq<seq<Token>>) {
    forall item | item in items :: !EndsInOperator(lexer, operators, item)
  }

  /** A projection inferred as complete lists exactly the columns there are, just when no item ends in an operator. */
  lemma {:induction false} ItemsRightIff(lexer: Lexer, operators: OperatorWords, items: seq<seq<Token>>,
                                         refs: seq<FromRef>, merges: bool, known: int -> Option<seq<Text>>,
                                         shapes: int -> Shape, complete: bool)
    requires Within(known, shapes) && InferItems(lexer, items, refs, merges, known, complete).complete
    ensures complete
    ensures var shape := ItemsShape(lexer, operators, items, refs, merges, shapes);
            var names := WithNames(InferItems(lexer, items, refs, merges, known, complete).columns);
            && (shape == Some(names) <==> NoneInOperator(lexer, operators, items))
            && (shape.Some? ==> |shape.value| == |names|)
  {
    hide InferItem, ItemShape, EndsInOperator;
    if items == [] {
      assert WithNames([]) == [];
    } else {
      var init, last := items[..|items| - 1], items[|items| - 1];
      assert items == init + [last];
      ItemsRightIff(lexer, operators, init, refs, merges, known, shapes, complete);
      ItemRightIff(lexer, operators, last, refs, merges, known, shapes);
      var a, b := InferItems(lexer, init, refs, merges, known, complete).columns,
          InferItem(lexer, last, refs, merges, known).columns;
      NamedAppend(a, b);
      JoinedIs(ItemsShape(lexer, operators, init, refs, merges, shapes),
               ItemShape(lexer, operators, last, refs, merges, shapes),
               WithNames(a), WithNames(b));
    }
  }

  lemma JoinedIs(x: Shape, y: Shape, a: seq<Option<Text>>, b: seq<Option<Text>>)
    requires (x.Some? ==> |x.value| == |a|) && (y.Some? ==> |y.value| == |b|)
    ensures Joined(x, y) == Some(a + b) <==> x == Some(a) && y == Some(b)
    ensures Joined(x, y).Some? ==> |Joined(x, y).value| == |a + b|
  {
    if Joined(x, y) == Some(a + b) {
      assert x.value == (x.value + y.value)[..|a|] && a == (a + b)[..|a|];
      assert y.value == (x.value + y.value)[|a|..] && b == (a + b)[|a|..];
    }
  }

  // ---- the number of columns ----

  /** An item that surely is one column: no star outside parentheses, and none of these words. */
  predicate CountsAsOne(lexer: Lexer, item: seq<Token>) {
    && item != []
    && (forall i | 0 <= i < |item| :: !(item[i].text == [STAR] && Depth(item, i) == 0))
    && (forall i | 0 <= i < |item| :: item[i].quoted ||
          var w := lexer.Upper(item[i].text); !(IsSpecial(w) || w == DISTINCT_WORD || w == OVER))
  }

  lemma {:induction false} DepthPrefix(a: seq<Token>, n: nat, i: nat)
    requires i <= n <= |a|
    ensures Depth(a[..n], i) == Depth(a, i)
  {
    if i > 0 { DepthPrefix(a, n, i - 1); }
  }

  /** As the scanner leaves them, identifiers are not parentheses. */
  ghost predicate Lexed(item: seq<Token>) {
    forall i | 0 <= i < |item| :: IsIdentifier(item[i]) ==> item[i].text != [OPEN] && item[i].text != [CLOSE]
  }

  lemma CountsOne(lexer: Lexer, operators: OperatorWords, item: seq<Token>, refs: seq<FromRef>, merges: bool,
                  shapes: int -> Shape)
    requires CountsAsOne(lexer, item) && Lexed(item)
    ensures var s := ItemShape(lexer, operators, item, refs, merges, shapes); s.Some? && |s.value| == 1
  {
    if IsStar(item) { StarIsOpen(item); }
    if IsQualifiedStar(item) { QualifiedStarIsOpen(item); }
    CountedIsFixed(lexer, item, item);
    var name := NameOfItem(lexer, item);
    if name.Some? { CountedIsFixed(lexer, item, name.value.expression); }
    hide CountsAsOne, Lexed, Unfixed, NameOfItem, EndsInOperator, AsColumn, RefForQualifier, IsStar, IsQualifiedStar,
         Expansion;
  }

  lemma CountedIsFixed(lexer: Lexer, item: seq<Token>, expression: seq<Token>)
    requires CountsAsOne(lexer, item) && 0 < |expression| <= |item| && expression == item[..|expression|]
    ensures !Unfixed(lexer, expression)
  {
    forall i | 0 <= i < |expression|
      ensures !OpenStar(expression, i) && (!expression[i].quoted ==> !IsSpecial(lexer.Upper(expression[i].text)))
    {
      assert expression[i] == item[i];
      DepthPrefix(item, |expression|, i);
    }
  }

  lemma StarIsOpen(item: seq<Token>)
    requires IsStar(item)
    ensures item[0].text == [STAR] && Depth(item, 0) == 0
  {
  }

  /** The star of `t.*` stands outside parentheses. */
  lemma QualifiedStarIsOpen(item: seq<Token>)
    requires IsQualifiedStar(item) && Lexed(item)
    ensures item[|item| - 1].text == [STAR] && Depth(item, |item| - 1) == 0
  {
    var n := |item| - 1;
    forall k | 0 <= k < n ensures item[k].text != [OPEN] && item[k].text != [CLOSE] {
      if k < n - 1 { assert item[..|item| - 2][k] == item[k]; }
    }
    FlatDepth(item, n);
  }

  lemma {:induction false} FlatDepth(tokens: seq<Token>, i: nat)
    requires i <= |tokens| && forall k | 0 <= k < i :: tokens[k].text != [OPEN] && tokens[k].text != [CLOSE]
    ensures Depth(tokens, i) == 0
  {
    if i > 0 { FlatDepth(tokens, i - 1); }
  }
}
