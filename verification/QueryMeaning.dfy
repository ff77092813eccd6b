/** There is exactly one meaning: the reference rules determine the columns of queries that do not read themselves. */
module QueryMeaning {
  import opened SqlText
  import opened Tokenizer
  import opened ScopeParser
  import opened Projection
  import opened ProjectionMeaning
  import opened CteScopes
  import opened Scopes

  /** Does the meaning of a relation in FROM rest on that of a block? */
  predicate SourceReads(s: Setting, k: nat, ref: FromRef, id: Range)
    requires k < |s.blocks|
  {
    match ref.bodyScopeId
    case Some(body) => body == id
    case None =>
      if ref.namespace.Some? then false
      else match LookUp(s.blocks, k, ref, s.lexer.dialect)
           case None => false
           case Some(c) => c.bodyScopeId == id
  }

  /** Does the meaning of a block rest directly on that of another? */
  predicate Reads(s: Setting, k: nat, id: Range)
    requires k < |s.blocks|
  {
    || (s.blocks[k].setBranchIds.Some? && id in s.blocks[k].setBranchIds.value)
    || exists ref | ref in s.blocks[k].from :: SourceReads(s, k, ref, id)
  }

  /** Blocks rest on blocks of lower rank: none rests on itself, directly or not. */
  ghost predicate Ranked(s: Setting, rank: Range -> nat) {
    forall k, id | 0 <= k < |s.blocks| && Reads(s, k, id) ::
      rank(id) < rank(s.blocks[k].id) && exists j :: 0 <= j < |s.blocks| && s.blocks[j].id == id
  }

  // ---- a block's shape depends on what it reads, and on nothing else ----

  ghost predicate Same<A(!new), B>(f: A -> B, g: A -> B) {
    forall x :: f(x) == g(x)
  }

  lemma {:induction false} ExpansionSame(refs: seq<FromRef>, f: int -> Shape, g: int -> Shape)
    requires Same(f, g)
    ensures Expansion(refs, f) == Expansion(refs, g)
  {
    if refs != [] { ExpansionSame(refs[1..], f, g); }
  }

  lemma {:induction false} AllColumnsSame(refs: seq<FromRef>, f: int -> Option<seq<Text>>, g: int -> Option<seq<Text>>)
    requires Same(f, g)
    ensures AllColumns(refs, f) == AllColumns(refs, g)
  {
    if refs != [] { AllColumnsSame(refs[1..], f, g); }
  }

  lemma AsColumnSame(tokens: seq<Token>, refs: seq<FromRef>, f: int -> Shape, g: int -> Shape, dialect: Dialect)
    requires Same(f, g)
    ensures AsColumn(tokens, refs, Offered(f), dialect) == AsColumn(tokens, refs, Offered(g), dialect)
  {
    forall sources: seq<FromRef> ensures AllColumns(sources, Offered(f)) == AllColumns(sources, Offered(g)) {
      AllColumnsSame(sources, Offered(f), Offered(g));
    }
  }

  lemma ItemShapeSame(lexer: Lexer, operators: OperatorWords, item: seq<Token>, refs: seq<FromRef>, merges: bool,
                      f: int -> Shape, g: int -> Shape)
    requires Same(f, g)
    ensures ItemShape(lexer, operators, item, refs, merges, f) == ItemShape(lexer, operators, item, refs, merges, g)
  {
    ExpansionSame(refs, f, g);
    AsColumnSame(item, refs, f, g, lexer.dialect);
    hide Expansion, AsColumn, RefForQualifier, NameOfItem, EndsInOperator, Unfixed, IsStar, IsQualifiedStar;
  }

  lemma {:induction false} ItemsShapeSame(lexer: Lexer, operators: OperatorWords, items: seq<seq<Token>>,
                                          refs: seq<FromRef>, merges: bool, f: int -> Shape, g: int -> Shape)
    requires Same(f, g)
    ensures ItemsShape(lexer, operators, items, refs, merges, f) == ItemsShape(lexer, operators, items, refs, merges, g)
  {
    hide ItemShape;
    if items != [] {
      ItemsShapeSame(lexer, operators, items[..|items| - 1], refs, merges, f, g);
      ItemShapeSame(lexer, operators, items[|items| - 1], refs, merges, f, g);
    }
  }

  lemma {:induction false} FirstRefIn(refs: seq<FromRef>, id: int)
    ensures FirstRef(refs, id).Some? ==> FirstRef(refs, id).value in refs
  {
    if refs != [] { FirstRefIn(refs[1..], id); }
  }

  lemma BlockShapeSame(s: Setting, a: Range -> Shape, b: Range -> Shape, k: nat)
    requires k < |s.blocks| && forall id | Reads(s, k, id) :: a(id) == b(id)
    ensures BlockShape(s, a, k) == BlockShape(s, b, k)
  {
    var block := s.blocks[k];
    hide LookUp, ItemsShape, RenamedBy, TableShape;
    if block.setBranchIds.Some? {
      var ids := block.setBranchIds.value;
      assert forall i | 0 <= i < |ids| :: Reads(s, k, ids[i]);
    } else {
      forall id ensures SourceShapes(s, a, k)(id) == SourceShapes(s, b, k)(id) {
        FirstRefIn(block.from, id);
        if FirstRef(block.from, id).Some? { SourceShapeSame(s, a, b, k, FirstRef(block.from, id).value); }
      }
      ItemsShapeSame(s.lexer, s.operators, block.selectItems, block.from, block.joinsMergeColumns,
                     SourceShapes(s, a, k), SourceShapes(s, b, k));
    }
  }

  lemma SourceShapeSame(s: Setting, a: Range -> Shape, b: Range -> Shape, k: nat, ref: FromRef)
    requires k < |s.blocks| && ref in s.blocks[k].from && forall id | Reads(s, k, id) :: a(id) == b(id)
    ensures SourceShape(s, a, k, ref) == SourceShape(s, b, k, ref)
  {
    hide LookUp, RenamedBy, TableShape;
    forall id | SourceReads(s, k, ref, id) ensures a(id) == b(id) { assert Reads(s, k, id); }
  }

  // ---- existence and uniqueness ----

  /** The meaning, evaluated to a depth. */
  function Evaluated(s: Setting, n: nat): Range -> Shape {
    if n == 0 then (id: Range) => None
    else
      var inner := Evaluated(s, n - 1);
      (id: Range) => ShapeFrom(s, inner, id)
  }

  function ShapeFrom(s: Setting, inner: Range -> Shape, id: Range): Shape {
    var k := Before(s.blocks, id, |s.blocks|);
    if k < |s.blocks| then BlockShape(s, inner, k) else None
  }

  /** Beyond its rank, more depth changes nothing. */
  lemma {:induction false} Settles(s: Setting, rank: Range -> nat, n: nat, id: Range)
    requires Ranked(s, rank) && rank(id) < n
    ensures Evaluated(s, n)(id) == Evaluated(s, n + 1)(id)
  {
    hide BlockShape;
    var k := Before(s.blocks, id, |s.blocks|);
    if k < |s.blocks| {
      forall x | Reads(s, k, x) ensures Evaluated(s, n - 1)(x) == Evaluated(s, n)(x) { Settles(s, rank, n - 1, x); }
      BlockShapeSame(s, Evaluated(s, n - 1), Evaluated(s, n), k);
    }
  }

  lemma MeaningExists(s: Setting, rank: Range -> nat, n: nat)
    requires Treelike(s.blocks) && Ranked(s, rank) && forall k | 0 <= k < |s.blocks| :: rank(s.blocks[k].id) < n
    ensures Meaning(s, Evaluated(s, n))
  {
    hide BlockShape;
    forall k | 0 <= k < |s.blocks| ensures Evaluated(s, n)(s.blocks[k].id) == BlockShape(s, Evaluated(s, n), k) {
      BeforeFinds(s.blocks, s.blocks[k].id, |s.blocks|, k);
      forall x | Reads(s, k, x) ensures Evaluated(s, n - 1)(x) == Evaluated(s, n)(x) { Settles(s, rank, n - 1, x); }
      BlockShapeSame(s, Evaluated(s, n - 1), Evaluated(s, n), k);
    }
  }

  lemma {:induction false} MeaningUnique(s: Setting, rank: Range -> nat, a: Range -> Shape, b: Range -> Shape, k: nat)
    requires Ranked(s, rank) && Meaning(s, a) && Meaning(s, b) && k < |s.blocks|
    ensures a(s.blocks[k].id) == b(s.blocks[k].id)
    decreases rank(s.blocks[k].id)
  {
    hide BlockShape;
    forall x | Reads(s, k, x) ensures a(x) == b(x) {
      var j :| 0 <= j < |s.blocks| && s.blocks[j].id == x;
      MeaningUnique(s, rank, a, b, j);
    }
    BlockShapeSame(s, a, b, k);
  }
}
