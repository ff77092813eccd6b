/** In every pass, whatever is flagged complete is what the query means. */
module ScopeSoundness {
  import opened SqlText
  import opened Tokenizer
  import opened ScopeParser
  import opened BlockParser
  import opened Projection
  import opened ProjectionMeaning
  import opened CteScopes
  import opened Scopes

  lemma {:induction false} ByIdFinds(blocks: seq<Block>, id: Range)
    ensures var r := ById(blocks, id);
            && (r.Some? ==> exists k :: 0 <= k < |blocks| && blocks[k] == r.value && blocks[k].id == id)
            && (r.None? ==> forall k | 0 <= k < |blocks| :: blocks[k].id != id)
  {
    if blocks != [] && blocks[|blocks| - 1].id != id {
      var init := blocks[..|blocks| - 1];
      ByIdFinds(init, id);
      if ById(init, id).Some? {
        var k :| 0 <= k < |init| && init[k] == ById(init, id).value && init[k].id == id;
        assert blocks[k] == init[k];
      } else {
        forall k | 0 <= k < |blocks| ensures blocks[k].id != id { if k < |init| { assert blocks[k] == init[k]; } }
      }
    }
  }

  /** Where the block with an identifier stands. */
  lemma Position(s: Setting, id: Range) returns (k: nat)
    requires ById(s.blocks, id).Some?
    ensures k < |s.blocks| && s.blocks[k].id == id && ById(s.blocks, id) == Some(s.blocks[k])
  {
    ByIdFinds(s.blocks, id);
    k :| 0 <= k < |s.blocks| && s.blocks[k] == ById(s.blocks, id).value && s.blocks[k].id == id;
  }

  // ---- numbers of columns ----

  lemma {:induction false} ItemsCount(lexer: Lexer, operators: OperatorWords, items: seq<seq<Token>>,
                                      refs: seq<FromRef>, merges: bool, shapes: int -> Shape)
    requires forall item | item in items :: CountsAsOne(lexer, item) && Lexed(item)
    ensures var r := ItemsShape(lexer, operators, items, refs, merges, shapes); r.Some? && |r.value| == |items|
  {
    hide ItemShape, CountsAsOne, Lexed;
    if items != [] {
      ItemsCount(lexer, operators, items[..|items| - 1], refs, merges, shapes);
      CountsOne(lexer, operators, items[|items| - 1], refs, merges, shapes);
    }
  }

  lemma {:induction false} AritySound(s: Setting, meaning: Range -> Shape, found: Found, id: Range, fuel: nat)
    requires Plain(s) && Meaning(s, meaning) && SoundProjections(s, meaning, found)
    requires Arity(s, found, id, fuel).Some?
    ensures meaning(id).Some? && |meaning(id).value| == Arity(s, found, id, fuel).value
    decreases fuel
  {
    hide ItemsShape, ItemShape, CountsAsOne, Lexed, Treelike, Visible, SourceShapes, ById;
    if !ProjectionOf(found, id).complete {
      var k := Position(s, id);
      var block := s.blocks[k];
      assert meaning(id) == BlockShape(s, meaning, k);
      match block.setBranchIds {
        case Some(ids) =>
          forall i | 0 <= i < |ids|
            ensures meaning(ids[i]).Some? && |meaning(ids[i]).value| == Arity(s, found, id, fuel).value
          {
            assert Arity(s, found, ids[i], fuel - 1) == Arity(s, found, ids[0], fuel - 1);
            AritySound(s, meaning, found, ids[i], fuel - 1);
          }
        case None =>
          ItemsCount(s.lexer, s.operators, block.selectItems, block.from, block.joinsMergeColumns,
                     SourceShapes(s, meaning, k));
      }
    }
  }

  lemma AliasesSound(s: Setting, meaning: Range -> Shape, found: Found, output: Inference, aliases: Option<seq<Column>>,
                     body: Range)
    requires Plain(s) && Meaning(s, meaning) && SoundProjections(s, meaning, found) && Right(meaning(body), output)
    ensures Right(RenamedBy(meaning(body), aliases, s.lexer.dialect), WithAliases(s, found, output, aliases, body))
  {
    hide Plain, Meaning, SoundProjections;
    match aliases
    case None =>
    case Some(list) =>
      if Arity(s, found, body, |s.blocks|) == Some(|list|) { AritySound(s, meaning, found, body, |s.blocks|); }
  }

  // ---- relations ----

  lemma BindingSound(s: Setting, meaning: Range -> Shape, found: Found, k: nat, ref: FromRef)
    requires Plain(s) && NoTableAliases(s) && Meaning(s, meaning) && SoundProjections(s, meaning, found)
             && SoundOutputs(s, meaning, found)
    requires k < |s.blocks| && ref in s.blocks[k].from
    ensures var r := Binding(s, found, s.blocks[k], ref);
            Right(SourceShape(s, meaning, k, ref), Inference(r.columns, r.complete))
  {
    hide Arity, SourcesKnown, Visible, LookUp, Pick, Treelike, Lexed;
    match ref.bodyScopeId {
      case Some(body) => AliasesSound(s, meaning, found, ProjectionOf(found, body), ref.columnAliases, body);
      case None =>
        if ref.namespace.None? {
          VisibilityIsLexical(s.blocks, k, ref, s.lexer.dialect);
          assert EnvironmentOf(s, s.blocks[k].id) == Visible(s.blocks, k, s.lexer.dialect);
          match LookUp(s.blocks, k, ref, s.lexer.dialect)
          case Some(c) => LookUpDeclared(s.blocks, k, ref, s.lexer.dialect);
          case None =>
        }
    }
  }

  ghost predicate DeclaredIn(blocks: seq<Block>, c: Cte) {
    exists j :: 0 <= j < |blocks| && c in blocks[j].ctes
  }

  lemma PickDeclared(blocks: seq<Block>, k: nat, ctes: seq<Cte>, ref: FromRef, dialect: Dialect)
    requires k < |blocks| && forall c | c in ctes :: c in blocks[k].ctes
    ensures Pick(ctes, ref, dialect).Some? ==> DeclaredIn(blocks, Pick(ctes, ref, dialect).value)
  {
  }

  /** What a name denotes was declared somewhere. */
  lemma {:induction false} LookUpDeclared(blocks: seq<Block>, k: nat, ref: FromRef, dialect: Dialect)
    requires k < |blocks|
    ensures LookUp(blocks, k, ref, dialect).Some? ==> DeclaredIn(blocks, LookUp(blocks, k, ref, dialect).value)
    ensures LookOutside(blocks, k, ref, dialect).Some? ==>
              DeclaredIn(blocks, LookOutside(blocks, k, ref, dialect).value)
    decreases k
  {
    hide Declares, RefKey, Pick, DeclaredIn;
    PickDeclared(blocks, k, blocks[k].ctes, ref, dialect);
    match blocks[k].parentId
    case None =>
    case Some(id) =>
      var p := Before(blocks, id, k);
      if p < k {
        LookUpDeclared(blocks, p, ref, dialect);
        var i := BodyIndex(blocks[p].ctes, blocks[k].id);
        if i < |blocks[p].ctes| { PickDeclared(blocks, p, Preceding(blocks[p].ctes, i), ref, dialect); }
      }
  }

  lemma {:induction false} AlignedRefs(rs: seq<Relation>, refs: seq<FromRef>, id: int)
    requires |rs| == |refs| && forall i | 0 <= i < |rs| :: rs[i].id == refs[i].id
    ensures RelationOf(rs, id).Some? ==>
              exists i :: 0 <= i < |rs| && RelationOf(rs, id) == Some(rs[i]) && FirstRef(refs, id) == Some(refs[i])
  {
    if rs != [] && rs[0].id != id {
      AlignedRefs(rs[1..], refs[1..], id);
      if RelationOf(rs, id).Some? {
        var i :| 0 <= i < |rs[1..]| && RelationOf(rs[1..], id) == Some(rs[1..][i])
                && FirstRef(refs[1..], id) == Some(refs[1..][i]);
        assert rs[i + 1] == rs[1..][i] && refs[i + 1] == refs[1..][i];
      }
    }
  }

  /** The relations of one block, each right. */
  ghost predicate RightRelations(s: Setting, meaning: Range -> Shape, k: nat, rs: seq<Relation>)
    requires k < |s.blocks|
  {
    |rs| == |s.blocks[k].from| && forall i | 0 <= i < |rs| ::
      rs[i].id == s.blocks[k].from[i].id
      && Right(SourceShape(s, meaning, k, s.blocks[k].from[i]), Inference(rs[i].columns, rs[i].complete))
  }

  lemma KnownIsRight(s: Setting, meaning: Range -> Shape, k: nat, rs: seq<Relation>)
    requires k < |s.blocks| && RightRelations(s, meaning, k, rs)
    ensures Within(KnownColumns(rs), SourceShapes(s, meaning, k))
  {
    hide SourceShape;
    forall id | KnownColumns(rs)(id).Some?
      ensures SourceShapes(s, meaning, k)(id) == Some(WithNames(KnownColumns(rs)(id).value))
    {
      AlignedRefs(rs, s.blocks[k].from, id);
    }
  }

  // ---- one pass ----

  /**
   A SELECT over relations that are right: what is claimed to be all of it is, just when no item ends in an operator.
   */
  lemma SelectRightIff(s: Setting, meaning: Range -> Shape, found: Found, k: nat)
    requires Meaning(s, meaning) && k < |s.blocks| && s.blocks[k].setBranchIds.None?
    requires s.blocks[k].id in found.relations && RightRelations(s, meaning, k, found.relations[s.blocks[k].id])
    requires Output(s, found, s.blocks[k]).complete
    ensures Right(meaning(s.blocks[k].id), Output(s, found, s.blocks[k])) <==>
              NoneInOperator(s.lexer, s.operators, s.blocks[k].selectItems)
  {
    hide ItemsShape, InferItems, SourceShape, RightRelations, NoneInOperator;
    var block := s.blocks[k];
    assert meaning(block.id) == BlockShape(s, meaning, k);
    var rs := found.relations[block.id];
    KnownIsRight(s, meaning, k, rs);
    ItemsRightIff(s.lexer, s.operators, block.selectItems, block.from, block.joinsMergeColumns, KnownColumns(rs),
                  SourceShapes(s, meaning, k), block.unsupported.None? && block.selectItems != []);
  }

  lemma OutputSound(s: Setting, meaning: Range -> Shape, found: Found, k: nat)
    requires Meaning(s, meaning) && NoOperatorNames(s) && SoundProjections(s, meaning, found) && k < |s.blocks|
    requires s.blocks[k].id in found.relations && RightRelations(s, meaning, k, found.relations[s.blocks[k].id])
    ensures Right(meaning(s.blocks[k].id), Output(s, found, s.blocks[k]))
  {
    hide ItemsShape, InferItems, SourceShape, RightRelations, NoneInOperator;
    var block := s.blocks[k];
    match block.setBranchIds
    case Some(ids) =>
      assert meaning(block.id) == BlockShape(s, meaning, k);
      var branches := BranchInferences(found, ids);
      if CombineSqlSetProjection(branches).complete {
        forall i | 0 <= i < |ids|
          ensures meaning(ids[i]) == Some(WithNames(branches[i].columns))
                  && |branches[i].columns| == |branches[0].columns|
        {
          assert branches[i] in branches;
          assert Right(meaning(ids[i]), ProjectionOf(found, ids[i]));
        }
      }
    case None =>
      if Output(s, found, block).complete { SelectRightIff(s, meaning, found, k); }
  }

  lemma BlockStepSound(s: Setting, meaning: Range -> Shape, found: Found, k: nat)
    requires Plain(s) && NoTableAliases(s) && NoOperatorNames(s) && Meaning(s, meaning) && Sound(s, meaning, found)
             && k < |s.blocks|
    ensures Sound(s, meaning, BlockStep(s, found, s.blocks[k]))
  {
    hide NoOperatorNames, Binding, Output, SourcesKnown, SourceShape, Visible, Lexed;
    var block := s.blocks[k];
    var bound := found.(relations := found.relations[block.id := Bindings(s, found, block)]);
    forall i | 0 <= i < |block.from|
      ensures var r := Binding(s, found, block, block.from[i]);
              r.id == block.from[i].id
              && Right(SourceShape(s, meaning, k, block.from[i]), Inference(r.columns, r.complete))
    {
      BindingSound(s, meaning, found, k, block.from[i]);
      BindingId(s, found, block, block.from[i]);
    }
    OutputSound(s, meaning, bound, k);
    forall j | 0 <= j < |s.blocks| && s.blocks[j].id == block.id ensures j == k { }
  }

  lemma BindingId(s: Setting, found: Found, block: Block, ref: FromRef)
    ensures Binding(s, found, block, ref).id == ref.id
  {
    hide WithAliases, SourcesKnown, Pick;
  }

  lemma CteStepSound(s: Setting, meaning: Range -> Shape, found: Found, k: nat, c: Cte)
    requires Plain(s) && Meaning(s, meaning) && Sound(s, meaning, found) && k < |s.blocks| && c in s.blocks[k].ctes
    ensures Sound(s, meaning, CteStep(s, found, c))
  {
    hide Arity, SourcesKnown, SourceShape, Visible, Lexed, Treelike;
    AliasesSound(s, meaning, found, ProjectionOf(found, c.bodyScopeId), c.columnAliases, c.bodyScopeId);
  }

  /**
   The passes: blocks from the last to the first, then the declarations, until nothing changes
   or there have been as many passes as blocks and one more.
   */
  method ResolveScopes(s: Setting, ghost meaning: Range -> Shape) returns (found: Found)
    ensures Plain(s) && NoTableAliases(s) && NoOperatorNames(s) && Meaning(s, meaning) ==> Sound(s, meaning, found)
  {
    hide BlockStep, CteStep, Sound, Plain, Meaning, NoTableAliases, NoOperatorNames;
    found := Found(map[], map[], map[]);
    StartsSound(s, meaning);
    ghost var sane := Plain(s) && NoTableAliases(s) && NoOperatorNames(s) && Meaning(s, meaning);
    var round := 0;
    var changed := true;
    while round < |s.blocks| + 1 && changed
      invariant sane ==> Sound(s, meaning, found)
      decreases |s.blocks| + 1 - round
    {
      var before := found;
      var i := |s.blocks|;
      while i > 0
        invariant i <= |s.blocks| && (sane ==> Sound(s, meaning, found))
      {
        i := i - 1;
        if sane { BlockStepSound(s, meaning, found, i); }
        found := BlockStep(s, found, s.blocks[i]);
      }
      found := DefinitionsPass(s, found, meaning);
      changed := found.projections != before.projections || found.outputs != before.outputs;
      round := round + 1;
    }
    found := FinalRelations(s, found, meaning);
  }

  lemma StartsSound(s: Setting, meaning: Range -> Shape)
    ensures Sound(s, meaning, Found(map[], map[], map[]))
  {
  }

  method DefinitionsPass(s: Setting, start: Found, ghost meaning: Range -> Shape) returns (found: Found)
    ensures Plain(s) && Meaning(s, meaning) && Sound(s, meaning, start) ==> Sound(s, meaning, found)
  {
    hide CteStep, Sound, Plain, Meaning;
    found := start;
    ghost var sane := Plain(s) && Meaning(s, meaning) && Sound(s, meaning, start);
    for k := 0 to |s.blocks|
      invariant sane ==> Sound(s, meaning, found)
    {
      for j := 0 to |s.blocks[k].ctes|
        invariant sane ==> Sound(s, meaning, found)
      {
        if sane { CteStepSound(s, meaning, found, k, s.blocks[k].ctes[j]); }
        found := CteStep(s, found, s.blocks[k].ctes[j]);
      }
    }
  }

  /** The relations are bound once more, to what the last pass found. */
  method FinalRelations(s: Setting, start: Found, ghost meaning: Range -> Shape) returns (found: Found)
    ensures found.projections == start.projections && found.outputs == start.outputs
    ensures Plain(s) && NoTableAliases(s) && Meaning(s, meaning) && Sound(s, meaning, start) ==>
              Sound(s, meaning, found)
  {
    hide Bindings, Sound, Plain, Meaning, NoTableAliases;
    found := start;
    ghost var sane := Plain(s) && NoTableAliases(s) && Meaning(s, meaning) && Sound(s, meaning, start);
    for k := 0 to |s.blocks|
      invariant found.projections == start.projections && found.outputs == start.outputs
      invariant sane ==> Sound(s, meaning, found)
    {
      if sane { RebindingSound(s, meaning, found, k); }
      found := found.(relations := found.relations[s.blocks[k].id := Bindings(s, found, s.blocks[k])]);
    }
  }

  lemma RebindingSound(s: Setting, meaning: Range -> Shape, found: Found, k: nat)
    requires Plain(s) && NoTableAliases(s) && Meaning(s, meaning) && Sound(s, meaning, found) && k < |s.blocks|
    ensures Sound(s, meaning, found.(relations := found.relations[s.blocks[k].id := Bindings(s, found, s.blocks[k])]))
  {
    hide Binding, SourcesKnown, SourceShape, Visible, Lexed;
    var block := s.blocks[k];
    forall i | 0 <= i < |block.from|
      ensures var r := Binding(s, found, block, block.from[i]);
              r.id == block.from[i].id
              && Right(SourceShape(s, meaning, k, block.from[i]), Inference(r.columns, r.complete))
    {
      BindingSound(s, meaning, found, k, block.from[i]);
      BindingId(s, found, block, block.from[i]);
    }
  }

  /** The scanner's identifiers are never parentheses. */
  lemma {:induction false} TokensLexed(lexer: Lexer, t: Text, i: nat)
    requires i <= |t|
    ensures Lexed(lexer.Tokens(t, i))
    decreases |t| - i
  {
    match lexer.NextToken(t, i)
    case None =>
    case Some(tok) =>
      TokensLexed(lexer, t, tok.end);
      IdentifierLexed(lexer, t, tok.start);
  }

  lemma IdentifierLexed(lexer: Lexer, t: Text, i: nat)
    requires i < |t|
    ensures var tok := lexer.TokenAt(t, i); IsIdentifier(tok) ==> tok.text != [OPEN] && tok.text != [CLOSE]
  {
    var tok := lexer.TokenAt(t, i);
    assert tok.text[0] == t[i];
  }
}
