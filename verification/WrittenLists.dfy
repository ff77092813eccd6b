/**
 Column lists written behind named relations, as in `t a(x)`: the parser drops them, so what a statement
 means is read off its tokens, and compared with what is found without them.
 */
module WrittenLists {
  import opened SqlText
  import opened ScopeParser
  import opened BlockParser
  import opened Projection
  import opened ProjectionMeaning
  import opened CteScopes
  import opened Scopes
  import opened QueryMeaning
  import opened ScopeSoundness

  /** The token that starts at an offset, or the number of tokens. */
  function IndexAt(toks: seq<Token>, start: int): (k: nat)
    ensures k <= |toks|
    ensures k < |toks| ==> toks[k].start == start
  {
    if toks == [] || toks[0].start == start then 0 else 1 + IndexAt(toks[1..], start)
  }

  /** The offset behind the name of a relation and its alias. */
  function AfterName(env: Env, at: nat): nat
    requires at < |env.lex|
  {
    AliasAt(env, env.Parts(at + 1, [at]).1).1
  }

  /** Is a relation's name followed by a parenthesis? */
  predicate ListFollows(env: Env, at: nat)
    requires at < |env.lex|
  {
    env.Open(AfterName(env, at))
  }

  /** The column list behind a relation's name. */
  function ListAfter(env: Env, at: nat): Option<seq<Column>>
    requires at < |env.lex|
  {
    var open := AfterName(env, at);
    if env.Open(open) && open in env.pairs && open < env.pairs[open] < |env.lex| then env.ColumnList(open) else None
  }

  /** A relation as it is written: named ones with the list behind them. */
  function WrittenRef(env: Env, toks: seq<Token>, ref: FromRef): FromRef
    requires |toks| == |env.lex|
  {
    var at := IndexAt(toks, ref.declarationStart);
    if ref.bodyScopeId.Some? || at == |toks| then ref else ref.(columnAliases := ListAfter(env, at))
  }

  function WrittenBlock(env: Env, toks: seq<Token>, b: Block): Block
    requires |toks| == |env.lex|
  {
    b.(from := seq(|b.from|, i requires 0 <= i < |b.from| => WrittenRef(env, toks, b.from[i])))
  }

  function WrittenBlocks(env: Env, toks: seq<Token>, bs: seq<Block>): (r: seq<Block>)
    requires |toks| == |env.lex|
    ensures |r| == |bs|
  {
    seq(|bs|, k requires 0 <= k < |bs| => WrittenBlock(env, toks, bs[k]))
  }

  /** The statement as it is written. */
  function Written(s: Setting, toks: seq<Token>): Setting {
    s.(blocks := WrittenBlocks(EnvOf(s.lexer, toks), toks, s.blocks))
  }

  /** No named relation is directly followed by a parenthesis. */
  predicate NoListFollows(s: Setting, toks: seq<Token>) {
    var env := EnvOf(s.lexer, toks);
    forall b | b in s.blocks :: forall ref | ref in b.from && ref.bodyScopeId.None? ::
      var at := IndexAt(toks, ref.declarationStart); at < |toks| ==> !ListFollows(env, at)
  }

  /** Then nothing is written that the parser has not kept. */
  lemma WrittenIsParsed(s: Setting, toks: seq<Token>)
    requires NoTableAliases(s) && NoListFollows(s, toks)
    ensures Written(s, toks) == s
  {
    var env, w := EnvOf(s.lexer, toks), Written(s, toks);
    forall k | 0 <= k < |s.blocks| ensures w.blocks[k] == s.blocks[k] {
      var b := s.blocks[k];
      assert b in s.blocks;
      forall i | 0 <= i < |b.from| ensures WrittenRef(env, toks, b.from[i]) == b.from[i] { assert b.from[i] in b.from; }
      assert w.blocks[k].from == b.from;
    }
  }

  // ---- lists matter to nothing but the columns a relation offers ----

  /** The same but for relations' column lists. */
  ghost predicate SameButLists(a: seq<Block>, b: seq<Block>) {
    |a| == |b| && forall k | 0 <= k < |a| :: b[k] == a[k].(from := b[k].from) && SameRefs(a[k].from, b[k].from)
  }

  ghost predicate SameRefs(a: seq<FromRef>, b: seq<FromRef>) {
    |a| == |b| && forall i | 0 <= i < |a| ::
      b[i] == a[i].(columnAliases := b[i].columnAliases) && (a[i].bodyScopeId.Some? ==> b[i] == a[i])
  }

  lemma WrittenSame(s: Setting, toks: seq<Token>)
    ensures Written(s, toks) == s.(blocks := Written(s, toks).blocks) && SameButLists(s.blocks, Written(s, toks).blocks)
  {
  }

  lemma {:induction false} BeforeSame(a: seq<Block>, b: seq<Block>, id: Range, k: nat)
    requires SameButLists(a, b) && k <= |a|
    ensures Before(a, id, k) == Before(b, id, k)
  {
    if k > 0 && a[k - 1].id != id { BeforeSame(a, b, id, k - 1); }
  }

  lemma NameSame(ctes: seq<Cte>, ref: FromRef, aliases: Option<seq<Column>>, dialect: Dialect)
    ensures Pick(ctes, ref.(columnAliases := aliases), dialect) == Pick(ctes, ref, dialect)
    ensures RefKey(ref.(columnAliases := aliases), dialect) == RefKey(ref, dialect)
  {
  }

  lemma SameFields(a: seq<Block>, b: seq<Block>, k: nat)
    requires SameButLists(a, b) && k < |a|
    ensures |b| == |a| && b[k].id == a[k].id && b[k].parentId == a[k].parentId && b[k].ctes == a[k].ctes
  {
  }

  lemma {:induction false} LookUpSame(a: seq<Block>, b: seq<Block>, k: nat, ref: FromRef, aliases: Option<seq<Column>>,
                                      dialect: Dialect)
    requires SameButLists(a, b) && k < |a|
    ensures |b| == |a| && LookUp(a, k, ref, dialect) == LookUp(b, k, ref.(columnAliases := aliases), dialect)
    ensures LookOutside(a, k, ref, dialect) == LookOutside(b, k, ref.(columnAliases := aliases), dialect)
    decreases k
  {
    hide Declares, Pick, RefKey, Preceding, BodyIndex, Before, SameButLists;
    forall ctes ensures Pick(ctes, ref.(columnAliases := aliases), dialect) == Pick(ctes, ref, dialect) {
      NameSame(ctes, ref, aliases, dialect);
    }
    NameSame([], ref, aliases, dialect);
    SameFields(a, b, k);
    match a[k].parentId
    case None =>
    case Some(id) =>
      BeforeSame(a, b, id, k);
      var p := Before(a, id, k);
      if p < k {
        SameFields(a, b, p);
        LookUpSame(a, b, p, ref, aliases, dialect);
      }
  }

  lemma ReadsSame(s: Setting, w: Setting, k: nat, id: Range)
    requires w == s.(blocks := w.blocks) && SameButLists(s.blocks, w.blocks) && k < |s.blocks|
    ensures Reads(w, k, id) ==> Reads(s, k, id)
  {
    if ref' :| ref' in w.blocks[k].from && SourceReads(w, k, ref', id) {
      var i :| 0 <= i < |w.blocks[k].from| && w.blocks[k].from[i] == ref';
      var ref := s.blocks[k].from[i];
      assert ref in s.blocks[k].from;
      LookUpSame(s.blocks, w.blocks, k, ref, ref'.columnAliases, s.lexer.dialect);
      hide LookUp;
      assert SourceReads(s, k, ref, id);
    }
  }

  lemma RankedSame(s: Setting, w: Setting, rank: Range -> nat)
    requires w == s.(blocks := w.blocks) && SameButLists(s.blocks, w.blocks) && Ranked(s, rank)
    ensures Ranked(w, rank)
  {
    forall k, id | 0 <= k < |w.blocks| && Reads(w, k, id)
      ensures rank(id) < rank(w.blocks[k].id) && exists j :: 0 <= j < |w.blocks| && w.blocks[j].id == id
    {
      ReadsSame(s, w, k, id);
      hide Reads;
      var j :| 0 <= j < |s.blocks| && s.blocks[j].id == id;
      assert w.blocks[j].id == id;
    }
  }

  lemma TreelikeSame(a: seq<Block>, b: seq<Block>)
    requires SameButLists(a, b) && Treelike(a)
    ensures Treelike(b)
  {
    forall k | 0 <= k < |b| && b[k].parentId.Some? ensures exists j :: 0 <= j < k && b[j].id == b[k].parentId.value {
      var j :| 0 <= j < k && a[j].id == a[k].parentId.value;
      assert b[j].id == b[k].parentId.value;
    }
  }

  // ---- when a relation with a list is right ----

  lemma RenamedRightIff(shape: Shape, list: seq<Column>, output: Inference, dialect: Dialect)
    requires Right(shape, output)
    ensures Right(RenamedBy(shape, Some(list), dialect), output) <==>
              (output.complete ==> AliasNames(list, dialect) == output.columns)
  {
    var names := AliasNames(list, dialect);
    if WithNames(names) == WithNames(output.columns) {
      forall i | 0 <= i < |names| ensures names[i] == output.columns[i] {
        assert WithNames(names)[i] == WithNames(output.columns)[i];
      }
      assert names == output.columns;
    }
  }

  /** A named relation without its list: what it is called by FROM is what its CTE or its table offers. */
  lemma UnlistedRight(s: Setting, meaning: Range -> Shape, found: Found, k: nat, ref: FromRef)
    requires Plain(s) && SoundOutputs(s, meaning, found) && k < |s.blocks| && ref.bodyScopeId.None?
    ensures var r := Binding(s, found, s.blocks[k], ref);
            Right(SourceShape(s, meaning, k, ref.(columnAliases := None)), Inference(r.columns, r.complete))
  {
    hide SourcesKnown, Visible, LookUp, Treelike, Lexed, ResolveName, FirstNamed, CteNamesOf;
    if ref.namespace.None? {
      VisibilityIsLexical(s.blocks, k, ref, s.lexer.dialect);
      assert EnvironmentOf(s, s.blocks[k].id) == Visible(s.blocks, k, s.lexer.dialect);
      SameButItself(s.blocks);
      LookUpSame(s.blocks, s.blocks, k, ref, None, s.lexer.dialect);
      hide Pick;
      match LookUp(s.blocks, k, ref, s.lexer.dialect)
      case Some(c) => LookUpDeclared(s.blocks, k, ref, s.lexer.dialect);
      case None =>
    }
  }

  lemma SameButItself(a: seq<Block>)
    ensures SameButLists(a, a)
  {
  }

  /**
   The exact condition: as the statement is written, a named relation that is flagged complete is right
   if it has no list, or its list repeats the names of its source.
   */
  lemma ListedRightIff(s: Setting, toks: seq<Token>, meaning: Range -> Shape, found: Found, k: nat, i: nat)
    requires Plain(s) && SoundOutputs(s, meaning, found) && k < |s.blocks| && i < |s.blocks[k].from|
    requires s.blocks[k].from[i].bodyScopeId.None?
    ensures var (w, r) := (Written(s, toks), Binding(s, found, s.blocks[k], s.blocks[k].from[i]));
            && i < |w.blocks[k].from|
            && var ref := w.blocks[k].from[i];
               Right(SourceShape(w, meaning, k, ref), Inference(r.columns, r.complete)) <==>
                 (r.complete && ref.columnAliases.Some? ==>
                    AliasNames(ref.columnAliases.value, s.lexer.dialect) == r.columns)
  {
    var w, ref := Written(s, toks), s.blocks[k].from[i];
    var listed := w.blocks[k].from[i];
    UnlistedRight(s, meaning, found, k, ref);
    WrittenSame(s, toks);
    LookUpSame(s.blocks, w.blocks, k, ref, listed.columnAliases, s.lexer.dialect);
    SameButItself(s.blocks);
    LookUpSame(s.blocks, s.blocks, k, ref, None, s.lexer.dialect);
    hide Written, Binding, Plain, SoundOutputs, LookUp, Right, SameButLists;
    assert listed == ref.(columnAliases := listed.columnAliases) by { assert SameButLists(s.blocks, w.blocks); }
    var r := Binding(s, found, s.blocks[k], ref);
    var shape := SourceShape(s, meaning, k, ref.(columnAliases := None));
    assert SourceShape(w, meaning, k, listed) == RenamedBy(shape, listed.columnAliases, s.lexer.dialect);
    if listed.columnAliases.Some? {
      RenamedRightIff(shape, listed.columnAliases.value, Inference(r.columns, r.complete), s.lexer.dialect);
    }
  }
}
