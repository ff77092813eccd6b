/**
 From the text of a statement to the columns it claims to know: the parser's blocks are what the passes
 over them take for granted, so that what is flagged complete is right for every text.
 */
module ParsedQuery {
  import opened SqlText
  import opened Tokenizer
  import opened Rescan
  import opened ScopeParser
  import opened BlockParser
  import opened BlockTree
  import opened ParsedTree
  import opened Projection
  import opened ProjectionMeaning
  import opened CteScopes
  import opened Scopes
  import opened ScopeSoundness
  import opened QueryMeaning
  import opened WrittenLists

  // ---- what the scanner leaves ----

  /** A name is no parenthesis and, unquoted, no keyword. */
  predicate PlainName(lexer: Lexer, tok: Token) {
    tok.kind == Identifier ==> tok.text != [OPEN] && tok.text != [CLOSE] && (tok.quoted || !lexer.IsKeyword(tok.text))
  }

  ghost predicate Scannable(lexer: Lexer, toks: seq<Token>) {
    Ordered(toks) && forall k | 0 <= k < |toks| :: PlainName(lexer, toks[k])
  }

  lemma TokenPlain(lexer: Lexer, t: Text, i: nat)
    requires i < |t|
    ensures PlainName(lexer, lexer.TokenAt(t, i))
  {
    var tok := lexer.TokenAt(t, i);
    assert tok.text[0] == t[i];
  }

  lemma {:induction false} TokensPlain(lexer: Lexer, t: Text, i: nat)
    requires i <= |t|
    ensures forall k | 0 <= k < |lexer.Tokens(t, i)| :: PlainName(lexer, lexer.Tokens(t, i)[k])
    decreases |t| - i
  {
    hide PlainName;
    match lexer.NextToken(t, i)
    case None =>
    case Some(tok) =>
      TokensPlain(lexer, t, tok.end);
      TokenPlain(lexer, t, tok.start);
  }

  lemma TextScannable(lexer: Lexer, t: Text)
    ensures Scannable(lexer, lexer.Tokens(t, 0))
  {
    TokensPlain(lexer, t, 0);
    TokensOrdered(lexer, t);
    hide PlainName;
  }

  lemma {:induction false} RelevantScannable(lexer: Lexer, all: seq<Token>, statement: Range)
    requires Scannable(lexer, all)
    ensures Scannable(lexer, RelevantTokens(all, statement))
    ensures forall tok | tok in RelevantTokens(all, statement) :: tok in all && Relevant(tok, statement)
  {
    hide PlainName, Relevant;
    if all != [] {
      assert forall k | 0 <= k < |all[1..]| :: all[1..][k] == all[k + 1];
      RelevantScannable(lexer, all[1..], statement);
      var rest := RelevantTokens(all[1..], statement);
      forall k | 0 <= k < |rest| ensures all[0].end <= rest[k].start { assert rest[k] in all[1..]; }
    }
  }

  lemma {:induction false} NotAmong(words: seq<(string, Word)>, upper: Text, w: Word)
    requires forall k | 0 <= k < |words| :: words[k].1 == w ==> Ascii(words[k].0) != upper
    requires w != Other
    ensures WordIn(words, upper) != w
  {
    if words != [] && |upper| >= 2 {
      assert forall k | 0 <= k < |words[1..]| :: words[1..][k] == words[k + 1];
      NotAmong(words[1..], upper, w);
    }
  }

  lemma KeywordsStartQueries(lexer: Lexer, w: Text)
    requires !lexer.IsKeyword(w)
    ensures !IsQuery(WordIn(WORDS, lexer.Upper(w)))
  {
    assert KEYWORDS[0] == "SELECT" && KEYWORDS[1] == "WITH";
    forall k | 0 <= k < |WORDS| && (WORDS[k].1 == SELECT || WORDS[k].1 == WITH)
      ensures Ascii(WORDS[k].0) != lexer.Upper(w)
    {
      assert k == 0 || k == 1;
    }
    NotAmong(WORDS, lexer.Upper(w), SELECT);
    NotAmong(WORDS, lexer.Upper(w), WITH);
  }

  lemma NamesPlain(lexer: Lexer, toks: seq<Token>)
    requires Scannable(lexer, toks)
    ensures PlainNames(EnvOf(lexer, toks))
  {
    var env := EnvOf(lexer, toks);
    forall i: nat | env.Identifier(i) ensures !env.Open(i) && !IsQuery(env.W(i)) {
      assert PlainName(lexer, toks[i]);
      if !toks[i].quoted { KeywordsStartQueries(lexer, toks[i].text); }
    }
  }

  // ---- the blocks of a statement ----

  /** All blocks of a statement: told apart, parents first and wider, each with what it names among its children. */
  ghost predicate Family(toks: seq<Token>, bs: seq<Block>, statement: Range) {
    && DistinctIds(bs)
    && (forall k | 0 <= k < |bs| :: Inner(bs[k].id, statement))
    && (forall k | 0 <= k < |bs| && bs[k].parentId.Some? ::
          Under(bs[k].id, bs[k].parentId.value) && exists j :: 0 <= j < k && bs[j].id == bs[k].parentId.value)
    && (forall b | b in bs :: Settled(toks, b, bs))
  }

  lemma TreeFamily(toks: seq<Token>, bs: seq<Block>, statement: Range)
    requires Tree(toks, bs, statement, None)
    ensures Family(toks, bs, statement)
  {
    TreeDistinct(toks, bs, statement, None);
    forall k | 0 <= k < |bs| ensures Inner(bs[k].id, statement) { TreeRange(toks, bs, statement, None, k); }
    forall k | 0 <= k < |bs| && bs[k].parentId.Some?
      ensures Under(bs[k].id, bs[k].parentId.value) && exists j :: 0 <= j < k && bs[j].id == bs[k].parentId.value
    {
      TreeRange(toks, bs, statement, None, k);
    }
    forall b | b in bs ensures Settled(toks, b, bs) { TreeSettled(toks, bs, statement, None, b); }
  }

  lemma StructureFamily(lexer: Lexer, toks: seq<Token>, statement: Range)
    requires Scannable(lexer, toks) && forall tok | tok in toks :: Relevant(tok, statement)
    ensures Structure(lexer, toks, statement).Parsed? ==>
              Family(toks, Structure(lexer, toks, statement).value, statement)
  {
    hide WordOf, Lexer.IsKeyword, Family;
    var env := EnvOf(lexer, toks);
    if !IsQuery(env.W(0)) { NoneFamily(toks, statement); }
    else {
      assert toks[0] in toks && toks[0].start < toks[0].end && Ordered(toks);
      hide Parse, PairParens, Grown, Scannable, Env.Ready;
      match PairParens(env.lex).invalid {
        case Some(reason) =>
          OneFamily(toks, NewBlock(statement, StatementBlock, None).(unsupported := Some(reason)), statement);
        case None =>
          StatementReady(lexer, toks);
          NamesPlain(lexer, toks);
          assert forall k | 0 <= k < |toks| :: toks[k] in toks && Relevant(toks[k], statement);
          assert Placed(toks, 0, |toks|, statement);
          hide Tree, Family, PlainNames, Ordered, Placed;
          ParseTree(env, toks, 0, |toks|, statement, StatementBlock, None);
          match Parse(env, toks, 0, |toks|, statement, StatementBlock, None)
          case Throws =>
          case Parsed(bs) => TreeFamily(toks, bs, statement);
      }
    }
  }

  lemma NoneFamily(toks: seq<Token>, statement: Range)
    ensures Family(toks, [], statement)
  {
  }

  lemma OneFamily(toks: seq<Token>, b: Block, statement: Range)
    requires b.id == statement && b.parentId == None && b.ctes == [] && b.from == [] && b.setBranchIds == None
             && b.selectItems == []
    requires statement.start <= statement.end
    ensures Family(toks, [b], statement)
  {
  }

  // ---- which names are CTEs is decided afterwards ----

  predicate SameShape(a: Block, b: Block) {
    && b == a.(from := b.from) && |b.from| == |a.from|
    && forall i | 0 <= i < |a.from| :: b.from[i] == a.from[i].(kind := b.from[i].kind)
  }

  lemma BoundShape(blocks: seq<Block>, dialect: Dialect, limit: int, k: nat)
    requires k < |blocks|
    ensures SameShape(blocks[k], BindBlocks(blocks, dialect, limit)[k])
  {
    hide DeclaredAbove;
  }

  lemma ShapesSettled(toks: seq<Token>, a: Block, b: Block, as': seq<Block>, bs: seq<Block>)
    requires Settled(toks, a, as') && SameShape(a, b) && |as'| == |bs|
             && forall k | 0 <= k < |as'| :: SameShape(as'[k], bs[k])
    ensures Settled(toks, b, bs)
  {
    forall id | ChildIn(as', a.id, id) ensures ChildIn(bs, a.id, id) {
      var k :| 0 <= k < |as'| && as'[k].id == id && as'[k].parentId == Some(a.id);
      assert SameShape(as'[k], bs[k]);
    }
    forall ref | ref in b.from
      ensures if ref.bodyScopeId.Some? then ChildIn(bs, b.id, ref.bodyScopeId.value) else ref.columnAliases.None?
    {
      var i :| 0 <= i < |b.from| && b.from[i] == ref;
      assert a.from[i] in a.from;
    }
    forall c, q | c in b.ctes && q in bs && q.parentId == Some(b.id) && !IsBody(b, q.id)
      ensures c.bodyScopeId.end < q.id.start
    {
      var k :| 0 <= k < |bs| && bs[k] == q;
      assert SameShape(as'[k], q) && as'[k] in as';
      assert IsBody(a, q.id) ==> IsBody(b, q.id);
    }
  }

  lemma BoundFamily(toks: seq<Token>, blocks: seq<Block>, dialect: Dialect, limit: int, statement: Range)
    requires Family(toks, blocks, statement)
    ensures Family(toks, BindBlocks(blocks, dialect, limit), statement)
  {
    var bs := BindBlocks(blocks, dialect, limit);
    forall k | 0 <= k < |blocks| ensures SameShape(blocks[k], bs[k]) { BoundShape(blocks, dialect, limit, k); }
    hide BindBlocks, Settled;
    forall b | b in bs ensures Settled(toks, b, bs) {
      var k :| 0 <= k < |bs| && bs[k] == b;
      assert blocks[k] in blocks;
      ShapesSettled(toks, blocks[k], b, blocks, bs);
    }
    forall k | 0 <= k < |bs| && bs[k].parentId.Some?
      ensures Under(bs[k].id, bs[k].parentId.value) && exists j :: 0 <= j < k && bs[j].id == bs[k].parentId.value
    {
      assert SameShape(blocks[k], bs[k]);
      var j :| 0 <= j < k && blocks[j].id == blocks[k].parentId.value;
      assert SameShape(blocks[j], bs[j]);
    }
  }

  /** The blocks of any statement of any text. */
  lemma BlocksAreFamily(lexer: Lexer, t: Text, statement: Range, blocks: seq<Block>)
    requires ParseBlocks(lexer, lexer.Tokens(t, 0), statement) == Parsed(blocks)
    ensures Family(RelevantTokens(lexer.Tokens(t, 0), statement), blocks, statement)
  {
    var all := lexer.Tokens(t, 0);
    TextScannable(lexer, t);
    RelevantScannable(lexer, all, statement);
    hide Scannable, Structure, BindBlocks, Family, Relevant, RelevantTokens, Lexer.Tokens;
    var toks := RelevantTokens(all, statement);
    StructureFamily(lexer, toks, statement);
    BoundFamily(toks, Structure(lexer, toks, statement).value, lexer.dialect, Span(statement), statement);
  }

  /** An identifier denotes the one block that has it. */
  lemma {:induction false} ByIdOnly(bs: seq<Block>, k: nat)
    requires DistinctIds(bs) && k < |bs|
    ensures ById(bs, bs[k].id) == Some(bs[k])
  {
    var n := |bs| - 1;
    if k < n {
      assert bs[n].id != bs[k].id && bs[..n][k] == bs[k];
      ByIdOnly(bs[..n], k);
    }
  }

  lemma ByIdInFamily(toks: seq<Token>, bs: seq<Block>, statement: Range, k: nat)
    requires Family(toks, bs, statement) && k < |bs|
    ensures ById(bs, bs[k].id) == Some(bs[k])
  {
    ByIdOnly(bs, k);
  }

  /** So the walk to the parents, wider each time and within the statement, always goes on. */
  lemma GuardHolds(toks: seq<Token>, bs: seq<Block>, statement: Range, k: nat)
    requires Family(toks, bs, statement) && k < |bs| && bs[k].parentId.Some?
    ensures var parent := ById(bs, bs[k].parentId.value);
            parent.Some? && parent.value.id == bs[k].parentId.value
            && Span(bs[k].id) < Span(parent.value.id) <= Span(statement)
  {
    var j :| 0 <= j < k && bs[j].id == bs[k].parentId.value;
    ByIdOnly(bs, j);
  }

  // ---- what the passes take for granted ----

  lemma FamilyTreelike(toks: seq<Token>, bs: seq<Block>, statement: Range)
    requires Family(toks, bs, statement)
    ensures Treelike(bs)
  {
  }

  /** A child has one parent. */
  lemma OneParent(bs: seq<Block>, a: Range, b: Range, id: Range)
    requires DistinctIds(bs) && ChildIn(bs, a, id) && ChildIn(bs, b, id)
    ensures a == b
  {
    var x :| 0 <= x < |bs| && bs[x].id == id && bs[x].parentId == Some(a);
    var y :| 0 <= y < |bs| && bs[y].id == id && bs[y].parentId == Some(b);
    assert x == y;
  }

  /** A block declares a body once, and no other block declares it. */
  lemma BodyOnce(toks: seq<Token>, bs: seq<Block>, statement: Range, j: nat, k: nat, c: Cte, d: Cte)
    requires Family(toks, bs, statement) && j < |bs| && k < |bs| && c in bs[j].ctes && d in bs[k].ctes
             && c.bodyScopeId == d.bodyScopeId
    ensures c == d
  {
    BodyPlaced(toks, bs, statement, j, c);
    BodyPlaced(toks, bs, statement, k, d);
    OneParent(bs, bs[j].id, bs[k].id, c.bodyScopeId);
    assert j == k;
    assert DeclaredFirst(bs[j], bs) by { assert Settled(toks, bs[j], bs); hide DeclaredFirst; }
    hide Family, ChildIn, Under, Settled, DeclaredFirst;
    BodiesApart(bs[j], bs, c, d);
  }

  lemma BodiesApart(b: Block, bs: seq<Block>, c: Cte, d: Cte)
    requires DeclaredFirst(b, bs) && c in b.ctes && d in b.ctes && c.bodyScopeId == d.bodyScopeId
             && c.bodyScopeId.start <= c.bodyScopeId.end
    ensures c == d
  {
    var i :| 0 <= i < |b.ctes| && b.ctes[i] == c;
    var j :| 0 <= j < |b.ctes| && b.ctes[j] == d;
    hide IsBody;
  }

  ghost predicate NoneRecursive(bs: seq<Block>) {
    forall b | b in bs :: forall c | c in b.ctes :: !c.recursive
  }

  /** Every parsed query without recursive declarations is one the soundness theorem is about. */
  lemma FamilyPlain(s: Setting, toks: seq<Token>, statement: Range)
    requires Family(toks, s.blocks, statement) && NoneRecursive(s.blocks) && Scannable(s.lexer, toks)
    requires forall k | 0 <= k < |s.blocks| :: EnvironmentOf(s, s.blocks[k].id) == Visible(s.blocks, k, s.lexer.dialect)
    ensures Plain(s) && NoTableAliases(s)
  {
    FamilyTreelike(toks, s.blocks, statement);
    forall k | 0 <= k < |s.blocks|
      ensures forall c | c in s.blocks[k].ctes :: !c.recursive
      ensures forall item | item in s.blocks[k].selectItems :: Lexed(item)
      ensures forall ref | ref in s.blocks[k].from :: ref.bodyScopeId.None? ==> ref.columnAliases.None?
    {
      assert s.blocks[k] in s.blocks && Settled(toks, s.blocks[k], s.blocks);
      forall item | item in s.blocks[k].selectItems ensures Lexed(item) { ItemLexed(s.lexer, toks, item); }
    }
    forall j, k, c, d | 0 <= j < |s.blocks| && 0 <= k < |s.blocks| && c in s.blocks[j].ctes && d in s.blocks[k].ctes
                        && c.bodyScopeId == d.bodyScopeId
      ensures c == d
    {
      BodyOnce(toks, s.blocks, statement, j, k, c, d);
    }
    hide Family, Treelike, Visible, Lexed;
  }

  lemma ItemLexed(lexer: Lexer, toks: seq<Token>, item: seq<Token>)
    requires Scannable(lexer, toks) && forall t | t in item :: t in toks
    ensures Lexed(item)
  {
    forall i | 0 <= i < |item| ensures IsIdentifier(item[i]) ==> item[i].text != [OPEN] && item[i].text != [CLOSE] {
      assert item[i] in toks;
      var k :| 0 <= k < |toks| && toks[k] == item[i];
      assert PlainName(lexer, toks[k]);
    }
  }

  // ---- the bound on walks over set branches is never reached ----

  lemma BranchAfter(toks: seq<Token>, bs: seq<Block>, statement: Range, k: nat, id: Range) returns (y: nat)
    requires Family(toks, bs, statement) && k < |bs| && bs[k].setBranchIds.Some? && id in bs[k].setBranchIds.value
    ensures k < y < |bs| && bs[y].id == id
  {
    assert Settled(toks, bs[k], bs);
    y :| 0 <= y < |bs| && bs[y].id == id && bs[y].parentId == Some(bs[k].id);
    var j :| 0 <= j < y && bs[j].id == bs[k].id;
  }

  lemma ArityStep(s: Setting, found: Found, block: Block, fuel: nat)
    requires ById(s.blocks, block.id) == Some(block) && fuel > 0
    requires block.setBranchIds.Some? ==>
               forall i | 0 <= i < |block.setBranchIds.value| ::
                 Arity(s, found, block.setBranchIds.value[i], fuel - 1)
                 == Arity(s, found, block.setBranchIds.value[i], fuel)
    ensures Arity(s, found, block.id, fuel) == Arity(s, found, block.id, fuel + 1)
  {
    hide CountsAsOne, ProjectionOf, ById;
  }

  lemma {:induction false} ArityEnough(s: Setting, toks: seq<Token>, statement: Range, found: Found, k: nat, fuel: nat)
    requires Family(toks, s.blocks, statement) && k < |s.blocks| && |s.blocks| - k <= fuel
    ensures Arity(s, found, s.blocks[k].id, fuel) == Arity(s, found, s.blocks[k].id, fuel + 1)
    decreases fuel
  {
    hide Family, Arity;
    var block := s.blocks[k];
    ByIdInFamily(toks, s.blocks, statement, k);
    if block.setBranchIds.Some? {
      var ids := block.setBranchIds.value;
      forall i | 0 <= i < |ids| ensures Arity(s, found, ids[i], fuel - 1) == Arity(s, found, ids[i], fuel) {
        var y := BranchAfter(toks, s.blocks, statement, k, ids[i]);
        ArityEnough(s, toks, statement, found, y, fuel - 1);
      }
    }
    ArityStep(s, found, block, fuel);
  }

  lemma {:induction false} SourcesEnough(s: Setting, toks: seq<Token>, statement: Range, found: Found, k: nat,
                                         recursive: Option<Range>, fuel: nat)
    requires Family(toks, s.blocks, statement) && k < |s.blocks| && |s.blocks| - k <= fuel
    ensures SourcesKnown(s, found, s.blocks[k].id, recursive, fuel)
            == SourcesKnown(s, found, s.blocks[k].id, recursive, fuel + 1)
    decreases fuel
  {
    ByIdOnly(s.blocks, k);
    hide Family, Pick;
    if s.blocks[k].setBranchIds.Some? {
      var ids := s.blocks[k].setBranchIds.value;
      forall i | 0 <= i < |ids|
        ensures SourcesKnown(s, found, ids[i], recursive, fuel - 1) == SourcesKnown(s, found, ids[i], recursive, fuel)
      {
        var y := BranchAfter(toks, s.blocks, statement, k, ids[i]);
        SourcesEnough(s, toks, statement, found, y, recursive, fuel - 1);
      }
    }
  }

  // ---- no query reads itself ----

  /** What is declared where a name is used ends before the use, or lies inside it. */
  ghost predicate Earlier(bs: seq<Block>, c: Cte, at: int) {
    c.bodyScopeId.start <= c.bodyScopeId.end < at
    && exists j :: 0 <= j < |bs| && c in bs[j].ctes && ChildIn(bs, bs[j].id, c.bodyScopeId)
  }

  lemma {:induction false} LookUpEarlier(toks: seq<Token>, bs: seq<Block>, statement: Range, k: nat, ref: FromRef,
                                         dialect: Dialect)
    requires Family(toks, bs, statement) && NoneRecursive(bs) && k < |bs|
    ensures var r := LookOutside(bs, k, ref, dialect); r.Some? ==> Earlier(bs, r.value, bs[k].id.start)
    ensures var r := LookUp(bs, k, ref, dialect);
            r.Some? ==> r.value in bs[k].ctes || Earlier(bs, r.value, bs[k].id.start)
    decreases k
  {
    hide Pick, Declares, RefKey, Settled, Under, Earlier;
    match bs[k].parentId
    case None =>
    case Some(id) =>
      var p := Before(bs, id, k);
      if p < k {
        LookUpEarlier(toks, bs, statement, p, ref, dialect);
        var i := BodyIndex(bs[p].ctes, bs[k].id);
        StartsLater(bs, bs[p].id.start,
                    bs[k].id.start) by { assert Under(bs[k].id, bs[p].id); StartsIn(bs[k].id, bs[p].id); }
        if i == |bs[p].ctes| {
          forall c | c in bs[p].ctes ensures Earlier(bs, c, bs[k].id.start) {
            SiblingEarlier(toks, bs, statement, p, k, c);
          }
        } else {
          assert !bs[p].ctes[i].recursive by { assert bs[p] in bs && bs[p].ctes[i] in bs[p].ctes; }
          forall c | c in bs[p].ctes[..i] ensures Earlier(bs, c, bs[k].id.start) {
            PrecedingEarlier(toks, bs, statement, p, i, c);
          }
        }
      }
  }

  lemma StartsIn(r: Range, outer: Range)
    requires Under(r, outer)
    ensures outer.start <= r.start
  {
  }

  lemma StartsLater(bs: seq<Block>, at: int, later: int)
    requires at <= later
    ensures forall c :: Earlier(bs, c, at) ==> Earlier(bs, c, later)
  {
  }

  lemma {:induction false} NoBody(ctes: seq<Cte>, id: Range)
    requires BodyIndex(ctes, id) == |ctes|
    ensures forall c | c in ctes :: c.bodyScopeId != id
  {
    if ctes != [] { NoBody(ctes[1..], id); }
  }

  lemma BodyPlaced(toks: seq<Token>, bs: seq<Block>, statement: Range, p: nat, c: Cte)
    requires Family(toks, bs, statement) && p < |bs| && c in bs[p].ctes
    ensures ChildIn(bs, bs[p].id, c.bodyScopeId) && Under(c.bodyScopeId, bs[p].id) && Inner(c.bodyScopeId, statement)
  {
    assert Settled(toks, bs[p], bs);
    var x :| 0 <= x < |bs| && bs[x].id == c.bodyScopeId && bs[x].parentId == Some(bs[p].id);
    hide Settled;
  }

  lemma SiblingEarlier(toks: seq<Token>, bs: seq<Block>, statement: Range, p: nat, k: nat, c: Cte)
    requires Family(toks, bs, statement) && p < |bs| && k < |bs| && bs[k].parentId == Some(bs[p].id) && c in bs[p].ctes
    requires BodyIndex(bs[p].ctes, bs[k].id) == |bs[p].ctes|
    ensures Earlier(bs, c, bs[k].id.start)
  {
    NoBody(bs[p].ctes, bs[k].id);
    BodyPlaced(toks, bs, statement, p, c);
    assert Settled(toks, bs[p], bs) && !IsBody(bs[p], bs[k].id) && bs[k] in bs;
    hide Refers, ItemsOf, ChildIn;
  }

  lemma PrecedingEarlier(toks: seq<Token>, bs: seq<Block>, statement: Range, p: nat, i: nat, c: Cte)
    requires Family(toks, bs, statement) && p < |bs| && i < |bs[p].ctes| && c in bs[p].ctes[..i]
    ensures Earlier(bs, c, bs[p].ctes[i].bodyScopeId.start)
  {
    BodyPlaced(toks, bs, statement, p, c);
    assert DeclaredFirst(bs[p], bs) by { assert Settled(toks, bs[p], bs); hide DeclaredFirst; }
    hide Family, ChildIn, IsBody;
    var j :| 0 <= j < i && bs[p].ctes[j] == c;
  }

  /** By where queries end, and for the same end by how little they hold. */
  function PlaceRank(statement: Range, id: Range): nat {
    if Inner(id, statement)
    then (id.end - statement.start) * (Span(statement) + 1) + (statement.end - id.start)
    else 0
  }

  lemma EndsFirst(statement: Range, a: Range, b: Range)
    requires Inner(a, statement) && Inner(b, statement) && (a.end < b.end || (a.end == b.end && a.start > b.start))
    ensures PlaceRank(statement, a) < PlaceRank(statement, b)
  {
    var m, x, y := Span(statement) + 1, a.end - statement.start, b.end - statement.start;
    if x < y { assert x * m + m <= y * m by { assert (x + 1) * m <= y * m; } }
  }

  lemma ChildRank(toks: seq<Token>, bs: seq<Block>, statement: Range, k: nat, id: Range)
    requires Family(toks, bs, statement) && k < |bs| && ChildIn(bs, bs[k].id, id)
    ensures PlaceRank(statement, id) < PlaceRank(statement, bs[k].id) && exists j :: 0 <= j < |bs| && bs[j].id == id
  {
    var x :| 0 <= x < |bs| && bs[x].id == id && bs[x].parentId == Some(bs[k].id);
    hide Settled;
    EndsFirst(statement, id, bs[k].id);
  }

  lemma EarlierRank(toks: seq<Token>, bs: seq<Block>, statement: Range, k: nat, c: Cte)
    requires Family(toks, bs, statement) && k < |bs| && Earlier(bs, c, bs[k].id.start)
    ensures PlaceRank(statement, c.bodyScopeId) < PlaceRank(statement, bs[k].id)
    ensures exists j :: 0 <= j < |bs| && bs[j].id == c.bodyScopeId
  {
    var j :| 0 <= j < |bs| && c in bs[j].ctes && ChildIn(bs, bs[j].id, c.bodyScopeId);
    BodyPlaced(toks, bs, statement, j, c);
    hide Settled;
    EndsFirst(statement, c.bodyScopeId, bs[k].id);
  }

  lemma ReadsLower(s: Setting, toks: seq<Token>, statement: Range, k: nat, id: Range)
    requires Family(toks, s.blocks, statement) && NoneRecursive(s.blocks) && k < |s.blocks| && Reads(s, k, id)
    ensures PlaceRank(statement, id) < PlaceRank(statement, s.blocks[k].id)
            && exists j :: 0 <= j < |s.blocks| && s.blocks[j].id == id
  {
    var b := s.blocks[k];
    assert b in s.blocks && Settled(toks, b, s.blocks);
    if b.setBranchIds.Some? && id in b.setBranchIds.value {
      ChildRank(toks, s.blocks, statement, k, id);
    } else {
      var ref :| ref in b.from && SourceReads(s, k, ref, id);
      if ref.bodyScopeId.Some? {
        ChildRank(toks, s.blocks, statement, k, id);
      } else {
        LookUpEarlier(toks, s.blocks, statement, k, ref, s.lexer.dialect);
        var c := LookUp(s.blocks, k, ref, s.lexer.dialect).value;
        hide LookUp, LookOutside;
        if c in b.ctes {
          ChildRank(toks, s.blocks, statement, k, id);
        } else {
          EarlierRank(toks, s.blocks, statement, k, c);
        }
      }
    }
  }

  /** No parsed query reads itself, so it has one meaning. */
  lemma FamilyRanked(s: Setting, toks: seq<Token>, statement: Range)
    requires Family(toks, s.blocks, statement) && NoneRecursive(s.blocks)
    ensures Ranked(s, id => PlaceRank(statement, id))
  {
    hide Family, NoneRecursive, Reads, PlaceRank;
    forall k, id | 0 <= k < |s.blocks| && Reads(s, k, id)
      ensures PlaceRank(statement, id) < PlaceRank(statement, s.blocks[k].id)
              && exists j :: 0 <= j < |s.blocks| && s.blocks[j].id == id
    {
      ReadsLower(s, toks, statement, k, id);
    }
  }

  /** What a statement means. */
  function MeaningOf(s: Setting, statement: Range): Range -> Shape {
    Evaluated(s, PlaceRank(statement, statement) + 1)
  }

  /** It has one as it is parsed, and one as it is written. */
  lemma HasMeaning(s: Setting, w: Setting, toks: seq<Token>, statement: Range)
    requires Family(toks, s.blocks, statement) && NoneRecursive(s.blocks)
    requires w == s.(blocks := w.blocks) && SameButLists(s.blocks, w.blocks)
    ensures Meaning(w, MeaningOf(w, statement))
  {
    var rank := id => PlaceRank(statement, id);
    FamilyRanked(s, toks, statement);
    RankedSame(s, w, rank);
    FamilyTreelike(toks, s.blocks, statement);
    TreelikeSame(s.blocks, w.blocks);
    forall k | 0 <= k < |w.blocks| ensures rank(w.blocks[k].id) < PlaceRank(statement, statement) + 1 {
      if s.blocks[k].id != statement { EndsFirst(statement, s.blocks[k].id, statement); }
    }
    hide Family, Treelike, Ranked, Meaning, SameButLists;
    MeaningExists(w, rank, PlaceRank(statement, statement) + 1);
  }

  /** And any other reading of the rules agrees with it on every block. */
  lemma OneMeaning(s: Setting, w: Setting, toks: seq<Token>, statement: Range, meaning: Range -> Shape, k: nat)
    requires Family(toks, s.blocks, statement) && NoneRecursive(s.blocks)
    requires w == s.(blocks := w.blocks) && SameButLists(s.blocks, w.blocks)
    requires Meaning(w, meaning) && k < |w.blocks|
    ensures meaning(w.blocks[k].id) == MeaningOf(w, statement)(w.blocks[k].id)
  {
    HasMeaning(s, w, toks, statement);
    FamilyRanked(s, toks, statement);
    RankedSame(s, w, id => PlaceRank(statement, id));
    MeaningUnique(w, id => PlaceRank(statement, id), meaning, MeaningOf(w, statement), k);
  }

  // ---- from text to columns ----

  datatype Resolution = Unparsed | Resolved(setting: Setting, found: Found)

  /** The tokens of a statement of a text. */
  function StatementTokens(lexer: Lexer, t: Text, statement: Range): seq<Token> {
    RelevantTokens(lexer.Tokens(t, 0), statement)
  }

  /**
   The columns of all queries of a statement.  Whatever is flagged complete, of a block, a declaration
   or a relation in FROM, is what the statement means as it is parsed, for every text without recursive
   declarations in which no select item ends in an operator, whatever the dialect's operators are; and as
   it is written, where no named relation is directly followed by a parenthesis either.
   */
  method ResolveStatement(lexer: Lexer, operators: OperatorWords, t: Text, statement: Range,
                          catalog: TableName -> Option<Inference>)
    returns (r: Resolution)
    ensures r.Unparsed? <==> ParseBlocks(lexer, lexer.Tokens(t, 0), statement).Throws?
    ensures r.Resolved? ==> ParseBlocks(lexer, lexer.Tokens(t, 0), statement) == Parsed(r.setting.blocks)
    ensures r.Resolved? ==> r.setting.lexer == lexer && r.setting.operators == operators && r.setting.catalog == catalog
    ensures r.Resolved? && NoneRecursive(r.setting.blocks) ==>
              && Plain(r.setting) && Meaning(r.setting, MeaningOf(r.setting, statement))
              && (NoOperatorNames(r.setting) ==> Sound(r.setting, MeaningOf(r.setting, statement), r.found))
    ensures r.Resolved? && NoneRecursive(r.setting.blocks) ==>
              var w := Written(r.setting, StatementTokens(lexer, t, statement));
              && Meaning(w, MeaningOf(w, statement))
              && (NoOperatorNames(r.setting) && NoListFollows(r.setting, StatementTokens(lexer, t, statement)) ==>
                    Sound(w, MeaningOf(w, statement), r.found))
  {
    hide ParseBlocks, Lexer.Tokens, Sound, Meaning, Plain, NoTableAliases, NoOperatorNames, NoneRecursive, Family,
         Treelike;
    hide Written, NoListFollows, SameButLists;
    match ParseBlocks(lexer, lexer.Tokens(t, 0), statement) {
      case Throws => return Unparsed;
      case Parsed(blocks) =>
        ghost var toks := StatementTokens(lexer, t, statement);
        BlocksAreFamily(lexer, t, statement, blocks);
        var environments := Environments(blocks, lexer.dialect);
        var s := Setting(lexer, operators, blocks, environments, catalog);
        if NoneRecursive(blocks) {
          FamilyTreelike(toks, blocks, statement);
          TextScannable(lexer, t);
          RelevantScannable(lexer, lexer.Tokens(t, 0), statement);
          FamilyPlain(s, toks, statement);
          SameButItself(blocks);
          HasMeaning(s, s, toks, statement);
          WrittenSame(s, toks);
          HasMeaning(s, Written(s, toks), toks, statement);
          if NoListFollows(s, toks) { WrittenIsParsed(s, toks); }
        }
        var found := ResolveScopes(s, MeaningOf(s, statement));
        return Resolved(s, found);
    }
  }
}
