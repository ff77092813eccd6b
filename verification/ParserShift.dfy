/** Parsing commutes with displacement of the statement. */
module ParserShift {
  import opened SqlText
  import opened Tokenizer
  import opened ScopeParser
  import opened BlockParser

  function ShiftRange(r: Range, d: int): Range {
    Range(r.start + d, r.end + d)
  }

  function ShiftParent(r: Option<Range>, d: int): Option<Range> {
    match r case None => None case Some(id) => Some(ShiftRange(id, d))
  }

  function ShiftIds(ids: seq<Range>, d: int): seq<Range> {
    seq(|ids|, k requires 0 <= k < |ids| => ShiftRange(ids[k], d))
  }

  function ShiftRef(ref: FromRef, d: int): FromRef {
    ref.(id := ref.id + d, declarationStart := ref.declarationStart + d, bodyScopeId := ShiftParent(ref.bodyScopeId, d))
  }

  function ShiftRefs(refs: seq<FromRef>, d: int): (r: seq<FromRef>)
    ensures |r| == |refs|
  {
    seq(|refs|, k requires 0 <= k < |refs| => ShiftRef(refs[k], d))
  }

  function ShiftCte(cte: Cte, d: int): Cte {
    cte.(bodyScopeId := ShiftRange(cte.bodyScopeId, d))
  }

  function ShiftCtes(ctes: seq<Cte>, d: int): (r: seq<Cte>)
    ensures |r| == |ctes|
  {
    seq(|ctes|, k requires 0 <= k < |ctes| => ShiftCte(ctes[k], d))
  }

  function ShiftClause(c: Clause, d: int): Clause {
    c.(start := c.start + d, end := c.end + d)
  }

  function ShiftClauses(cs: seq<Clause>, d: int): (r: seq<Clause>)
    ensures |r| == |cs|
  {
    seq(|cs|, k requires 0 <= k < |cs| => ShiftClause(cs[k], d))
  }

  function ShiftItems(items: seq<seq<Token>>, d: int): (r: seq<seq<Token>>)
    ensures |r| == |items|
  {
    seq(|items|, k requires 0 <= k < |items| => ShiftTokens(items[k], d))
  }

  function ShiftBlock(b: Block, d: int): Block {
    b.(id := ShiftRange(b.id, d),
       parentId := ShiftParent(b.parentId, d),
       range := ShiftRange(b.range, d),
       selectItems := ShiftItems(b.selectItems, d),
       from := ShiftRefs(b.from, d),
       ctes := ShiftCtes(b.ctes, d),
       clauses := ShiftClauses(b.clauses, d),
       setBranchIds := match b.setBranchIds case None => None case Some(ids) => Some(ShiftIds(ids, d)))
  }

  function ShiftBlocks(bs: seq<Block>, d: int): (r: seq<Block>)
    ensures |r| == |bs|
  {
    seq(|bs|, k requires 0 <= k < |bs| => ShiftBlock(bs[k], d))
  }

  function ShiftOutcome(o: Outcome<seq<Block>>, d: int): Outcome<seq<Block>> {
    match o case Throws => Throws case Parsed(bs) => Parsed(ShiftBlocks(bs, d))
  }

  function ShiftProgress(p: Progress, d: int): Progress {
    Progress(ShiftBlock(p.block, d), ShiftBlocks(p.below, d), p.owned)
  }

  function ShiftStage(s: Stage, d: int): Stage {
    match s
    case Raised => Raised
    case Going(at, p) => Going(at, ShiftProgress(p, d))
    case Finished(p) => Finished(ShiftProgress(p, d))
  }

  // ---- each way a block grows commutes ----

  lemma FailShift(p: Progress, reason: Reason, d: int)
    ensures Fail(ShiftProgress(p, d), reason) == ShiftProgress(Fail(p, reason), d)
  {
    assert ShiftRefs([], d) == [];
  }

  lemma BlocksConcat(a: seq<Block>, b: seq<Block>, d: int)
    ensures ShiftBlocks(a + b, d) == ShiftBlocks(a, d) + ShiftBlocks(b, d)
  {
  }

  lemma BlocksCons(b: Block, bs: seq<Block>, d: int)
    ensures ShiftBlocks([b] + bs, d) == [ShiftBlock(b, d)] + ShiftBlocks(bs, d)
  {
  }

  lemma OneBlock(b: Block, d: int)
    ensures ShiftBlocks([b], d) == [ShiftBlock(b, d)]
  {
  }

  lemma AddClauseShift(p: Progress, c: Clause, d: int)
    ensures AddClause(ShiftProgress(p, d), ShiftClause(c, d)) == ShiftProgress(AddClause(p, c), d)
  {
    assert ShiftClauses(p.block.clauses + [c], d) == ShiftClauses(p.block.clauses, d) + [ShiftClause(c, d)];
  }

  lemma AddChildShift(p: Progress, blocks: seq<Block>, open: nat, d: int)
    ensures AddChild(ShiftProgress(p, d), ShiftBlocks(blocks, d), open) == ShiftProgress(AddChild(p, blocks, open), d)
  {
    BlocksConcat(p.below, blocks, d);
  }

  lemma AddCteShift(p: Progress, cte: Cte, d: int)
    ensures AddCte(ShiftProgress(p, d), ShiftCte(cte, d)) == ShiftProgress(AddCte(p, cte), d)
  {
    assert ShiftCtes(p.block.ctes + [cte], d) == ShiftCtes(p.block.ctes, d) + [ShiftCte(cte, d)];
  }

  lemma AddRefShift(p: Progress, ref: FromRef, d: int)
    ensures AddRef(ShiftProgress(p, d), ShiftRef(ref, d)) == ShiftProgress(AddRef(p, ref), d)
  {
    assert ShiftRefs(p.block.from + [ref], d) == ShiftRefs(p.block.from, d) + [ShiftRef(ref, d)];
  }

  lemma AddBranchShift(p: Progress, blocks: seq<Block>, d: int)
    requires blocks != [] && p.block.setBranchIds.Some?
    ensures AddBranch(ShiftProgress(p, d), ShiftBlocks(blocks, d)) == ShiftProgress(AddBranch(p, blocks), d)
  {
    BlocksConcat(p.below, blocks, d);
    var ids := p.block.setBranchIds.value;
    assert ShiftIds(ids + [blocks[0].id], d) == ShiftIds(ids, d) + [ShiftRange(blocks[0].id, d)];
  }

  lemma NewBlockShift(range: Range, kind: BlockKind, parent: Option<Range>, d: int)
    ensures NewBlock(ShiftRange(range, d), kind, ShiftParent(parent, d)) == ShiftBlock(NewBlock(range, kind, parent), d)
  {
  }

  lemma NextClauseShift(seen: seq<Clause>, name: ClauseName, at: int, end: int, d: int)
    ensures NextClause(ShiftClauses(seen, d), name, at + d, end + d) == ShiftClauses(NextClause(seen, name, at, end), d)
  {
  }

  lemma {:induction false} ClausesShift(env: Env, toks: seq<Token>, top: seq<nat>, end: int, seen: seq<Clause>, d: int)
    requires forall k :: 0 <= k < |top| ==> top[k] < |toks|
    ensures Clauses(env, ShiftTokens(toks, d), top, end + d, ShiftClauses(seen, d))
            == ShiftClauses(Clauses(env, toks, top, end, seen), d)
  {
    hide Env.ClauseAt, NextClause, ShiftClauses;
    if top != [] {
      match env.ClauseAt(top[0])
      case None => ClausesShift(env, toks, top[1..], end, seen, d);
      case Some(name) =>
        var at := toks[top[0]].start;
        NextClauseShift(seen, name, at, end, d);
        ClausesShift(env, toks, top[1..], end, NextClause(seen, name, at, end), d);
      }
  }

  lemma {:induction false} ItemsShift(toks: seq<Token>, from: nat, ends: seq<nat>, d: int)
    ensures Items(ShiftTokens(toks, d), from, ends) == ShiftItems(Items(toks, from, ends), d)
    decreases ends
  {
    if ends != [] {
      ItemsShift(toks, ends[0] + 1, ends[1..], d);
      assert Slice(ShiftTokens(toks, d), from, ends[0]) == ShiftTokens(Slice(toks, from, ends[0]), d);
    }
  }

  // ---- the descent commutes ----

  lemma {:induction false} ParseShift(env: Env, toks: seq<Token>, lo: nat, hi: nat, range: Range, kind: BlockKind,
                                      parent: Option<Range>, d: int)
    requires |toks| == |env.lex| && env.Ready(lo, hi)
    ensures Parse(env, ShiftTokens(toks, d), lo, hi, ShiftRange(range, d), kind, ShiftParent(parent, d))
            == ShiftOutcome(Parse(env, toks, lo, hi, range, kind, parent), d)
    decreases hi - lo, 9, 0
  {
    hide Ctes, MoreCtes, Declaration, Query, Compound, Branches, MoreBranches, Branch, Select, AfterFrom, Relations,
         MoreRelations, RelationAfter, Relation, OpenRelation, Child, Expressions, MoreExpressions, Expression;
    var toks' := ShiftTokens(toks, d);
    var p := Progress(NewBlock(range, kind, parent), [], {});
    var p' := Progress(NewBlock(ShiftRange(range, d), kind, ShiftParent(parent, d)), [], {});
    NewBlockShift(range, kind, parent, d);
    assert p' == ShiftProgress(p, d);
    var declared := Declarations(env, toks, lo, hi, p);
    if env.W(lo) == WITH && lo < hi {
      var explicit := env.W(lo + 1) == RECURSIVE;
      CtesShift(env, toks, lo, hi, if explicit then lo + 2 else lo + 1, explicit || env.dialect == Sqlserver, p, d);
    }
    QueryShift(env, toks, lo, hi, range, declared, d);
    var q := Query(env, toks, lo, hi, range, declared);
    if !q.Raised? { BlocksCons(q.p.block, q.p.below, d); }
  }

  lemma {:induction false} CtesShift(env: Env, toks: seq<Token>, lo: nat, hi: nat, start: nat, recursive: bool,
                                     p: Progress, d: int)
    requires |toks| == |env.lex| && env.Ready(lo, hi) && lo < start
    ensures Ctes(env, ShiftTokens(toks, d), lo, hi, start, recursive, ShiftProgress(p, d))
            == ShiftStage(Ctes(env, toks, lo, hi, start, recursive, p), d)
    decreases hi - lo, 5, if start < hi then 2 * (hi - start) else 0
  {
    hide Parse, MoreCtes, Declaration, Query, Compound, Branches, MoreBranches, Branch, Select, AfterFrom, Relations,
         MoreRelations, RelationAfter, Relation, OpenRelation, Child, Expressions, MoreExpressions, Expression;
    if start < hi {
      DeclarationShift(env, toks, lo, hi, start, recursive, p, d);
      MoreCtesShift(env, toks, lo, hi, start, recursive, Declaration(env, toks, lo, hi, start, recursive, p), d);
    }
  }

  lemma {:induction false} MoreCtesShift(env: Env, toks: seq<Token>, lo: nat, hi: nat, start: nat, recursive: bool,
                                         s: Stage, d: int)
    requires |toks| == |env.lex| && env.Ready(lo, hi) && lo < start < hi
    requires s.Going? ==> start < s.at
    ensures MoreCtes(env, ShiftTokens(toks, d), lo, hi, start, recursive, ShiftStage(s, d))
            == ShiftStage(MoreCtes(env, toks, lo, hi, start, recursive, s), d)
    decreases hi - lo, 5, 2 * (hi - start) - 1
  {
    hide Parse, Ctes, Declaration, Query, Compound, Branches, MoreBranches, Branch, Select, AfterFrom, Relations,
         MoreRelations, RelationAfter, Relation, OpenRelation, Child, Expressions, MoreExpressions, Expression;
    if s.Going? && env.Comma(s.at) { CtesShift(env, toks, lo, hi, s.at + 1, recursive, s.p, d); }
  }

  lemma {:induction false} DeclarationShift(env: Env, toks: seq<Token>, lo: nat, hi: nat, start: nat, recursive: bool,
                                            p: Progress, d: int)
    requires |toks| == |env.lex| && env.Ready(lo, hi) && lo < start < hi
    ensures Declaration(env, ShiftTokens(toks, d), lo, hi, start, recursive, ShiftProgress(p, d))
            == ShiftStage(Declaration(env, toks, lo, hi, start, recursive, p), d)
    decreases hi - lo, 4, 0
  {
    hide Parse, Ctes, MoreCtes, Query, Compound, Branches, MoreBranches, Branch, Select, AfterFrom, Relations,
         MoreRelations, RelationAfter, Relation, OpenRelation, Child, Expressions, MoreExpressions, Expression,
         HeaderOf, WithCte;
    match HeaderOf(env, start)
    case BadCte(reason) => FailShift(p, reason, d);
    case CteHeader(aliases, open) =>
      HeaderInside(env, toks, lo, hi, start);
      ChildShift(env, toks, lo, hi, open, CteBlock, p.block.id, d);
      match Child(env, toks, lo, hi, open, CteBlock, p.block.id)
      case Throws =>
      case Parsed(blocks) => WithCteShift(env, start, open, aliases, recursive, p, blocks, d);
  }

  lemma {:induction false} ChildShift(env: Env, toks: seq<Token>, lo: nat, hi: nat, open: nat, kind: BlockKind,
                                      parent: Range, d: int)
    requires |toks| == |env.lex| && env.Ready(lo, hi) && lo <= open <= hi && env.Open(open)
    ensures Child(env, ShiftTokens(toks, d), lo, hi, open, kind, ShiftRange(parent, d))
            == ShiftOutcome(Child(env, toks, lo, hi, open, kind, parent), d)
    decreases hi - lo, 1, 0
  {
    hide Parse, Ctes, MoreCtes, Declaration, Query, Compound, Branches, MoreBranches, Branch, Select, AfterFrom,
         Relations, MoreRelations, RelationAfter, Relation, OpenRelation, Expressions, MoreExpressions, Expression;
    ChildReady(env, toks, lo, hi, open);
    var close := env.pairs[open];
    ParseShift(env, toks, open + 1, close, Between(toks, open, close), kind, Some(parent), d);
  }

  lemma WithCteShift(env: Env, start: nat, open: nat, aliases: Option<seq<Column>>, recursive: bool, p: Progress,
                     blocks: seq<Block>, d: int)
    requires start < |env.lex| && blocks != []
    ensures WithCte(env, start, open, aliases, recursive, ShiftProgress(p, d), ShiftBlocks(blocks, d))
            == ShiftProgress(WithCte(env, start, open, aliases, recursive, p, blocks), d)
  {
    AddChildShift(p, blocks, open, d);
    AddCteShift(AddChild(p, blocks, open),
                Cte(env.Name(start).name, env.Name(start).quoted, aliases, blocks[0].id, recursive), d);
  }

  lemma {:induction false} QueryShift(env: Env, toks: seq<Token>, lo: nat, hi: nat, range: Range, s: Stage, d: int)
    requires |toks| == |env.lex| && env.Ready(lo, hi)
    requires s.Going? ==> lo <= s.at
    ensures Query(env, ShiftTokens(toks, d), lo, hi, ShiftRange(range, d), ShiftStage(s, d))
            == ShiftStage(Query(env, toks, lo, hi, range, s), d)
    decreases hi - lo, 8, 0
  {
    hide Parse, Ctes, MoreCtes, Declaration, Compound, Branches, MoreBranches, Branch, Select, AfterFrom, Relations,
         MoreRelations, RelationAfter, Relation, OpenRelation, Child, Expressions, MoreExpressions, Expression;
    if s.Going? {
      if env.W(s.at) != SELECT || s.at >= hi { FailShift(s.p, UnsupportedStatement, d); }
      else {
        var top := env.Top(s.at, hi);
        var sets := env.SetOperators(top);
        if sets != [] { CompoundShift(env, toks, lo, hi, range, s.at, top, sets, s.p, d); }
        else { SelectShift(env, toks, lo, hi, range, s.at, top, s.p, d); }
      }
    }
  }

  lemma {:induction false} CompoundShift(env: Env, toks: seq<Token>, lo: nat, hi: nat, range: Range, at: nat,
                                         top: seq<nat>, sets: seq<nat>, p: Progress, d: int)
    requires |toks| == |env.lex| && env.Ready(lo, hi) && lo <= at < hi && top == env.Top(at, hi)
    requires sets == env.SetOperators(top) && sets != []
    ensures Compound(env, ShiftTokens(toks, d), lo, hi, ShiftRange(range, d), at, top, sets, ShiftProgress(p, d))
            == ShiftStage(Compound(env, toks, lo, hi, range, at, top, sets, p), d)
    decreases hi - lo, 7, 0
  {
    hide Parse, Ctes, MoreCtes, Declaration, Query, Branches, MoreBranches, Branch, Select, AfterFrom, Relations,
         MoreRelations, RelationAfter, Relation, OpenRelation, Child, Expressions, MoreExpressions, Expression;
    var order := env.OrderAfter(top, sets[|sets| - 1]);
    var finish := if order.Some? then order.value else hi;
    var compound := p.(block := p.block.(kind := CompoundBlock, setBranchIds := Some([])));
    hide Env.Ready, Env.Closed, Env.Top, Env.SetOperators, Env.OrderAfter, Divides, WithOrder, ShiftProgress,
         ShiftStage, ShiftTokens;
    BoundsDivide(env, toks, at, hi, top, sets, finish);
    CompoundHead(p, d);
    BranchesShift(env, toks, lo, hi, range, sets + [finish], 0, at, at, compound, d);
    WithOrderShift(toks, order, range, Branches(env, toks, lo, hi, range, sets + [finish], 0, at, at, compound), d);
  }

  lemma CompoundHead(p: Progress, d: int)
    ensures ShiftProgress(p.(block := p.block.(kind := CompoundBlock, setBranchIds := Some([]))), d)
            == ShiftProgress(p,
                             d).(block := ShiftProgress(p, d).block.(kind := CompoundBlock, setBranchIds := Some([])))
    ensures ShiftProgress(p, d).block == ShiftBlock(p.block, d)
  {
    assert ShiftIds([], d) == [];
  }

  lemma WithOrderShift(toks: seq<Token>, order: Option<nat>, range: Range, s: Stage, d: int)
    requires order.Some? ==> order.value < |toks|
    ensures WithOrder(ShiftTokens(toks, d), order, ShiftRange(range, d), ShiftStage(s, d))
            == ShiftStage(WithOrder(toks, order, range, s), d)
  {
    if !s.Raised? && order.Some? { AddClauseShift(s.p, Clause(OrderBy, toks[order.value].start, range.end), d); }
  }

  lemma {:induction false} BranchesShift(env: Env, toks: seq<Token>, lo: nat, hi: nat, range: Range, bounds: seq<nat>,
                                         k: nat, first: nat, at: nat, p: Progress, d: int)
    requires |toks| == |env.lex| && env.Ready(lo, hi) && k <= |bounds| && lo <= first && Divides(env, first, hi, bounds)
    requires at == if k == 0 then first else env.AfterDistinct(bounds[k - 1] + 1)
    requires p.block.setBranchIds.Some?
    ensures Branches(env, ShiftTokens(toks, d), lo, hi, ShiftRange(range, d), bounds, k, first, at, ShiftProgress(p, d))
            == ShiftStage(Branches(env, toks, lo, hi, range, bounds, k, first, at, p), d)
    decreases hi - lo, 5, 2 * (|bounds| - k)
  {
    hide Parse, Ctes, MoreCtes, Declaration, Query, Compound, MoreBranches, Branch, Select, AfterFrom, Relations,
         MoreRelations, RelationAfter, Relation, OpenRelation, Child, Expressions, MoreExpressions, Expression;
    if k < |bounds| && at < |toks| {
      BranchShift(env, toks, lo, hi, range, bounds, k, first, at, p.block.id, d);
      MoreBranchesShift(env, toks, lo, hi, range, bounds, k, first, p,
                        Branch(env, toks, lo, hi, range, bounds, k, first, at, p.block.id), d);
    }
  }

  lemma {:induction false} MoreBranchesShift(env: Env, toks: seq<Token>, lo: nat, hi: nat, range: Range,
                                             bounds: seq<nat>, k: nat, first: nat, p: Progress,
                                             branch: Outcome<seq<Block>>, d: int)
    requires |toks| == |env.lex| && env.Ready(lo, hi) && k < |bounds| && lo <= first && Divides(env, first, hi, bounds)
    requires p.block.setBranchIds.Some? && (branch.Parsed? ==> branch.value != [])
    requires branch.Throws? ==> hi == |toks| && RunsOut(env)
    ensures MoreBranches(env, ShiftTokens(toks, d), lo, hi, ShiftRange(range, d), bounds, k, first, ShiftProgress(p, d),
                         ShiftOutcome(branch, d))
            == ShiftStage(MoreBranches(env, toks, lo, hi, range, bounds, k, first, p, branch), d)
    decreases hi - lo, 5, 2 * (|bounds| - k) - 1
  {
    hide Parse, Ctes, MoreCtes, Declaration, Query, Compound, Branches, Branch, Select, AfterFrom, Relations,
         MoreRelations, RelationAfter, Relation, OpenRelation, Child, Expressions, MoreExpressions, Expression;
    if branch.Parsed? {
      AddBranchShift(p, branch.value, d);
      BranchesShift(env, toks, lo, hi, range, bounds, k + 1, first, env.AfterDistinct(bounds[k] + 1),
                    AddBranch(p, branch.value), d);
    }
  }

  lemma BranchRangeShift(toks: seq<Token>, at: nat, b: nat, hi: nat, range: Range, d: int)
    requires at < |toks| && b <= hi <= |toks|
    ensures BranchRange(ShiftTokens(toks, d), at, b, hi, ShiftRange(range, d))
            == ShiftRange(BranchRange(toks, at, b, hi, range), d)
  {
  }

  lemma {:induction false} BranchShift(env: Env, toks: seq<Token>, lo: nat, hi: nat, range: Range, bounds: seq<nat>,
                                       k: nat, first: nat, at: nat, parent: Range, d: int)
    requires |toks| == |env.lex| && env.Ready(lo, hi) && k < |bounds| && lo <= first && Divides(env, first, hi, bounds)
    requires at == (if k == 0 then first else env.AfterDistinct(bounds[k - 1] + 1)) && at < |toks|
    ensures Branch(env, ShiftTokens(toks, d), lo, hi, ShiftRange(range, d), bounds, k, first, at, ShiftRange(parent, d))
            == ShiftOutcome(Branch(env, toks, lo, hi, range, bounds, k, first, at, parent), d)
    decreases hi - lo, 4, 0
  {
    hide Parse, Ctes, MoreCtes, Declaration, Query, Compound, Branches, MoreBranches, Select, AfterFrom, Relations,
         MoreRelations, RelationAfter, Relation, OpenRelation, Child, Expressions, MoreExpressions, Expression;
    BranchReady(env, toks, lo, hi, bounds, k, first, at);
    BranchRangeShift(toks, at, bounds[k], hi, range, d);
    ParseShift(env, toks, at, bounds[k], BranchRange(toks, at, bounds[k], hi, range), StatementBlock, Some(parent), d);
  }

  lemma {:induction false} SelectShift(env: Env, toks: seq<Token>, lo: nat, hi: nat, range: Range, at: nat,
                                       top: seq<nat>, p: Progress, d: int)
    requires |toks| == |env.lex| && env.Ready(lo, hi) && lo <= at < hi && top == env.Top(at, hi)
    ensures Select(env, ShiftTokens(toks, d), lo, hi, ShiftRange(range, d), at, top, ShiftProgress(p, d))
            == ShiftStage(Select(env, toks, lo, hi, range, at, top, p), d)
    decreases hi - lo, 7, 0
  {
    hide Parse, Ctes, MoreCtes, Declaration, Query, Compound, Branches, MoreBranches, Branch, AfterFrom, Relations,
         MoreRelations, RelationAfter, Relation, OpenRelation, Child, Expressions, MoreExpressions, Expression;
    var q := SelectHead(env, toks, range, hi, at, top, p);
    SelectHeadShift(env, toks, range, hi, at, top, p, d);
    match env.FirstUnsupported(top)
    case Some(i) => FailShift(q, UnsupportedWord(env.W(i)), d);
    case None =>
      RelationsShift(env, toks, lo, hi, top, 0, false, q, d);
      AfterFromShift(env, toks, lo, hi, Relations(env, toks, lo, hi, top, 0, false, q), d);
  }

  lemma {:induction false} AfterFromShift(env: Env, toks: seq<Token>, lo: nat, hi: nat, s: Stage, d: int)
    requires |toks| == |env.lex| && env.Ready(lo, hi)
    ensures AfterFrom(env, ShiftTokens(toks, d), lo, hi, ShiftStage(s, d))
            == ShiftStage(AfterFrom(env, toks, lo, hi, s), d)
    decreases hi - lo, 4, 0
  {
    hide Parse, Ctes, MoreCtes, Declaration, Query, Compound, Branches, MoreBranches, Branch, Select, Relations,
         MoreRelations, RelationAfter, Relation, OpenRelation, Child, Expressions, MoreExpressions, Expression;
    if s.Going? { ExpressionsShift(env, toks, lo, hi, s.p, d); }
  }

  lemma SelectHeadShift(env: Env, toks: seq<Token>, range: Range, hi: nat, at: nat, top: seq<nat>, p: Progress, d: int)
    requires forall k :: 0 <= k < |top| ==> top[k] < |toks|
    ensures SelectHead(env, ShiftTokens(toks, d), ShiftRange(range, d), hi, at, top, ShiftProgress(p, d))
            == ShiftProgress(SelectHead(env, toks, range, hi, at, top, p), d)
  {
    hide Clauses, Items, Env.ProjectionEnd, Env.AfterDistinct, Env.Commas, ShiftTokens;
    ClausesShift(env, toks, top, range.end, [], d);
    assert ShiftClauses([], d) == [];
    var end := env.ProjectionEnd(top, at, hi);
    var first := env.AfterDistinct(at + 1);
    ItemsShift(toks, first, env.Commas(top, first, end) + [end], d);
  }

  lemma {:induction false} RelationsShift(env: Env, toks: seq<Token>, lo: nat, hi: nat, top: seq<nat>, k: nat,
                                          inFrom: bool, p: Progress, d: int)
    requires |toks| == |env.lex| && env.Ready(lo, hi) && k <= |top|
    requires forall j :: 0 <= j < |top| ==> lo <= top[j] < hi
    ensures Relations(env, ShiftTokens(toks, d), lo, hi, top, k, inFrom, ShiftProgress(p, d))
            == ShiftStage(Relations(env, toks, lo, hi, top, k, inFrom, p), d)
    decreases hi - lo, 6, 2 * (|top| - k)
  {
    hide Parse, Ctes, MoreCtes, Declaration, Query, Compound, Branches, MoreBranches, Branch, Select, AfterFrom,
         MoreRelations, RelationAfter, Relation, OpenRelation, Child, Expressions, MoreExpressions, Expression;
    if k < |top| {
      var i := top[k];
      var from := inFrom && !StopsFrom(env.W(i));
      if !(env.W(i) == FROM || env.W(i) == JOIN || (from && env.Comma(i))) {
        RelationsShift(env, toks, lo, hi, top, k + 1, from, p, d);
      } else {
        RelationAfterShift(env, toks, lo, hi, i, p, d);
        MoreRelationsShift(env, toks, lo, hi, top, k, RelationAfter(env, toks, lo, hi, i, p), d);
      }
    }
  }

  lemma {:induction false} MoreRelationsShift(env: Env, toks: seq<Token>, lo: nat, hi: nat, top: seq<nat>, k: nat,
                                              s: Stage, d: int)
    requires |toks| == |env.lex| && env.Ready(lo, hi) && k < |top|
    requires forall j :: 0 <= j < |top| ==> lo <= top[j] < hi
    ensures MoreRelations(env, ShiftTokens(toks, d), lo, hi, top, k, ShiftStage(s, d))
            == ShiftStage(MoreRelations(env, toks, lo, hi, top, k, s), d)
    decreases hi - lo, 6, 2 * (|top| - k) - 1
  {
    hide Parse, Ctes, MoreCtes, Declaration, Query, Compound, Branches, MoreBranches, Branch, Select, AfterFrom,
         Relations, RelationAfter, Relation, OpenRelation, Child, Expressions, MoreExpressions, Expression;
    if s.Going? { RelationsShift(env, toks, lo, hi, top, SkipTo(top, k, s.at) + 1, true, s.p, d); }
  }

  lemma {:induction false} RelationAfterShift(env: Env, toks: seq<Token>, lo: nat, hi: nat, i: nat, p: Progress, d: int)
    requires |toks| == |env.lex| && env.Ready(lo, hi) && lo <= i < hi
    ensures RelationAfter(env, ShiftTokens(toks, d), lo, hi, i, ShiftProgress(p, d))
            == ShiftStage(RelationAfter(env, toks, lo, hi, i, p), d)
    decreases hi - lo, 5, 0
  {
    hide Parse, Ctes, MoreCtes, Declaration, Query, Compound, Branches, MoreBranches, Branch, Select, AfterFrom,
         Relations, MoreRelations, Relation, OpenRelation, Child, Expressions, MoreExpressions, Expression;
    var lateral := env.W(i + 1) == LATERAL;
    var at := if lateral then i + 2 else i + 1;
    if at < hi { RelationShift(env, toks, lo, hi, at, lateral, p, d); }
  }

  lemma {:induction false} RelationShift(env: Env, toks: seq<Token>, lo: nat, hi: nat, at: nat, lateral: bool,
                                         p: Progress, d: int)
    requires |toks| == |env.lex| && env.Ready(lo, hi) && lo <= at < hi
    ensures Relation(env, ShiftTokens(toks, d), lo, hi, at, lateral, ShiftProgress(p, d))
            == ShiftStage(Relation(env, toks, lo, hi, at, lateral, p), d)
    decreases hi - lo, 4, 0
  {
    hide Parse, Ctes, MoreCtes, Declaration, Query, Compound, Branches, MoreBranches, Branch, Select, AfterFrom,
         Relations, MoreRelations, RelationAfter, OpenRelation, Child, Expressions, MoreExpressions, Expression, Named;
    assert Nested(env.lex, env.pairs) && at < |env.lex|;
    hide Env.Ready, Nested;
    if env.Open(at) { OpenRelationShift(env, toks, lo, hi, at, lateral, p, d); }
    else { NamedShift(env, toks[at].start, at, lateral, p, d); }
  }

  lemma {:induction false} OpenRelationShift(env: Env, toks: seq<Token>, lo: nat, hi: nat, at: nat, lateral: bool,
                                             p: Progress, d: int)
    requires |toks| == |env.lex| && env.Ready(lo, hi) && lo <= at < hi && env.Open(at)
    ensures OpenRelation(env, ShiftTokens(toks, d), lo, hi, at, lateral, ShiftProgress(p, d))
            == ShiftStage(OpenRelation(env, toks, lo, hi, at, lateral, p), d)
    decreases hi - lo, 3, 0
  {
    hide Parse, Ctes, MoreCtes, Declaration, Query, Compound, Branches, MoreBranches, Branch, Select, AfterFrom,
         Relations, MoreRelations, RelationAfter, Relation, Child, Expressions, MoreExpressions, Expression;
    hide Derived;
    if !IsQuery(env.W(at + 1)) {
      FailShift(p, UnsupportedParenthesizedFrom, d);
    } else {
      var kind := if lateral then LateralBlock else DerivedBlock;
      ChildShift(env, toks, lo, hi, at, kind, p.block.id, d);
      DerivedShift(env, toks[at].start, at, lateral, p, Child(env, toks, lo, hi, at, kind, p.block.id), d);
    }
  }

  lemma DerivedShift(env: Env, start: int, at: nat, lateral: bool, p: Progress, body: Outcome<seq<Block>>, d: int)
    requires Nested(env.lex, env.pairs) && at in env.pairs && (body.Parsed? ==> body.value != [])
    ensures Derived(env, start + d, at, lateral, ShiftProgress(p, d), ShiftOutcome(body, d))
            == ShiftStage(Derived(env, start, at, lateral, p, body), d)
  {
    hide DerivedTail, Finish, AddChild, Nested;
    if body.Parsed? {
      AddChildShift(p, body.value, at, d);
      FinishShift(start, DerivedTail(env, env.pairs[at] + 1), body.value[0].id, lateral, AddChild(p, body.value, at),
                  d);
    }
  }

  lemma FinishShift(start: int, tail: Option<RelationTail>, body: Range, lateral: bool, p: Progress, d: int)
    ensures Finish(start + d, tail, ShiftRange(body, d), lateral, ShiftProgress(p, d))
            == ShiftStage(Finish(start, tail, body, lateral, p), d)
  {
    match tail
    case None => FailShift(p, InvalidDerivedColumns, d);
    case Some(tail) => AddRefShift(p, DerivedRefOf(start, body, tail, lateral), d);
  }

  lemma NamedShift(env: Env, start: int, at: nat, lateral: bool, p: Progress, d: int)
    requires Nested(env.lex, env.pairs) && at < |env.lex|
    ensures Named(env, start + d, at, lateral, ShiftProgress(p, d)) == ShiftStage(Named(env, start, at, lateral, p), d)
  {
    hide NamedAt, AddRef, Fail, Nested;
    FailShift(p, InvalidRelation, d);
    FailShift(p, UnsupportedSource, d);
    if env.Identifier(at) && NamedAt(env, at).Some? {
      AddRefShift(p, NamedRef(start, NamedAt(env, at).value, lateral), d);
    }
  }

  lemma {:induction false} ExpressionsShift(env: Env, toks: seq<Token>, begin: nat, end: nat, p: Progress, d: int)
    requires |toks| == |env.lex| && env.Ready(begin, end)
    ensures Expressions(env, ShiftTokens(toks, d), begin, end, ShiftProgress(p, d))
            == ShiftStage(Expressions(env, toks, begin, end, p), d)
    decreases end - begin, 3, 0
  {
    hide Parse, Ctes, MoreCtes, Declaration, Query, Compound, Branches, MoreBranches, Branch, Select, AfterFrom,
         Relations, MoreRelations, RelationAfter, Relation, OpenRelation, Child, MoreExpressions, Expression;
    if begin < end {
      if !env.Open(begin) {
        ExpressionsShift(env, toks, begin + 1, end, p, d);
      } else {
        ExpressionShift(env, toks, begin, end, p, d);
        MoreExpressionsShift(env, toks, begin, end, Expression(env, toks, begin, end, p), d);
      }
    }
  }

  lemma {:induction false} MoreExpressionsShift(env: Env, toks: seq<Token>, begin: nat, end: nat, s: Stage, d: int)
    requires |toks| == |env.lex| && env.Ready(begin, end) && begin < end && env.Open(begin)
    ensures MoreExpressions(env, ShiftTokens(toks, d), begin, end, ShiftStage(s, d))
            == ShiftStage(MoreExpressions(env, toks, begin, end, s), d)
    decreases end - begin, 2, 0
  {
    hide Parse, Ctes, MoreCtes, Declaration, Query, Compound, Branches, MoreBranches, Branch, Select, AfterFrom,
         Relations, MoreRelations, RelationAfter, Relation, OpenRelation, Child, Expressions, Expression;
    ChildReady(env, toks, begin, end, begin);
    if s.Going? { ExpressionsShift(env, toks, env.pairs[begin] + 1, end, s.p, d); }
  }

  lemma {:induction false} ExpressionShift(env: Env, toks: seq<Token>, begin: nat, end: nat, p: Progress, d: int)
    requires |toks| == |env.lex| && env.Ready(begin, end) && begin < end && env.Open(begin)
    ensures Expression(env, ShiftTokens(toks, d), begin, end, ShiftProgress(p, d))
            == ShiftStage(Expression(env, toks, begin, end, p), d)
    decreases end - begin, 2, 0
  {
    hide Parse, Ctes, MoreCtes, Declaration, Query, Compound, Branches, MoreBranches, Branch, Select, AfterFrom,
         Relations, MoreRelations, RelationAfter, Relation, OpenRelation, Child, Expressions, MoreExpressions;
    if begin !in p.owned {
      if IsQuery(env.W(begin + 1)) {
        ChildShift(env, toks, begin, end, begin, ExpressionBlock, p.block.id, d);
        match Child(env, toks, begin, end, begin, ExpressionBlock, p.block.id)
        case Throws =>
        case Parsed(blocks) => AddChildShift(p, blocks, begin, d);
      } else {
        ChildReady(env, toks, begin, end, begin);
        ExpressionsShift(env, toks, begin + 1, env.pairs[begin], p, d);
      }
    }
  }

  // ---- names and whole statements ----

  lemma ShiftRangeInjective(a: Range, b: Range, d: int)
    ensures ShiftRange(a, d) == ShiftRange(b, d) <==> a == b
  {
  }

  lemma {:induction false} ByIdShift(blocks: seq<Block>, id: Range, d: int)
    ensures ById(ShiftBlocks(blocks, d), ShiftRange(id, d))
            == match ById(blocks, id) case None => None case Some(b) => Some(ShiftBlock(b, d))
  {
    if blocks != [] {
      var n := |blocks| - 1;
      ShiftRangeInjective(blocks[n].id, id, d);
      assert ShiftBlocks(blocks, d)[..n] == ShiftBlocks(blocks[..n], d);
      ByIdShift(blocks[..n], id, d);
    }
  }

  lemma SameCteNames(ctes: seq<Cte>, dialect: Dialect, d: int)
    ensures CteNames(ShiftCtes(ctes, d), dialect) == CteNames(ctes, dialect)
  {
  }

  lemma {:induction false} DeclaredShift(blocks: seq<Block>, block: Block, ref: FromRef, dialect: Dialect, limit: int,
                                         d: int)
    ensures DeclaredAbove(ShiftBlocks(blocks, d), ShiftBlock(block, d), ShiftRef(ref, d), dialect, limit)
            == DeclaredAbove(blocks, block, ref, dialect, limit)
    decreases limit - Span(block.id)
  {
    hide Resolves, ById, ShiftBlocks;
    SameCteNames(block.ctes, dialect, d);
    hide CteNames, ShiftCtes;
    if block.parentId.Some? {
      ByIdShift(blocks, block.parentId.value, d);
      match ById(blocks, block.parentId.value)
      case None =>
      case Some(parent) =>
        if Span(block.id) < Span(parent.id) <= limit { DeclaredShift(blocks, parent, ref, dialect, limit, d); }
    }
  }

  lemma BindBlockShift(blocks: seq<Block>, block: Block, dialect: Dialect, limit: int, d: int)
    ensures BindBlock(ShiftBlocks(blocks, d), ShiftBlock(block, d), dialect, limit)
            == ShiftBlock(BindBlock(blocks, block, dialect, limit), d)
  {
    var left := BindBlock(ShiftBlocks(blocks, d), ShiftBlock(block, d), dialect, limit).from;
    var right := ShiftRefs(BindBlock(blocks, block, dialect, limit).from, d);
    forall k | 0 <= k < |block.from| ensures left[k] == right[k] {
      DeclaredShift(blocks, block, block.from[k], dialect, limit, d);
    }
    assert left == right;
  }

  lemma BindBlocksShift(blocks: seq<Block>, dialect: Dialect, limit: int, d: int)
    ensures BindBlocks(ShiftBlocks(blocks, d), dialect, limit) == ShiftBlocks(BindBlocks(blocks, dialect, limit), d)
  {
    forall k | 0 <= k < |blocks|
      ensures BindBlocks(ShiftBlocks(blocks, d), dialect, limit)[k]
              == ShiftBlocks(BindBlocks(blocks, dialect, limit), d)[k]
    {
      BindBlockShift(blocks, blocks[k], dialect, limit, d);
    }
  }

  lemma {:induction false} RelevantShift(all: seq<Token>, statement: Range, d: int)
    ensures RelevantTokens(ShiftTokens(all, d), ShiftRange(statement, d))
            == ShiftTokens(RelevantTokens(all, statement), d)
  {
    if all != [] {
      RelevantShift(all[1..], statement, d);
      assert ShiftTokens(all, d)[1..] == ShiftTokens(all[1..], d);
      assert ShiftTokens([all[0]], d) == [ShiftToken(all[0], d)];
      var rest := RelevantTokens(all[1..], statement);
      assert ShiftTokens([all[0]] + rest, d) == [ShiftToken(all[0], d)] + ShiftTokens(rest, d);
    }
  }

  lemma StructureShift(lexer: Lexer, toks: seq<Token>, statement: Range, d: int)
    ensures Structure(lexer, ShiftTokens(toks, d), ShiftRange(statement, d))
            == ShiftOutcome(Structure(lexer, toks, statement), d)
  {
    assert Spelling(ShiftTokens(toks, d)) == Spelling(toks);
    var env := EnvOf(lexer, toks);
    assert EnvOf(lexer, ShiftTokens(toks, d)) == env;
    NewBlockShift(statement, StatementBlock, None, d);
    match PairParens(env.lex).invalid {
      case Some(reason) =>
        OneBlock(NewBlock(statement, StatementBlock, None).(unsupported := Some(reason)), d);
      case None =>
        StatementReady(lexer, toks);
      ParseShift(env, toks, 0, |toks|, statement, StatementBlock, None, d);
    }
  }

  /** The parser commutes with displacement: moving a statement only moves its blocks. */
  lemma ParseBlocksShift(lexer: Lexer, all: seq<Token>, statement: Range, d: int)
    ensures ParseBlocks(lexer, ShiftTokens(all, d), ShiftRange(statement, d))
            == ShiftOutcome(ParseBlocks(lexer, all, statement), d)
  {
    var toks := RelevantTokens(all, statement);
    RelevantShift(all, statement, d);
    StructureShift(lexer, toks, statement, d);
    match Structure(lexer, toks, statement)
    case Throws =>
    case Parsed(blocks) =>
      BindBlocksShift(blocks, lexer.dialect, Span(statement), d);
  }
}
