/** The parser builds trees: one lemma for each function of the descent. */
module ParsedTree {
  import opened SqlText
  import opened ScopeParser
  import opened BlockParser
  import opened BlockTree

  // ---- a block whose tree stays as it is ----

  /** Only what a block names matters to its tree. */
  lemma SameTree(toks: seq<Token>, env: Env, p: Progress, q: Progress, range: Range, parent: Option<Range>)
    requires Planted(toks, env, p, range, parent) && q.below == p.below && q.owned == p.owned
    requires q.block.id == p.block.id && q.block.parentId == p.block.parentId && q.block.ctes == p.block.ctes
    requires q.block.setBranchIds == p.block.setBranchIds && ItemsOf(toks, q.block)
    requires q.block.from == p.block.from || q.block.from == []
    ensures Planted(toks, env, q, range, parent)
  {
    hide Rooted, DistinctIds, ItemsOf, Held;
  }

  /** How a stage may end: with a tree. */
  ghost predicate Ended(toks: seq<Token>, s: Stage, range: Range, parent: Option<Range>) {
    match s
    case Raised => true
    case Going(_, p) => p.block.id == range && p.block.parentId == parent && Grown(toks, p.block, p.below)
    case Finished(p) => p.block.id == range && p.block.parentId == parent && Grown(toks, p.block, p.below)
  }

  lemma FailEnds(toks: seq<Token>, env: Env, p: Progress, reason: Reason, range: Range, parent: Option<Range>)
    requires Planted(toks, env, p, range, parent)
    ensures Ended(toks, Finished(Fail(p, reason)), range, parent)
  {
    SameTree(toks, env, p, Fail(p, reason), range, parent);
  }

  lemma StartsPlanted(toks: seq<Token>, env: Env, range: Range, kind: BlockKind, parent: Option<Range>)
    ensures Planted(toks, env, Progress(NewBlock(range, kind, parent), [], {}), range, parent)
    ensures OnlyBodies(NewBlock(range, kind, parent), [])
  {
  }

  lemma EndedTree(toks: seq<Token>, p: Progress, range: Range, parent: Option<Range>)
    requires p.block.id == range && p.block.parentId == parent && Grown(toks, p.block, p.below)
             && range.start <= range.end
    ensures Tree(toks, [p.block] + p.below, range, parent)
  {
    assert ([p.block] + p.below)[1..] == p.below;
  }

  // ---- declarations ----

  /** No parenthesis in it, and no query. */
  ghost predicate Bare(env: Env, x: nat) {
    x in env.pairs && !IsQuery(env.W(x + 1)) && forall y | y in env.pairs :: !(x < y < env.pairs[x])
  }

  /** Up to an offset, every parenthesis has an owner, is inside one that has, or is bare. */
  ghost predicate Passed(env: Env, lo: nat, at: nat, owned: set<nat>) {
    forall x | x in env.pairs
      && lo <= x < at :: x in owned || Bare(env, x) || exists o | o in owned :: o in env.pairs && o < x < env.pairs[o]
  }

  ghost predicate Behind(env: Env, lo: nat, at: nat, owned: set<nat>) {
    forall o | o in owned :: o in env.pairs && lo <= o && env.pairs[o] < at && env.Closed(lo, o)
  }

  /** The state between two declarations. */
  ghost predicate Region(env: Env, lo: nat, hi: nat, at: nat, p: Progress) {
    && lo <= at
    && (at <= hi ==> env.Closed(lo, at) && Behind(env, lo, at, p.owned) && Passed(env, lo, at, p.owned))
  }

  lemma BodiesEnd(toks: seq<Token>, env: Env, p: Progress, range: Range, parent: Option<Range>, at: nat)
    requires Planted(toks, env, p, range, parent) && Ordered(toks)
    requires forall o | o in p.owned :: o in env.pairs && env.pairs[o] < at
    ensures BodiesBefore(toks, p.block, at)
    ensures at < |toks| ==> forall b | b in p.below :: b.id.start <= b.id.end < toks[at].start
  {
    if at < |toks| {
      forall b | b in p.below ensures b.id.start <= b.id.end < toks[at].start {
        var o :| o in p.owned && Inside(toks, env, o, b.id);
        assert toks[env.pairs[o]].start < toks[env.pairs[o]].end <= toks[at].start;
      }
      forall c | c in p.block.ctes ensures c.bodyScopeId.end < toks[at].start {
        assert ChildIn(p.below, p.block.id, c.bodyScopeId);
        var k :| 0 <= k < |p.below| && p.below[k].id == c.bodyScopeId;
        assert p.below[k] in p.below;
      }
    }
  }

  /** Everything before an opening parenthesis that owners are behind of is apart from it. */
  lemma BehindFresh(env: Env, lo: nat, open: nat, owned: set<nat>)
    requires open in env.pairs && forall o | o in owned :: o in env.pairs && env.pairs[o] < open
    ensures Fresh(env, owned, open)
  {
  }

  lemma {:induction false} ColumnsBare(env: Env, i: nat, close: nat, seen: seq<Column>)
    requires PlainNames(env) && close < |env.lex| && env.Columns(i, close, seen).Some?
    ensures forall y: nat | i <= y < close :: !env.Open(y)
    ensures i < close ==> !IsQuery(env.W(i))
    ensures i >= close ==> env.Columns(i, close, seen) == Some(seen)
    decreases close - i
  {
    if i < close { ColumnsBare(env, i + 2, close, seen + [env.Name(i)]); }
  }

  lemma ListBare(env: Env, open: nat)
    requires PlainNames(env) && Nested(env.lex, env.pairs) && open in env.pairs && env.ColumnList(open).Some?
    ensures Bare(env, open)
  {
    ColumnsBare(env, open + 1, env.pairs[open], []);
    forall y | y in env.pairs ensures !(open < y < env.pairs[open]) { assert env.Open(y); }
  }

  lemma HeaderShape(env: Env, start: nat)
    requires PlainNames(env) && Nested(env.lex, env.pairs) && HeaderOf(env, start).CteHeader?
    ensures var open := HeaderOf(env, start).open;
            && !env.Open(start) && env.W(open - 1) == AS && start + 1 < open
            && (open == start + 2
                || (env.Open(start + 1) && env.ColumnList(start + 1).Some? && open == env.pairs[start + 1] + 2))
  {
    assert env.Identifier(start);
    hide Env.ColumnList;
  }

  lemma WordIsNoOpen(env: Env, lo: nat, hi: nat, i: nat)
    requires env.Ready(lo, hi) && env.W(i) != Other
    ensures !env.Open(i)
  {
  }

  /** Before its body a declaration has no parenthesis but that of its column list. */
  lemma HeaderOpens(env: Env, lo: nat, hi: nat, start: nat, open: nat, x: nat)
    requires PlainNames(env) && env.Ready(lo, hi) && HeaderOf(env, start).CteHeader?
             && HeaderOf(env, start).open == open
    requires x in env.pairs && start <= x < open
    ensures x == start + 1 && Bare(env, x) && open == env.pairs[x] + 2
  {
    hide Env.ColumnList, Bare, PlainNames;
    HeaderShape(env, start);
    WordIsNoOpen(env, lo, hi, open - 1);
    hide HeaderOf, Env.EndMark;
    if open != start + 2 { ListBare(env, start + 1); }
    OnlyList(env, start, open, x);
  }

  lemma OnlyList(env: Env, start: nat, open: nat, x: nat)
    requires Nested(env.lex, env.pairs) && start + 1 < open && !env.Open(start) && !env.Open(open - 1) && x in env.pairs
             && start <= x < open
    requires open == start + 2 || (start + 1 in env.pairs && Bare(env, start + 1) && open == env.pairs[start + 1] + 2)
    ensures x == start + 1 && Bare(env, x) && open == env.pairs[x] + 2
  {
    assert env.Open(x);
    if open != start + 2 { assert IsClose(env.lex, env.pairs[start + 1]); }
  }

  /** A declaration's tokens up to its body hold no parenthesis but a bare list. */
  lemma HeaderPassed(env: Env, lo: nat, hi: nat, start: nat)
    requires PlainNames(env) && env.Ready(lo, hi) && lo < start < hi && HeaderOf(env, start).CteHeader?
             && env.Closed(lo, start)
    ensures var open := HeaderOf(env, start).open;
            && start < open && env.Open(open) && (open <= hi ==> env.Closed(lo, open))
            && forall x | x in env.pairs && start <= x < open :: Bare(env, x)
  {
    var open := HeaderOf(env, start).open;
    forall x | x in env.pairs && start <= x < open ensures Bare(env, x) && env.pairs[x] < open {
      HeaderOpens(env, lo, hi, start, open, x);
    }
    hide HeaderOf, Bare, Nested, PlainNames, Env.EndMark;
  }

  lemma RegionMoves(toks: seq<Token>, env: Env, lo: nat, hi: nat, start: nat, open: nat, p: Progress)
    requires env.Ready(lo, hi) && Region(env, lo, hi, start, p) && start < open < hi && env.Open(open)
             && env.pairs[open] < hi
    requires env.Closed(lo, open) && forall x | x in env.pairs && start <= x < open :: Bare(env, x)
    ensures forall q: Progress :: q.owned == p.owned + {open} ==> Region(env, lo, hi, env.pairs[open] + 1, q)
  {
    hide Bare, Env.EndMark;
    var owned, at := p.owned + {open}, env.pairs[open] + 1;
    assert Behind(env, lo, at, owned);
    forall x | x in env.pairs && lo <= x < at
      ensures x in owned || Bare(env, x) || exists o | o in owned :: o in env.pairs && o < x < env.pairs[o]
    {
      if x < start {
        if o :| o in p.owned && o in env.pairs && o < x < env.pairs[o] { assert o in owned; }
      } else if x > open {
        assert open in owned && open < x < env.pairs[open];
      }
    }
    assert env.Closed(lo, at);
  }

  lemma RegionOn(env: Env, lo: nat, hi: nat, at: nat, p: Progress)
    requires env.Ready(lo, hi) && Region(env, lo, hi, at, p) && !env.Open(at)
    ensures Region(env, lo, hi, at + 1, p)
  {
    if at < hi {
      assert forall x | x in env.pairs :: env.Open(x);
      hide Bare, Env.EndMark;
    }
  }

  /** The state of the declarations, and of what is passed on to the query. */
  ghost predicate Declaring(toks: seq<Token>, env: Env, lo: nat, hi: nat, at: nat, p: Progress, range: Range,
                            parent: Option<Range>) {
    Planted(toks, env, p, range, parent) && OnlyBodies(p.block, p.below) && Region(env, lo, hi, at, p)
  }

  ghost predicate DeclaredStage(toks: seq<Token>, env: Env, lo: nat, hi: nat, s: Stage, range: Range,
                                parent: Option<Range>) {
    match s
    case Raised => true
    case Going(at, p) => Declaring(toks, env, lo, hi, at, p, range, parent)
    case Finished(p) => Ended(toks, s, range, parent)
  }

  lemma {:induction false} ParseTree(env: Env, toks: seq<Token>, lo: nat, hi: nat, range: Range, kind: BlockKind,
                                     parent: Option<Range>)
    requires |toks| == |env.lex| && env.Ready(lo, hi) && Ordered(toks) && PlainNames(env) && Placed(toks, lo, hi, range)
    ensures var r := Parse(env, toks, lo, hi, range, kind, parent); r.Parsed? ==> Tree(toks, r.value, range, parent)
    decreases hi - lo, 9, 0
  {
    hide Ctes, Query, Planted, OnlyBodies, Ordered, PlainNames, Env.Ready, Tree, Grown;
    var p := Progress(NewBlock(range, kind, parent), [], {});
    StartsPlanted(toks, env, range, kind, parent);
    StartRegion(env, lo, hi, p);
    var declared := Declarations(env, toks, lo, hi, p);
    if env.W(lo) == WITH && lo < hi {
      var explicit := env.W(lo + 1) == RECURSIVE;
      var start := if explicit then lo + 2 else lo + 1;
      CtesTree(env, toks, lo, hi, start, explicit || env.dialect == Sqlserver, p, range, parent);
    }
    QueryTree(env, toks, lo, hi, range, declared, parent);
    match Query(env, toks, lo, hi, range, declared)
    case Raised =>
    case Going(_, q) => EndedTree(toks, q, range, parent);
    case Finished(q) => EndedTree(toks, q, range, parent);
  }

  lemma StartRegion(env: Env, lo: nat, hi: nat, p: Progress)
    requires env.Ready(lo, hi) && p.owned == {}
    ensures Region(env, lo, hi, lo, p)
    ensures env.W(lo) == WITH && lo < hi ==>
              Region(env, lo, hi, if env.W(lo + 1) == RECURSIVE then lo + 2 else lo + 1, p)
  {
    assert Region(env, lo, hi, lo, p);
    hide Region;
    if env.W(lo) == WITH && lo < hi {
      WordIsNoOpen(env, lo, hi, lo);
      if env.W(lo + 1) == RECURSIVE { WordIsNoOpen(env, lo, hi, lo + 1); }
      hide Env.Ready;
      RegionOn(env, lo, hi, lo, p);
      if env.W(lo + 1) == RECURSIVE { RegionOn(env, lo, hi, lo + 1, p); }
    }
  }

  lemma {:induction false} ChildTree(env: Env, toks: seq<Token>, lo: nat, hi: nat, open: nat, kind: BlockKind,
                                     parent: Range)
    requires |toks| == |env.lex| && env.Ready(lo, hi) && lo <= open <= hi && env.Open(open) && Ordered(toks)
             && PlainNames(env)
    ensures open < hi && open in env.pairs && open < env.pairs[open] < hi
    ensures var r := Child(env, toks, lo, hi, open, kind, parent);
            r.Parsed? ==> Tree(toks, r.value, Between(toks, open, env.pairs[open]), Some(parent))
    decreases hi - lo, 1, 0
  {
    ChildReady(env, toks, lo, hi, open);
    hide Parse, Env.Ready, PlainNames, Tree;
    ParseTree(env, toks, open + 1, env.pairs[open], Between(toks, open, env.pairs[open]), kind, Some(parent));
  }

  lemma {:induction false} CtesTree(env: Env, toks: seq<Token>, lo: nat, hi: nat, start: nat, recursive: bool,
                                    p: Progress, range: Range, parent: Option<Range>)
    requires |toks| == |env.lex| && env.Ready(lo, hi) && lo < start && Ordered(toks) && PlainNames(env)
             && Placed(toks, lo, hi, range)
    requires Declaring(toks, env, lo, hi, start, p, range, parent)
    ensures DeclaredStage(toks, env, lo, hi, Ctes(env, toks, lo, hi, start, recursive, p), range, parent)
    decreases hi - lo, 5, if start < hi then 2 * (hi - start) else 0
  {
    hide Declaration, MoreCtes, Ordered, PlainNames, Env.Ready, Placed, Declaring;
    if start < hi {
      DeclarationTree(env, toks, lo, hi, start, recursive, p, range, parent);
      MoreCtesTree(env, toks, lo, hi, start, recursive, Declaration(env, toks, lo, hi, start, recursive, p), range,
                   parent);
    }
  }

  lemma {:induction false} MoreCtesTree(env: Env, toks: seq<Token>, lo: nat, hi: nat, start: nat, recursive: bool,
                                        s: Stage, range: Range, parent: Option<Range>)
    requires |toks| == |env.lex| && env.Ready(lo, hi) && lo < start < hi && Ordered(toks) && PlainNames(env)
             && Placed(toks, lo, hi, range)
    requires (s.Going? ==> start < s.at) && DeclaredStage(toks, env, lo, hi, s, range, parent)
    ensures DeclaredStage(toks, env, lo, hi, MoreCtes(env, toks, lo, hi, start, recursive, s), range, parent)
    decreases hi - lo, 5, 2 * (hi - start) - 1
  {
    hide Ctes, Ordered, PlainNames, Placed, Planted, OnlyBodies;
    if s.Going? && env.Comma(s.at) {
      RegionOn(env, lo, hi, s.at, s.p);
      hide Env.Ready, Region;
      CtesTree(env, toks, lo, hi, s.at + 1, recursive, s.p, range, parent);
    }
  }

  lemma {:induction false} DeclarationTree(env: Env, toks: seq<Token>, lo: nat, hi: nat, start: nat, recursive: bool,
                                           p: Progress, range: Range, parent: Option<Range>)
    requires |toks| == |env.lex| && env.Ready(lo, hi) && lo < start < hi && Ordered(toks) && PlainNames(env)
             && Placed(toks, lo, hi, range)
    requires Declaring(toks, env, lo, hi, start, p, range, parent)
    ensures DeclaredStage(toks, env, lo, hi, Declaration(env, toks, lo, hi, start, recursive, p), range, parent)
    decreases hi - lo, 4, 0
  {
    hide Child, Ordered, PlainNames, Placed, HeaderOf, WithCte, Grown, Env.EndMark;
    match HeaderOf(env, start)
    case BadCte(reason) => FailEnds(toks, env, p, reason, range, parent);
    case CteHeader(aliases, open) =>
      HeaderInside(env, toks, lo, hi, start);
      HeaderPassed(env, lo, hi, start);
      ChildTree(env, toks, lo, hi, open, CteBlock, p.block.id);
      match Child(env, toks, lo, hi, open, CteBlock, p.block.id)
      case Throws =>
      case Parsed(blocks) =>
        WithCteTree(env, toks, lo, hi, start, open, aliases, recursive, p, blocks, range, parent);
  }

  lemma WithCteTree(env: Env, toks: seq<Token>, lo: nat, hi: nat, start: nat, open: nat, aliases: Option<seq<Column>>,
                    recursive: bool, p: Progress, blocks: seq<Block>, range: Range, parent: Option<Range>)
    requires |toks| == |env.lex| && env.Ready(lo, hi) && lo < start < open < hi && env.Open(open)
             && env.pairs[open] < hi
    requires Ordered(toks) && Placed(toks, lo, hi, range) && Declaring(toks, env, lo, hi, start, p, range, parent)
    requires env.Closed(lo, open) && forall x | x in env.pairs && start <= x < open :: Bare(env, x)
    requires Tree(toks, blocks, Between(toks, open, env.pairs[open]), Some(range)) && blocks != []
    ensures Declaring(toks, env, lo, hi, env.pairs[open] + 1, WithCte(env, start, open, aliases, recursive, p, blocks),
                      range, parent)
  {
    hide Planted, OnlyBodies, Tree, Placed, Ordered, Bare;
    var name := env.Name(start);
    BodyFits(env, toks, lo, hi, start, open, p, blocks, Cte(name.name, name.quoted, aliases, blocks[0].id, recursive),
             range, parent);
    RegionMoves(toks, env, lo, hi, start, open, p);
    hide Region;
  }

  lemma BodyFits(env: Env, toks: seq<Token>, lo: nat, hi: nat, start: nat, open: nat, p: Progress, blocks: seq<Block>,
                 cte: Cte, range: Range, parent: Option<Range>)
    requires |toks| == |env.lex| && env.Ready(lo, hi) && lo < start < open < hi && env.Open(open)
             && env.pairs[open] < hi
    requires Ordered(toks) && Placed(toks, lo, hi, range) && Declaring(toks, env, lo, hi, start, p, range, parent)
    requires Tree(toks, blocks, Between(toks, open, env.pairs[open]), Some(range)) && cte.bodyScopeId == blocks[0].id
    ensures var q := AddCte(AddChild(p, blocks, open), cte);
            Planted(toks, env, q, range, parent) && OnlyBodies(q.block, q.below) && q.owned == p.owned + {open}
  {
    var r := Between(toks, open, env.pairs[open]);
    BodiesEnd(toks, env, p, range, parent, open);
    BehindFresh(env, lo, open, p.owned);
    assert BodiesBefore(toks, p.block, open) && toks[open].start < toks[open].end;
    hide Env.Ready, Region, Fresh, Held, OnlyBodies;
    AddInside(toks, env, lo, hi, p, range, parent, open, blocks);
    hide Ordered, Placed, Grown;
    AddDeclared(toks, p.block, p.below, blocks, r, cte);
  }

  // ---- the query ----

  lemma {:induction false} QueryTree(env: Env, toks: seq<Token>, lo: nat, hi: nat, range: Range, s: Stage,
                                     parent: Option<Range>)
    requires |toks| == |env.lex| && env.Ready(lo, hi) && (s.Going? ==> lo <= s.at)
    requires Ordered(toks) && PlainNames(env) && Placed(toks, lo, hi, range)
             && DeclaredStage(toks, env, lo, hi, s, range, parent)
    ensures Ended(toks, Query(env, toks, lo, hi, range, s), range, parent)
    decreases hi - lo, 8, 0
  {
    hide Compound, Select, Ordered, PlainNames, Placed, Region, Planted, OnlyBodies;
    if s.Going? {
      if env.W(s.at) != SELECT || s.at >= hi { FailEnds(toks, env, s.p, UnsupportedStatement, range, parent); }
      else {
        var top := env.Top(s.at, hi);
        var sets := env.SetOperators(top);
        if sets != [] { CompoundTree(env, toks, lo, hi, range, s.at, top, sets, s.p, parent); }
        else { SelectTree(env, toks, lo, hi, range, s.at, top, s.p, parent); }
      }
    }
  }

  // ---- set operations ----

  /** The state between two branches. */
  ghost predicate Branching(toks: seq<Token>, first: nat, at: nat, p: Progress, range: Range, parent: Option<Range>) {
    && p.block.id == range && p.block.parentId == parent && Grown(toks, p.block, p.below)
       && BodiesBefore(toks, p.block, first)
    && (at < |toks| ==> forall b | b in p.below :: b.id.start <= b.id.end < toks[at].start)
  }

  lemma {:induction false} CompoundTree(env: Env, toks: seq<Token>, lo: nat, hi: nat, range: Range, at: nat,
                                        top: seq<nat>, sets: seq<nat>, p: Progress, parent: Option<Range>)
    requires |toks| == |env.lex| && env.Ready(lo, hi) && lo <= at < hi && top == env.Top(at, hi)
    requires sets == env.SetOperators(top) && sets != []
    requires Ordered(toks) && PlainNames(env) && Placed(toks, lo, hi, range)
    requires Declaring(toks, env, lo, hi, at, p, range, parent)
    ensures Ended(toks, Compound(env, toks, lo, hi, range, at, top, sets, p), range, parent)
    decreases hi - lo, 7, 0
  {
    hide Branches, Ordered, PlainNames, Placed, Planted, OnlyBodies, Passed, Bare, Env.EndMark;
    var order := env.OrderAfter(top, sets[|sets| - 1]);
    var finish := if order.Some? then order.value else hi;
    var compound := p.(block := p.block.(kind := CompoundBlock, setBranchIds := Some([])));
    BoundsDivide(env, toks, at, hi, top, sets, finish);
    BodiesEnd(toks, env, p, range, parent, at);
    CompoundStarts(toks, env, p, at, range, parent);
    hide Env.Ready, Env.Top, Env.SetOperators, Env.OrderAfter, Divides, Declaring, Branching, BodiesBefore;
    BranchesTree(env, toks, lo, hi, range, sets + [finish], 0, at, at, compound, parent);
    ClauseEnds(toks, order, range, Branches(env, toks, lo, hi, range, sets + [finish], 0, at, at, compound), parent);
  }

  lemma CompoundStarts(toks: seq<Token>, env: Env, p: Progress, at: nat, range: Range, parent: Option<Range>)
    requires Planted(toks, env, p, range, parent) && BodiesBefore(toks, p.block, at)
    requires at < |toks| ==> forall b | b in p.below :: b.id.start <= b.id.end < toks[at].start
    ensures Branching(toks, at, at, p.(block := p.block.(kind := CompoundBlock, setBranchIds := Some([]))), range,
                      parent)
  {
    assert ItemsOf(toks, p.block.(kind := CompoundBlock, setBranchIds := Some([]))) by {
      assert Settled(toks, p.block, p.below);
    }
    hide Rooted, DistinctIds, ItemsOf;
  }

  lemma ClauseEnds(toks: seq<Token>, order: Option<nat>, range: Range, s: Stage, parent: Option<Range>)
    requires (order.Some? ==> order.value < |toks|) && Ended(toks, s, range, parent)
    ensures Ended(toks, WithOrder(toks, order, range, s), range, parent)
  {
    hide Rooted, DistinctIds;
  }

  lemma {:induction false} BranchesTree(env: Env, toks: seq<Token>, lo: nat, hi: nat, range: Range, bounds: seq<nat>,
                                        k: nat, first: nat, at: nat, p: Progress, parent: Option<Range>)
    requires |toks| == |env.lex| && env.Ready(lo, hi) && k <= |bounds| && lo <= first && Divides(env, first, hi, bounds)
    requires at == if k == 0 then first else env.AfterDistinct(bounds[k - 1] + 1)
    requires p.block.setBranchIds.Some? && first < hi
    requires Ordered(toks) && PlainNames(env) && Placed(toks, lo, hi, range)
             && Branching(toks, first, at, p, range, parent)
    ensures Ended(toks, Branches(env, toks, lo, hi, range, bounds, k, first, at, p), range, parent)
    decreases hi - lo, 5, 2 * (|bounds| - k)
  {
    hide Branch, MoreBranches, Ordered, PlainNames, Placed, Env.Ready, Divides, BodiesBefore, Grown;
    if k < |bounds| && at < |toks| {
      BranchTree(env, toks, lo, hi, range, bounds, k, first, at, p.block.id);
      MoreBranchesTree(env, toks, lo, hi, range, bounds, k, first, at, p,
                       Branch(env, toks, lo, hi, range, bounds, k, first, at, p.block.id), parent);
    }
  }

  /** A branch's range lies in that of the set operation, and is not all of it. */
  lemma BranchPlaced(env: Env, toks: seq<Token>, lo: nat, hi: nat, range: Range, bounds: seq<nat>, k: nat, first: nat,
                     at: nat)
    requires |toks| == |env.lex| && env.Ready(lo, hi) && k < |bounds| && lo <= first < hi
             && Divides(env, first, hi, bounds)
    requires at == (if k == 0 then first else env.AfterDistinct(bounds[k - 1] + 1)) && at < |toks|
    requires Ordered(toks) && Placed(toks, lo, hi, range)
    ensures env.Ready(at, bounds[k]) && bounds[k] <= hi && first <= at
    ensures Placed(toks, at, bounds[k], BranchRange(toks, at, bounds[k], hi, range))
    ensures Under(BranchRange(toks, at, bounds[k], hi, range), range)
            && BranchRange(toks, at, bounds[k], hi, range).start == toks[at].start
    ensures env.AfterDistinct(bounds[k] + 1) > at
    ensures var next := env.AfterDistinct(bounds[k] + 1);
            next < |toks| ==> BranchRange(toks, at, bounds[k], hi, range).end < toks[next].start
  {
    BranchReady(env, toks, lo, hi, bounds, k, first, at);
    var b := bounds[k];
    assert b in bounds && (k > 0 ==> bounds[k - 1] in bounds && bounds[k - 1] < b)
           && (k + 1 < |bounds| ==> b < bounds[k + 1] && bounds[k + 1] in bounds);
    hide Env.Ready, Divides;
    var r := BranchRange(toks, at, b, hi, range);
    assert at <= b <= hi;
    if b < hi { assert toks[b].start < toks[b].end; }
    assert forall j | 0 <= j < |toks| :: toks[j].start < toks[j].end;
    assert toks[lo].start < toks[lo].end <= range.end;
    if at > lo && at < |toks| { assert toks[lo].end <= toks[at].start; }
  }

  lemma {:induction false} BranchTree(env: Env, toks: seq<Token>, lo: nat, hi: nat, range: Range, bounds: seq<nat>,
                                      k: nat, first: nat, at: nat, parent: Range)
    requires |toks| == |env.lex| && env.Ready(lo, hi) && k < |bounds| && lo <= first && Divides(env, first, hi, bounds)
    requires at == (if k == 0 then first else env.AfterDistinct(bounds[k - 1] + 1)) && at < |toks| && first < hi
    requires Ordered(toks) && PlainNames(env) && Placed(toks, lo, hi, range)
    ensures bounds[k] <= hi
    ensures var r := Branch(env, toks, lo, hi, range, bounds, k, first, at, parent);
            r.Parsed? ==> Tree(toks, r.value, BranchRange(toks, at, bounds[k], hi, range), Some(parent))
    decreases hi - lo, 4, 0
  {
    BranchReady(env, toks, lo, hi, bounds, k, first, at);
    BranchPlaced(env, toks, lo, hi, range, bounds, k, first, at);
    hide Parse, Env.Ready, PlainNames, Tree, Placed, Ordered;
    ParseTree(env, toks, at, bounds[k], BranchRange(toks, at, bounds[k], hi, range), StatementBlock, Some(parent));
  }

  lemma {:induction false} MoreBranchesTree(env: Env, toks: seq<Token>, lo: nat, hi: nat, range: Range,
                                            bounds: seq<nat>, k: nat, first: nat, at: nat, p: Progress,
                                            branch: Outcome<seq<Block>>, parent: Option<Range>)
    requires |toks| == |env.lex| && env.Ready(lo, hi) && k < |bounds| && lo <= first && Divides(env, first, hi, bounds)
    requires at == (if k == 0 then first else env.AfterDistinct(bounds[k - 1] + 1)) && at < |toks| && first < hi
    requires p.block.setBranchIds.Some? && (branch.Parsed? ==> branch.value != []) && bounds[k] <= hi
    requires branch.Throws? ==> hi == |toks| && RunsOut(env)
    requires Ordered(toks) && PlainNames(env) && Placed(toks, lo, hi, range)
             && Branching(toks, first, at, p, range, parent)
    requires branch.Parsed? ==> Tree(toks, branch.value, BranchRange(toks, at, bounds[k], hi, range), Some(range))
    ensures Ended(toks, MoreBranches(env, toks, lo, hi, range, bounds, k, first, p, branch), range, parent)
    decreases hi - lo, 5, 2 * (|bounds| - k) - 1
  {
    hide Branching, Tree, Ordered, PlainNames, Placed, Env.Ready, Divides, Grown, Branches, BranchRange;
    if branch.Parsed? {
      BranchNext(env, toks, lo, hi, range, bounds, k, first, at, p, branch.value, parent);
      BranchesTree(env, toks, lo, hi, range, bounds, k + 1, first, env.AfterDistinct(bounds[k] + 1),
                   AddBranch(p, branch.value), parent);
    }
  }

  lemma BranchNext(env: Env, toks: seq<Token>, lo: nat, hi: nat, range: Range, bounds: seq<nat>, k: nat, first: nat,
                   at: nat, p: Progress, bs: seq<Block>, parent: Option<Range>)
    requires |toks| == |env.lex| && env.Ready(lo, hi) && k < |bounds| && lo <= first < hi
             && Divides(env, first, hi, bounds)
    requires at == (if k == 0 then first else env.AfterDistinct(bounds[k - 1] + 1)) && at < |toks| && bounds[k] <= hi
    requires p.block.setBranchIds.Some? && bs != [] && Ordered(toks) && Placed(toks, lo, hi, range)
    requires Branching(toks, first, at, p, range, parent)
             && Tree(toks, bs, BranchRange(toks, at, bounds[k], hi, range), Some(range))
    ensures Branching(toks, first, env.AfterDistinct(bounds[k] + 1), AddBranch(p, bs), range, parent)
    ensures AddBranch(p, bs).block.setBranchIds.Some?
  {
    BranchPlaced(env, toks, lo, hi, range, bounds, k, first, at);
    hide Env.Ready, Divides, Env.AfterDistinct, BranchRange, Under, Tree, Branching;
    BranchAdded(toks, first, at, env.AfterDistinct(bounds[k] + 1), p, bs, BranchRange(toks, at, bounds[k], hi, range),
                range, parent);
  }

  lemma BranchAdded(toks: seq<Token>, first: nat, at: nat, next: nat, p: Progress, bs: seq<Block>, r: Range,
                    range: Range, parent: Option<Range>)
    requires Ordered(toks) && Branching(toks, first, at, p, range, parent) && first <= at < |toks|
             && p.block.setBranchIds.Some?
    requires Tree(toks, bs, r, Some(range)) && Under(r, range) && r.start == toks[at].start
             && (next < |toks| ==> r.end < toks[next].start)
    requires next > at
    ensures Branching(toks, first, next, AddBranch(p, bs), range, parent)
  {
    assert forall c | c in p.block.ctes :: c.bodyScopeId.end < r.start by {
      if first < at { assert toks[first].start < toks[first].end <= toks[at].start; }
    }
    AddTree(toks, p.block, p.below, bs, r);
    BranchNamed(toks, p, bs, r);
    if next < |toks| {
      assert toks[at].start < toks[at].end <= toks[next].start;
      forall b | b in p.below + bs ensures b.id.start <= b.id.end < toks[next].start {
        if b in bs {
          var k :| 0 <= k < |bs| && bs[k] == b;
          TreeRange(toks, bs, r, Some(range), k);
        }
      }
    }
    hide Grown, Tree, Ordered;
  }

  lemma BranchNamed(toks: seq<Token>, p: Progress, bs: seq<Block>, r: Range)
    requires Grown(toks, p.block, p.below + bs) && ChildIn(p.below + bs, p.block.id, r) && bs != [] && bs[0].id == r
             && p.block.setBranchIds.Some?
    ensures var q := AddBranch(p, bs); Grown(toks, q.block, q.below)
  {
    var q := AddBranch(p, bs);
    assert ItemsOf(toks, q.block) by { assert Settled(toks, p.block, p.below + bs); }
    hide Rooted, DistinctIds, ItemsOf, ChildIn;
  }

  // ---- SELECT ----

  /** The state of the FROM list: owners are not enclosed, declarations lie before the SELECT. */
  ghost predicate Selecting(toks: seq<Token>, env: Env, lo: nat, from: nat, p: Progress) {
    && Passed(env, lo, from, p.owned) && BodiesBefore(toks, p.block, from)
    && forall o | o in p.owned :: o in env.pairs && lo <= o && env.Closed(lo, o)
  }

  ghost predicate SelectStage(toks: seq<Token>, env: Env, lo: nat, from: nat, s: Stage, range: Range,
                              parent: Option<Range>) {
    match s
    case Raised => true
    case Going(_, p) => Planted(toks, env, p, range, parent) && Selecting(toks, env, lo, from, p)
    case Finished(p) => Ended(toks, s, range, parent)
  }

  ghost predicate OwnersBefore(env: Env, owned: set<nat>, at: nat) {
    forall o | o in owned :: o in env.pairs && env.pairs[o] < at
  }

  lemma {:induction false} SlicesOf(toks: seq<Token>, from: nat, ends: seq<nat>)
    ensures forall item | item in Items(toks, from, ends) :: forall t | t in item :: t in toks
    decreases ends
  {
    if ends != [] { SlicesOf(toks, ends[0] + 1, ends[1..]); }
  }

  lemma HeadSound(env: Env, toks: seq<Token>, range: Range, hi: nat, at: nat, top: seq<nat>, p: Progress,
                  parent: Option<Range>)
    requires (forall k :: 0 <= k < |top| ==> top[k] < |toks|) && Planted(toks, env, p, range, parent)
    ensures var q := SelectHead(env, toks, range, hi, at, top, p);
            Planted(toks, env, q, range, parent) && q.owned == p.owned && q.block.ctes == p.block.ctes
  {
    var first := env.AfterDistinct(at + 1);
    SlicesOf(toks, first, env.Commas(top, first, env.ProjectionEnd(top, at, hi)) + [env.ProjectionEnd(top, at, hi)]);
    hide Clauses, Items, Planted, Env.Commas, Env.ProjectionEnd, Env.AfterDistinct;
    SameTree(toks, env, p, SelectHead(env, toks, range, hi, at, top, p), range, parent);
  }

  lemma {:induction false} SelectTree(env: Env, toks: seq<Token>, lo: nat, hi: nat, range: Range, at: nat,
                                      top: seq<nat>, p: Progress, parent: Option<Range>)
    requires |toks| == |env.lex| && env.Ready(lo, hi) && lo <= at < hi && top == env.Top(at, hi)
    requires Ordered(toks) && PlainNames(env) && Placed(toks, lo, hi, range)
             && Declaring(toks, env, lo, hi, at, p, range, parent)
    ensures Ended(toks, Select(env, toks, lo, hi, range, at, top, p), range, parent)
    decreases hi - lo, 7, 0
  {
    HeadSound(env, toks, range, hi, at, top, p, parent);
    BodiesEnd(toks, env, p, range, parent, at);
    var q := SelectHead(env, toks, range, hi, at, top, p);
    assert Selecting(toks, env, lo, at, q) && OwnersBefore(env, q.owned, at) && env.Closed(lo, at);
    hide Relations, AfterFrom, SelectHead, Ordered, PlainNames, Placed, Env.Ready, Env.FirstUnsupported, Planted,
         Selecting, Region, OnlyBodies;
    match env.FirstUnsupported(top)
    case Some(i) => FailEnds(toks, env, q, UnsupportedWord(env.W(i)), range, parent);
    case None =>
      RelationsTree(env, toks, lo, hi, at, top, 0, false, q, range, parent);
      AfterFromTree(env, toks, lo, hi, at, Relations(env, toks, lo, hi, top, 0, false, q), range, parent);
  }

  lemma {:induction false} RelationsTree(env: Env, toks: seq<Token>, lo: nat, hi: nat, from: nat, top: seq<nat>, k: nat,
                                         inFrom: bool, p: Progress, range: Range, parent: Option<Range>)
    requires |toks| == |env.lex| && env.Ready(lo, hi) && k <= |top| && lo <= from < hi && env.Closed(lo, from)
             && top == env.Top(from, hi)
    requires Ordered(toks) && PlainNames(env) && Placed(toks, lo, hi, range)
    requires Planted(toks, env, p, range, parent) && Selecting(toks, env, lo, from, p)
    requires k < |top| ==> OwnersBefore(env, p.owned, top[k])
    ensures SelectStage(toks, env, lo, from, Relations(env, toks, lo, hi, top, k, inFrom, p), range, parent)
    decreases hi - lo, 6, 2 * (|top| - k)
  {
    hide RelationAfter, MoreRelations, Ordered, PlainNames, Placed, Planted, Selecting, StopsFrom, Env.Ready;
    if k < |top| {
      var i := top[k];
      var still := inFrom && !StopsFrom(env.W(i));
      assert k + 1 < |top| ==> top[k] < top[k + 1];
      if !(env.W(i) == FROM || env.W(i) == JOIN || (still && env.Comma(i))) {
        RelationsTree(env, toks, lo, hi, from, top, k + 1, still, p, range, parent);
      } else {
        assert i in top;
        ClosedAtTop(env, lo, hi, from, i);
        RelationAfterTree(env, toks, lo, hi, from, i, p, range, parent);
        MoreRelationsTree(env, toks, lo, hi, from, top, k, RelationAfter(env, toks, lo, hi, i, p), range, parent);
      }
    }
  }

  lemma ClosedAtTop(env: Env, lo: nat, hi: nat, from: nat, i: nat)
    requires env.Ready(lo, hi) && lo <= from <= hi && env.Closed(lo, from) && i in env.Top(from, hi)
    ensures env.Closed(lo, i)
  {
    TopCloses(env, from, hi, i);
  }

  lemma {:induction false} SkipToPast(top: seq<nat>, k: nat, at: nat)
    requires k < |top|
    ensures var r := SkipTo(top, k, at); r + 1 < |top| ==> top[r + 1] >= at
    decreases |top| - k
  {
    if k + 1 < |top| && top[k + 1] < at { SkipToPast(top, k + 1, at); }
  }

  lemma {:induction false} MoreRelationsTree(env: Env, toks: seq<Token>, lo: nat, hi: nat, from: nat, top: seq<nat>,
                                             k: nat, s: Stage, range: Range, parent: Option<Range>)
    requires |toks| == |env.lex| && env.Ready(lo, hi) && k < |top| && lo <= from < hi && env.Closed(lo, from)
             && top == env.Top(from, hi)
    requires Ordered(toks) && PlainNames(env) && Placed(toks, lo, hi, range)
             && SelectStage(toks, env, lo, from, s, range, parent)
    requires s.Going? ==> forall o | o in s.p.owned :: o in env.pairs && (env.pairs[o] < s.at || env.pairs[o] <= top[k])
    ensures SelectStage(toks, env, lo, from, MoreRelations(env, toks, lo, hi, top, k, s), range, parent)
    decreases hi - lo, 6, 2 * (|top| - k) - 1
  {
    hide Relations, Ordered, PlainNames, Placed, Planted, Selecting, Env.Ready;
    if s.Going? {
      var next := SkipTo(top, k, s.at) + 1;
      SkipToPast(top, k, s.at);
      assert next < |top| ==> top[k] < top[next];
      RelationsTree(env, toks, lo, hi, from, top, next, true, s.p, range, parent);
    }
  }

  lemma ClosedOn(env: Env, lo: nat, hi: nat, i: nat)
    requires env.Ready(lo, hi) && lo <= i < hi && env.Closed(lo, i) && (env.W(i) != Other || env.Comma(i))
    ensures env.Closed(lo, i + 1)
  {
    assert !env.Open(i);
    assert forall x | x in env.pairs :: env.Open(x);
  }

  lemma {:induction false} RelationAfterTree(env: Env, toks: seq<Token>, lo: nat, hi: nat, from: nat, i: nat,
                                             p: Progress, range: Range, parent: Option<Range>)
    requires |toks| == |env.lex| && env.Ready(lo, hi) && lo <= from <= i < hi && env.Closed(lo, i)
    requires env.W(i) == FROM || env.W(i) == JOIN || env.Comma(i)
    requires Ordered(toks) && PlainNames(env) && Placed(toks, lo, hi, range)
    requires Planted(toks, env, p, range, parent) && Selecting(toks, env, lo, from, p) && OwnersBefore(env, p.owned, i)
    ensures var s := RelationAfter(env, toks, lo, hi, i, p);
            && SelectStage(toks, env, lo, from, s, range, parent)
            && (s.Going? ==> forall o | o in s.p.owned :: o in env.pairs && (env.pairs[o] < s.at || env.pairs[o] <= i))
    decreases hi - lo, 5, 0
  {
    var lateral := env.W(i + 1) == LATERAL;
    var at := if lateral then i + 2 else i + 1;
    hide Placed, Planted, Selecting, PlainNames, Ordered;
    if at < hi {
      ClosedOn(env, lo, hi, i);
      if lateral { ClosedOn(env, lo, hi, i + 1); }
      hide Relation, Ordered, PlainNames, Placed, Planted, Selecting, Env.Ready, Env.Closed;
      RelationTree(env, toks, lo, hi, from, at, lateral, p, range, parent);
    }
  }

  lemma {:induction false} RelationTree(env: Env, toks: seq<Token>, lo: nat, hi: nat, from: nat, at: nat, lateral: bool,
                                        p: Progress, range: Range, parent: Option<Range>)
    requires |toks| == |env.lex| && env.Ready(lo, hi) && lo <= from < at < hi && env.Closed(lo, at)
    requires Ordered(toks) && PlainNames(env) && Placed(toks, lo, hi, range)
    requires Planted(toks, env, p, range, parent) && Selecting(toks, env, lo, from, p) && OwnersBefore(env, p.owned, at)
    ensures var s := Relation(env, toks, lo, hi, at, lateral, p);
            && SelectStage(toks, env, lo, from, s, range, parent)
            && (s.Going? ==> forall o | o in s.p.owned :: o in env.pairs && (env.pairs[o] < s.at || env.pairs[o] < at))
    decreases hi - lo, 4, 0
  {
    if env.Open(at) {
      hide OpenRelation, Ordered, PlainNames, Placed, Planted, Selecting, Env.Ready, Env.Closed;
      OpenRelationTree(env, toks, lo, hi, from, at, lateral, p, range, parent);
    } else {
      NamedTree(env, toks, lo, from, at, lateral, p, range, parent);
    }
  }

  lemma NamedTree(env: Env, toks: seq<Token>, lo: nat, from: nat, at: nat, lateral: bool, p: Progress, range: Range,
                  parent: Option<Range>)
    requires |toks| == |env.lex| && Nested(env.lex, env.pairs) && at < |toks|
    requires Planted(toks, env, p, range, parent) && Selecting(toks, env, lo, from, p)
    ensures var s := Named(env, toks[at].start, at, lateral, p);
            SelectStage(toks, env, lo, from, s, range, parent) && (s.Going? ==> s.p.owned == p.owned)
  {
    if !env.Identifier(at) {
      FailEnds(toks, env, p, InvalidRelation, range, parent);
    } else {
      match NamedAt(env, at)
      case None => FailEnds(toks, env, p, UnsupportedSource, range, parent);
      case Some(named) =>
        assert named.tail.columns.None?;
        hide NamedAt;
        RefAdded(toks, env, p, NamedRef(toks[at].start, named, lateral), range, parent);
    }
  }

  lemma RefAdded(toks: seq<Token>, env: Env, p: Progress, ref: FromRef, range: Range, parent: Option<Range>)
    requires Planted(toks, env, p, range, parent)
    requires if ref.bodyScopeId.Some? then ChildIn(p.below, range, ref.bodyScopeId.value) else ref.columnAliases.None?
    ensures Planted(toks, env, AddRef(p, ref), range, parent)
  {
    assert ItemsOf(toks, AddRef(p, ref).block) by { assert Settled(toks, p.block, p.below); }
    hide Rooted, DistinctIds, ItemsOf, ChildIn, Held;
  }

  lemma {:induction false} OpenRelationTree(env: Env, toks: seq<Token>, lo: nat, hi: nat, from: nat, at: nat,
                                            lateral: bool, p: Progress, range: Range, parent: Option<Range>)
    requires |toks| == |env.lex| && env.Ready(lo, hi) && lo <= from < at < hi && env.Open(at) && env.Closed(lo, at)
    requires Ordered(toks) && PlainNames(env) && Placed(toks, lo, hi, range)
    requires Planted(toks, env, p, range, parent) && Selecting(toks, env, lo, from, p) && OwnersBefore(env, p.owned, at)
    ensures var s := OpenRelation(env, toks, lo, hi, at, lateral, p);
            && SelectStage(toks, env, lo, from, s, range, parent)
            && (s.Going? ==> forall o | o in s.p.owned :: o in env.pairs && (env.pairs[o] < s.at || env.pairs[o] < at))
    decreases hi - lo, 3, 0
  {
    if !IsQuery(env.W(at + 1)) {
      FailEnds(toks, env, p, UnsupportedParenthesizedFrom, range, parent);
    } else {
      var kind := if lateral then LateralBlock else DerivedBlock;
      ChildReady(env, toks, lo, hi, at);
      hide Child, PlainNames, Finish;
      ChildTree(env, toks, lo, hi, at, kind, p.block.id);
      match Child(env, toks, lo, hi, at, kind, p.block.id)
      case Throws =>
      case Parsed(blocks) => DerivedTree(env, toks, lo, hi, from, at, lateral, p, blocks, range, parent);
    }
  }

  lemma TailAfter(env: Env, at: nat)
    requires Nested(env.lex, env.pairs)
    ensures DerivedTail(env, at).Some? ==> DerivedTail(env, at).value.at >= at
  {
  }

  lemma DerivedTree(env: Env, toks: seq<Token>, lo: nat, hi: nat, from: nat, at: nat, lateral: bool, p: Progress,
                    blocks: seq<Block>, range: Range, parent: Option<Range>)
    requires |toks| == |env.lex| && env.Ready(lo, hi) && lo <= from < at < hi && env.Open(at) && env.Closed(lo, at)
    requires env.pairs[at] < hi && Ordered(toks) && Placed(toks, lo, hi, range)
    requires Planted(toks, env, p, range, parent) && Selecting(toks, env, lo, from, p) && OwnersBefore(env, p.owned, at)
    requires Tree(toks, blocks, Between(toks, at, env.pairs[at]), Some(range)) && blocks != []
    ensures var s := Derived(env, toks[at].start, at, lateral, p, Parsed(blocks));
            && SelectStage(toks, env, lo, from, s, range, parent)
            && (s.Going? ==> forall o | o in s.p.owned :: o in env.pairs && (env.pairs[o] < s.at || env.pairs[o] < at))
  {
    hide Selecting, Planted, Ended, ChildIn, Grown, Ordered, Placed, DerivedTail, Env.EndMark;
    var q := AddChild(p, blocks, at);
    DerivedAdded(env, toks, lo, hi, from, at, p, blocks, range, parent);
    TailAfter(env, env.pairs[at] + 1);
    assert blocks[0].id == Between(toks, at, env.pairs[at]);
    hide Tree, Env.Ready, Env.Closed;
    match DerivedTail(env, env.pairs[at] + 1)
    case None => FailEnds(toks, env, q, InvalidDerivedColumns, range, parent);
    case Some(tail) =>
      var ref := DerivedRefOf(toks[at].start, blocks[0].id, tail, lateral);
      RefAdded(toks, env, q, ref, range, parent);
      SelectingSame(toks, env, lo, from, q, AddRef(q, ref));
  }

  lemma DerivedAdded(env: Env, toks: seq<Token>, lo: nat, hi: nat, from: nat, at: nat, p: Progress, blocks: seq<Block>,
                     range: Range, parent: Option<Range>)
    requires |toks| == |env.lex| && env.Ready(lo, hi) && lo <= from < at < hi && env.Open(at) && env.Closed(lo, at)
    requires env.pairs[at] < hi && Ordered(toks) && Placed(toks, lo, hi, range)
    requires Planted(toks, env, p, range, parent) && Selecting(toks, env, lo, from, p) && OwnersBefore(env, p.owned, at)
    requires Tree(toks, blocks, Between(toks, at, env.pairs[at]), Some(range))
    ensures var q := AddChild(p, blocks, at);
            && Planted(toks, env, q, range, parent) && Selecting(toks, env, lo, from, q)
            && ChildIn(q.below, range, Between(toks, at, env.pairs[at]))
  {
    BehindFresh(env, lo, at, p.owned);
    BodiesLater(toks, p.block, from, at);
    hide Planted, Tree, Fresh, BodiesBefore, Passed;
    AddInside(toks, env, lo, hi, p, range, parent, at, blocks);
    hide Ordered, Placed;
    SelectingMore(toks, env, lo, from, p, at, AddChild(p, blocks, at));
  }

  lemma BodiesLater(toks: seq<Token>, block: Block, from: nat, at: nat)
    requires Ordered(toks) && from <= at < |toks| && BodiesBefore(toks, block, from)
    ensures BodiesBefore(toks, block, at)
  {
    if from < at { assert toks[from].start < toks[from].end <= toks[at].start; }
  }

  lemma PassedMore(env: Env, lo: nat, at: nat, owned: set<nat>, open: nat)
    requires Passed(env, lo, at, owned)
    ensures Passed(env, lo, at, owned + {open})
  {
    forall x | x in env.pairs && lo <= x < at
      ensures x in owned + {open} || Bare(env, x)
              || exists o | o in owned + {open} :: o in env.pairs && o < x < env.pairs[o]
    {
      if o :| o in owned && o in env.pairs && o < x < env.pairs[o] { assert o in owned + {open}; }
    }
  }

  lemma SelectingMore(toks: seq<Token>, env: Env, lo: nat, from: nat, p: Progress, at: nat, q: Progress)
    requires Selecting(toks, env, lo, from, p) && q.owned == p.owned + {at} && q.block == p.block
    requires at in env.pairs && lo <= at && env.Closed(lo, at)
    ensures Selecting(toks, env, lo, from, q)
  {
    PassedMore(env, lo, from, p.owned, at);
    hide Env.Closed, Passed;
  }

  lemma SelectingSame(toks: seq<Token>, env: Env, lo: nat, from: nat, p: Progress, q: Progress)
    requires Selecting(toks, env, lo, from, p) && q.owned == p.owned && q.block.ctes == p.block.ctes
    ensures Selecting(toks, env, lo, from, q)
  {
    hide Env.Closed, Passed;
  }

  // ---- expressions ----

  lemma {:induction false} AfterFromTree(env: Env, toks: seq<Token>, lo: nat, hi: nat, from: nat, s: Stage,
                                         range: Range, parent: Option<Range>)
    requires |toks| == |env.lex| && env.Ready(lo, hi) && lo <= from < hi && env.Closed(lo, from)
    requires Ordered(toks) && PlainNames(env) && Placed(toks, lo, hi, range)
             && SelectStage(toks, env, lo, from, s, range, parent)
    ensures Ended(toks, AfterFrom(env, toks, lo, hi, s), range, parent)
    decreases hi - lo, 4, 0
  {
    if s.Going? {
      OwnersAside(env, lo, s.p.owned);
      SkipDeclarations(env, toks, lo, lo, from, hi, s.p);
      OwnersAsideFrom(env, lo, from, s.p.owned);
      assert env.Ready(from, hi);
      hide Expressions, Ordered, PlainNames, Planted, Env.Ready, Env.Closed, AllAside, Grown, BodiesBefore;
      ExpressionsTree(env, toks, from, hi, lo, hi, s.p, range, parent);
    }
  }

  lemma OwnersAside(env: Env, lo: nat, owned: set<nat>)
    requires forall o | o in owned :: o in env.pairs && lo <= o && env.Closed(lo, o)
    ensures AllAside(env, lo, owned)
  {
  }

  lemma OwnersAsideFrom(env: Env, lo: nat, from: nat, owned: set<nat>)
    requires (forall o | o in owned :: o in env.pairs && lo <= o && env.Closed(lo, o)) && lo <= from
             && env.Closed(lo, from)
    ensures AllAside(env, from, owned)
  {
  }

  /** Owners stay aside as the walk goes past a token. */
  lemma AsideOn(env: Env, begin: nat, next: nat, owned: set<nat>)
    requires AllAside(env, begin, owned) && (forall o | o in env.pairs :: env.Open(o) && o < env.pairs[o])
    requires if env.Open(begin) then begin in env.pairs && next == env.pairs[begin] + 1 else next == begin + 1
    ensures AllAside(env, next, owned)
  {
    forall o | o in owned ensures Aside(env, next, o) { assert Aside(env, begin, o); }
  }

  lemma {:induction false} NoOpens(env: Env, toks: seq<Token>, begin: nat, end: nat, p: Progress)
    requires |toks| == |env.lex| && env.Ready(begin, end) && forall y | y in env.pairs :: !(begin <= y < end)
    ensures Expressions(env, toks, begin, end, p) == Going(0, p)
    decreases end - begin
  {
    if begin < end { NoOpens(env, toks, begin + 1, end, p); }
  }

  lemma FindsNone(env: Env, toks: seq<Token>, lo: nat, begin: nat, from: nat, hi: nat, p: Progress)
    requires |toks| == |env.lex| && lo <= begin < from <= hi && env.Ready(begin, hi) && env.Open(begin)
    requires Passed(env, lo, from, p.owned) && AllAside(env, begin, p.owned)
    ensures Expression(env, toks, begin, hi, p) == Going(0, p)
  {
    if begin !in p.owned {
      forall o | o in p.owned && o in env.pairs ensures !(o < begin < env.pairs[o]) { assert Aside(env, begin, o); }
      assert Bare(env, begin);
      hide AllAside, Passed;
      ChildReady(env, toks, begin, hi, begin);
      NoOpens(env, toks, begin + 1, env.pairs[begin], p);
    }
  }

  lemma StepOver(env: Env, toks: seq<Token>, begin: nat, hi: nat, p: Progress)
    requires |toks| == |env.lex| && env.Ready(begin, hi) && begin < hi && env.Open(begin)
    requires Expression(env, toks, begin, hi, p) == Going(0, p)
    ensures begin in env.pairs && begin < env.pairs[begin] < hi && env.Ready(env.pairs[begin] + 1, hi)
    ensures Expressions(env, toks, begin, hi, p) == Expressions(env, toks, env.pairs[begin] + 1, hi, p)
  {
    hide Expression;
    ChildReady(env, toks, begin, hi, begin);
  }

  /** Among the declarations there is nothing for the walk through the expressions to find. */
  lemma {:induction false} SkipDeclarations(env: Env, toks: seq<Token>, lo: nat, begin: nat, from: nat, hi: nat,
                                            p: Progress)
    requires |toks| == |env.lex| && lo <= begin <= from <= hi && env.Ready(begin, hi) && env.Closed(begin, from)
    requires Passed(env, lo, from, p.owned) && AllAside(env, begin, p.owned)
    ensures env.Ready(from, hi) && Expressions(env, toks, begin, hi, p) == Expressions(env, toks, from, hi, p)
    decreases from - begin
  {
    if begin < from {
      var next := if env.Open(begin) then env.pairs[begin] + 1 else begin + 1;
      AsideOn(env, begin, next, p.owned);
      hide AllAside, Passed;
      if env.Open(begin) {
        FindsNone(env, toks, lo, begin, from, hi, p);
        StepOver(env, toks, begin, hi, p);
      }
      hide Expression, MoreExpressions;
      SkipDeclarations(env, toks, lo, next, from, hi, p);
    }
  }

  ghost predicate WalkedStage(toks: seq<Token>, env: Env, end: nat, p: Progress, s: Stage, range: Range,
                              parent: Option<Range>) {
    match s
    case Raised => true
    case Going(_, q) => Planted(toks, env, q, range, parent) && AllAside(env, end, q.owned) && q.block == p.block
    case Finished(q) => Ended(toks, s, range, parent)
  }

  lemma {:induction false} ExpressionsTree(env: Env, toks: seq<Token>, begin: nat, end: nat, lo: nat, hi: nat,
                                           p: Progress, range: Range, parent: Option<Range>)
    requires |toks| == |env.lex| && env.Ready(begin, end) && lo <= begin && end <= hi && env.Ready(lo, hi)
    requires Ordered(toks) && PlainNames(env) && Placed(toks, lo, hi, range)
    requires Planted(toks, env, p, range, parent) && AllAside(env, begin, p.owned) && BodiesBefore(toks, p.block, begin)
    ensures WalkedStage(toks, env, end, p, Expressions(env, toks, begin, end, p), range, parent)
    decreases end - begin, 3, 0
  {
    hide Expression, MoreExpressions, Ordered, PlainNames, Placed, Planted;
    if begin < end {
      if !env.Open(begin) {
        AsideOn(env, begin, begin + 1, p.owned);
        LaterStill(toks, p.block, begin, begin + 1);
        hide AllAside, BodiesBefore;
        ExpressionsTree(env, toks, begin + 1, end, lo, hi, p, range, parent);
      } else {
        ChildReady(env, toks, begin, end, begin);
        hide Env.Ready, AllAside, BodiesBefore;
        ExpressionTree(env, toks, begin, end, lo, hi, p, range, parent);
        MoreExpressionsTree(env, toks, begin, end, lo, hi, p, Expression(env, toks, begin, end, p), range, parent);
      }
    }
  }

  lemma ReadyBehind(env: Env, begin: nat, end: nat)
    requires env.Ready(begin, end) && begin in env.pairs && begin < env.pairs[begin] < end
    ensures env.Ready(env.pairs[begin] + 1, end)
  {
  }

  lemma LaterStill(toks: seq<Token>, block: Block, from: nat, at: nat)
    requires Ordered(toks) && from <= at && BodiesBefore(toks, block, from)
    ensures BodiesBefore(toks, block, at)
  {
    if at < |toks| { BodiesLater(toks, block, from, at); }
  }

  lemma {:induction false} MoreExpressionsTree(env: Env, toks: seq<Token>, begin: nat, end: nat, lo: nat, hi: nat,
                                               p: Progress, s: Stage, range: Range, parent: Option<Range>)
    requires |toks| == |env.lex| && env.Ready(begin, end) && begin < end && env.Open(begin) && lo <= begin && end <= hi
             && env.Ready(lo, hi)
    requires Ordered(toks) && PlainNames(env) && Placed(toks, lo, hi, range) && begin in env.pairs
             && begin < env.pairs[begin] < end
    requires WalkedStage(toks, env, env.pairs[begin] + 1, p, s, range, parent) && BodiesBefore(toks, p.block, begin)
    ensures WalkedStage(toks, env, end, p, MoreExpressions(env, toks, begin, end, s), range, parent)
    decreases end - begin, 2, 0
  {
    if s.Going? {
      hide Expressions, Ordered, PlainNames, Placed, Planted, AllAside, BodiesBefore, Env.Ready;
      LaterStill(toks, p.block, begin, env.pairs[begin] + 1);
      ReadyBehind(env, begin, end);
      ExpressionsTree(env, toks, env.pairs[begin] + 1, end, lo, hi, s.p, range, parent);
    }
  }

  lemma {:induction false} ExpressionTree(env: Env, toks: seq<Token>, begin: nat, end: nat, lo: nat, hi: nat,
                                          p: Progress, range: Range, parent: Option<Range>)
    requires |toks| == |env.lex| && env.Ready(begin, end) && begin < end && env.Open(begin) && lo <= begin && end <= hi
             && env.Ready(lo, hi)
    requires Ordered(toks) && PlainNames(env) && Placed(toks, lo, hi, range) && begin in env.pairs
             && begin < env.pairs[begin] < end
    requires Planted(toks, env, p, range, parent) && AllAside(env, begin, p.owned) && BodiesBefore(toks, p.block, begin)
    ensures WalkedStage(toks, env, env.pairs[begin] + 1, p, Expression(env, toks, begin, end, p), range, parent)
    decreases end - begin, 2, 0
  {
    var close := env.pairs[begin];
    AsideOn(env, begin, close + 1, p.owned) by { assert forall o | o in env.pairs :: env.Open(o) && o < env.pairs[o]; }
    if begin !in p.owned {
      if IsQuery(env.W(begin + 1)) {
        AsideFresh(env, begin, p.owned);
        assert p.block.id == range;
        hide Child, PlainNames, Planted, AllAside, Placed, BodiesBefore, Fresh, Ordered;
        ChildTree(env, toks, begin, end, begin, ExpressionBlock, range);
        match Child(env, toks, begin, end, begin, ExpressionBlock, range)
        case Throws =>
        case Parsed(blocks) =>
          hide Tree;
          AddInside(toks, env, lo, hi, p, range, parent, begin, blocks);
          OneMoreAside(env, begin, p.owned);
      } else {
        ChildReady(env, toks, begin, end, begin);
        InnerAside(env, begin, p.owned);
        LaterStill(toks, p.block, begin, begin + 1);
        hide Expressions, Ordered, PlainNames, Placed, Planted, BodiesBefore, AllAside, Env.Ready;
        ExpressionsTree(env, toks, begin + 1, close, lo, hi, p, range, parent);
        var s := Expressions(env, toks, begin + 1, close, p);
        if s.Going? { OuterAside(env, close, s.p.owned); }
      }
    }
  }

  lemma OneMoreAside(env: Env, open: nat, owned: set<nat>)
    requires open in env.pairs && AllAside(env, env.pairs[open] + 1, owned)
    ensures AllAside(env, env.pairs[open] + 1, owned + {open})
  {
  }

  lemma AsideFresh(env: Env, open: nat, owned: set<nat>)
    requires open in env.pairs && open !in owned && AllAside(env, open, owned) && open < env.pairs[open]
    ensures Fresh(env, owned, open)
  {
    forall o | o in owned ensures o in env.pairs && (env.pairs[o] < open || env.pairs[open] < o) {
      assert Aside(env, open, o);
    }
  }

  /** Entering a parenthesis without owner, and leaving it. */
  lemma InnerAside(env: Env, open: nat, owned: set<nat>)
    requires open in env.pairs && open !in owned && AllAside(env, open, owned)
    ensures AllAside(env, open + 1, owned)
  {
    forall o | o in owned ensures Aside(env, open + 1, o) { assert Aside(env, open, o); }
  }

  lemma OuterAside(env: Env, close: nat, owned: set<nat>)
    requires AllAside(env, close, owned) && IsClose(env.lex, close) && forall o | o in env.pairs :: env.Open(o)
    ensures AllAside(env, close + 1, owned)
  {
    forall o | o in owned ensures Aside(env, close + 1, o) { assert Aside(env, close, o); }
  }
}
