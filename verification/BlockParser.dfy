/** The recursive descent over query blocks; descendants are listed in the order they are met. */
module BlockParser {
  import opened SqlText
  import opened Tokenizer
  import opened ScopeParser

  /** A block being filled in, the blocks below it so far, and the parentheses that have an owner. */
  datatype Progress = Progress(block: Block, below: seq<Block>, owned: set<nat>)

  /** How a stage ends: at a token, with the block finished, or with the source's exception. */
  datatype Stage = Going(at: nat, p: Progress) | Finished(p: Progress) | Raised

  function NewBlock(range: Range, kind: BlockKind, parent: Option<Range>): Block {
    Block(range, parent, range, kind, [], [], [], [], None, false, None)
  }

  /** Giving up keeps what was found, except the relations. */
  function Fail(p: Progress, reason: Reason): Progress {
    p.(block := p.block.(unsupported := Some(reason), from := []))
  }

  function AddChild(p: Progress, blocks: seq<Block>, open: nat): Progress {
    p.(below := p.below + blocks, owned := p.owned + {open})
  }

  function AddCte(p: Progress, cte: Cte): Progress {
    p.(block := p.block.(ctes := p.block.ctes + [cte]))
  }

  function AddRef(p: Progress, ref: FromRef): Progress {
    p.(block := p.block.(from := p.block.from + [ref]))
  }

  function AddClause(p: Progress, c: Clause): Progress {
    p.(block := p.block.(clauses := p.block.clauses + [c]))
  }

  /** A set operation's branch: its blocks and its identifier. */
  function AddBranch(p: Progress, blocks: seq<Block>): Progress
    requires blocks != [] && p.block.setBranchIds.Some?
  {
    Progress(p.block.(setBranchIds := Some(p.block.setBranchIds.value + [blocks[0].id])), p.below + blocks, p.owned)
  }

  function Between(toks: seq<Token>, open: nat, close: nat): Range
    requires open < |toks| && close < |toks|
  {
    Range(toks[open].end, toks[close].start)
  }

  /** The clauses of a block; each runs to the next one, the last to the end of the block. */
  function Clauses(env: Env, toks: seq<Token>, top: seq<nat>, end: int, seen: seq<Clause>): seq<Clause>
    requires forall k :: 0 <= k < |top| ==> top[k] < |toks|
  {
    if top == [] then seen
    else match env.ClauseAt(top[0])
      case None => Clauses(env, toks, top[1..], end, seen)
      case Some(name) =>
        Clauses(env, toks, top[1..], end, NextClause(seen, name, toks[top[0]].start, end))
  }

  /** A clause begins where the one before it ends. */
  function NextClause(seen: seq<Clause>, name: ClauseName, at: int, end: int): seq<Clause> {
    (if seen == [] then [] else seen[..|seen| - 1] + [seen[|seen| - 1].(end := at)]) + [Clause(name, at, end)]
  }

  function Slice(toks: seq<Token>, from: nat, to: nat): seq<Token> {
    if from <= to <= |toks| then toks[from..to] else []
  }

  /** The select items: the stretches between the given ends. */
  function Items(toks: seq<Token>, from: nat, ends: seq<nat>): seq<seq<Token>>
    decreases ends
  {
    if ends == [] then [] else [Slice(toks, from, ends[0])] + Items(toks, ends[0] + 1, ends[1..])
  }

  function NamedRef(start: int, r: NamedRelation, lateral: bool): FromRef {
    FromRef(start, TableRef, start, r.name.name, r.name.quoted, r.namespace, r.tail.alias, r.tail.columns, None,
            lateral)
  }

  function DerivedRefOf(start: int, body: Range, tail: RelationTail, lateral: bool): FromRef {
    FromRef(start, DerivedRef, start, [], false, None, tail.alias, tail.columns, Some(body), lateral)
  }

  function SkipTo(top: seq<nat>, k: nat, at: nat): (r: nat)
    requires k < |top|
    ensures k <= r < |top|
    decreases |top| - k
  {
    if k + 1 < |top| && top[k + 1] < at then SkipTo(top, k + 1, at) else k
  }

  function StopsFrom(w: Word): bool {
    w in {WHERE, GROUP, HAVING, ORDER} || IsTail(w)
  }

  /** The tokens end where a set operation's next branch would begin. */
  predicate RunsOut(env: Env) {
    var n := |env.lex|;
    || (n >= 1 && IsSet(env.W(n - 1)))
    || (n >= 2 && IsSet(env.W(n - 2)) && (env.W(n - 1) == ALL || env.W(n - 1) == DISTINCT))
  }

  function Parse(env: Env, toks: seq<Token>, lo: nat, hi: nat, range: Range, kind: BlockKind, parent: Option<Range>)
    : (r: Outcome<seq<Block>>)
    requires |toks| == |env.lex| && env.Ready(lo, hi)
    ensures r.Parsed? ==> r.value != [] && r.value[0].id == range
    ensures r.Throws? ==> hi == |toks| && RunsOut(env)
    decreases hi - lo, 9, 0
  {
    match Query(env, toks, lo, hi, range,
                Declarations(env, toks, lo, hi, Progress(NewBlock(range, kind, parent), [], {})))
    case Raised => Throws
    case Going(_, q) => Parsed([q.block] + q.below)
    case Finished(q) => Parsed([q.block] + q.below)
  }

  /** The query inside a parenthesis of the interval. */
  function Child(env: Env, toks: seq<Token>, lo: nat, hi: nat, open: nat, kind: BlockKind, parent: Range)
    : (r: Outcome<seq<Block>>)
    requires |toks| == |env.lex| && env.Ready(lo, hi) && lo <= open <= hi && env.Open(open)
    ensures r.Parsed? && r.value != []
    decreases hi - lo, 1, 0
  {
    ChildReady(env, toks, lo, hi, open);
    var close := env.pairs[open];
    Parse(env, toks, open + 1, close, Between(toks, open, close), kind, Some(parent))
  }

  function WithCte(env: Env, start: nat, open: nat, aliases: Option<seq<Column>>, recursive: bool, p: Progress,
                   blocks: seq<Block>)
    : (q: Progress)
    requires start < |env.lex| && blocks != []
    ensures q.block.id == p.block.id
  {
    var name := env.Name(start);
    AddCte(AddChild(p, blocks, open), Cte(name.name, name.quoted, aliases, blocks[0].id, recursive))
  }

  /** A WITH clause, if there is one. */
  function Declarations(env: Env, toks: seq<Token>, lo: nat, hi: nat, p: Progress): (s: Stage)
    requires |toks| == |env.lex| && env.Ready(lo, hi)
    ensures s.Going? ==> lo <= s.at
    ensures !s.Raised? && s.p.block.id == p.block.id
    decreases hi - lo, 6, 0
  {
    if env.W(lo) == WITH && lo < hi then
      var explicit := env.W(lo + 1) == RECURSIVE;
      var start := if explicit then lo + 2 else lo + 1;
      Ctes(env, toks, lo, hi, start, explicit || env.dialect == Sqlserver, p)
    else Going(lo, p)
  }

  /** The declarations of a WITH clause. */
  function Ctes(env: Env, toks: seq<Token>, lo: nat, hi: nat, start: nat, recursive: bool, p: Progress): (s: Stage)
    requires |toks| == |env.lex| && env.Ready(lo, hi) && lo < start
    ensures s.Going? ==> lo <= s.at
    ensures !s.Raised? && s.p.block.id == p.block.id
    decreases hi - lo, 5, if start < hi then 2 * (hi - start) else 0
  {
    if start >= hi then Going(start, p)
    else MoreCtes(env, toks, lo, hi, start, recursive, Declaration(env, toks, lo, hi, start, recursive, p))
  }

  /** A comma after a declaration starts another one. */
  function MoreCtes(env: Env, toks: seq<Token>, lo: nat, hi: nat, start: nat, recursive: bool, s: Stage): (r: Stage)
    requires |toks| == |env.lex| && env.Ready(lo, hi) && lo < start < hi
    requires s.Going? ==> start < s.at
    ensures r.Going? ==> lo <= r.at
    ensures r.Raised? <==> s.Raised?
    ensures !r.Raised? ==> r.p.block.id == s.p.block.id
    decreases hi - lo, 5, 2 * (hi - start) - 1
  {
    match s
    case Raised => Raised
    case Finished(p) => Finished(p)
    case Going(at, p) => if env.Comma(at) then Ctes(env, toks, lo, hi, at + 1, recursive, p) else Going(at, p)
  }

  /** One declaration: name, column names, body. */
  function Declaration(env: Env, toks: seq<Token>, lo: nat, hi: nat, start: nat, recursive: bool, p: Progress)
    : (s: Stage)
    requires |toks| == |env.lex| && env.Ready(lo, hi) && lo < start < hi
    ensures s.Going? ==> start < s.at
    ensures !s.Raised? && s.p.block.id == p.block.id
    decreases hi - lo, 4, 0
  {
    match HeaderOf(env, start)
    case BadCte(reason) => Finished(Fail(p, reason))
    case CteHeader(aliases, open) =>
      HeaderInside(env, toks, lo, hi, start);
      match Child(env, toks, lo, hi, open, CteBlock, p.block.id)
      case Throws => Raised
      case Parsed(blocks) => Going(env.pairs[open] + 1, WithCte(env, start, open, aliases, recursive, p, blocks))
  }

  lemma HeaderInside(env: Env, toks: seq<Token>, lo: nat, hi: nat, start: nat)
    requires |toks| == |env.lex| && env.Ready(lo, hi) && lo < start < hi && HeaderOf(env, start).CteHeader?
    ensures var open := HeaderOf(env, start).open;
            && start < open < hi && open in env.pairs && open < env.pairs[open] < hi
            && env.Ready(open + 1, env.pairs[open])
  {
    var open := HeaderOf(env, start).open;
    hide HeaderOf;
    OpensWithin(env, lo, hi, start, open);
    ChildReady(env, toks, lo, hi, open);
  }

  lemma OpensWithin(env: Env, lo: nat, hi: nat, start: nat, open: nat)
    requires env.Ready(lo, hi) && lo < start < hi && start + 1 < open && env.Open(open) && env.W(open - 1) == AS
    requires open == start + 2 || (env.Open(start + 1) && start + 1 in env.pairs && open == env.pairs[start + 1] + 2)
    ensures open < hi
  {
    hide Nested;
    if env.Open(start + 1) { assert start + 1 < hi; }
    assert open - 1 < hi;
  }

  /** The inside of a parenthesis is an interval of its own. */
  lemma ChildReady(env: Env, toks: seq<Token>, lo: nat, hi: nat, open: nat)
    requires |toks| == |env.lex| && env.Ready(lo, hi) && lo <= open <= hi && env.Open(open)
    ensures open < hi && open in env.pairs && open < env.pairs[open] < hi && env.Ready(open + 1, env.pairs[open])
  {
  }

  /** The SELECT, or set operation, after the declarations. */
  function Query(env: Env, toks: seq<Token>, lo: nat, hi: nat, range: Range, s: Stage): (r: Stage)
    requires |toks| == |env.lex| && env.Ready(lo, hi)
    requires s.Going? ==> lo <= s.at
    ensures !r.Raised? ==> !s.Raised? && r.p.block.id == s.p.block.id
    ensures r.Raised? ==> s.Raised? || (hi == |toks| && RunsOut(env))
    decreases hi - lo, 8, 0
  {
    if !s.Going? then s
    else if env.W(s.at) != SELECT || s.at >= hi then Finished(Fail(s.p, UnsupportedStatement))
    else
      var top := env.Top(s.at, hi);
      var sets := env.SetOperators(top);
      if sets != [] then Compound(env, toks, lo, hi, range, s.at, top, sets, s.p)
      else Select(env, toks, lo, hi, range, s.at, top, s.p)
  }

  function Compound(env: Env, toks: seq<Token>, lo: nat, hi: nat, range: Range, at: nat, top: seq<nat>, sets: seq<nat>,
                    p: Progress)
    : (r: Stage)
    requires |toks| == |env.lex| && env.Ready(lo, hi) && lo <= at < hi && top == env.Top(at, hi)
    requires sets == env.SetOperators(top) && sets != []
    ensures !r.Raised? ==> r.p.block.id == p.block.id
    ensures r.Raised? ==> hi == |toks| && RunsOut(env)
    decreases hi - lo, 7, 0
  {
    var order := env.OrderAfter(top, sets[|sets| - 1]);
    var finish := if order.Some? then order.value else hi;
    var compound := p.(block := p.block.(kind := CompoundBlock, setBranchIds := Some([])));
    BoundsDivide(env, toks, at, hi, top, sets, finish);
    WithOrder(toks, order, range, Branches(env, toks, lo, hi, range, sets + [finish], 0, at, at, compound))
  }

  /** A trailing ORDER BY belongs to the set operation. */
  function WithOrder(toks: seq<Token>, order: Option<nat>, range: Range, s: Stage): (r: Stage)
    requires order.Some? ==> order.value < |toks|
    ensures r.Raised? <==> s.Raised?
    ensures !r.Raised? ==> r.p.block.id == s.p.block.id
  {
    if s.Raised? || order.None? then s
    else Finished(AddClause(s.p, Clause(OrderBy, toks[order.value].start, range.end)))
  }

  /** Boundaries of a set operation: operators of its top level, then its end. */
  ghost predicate Divides(env: Env, at: nat, hi: nat, bounds: seq<nat>) {
    && (forall b | b in bounds :: at <= b <= hi && env.EndMark(b) && env.Closed(at, b))
    && (forall j, k | 0 <= j < k < |bounds| :: bounds[j] < bounds[k])
    && (forall j | 0 <= j < |bounds| - 1 :: IsSet(env.W(bounds[j])))
    && |bounds| >= 2
  }

  lemma BoundsDivide(env: Env, toks: seq<Token>, at: nat, hi: nat, top: seq<nat>, sets: seq<nat>, finish: nat)
    requires |toks| == |env.lex| && env.Ready(at, hi) && top == env.Top(at, hi) && sets == env.SetOperators(top)
             && sets != []
    requires finish == hi || (finish in top && finish > sets[|sets| - 1] && env.W(finish) == ORDER)
    ensures Divides(env, at, hi, sets + [finish])
  {
    FilterAscends(top, (i: nat) => IsSet(env.W(i)));
    forall b | b in sets + [finish] ensures at <= b <= hi && env.EndMark(b) && env.Closed(at, b) {
      hide Filter, Env.Ready, Env.Closed, Env.EndMark;
      BoundCloses(env, at, hi, b);
    }
    SetsBefore(env, at, hi, top, sets, finish);
    Ascends(sets, finish);
  }

  lemma SetsBefore(env: Env, at: nat, hi: nat, top: seq<nat>, sets: seq<nat>, finish: nat)
    requires env.Ready(at, hi) && top == env.Top(at, hi) && sets == env.SetOperators(top) && sets != []
    requires finish == hi || finish > sets[|sets| - 1]
    ensures sets[|sets| - 1] < finish
  {
    hide Env.Ready, Env.SetOperators;
    assert sets[|sets| - 1] in sets;
  }

  lemma Ascends(s: seq<nat>, last: nat)
    requires (forall j, k :: 0 <= j < k < |s| ==> s[j] < s[k]) && s != [] && s[|s| - 1] < last
    ensures var t := s + [last]; forall j, k :: 0 <= j < k < |t| ==> t[j] < t[k]
  {
    assert forall j | 0 <= j < |s| :: s[j] <= s[|s| - 1];
  }

  lemma BoundCloses(env: Env, at: nat, hi: nat, b: nat)
    requires env.Ready(at, hi) && (b == hi || (b in env.Top(at, hi) && (IsSet(env.W(b)) || env.W(b) == ORDER)))
    ensures at <= b <= hi && env.EndMark(b) && env.Closed(at, b)
  {
    if b != hi { TopCloses(env, at, hi, b); }
  }

  function BranchRange(toks: seq<Token>, at: nat, b: nat, hi: nat, range: Range): Range
    requires at < |toks| && b <= hi <= |toks|
  {
    Range(toks[at].start, if b < hi then toks[b].start else range.end)
  }

  /** One branch per boundary; a missing token after the last operator raises. */
  function Branches(env: Env, toks: seq<Token>, lo: nat, hi: nat, range: Range, bounds: seq<nat>, k: nat,
                    first: nat, at: nat, p: Progress): (r: Stage)
    requires |toks| == |env.lex| && env.Ready(lo, hi) && k <= |bounds| && lo <= first && Divides(env, first, hi, bounds)
    requires at == if k == 0 then first else env.AfterDistinct(bounds[k - 1] + 1)
    requires p.block.setBranchIds.Some?
    ensures !r.Raised? ==> r.p.block.id == p.block.id
    ensures r.Raised? ==> hi == |toks| && RunsOut(env)
    decreases hi - lo, 5, 2 * (|bounds| - k)
  {
    if k == |bounds| then Finished(p)
    else if at >= |toks| then
      RanOut(env, toks, lo, hi, bounds, k, first, at);
      Raised
    else
      MoreBranches(env, toks, lo, hi, range, bounds, k, first, p,
                   Branch(env, toks, lo, hi, range, bounds, k, first, at, p.block.id))
  }

  /** Only behind the last token is there nothing to read, and only after a set operator. */
  lemma RanOut(env: Env, toks: seq<Token>, lo: nat, hi: nat, bounds: seq<nat>, k: nat, first: nat, at: nat)
    requires |toks| == |env.lex| && env.Ready(lo, hi) && k < |bounds| && lo <= first && Divides(env, first, hi, bounds)
    requires at == (if k == 0 then first else env.AfterDistinct(bounds[k - 1] + 1)) && at >= |toks|
    ensures hi == |toks| && RunsOut(env)
  {
    assert bounds[0] in bounds && bounds[0] < bounds[1] && bounds[1] in bounds && bounds[k] in bounds;
    if k > 0 {
      assert bounds[k - 1] in bounds && bounds[k - 1] < bounds[k] <= hi && IsSet(env.W(bounds[k - 1]));
    }
    hide Nested;
  }

  function MoreBranches(env: Env, toks: seq<Token>, lo: nat, hi: nat, range: Range, bounds: seq<nat>, k: nat,
                        first: nat, p: Progress, branch: Outcome<seq<Block>>): (r: Stage)
    requires |toks| == |env.lex| && env.Ready(lo, hi) && k < |bounds| && lo <= first && Divides(env, first, hi, bounds)
    requires p.block.setBranchIds.Some? && (branch.Parsed? ==> branch.value != [])
    requires branch.Throws? ==> hi == |toks| && RunsOut(env)
    ensures !r.Raised? ==> r.p.block.id == p.block.id
    ensures r.Raised? ==> hi == |toks| && RunsOut(env)
    decreases hi - lo, 5, 2 * (|bounds| - k) - 1
  {
    match branch
    case Throws => Raised
    case Parsed(blocks) =>
      Branches(env, toks, lo, hi, range, bounds, k + 1, first, env.AfterDistinct(bounds[k] + 1), AddBranch(p, blocks))
  }

  function Branch(env: Env, toks: seq<Token>, lo: nat, hi: nat, range: Range, bounds: seq<nat>, k: nat,
                  first: nat, at: nat, parent: Range): (r: Outcome<seq<Block>>)
    requires |toks| == |env.lex| && env.Ready(lo, hi) && k < |bounds| && lo <= first && Divides(env, first, hi, bounds)
    requires at == (if k == 0 then first else env.AfterDistinct(bounds[k - 1] + 1)) && at < |toks|
    ensures r.Parsed? ==> r.value != []
    ensures r.Throws? ==> hi == |toks| && RunsOut(env)
    decreases hi - lo, 4, 0
  {
    BranchReady(env, toks, lo, hi, bounds, k, first, at);
    var b := bounds[k];
    Parse(env, toks, at, b, BranchRange(toks, at, b, hi, range), StatementBlock, Some(parent))
  }

  lemma BranchReady(env: Env, toks: seq<Token>, lo: nat, hi: nat, bounds: seq<nat>, k: nat, first: nat, at: nat)
    requires |toks| == |env.lex| && env.Ready(lo, hi) && k < |bounds| && lo <= first && Divides(env, first, hi, bounds)
    requires at == if k == 0 then first else env.AfterDistinct(bounds[k - 1] + 1)
    requires at < |toks|
    ensures env.Ready(at, bounds[k]) && bounds[k] - at < hi - lo
  {
    var b := bounds[k];
    assert b in bounds;
    if k == 0 {
      assert b < bounds[1];
      assert bounds[1] in bounds;
    } else {
      assert bounds[k - 1] in bounds;
    }
  }

  /** Clauses and select items of a plain SELECT. */
  function SelectHead(env: Env, toks: seq<Token>, range: Range, hi: nat, at: nat, top: seq<nat>, p: Progress): Progress
    requires forall k :: 0 <= k < |top| ==> top[k] < |toks|
  {
    var end := env.ProjectionEnd(top, at, hi);
    var first := env.AfterDistinct(at + 1);
    p.(block := p.block.(
      joinsMergeColumns := exists i | i in top :: env.W(i) == NATURAL || env.W(i) == USING,
      clauses := Clauses(env, toks, top, range.end, []),
      selectItems := Items(toks, first, env.Commas(top, first, end) + [end])))
  }

  function Select(env: Env, toks: seq<Token>, lo: nat, hi: nat, range: Range, at: nat, top: seq<nat>, p: Progress)
    : (r: Stage)
    requires |toks| == |env.lex| && env.Ready(lo, hi) && lo <= at < hi && top == env.Top(at, hi)
    ensures !r.Raised? && r.p.block.id == p.block.id
    decreases hi - lo, 7, 0
  {
    var q := SelectHead(env, toks, range, hi, at, top, p);
    match env.FirstUnsupported(top)
    case Some(i) => Finished(Fail(q, UnsupportedWord(env.W(i))))
    case None =>
      AfterFrom(env, toks, lo, hi, Relations(env, toks, lo, hi, top, 0, false, q))
  }

  /** Expression parentheses are walked only after relations and CTE bodies have owners. */
  function AfterFrom(env: Env, toks: seq<Token>, lo: nat, hi: nat, s: Stage): (r: Stage)
    requires |toks| == |env.lex| && env.Ready(lo, hi)
    ensures r.Raised? <==> s.Raised?
    ensures !r.Raised? ==> r.p.block.id == s.p.block.id
    decreases hi - lo, 4, 0
  {
    match s
    case Raised => Raised
    case Finished(p) => Finished(p)
    case Going(_, p) => Expressions(env, toks, lo, hi, p)
  }

  /** The FROM list and its joins. */
  function Relations(env: Env, toks: seq<Token>, lo: nat, hi: nat, top: seq<nat>, k: nat, inFrom: bool, p: Progress)
    : (r: Stage)
    requires |toks| == |env.lex| && env.Ready(lo, hi) && k <= |top|
    requires forall j :: 0 <= j < |top| ==> lo <= top[j] < hi
    ensures !r.Raised? && r.p.block.id == p.block.id
    decreases hi - lo, 6, 2 * (|top| - k)
  {
    if k == |top| then Going(0, p)
    else
      var i := top[k];
      var from := inFrom && !StopsFrom(env.W(i));
      if !(env.W(i) == FROM || env.W(i) == JOIN || (from && env.Comma(i))) then
        Relations(env, toks, lo, hi, top, k + 1, from, p)
      else
        MoreRelations(env, toks, lo, hi, top, k, RelationAfter(env, toks, lo, hi, i, p))
  }

  function MoreRelations(env: Env, toks: seq<Token>, lo: nat, hi: nat, top: seq<nat>, k: nat, s: Stage): (r: Stage)
    requires |toks| == |env.lex| && env.Ready(lo, hi) && k < |top|
    requires forall j :: 0 <= j < |top| ==> lo <= top[j] < hi
    ensures r.Raised? <==> s.Raised?
    ensures !r.Raised? ==> r.p.block.id == s.p.block.id
    decreases hi - lo, 6, 2 * (|top| - k) - 1
  {
    match s
    case Raised => Raised
    case Finished(p) => Finished(p)
    case Going(after, p) => Relations(env, toks, lo, hi, top, SkipTo(top, k, after) + 1, true, p)
  }

  /** The relation after FROM, JOIN or a comma; an unfinished list still permits completion. */
  function RelationAfter(env: Env, toks: seq<Token>, lo: nat, hi: nat, i: nat, p: Progress): (r: Stage)
    requires |toks| == |env.lex| && env.Ready(lo, hi) && lo <= i < hi
    ensures !r.Raised? && r.p.block.id == p.block.id
    decreases hi - lo, 5, 0
  {
    var lateral := env.W(i + 1) == LATERAL;
    var at := if lateral then i + 2 else i + 1;
    if at >= hi then Going(0, p) else Relation(env, toks, lo, hi, at, lateral, p)
  }

  /** One relation: a parenthesised query or a dotted name, with its aliases. */
  function Relation(env: Env, toks: seq<Token>, lo: nat, hi: nat, at: nat, lateral: bool, p: Progress): (r: Stage)
    requires |toks| == |env.lex| && env.Ready(lo, hi) && lo <= at < hi
    ensures !r.Raised? && r.p.block.id == p.block.id
    decreases hi - lo, 4, 0
  {
    if env.Open(at) then OpenRelation(env, toks, lo, hi, at, lateral, p)
    else Named(env, toks[at].start, at, lateral, p)
  }

  function OpenRelation(env: Env, toks: seq<Token>, lo: nat, hi: nat, at: nat, lateral: bool, p: Progress): (r: Stage)
    requires |toks| == |env.lex| && env.Ready(lo, hi) && lo <= at < hi && env.Open(at)
    ensures !r.Raised? && r.p.block.id == p.block.id
    decreases hi - lo, 3, 0
  {
    if !IsQuery(env.W(at + 1)) then Finished(Fail(p, UnsupportedParenthesizedFrom))
    else
      var kind := if lateral then LateralBlock else DerivedBlock;
      Derived(env, toks[at].start, at, lateral, p, Child(env, toks, lo, hi, at, kind, p.block.id))
  }

  /** A derived table, once its query is parsed. */
  function Derived(env: Env, start: int, at: nat, lateral: bool, p: Progress, body: Outcome<seq<Block>>): (s: Stage)
    requires Nested(env.lex, env.pairs) && at in env.pairs && (body.Parsed? ==> body.value != [])
    ensures s.Raised? <==> body.Throws?
    ensures !s.Raised? ==> s.p.block.id == p.block.id
  {
    match body
    case Throws => Raised
    case Parsed(blocks) =>
      Finish(start, DerivedTail(env, env.pairs[at] + 1), blocks[0].id, lateral, AddChild(p, blocks, at))
  }

  function Finish(start: int, tail: Option<RelationTail>, body: Range, lateral: bool, p: Progress): (s: Stage)
    ensures !s.Raised? && s.p.block.id == p.block.id
  {
    match tail
    case None => Finished(Fail(p, InvalidDerivedColumns))
    case Some(tail) => Going(tail.at, AddRef(p, DerivedRefOf(start, body, tail, lateral)))
  }

  function Named(env: Env, start: int, at: nat, lateral: bool, p: Progress): (s: Stage)
    requires Nested(env.lex, env.pairs) && at < |env.lex|
    ensures !s.Raised? && s.p.block.id == p.block.id
  {
    if !env.Identifier(at) then Finished(Fail(p, InvalidRelation))
    else
      match NamedAt(env, at)
      case None => Finished(Fail(p, UnsupportedSource))
      case Some(named) => Going(named.tail.at, AddRef(p, NamedRef(start, named, lateral)))
  }

  /** Queries in the expressions that no declaration owns. */
  function Expressions(env: Env, toks: seq<Token>, begin: nat, end: nat, p: Progress): (r: Stage)
    requires |toks| == |env.lex| && env.Ready(begin, end)
    ensures !r.Raised? && r.p.block.id == p.block.id
    decreases end - begin, 3, 0
  {
    if begin == end then Going(0, p)
    else if !env.Open(begin) then Expressions(env, toks, begin + 1, end, p)
    else
      MoreExpressions(env, toks, begin, end, Expression(env, toks, begin, end, p))
  }

  function MoreExpressions(env: Env, toks: seq<Token>, begin: nat, end: nat, s: Stage): (r: Stage)
    requires |toks| == |env.lex| && env.Ready(begin, end) && begin < end && env.Open(begin)
    ensures r.Raised? <==> s.Raised?
    ensures !r.Raised? ==> r.p.block.id == s.p.block.id
    decreases end - begin, 2, 0
  {
    ChildReady(env, toks, begin, end, begin);
    match s
    case Raised => Raised
    case Finished(p) => Finished(p)
    case Going(_, p) => Expressions(env, toks, env.pairs[begin] + 1, end, p)
  }

  /** One parenthesis met in an expression. */
  function Expression(env: Env, toks: seq<Token>, begin: nat, end: nat, p: Progress): (r: Stage)
    requires |toks| == |env.lex| && env.Ready(begin, end) && begin < end && env.Open(begin)
    ensures !r.Raised? && r.p.block.id == p.block.id
    decreases end - begin, 2, 0
  {
    if begin in p.owned then Going(0, p)
    else if IsQuery(env.W(begin + 1)) then
      match Child(env, toks, begin, end, begin, ExpressionBlock, p.block.id)
      case Throws => Raised
      case Parsed(blocks) => Going(0, AddChild(p, blocks, begin))
    else
      ChildReady(env, toks, begin, end, begin);
      Expressions(env, toks, begin + 1, env.pairs[begin], p)
  }

  // ---- whole statements ----

  function EnvOf(lexer: Lexer, toks: seq<Token>): Env {
    var lex := Spelling(toks);
    Env(lexer.dialect, lex, seq(|lex|, i requires 0 <= i < |lex| => WordOf(lexer, lex[i])), PairParens(lex).pairs)
  }

  /** Parentheses are never words. */
  lemma ParenthesisIsNoWord(lexer: Lexer, lex: Lexeme, c: Unit)
    requires lex.text == [c] && (c == 0x28 || c == 0x29)
    ensures WordOf(lexer, lex) == Other
  {
    assert lexer.Upper([c][1..]) == [];
    assert lexer.Upper([c]) == [c];
  }

  lemma StatementReady(lexer: Lexer, toks: seq<Token>)
    requires PairParens(Spelling(toks)).invalid.None?
    ensures EnvOf(lexer, toks).Ready(0, |toks|)
  {
    var env := EnvOf(lexer, toks);
    PairParensNested(env.lex);
    forall i: nat | env.Open(i) || IsClose(env.lex, i) ensures env.W(i) == Other {
      ParenthesisIsNoWord(lexer, env.lex[i], if env.Open(i) then 0x28 else 0x29);
    }
  }

  /** The tokens the parser keeps: those of the statement, without comments and semicolons. */
  predicate Relevant(tok: Token, statement: Range) {
    statement.start <= tok.start && tok.end <= statement.end && tok.kind != Comment && tok.text != [SEMICOLON]
  }

  function RelevantTokens(all: seq<Token>, statement: Range): seq<Token> {
    if all == [] then []
    else (if Relevant(all[0], statement) then [all[0]] else []) + RelevantTokens(all[1..], statement)
  }

  function Structure(lexer: Lexer, toks: seq<Token>, statement: Range): Outcome<seq<Block>> {
    var env := EnvOf(lexer, toks);
    var parens := PairParens(env.lex);
    if !IsQuery(env.W(0)) then Parsed([])
    else match parens.invalid
      case Some(reason) => Parsed([NewBlock(statement, StatementBlock, None).(unsupported := Some(reason))])
      case None =>
        StatementReady(lexer, toks);
        Parse(env, toks, 0, |toks|, statement, StatementBlock, None)
  }

  /** The block an identifier denotes: the last one that carries it. */
  function ById(blocks: seq<Block>, id: Range): (r: Option<Block>)
    ensures r.Some? ==> r.value in blocks && r.value.id == id
  {
    if blocks == [] then None
    else if blocks[|blocks| - 1].id == id then Some(blocks[|blocks| - 1])
    else ById(blocks[..|blocks| - 1], id)
  }

  function Span(id: Range): int { id.end - id.start }

  function CteNames(ctes: seq<Cte>, dialect: Dialect): seq<Text> {
    seq(|ctes|, k requires 0 <= k < |ctes| => IdentifierName(ctes[k].name, ctes[k].quoted, dialect))
  }

  /** Does an enclosing block, or the block itself, declare a CTE the name resolves to? */
  function DeclaredAbove(blocks: seq<Block>, block: Block, ref: FromRef, dialect: Dialect, limit: int): bool
    decreases limit - Span(block.id)
  {
    if Resolves(ref.name, ref.nameQuoted, CteNames(block.ctes, dialect), dialect) then true
    else match block.parentId
      case None => false
      case Some(id) =>
        match ById(blocks, id)
        case None => false
        case Some(parent) =>
          Span(block.id) < Span(parent.id) <= limit && DeclaredAbove(blocks, parent, ref, dialect, limit)
  }

  function BindRef(blocks: seq<Block>, block: Block, ref: FromRef, dialect: Dialect, limit: int): FromRef {
    if ref.kind == TableRef && ref.namespace.None? && DeclaredAbove(blocks, block, ref, dialect, limit)
    then ref.(kind := CteRef)
    else ref
  }

  function BindBlock(blocks: seq<Block>, block: Block, dialect: Dialect, limit: int): Block {
    block.(from := seq(|block.from|, k requires 0 <= k < |block.from| =>
      BindRef(blocks, block, block.from[k], dialect, limit)))
  }

  function BindBlocks(blocks: seq<Block>, dialect: Dialect, limit: int): (r: seq<Block>)
    ensures |r| == |blocks|
  {
    seq(|blocks|, k requires 0 <= k < |blocks| => BindBlock(blocks, blocks[k], dialect, limit))
  }

  /** The parser of the source: structure first, then which names are CTEs. */
  function ParseBlocks(lexer: Lexer, all: seq<Token>, statement: Range): Outcome<seq<Block>> {
    match Structure(lexer, RelevantTokens(all, statement), statement)
    case Throws => Throws
    case Parsed(blocks) => Parsed(BindBlocks(blocks, lexer.dialect, Span(statement)))
  }
}
