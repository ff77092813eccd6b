/** When the parser raises: a set operation's last operator has nothing behind it, and nothing else. */
module ParserRaises {
  import opened SqlText
  import opened Tokenizer
  import opened ScopeParser
  import opened BlockParser

  /** The main query of a statement is where its tokens run out. */
  predicate Trails(env: Env, toks: seq<Token>, range: Range, kind: BlockKind, parent: Option<Range>)
    requires |toks| == |env.lex| && env.Ready(0, |toks|)
  {
    var declared := Declarations(env, toks, 0, |toks|, Progress(NewBlock(range, kind, parent), [], {}));
    declared.Going? && declared.at < |toks| && env.W(declared.at) == SELECT && RunsOut(env)
  }

  /** A token that no parenthesis encloses is of the top level. */
  lemma {:induction false} InTop(env: Env, lo: nat, hi: nat, i: nat)
    requires env.Closed(lo, hi) && lo <= i < hi && forall o | o in env.pairs && lo <= o < i :: env.pairs[o] < i
    ensures i in env.Top(lo, hi)
    decreases hi - lo
  {
    if i != lo { InTop(env, if env.Open(lo) then env.pairs[lo] + 1 else lo + 1, hi, i); }
  }

  lemma {:induction false} FilterKeeps(s: seq<nat>, f: nat -> bool, i: nat)
    requires i in s && f(i)
    ensures i in Filter(s, f)
  {
    if s[0] != i { FilterKeeps(s[1..], f, i); }
  }

  /** The operator behind which the tokens run out. */
  function Operator(env: Env): nat
    requires RunsOut(env)
  {
    if IsSet(env.W(|env.lex| - 1)) then |env.lex| - 1 else |env.lex| - 2
  }

  /** Nothing encloses it, since no parenthesis closes behind it. */
  lemma OperatorOnTop(env: Env, at: nat)
    requires RunsOut(env) && env.Ready(at, |env.lex|) && env.W(at) == SELECT
    ensures at < Operator(env) < |env.lex| && Operator(env) in env.Top(at, |env.lex|) && IsSet(env.W(Operator(env)))
    ensures forall x | Operator(env) < x < |env.lex| :: env.W(x) == ALL || env.W(x) == DISTINCT
    ensures env.AfterDistinct(Operator(env) + 1) == |env.lex|
  {
    var n, m := |env.lex|, Operator(env);
    assert at < n && at < m;
    NotEnclosed(env, at);
    hide Nested, Env.EndMark, RunsOut;
    InTop(env, at, n, m);
  }

  lemma NotEnclosed(env: Env, at: nat)
    requires RunsOut(env) && env.Ready(at, |env.lex|)
    ensures forall o | o in env.pairs && o < Operator(env) :: env.pairs[o] < Operator(env)
  {
    forall o | o in env.pairs && o < Operator(env) ensures env.pairs[o] < Operator(env) {
      assert IsClose(env.lex, env.pairs[o]) && env.pairs[o] < |env.lex|;
    }
  }

  lemma InSets(env: Env, top: seq<nat>, m: nat)
    requires m in top && IsSet(env.W(m))
    ensures m in env.SetOperators(top)
  {
    FilterKeeps(top, (i: nat) => IsSet(env.W(i)), m);
  }

  lemma SetsAscend(env: Env, top: seq<nat>)
    requires forall j, k :: 0 <= j < k < |top| ==> top[j] < top[k]
    ensures forall j, k :: 0 <= j < k < |env.SetOperators(top)| ==> env.SetOperators(top)[j] < env.SetOperators(top)[k]
  {
    FilterAscends(top, (i: nat) => IsSet(env.W(i)));
  }

  /** It is the last operator of its query, and no ORDER BY follows. */
  lemma OperatorIsLast(env: Env, at: nat, top: seq<nat>, sets: seq<nat>)
    requires RunsOut(env) && env.Ready(at, |env.lex|) && env.W(at) == SELECT
    requires top == env.Top(at, |env.lex|) && sets == env.SetOperators(top)
    ensures sets != [] && sets[|sets| - 1] == Operator(env) && env.OrderAfter(top, Operator(env)).None?
  {
    hide Env.Top, Env.SetOperators, Env.OrderAfter, Env.Closed, Env.EndMark, RunsOut, Operator;
    OperatorOnTop(env, at);
    InSets(env, top, Operator(env));
    SetsAscend(env, top);
    hide Env.Ready;
    LastOf(sets, Operator(env));
  }

  lemma LastOf(s: seq<nat>, m: nat)
    requires m in s && (forall j, k :: 0 <= j < k < |s| ==> s[j] < s[k]) && forall x | x in s :: x <= m
    ensures s[|s| - 1] == m
  {
    assert s[|s| - 1] in s;
  }

  /** However the branches before it end. */
  lemma {:induction false} BranchesRaise(env: Env, toks: seq<Token>, lo: nat, range: Range, bounds: seq<nat>, k: nat,
                                         first: nat, at: nat, p: Progress)
    requires |toks| == |env.lex| && env.Ready(lo, |toks|) && k < |bounds| && lo <= first
             && Divides(env, first, |toks|, bounds)
    requires at == if k == 0 then first else env.AfterDistinct(bounds[k - 1] + 1)
    requires p.block.setBranchIds.Some? && env.AfterDistinct(bounds[|bounds| - 2] + 1) >= |toks|
    ensures Branches(env, toks, lo, |toks|, range, bounds, k, first, at, p).Raised?
    decreases |bounds| - k
  {
    assert |bounds| >= 2;
    hide Env.Ready, Divides, Branch, RunsOut, Env.AfterDistinct, AddBranch;
    if at < |toks| {
      assert k + 1 < |bounds|;
      var branch := Branch(env, toks, lo, |toks|, range, bounds, k, first, at, p.block.id);
      var next := env.AfterDistinct(bounds[k] + 1);
      if branch.Parsed? {
        var q := AddBranch(p, branch.value);
        BranchesRaise(env, toks, lo, range, bounds, k + 1, first, next, q);
      }
    }
  }

  lemma OperatorDivides(env: Env, toks: seq<Token>, at: nat, top: seq<nat>, sets: seq<nat>)
    requires |toks| == |env.lex| && env.Ready(0, |toks|) && at < |toks| && env.W(at) == SELECT && RunsOut(env)
    requires top == env.Top(at, |toks|) && sets == env.SetOperators(top) && sets != []
    ensures env.OrderAfter(top, sets[|sets| - 1]).None? && env.AfterDistinct(sets[|sets| - 1] + 1) >= |toks|
    ensures Divides(env, at, |toks|, sets + [|toks|])
  {
    assert env.Ready(at, |toks|);
    hide Env.Top, Env.SetOperators, Env.OrderAfter, Env.Closed, Env.EndMark, Divides, RunsOut, Operator,
         Env.AfterDistinct, Env.Ready;
    OperatorOnTop(env, at);
    OperatorIsLast(env, at, top, sets);
    BoundsDivide(env, toks, at, |toks|, top, sets, |toks|);
  }

  lemma CompoundRaises(env: Env, toks: seq<Token>, range: Range, at: nat, top: seq<nat>, sets: seq<nat>, p: Progress)
    requires |toks| == |env.lex| && env.Ready(0, |toks|) && at < |toks| && env.W(at) == SELECT && RunsOut(env)
    requires top == env.Top(at, |toks|) && sets == env.SetOperators(top) && sets != []
    ensures Compound(env, toks, 0, |toks|, range, at, top, sets, p).Raised?
  {
    hide Env.Ready, Env.Top, Env.SetOperators, Env.OrderAfter, Env.AfterDistinct, Divides, Branches, RunsOut;
    OperatorDivides(env, toks, at, top, sets);
    var compound := p.(block := p.block.(kind := CompoundBlock, setBranchIds := Some([])));
    BranchesRaise(env, toks, 0, range, sets + [|toks|], 0, at, at, compound);
  }

  /** The descent raises exactly when the tokens of the main query run out behind a set operator. */
  lemma ParseRaisesIff(env: Env, toks: seq<Token>, range: Range, kind: BlockKind, parent: Option<Range>)
    requires |toks| == |env.lex| && env.Ready(0, |toks|)
    ensures Parse(env, toks, 0, |toks|, range, kind, parent).Throws? <==> Trails(env, toks, range, kind, parent)
  {
    var declared := Declarations(env, toks, 0, |toks|, Progress(NewBlock(range, kind, parent), [], {}));
    hide Declarations, Compound, Select, RunsOut, Env.Top, Env.SetOperators, Env.OrderAfter, Env.EndMark, Nested,
         Operator;
    if declared.Going? && declared.at < |toks| && env.W(declared.at) == SELECT {
      var top := env.Top(declared.at, |toks|);
      var sets := env.SetOperators(top);
      if RunsOut(env) {
        OperatorIsLast(env, declared.at, top, sets);
        CompoundRaises(env, toks, range, declared.at, top, sets, declared.p);
      }
    }
  }

  /** So for any statement: it is a query, its parentheses pair up, its declarations parse, and then this. */
  lemma BlocksRaiseIff(lexer: Lexer, all: seq<Token>, statement: Range)
    ensures var toks := RelevantTokens(all, statement);
            var env := EnvOf(lexer, toks);
            ParseBlocks(lexer, all, statement).Throws? <==>
              IsQuery(env.W(0)) && PairParens(env.lex).invalid.None?
              && (StatementReady(lexer, toks); Trails(env, toks, statement, StatementBlock, None))
  {
    var toks := RelevantTokens(all, statement);
    var env := EnvOf(lexer, toks);
    if IsQuery(env.W(0)) && PairParens(env.lex).invalid.None? {
      StatementReady(lexer, toks);
      ParseRaisesIff(env, toks, statement, StatementBlock, None);
    }
    hide Parse, Trails, RelevantTokens;
  }

  /** Without declarations only the last tokens matter. */
  lemma SelectRaisesIff(lexer: Lexer, all: seq<Token>, statement: Range)
    requires var env := EnvOf(lexer, RelevantTokens(all, statement));
             env.W(0) == SELECT && PairParens(env.lex).invalid.None?
    ensures ParseBlocks(lexer, all, statement).Throws? <==> RunsOut(EnvOf(lexer, RelevantTokens(all, statement)))
  {
    BlocksRaiseIff(lexer, all, statement);
    StatementReady(lexer, RelevantTokens(all, statement));
  }
}
