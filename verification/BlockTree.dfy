/**
 A parsed statement is a tree: identifiers made of positions tell all blocks apart, parents are listed
 first, what a block names is below it, and the bodies of its declarations come before whatever reads them.
 */
module BlockTree {
  import opened SqlText
  import opened ScopeParser
  import opened BlockParser

  // ---- ranges ----

  predicate Inner(r: Range, outer: Range) {
    outer.start <= r.start <= r.end <= outer.end
  }

  predicate Under(r: Range, outer: Range) {
    Inner(r, outer) && r != outer
  }

  predicate Apart(a: Range, b: Range) {
    a.end < b.start || b.end < a.start
  }

  /** Tokens in order, none empty. */
  ghost predicate Ordered(toks: seq<Token>) {
    && (forall k | 0 <= k < |toks| :: toks[k].start < toks[k].end)
    && (forall j, k | 0 <= j < k < |toks| :: toks[j].end <= toks[k].start)
  }

  /** The range holds the tokens of the interval, and ends where the next one starts. */
  ghost predicate Placed(toks: seq<Token>, lo: nat, hi: nat, range: Range) {
    && lo <= hi <= |toks| && range.start <= range.end
    && (forall k | lo <= k < hi :: range.start <= toks[k].start && toks[k].end <= range.end)
    && (hi < |toks| ==> toks[hi].start == range.end)
  }

  /** As the scanner leaves them, names are neither parentheses nor the words that start a query. */
  ghost predicate PlainNames(env: Env) {
    forall i: nat | env.Identifier(i) :: !env.Open(i) && !IsQuery(env.W(i))
  }

  // ---- trees ----

  ghost predicate DistinctIds(bs: seq<Block>) {
    forall j, k | 0 <= j < k < |bs| :: bs[j].id != bs[k].id
  }

  ghost predicate ChildIn(bs: seq<Block>, parent: Range, id: Range) {
    exists k :: 0 <= k < |bs| && bs[k].id == id && bs[k].parentId == Some(parent)
  }

  /** The parent is the root or an earlier block, and wider. */
  ghost predicate HasParent(bs: seq<Block>, root: Range, k: nat)
    requires k < |bs|
  {
    && bs[k].parentId.Some? && Under(bs[k].id, bs[k].parentId.value)
    && (bs[k].parentId.value == root || exists j :: 0 <= j < k && bs[j].id == bs[k].parentId.value)
  }

  ghost predicate Rooted(bs: seq<Block>, root: Range) {
    forall k | 0 <= k < |bs| :: Under(bs[k].id, root) && HasParent(bs, root, k)
  }

  predicate IsBody(b: Block, id: Range) {
    exists c | c in b.ctes :: c.bodyScopeId == id
  }

  /** Bodies of declarations in order, and before every other child. */
  ghost predicate DeclaredFirst(b: Block, bs: seq<Block>) {
    && (forall i, j | 0 <= i < j < |b.ctes| :: b.ctes[i].bodyScopeId.end < b.ctes[j].bodyScopeId.start)
    && (forall c, q | c in b.ctes && q in bs && q.parentId == Some(b.id) && !IsBody(b, q.id) ::
          c.bodyScopeId.end < q.id.start)
  }

  /** What a block names is among its children, and only derived tables have column lists. */
  ghost predicate Refers(b: Block, bs: seq<Block>) {
    && (forall c | c in b.ctes :: ChildIn(bs, b.id, c.bodyScopeId))
    && (b.setBranchIds.Some? ==> forall x | x in b.setBranchIds.value :: ChildIn(bs, b.id, x))
    && (forall ref | ref in b.from ::
          if ref.bodyScopeId.Some? then ChildIn(bs, b.id, ref.bodyScopeId.value) else ref.columnAliases.None?)
  }

  ghost predicate ItemsOf(toks: seq<Token>, b: Block) {
    forall item | item in b.selectItems :: forall t | t in item :: t in toks
  }

  ghost predicate Settled(toks: seq<Token>, b: Block, bs: seq<Block>) {
    Refers(b, bs) && DeclaredFirst(b, bs) && ItemsOf(toks, b)
  }

  /** A block and all blocks found below it. */
  ghost predicate Grown(toks: seq<Token>, block: Block, below: seq<Block>) {
    && Rooted(below, block.id) && DistinctIds(below) && Settled(toks, block, below)
    && forall b | b in below :: Settled(toks, b, below)
  }

  ghost predicate Tree(toks: seq<Token>, bs: seq<Block>, range: Range, parent: Option<Range>) {
    bs != [] && bs[0].id == range && bs[0].parentId == parent && range.start <= range.end && Grown(toks, bs[0], bs[1..])
  }

  // ---- growing a tree ----

  /** Blocks that are no children of a block do not matter to it. */
  lemma StrangersAfter(toks: seq<Token>, b: Block, bs: seq<Block>, more: seq<Block>)
    requires Settled(toks, b, bs) && forall y | y in more :: y.parentId != Some(b.id)
    ensures Settled(toks, b, bs + more)
  {
    forall id | ChildIn(bs, b.id, id) ensures ChildIn(bs + more, b.id, id) {
      var k :| 0 <= k < |bs| && bs[k].id == id && bs[k].parentId == Some(b.id);
      assert (bs + more)[k] == bs[k];
    }
    hide ItemsOf, IsBody;
  }

  lemma StrangersBefore(toks: seq<Token>, b: Block, bs: seq<Block>, more: seq<Block>)
    requires Settled(toks, b, bs) && forall y | y in more :: y.parentId != Some(b.id)
    ensures Settled(toks, b, more + bs)
  {
    forall id | ChildIn(bs, b.id, id) ensures ChildIn(more + bs, b.id, id) {
      var k :| 0 <= k < |bs| && bs[k].id == id && bs[k].parentId == Some(b.id);
      assert (more + bs)[|more| + k] == bs[k];
    }
    hide ItemsOf, IsBody;
  }

  /** A child that comes after all bodies. */
  lemma LaterChild(toks: seq<Token>, b: Block, bs: seq<Block>, more: seq<Block>, r: Range)
    requires Settled(toks, b, bs) && (forall c | c in b.ctes :: c.bodyScopeId.end < r.start)
    requires forall y | y in more && y.parentId == Some(b.id) :: y.id == r
    ensures Settled(toks, b, bs + more)
  {
    forall id | ChildIn(bs, b.id, id) ensures ChildIn(bs + more, b.id, id) {
      var k :| 0 <= k < |bs| && bs[k].id == id && bs[k].parentId == Some(b.id);
      assert (bs + more)[k] == bs[k];
    }
    hide ItemsOf, IsBody;
  }

  /** Inner a tree every block lies in the range, and every parent but the root's is one of its blocks. */
  lemma TreeRange(toks: seq<Token>, bs: seq<Block>, range: Range, parent: Option<Range>, k: nat)
    requires Tree(toks, bs, range, parent) && k < |bs|
    ensures Inner(bs[k].id, range)
    ensures k > 0 ==> bs[k].parentId.Some? && Under(bs[k].id, bs[k].parentId.value)
                      && exists j :: 0 <= j < k && bs[j].id == bs[k].parentId.value
  {
    if k > 0 {
      var rest := bs[1..];
      assert rest[k - 1] == bs[k] && HasParent(rest, range, k - 1);
      if bs[k].parentId.value == range {
        assert bs[0].id == range;
      } else {
        var j :| 0 <= j < k - 1 && rest[j].id == bs[k].parentId.value;
        assert bs[j + 1] == rest[j];
      }
    }
  }

  lemma TreeDistinct(toks: seq<Token>, bs: seq<Block>, range: Range, parent: Option<Range>)
    requires Tree(toks, bs, range, parent)
    ensures DistinctIds(bs)
  {
    var rest := bs[1..];
    forall j, k | 0 <= j < k < |bs| ensures bs[j].id != bs[k].id {
      assert bs[k] == rest[k - 1] && Under(rest[k - 1].id, range);
      if j > 0 { assert bs[j] == rest[j - 1]; }
    }
  }

  /** Every block of a tree is settled in the whole tree. */
  lemma TreeSettled(toks: seq<Token>, bs: seq<Block>, range: Range, parent: Option<Range>, b: Block)
    requires Tree(toks, bs, range, parent) && b in bs && (parent.Some? ==> Under(range, parent.value))
    ensures Settled(toks, b, bs)
  {
    var rest := bs[1..];
    assert [bs[0]] + rest == bs;
    var k :| 0 <= k < |bs| && bs[k] == b;
    TreeRange(toks, bs, range, parent, k);
    assert k > 0 ==> b == rest[k - 1];
    assert Settled(toks, b, rest);
    hide Grown, Settled;
    assert bs[0].parentId != Some(b.id);
    StrangersBefore(toks, b, rest, [bs[0]]);
  }

  lemma RootedAppend(toks: seq<Token>, below: seq<Block>, bs: seq<Block>, root: Range, r: Range)
    requires Rooted(below, root) && Tree(toks, bs, r, Some(root)) && Under(r, root)
    ensures Rooted(below + bs, root)
  {
    var all := below + bs;
    forall k | 0 <= k < |all| ensures Under(all[k].id, root) && HasParent(all, root, k) {
      if k < |below| {
        assert all[k] == below[k] && HasParent(below, root, k);
        if all[k].parentId.value != root {
          var j :| 0 <= j < k && below[j].id == below[k].parentId.value;
          assert all[j] == below[j];
        }
      } else {
        var i := k - |below|;
        assert all[k] == bs[i];
        TreeRange(toks, bs, r, Some(root), i);
        if i > 0 {
          var j :| 0 <= j < i && bs[j].id == bs[i].parentId.value;
          assert all[|below| + j] == bs[j];
        }
      }
    }
  }

  lemma DistinctAppend(toks: seq<Token>, below: seq<Block>, bs: seq<Block>, parent: Option<Range>, r: Range)
    requires DistinctIds(below) && Tree(toks, bs, r, parent)
             && forall b | b in below :: Apart(b.id, r) && b.id.start <= b.id.end
    ensures DistinctIds(below + bs)
    ensures forall b, c | b in below && c in bs :: b.id != c.id
  {
    TreeDistinct(toks, bs, r, parent);
    forall b, c | b in below && c in bs ensures b.id != c.id {
      var k :| 0 <= k < |bs| && bs[k] == c;
      TreeRange(toks, bs, r, parent, k);
    }
    var all := below + bs;
    forall j, k | 0 <= j < k < |all| ensures all[j].id != all[k].id {
      if j < |below| { assert all[j] == below[j]; } else { assert all[j] == bs[j - |below|]; }
      if k < |below| { assert all[k] == below[k]; } else { assert all[k] == bs[k - |below|]; }
    }
  }

  /** Parents of the blocks of a tree: the tree's parent for its first block, else one of its blocks. */
  lemma ParentsInTree(toks: seq<Token>, bs: seq<Block>, r: Range, parent: Range, y: Block)
    requires Tree(toks, bs, r, Some(parent)) && Under(r, parent) && y in bs
    ensures y.parentId == Some(parent) ==> y.id == r
    ensures y.parentId == Some(parent) || exists c | c in bs :: y.parentId == Some(c.id)
  {
    var k :| 0 <= k < |bs| && bs[k] == y;
    TreeRange(toks, bs, r, Some(parent), k);
    if k > 0 {
      var j :| 0 <= j < k && bs[j].id == bs[k].parentId.value;
      TreeRange(toks, bs, r, Some(parent), j);
      assert bs[j] in bs;
    }
  }

  lemma ParentsBelow(below: seq<Block>, root: Range, y: Block)
    requires Rooted(below, root) && y in below
    ensures y.parentId == Some(root) || exists c | c in below :: y.parentId == Some(c.id)
  {
    var k :| 0 <= k < |below| && below[k] == y;
    assert HasParent(below, root, k);
    if y.parentId.value != root {
      var j :| 0 <= j < k && below[j].id == y.parentId.value;
      assert below[j] in below;
    }
  }

  /** A child's tree is added behind everything found so far. */
  lemma AddTree(toks: seq<Token>, block: Block, below: seq<Block>, bs: seq<Block>, r: Range)
    requires Grown(toks, block, below) && Tree(toks, bs, r, Some(block.id)) && Under(r, block.id)
    requires forall b | b in below :: Apart(b.id, r)
    requires forall c | c in block.ctes :: c.bodyScopeId.end < r.start
    ensures Grown(toks, block, below + bs) && ChildIn(below + bs, block.id, r)
  {
    assert forall b | b in below :: b.id.start <= b.id.end && Under(b.id, block.id) by {
      forall b | b in below ensures Under(b.id, block.id) { var k :| 0 <= k < |below| && below[k] == b; }
    }
    RootedAppend(toks, below, bs, block.id, r);
    DistinctAppend(toks, below, bs, Some(block.id), r);
    assert (below + bs)[|below|] == bs[0];
    SettledAppend(toks, block, below, bs, r);
    hide Settled, Tree, Rooted, DistinctIds;
  }

  lemma SettledAppend(toks: seq<Token>, block: Block, below: seq<Block>, bs: seq<Block>, r: Range)
    requires Grown(toks, block, below) && Tree(toks, bs, r, Some(block.id)) && Under(r, block.id)
    requires forall b, c | b in below && c in bs :: b.id != c.id
    requires forall b | b in below :: Under(b.id, block.id)
    requires forall c | c in block.ctes :: c.bodyScopeId.end < r.start
    ensures Settled(toks, block, below + bs) && forall b | b in below + bs :: Settled(toks, b, below + bs)
  {
    forall y | y in bs ensures y.parentId == Some(block.id) ==> y.id == r { ParentsInTree(toks, bs, r, block.id, y); }
    LaterChild(toks, block, below, bs, r);
    forall b | b in below + bs ensures Settled(toks, b, below + bs) {
      if b in below {
        forall y | y in bs ensures y.parentId != Some(b.id) { ParentsInTree(toks, bs, r, block.id, y); }
        StrangersAfter(toks, b, below, bs);
      } else {
        TreeSettled(toks, bs, r, Some(block.id), b);
        var k :| 0 <= k < |bs| && bs[k] == b;
        TreeRange(toks, bs, r, Some(block.id), k);
        forall y | y in below ensures y.parentId != Some(b.id) { ParentsBelow(below, block.id, y); }
        StrangersBefore(toks, b, bs, below);
      }
    }
  }

  /** So far every child is the body of a declaration. */
  ghost predicate OnlyBodies(block: Block, below: seq<Block>) {
    forall q | q in below && q.parentId == Some(block.id) :: IsBody(block, q.id)
  }

  /** A declaration, once its body is there. */
  lemma AddDeclared(toks: seq<Token>, block: Block, below: seq<Block>, bs: seq<Block>, r: Range, cte: Cte)
    requires Grown(toks, block, below + bs) && OnlyBodies(block, below) && cte.bodyScopeId == r
             && ChildIn(below + bs, block.id, r)
    requires forall y | y in bs && y.parentId == Some(block.id) :: y.id == r
    requires forall c | c in block.ctes :: c.bodyScopeId.end < r.start
    ensures var b := block.(ctes := block.ctes + [cte]); Grown(toks, b, below + bs) && OnlyBodies(b, below + bs)
  {
    var b := block.(ctes := block.ctes + [cte]);
    forall id | IsBody(block, id) || id == r ensures IsBody(b, id) {
      if id == r { assert cte in b.ctes; }
    }
    hide Rooted, DistinctIds, ItemsOf, ChildIn, IsBody;
  }

  // ---- places of children ----

  /** A block inside a parenthesis. */
  ghost predicate Inside(toks: seq<Token>, env: Env, o: nat, id: Range) {
    && o in env.pairs && o < |toks| && env.pairs[o] < |toks|
    && toks[o].end <= id.start <= id.end <= toks[env.pairs[o]].start
  }

  /** Every block found so far is inside a parenthesis that has an owner. */
  ghost predicate Held(toks: seq<Token>, env: Env, below: seq<Block>, owned: set<nat>) {
    forall b | b in below :: exists o | o in owned :: Inside(toks, env, o, b.id)
  }

  ghost predicate Planted(toks: seq<Token>, env: Env, p: Progress, range: Range, parent: Option<Range>) {
    p.block.id == range && p.block.parentId == parent && Grown(toks, p.block, p.below)
    && Held(toks, env, p.below, p.owned)
  }

  /** No parenthesis from here on encloses an owner, unless it is over already. */
  ghost predicate Aside(env: Env, from: nat, o: nat) {
    o in env.pairs
    && (env.pairs[o] < from || (from <= o && forall x | x in env.pairs && from <= x < o :: env.pairs[x] < o))
  }

  ghost predicate AllAside(env: Env, from: nat, owned: set<nat>) {
    forall o | o in owned :: Aside(env, from, o)
  }

  ghost predicate BodiesBefore(toks: seq<Token>, block: Block, at: nat) {
    at < |toks| ==> forall c | c in block.ctes :: c.bodyScopeId.end < toks[at].start
  }

  /** A parenthesis apart from those that have owners. */
  ghost predicate Fresh(env: Env, owned: set<nat>, open: nat) {
    open in env.pairs && forall o | o in owned :: o in env.pairs && (env.pairs[o] < open || env.pairs[open] < o)
  }

  /** The query in a fresh parenthesis joins the tree. */
  lemma AddInside(toks: seq<Token>, env: Env, lo: nat, hi: nat, p: Progress, range: Range, parent: Option<Range>,
                  open: nat, bs: seq<Block>)
    requires |toks| == |env.lex| && env.Ready(lo, hi) && Ordered(toks) && Placed(toks, lo, hi, range) && lo <= open < hi
             && env.Open(open)
    requires Planted(toks, env, p, range, parent) && Fresh(env, p.owned, open) && BodiesBefore(toks, p.block, open)
    requires env.pairs[open] < hi && Tree(toks, bs, Between(toks, open, env.pairs[open]), Some(range))
    ensures Planted(toks, env, AddChild(p, bs, open), range, parent)
    ensures ChildIn(p.below + bs, range, Between(toks, open, env.pairs[open]))
    ensures forall y | y in bs && y.parentId == Some(range) :: y.id == Between(toks, open, env.pairs[open])
  {
    var r := Between(toks, open, env.pairs[open]);
    assert Under(r, range) by { assert toks[open].start < toks[open].end; }
    forall b | b in p.below ensures Apart(b.id, r) {
      var o :| o in p.owned && Inside(toks, env, o, b.id);
      assert toks[open].start < toks[open].end && toks[env.pairs[o]].start < toks[env.pairs[o]].end
             && toks[o].start < toks[o].end
             && toks[env.pairs[open]].start < toks[env.pairs[open]].end;
    }
    AddTree(toks, p.block, p.below, bs, r);
    forall b | b in p.below + bs ensures exists o | o in p.owned + {open} :: Inside(toks, env, o, b.id) {
      if b in p.below {
        var o :| o in p.owned && Inside(toks, env, o, b.id);
        assert o in p.owned + {open};
      } else {
        var k :| 0 <= k < |bs| && bs[k] == b;
        TreeRange(toks, bs, r, Some(range), k);
        assert open in p.owned + {open} && Inside(toks, env, open, b.id);
      }
    }
    forall y | y in bs ensures y.parentId == Some(range) ==> y.id == r { ParentsInTree(toks, bs, r, range, y); }
  }
}
