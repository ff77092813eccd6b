/** Which common table expression a name in FROM denotes. */
module CteScopes {
  import opened SqlText
  import opened ScopeParser
  import opened Projection

  function CteName(c: Cte, dialect: Dialect): Text {
    IdentifierName(c.name, c.quoted, dialect)
  }

  function CteNamesOf(ctes: seq<Cte>, dialect: Dialect): (r: seq<Text>)
    ensures |r| == |ctes|
  {
    seq(|ctes|, i requires 0 <= i < |ctes| => CteName(ctes[i], dialect))
  }

  predicate SameName(a: Cte, b: Cte, dialect: Dialect) {
    ResolveName(CteName(a, dialect), true, [CteName(b, dialect)], dialect).Some?
  }

  /** Inner declarations hide outer ones of the same name. */
  function Overlay(outer: seq<Cte>, inner: seq<Cte>, dialect: Dialect): seq<Cte> {
    Unhidden(outer, inner, dialect) + inner
  }

  function Unhidden(outer: seq<Cte>, inner: seq<Cte>, dialect: Dialect): seq<Cte> {
    if outer == [] then []
    else
      (if exists b | b in inner :: SameName(outer[0], b, dialect) then [] else [outer[0]])
      + Unhidden(outer[1..], inner, dialect)
  }

  function FirstNamed(ctes: seq<Cte>, name: Text, dialect: Dialect): (r: Option<Cte>)
    ensures r.Some? ==> r.value in ctes
  {
    if ctes == [] then None
    else if CteName(ctes[0], dialect) == name then Some(ctes[0])
    else FirstNamed(ctes[1..], name, dialect)
  }

  /** The declaration a reference without a namespace denotes among those visible. */
  function Pick(ctes: seq<Cte>, ref: FromRef, dialect: Dialect): (r: Option<Cte>)
    ensures r.Some? ==> r.value in ctes
  {
    match ResolveName(ref.name, ref.nameQuoted, CteNamesOf(ctes, dialect), dialect)
    case None => None
    case Some(name) => FirstNamed(ctes, name, dialect)
  }

  // ---- names up to the case that matters ----

  function KeyOf(name: Text, dialect: Dialect): Text {
    if dialect == Postgres || dialect == Clickhouse then name else FoldLower(name)
  }

  /** Is some declaration called the same, up to the case that matters? */
  predicate Declares(ctes: seq<Cte>, key: Text, dialect: Dialect) {
    exists i :: 0 <= i < |ctes| && KeyOf(CteName(ctes[i], dialect), dialect) == key
  }

  lemma SameNameIff(a: Cte, b: Cte, dialect: Dialect)
    ensures SameName(a, b, dialect) <==> KeyOf(CteName(a, dialect), dialect) == KeyOf(CteName(b, dialect), dialect)
  {
    var x, y := CteName(a, dialect), CteName(b, dialect);
    var only: seq<Text> := [y];
    assert only[1..] == [];
    assert Matches(only, Exactly(x)) == (if y == x then [y] else []);
    assert Matches(only, UpToCase(x)) == (if FoldLower(y) == FoldLower(x) then [y] else []);
  }

  lemma {:induction false} MatchesAppend(a: seq<Text>, b: seq<Text>, f: Text -> bool)
    ensures Matches(a + b, f) == Matches(a, f) + Matches(b, f)
  {
    if a == [] {
      assert a + b == b;
    } else {
      MatchesAppend(a[1..], b, f);
      var head := if f(a[0]) then [a[0]] else [];
      assert Matches(a + b, f) == head + Matches(a[1..] + b, f) by { assert (a + b)[1..] == a[1..] + b; }
      assert Matches(a, f) == head + Matches(a[1..], f);
    }
  }

  lemma {:induction false} NoMatches(names: seq<Text>, f: Text -> bool)
    requires forall i | 0 <= i < |names| :: !f(names[i])
    ensures Matches(names, f) == []
  {
    if names != [] {
      assert forall i | 0 <= i < |names[1..]| :: names[1..][i] == names[i + 1];
      NoMatches(names[1..], f);
    }
  }

  /** Candidates called otherwise do not matter to a resolution. */
  lemma ResolveIgnores(name: Text, quoted: bool, a: seq<Text>, b: seq<Text>, dialect: Dialect)
    requires var key := KeyOf(IdentifierName(name, quoted, dialect), dialect);
             forall i | 0 <= i < |a| :: KeyOf(a[i], dialect) != key
    ensures ResolveName(name, quoted, a + b, dialect) == ResolveName(name, quoted, b, dialect)
    ensures ResolveName(name, quoted, b + a, dialect) == ResolveName(name, quoted, b, dialect)
  {
    var actual := IdentifierName(name, quoted, dialect);
    OthersIgnored(a, b, Exactly(actual));
    if dialect != Postgres && dialect != Clickhouse { OthersIgnored(a, b, UpToCase(actual)); }
    hide Matches, Exactly, UpToCase, IdentifierName;
  }

  lemma OthersIgnored(a: seq<Text>, b: seq<Text>, f: Text -> bool)
    requires forall i | 0 <= i < |a| :: !f(a[i])
    ensures Matches(a + b, f) == Matches(b, f) == Matches(b + a, f)
  {
    NoMatches(a, f);
    MatchesAppend(a, b, f);
    MatchesAppend(b, a, f);
    hide Matches;
  }

  lemma {:induction false} FirstNamedAppend(a: seq<Cte>, b: seq<Cte>, name: Text, dialect: Dialect)
    ensures FirstNamed(a + b, name, dialect) ==
              if FirstNamed(a, name, dialect).Some? then FirstNamed(a, name, dialect) else FirstNamed(b, name, dialect)
  {
    hide CteName;
    if a == [] {
      assert a + b == b;
    } else {
      FirstNamedAppend(a[1..], b, name, dialect);
      assert (a + b)[1..] == a[1..] + b && (a + b)[0] == a[0];
    }
  }

  lemma {:induction false} FirstNamedDeclares(a: seq<Cte>, name: Text, dialect: Dialect)
    ensures FirstNamed(a, name, dialect).Some? ==> Declares(a, KeyOf(name, dialect), dialect)
  {
    hide CteName, KeyOf;
    if a != [] && CteName(a[0], dialect) != name {
      FirstNamedDeclares(a[1..], name, dialect);
      if Declares(a[1..], KeyOf(name, dialect), dialect) {
        var i :| 0 <= i < |a[1..]| && KeyOf(CteName(a[1..][i], dialect), dialect) == KeyOf(name, dialect);
        assert a[i + 1] == a[1..][i];
      }
    }
  }

  /** What is not hidden is called like no inner declaration. */
  lemma {:induction false} UnhiddenApart(outer: seq<Cte>, inner: seq<Cte>, dialect: Dialect)
    ensures forall c, b | c in Unhidden(outer, inner, dialect) && b in inner :: !SameName(c, b, dialect)
  {
    hide SameName;
    if outer != [] { UnhiddenApart(outer[1..], inner, dialect); }
  }

  lemma UnhiddenKeys(outer: seq<Cte>, inner: seq<Cte>, key: Text, dialect: Dialect)
    requires Declares(inner, key, dialect)
    ensures !Declares(Unhidden(outer, inner, dialect), key, dialect)
  {
    var i :| 0 <= i < |inner| && KeyOf(CteName(inner[i], dialect), dialect) == key;
    var kept := Unhidden(outer, inner, dialect);
    UnhiddenApart(outer, inner, dialect);
    hide SameName, Unhidden;
    forall j | 0 <= j < |kept| ensures KeyOf(CteName(kept[j], dialect), dialect) != key {
      assert kept[j] in kept && inner[i] in inner;
      SameNameIff(kept[j], inner[i], dialect);
    }
  }

  /** The result of a resolution is called as asked, up to the case that matters. */
  lemma {:induction false} MatchesHold(names: seq<Text>, f: Text -> bool)
    ensures forall x | x in Matches(names, f) :: f(x) && x in names
  {
    if names != [] { MatchesHold(names[1..], f); }
  }

  lemma ResolvedKey(name: Text, quoted: bool, names: seq<Text>, dialect: Dialect)
    ensures var r := ResolveName(name, quoted, names, dialect);
            r.Some? ==>
              KeyOf(r.value, dialect) == KeyOf(IdentifierName(name, quoted, dialect), dialect) && r.value in names
  {
    var actual := IdentifierName(name, quoted, dialect);
    MatchesHold(names, Exactly(actual));
    MatchesHold(names, UpToCase(actual));
  }

  lemma NamesAppend(a: seq<Cte>, b: seq<Cte>, dialect: Dialect)
    ensures CteNamesOf(a + b, dialect) == CteNamesOf(a, dialect) + CteNamesOf(b, dialect)
  {
  }

  /** Where the inner declarations have no such name, hiding changes nothing for it. */
  lemma {:induction false} UnhiddenMatches(outer: seq<Cte>, inner: seq<Cte>, key: Text, f: Text -> bool,
                                           dialect: Dialect)
    requires !Declares(inner, key, dialect) && forall c :: f(c) ==> KeyOf(c, dialect) == key
    ensures Matches(CteNamesOf(Unhidden(outer, inner, dialect), dialect), f) == Matches(CteNamesOf(outer, dialect), f)
  {
    hide KeyOf, CteName;
    if outer != [] {
      UnhiddenMatches(outer[1..], inner, key, f, dialect);
      var rest := Unhidden(outer[1..], inner, dialect);
      assert outer == [outer[0]] + outer[1..];
      NamesAppend([outer[0]], outer[1..], dialect);
      MatchesAppend(CteNamesOf([outer[0]], dialect), CteNamesOf(outer[1..], dialect), f);
      if b :| b in inner && SameName(outer[0], b, dialect) {
        SameNameIff(outer[0], b, dialect);
        assert !f(CteName(outer[0], dialect));
        NoMatches(CteNamesOf([outer[0]], dialect), f);
        assert Unhidden(outer, inner, dialect) == rest;
      } else {
        assert Unhidden(outer, inner, dialect) == [outer[0]] + rest;
        NamesAppend([outer[0]], rest, dialect);
        MatchesAppend(CteNamesOf([outer[0]], dialect), CteNamesOf(rest, dialect), f);
      }
    }
  }

  lemma {:induction false} UnhiddenFirst(outer: seq<Cte>, inner: seq<Cte>, name: Text, dialect: Dialect)
    requires !Declares(inner, KeyOf(name, dialect), dialect)
    ensures FirstNamed(Unhidden(outer, inner, dialect), name, dialect) == FirstNamed(outer, name, dialect)
  {
    if outer != [] {
      UnhiddenFirst(outer[1..], inner, name, dialect);
      var rest := Unhidden(outer[1..], inner, dialect);
      if b :| b in inner && SameName(outer[0], b, dialect) {
        SameNameIff(outer[0], b, dialect);
        assert Unhidden(outer, inner, dialect) == rest;
      } else {
        assert Unhidden(outer, inner, dialect) == [outer[0]] + rest;
      }
    }
  }

  function RefKey(ref: FromRef, dialect: Dialect): Text {
    KeyOf(IdentifierName(ref.name, ref.nameQuoted, dialect), dialect)
  }

  /** Shadowing: a name declared inside denotes the inner declaration, any other what it denotes outside. */
  lemma PickOverlay(outer: seq<Cte>, inner: seq<Cte>, ref: FromRef, dialect: Dialect)
    ensures Pick(Overlay(outer, inner, dialect), ref, dialect)
            == if Declares(inner, RefKey(ref, dialect), dialect) then Pick(inner, ref, dialect)
               else Pick(outer, ref, dialect)
  {
    var key, kept := RefKey(ref, dialect), Unhidden(outer, inner, dialect);
    NamesAppend(kept, inner, dialect);
    if Declares(inner, key, dialect) { PickInner(kept, outer, inner, ref, dialect); }
    else { PickOuter(kept, outer, inner, ref, dialect); }
  }

  lemma PickInner(kept: seq<Cte>, outer: seq<Cte>, inner: seq<Cte>, ref: FromRef, dialect: Dialect)
    requires kept == Unhidden(outer, inner, dialect) && Declares(inner, RefKey(ref, dialect), dialect)
    ensures Pick(kept + inner, ref, dialect) == Pick(inner, ref, dialect)
  {
    var names := CteNamesOf(inner, dialect);
    NamesAppend(kept, inner, dialect);
    UnhiddenKeys(outer, inner, RefKey(ref, dialect), dialect);
    ResolveIgnores(ref.name, ref.nameQuoted, CteNamesOf(kept, dialect), names, dialect);
    ResolvedKey(ref.name, ref.nameQuoted, names, dialect);
    match ResolveName(ref.name, ref.nameQuoted, names, dialect)
    case None =>
    case Some(name) =>
      FirstNamedAppend(kept, inner, name, dialect);
      FirstNamedDeclares(kept, name, dialect);
  }

  lemma PickOuter(kept: seq<Cte>, outer: seq<Cte>, inner: seq<Cte>, ref: FromRef, dialect: Dialect)
    requires kept == Unhidden(outer, inner, dialect) && !Declares(inner, RefKey(ref, dialect), dialect)
    ensures Pick(kept + inner, ref, dialect) == Pick(outer, ref, dialect)
  {
    var actual, key := IdentifierName(ref.name, ref.nameQuoted, dialect), RefKey(ref, dialect);
    NamesAppend(kept, inner, dialect);
    ResolveIgnores(ref.name, ref.nameQuoted, CteNamesOf(inner, dialect), CteNamesOf(kept, dialect), dialect);
    UnhiddenMatches(outer, inner, key, Exactly(actual), dialect);
    if dialect != Postgres && dialect != Clickhouse {
      UnhiddenMatches(outer, inner, key, UpToCase(actual), dialect);
    }
    ResolvedKey(ref.name, ref.nameQuoted, CteNamesOf(outer, dialect), dialect);
    match ResolveName(ref.name, ref.nameQuoted, CteNamesOf(outer, dialect), dialect)
    case None =>
    case Some(name) =>
      UnhiddenFirst(outer, inner, name, dialect);
      FirstNamedAppend(kept, inner, name, dialect);
      FirstNamedDeclares(inner, name, dialect);
  }

  // ---- visibility along the nesting of queries ----

  /** Blocks have distinct identifiers, and a parent comes before its children. */
  ghost predicate Treelike(blocks: seq<Block>) {
    && (forall i, j | 0 <= i < j < |blocks| :: blocks[i].id != blocks[j].id)
    && (forall k | 0 <= k < |blocks|
          && blocks[k].parentId.Some? :: exists j :: 0 <= j < k && blocks[j].id == blocks[k].parentId.value)
  }

  /** The position of a block before another, or that position itself. */
  function Before(blocks: seq<Block>, id: Range, k: nat): (j: nat)
    requires k <= |blocks|
    ensures j <= k
    ensures j < k ==> blocks[j].id == id
  {
    if k == 0 then 0 else if blocks[k - 1].id == id then k - 1
    else
      var j := Before(blocks, id, k - 1);
      if j == k - 1 then k else j
  }

  /** Which declaration of a list has a block as its body, or the length of the list. */
  function BodyIndex(ctes: seq<Cte>, id: Range): (i: nat)
    ensures i <= |ctes|
    ensures i < |ctes| ==> ctes[i].bodyScopeId == id
  {
    if ctes == [] || ctes[0].bodyScopeId == id then 0 else 1 + BodyIndex(ctes[1..], id)
  }

  /** The siblings a body sees: those before it, and itself if it is recursive. */
  function Preceding(ctes: seq<Cte>, i: nat): seq<Cte>
    requires i < |ctes|
  {
    ctes[..if ctes[i].recursive then i + 1 else i]
  }

  /** What a block inherits, as one list. */
  function Inherited(blocks: seq<Block>, k: nat, dialect: Dialect): seq<Cte>
    requires k < |blocks|
    decreases k, 0
  {
    match blocks[k].parentId
    case None => []
    case Some(id) =>
      var p := Before(blocks, id, k);
      if p == k then []
      else
        var i := BodyIndex(blocks[p].ctes, blocks[k].id);
        if i < |blocks[p].ctes| then Overlay(Inherited(blocks, p, dialect), Preceding(blocks[p].ctes, i), dialect)
        else Visible(blocks, p, dialect)
  }

  function Visible(blocks: seq<Block>, k: nat, dialect: Dialect): seq<Cte>
    requires k < |blocks|
    decreases k, 1
  {
    Overlay(Inherited(blocks, k, dialect), blocks[k].ctes, dialect)
  }

  /** The rule: the nearest enclosing WITH that declares the name, as far as it may be seen from here. */
  function LookUp(blocks: seq<Block>, k: nat, ref: FromRef, dialect: Dialect): Option<Cte>
    requires k < |blocks|
    decreases k, 1
  {
    if Declares(blocks[k].ctes, RefKey(ref, dialect), dialect) then Pick(blocks[k].ctes, ref, dialect)
    else LookOutside(blocks, k, ref, dialect)
  }

  function LookOutside(blocks: seq<Block>, k: nat, ref: FromRef, dialect: Dialect): Option<Cte>
    requires k < |blocks|
    decreases k, 0
  {
    match blocks[k].parentId
    case None => None
    case Some(id) =>
      var p := Before(blocks, id, k);
      if p == k then None
      else
        var i := BodyIndex(blocks[p].ctes, blocks[k].id);
        if i == |blocks[p].ctes| then LookUp(blocks, p, ref, dialect)
        else if Declares(Preceding(blocks[p].ctes, i), RefKey(ref, dialect), dialect)
        then Pick(Preceding(blocks[p].ctes, i), ref, dialect)
        else LookOutside(blocks, p, ref, dialect)
  }

  lemma PickNone(ref: FromRef, dialect: Dialect)
    ensures Pick([], ref, dialect) == None
  {
    assert CteNamesOf([], dialect) == [];
  }

  /** Visibility by overlaid lists is lexical scoping with shadowing. */
  lemma {:induction false} VisibilityIsLexical(blocks: seq<Block>, k: nat, ref: FromRef, dialect: Dialect)
    requires k < |blocks|
    ensures Pick(Visible(blocks, k, dialect), ref, dialect) == LookUp(blocks, k, ref, dialect)
    ensures Pick(Inherited(blocks, k, dialect), ref, dialect) == LookOutside(blocks, k, ref, dialect)
    decreases k
  {
    hide Pick, Overlay, Declares, RefKey, Preceding;
    match blocks[k].parentId {
      case None => PickNone(ref, dialect);
      case Some(id) =>
        var p := Before(blocks, id, k);
        if p == k {
          PickNone(ref, dialect);
        } else {
          VisibilityIsLexical(blocks, p, ref, dialect);
          var i := BodyIndex(blocks[p].ctes, blocks[k].id);
          if i < |blocks[p].ctes| {
            PickOverlay(Inherited(blocks, p, dialect), Preceding(blocks[p].ctes, i), ref, dialect);
          }
        }
    }
    PickOverlay(Inherited(blocks, k, dialect), blocks[k].ctes, ref, dialect);
  }

  // ---- the memoised computation ----

  datatype Memo = Memo(visible: map<Range, seq<Cte>>, inherited: map<Range, seq<Cte>>)

  const MAX_VISITING := 32

  function InheritedFrom(memo: Memo, id: Range): seq<Cte> {
    if id in memo.inherited then memo.inherited[id] else []
  }

  ghost predicate Remembers(blocks: seq<Block>, memo: Memo, k: nat, dialect: Dialect) {
    k <= |blocks| && forall j | 0 <= j < k ::
      && blocks[j].id in memo.visible && memo.visible[blocks[j].id] == Visible(blocks, j, dialect)
      && blocks[j].id in memo.inherited && memo.inherited[blocks[j].id] == Inherited(blocks, j, dialect)
  }

  lemma BeforeIsParent(blocks: seq<Block>, k: nat)
    requires Treelike(blocks) && k < |blocks| && blocks[k].parentId.Some?
    ensures Before(blocks, blocks[k].parentId.value, k) < k
    ensures Before(blocks, blocks[k].parentId.value, |blocks|) == Before(blocks, blocks[k].parentId.value, k)
  {
    var id := blocks[k].parentId.value;
    var j :| 0 <= j < k && blocks[j].id == id;
    BeforeFinds(blocks, id, k, j);
    BeforeFinds(blocks, id, |blocks|, j);
  }

  lemma {:induction false} BeforeFinds(blocks: seq<Block>, id: Range, k: nat, j: nat)
    requires j < k <= |blocks| && blocks[j].id == id && forall i | 0 <= i < |blocks| && i != j :: blocks[i].id != id
    ensures Before(blocks, id, k) == j
  {
    if k - 1 != j { BeforeFinds(blocks, id, k - 1, j); }
  }

  /** A call from outside, with every block before this one remembered. */
  ghost predicate Sane(blocks: seq<Block>, k: nat, visiting: set<Range>, memo: Memo, dialect: Dialect) {
    Treelike(blocks) && Remembers(blocks, memo, k, dialect) && visiting == {}
  }

  /** The declarations visible in a block, remembered for it and for the blocks around it. */
  method Environment(blocks: seq<Block>, k: nat, visiting: set<Range>, memo: Memo, dialect: Dialect)
    returns (after: Memo, visible: seq<Cte>)
    requires k < |blocks| && |visiting| <= MAX_VISITING + 1
    ensures Sane(blocks, k, visiting, memo, dialect) && blocks[k].id !in memo.visible ==>
              Remembers(blocks, after, k + 1, dialect) && visible == Visible(blocks, k, dialect)
              && after.visible.Keys == memo.visible.Keys + {blocks[k].id}
    ensures blocks[k].id in memo.visible ==> after == memo && visible == memo.visible[blocks[k].id]
    decreases MAX_VISITING + 2 - |visiting|, 1
  {
    var block := blocks[k];
    if block.id in memo.visible { return memo, memo.visible[block.id]; }
    if block.id in visiting || |visiting| > MAX_VISITING { return memo, []; }
    hide Visible, Overlay, Remembers, Sane, Assembled;
    var inherited;
    after, inherited := FromParent(blocks, k, visiting, memo, dialect);
    visible := Overlay(inherited, block.ctes, dialect);
    if Sane(blocks, k, visiting, memo, dialect) { RememberOne(blocks, k, visiting, memo, visible, inherited, dialect); }
    after := Memo(after.visible[block.id := visible], after.inherited[block.id := inherited]);
  }

  /** What the parent hands down: all it sees, or for the body of a declaration what precedes that. */
  method FromParent(blocks: seq<Block>, k: nat, visiting: set<Range>, memo: Memo, dialect: Dialect)
    returns (after: Memo, inherited: seq<Cte>)
    requires k < |blocks| && |visiting| <= MAX_VISITING && blocks[k].id !in visiting
    ensures Sane(blocks, k, visiting, memo, dialect) ==>
              after == memo && inherited == Assembled(blocks, k, memo, dialect)
    decreases MAX_VISITING + 2 - |visiting|, 0
  {
    hide Visible, Overlay, Preceding, Remembers, Before, BodyIndex, Sane, InheritedFrom;
    var block := blocks[k];
    var p := if block.parentId.Some? then Before(blocks, block.parentId.value, |blocks|) else |blocks|;
    if p == |blocks| { return memo, []; }
    if Sane(blocks, k, visiting, memo, dialect) { ParentRemembered(blocks, memo, k, visiting, dialect); }
    after, inherited := Environment(blocks, p, visiting + {block.id}, memo, dialect);
    var own := BodyIndex(blocks[p].ctes, block.id);
    if own < |blocks[p].ctes| {
      inherited := Overlay(InheritedFrom(after, blocks[p].id), Preceding(blocks[p].ctes, own), dialect);
    }
  }

  lemma ParentRemembered(blocks: seq<Block>, memo: Memo, k: nat, visiting: set<Range>, dialect: Dialect)
    requires k < |blocks| && Sane(blocks, k, visiting, memo, dialect) && blocks[k].parentId.Some?
    ensures var p := Before(blocks, blocks[k].parentId.value, |blocks|); p < |blocks| ==> blocks[p].id in memo.visible
  {
    BeforeIsParent(blocks, k);
  }

  /** What a block inherits, put together from what is remembered of its parent. */
  function Assembled(blocks: seq<Block>, k: nat, memo: Memo, dialect: Dialect): seq<Cte>
    requires k < |blocks|
  {
    var p := if blocks[k].parentId.Some? then Before(blocks, blocks[k].parentId.value, |blocks|) else |blocks|;
    if p == |blocks| then []
    else
      var own := BodyIndex(blocks[p].ctes, blocks[k].id);
      if own < |blocks[p].ctes| then Overlay(InheritedFrom(memo, blocks[p].id), Preceding(blocks[p].ctes, own), dialect)
      else if blocks[p].id in memo.visible then memo.visible[blocks[p].id] else []
  }

  /** With everything before remembered, that is what the block inherits. */
  lemma InheritedHere(blocks: seq<Block>, k: nat, visiting: set<Range>, memo: Memo, dialect: Dialect)
    requires k < |blocks| && Sane(blocks, k, visiting, memo, dialect)
    ensures Assembled(blocks, k, memo, dialect) == Inherited(blocks, k, dialect)
  {
    hide Overlay, Preceding, Visible;
    if blocks[k].parentId.Some? { BeforeIsParent(blocks, k); }
  }

  lemma RememberOne(blocks: seq<Block>, k: nat, visiting: set<Range>, memo: Memo, visible: seq<Cte>,
                    inherited: seq<Cte>, dialect: Dialect)
    requires k < |blocks| && Sane(blocks, k, visiting, memo, dialect)
    requires inherited == Assembled(blocks, k, memo, dialect) && visible == Overlay(inherited, blocks[k].ctes, dialect)
    ensures visible == Visible(blocks, k, dialect)
    ensures Remembers(blocks, Memo(memo.visible[blocks[k].id := visible], memo.inherited[blocks[k].id := inherited]),
                      k + 1, dialect)
  {
    InheritedHere(blocks, k, visiting, memo, dialect);
    hide Overlay, Assembled;
  }

  method Environments(blocks: seq<Block>, dialect: Dialect) returns (environments: map<Range, seq<Cte>>)
    ensures Treelike(blocks) ==>
              forall k | 0 <= k < |blocks| ::
                blocks[k].id in environments && environments[blocks[k].id] == Visible(blocks, k, dialect)
  {
    hide Visible, Inherited;
    var memo := Memo(map[], map[]);
    for k := 0 to |blocks|
      invariant Treelike(blocks) ==>
                  Remembers(blocks, memo, k, dialect) && memo.visible.Keys == set j | 0 <= j < k :: blocks[j].id
    {
      var visible;
      memo, visible := Environment(blocks, k, {}, memo, dialect);
    }
    environments := memo.visible;
  }
}
