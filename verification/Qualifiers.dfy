/** Which relation a qualifier denotes, and which column a path: the only one called so, or the only one up to case. */
module Qualifiers {
  import opened SqlText
  import opened Tokenizer
  import opened ScopeParser
  import opened Projection

  // ---- the only one ----

  ghost predicate Alone(names: seq<Text>, i: nat, f: Text -> bool) {
    i < |names| && f(names[i]) && forall j | 0 <= j < |names| && j != i :: !f(names[j])
  }

  ghost predicate NoneIs(names: seq<Text>, f: Text -> bool) {
    forall j | 0 <= j < |names| :: !f(names[j])
  }

  predicate CaseBlind(dialect: Dialect) { dialect != Postgres && dialect != Clickhouse }

  /** The only one called so, or where none is and case does not decide, the only one called so up to case. */
  ghost predicate Denotes(names: seq<Text>, i: nat, name: Text, dialect: Dialect) {
    || Alone(names, i, Exactly(name))
    || (CaseBlind(dialect) && NoneIs(names, Exactly(name)) && Alone(names, i, UpToCase(name)))
  }

  lemma {:induction false} MatchesNone(names: seq<Text>, f: Text -> bool)
    ensures Matches(names, f) == [] <==> NoneIs(names, f)
  {
    if names != [] {
      MatchesNone(names[1..], f);
      assert forall j | 0 <= j < |names| - 1 :: names[1..][j] == names[j + 1];
      if NoneIs(names[1..], f) && !f(names[0]) {
        forall j | 0 <= j < |names| ensures !f(names[j]) { if j > 0 { assert names[j] == names[1..][j - 1]; } }
      }
    }
  }

  lemma {:induction false} MatchesAlone(names: seq<Text>, f: Text -> bool, i: nat)
    requires Alone(names, i, f)
    ensures Matches(names, f) == [names[i]]
  {
    if i == 0 {
      MatchesNone(names[1..], f);
    } else {
      assert names[1..][i - 1] == names[i];
      MatchesAlone(names[1..], f, i - 1);
    }
  }

  lemma {:induction false} OneMatch(names: seq<Text>, f: Text -> bool) returns (i: nat)
    requires |Matches(names, f)| == 1
    ensures Alone(names, i, f)
  {
    if f(names[0]) {
      MatchesNone(names[1..], f);
      i := 0;
      forall j | 0 < j < |names| ensures !f(names[j]) { assert names[j] == names[1..][j - 1]; }
    } else {
      var k := OneMatch(names[1..], f);
      i := k + 1;
      forall j | 0 <= j < |names| && j != i ensures !f(names[j]) { if j > 0 { assert names[j] == names[1..][j - 1]; } }
    }
  }

  /** What a name resolves to is what it denotes. */
  lemma ResolvedDenotes(name: Text, quoted: bool, names: seq<Text>, dialect: Dialect, i: nat)
    requires Denotes(names, i, IdentifierName(name, quoted, dialect), dialect)
    ensures i < |names| && ResolveName(name, quoted, names, dialect) == Some(names[i])
    ensures Alone(names, i, Exactly(names[i]))
  {
    var actual := IdentifierName(name, quoted, dialect);
    hide Matches, IdentifierName;
    if Alone(names, i, Exactly(actual)) {
      MatchesAlone(names, Exactly(actual), i);
    } else {
      MatchesNone(names, Exactly(actual));
      MatchesAlone(names, UpToCase(actual), i);
    }
  }

  lemma DenotedResolves(name: Text, quoted: bool, names: seq<Text>, dialect: Dialect) returns (i: nat)
    requires ResolveName(name, quoted, names, dialect).Some?
    ensures Denotes(names, i, IdentifierName(name, quoted, dialect), dialect)
  {
    var actual := IdentifierName(name, quoted, dialect);
    hide Matches, IdentifierName;
    if |Matches(names, Exactly(actual))| == 1 {
      i := OneMatch(names, Exactly(actual));
    } else {
      MatchesNone(names, Exactly(actual));
      i := OneMatch(names, UpToCase(actual));
    }
  }

  // ---- relations ----

  lemma {:induction false} WithNameAlone(refs: seq<FromRef>, name: Text, dialect: Dialect, i: nat)
    requires Alone(RelationNames(refs, dialect), i, Exactly(name))
    ensures WithName(refs, name, dialect) == [refs[i]]
  {
    var names := RelationNames(refs, dialect);
    assert names[1..] == RelationNames(refs[1..], dialect) && names[0] == RelationName(refs[0], dialect);
    if i == 0 {
      WithNameNone(refs[1..], name, dialect);
    } else {
      assert !Exactly(name)(names[0]);
      WithNameAlone(refs[1..], name, dialect, i - 1);
    }
  }

  lemma {:induction false} WithNameNone(refs: seq<FromRef>, name: Text, dialect: Dialect)
    requires NoneIs(RelationNames(refs, dialect), Exactly(name))
    ensures WithName(refs, name, dialect) == []
  {
    if refs != [] {
      var names := RelationNames(refs, dialect);
      assert names[1..] == RelationNames(refs[1..], dialect) && names[0] == RelationName(refs[0], dialect);
      assert !Exactly(name)(names[0]);
      WithNameNone(refs[1..], name, dialect);
    }
  }

  /** Of these relations a name denotes at most one, and the search finds it. */
  function Found(tok: Token, refs: seq<FromRef>, dialect: Dialect): Option<FromRef> {
    match ResolveName(Decoded(tok), tok.quoted, RelationNames(refs, dialect), dialect)
    case None => None
    case Some(name) =>
      var matched := WithName(refs, name, dialect);
      if |matched| == 1 then Some(matched[0]) else None
  }

  lemma FoundIff(tok: Token, refs: seq<FromRef>, dialect: Dialect, r: FromRef)
    ensures Found(tok, refs, dialect) == Some(r) <==>
              exists i: nat :: i < |refs| && refs[i] == r
                && Denotes(RelationNames(refs, dialect), i, SemanticName(tok, dialect), dialect)
  {
    var names, name := RelationNames(refs, dialect), SemanticName(tok, dialect);
    hide Decoded, IdentifierName, Denotes, RelationNames, WithName;
    if Found(tok, refs, dialect) == Some(r) {
      var i := DenotedResolves(Decoded(tok), tok.quoted, names, dialect);
      FoundAt(tok, refs, dialect, i);
    }
    forall i: nat | i < |refs| && refs[i] == r && Denotes(names, i, name, dialect)
      ensures Found(tok, refs, dialect) == Some(r)
    {
      FoundAt(tok, refs, dialect, i);
    }
  }

  lemma FoundAt(tok: Token, refs: seq<FromRef>, dialect: Dialect, i: nat)
    requires Denotes(RelationNames(refs, dialect), i, SemanticName(tok, dialect), dialect)
    ensures i < |refs| && Found(tok, refs, dialect) == Some(refs[i])
  {
    ResolvedDenotes(Decoded(tok), tok.quoted, RelationNames(refs, dialect), dialect, i);
    hide ResolveName, Decoded, IdentifierName, Denotes;
    WithNameAlone(refs, RelationNames(refs, dialect)[i], dialect, i);
  }

  /** `t` denotes the only relation called so, by its alias if it has one. */
  lemma NameDenotes(tok: Token, refs: seq<FromRef>, dialect: Dialect, r: FromRef)
    requires IsIdentifier(tok)
    ensures RefForQualifier([tok], refs, dialect) == Some(r) <==>
              exists i: nat :: i < |refs| && refs[i] == r
                && Denotes(RelationNames(refs, dialect), i, SemanticName(tok, dialect), dialect)
  {
    FoundIff(tok, refs, dialect, r);
    hide ResolveName, Decoded, IdentifierName, Denotes, RelationNames, WithName;
    assert RefForQualifier([tok], refs, dialect) == Found(tok, refs, dialect);
  }

  // ---- qualified relations ----

  /**
   The namespace a name denotes: the one so called, or where none is and case does not decide, the only one up to case.
   */
  ghost predicate DenotesSpace(spaces: seq<Text>, space: Text, name: Text, dialect: Dialect) {
    && space in spaces
    && (|| space == name
        || (CaseBlind(dialect) && name !in spaces && UpToCase(name)(space)
            && forall x | x in spaces && UpToCase(name)(x) :: x == space))
  }

  lemma {:induction false} OnceKeeps(names: seq<Text>)
    ensures forall x :: x in Once(names) <==> x in names
    ensures forall i, j | 0 <= i < j < |Once(names)| :: Once(names)[i] != Once(names)[j]
  {
    if names != [] {
      OnceKeeps(names[..|names| - 1]);
      assert names == names[..|names| - 1] + [names[|names| - 1]];
    }
  }

  lemma SpaceIff(tok: Token, spaces: seq<Text>, dialect: Dialect, space: Text)
    ensures ResolveName(Decoded(tok), tok.quoted, Once(spaces), dialect) == Some(space)
            <==> DenotesSpace(spaces, space, SemanticName(tok, dialect), dialect)
  {
    var once := Once(spaces);
    OnceKeeps(spaces);
    hide ResolveName, Decoded, IdentifierName, Once, FoldLower;
    if DenotesSpace(spaces, space, SemanticName(tok, dialect), dialect) {
      var i :| 0 <= i < |once| && once[i] == space;
      ResolvedDenotes(Decoded(tok), tok.quoted, once, dialect, i);
    }
    if ResolveName(Decoded(tok), tok.quoted, once, dialect) == Some(space) {
      var i := DenotedResolves(Decoded(tok), tok.quoted, once, dialect);
      ResolvedDenotes(Decoded(tok), tok.quoted, once, dialect, i);
      DenotedSpace(spaces, once, i, SemanticName(tok, dialect), dialect);
    }
  }

  lemma DenotedSpace(spaces: seq<Text>, once: seq<Text>, i: nat, name: Text, dialect: Dialect)
    requires Denotes(once, i, name, dialect) && forall x :: x in once <==> x in spaces
    ensures i < |once| && DenotesSpace(spaces, once[i], name, dialect)
  {
    hide FoldLower;
    if !Alone(once, i, Exactly(name)) {
      forall x | x in spaces && UpToCase(name)(x) ensures x == once[i] {
        var j :| 0 <= j < |once| && once[j] == x;
      }
      assert forall j | 0 <= j < |once| :: !Exactly(name)(once[j]);
    }
  }

  /** `s.t` denotes the only relation called `t` among those without alias in the namespace that `s` denotes. */
  lemma QualifiedDenotes(s: Token, dot: Token, t: Token, refs: seq<FromRef>, dialect: Dialect, r: FromRef)
    requires IsIdentifier(s) && dot.text == [DOT] && IsIdentifier(t)
    ensures RefForQualifier([s, dot, t], refs, dialect) == Some(r) <==>
              exists space, i: nat ::
                var few := WithNamespace(Qualifiable(refs), space, dialect);
                && DenotesSpace(NamespacesOf(Qualifiable(refs), dialect), space, SemanticName(s, dialect), dialect)
                && i < |few| && few[i] == r
                   && Denotes(RelationNames(few, dialect), i, SemanticName(t, dialect), dialect)
  {
    var spaces := NamespacesOf(Qualifiable(refs), dialect);
    var space := ResolveName(Decoded(s), s.quoted, Once(spaces), dialect);
    QualifiedFound(s, dot, t, refs, dialect);
    hide RefForQualifier, ResolveName, Decoded, IdentifierName, Denotes, DenotesSpace, RelationNames, Once, Found;
    hide Qualifiable, WithNamespace, NamespacesOf, SemanticName;
    if space.Some? {
      SpaceIff(s, spaces, dialect, space.value);
      FoundIff(t, WithNamespace(Qualifiable(refs), space.value, dialect), dialect, r);
    }
    forall x | DenotesSpace(spaces, x, SemanticName(s, dialect), dialect) ensures space == Some(x) {
      SpaceIff(s, spaces, dialect, x);
    }
  }

  lemma QualifiedFound(s: Token, dot: Token, t: Token, refs: seq<FromRef>, dialect: Dialect)
    requires IsIdentifier(s) && dot.text == [DOT] && IsIdentifier(t)
    ensures RefForQualifier([s, dot, t], refs, dialect)
            == match ResolveName(Decoded(s), s.quoted, Once(NamespacesOf(Qualifiable(refs), dialect)), dialect)
               case None => None
               case Some(space) => Found(t, WithNamespace(Qualifiable(refs), space, dialect), dialect)
  {
    hide ResolveName, Decoded, RelationNames, WithName, Once, Qualifiable, WithNamespace, NamespacesOf;
    assert [s, dot, t][0] == s && [s, dot, t][2] == t;
  }

  // ---- columns ----

  /** Where all columns of the sources are known, a path denotes the only one called so. */
  lemma ColumnDenotes(tokens: seq<Token>, refs: seq<FromRef>, sources: seq<FromRef>, known: int -> Option<seq<Text>>,
                      dialect: Dialect, found: seq<Text>, x: Text)
    requires Path(tokens) && (|tokens| == 1 || |tokens| == 3 || |tokens| == 5)
    requires sources == if |tokens| == 1 then refs
                        else match RefForQualifier(tokens[..|tokens| - 2], refs, dialect)
                             case None => []
                             case Some(r) => [r]
    requires sources != [] && AllColumns(sources, known) == Some(found)
    ensures AsColumn(tokens, refs, known, dialect) == Some(x) <==>
              exists i: nat :: i < |found| && found[i] == x
                && Denotes(found, i, SemanticName(tokens[|tokens| - 1], dialect), dialect)
  {
    var last := tokens[|tokens| - 1];
    var name := SemanticName(last, dialect);
    hide ResolveName, Decoded, IdentifierName, Denotes, RefForQualifier, AllColumns, Path, Matches;
    if AsColumn(tokens, refs, known, dialect) == Some(x) {
      var i := DenotedResolves(Decoded(last), last.quoted, found, dialect);
      ResolvedDenotes(Decoded(last), last.quoted, found, dialect, i);
    }
    forall i: nat | i < |found| && found[i] == x && Denotes(found, i, name, dialect)
      ensures AsColumn(tokens, refs, known, dialect) == Some(x)
    {
      ResolvedDenotes(Decoded(last), last.quoted, found, dialect, i);
      MatchesAlone(found, Exactly(x), i);
    }
  }
}
