/** What a statement of the document is, found without cutting it: by a pass over all its tokens. */
module StatementLookup {
  import opened SqlText
  import opened Tokenizer
  import opened Statements
  import opened Rescan
  import opened ScopeParser
  import opened BlockParser
  import opened ParserShift

  /** The statement an offset falls in, read off the separators. */
  function FindFrom(toks: seq<Token>, offset: int, size: int, start: int): Range {
    if toks == [] then Range(start, size)
    else if !IsSeparator(toks[0]) then FindFrom(toks[1..], offset, size, start)
    else if toks[0].end <= offset then FindFrom(toks[1..], offset, size, toks[0].end)
    else Range(start, toks[0].start)
  }

  function FindStatement(toks: seq<Token>, offset: int, size: int): Range {
    FindFrom(toks, offset, size, 0)
  }

  method FindSqlStatement(toks: seq<Token>, offset: int, size: int) returns (r: Range)
    ensures r == FindStatement(toks, offset, size)
  {
    var start := 0;
    for k := 0 to |toks|
      invariant FindFrom(toks[k..], offset, size, start) == FindStatement(toks, offset, size)
    {
      assert toks[k..][0] == toks[k] && toks[k..][1..] == toks[k + 1..];
      if IsSeparator(toks[k]) {
        if toks[k].end <= offset { start := toks[k].end; }
        else { return Range(start, toks[k].start); }
      }
    }
    return Range(start, size);
  }

  /** The tokens that lie in a range. */
  function Within(toks: seq<Token>, r: Range): seq<Token> {
    if toks == [] then []
    else (if r.start <= toks[0].start && toks[0].end <= r.end then [toks[0]] else []) + Within(toks[1..], r)
  }

  function ChunkRange(c: Chunk): Range { Range(c.start, c.start + c.length) }

  /** Tokens in order, from an offset to the end of a text. */
  ghost predicate Ordered(toks: seq<Token>, start: int, size: int) {
    && start <= size
    && (forall k | 0 <= k < |toks| :: start <= toks[k].start < toks[k].end <= size)
    && (forall j, k | 0 <= j < k < |toks| :: toks[j].end <= toks[k].start)
  }

  lemma TokensInOrder(lexer: Lexer, t: Text)
    ensures Ordered(lexer.Tokens(t, 0), 0, |t|)
  {
    TokensScanned(lexer, t);
  }

  /** Binary search in the statements finds what the pass over the tokens finds. */
  lemma {:induction false} LocatedIsFound(toks: seq<Token>, start: int, seen: seq<Token>, size: int, offset: int,
                                          k: nat)
    requires Ordered(toks, start, size)
    requires Located(Cut(toks, start, seen, size), offset, k)
    ensures FindFrom(toks, offset, size, start) == ChunkRange(Cut(toks, start, seen, size)[k])
  {
    if toks != [] {
      var tok := toks[0];
      if !IsSeparator(tok) {
        LocatedIsFound(toks[1..], start, seen + [LocalToken(tok, start)], size, offset, k);
      } else {
        var rest := Cut(toks[1..], tok.end, [], size);
        CutIncreasing(toks[1..], tok.end, [], size);
        assert k > 0 ==> rest[k - 1].start <= offset && tok.end <= rest[k - 1].start;
        if tok.end <= offset { LocatedIsFound(toks[1..], tok.end, [], size, offset, k - 1); }
      }
    }
  }

  lemma {:induction false} NoneWithin(toks: seq<Token>, start: int, size: int, r: Range)
    requires Ordered(toks, start, size) && r.end <= start
    ensures Within(toks, r) == []
  {
    if toks != [] { NoneWithin(toks[1..], start, size, r); }
  }

  lemma {:induction false} FirstReaches(toks: seq<Token>, start: int, seen: seq<Token>, size: int, lo: int)
    requires Ordered(toks, lo, size)
    ensures lo <= ChunkRange(Cut(toks, start, seen, size)[0]).end
    ensures forall k | 0 < k < |Cut(toks, start, seen, size)| :: lo <= Cut(toks, start, seen, size)[k].start
  {
    if toks != [] {
      if IsSeparator(toks[0]) { CutIncreasing(toks[1..], toks[0].end, [], size); }
      else { FirstReaches(toks[1..], start, seen + [LocalToken(toks[0], start)], size, lo); }
    }
  }

  lemma ShiftTokensAppend(seen: seq<Token>, tok: Token, d: int, rest: seq<Token>)
    ensures ShiftTokens(seen + [LocalToken(tok, d)], d) + rest == ShiftTokens(seen, d) + ([tok] + rest)
  {
  }

  /** The tokens of a statement, displaced to it, are those of the document that lie in it. */
  lemma {:induction false} ChunkTokens(toks: seq<Token>, start: int, seen: seq<Token>, size: int, k: nat, c: Chunk)
    requires Ordered(toks, start, size) && k < |Cut(toks, start, seen, size)| && c == Cut(toks, start, seen, size)[k]
    ensures ShiftTokens(c.tokens, c.start)
            == (if k == 0 then ShiftTokens(seen, start) else []) + Within(toks, ChunkRange(c))
  {
    if toks != [] {
      var tok := toks[0];
      if IsSeparator(tok) {
        if k == 0 {
          NoneWithin(toks[1..], tok.end, size, ChunkRange(c));
        } else {
          CutIncreasing(toks[1..], tok.end, [], size);
          ChunkTokens(toks[1..], tok.end, [], size, k - 1, c);
        }
      } else {
        var seen' := seen + [LocalToken(tok, start)];
        ChunkTokens(toks[1..], start, seen', size, k, c);
        FirstReaches(toks[1..], start, seen', size, tok.end);
        ShiftTokensAppend(seen, tok, start, Within(toks[1..], ChunkRange(c)));
      }
    }
  }

  /** The parser looks at nothing outside the statement. */
  lemma {:induction false} RelevantWithin(all: seq<Token>, statement: Range)
    ensures RelevantTokens(Within(all, statement), statement) == RelevantTokens(all, statement)
  {
    if all != [] {
      RelevantWithin(all[1..], statement);
      var rest := Within(all[1..], statement);
      assert ([all[0]] + rest)[1..] == rest && [] + rest == rest;
    }
  }

  /** A statement of the document, by definition: found, filtered and parsed in the whole token list. */
  datatype Lookup = Lookup(statement: Range, tokens: seq<Token>, blocks: Outcome<seq<Block>>)

  function LookupAt(lexer: Lexer, t: Text, offset: int): Lookup {
    var toks := lexer.Tokens(t, 0);
    var statement := FindStatement(toks, offset, |t|);
    Lookup(statement, Within(toks, statement), ParseBlocks(lexer, toks, statement))
  }

  lemma ParseWithin(lexer: Lexer, all: seq<Token>, statement: Range)
    ensures ParseBlocks(lexer, all, statement) == ParseBlocks(lexer, Within(all, statement), statement)
  {
    RelevantWithin(all, statement);
  }

  /** A statement's tokens are parsed where they stand or at offset zero, with the same result up to displacement. */
  lemma ParseLocally(lexer: Lexer, all: seq<Token>, c: Chunk)
    requires ShiftTokens(c.tokens, c.start) == Within(all, ChunkRange(c))
    ensures ParseBlocks(lexer, all, ChunkRange(c))
            == ShiftOutcome(ParseBlocks(lexer, c.tokens, Range(0, c.length)), c.start)
  {
    ParseWithin(lexer, all, ChunkRange(c));
    assert ShiftRange(Range(0, c.length), c.start) == ChunkRange(c);
    ParseBlocksShift(lexer, c.tokens, Range(0, c.length), c.start);
  }

  /** What the document keeps of a statement determines everything a lookup reports. */
  lemma ChunkLookup(lexer: Lexer, t: Text, cs: seq<Chunk>, offset: int, k: nat)
    requires cs == Chunks(lexer, t) && Located(cs, offset, k)
    ensures LookupAt(lexer, t, offset)
            == Lookup(ChunkRange(cs[k]), ShiftTokens(cs[k].tokens, cs[k].start),
                      ShiftOutcome(ParseBlocks(lexer, cs[k].tokens, Range(0, cs[k].length)), cs[k].start))
  {
    var toks := lexer.Tokens(t, 0);
    TokensInOrder(lexer, t);
    LocatedIsFound(toks, 0, [], |t|, offset, k);
    ChunkTokens(toks, 0, [], |t|, k, cs[k]);
    assert ShiftTokens([], 0) + Within(toks, ChunkRange(cs[k])) == Within(toks, ChunkRange(cs[k]));
    assert [] + Within(toks, ChunkRange(cs[k])) == Within(toks, ChunkRange(cs[k]));
    ParseLocally(lexer, toks, cs[k]);
  }
}
