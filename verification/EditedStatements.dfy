/** Incremental against from-scratch: what a partial scan of the edited text has to find. */
module EditedStatements {
  import opened SqlText
  import opened Tokenizer
  import opened Statements
  import opened Rescan
  import opened Edits

  /** One token of a scan in progress: `seen` are the tokens of the statement being read. */
  lemma ScanStep(lexer: Lexer, t: Text, i: nat, start: int, seen: seq<Token>)
    requires i <= |t|
    ensures var rest := Cut(lexer.Tokens(t, i), start, seen, |t|);
      match lexer.NextToken(t, i)
      case None => rest == [Chunk(start, |t| - start, seen)]
      case Some(tok) =>
        if IsSeparator(tok) then rest == [Chunk(start, tok.start - start, seen)] + Scan(lexer, t, tok.end)
        else rest == Cut(lexer.Tokens(t, tok.end), start, seen + [LocalToken(tok, start)], |t|)
  {
    match lexer.NextToken(t, i)
    case None =>
    case Some(tok) =>
      var toks := lexer.Tokens(t, i);
      assert toks[1..] == lexer.Tokens(t, tok.end);
  }

  /** A batch leaves the text before its first change and, displaced, after its last. */
  lemma ReplacedEdited(t: Text, cs: seq<Change>)
    requires cs != [] && Disjoint(t, cs, 0)
    ensures Edited(t, Replaced(t, cs, 0), cs[0].offset, cs[|cs| - 1].End(), Delta(cs))
  {
    ReplacedSuffix(t, cs, 0);
    ReplacedSuffix(t, cs, cs[0].offset);
    ReplacedCopies(t, cs, 0, cs[0].offset);
    var t', offset := Replaced(t, cs, 0), cs[0].offset;
    assert t' == t[0..offset] + Replaced(t, cs, offset);
    assert t'[..offset] == t[..offset];
  }

  lemma ShiftNothing(d: int)
    ensures ShiftChunks([], d) == []
  {
  }

  lemma KeptBefore(lexer: Lexer, t: Text, t': Text, cs: seq<Chunk>, first: nat, f: nat, offset: int)
    requires cs == Chunks(lexer, t) && Located(cs, offset, first) && 0 <= cs[first].start <= offset <= |t|
    requires offset <= |t'| && t'[..offset] == t[..offset]
    requires f == Checkpoint(lexer.dialect, t, cs, first, offset)
    ensures 0 <= cs[f].start <= |t'|
    ensures Chunks(lexer, t') == cs[..f] + Scan(lexer, t', cs[f].start)
  {
    CheckpointHolds(lexer, t, t', first, offset, f);
  }

  /** What follows the boundary where the scan stopped. */
  ghost predicate Unread(lexer: Lexer, t': Text, cs: seq<Chunk>, s: nat, d: int, tail: seq<Chunk>) {
    if s < |cs| then 0 <= cs[s].start + d <= |t'| && tail == Scan(lexer, t', cs[s].start + d)
    else s == |cs| && tail == []
  }

  lemma KeptAfter(lexer: Lexer, t: Text, t': Text, cs: seq<Chunk>, offset: int, oldEnd: int, d: int, s: nat,
                  tail: seq<Chunk>)
    requires cs == Chunks(lexer, t) && Edited(t, t', offset, oldEnd, d)
    requires Unread(lexer, t', cs, s, d, tail)
    requires 0 < s && (s < |cs| ==> oldEnd < cs[s].start)
    ensures tail == ShiftChunks(cs[s..], d)
  {
    if s < |cs| {
      Resynchronised(lexer, t, t', cs, offset, oldEnd, d, s, cs[s].start);
    } else {
      ShiftNothing(d);
    }
  }

  /** Old statements before the checkpoint, rescanned ones, old ones displaced: the scan of the new text. */
  lemma EditedChunks(lexer: Lexer, t: Text, t': Text, cs: seq<Chunk>, first: nat, f: nat, offset: int, oldEnd: int,
                     d: int, pre: seq<Chunk>, s: nat, tail: seq<Chunk>)
    requires cs == Chunks(lexer, t) && Edited(t, t', offset, oldEnd, d)
    requires Located(cs, offset, first) && 0 <= cs[first].start <= offset
    requires f == Checkpoint(lexer.dialect, t, cs, first, offset)
    requires 0 <= cs[f].start <= |t'| && Scan(lexer, t', cs[f].start) == pre + tail
    requires Unread(lexer, t', cs, s, d, tail)
    requires f < s && (s < |cs| ==> oldEnd < cs[s].start)
    ensures Chunks(lexer, t') == cs[..f] + pre + ShiftChunks(cs[s..], d)
  {
    KeptBefore(lexer, t, t', cs, first, f, offset);
    KeptAfter(lexer, t, t', cs, offset, oldEnd, d, s, tail);
    Regroup(cs[..f], pre, tail);
  }

  lemma Regroup(a: seq<Chunk>, b: seq<Chunk>, c: seq<Chunk>)
    ensures a + (b + c) == a + b + c
  {
  }
}
