/** Statements as lists of tokens between separators. */
module Statements {
  import opened SqlText
  import opened Tokenizer

  /** A statement: its offset, its length without the separator, its tokens in local coordinates. */
  datatype Chunk = Chunk(start: int, length: int, tokens: seq<Token>)

  function ShiftChunk(c: Chunk, delta: int): Chunk {
    c.(start := c.start + delta)
  }

  function ShiftChunks(cs: seq<Chunk>, delta: int): (r: seq<Chunk>)
    ensures |r| == |cs|
  {
    seq(|cs|, k requires 0 <= k < |cs| => ShiftChunk(cs[k], delta))
  }

  /** Cuts a token list; `start` and `seen` are the statement being read, `size` the end of the text. */
  function Cut(toks: seq<Token>, start: int, seen: seq<Token>, size: int): (cs: seq<Chunk>)
    ensures |cs| > 0 && cs[0].start == start
  {
    if toks == [] then [Chunk(start, size - start, seen)]
    else if IsSeparator(toks[0]) then
      [Chunk(start, toks[0].start - start, seen)] + Cut(toks[1..], toks[0].end, [], size)
    else Cut(toks[1..], start, seen + [LocalToken(toks[0], start)], size)
  }

  /** The statements of a text from a boundary on. */
  function Scan(lexer: Lexer, t: Text, start: nat): seq<Chunk>
    requires start <= |t|
  {
    Cut(lexer.Tokens(t, start), start, [], |t|)
  }

  /** The reference: a scan of the whole text. */
  function Chunks(lexer: Lexer, t: Text): seq<Chunk> {
    Scan(lexer, t, 0)
  }

  lemma ShiftChunksCons(c: Chunk, cs: seq<Chunk>, delta: int)
    ensures ShiftChunks([c] + cs, delta) == [ShiftChunk(c, delta)] + ShiftChunks(cs, delta)
  {
  }

  /** Cutting commutes with displacement: token coordinates are local. */
  lemma {:induction false} CutShift(toks: seq<Token>, start: int, seen: seq<Token>, size: int, d: int)
    ensures Cut(ShiftTokens(toks, d), start + d, seen, size + d) == ShiftChunks(Cut(toks, start, seen, size), d)
  {
    if toks != [] {
      var tok := toks[0];
      assert ShiftTokens(toks, d)[1..] == ShiftTokens(toks[1..], d);
      if IsSeparator(tok) {
        CutShift(toks[1..], tok.end, [], size, d);
        ShiftChunksCons(Chunk(start, tok.start - start, seen), Cut(toks[1..], tok.end, [], size), d);
      } else {
        assert LocalToken(ShiftToken(tok, d), start + d) == LocalToken(tok, start);
        CutShift(toks[1..], start, seen + [LocalToken(tok, start)], size, d);
      }
    }
  }

  /** How many tokens make up the first `j` statements, separators included. */
  function Consumed(toks: seq<Token>, j: nat): (m: nat)
    ensures m <= |toks|
  {
    if j == 0 || toks == [] then 0
    else 1 + Consumed(toks[1..], if IsSeparator(toks[0]) then j - 1 else j)
  }

  /** The j-th boundary splits the tokens at a separator, and the statements there. */
  lemma {:induction false} CutAt(toks: seq<Token>, start: int, seen: seq<Token>, size: int, j: nat)
    requires 0 < j < |Cut(toks, start, seen, size)|
    ensures var m := Consumed(toks, j);
            && m > 0 && IsSeparator(toks[m - 1])
            && Cut(toks, start, seen, size)[j].start == toks[m - 1].end
            && Cut(toks, start, seen, size)[j..] == Cut(toks[m..], toks[m - 1].end, [], size)
  {
    var tok := toks[0];
    if IsSeparator(tok) {
      if j > 1 {
        CutAt(toks[1..], tok.end, [], size, j - 1);
        var m := Consumed(toks[1..], j - 1);
        assert toks[1..][m..] == toks[m + 1..];
      }
    } else {
      CutAt(toks[1..], start, seen + [LocalToken(tok, start)], size, j);
      var m := Consumed(toks[1..], j);
      assert toks[1..][m..] == toks[m + 1..];
    }
  }

  /** Lists that share those tokens share those statements, whatever follows. */
  lemma {:induction false} CutPrefix(toks: seq<Token>, toks': seq<Token>, start: int, seen: seq<Token>, size: int,
                                     size': int, j: nat)
    requires 0 < j < |Cut(toks, start, seen, size)|
    requires var m := Consumed(toks, j); m <= |toks'| && toks'[..m] == toks[..m]
    ensures j < |Cut(toks', start, seen, size')| && Consumed(toks', j) == Consumed(toks, j)
    ensures Cut(toks', start, seen, size')[..j] == Cut(toks, start, seen, size)[..j]
  {
    var m := Consumed(toks, j);
    var tok := toks[0];
    assert toks'[0] == toks'[..m][0] == toks[..m][0];
    var j' := if IsSeparator(tok) then j - 1 else j;
    assert toks'[1..][..m - 1] == toks'[..m][1..] == toks[..m][1..] == toks[1..][..m - 1];
    if IsSeparator(tok) {
      var c := Chunk(start, tok.start - start, seen);
      var rest, rest' := Cut(toks[1..], tok.end, [], size), Cut(toks'[1..], tok.end, [], size');
      if j > 1 { CutPrefix(toks[1..], toks'[1..], tok.end, [], size, size', j - 1); }
      assert ([c] + rest)[..j] == [c] + rest[..j - 1];
      assert ([c] + rest')[..j] == [c] + rest'[..j - 1];
    } else {
      CutPrefix(toks[1..], toks'[1..], start, seen + [LocalToken(tok, start)], size, size', j);
    }
  }
}
