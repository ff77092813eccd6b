/**
 Why an edit need not rescan the document: which statement boundaries survive it,
 and when the new scan has met the old one again.
 */
module Rescan {
  import opened SqlText
  import opened Tokenizer
  import opened Locality
  import opened Statements

  ghost predicate Increasing(cs: seq<Chunk>) {
    forall j, k :: 0 <= j < k < |cs| ==> cs[j].start < cs[k].start
  }

  /** What a token list scanned from a text says about it. */
  ghost predicate Scanned(dialect: Dialect, t: Text, toks: seq<Token>) {
    && (forall k | 0 <= k < |toks| :: 0 <= toks[k].start < toks[k].end <= |t|)
    && (forall j, k | 0 <= j < k < |toks| :: toks[j].end <= toks[k].start)
    && (forall k | 0 <= k < |toks| :: IsSeparator(toks[k]) ==> EndsStatement(dialect, t, toks[k]))
  }

  lemma TokensScanned(lexer: Lexer, t: Text)
    ensures Scanned(lexer.dialect, t, lexer.Tokens(t, 0))
  {
    TokensOrdered(lexer, t);
    AllSeparatorsShape(lexer, t);
  }

  lemma TokensOrdered(lexer: Lexer, t: Text)
    ensures var toks := lexer.Tokens(t, 0); forall j, k | 0 <= j < k < |toks| :: toks[j].end <= toks[k].start
  {
    hide Lexer.NextToken;
    var toks := lexer.Tokens(t, 0);
    forall k | 0 <= k < |toks|
      ensures forall j | 0 <= j < k :: toks[j].end <= toks[k].start
    {
      TokensRest(lexer, t, 0, k + 1);
    }
  }

  lemma AllSeparatorsShape(lexer: Lexer, t: Text)
    ensures var toks := lexer.Tokens(t, 0);
            forall k | 0 <= k < |toks| :: IsSeparator(toks[k]) ==> EndsStatement(lexer.dialect, t, toks[k])
  {
    forall k | 0 <= k < |lexer.Tokens(t, 0)| && IsSeparator(lexer.Tokens(t, 0)[k])
      ensures EndsStatement(lexer.dialect, t, lexer.Tokens(t, 0)[k])
    {
      SeparatorsShape(lexer, t, 0, k);
    }
  }

  lemma {:induction false} CutIncreasing(toks: seq<Token>, start: int, seen: seq<Token>, size: int)
    requires forall k | 0 <= k < |toks| :: start <= toks[k].start < toks[k].end <= size
    requires forall j, k | 0 <= j < k < |toks| :: toks[j].end <= toks[k].start
    requires start <= size
    ensures Increasing(Cut(toks, start, seen, size))
    ensures forall c :: c in Cut(toks, start, seen, size) ==> start <= c.start <= size
  {
    if toks != [] {
      if IsSeparator(toks[0]) { CutIncreasing(toks[1..], toks[0].end, [], size); }
      else { CutIncreasing(toks[1..], start, seen + [LocalToken(toks[0], start)], size); }
    }
  }

  /** Statement starts increase strictly and stay inside the text. */
  lemma ChunksIncreasing(lexer: Lexer, t: Text)
    ensures Increasing(Chunks(lexer, t)) && Chunks(lexer, t) != []
    ensures forall c :: c in Chunks(lexer, t) ==> 0 <= c.start <= |t|
  {
    TokensScanned(lexer, t);
    CutIncreasing(lexer.Tokens(t, 0), 0, [], |t|);
  }

  /** The separator that ends just before the j-th statement. */
  function SeparatorBefore(toks: seq<Token>, size: int, j: nat): (sep: Token)
    requires 0 < j < |Cut(toks, 0, [], size)|
    ensures sep in toks && IsSeparator(sep) && Cut(toks, 0, [], size)[j].start == sep.end
  {
    CutAt(toks, 0, [], size, j);
    toks[Consumed(toks, j) - 1]
  }

  lemma BoundariesApart(dialect: Dialect, t: Text, toks: seq<Token>, j: nat)
    requires Scanned(dialect, t, toks) && 0 < j && j + 1 < |Cut(toks, 0, [], |t|)|
    ensures SeparatorBefore(toks, |t|, j).end <= SeparatorBefore(toks, |t|, j + 1).start
  {
    CutAt(toks, 0, [], |t|, j);
    ConsumedGrows(toks, 0, [], |t|, j);
  }

  /** Scanning may restart at any statement boundary. */
  lemma Restart(lexer: Lexer, t: Text, j: nat)
    requires j < |Chunks(lexer, t)|
    ensures 0 <= Chunks(lexer, t)[j].start <= |t|
    ensures Chunks(lexer, t)[j..] == Scan(lexer, t, Chunks(lexer, t)[j].start)
  {
    if j > 0 {
      var toks := lexer.Tokens(t, 0);
      CutAt(toks, 0, [], |t|, j);
      TokensRest(lexer, t, 0, Consumed(toks, j));
    }
  }

  lemma {:induction false} ConsumedGrows(toks: seq<Token>, start: int, seen: seq<Token>, size: int, j: nat)
    requires j + 1 < |Cut(toks, start, seen, size)|
    ensures Consumed(toks, j) < Consumed(toks, j + 1)
  {
    if j > 0 {
      if IsSeparator(toks[0]) { ConsumedGrows(toks[1..], toks[0].end, [], size, j - 1); }
      else { ConsumedGrows(toks[1..], start, seen + [LocalToken(toks[0], start)], size, j); }
    }
  }

  lemma {:induction false} NewlineAfter(t: Text, c: nat, k: nat) returns (n: nat)
    requires c <= k < |t| && BlankAfter(t, c) && !IsBlank(t[k]) && t[k] != RETURN
    ensures c <= n <= k && t[n] == NEWLINE
    decreases k - c
  {
    if t[c] == NEWLINE { n := c; }
    else if t[c] == RETURN { n := c + 1; }
    else { n := NewlineAfter(t, c + 1, k); }
  }

  lemma {:induction false} NewlineBefore(t: Text, c: nat, s: nat) returns (n: nat)
    requires 0 < c <= s <= |t| && Solid(t[c - 1]) && BlankBefore(t, s)
    ensures c <= n < s && t[n] == NEWLINE
    decreases s
  {
    if t[s - 1] == NEWLINE { n := s - 1; }
    else { n := NewlineBefore(t, c, s - 1); }
  }

  /** The statement an offset falls in: the last one starting at or before it. */
  predicate Located(cs: seq<Chunk>, offset: int, k: nat) {
    && k < |cs|
    && (k > 0 ==> cs[k].start <= offset)
    && (k + 1 < |cs| ==> offset < cs[k + 1].start)
  }

  /** Only blanks and returns between two offsets. */
  predicate BlankRun(t: Text, i: int, j: int)
    requires 0 <= i <= j <= |t|
  {
    forall k | i <= k < j :: IsBlank(t[k]) || t[k] == RETURN
  }

  /** The boundary is a batch separator whose rest of line the edit may change. */
  predicate TouchesGo(dialect: Dialect, t: Text, start: int, offset: int)
    requires 0 <= start <= offset <= |t|
  {
    dialect == Sqlserver && start >= 2 && IsGoWord(t[start - 2..start]) && BlankRun(t, start, offset)
  }

  /** Where to restart: at the edited statement, or one before it. */
  function Checkpoint(dialect: Dialect, t: Text, cs: seq<Chunk>, first: nat, offset: int): nat
    requires first < |cs| && 0 <= cs[first].start <= offset <= |t|
  {
    if first > 0 && TouchesGo(dialect, t, cs[first].start, offset) then first - 1 else first
  }

  /** The last unit of a separator settles every look back across it. */
  lemma SeparatorSolid(dialect: Dialect, t: Text, sep: Token)
    requires 0 <= sep.start < sep.end <= |t| && EndsStatement(dialect, t, sep)
    ensures Solid(t[sep.end - 1])
  {
    if sep.end == sep.start + 2 { assert t[sep.start..sep.end][1] == t[sep.end - 1]; }
  }

  /** A batch separator that was not stepped back over: its line ends before the edit. */
  lemma WindowAfterGo(t: Text, sep: Token, offset: int) returns (hi: nat)
    requires 0 <= sep.start < sep.end <= offset <= |t|
    requires BlankAfter(t, sep.end) && !BlankRun(t, sep.end, offset)
    ensures sep.end <= hi < offset && t[hi] == NEWLINE
  {
    var k :| sep.end <= k < offset && !IsBlank(t[k]) && t[k] != RETURN;
    hi := NewlineAfter(t, sep.end, k);
  }

  /** Stepping back one statement is enough: two separators never share a line. */
  lemma WindowBeforeGo(dialect: Dialect, t: Text, sep: Token, later: Token) returns (hi: nat)
    requires 0 <= sep.start < sep.end <= later.start < later.end <= |t|
    requires EndsStatement(dialect, t, sep) && EndsStatement(dialect, t, later)
    requires later.end >= 2 && IsGoWord(t[later.end - 2..later.end])
    ensures sep.end <= hi < later.start && t[hi] == NEWLINE
  {
    assert t[later.end - 2..later.end][1] == t[later.end - 1];
    SeparatorSolid(dialect, t, sep);
    hi := NewlineBefore(t, sep.end, later.start);
  }

  /** A window of the old text, before the edit, that settles the checkpoint's separator. */
  lemma CheckpointWindow(dialect: Dialect, t: Text, toks: seq<Token>, cs: seq<Chunk>, first: nat, offset: int, f: nat)
    returns (hi: nat)
    requires Scanned(dialect, t, toks) && cs == Cut(toks, 0, [], |t|)
    requires first < |cs| && 0 <= cs[first].start <= offset <= |t|
    requires f == Checkpoint(dialect, t, cs, first, offset) && f > 0
    ensures hi < offset && Barrier(t[hi]) && Settled(t, SeparatorBefore(toks, |t|, f), hi)
  {
    var sep := SeparatorBefore(toks, |t|, f);
    if f == first {
      if sep.end == sep.start + 1 && t[sep.start] == SEMICOLON {
        hi := sep.start;
      } else {
        hi := WindowAfterGo(t, sep, offset);
      }
    } else {
      BoundariesApart(dialect, t, toks, f);
      hi := WindowBeforeGo(dialect, t, sep, SeparatorBefore(toks, |t|, first));
    }
  }

  lemma PrefixMirror(t: Text, t': Text, offset: nat, hi: nat)
    requires hi < offset <= |t| && offset <= |t'| && t'[..offset] == t[..offset] && Barrier(At(t, hi))
    ensures Mirror(t, t', 0, 0, hi)
  {
    forall j: nat | j <= hi ensures At(t', j + 0) == At(t, j) {
      assert t'[..offset][j] == t[..offset][j];
    }
  }

  /** Two token lists that agree up to a boundary's separator agree on the statements before it. */
  lemma StableBoundary(toks: seq<Token>, toks': seq<Token>, size: int, size': int, f: nat)
    requires 0 < f < |Cut(toks, 0, [], size)|
    requires Consumed(toks, f) <= |toks'| && toks'[..Consumed(toks, f)] == toks[..Consumed(toks, f)]
    ensures f < |Cut(toks', 0, [], size')| && Cut(toks', 0, [], size')[..f] == Cut(toks, 0, [], size)[..f]
    ensures Cut(toks', 0, [], size')[f].start == Cut(toks, 0, [], size)[f].start
  {
    var m := Consumed(toks, f);
    CutPrefix(toks, toks', 0, [], size, size', f);
    CutAt(toks, 0, [], size, f);
    CutAt(toks', 0, [], size', f);
    assert toks'[m - 1] == toks'[..m][m - 1] == toks[..m][m - 1] == toks[m - 1];
  }

  /** The statements before the checkpoint survive, and the rest is the scan from there. */
  lemma CheckpointHolds(lexer: Lexer, t: Text, t': Text, first: nat, offset: int, f: nat)
    requires Located(Chunks(lexer, t), offset, first) && 0 <= Chunks(lexer, t)[first].start <= offset <= |t|
    requires offset <= |t'| && t'[..offset] == t[..offset]
    requires f == Checkpoint(lexer.dialect, t, Chunks(lexer, t), first, offset)
    ensures 0 <= Chunks(lexer, t)[f].start <= offset
    ensures Chunks(lexer, t') == Chunks(lexer, t)[..f] + Scan(lexer, t', Chunks(lexer, t)[f].start)
  {
    ChunksIncreasing(lexer, t);
    if f > 0 {
      var toks, toks' := lexer.Tokens(t, 0), lexer.Tokens(t', 0);
      TokensScanned(lexer, t);
      var hi := CheckpointWindow(lexer.dialect, t, toks, Chunks(lexer, t), first, offset, f);
      PrefixMirror(t, t', offset, hi);
      StableTokens(lexer, t, t', hi, 0, Consumed(toks, f));
      StableBoundary(toks, toks', |t|, |t'|, f);
      Restart(lexer, t', f);
      SplitAt(Chunks(lexer, t'), f);
    }
  }

  lemma SplitAt(cs: seq<Chunk>, f: nat)
    requires f <= |cs|
    ensures cs == cs[..f] + cs[f..]
  {
  }

  /** `t'` is `t` with everything in `[offset, oldEnd)` rewritten and the rest displaced by `d`. */
  ghost predicate Edited(t: Text, t': Text, offset: int, oldEnd: int, d: int) {
    && 0 <= offset <= oldEnd <= |t| && offset <= oldEnd + d && |t'| == |t| + d
    && t'[..offset] == t[..offset]
    && t'[oldEnd + d..] == t[oldEnd..]
  }

  lemma SuffixMirror(t: Text, t': Text, offset: int, oldEnd: int, d: int, lo: nat)
    requires Edited(t, t', offset, oldEnd, d) && oldEnd < lo <= |t| && Solid(t[lo - 1])
    ensures Mirror(t, t', d, lo, |t|)
  {
    forall j: nat | lo - 1 <= j <= |t| ensures At(t', j + d) == At(t, j) {
      if j < |t| { assert t'[oldEnd + d..][j - oldEnd] == t[oldEnd..][j - oldEnd]; }
    }
  }

  lemma ShiftedScan(lexer: Lexer, t: Text, t': Text, d: int, lo: nat)
    requires Mirror(t, t', d, lo, |t|)
    ensures Scan(lexer, t', lo + d) == ShiftChunks(Scan(lexer, t, lo), d)
  {
    TokensMirror(lexer, t, t', d, lo, lo);
    CutShift(lexer.Tokens(t, lo), lo, [], |t|, d);
    MirrorEnds(t, t', d, lo, |t|);
  }

  lemma BoundarySolid(lexer: Lexer, t: Text, s: nat)
    requires 0 < s < |Chunks(lexer, t)|
    ensures 0 < Chunks(lexer, t)[s].start <= |t| && Solid(t[Chunks(lexer, t)[s].start - 1])
  {
    TokensScanned(lexer, t);
    SeparatorSolid(lexer.dialect, t, SeparatorBefore(lexer.Tokens(t, 0), |t|, s));
  }

  /** A boundary past the edits that falls on an old one: the old statements follow, displaced. */
  lemma Resynchronised(lexer: Lexer, t: Text, t': Text, cs: seq<Chunk>, offset: int, oldEnd: int, d: int, s: nat,
                       lo: nat)
    requires Edited(t, t', offset, oldEnd, d) && cs == Chunks(lexer, t)
    requires 0 < s < |cs| && oldEnd < lo == cs[s].start
    ensures 0 <= lo + d <= |t'| && Scan(lexer, t', lo + d) == ShiftChunks(cs[s..], d)
  {
    BoundarySolid(lexer, t, s);
    SuffixMirror(t, t', offset, oldEnd, d, lo);
    ShiftedScan(lexer, t, t', d, lo);
    Restart(lexer, t, s);
  }
}
