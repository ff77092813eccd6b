/** The document of the editor: its text, its statements and their parsed blocks, updated in place. */
module DocumentCache {
  import opened SqlText
  import opened Tokenizer
  import opened TokenReader
  import opened Statements
  import opened Rescan
  import opened Edits
  import opened EditedStatements
  import opened ScopeParser
  import opened BlockParser
  import opened ParserShift
  import opened StatementLookup
  import opened OrderedMaps

  const MAX_PARSED := 32

  class StatementChunk {
    var start: int
    var length: int
    var tokens: seq<Token>

    constructor (start: int)
      ensures this.start == start && length == 0 && tokens == []
    {
      this.start, length, tokens := start, 0, [];
    }

    function Value(): Chunk
      reads this
    {
      Chunk(start, length, tokens)
    }
  }

  ghost predicate Denotes(objs: seq<StatementChunk>, cs: seq<Chunk>)
    reads objs
  {
    |objs| == |cs| && forall k :: 0 <= k < |objs| ==> objs[k].Value() == cs[k]
  }

  lemma ChunkAt(objs: seq<StatementChunk>, cs: seq<Chunk>, offset: int, k: nat)
    requires Denotes(objs, cs) && Located(cs, offset, k)
    ensures k < |objs| && objs[k].Value() == cs[k]
  {
  }

  lemma DenotesConcat(a: seq<StatementChunk>, x: seq<Chunk>, b: seq<StatementChunk>, y: seq<Chunk>)
    requires Denotes(a, x) && Denotes(b, y)
    ensures Denotes(a + b, x + y)
  {
  }

  /** What may be kept of a statement: the result of parsing its tokens where they stand in it. */
  ghost function Parses(lexer: Lexer): (seq<Token>, int, seq<Block>) -> bool {
    (tokens, length, blocks) => ParseBlocks(lexer, tokens, Range(0, length)) == Parsed(blocks)
  }

  lemma ParsesMeans(lexer: Lexer, tokens: seq<Token>, length: int, blocks: seq<Block>)
    ensures Parses(lexer)(tokens, length, blocks) <==> ParseBlocks(lexer, tokens, Range(0, length)) == Parsed(blocks)
  {
  }

  /** A bounded memory of live statements only, each with blocks that are right for it. */
  ghost predicate Remembers(m: OrderedMap<StatementChunk, seq<Block>>, objs: seq<StatementChunk>,
                            right: (seq<Token>, int, seq<Block>) -> bool)
    reads objs
  {
    && m.Valid() && m.Size() <= MAX_PARSED
    && forall c | c in m.at :: c in objs && right(c.tokens, c.length, m.at[c])
  }

  /** What the scan of an edited text looks for: an old boundary past the edits. */
  datatype Meeting = Meeting(delta: int, oldEnd: int, first: nat)

  /** The scan stopped on an old boundary, or ran to the end. */
  ghost predicate Stops(cs: seq<Chunk>, stop: Meeting, suffix: nat, next: Option<nat>) {
    && stop.first < suffix <= |cs|
    && (suffix < |cs| ==> next == Some(cs[suffix].start + stop.delta) && stop.oldEnd < cs[suffix].start)
    && (suffix == |cs| ==> next.None?)
  }

  /** What a lookup answers; `Disposed` and `Unparsed` are the two ways it throws. */
  datatype Reply = Disposed | Unparsed | Found(statement: Range, tokens: seq<Token>, blocks: seq<Block>)

  function ReplyOf(found: Lookup): Reply {
    match found.blocks
    case Throws => Unparsed
    case Parsed(blocks) => Found(found.statement, found.tokens, blocks)
  }

  /** What is left of a scan that has read part of a statement. */
  ghost predicate Reading(lexer: Lexer, t: Text, i: int, start: int, seen: seq<Token>, all: seq<Chunk>) {
    0 <= i <= |t| && all == Cut(lexer.Tokens(t, i), start, seen, |t|)
  }

  /** The statements from the next boundary on, if there is one. */
  ghost predicate Following(lexer: Lexer, t: Text, next: Option<nat>, rest: seq<Chunk>) {
    match next
    case None => rest == []
    case Some(i) => i <= |t| && rest == Scan(lexer, t, i)
  }

  lemma ReadingStarts(lexer: Lexer, t: Text, start: nat, all: seq<Chunk>)
    requires Following(lexer, t, Some(start), all)
    ensures Reading(lexer, t, start, start, [], all)
  {
  }

  lemma ReadingEnds(lexer: Lexer, t: Text, i: int, start: int, seen: seq<Token>, all: seq<Chunk>)
    requires Reading(lexer, t, i, start, seen, all) && lexer.NextToken(t, i).None?
    ensures all == [Chunk(start, |t| - start, seen)]
  {
    ScanStep(lexer, t, i, start, seen);
  }

  lemma ReadingCuts(lexer: Lexer, t: Text, i: int, start: int, seen: seq<Token>, all: seq<Chunk>, tok: Token)
    returns (rest: seq<Chunk>)
    requires Reading(lexer, t, i, start, seen, all) && lexer.NextToken(t, i) == Some(tok) && IsSeparator(tok)
    ensures all == [Chunk(start, tok.start - start, seen)] + rest && Following(lexer, t, Some(tok.end), rest)
  {
    rest := Scan(lexer, t, tok.end);
    ScanStep(lexer, t, i, start, seen);
  }

  lemma ReadingGoesOn(lexer: Lexer, t: Text, i: int, start: int, seen: seq<Token>, all: seq<Chunk>, tok: Token)
    requires Reading(lexer, t, i, start, seen, all) && lexer.NextToken(t, i) == Some(tok) && !IsSeparator(tok)
    ensures Reading(lexer, t, tok.end, start, seen + [LocalToken(tok, start)], all)
  {
    ScanStep(lexer, t, i, start, seen);
  }

  lemma FollowingUnread(lexer: Lexer, t: Text, cs: seq<Chunk>, s: nat, d: int, next: Option<nat>, tail: seq<Chunk>)
    requires Following(lexer, t, next, tail)
    requires if s < |cs| then next == Some(cs[s].start + d) else s == |cs| && next.None?
    ensures Unread(lexer, t, cs, s, d, tail)
  {
  }

  lemma ReadOne(all: seq<Chunk>, pre: seq<Chunk>, left: seq<Chunk>, c: Chunk, tail: seq<Chunk>)
    requires all == pre + left && left == [c] + tail
    ensures all == pre + [c] + tail
  {
  }

  lemma DenotesOneMore(objs: seq<StatementChunk>, cs: seq<Chunk>, c: StatementChunk)
    requires Denotes(objs, cs)
    ensures Denotes(objs + [c], cs + [c.Value()])
  {
  }

  /** Reads one statement: its tokens up to the next separator, or to the end of the text. */
  method ReadStatement(lexer: Lexer, t: Text, start: nat, ghost all: seq<Chunk>)
    returns (current: StatementChunk, next: Option<nat>, ghost rest: seq<Chunk>)
    requires Following(lexer, t, Some(start), all)
    ensures fresh(current)
    ensures next.Some? ==> start < next.value <= |t|
    ensures all == [current.Value()] + rest && Following(lexer, t, next, rest)
  {
    current := new StatementChunk(start);
    var i := start;
    ReadingStarts(lexer, t, start, all);
    while true
      invariant start <= i <= |t| && fresh(current) && current.start == start
      invariant Reading(lexer, t, i, start, current.tokens, all)
      decreases |t| - i
    {
      var read := ReadToken(lexer, t, i);
      match read {
        case None =>
          ReadingEnds(lexer, t, i, start, current.tokens, all);
          current.length := |t| - start;
          return current, None, [];
        case Some(tok) =>
          if IsSeparator(tok) {
            rest := ReadingCuts(lexer, t, i, start, current.tokens, all, tok);
            current.length := tok.start - start;
            assert current.Value() == Chunk(start, tok.start - start, current.tokens);
            return current, Some(tok.end), rest;
          }
          ReadingGoesOn(lexer, t, i, start, current.tokens, all, tok);
          current.tokens := current.tokens + [LocalToken(tok, start)];
          i := tok.end;
      }
    }
  }

  /** What has been read so far, and what is left to read. */
  ghost predicate Halfway(lexer: Lexer, t: Text, result: seq<StatementChunk>, next: Option<nat>,
                           all: seq<Chunk>, pre: seq<Chunk>, tail: seq<Chunk>)
    reads result
  {
    Distinct(result) && Denotes(result, pre) && all == pre + tail && Following(lexer, t, next, tail)
  }

  /** Reads one more statement. */
  method ReadInto(lexer: Lexer, t: Text, from: nat, done: seq<StatementChunk>,
                  ghost all: seq<Chunk>, ghost before: seq<Chunk>, ghost left: seq<Chunk>)
    returns (result: seq<StatementChunk>, next: Option<nat>, ghost pre: seq<Chunk>, ghost tail: seq<Chunk>)
    requires Halfway(lexer, t, done, Some(from), all, before, left)
    ensures |result| == |done| + 1 && result[..|done|] == done && fresh(result[|done|])
    ensures next.Some? ==> from < next.value <= |t|
    ensures Halfway(lexer, t, result, next, all, pre, tail)
  {
    var current;
    current, next, tail := ReadStatement(lexer, t, from, left);
    ReadOne(all, before, left, current.Value(), tail);
    DenotesOneMore(done, before, current);
    result, pre := done + [current], before + [current.Value()];
  }

  /** An old statement the scan has replaced: from the checkpoint to where it met the old ones. */
  predicate Affected(start: int, checkpoint: int, before: Option<int>) {
    start >= checkpoint && (before.None? || start < before.value)
  }

  /** A statement lies between two others exactly when its offset does. */
  lemma BetweenBoundaries(objs: seq<StatementChunk>, cs: seq<Chunk>, f: nat, suffix: nat, c: StatementChunk)
    requires Denotes(objs, cs) && Increasing(cs) && f < suffix <= |objs| && c in objs
    ensures c in objs[f..suffix] <==>
              Affected(c.start, objs[f].start, if suffix < |objs| then Some(objs[suffix].start) else None)
  {
    var k :| 0 <= k < |objs| && objs[k] == c;
    assert objs[k].Value() == cs[k] && objs[f].Value() == cs[f];
    if suffix < |objs| { assert objs[suffix].Value() == cs[suffix]; }
    if f <= k < suffix { assert c == objs[f..suffix][k - f]; }
    if c in objs[f..suffix] {
      var j :| f <= j < suffix && objs[j] == c;
      assert objs[j].Value() == cs[j];
    }
  }

  lemma ReplacedAreAffected(objs: seq<StatementChunk>, cs: seq<Chunk>, f: nat, suffix: nat, keys: seq<StatementChunk>)
    requires Denotes(objs, cs) && Increasing(cs) && f < suffix <= |objs| && forall c | c in keys :: c in objs
    ensures var before := if suffix < |objs| then Some(objs[suffix].start) else None;
            forall c | c in keys :: c in (set x | x in objs[f..suffix]) <==> Affected(c.start, objs[f].start, before)
  {
    forall c | c in keys
      ensures c in objs[f..suffix] <==>
                Affected(c.start, objs[f].start, if suffix < |objs| then Some(objs[suffix].start) else None)
    {
      BetweenBoundaries(objs, cs, f, suffix, c);
    }
  }

  lemma DenotesSpliced(objs: seq<StatementChunk>, cs: seq<Chunk>, f: nat, suffix: nat, delta: int,
                       replacement: seq<StatementChunk>, pre: seq<Chunk>)
    requires f <= suffix <= |cs| && Denotes(objs, cs[..suffix] + ShiftChunks(cs[suffix..], delta))
    requires Denotes(replacement, pre)
    ensures Denotes(objs[..f] + replacement + objs[suffix..], cs[..f] + pre + ShiftChunks(cs[suffix..], delta))
  {
    var moved := cs[..suffix] + ShiftChunks(cs[suffix..], delta);
    assert moved[..f] == cs[..f] && moved[suffix..] == ShiftChunks(cs[suffix..], delta);
    DenotesConcat(objs[..f], moved[..f], replacement, pre);
    DenotesConcat(objs[..f] + replacement, moved[..f] + pre, objs[suffix..], moved[suffix..]);
  }

  lemma DistinctSpliced<T>(s: seq<T>, f: nat, mid: seq<T>, suffix: nat)
    requires Distinct(s) && Distinct(mid) && f <= suffix <= |s| && forall x | x in mid :: x !in s
    ensures Distinct(s[..f] + mid + s[suffix..])
  {
    var r, n := s[..f] + mid + s[suffix..], f + |mid|;
    assert forall i | 0 <= i < f :: r[i] == s[i] && s[i] in s;
    assert forall i | f <= i < n :: r[i] == mid[i - f] && mid[i - f] in mid;
    assert forall i | n <= i < |r| :: r[i] == s[suffix + i - n] && s[suffix + i - n] in s;
  }

  lemma SurvivorsStay<T>(keys: seq<T>, s: seq<T>, f: nat, suffix: nat, mid: seq<T>)
    requires f <= suffix <= |s| && forall k | k in keys :: k in s && k !in s[f..suffix]
    ensures forall k | k in keys :: k in s[..f] + mid + s[suffix..]
  {
    assert s == s[..f] + s[f..suffix] + s[suffix..];
  }

  lemma CheckpointInText(dialect: Dialect, t: Text, sorted: seq<Change>, cs: seq<Chunk>, first: nat, f: nat)
    requires sorted != [] && Disjoint(t, sorted, 0) && Increasing(cs) && first < |cs| && cs[0].start == 0
    requires 0 <= cs[first].start <= sorted[0].offset && f == Checkpoint(dialect, t, cs, first, sorted[0].offset)
    ensures f < |cs| && 0 <= cs[f].start <= sorted[0].offset <= |Replaced(t, sorted, 0)|
  {
    ReplacedEdited(t, sorted);
    assert f > 0 ==> cs[0].start < cs[f].start;
  }

  /** The statements a partial scan finds complete the old ones to those of the new text. */
  lemma RescanHolds(lexer: Lexer, t: Text, t': Text, offset: int, cs: seq<Chunk>, first: nat, stop: Meeting,
                    all: seq<Chunk>, pre: seq<Chunk>, suffix: nat, next: Option<nat>, tail: seq<Chunk>)
    requires cs == Chunks(lexer, t) && Located(cs, offset, first) && 0 <= cs[first].start <= offset
    requires Edited(t, t', offset, stop.oldEnd, stop.delta)
    requires stop.first == Checkpoint(lexer.dialect, t, cs, first, offset)
    requires 0 <= cs[stop.first].start <= |t'| && all == Scan(lexer, t', cs[stop.first].start) && all == pre + tail
    requires Following(lexer, t', next, tail) && Stops(cs, stop, suffix, next)
    ensures Chunks(lexer, t') == cs[..stop.first] + pre + ShiftChunks(cs[suffix..], stop.delta)
  {
    FollowingUnread(lexer, t', cs, suffix, stop.delta, next, tail);
    EditedChunks(lexer, t, t', cs, first, stop.first, offset, stop.oldEnd, stop.delta, pre, suffix, tail);
  }

  /** Drops the least recently asked for when there are too many. */
  function Bounded(m: OrderedMap<StatementChunk, seq<Block>>): OrderedMap<StatementChunk, seq<Block>> {
    if m.Size() > MAX_PARSED then m.Remove(m.order[0]) else m
  }

  lemma RemembersOneMore(m: OrderedMap<StatementChunk, seq<Block>>, objs: seq<StatementChunk>,
                         right: (seq<Token>, int, seq<Block>) -> bool, c: StatementChunk, blocks: seq<Block>)
    requires Remembers(m, objs, right) && c in objs && right(c.tokens, c.length, blocks)
    ensures var now := Bounded(m.Renew(c, blocks));
            Remembers(now, objs, right) && c in now.at && now.at[c] == blocks
  {
    var more := m.Renew(c, blocks);
    assert more.Size() == m.Remove(c).Size() + 1;
    if more.Size() > MAX_PARSED {
      assert more.order[0] == m.Remove(c).order[0] != c;
    }
  }

  class DocumentCache {
    var lexer: Lexer
    var text: Text
    var version: int
    var disposed: bool
    var chunks: seq<StatementChunk>
    var parsed: OrderedMap<StatementChunk, seq<Block>>

    ghost predicate Valid()
      reads this, chunks
    {
      && Distinct(chunks)
      && Remembers(parsed, chunks, Parses(lexer))
      && if disposed then text == [] && chunks == [] else Denotes(chunks, Chunks(lexer, text))
    }

    /** Binary search for the last statement that starts at or before the offset. */
    method Locate(offset: int, ghost cs: seq<Chunk>) returns (k: nat)
      requires Denotes(chunks, cs) && Increasing(cs) && cs != []
      ensures Located(cs, offset, k)
    {
      var lo, hi := 0, |chunks|;
      while lo < hi
        invariant 0 <= lo <= hi <= |chunks|
        invariant forall j :: 0 <= j < lo ==> cs[j].start <= offset
        invariant forall j :: hi <= j < |cs| ==> offset < cs[j].start
      {
        var mid := (lo + hi) / 2;
        if chunks[mid].start <= offset { lo := mid + 1; } else { hi := mid; }
      }
      k := if lo > 0 then lo - 1 else 0;
    }

    /** Does the boundary at `nextStart` fall on an old one past the edits?  Answers which, or `|chunks|`. */
    method Meets(nextStart: int, stop: Meeting, ghost cs: seq<Chunk>) returns (suffix: nat)
      requires Denotes(chunks, cs) && Increasing(cs) && stop.first < |cs|
      ensures stop.first < suffix <= |cs|
      ensures suffix < |cs| ==> stop.oldEnd < cs[suffix].start == nextStart - stop.delta
    {
      suffix := |chunks|;
      var oldStart := nextStart - stop.delta;
      if oldStart > stop.oldEnd {
        var candidate := Locate(oldStart, cs);
        if candidate > stop.first && chunks[candidate].start == oldStart { suffix := candidate; }
      }
    }

    /** Scans from a boundary to the end of the text, or to where it meets the old statements. */
    method ScanFrom(start: nat, stop: Option<Meeting>, ghost cs: seq<Chunk>, ghost all: seq<Chunk>)
      returns (result: seq<StatementChunk>, suffix: nat, next: Option<nat>, ghost pre: seq<Chunk>,
               ghost tail: seq<Chunk>)
      requires Following(lexer, text, Some(start), all)
      requires stop.Some? ==> Denotes(chunks, cs) && Increasing(cs) && stop.value.first < |cs|
      ensures fresh(result) && Halfway(lexer, text, result, next, all, pre, tail)
      ensures stop.None? ==> next.None?
      ensures stop.Some? ==> Stops(cs, stop.value, suffix, next)
    {
      hide Scan;
      result, suffix := [], |chunks|;
      pre, tail := [], all;
      next := Some(start);
      var stopped := false;
      while next.Some? && !stopped
        invariant next.Some? ==> next.value <= |text|
        invariant stopped ==> stop.Some? && Stops(cs, stop.value, suffix, next)
        invariant !stopped ==> suffix == |chunks|
        invariant fresh(result) && Halfway(lexer, text, result, next, all, pre, tail)
        decreases if next.Some? then |text| - next.value + 1 else 0, !stopped
      {
        result, next, pre, tail := ReadInto(lexer, text, next.value, result, all, pre, tail);
        if stop.Some? && next.Some? {
          suffix := Meets(next.value, stop.value, cs);
          stopped := suffix < |chunks|;
        }
      }
    }

    /** Checks a batch, ordered by offset, one change after another. */
    method Accepts(sorted: seq<Change>) returns (ok: bool)
      ensures ok == Orderly(text, sorted, -1, -1)
    {
      var previousStart, previousEnd := -1, -1;
      for k := 0 to |sorted|
        invariant Orderly(text, sorted[k..], previousStart, previousEnd) == Orderly(text, sorted, -1, -1)
      {
        var c := sorted[k];
        assert sorted[k..][0] == c && sorted[k..][1..] == sorted[k + 1..];
        if c.offset < 0 || c.length < 0 || c.End() > |text| || c.offset < previousEnd || c.offset == previousStart {
          return false;
        }
        previousStart, previousEnd := c.offset, c.End();
      }
      return true;
    }

    /** The statement to rescan from: the edited one, or the one before when a batch separator's line is touched. */
    method FirstAffected(offset: int, ghost cs: seq<Chunk>) returns (first: nat, f: nat)
      requires Denotes(chunks, cs) && Increasing(cs) && cs != [] && cs[0].start == 0
      requires 0 <= offset <= |text|
      ensures Located(cs, offset, first) && 0 <= cs[first].start <= offset
      ensures f == Checkpoint(lexer.dialect, text, cs, first, offset)
    {
      first := Locate(offset, cs);
      f := first;
      var start := chunks[first].start;
      if first > 0 && lexer.dialect == Sqlserver && start >= 2 && IsGoWord(text[start - 2..start])
           && BlankRun(text, start, offset) {
        f := first - 1;
      }
    }

    /** Applies the changes in place, last one first. */
    method Rewrite(sorted: seq<Change>) returns (delta: int)
      requires Disjoint(text, sorted, 0)
      modifies this`text
      ensures text == Replaced(old(text), sorted, 0) && delta == Delta(sorted)
    {
      delta := 0;
      var i := |sorted|;
      DisjointTail(text, sorted, 0, i);
      while i > 0
        invariant 0 <= i <= |sorted|
        invariant Disjoint(old(text), sorted[i..], 0)
        invariant text == Replaced(old(text), sorted[i..], 0) && delta == Delta(sorted[i..])
      {
        i := i - 1;
        var c := sorted[i];
        assert sorted[i..][0] == c && sorted[i..][1..] == sorted[i + 1..];
        DisjointTail(old(text), sorted, 0, i);
        SpliceStep(old(text), sorted[i..]);
        text := text[..c.offset] + c.text + text[c.End()..];
        delta := delta + |c.text| - c.length;
      }
    }

    /** Forgets the syntax of the statements between two offsets, and no other. */
    method Evict(checkpoint: int, before: Option<int>, ghost replaced: set<StatementChunk>)
      requires parsed.Valid()
      requires forall c | c in parsed.order :: c in replaced <==> Affected(c.start, checkpoint, before)
      modifies this`parsed
      ensures parsed == old(parsed).RemoveAll(replaced)
    {
      hide Affected, Minus, Without, OrderedMap.Remove, OrderedMap.RemoveAll;
      var keys := parsed.order;
      ghost var was, gone: set<StatementChunk> := parsed, {};
      RemoveNone(was);
      for k := 0 to |keys|
        invariant parsed == was.RemoveAll(gone)
        invariant forall j | 0 <= j < |keys| :: keys[j] in gone <==> j < k && keys[j] in replaced
      {
        if Affected(keys[k].start, checkpoint, before) {
          RemoveOneMore(was, gone, keys[k]);
          gone := gone + {keys[k]};
          parsed := parsed.Remove(keys[k]);
        }
      }
      RemoveAgree(was, gone, replaced);
    }

    /** Displaces the statements from a boundary on. */
    method Displace(suffix: nat, delta: int, ghost cs: seq<Chunk>)
      requires Denotes(chunks, cs) && Distinct(chunks) && suffix <= |chunks|
      modifies chunks
      ensures Denotes(chunks, cs[..suffix] + ShiftChunks(cs[suffix..], delta))
      ensures forall c | c in chunks :: c.length == old(c.length) && c.tokens == old(c.tokens)
    {
      for i := suffix to |chunks|
        invariant forall k | 0 <= k < |chunks| ::
          chunks[k].Value() == if suffix <= k < i then ShiftChunk(cs[k], delta) else cs[k]
      {
        chunks[i].start := chunks[i].start + delta;
      }
    }

    /** Edits the text and scans from the checkpoint until the old statements are met again. */
    method Rescan(sorted: seq<Change>, ghost cs: seq<Chunk>)
      returns (f: nat, suffix: nat, delta: int, replacement: seq<StatementChunk>, ghost pre: seq<Chunk>)
      requires cs == Chunks(lexer, text) && Denotes(chunks, cs)
      requires sorted != [] && Disjoint(text, sorted, 0)
      modifies this`text
      ensures text == Replaced(old(text), sorted, 0)
      ensures fresh(replacement) && Distinct(replacement) && Denotes(replacement, pre)
      ensures f < suffix <= |cs| && Chunks(lexer, text) == cs[..f] + pre + ShiftChunks(cs[suffix..], delta)
    {
      ghost var t := text;
      ChunksIncreasing(lexer, t);
      var first;
      first, f := FirstAffected(sorted[0].offset, cs);
      var checkpoint := chunks[f].start;
      CheckpointInText(lexer.dialect, t, sorted, cs, first, f);
      delta := Rewrite(sorted);
      ghost var all := Scan(lexer, text, checkpoint);
      var next;
      ghost var tail;
      var stop := Meeting(delta, sorted[|sorted| - 1].End(), f);
      replacement, suffix, next, pre, tail := ScanFrom(checkpoint, Some(stop), cs, all);
      ReplacedEdited(t, sorted);
      RescanHolds(lexer, t, text, sorted[0].offset, cs, first, stop, all, pre, suffix, next, tail);
    }

    /** Forgets the syntax of the statements that are replaced; the rest is of statements that stay. */
    method Forget(f: nat, suffix: nat, ghost replacement: seq<StatementChunk>, ghost cs: seq<Chunk>)
      requires Denotes(chunks, cs) && Increasing(cs) && f < suffix <= |chunks|
      requires parsed.Valid() && forall c | c in parsed.order :: c in chunks
      modifies this`parsed
      ensures parsed == old(parsed).RemoveAll(set c | c in chunks[f..suffix])
      ensures forall c | c in parsed.order :: c in chunks[..f] + replacement + chunks[suffix..]
    {
      var checkpoint, before := chunks[f].start, if suffix < |chunks| then Some(chunks[suffix].start) else None;
      ReplacedAreAffected(chunks, cs, f, suffix, parsed.order);
      Evict(checkpoint, before, set c | c in chunks[f..suffix]);
      SurvivorsStay(parsed.order, chunks, f, suffix, replacement);
    }

    /** Displaces what follows the edits and puts the new statements in place of the old ones. */
    method Splice(f: nat, suffix: nat, delta: int, replacement: seq<StatementChunk>, ghost cs: seq<Chunk>,
                  ghost pre: seq<Chunk>)
      requires Denotes(chunks, cs) && Distinct(chunks) && f < suffix <= |chunks|
      requires Denotes(replacement, pre) && Distinct(replacement) && forall c | c in replacement :: c !in chunks
      modifies this`chunks, chunks
      ensures chunks == old(chunks)[..f] + replacement + old(chunks)[suffix..]
      ensures Distinct(chunks) && Denotes(chunks, cs[..f] + pre + ShiftChunks(cs[suffix..], delta))
      ensures forall c | c in old(chunks) :: c.length == old(c.length) && c.tokens == old(c.tokens)
    {
      Displace(suffix, delta, cs);
      DenotesSpliced(chunks, cs, f, suffix, delta, replacement, pre);
      DistinctSpliced(chunks, f, replacement, suffix);
      chunks := chunks[..f] + replacement + chunks[suffix..];
    }

    method Replace(f: nat, suffix: nat, delta: int, replacement: seq<StatementChunk>, ghost cs: seq<Chunk>,
                   ghost pre: seq<Chunk>, ghost right: (seq<Token>, int, seq<Block>) -> bool)
      requires Denotes(chunks, cs) && Increasing(cs) && Distinct(chunks) && f < suffix <= |chunks|
      requires Denotes(replacement, pre) && Distinct(replacement) && forall c | c in replacement :: c !in chunks
      requires Remembers(parsed, chunks, right)
      modifies this`chunks, this`parsed, chunks
      ensures chunks == old(chunks)[..f] + replacement + old(chunks)[suffix..]
      ensures Distinct(chunks) && Denotes(chunks, cs[..f] + pre + ShiftChunks(cs[suffix..], delta))
      ensures parsed == old(parsed).RemoveAll(set c | c in old(chunks)[f..suffix])
      ensures Remembers(parsed, chunks, right)
    {
      Forget(f, suffix, replacement, cs);
      Splice(f, suffix, delta, replacement, cs, pre);
    }

    /** Carries out an accepted batch. */
    method Update(sorted: seq<Change>) returns (ghost kept: nat, ghost resumed: nat, ghost added: seq<StatementChunk>)
      requires Valid() && !disposed && sorted != [] && Disjoint(text, sorted, 0)
      modifies this`text, this`chunks, this`parsed, chunks
      ensures Valid() && text == Replaced(old(text), sorted, 0)
      ensures kept < resumed <= |old(chunks)| && fresh(added)
      ensures chunks == old(chunks)[..kept] + added + old(chunks)[resumed..]
      ensures parsed == old(parsed).RemoveAll(set c | c in old(chunks)[kept..resumed])
    {
      hide Parses, Chunks, Cut, Minus, Without, Replaced, Disjoint, ShiftChunks;
      ghost var cs, t := Chunks(lexer, text), text;
      var f, suffix, delta, replacement;
      ghost var pre;
      f, suffix, delta, replacement, pre := Rescan(sorted, cs);
      ChunksIncreasing(lexer, t);
      Replace(f, suffix, delta, replacement, cs, pre, Parses(lexer));
      kept, resumed, added := f, suffix, replacement;
    }

    /** Applies a batch of edits, or rejects it and changes nothing. */
    method ApplyChanges(changes: seq<Change>, nextVersion: int)
      returns (ok: bool, ghost kept: nat, ghost resumed: nat, ghost added: seq<StatementChunk>)
      requires Valid()
      modifies this`text, this`version, this`chunks, this`parsed, chunks
      ensures Valid()
      ensures ok <==> !disposed && nextVersion == old(version) + 1 && Acceptable(old(text), changes)
      ensures !ok ==> unchanged(this) && forall c | c in chunks :: unchanged(c)
      ensures ok ==> version == nextVersion
      ensures ok ==> Disjoint(old(text), Sorted(changes), 0) && text == Replaced(old(text), Sorted(changes), 0)
      ensures ok ==> kept <= resumed <= |old(chunks)| && fresh(added)
                     && chunks == old(chunks)[..kept] + added + old(chunks)[resumed..]
                     && parsed == old(parsed).RemoveAll(set c | c in old(chunks)[kept..resumed])
    {
      hide Parses, Chunks, Minus, Without, Sorted, Insert, Orderly, Disjoint, Denotes, Distinct;
      kept, resumed, added := 0, 0, [];
      if disposed || nextVersion != version + 1 { return false, 0, 0, []; }
      var sorted := Sorted(changes);
      ok := Accepts(sorted);
      if ok {
        OrderlyDisjoint(text, sorted, -1, -1);
        if sorted != [] {
          kept, resumed, added := Update(sorted);
        } else {
          RemoveNone(parsed);
          assert (set c | c in chunks[0..0]) == {};
        }
        version := nextVersion;
      }
    }

    constructor (initialText: Text, initialVersion: int, lexer: Lexer)
      ensures Valid() && fresh(chunks)
      ensures text == initialText && version == initialVersion && this.lexer == lexer && !disposed && parsed == Empty()
    {
      hide Parses, Chunks;
      this.lexer, text, version, disposed := lexer, initialText, initialVersion, false;
      chunks, parsed := [], Empty();
      new;
      ScanAll();
    }

    /** Cuts the whole text. */
    method ScanAll()
      requires parsed == Empty() && !disposed
      modifies this`chunks
      ensures Valid() && fresh(chunks)
    {
      hide Parses, Scan;
      var result, suffix, next;
      ghost var pre, tail;
      result, suffix, next, pre, tail := ScanFrom(0, None, [], Scan(lexer, text, 0));
      assert Chunks(lexer, text) == pre;
      chunks := result;
    }

    /** Starts over with another text, even after disposal. */
    method Reset(nextText: Text, nextVersion: int, nextDialect: Dialect)
      requires Valid()
      modifies this
      ensures Valid() && fresh(chunks)
      ensures text == nextText && version == nextVersion && lexer == old(lexer).(dialect := nextDialect)
      ensures !disposed && parsed == Empty()
    {
      hide Parses, Chunks;
      text, version, lexer, disposed, parsed := nextText, nextVersion, lexer.(dialect := nextDialect), false, Empty();
      ScanAll();
    }

    method Dispose()
      requires Valid()
      modifies this`disposed, this`text, this`chunks, this`parsed
      ensures Valid() && disposed
    {
      hide Parses, Chunks;
      disposed, text, chunks, parsed := true, [], [], Empty();
    }

    /** The statement at an offset, its tokens and its blocks, all where they stand in the text. */
    method GetStatement(offset: int) returns (reply: Reply, ghost asked: Option<StatementChunk>)
      requires Valid()
      modifies this`parsed
      ensures Valid()
      ensures reply == if disposed then Disposed else ReplyOf(LookupAt(lexer, text, offset))
      ensures !reply.Found? ==> parsed == old(parsed)
      ensures reply.Found? ==>
                asked.Some? && asked.value in parsed.at
                && parsed == Bounded(old(parsed).Renew(asked.value, parsed.at[asked.value]))
    {
      hide Parses, ParseBlocks, Chunks, LookupAt, ShiftBlocks, ShiftTokens, Without, Bounded, Denotes, Increasing,
           Distinct;
      if disposed { return Disposed, None; }
      ghost var cs := Chunks(lexer, text);
      ChunksIncreasing(lexer, text);
      var k := Locate(offset, cs);
      ChunkAt(chunks, cs, offset, k);
      var chunk := chunks[k];
      ChunkLookup(lexer, text, cs, offset, k);
      var blocks;
      if chunk in parsed.at {
        blocks := parsed.at[chunk];
      } else {
        match ParseBlocks(lexer, chunk.tokens, Range(0, chunk.length)) {
          case Throws => return Unparsed, None;
          case Parsed(found) => blocks := found;
        }
      }
      ParsesMeans(lexer, chunk.tokens, chunk.length, blocks);
      RemembersOneMore(parsed, chunks, Parses(lexer), chunk, blocks);
      parsed := Bounded(parsed.Renew(chunk, blocks));
      asked := Some(chunk);
      reply := Found(Range(chunk.start, chunk.start + chunk.length), ShiftTokens(chunk.tokens, chunk.start),
                     ShiftBlocks(blocks, chunk.start));
    }
  }
}
