/** UTF-16 text and the tokens cut from it. */
module SqlText {
  /** A UTF-16 code unit; unpaired surrogates are ordinary values. */
  type Unit = u: int | 0 <= u < 0x10000
  type Text = seq<Unit>

  datatype Option<+T> = None | Some(value: T)

  datatype Dialect = Mysql | Postgres | Sqlite | Sqlserver | Clickhouse

  datatype Kind = Keyword | Identifier | String | Comment | Number | Punctuation | Operator

  datatype Token = Token(kind: Kind, text: Text, start: int, end: int, quoted: bool)

  /** The units of an ASCII literal. */
  function Ascii(s: string): Text {
    seq(|s|, i requires 0 <= i < |s| => (s[i] as int) % 0x80)
  }

  /** The unit at an offset, or -1 where the offset is past the end. */
  function At(t: Text, i: nat): int {
    if i < |t| then t[i] else -1
  }

  function ShiftToken(tok: Token, delta: int): Token {
    tok.(start := tok.start + delta, end := tok.end + delta)
  }

  /** A token in the coordinates of the statement that starts at `origin`. */
  function LocalToken(tok: Token, origin: int): Token {
    tok.(start := tok.start - origin, end := tok.end - origin)
  }

  function ShiftTokens(toks: seq<Token>, delta: int): (r: seq<Token>)
    ensures |r| == |toks|
  {
    seq(|toks|, i requires 0 <= i < |toks| => ShiftToken(toks[i], delta))
  }
}
