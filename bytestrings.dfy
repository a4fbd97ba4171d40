/**
 * Byte strings as Go handles them: both `[]byte` and `string` are sequences of
 * 8-bit values, and `bytes.Contains`, `strings.Contains` and `bytes.Replace`
 * work byte by byte.
 */
module ByteStrings {

  newtype byte = b: int | 0 <= b < 256

  type Bytes = seq<byte>

  // The ASCII byte values the oracle and its patterns mention.
  const TAB: byte := 9
  const NL: byte := 10
  const VT: byte := 11
  const FF: byte := 12
  const CR: byte := 13
  const SPACE: byte := 32
  const LPAREN: byte := 40
  const STAR: byte := 42
  const PLUS: byte := 43
  const COMMA: byte := 44
  const MINUS: byte := 45
  const DOT: byte := 46
  const SLASH: byte := 47
  const ZERO: byte := 48
  const NINE: byte := 57
  const COLON: byte := 58
  const SEMI: byte := 59
  const EQUALS: byte := 61
  const UPPER_E: byte := 69
  const CARET: byte := 94
  const LOWER_E: byte := 101
  const LOWER_I: byte := 105

  /**
   * The bytes of a literal written in ASCII, one byte per character (every
   * literal of the oracle is ASCII; the non-ASCII one is spelled out in bytes).
   */
  function B(s: string): (r: Bytes)
    ensures |r| == |s|
    ensures forall i | 0 <= i < |s| :: r[i] as int == s[i] as int % 256
  {
    seq(|s|, i requires 0 <= i < |s| => (s[i] as int % 256) as byte)
  }

  /** A slice of a slice is a slice of the original. */
  lemma SliceOfSlice(s: Bytes, a: int, b: int, c: int, d: int)
    requires 0 <= a <= b <= |s| && 0 <= c <= d <= b - a
    ensures s[a..b][c..d] == s[a + c..a + d]
    ensures c == 0 ==> s[a..b][..d] == s[a..a + d]
    ensures d == b - a ==> s[a..b][c..] == s[a + c..b]
  {
    assert forall k | 0 <= k < d - c :: s[a..b][c..d][k] == s[a + c + k];
    assert c == 0 ==> forall k | 0 <= k < d :: s[a..b][..d][k] == s[a + k];
    assert d == b - a ==> forall k | 0 <= k < d - c :: s[a..b][c..][k] == s[a + c + k];
  }

  /** `sub` occurs in `s` starting at offset `i`. */
  predicate OccursAt(s: Bytes, sub: Bytes, i: int) {
    0 <= i && i + |sub| <= |s| && s[i..i + |sub|] == sub
  }

  /** bytes.Contains(s, sub) and strings.Contains(s, sub): some offset holds `sub`. */
  predicate Contains(s: Bytes, sub: Bytes) {
    exists i | 0 <= i <= |s| - |sub| :: OccursAt(s, sub, i)
  }

  /**
   * bytes.Replace(s, []byte{from}, []byte{to}, -1): with a one-byte pattern and
   * no limit on the count, every occurrence of `from` becomes `to`.
   */
  function ReplaceByte(s: Bytes, from: byte, to: byte): (r: Bytes)
    ensures |r| == |s|
    ensures forall i | 0 <= i < |s| :: s[i] == from ==> r[i] == to
    ensures forall i | 0 <= i < |s| :: s[i] != from ==> r[i] == s[i]
    ensures from != to ==> from !in r
  {
    if s == [] then [] else [if s[0] == from then to else s[0]] + ReplaceByte(s[1..], from, to)
  }

}
