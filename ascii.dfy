/** Bytes, the ASCII bytes the SubRip grammar names, and byte-string literals. */
module Ascii {

  /** One byte of the input buffer (Rust `u8` inside `&[u8]`). */
  type byte = b: int | 0 <= b < 0x100

  const NL: byte := 10      // '\n'
  const CR: byte := 13      // '\r'
  const Space: byte := 32   // ' '
  const Comma: byte := 44   // ','
  const Dash: byte := 45    // '-'
  const Zero: byte := 48    // '0'
  const Nine: byte := 57    // '9'
  const Colon: byte := 58   // ':'
  const Gt: byte := 62      // '>'

  /** The literal " --> " between the two times of an entry. */
  const Arrow: seq<byte> := [Space, Dash, Dash, Gt, Space]

  /** The text terminator "\n\n". */
  const BlankLine: seq<byte> := [NL, NL]

  predicate IsDigit(b: byte) {
    Zero <= b <= Nine
  }

  predicate AllDigits(s: seq<byte>) {
    forall i :: 0 <= i < |s| ==> IsDigit(s[i])
  }

  /** A digit run as nom's `digit` returns it: one or more ASCII digits. */
  predicate IsRun(s: seq<byte>) {
    |s| >= 1 && AllDigits(s)
  }

  /** True when `s` cannot continue a digit run: it is empty or starts with a non-digit. */
  predicate StopsRun(s: seq<byte>) {
    s == [] || !IsDigit(s[0])
  }

  predicate IsAscii(s: seq<byte>) {
    forall i :: 0 <= i < |s| ==> s[i] < 0x80
  }

  /** The bytes of a string literal; every literal written here is ASCII, so each character is its own byte. */
  function Bytes(s: string): (r: seq<byte>)
    ensures |r| == |s|
    ensures forall i :: 0 <= i < |s| && s[i] as int < 0x100 ==> r[i] == s[i] as int
  {
    seq(|s|, i requires 0 <= i < |s| => (s[i] as int % 0x100) as byte)
  }

  /** Byte strings joined in either grouping are the same bytes. */
  lemma Assoc(a: seq<byte>, b: seq<byte>, c: seq<byte>)
    ensures a + b + c == a + (b + c)
  {
  }

  /** A literal written in pieces gives the bytes of the pieces one after another. */
  lemma BytesAppend(a: string, b: string)
    ensures Bytes(a + b) == Bytes(a) + Bytes(b)
  {
  }
}
