/** Bytes of UTF-8 text, as the line scanners see them. */
module Bytes {
  newtype byte = b: int | 0 <= b < 256

  const TAB: byte := 0x09
  const LINE_FEED: byte := 0x0A
  const FORM_FEED: byte := 0x0C
  const CARRIAGE_RETURN: byte := 0x0D
  const SPACE: byte := 0x20
  const QUOTE: byte := 0x22
  const HASH: byte := 0x23
  const TICK: byte := 0x27
  const STAR: byte := 0x2A
  const SLASH: byte := 0x2F
  const BACKSLASH: byte := 0x5C
  const BACKTICK: byte := 0x60
  const LOWER_B: byte := 0x62
  const LOWER_R: byte := 0x72

  /** The five characters of the WhatWG ASCII whitespace set. */
  predicate IsAsciiWhitespace(b: byte) {
    b == SPACE || b == TAB || b == LINE_FEED || b == FORM_FEED || b == CARRIAGE_RETURN
  }

  predicate IsAscii(b: byte) {
    b < 0x80
  }

  /** How many bytes from `i` on encode one Unicode white-space character; 0 for none. */
  function WhitespaceAt(line: seq<byte>, i: nat): (n: nat)
    ensures i + n <= |line| || n == 0
  {
    if i < |line| && (TAB <= line[i] <= CARRIAGE_RETURN || line[i] == SPACE) then 1
    else if i + 2 <= |line| && line[i] == 0xC2 && (line[i + 1] == 0x85 || line[i + 1] == 0xA0) then 2
    else if i + 3 <= |line| && IsWideWhitespace(line[i], line[i + 1], line[i + 2]) then 3
    else 0
  }

  /** The three-byte white-space characters: U+1680, U+2000 to U+200A, U+2028, U+2029, U+202F, U+205F, U+3000. */
  predicate IsWideWhitespace(a: byte, b: byte, c: byte) {
    || (a == 0xE1 && b == 0x9A && c == 0x80)
    || (a == 0xE2 && b == 0x80 && (0x80 <= c <= 0x8A || c == 0xA8 || c == 0xA9 || c == 0xAF))
    || (a == 0xE2 && b == 0x81 && c == 0x9F)
    || (a == 0xE3 && b == 0x80 && c == 0x80)
  }

  /** The line without its leading white space. */
  function TrimStart(line: seq<byte>): (r: seq<byte>)
    ensures |r| <= |line| && r == line[|line| - |r|..]
  {
    var n := WhitespaceAt(line, 0);
    if n == 0 then line else TrimStart(line[n..])
  }

  /** The bytes of an ASCII text. */
  function Ascii(text: string): (r: seq<byte>)
    requires forall c | c in text :: c < '\U{80}'
    ensures |r| == |text|
  {
    seq(|text|, i requires 0 <= i < |text| => assert text[i] in text; (text[i] as int) as byte)
  }

  predicate OccursAt(line: seq<byte>, pattern: seq<byte>, i: nat) {
    i + |pattern| <= |line| && line[i..i + |pattern|] == pattern
  }

  predicate Contains(line: seq<byte>, pattern: seq<byte>) {
    exists i | 0 <= i <= |line| :: OccursAt(line, pattern, i)
  }
}
