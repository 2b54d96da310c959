/** The two views of white space, bytes of UTF-8 and characters, agree; and what the named bytes stand for. */
module Utf8 {
  import opened Bytes
  import Text

  /** The UTF-8 encoding of a character, by the table of RFC 3629 section 3. */
  function Encode(c: char): seq<byte> {
    var n := c as int;
    if n < 0x80 then [n as byte]
    else if n < 0x800 then [(0xC0 + n / 64) as byte, (0x80 + n % 64) as byte]
    else if n < 0x10000 then [(0xE0 + n / 4096) as byte, (0x80 + n / 64 % 64) as byte, (0x80 + n % 64) as byte]
    else
      [(0xF0 + n / 262144) as byte, (0x80 + n / 4096 % 64) as byte, (0x80 + n / 64 % 64) as byte,
       (0x80 + n % 64) as byte]
  }

  lemma OneByte(c: char, rest: seq<byte>)
    requires c as int < 0x80
    ensures WhitespaceAt(Encode(c) + rest, 0) == if Text.IsWhitespace(c) then 1 else 0
  {
  }

  lemma TwoBytes(c: char, rest: seq<byte>)
    requires 0x80 <= c as int < 0x800
    ensures WhitespaceAt(Encode(c) + rest, 0) == if Text.IsWhitespace(c) then 2 else 0
  {
    var n := c as int;
    assert n == n / 64 * 64 + n % 64;
    var line := Encode(c) + rest;
    assert line[0] == (0xC0 + n / 64) as byte && line[1] == (0x80 + n % 64) as byte;
  }

  lemma ThreeBytes(c: char, rest: seq<byte>)
    requires 0x800 <= c as int < 0x10000
    ensures WhitespaceAt(Encode(c) + rest, 0) == if Text.IsWhitespace(c) then 3 else 0
  {
    var n := c as int;
    var high, middle, low := n / 4096, n / 64 % 64, n % 64;
    assert n == high * 4096 + middle * 64 + low;
    var line := Encode(c) + rest;
    assert line[0] == (0xE0 + high) as byte && line[1] == (0x80 + middle) as byte && line[2] == (0x80 + low) as byte;
  }

  lemma FourBytes(c: char, rest: seq<byte>)
    requires c as int >= 0x10000
    ensures WhitespaceAt(Encode(c) + rest, 0) == 0 && !Text.IsWhitespace(c)
  {
    var line := Encode(c) + rest;
    assert line[0] >= 0xF0;
  }

  /** A line starts with white space for the byte scanner exactly when its first character is white space. */
  lemma WhitespaceAgrees(c: char, rest: seq<byte>)
    ensures WhitespaceAt(Encode(c) + rest, 0) == if Text.IsWhitespace(c) then |Encode(c)| else 0
  {
    var n := c as int;
    if n < 0x80 {
      OneByte(c, rest);
    } else if n < 0x800 {
      TwoBytes(c, rest);
    } else if n < 0x10000 {
      ThreeBytes(c, rest);
    } else {
      FourBytes(c, rest);
    }
  }

  function EncodeAll(s: string): seq<byte> {
    if s == [] then [] else Encode(s[0]) + EncodeAll(s[1..])
  }

  /** Trimming the bytes of a text is trimming the text. */
  lemma {:induction false} TrimStartAgrees(s: string)
    ensures Bytes.TrimStart(EncodeAll(s)) == EncodeAll(Text.TrimStart(s))
  {
    if s != [] {
      var head, tail := Encode(s[0]), EncodeAll(s[1..]);
      WhitespaceAgrees(s[0], tail);
      if Text.IsWhitespace(s[0]) {
        TrimStartAgrees(s[1..]);
        assert (head + tail)[|head|..] == tail;
      }
    }
  }

  /** The named bytes are the ASCII codes of these characters. */
  lemma NamedBytes()
    ensures Encode(' ') == [SPACE] && Encode('\t') == [TAB] && Encode('\n') == [LINE_FEED]
    ensures Encode('\r') == [CARRIAGE_RETURN] && Encode('\U{C}') == [FORM_FEED]
    ensures Encode('"') == [QUOTE] && Encode('#') == [HASH] && Encode('\'') == [TICK] && Encode('*') == [STAR]
    ensures Encode('/') == [SLASH] && Encode('\\') == [BACKSLASH] && Encode('`') == [BACKTICK]
    ensures Encode('b') == [LOWER_B] && Encode('r') == [LOWER_R]
  {
  }
}
