/** Character-level text helpers: white space and trimming. */
module Text {

  /** The Unicode White_Space property. */
  predicate IsWhitespace(c: char) {
    || '\U{9}' <= c <= '\U{D}' || c == ' ' || c == '\U{85}' || c == '\U{A0}' || c == '\U{1680}'
    || '\U{2000}' <= c <= '\U{200A}' || c == '\U{2028}' || c == '\U{2029}' || c == '\U{202F}'
    || c == '\U{205F}' || c == '\U{3000}'
  }

  function TrimStart(s: string): (r: string)
    ensures r == [] || !IsWhitespace(r[0])
    ensures |r| <= |s| && r == s[|s| - |r|..]
    ensures forall i | 0 <= i < |s| - |r| :: IsWhitespace(s[i])
  {
    if s != [] && IsWhitespace(s[0]) then TrimStart(s[1..]) else s
  }

  function TrimEnd(s: string): (r: string)
    ensures r == [] || !IsWhitespace(r[|r| - 1])
    ensures |r| <= |s| && r == s[..|r|]
    ensures forall i | |r| <= i < |s| :: IsWhitespace(s[i])
  {
    if s != [] && IsWhitespace(s[|s| - 1]) then TrimEnd(s[..|s| - 1]) else s
  }

  function Trim(s: string): string {
    TrimEnd(TrimStart(s))
  }

  /** Leading white space in front of a body that has none is what trimming removes. */
  lemma {:induction false} TrimStartPadded(pad: string, body: string)
    requires forall i | 0 <= i < |pad| :: IsWhitespace(pad[i])
    requires body != [] && !IsWhitespace(body[0])
    ensures TrimStart(pad + body) == body
  {
    if pad == [] {
      assert pad + body == body;
    } else {
      TrimStartPadded(pad[1..], body);
      assert (pad + body)[1..] == pad[1..] + body;
    }
  }

  /** Trimming leaves the text between the outermost characters that are no white space. */
  lemma TrimExactly(s: string, i: nat, j: nat)
    requires i <= j <= |s|
    requires forall k | 0 <= k < |s| && !(i <= k < j) :: IsWhitespace(s[k])
    requires i == j || (!IsWhitespace(s[i]) && !IsWhitespace(s[j - 1]))
    ensures Trim(s) == s[i..j]
  {
    var t := TrimStart(s);
    var cut := |s| - |t|;
    if i < j {
      assert cut <= i;
      assert t[0] == s[cut];
      assert cut == i && t == s[i..];
      var r := TrimEnd(t);
      assert |r| >= j - i;
      assert r[|r| - 1] == s[i + |r| - 1];
      assert |r| == j - i;
    }
  }

  /** A text is white space only exactly when trimming leaves nothing of it. */
  lemma TrimmedAway(s: string)
    ensures Trim(s) == [] <==> forall i | 0 <= i < |s| :: IsWhitespace(s[i])
  {
    var t := TrimStart(s);
    if t != [] {
      var kept := TrimEnd(t);
      assert forall i | |kept| <= i < |t| :: IsWhitespace(t[i]);
      assert s[|s| - |t|] == t[0];
    }
  }
}
