/** What a manifest line is, spelled out: headers, version keys, and the line that an edit writes. */
module ManifestLines {
  import opened Text
  import opened Manifest

  predicate AllWhitespace(s: string) {
    forall i | 0 <= i < |s| :: IsWhitespace(s[i])
  }

  predicate AllQuotes(s: string) {
    forall i | 0 <= i < |s| :: s[i] == '"'
  }

  /** A header is a trimmed line in brackets, and the package header is this one text. */
  lemma HeaderSpelledOut(line: string)
    ensures var t := Trim(line);
            && (Classify(line).Header? <==> t != [] && t[0] == '[' && t[|t| - 1] == ']')
            && (Classify(line) == Header(true) <==> t == "[workspace.package]")
  {
    BracketedHeader();
    HeaderOfTrimmed(Trim(line));
  }

  lemma BracketedHeader()
    ensures PACKAGE_HEADER != [] && PACKAGE_HEADER[0] == '[' && PACKAGE_HEADER[|PACKAGE_HEADER| - 1] == ']'
  {
  }

  lemma HeaderOfTrimmed(t: string)
    ensures ClassifyTrimmed(t).Header? <==> t != [] && t[0] == '[' && t[|t| - 1] == ']'
    ensures ClassifyTrimmed(t) == Header(true) <==> t == PACKAGE_HEADER
  {
    BracketedHeader();
  }

  lemma {:induction false} StripStartQuotes(quotes: string, body: string)
    requires AllQuotes(quotes) && (body == [] || body[0] != '"')
    ensures StripStart(quotes + body, '"') == body
  {
    if quotes == [] {
      assert quotes + body == body;
    } else {
      StripStartQuotes(quotes[1..], body);
      assert (quotes + body)[1..] == quotes[1..] + body;
    }
  }

  lemma {:induction false} StripEndQuotes(body: string, quotes: string)
    requires AllQuotes(quotes) && (body == [] || body[|body| - 1] != '"')
    ensures StripEnd(body + quotes, '"') == body
  {
    if quotes == [] {
      assert body + quotes == body;
    } else {
      StripEndQuotes(body, quotes[..|quotes| - 1]);
      assert (body + quotes)[..|body| + |quotes| - 1] == body + quotes[..|quotes| - 1];
    }
  }

  lemma {:induction false} TrimStartBlank(gap: string, rest: string)
    requires AllWhitespace(gap) && (rest == [] || !IsWhitespace(rest[0]))
    ensures TrimStart(gap + rest) == rest
  {
    if rest != [] {
      TrimStartPadded(gap, rest);
    }
  }

  /** Behind the seven letters of the key word. */
  lemma KeyWord(t: string, tail: string)
    requires |t| >= 7 && t[..7] == "version" && t[7..] == tail
    ensures ClassifyTrimmed(t) == ClassifyRest(TrimStart(tail))
  {
    assert t[0] == t[..7][0] == 'v';
    assert "version" <= t;
  }

  /** A version key: the word, white space, an equals sign; its value loses the quotes at both ends. */
  lemma KeySpelledOut(gap: string, rest: string, open: string, value: string, close: string)
    requires AllWhitespace(gap) && Trim(rest) == open + value + close && AllQuotes(open) && AllQuotes(close)
    requires value != [] && value[0] != '"' && value[|value| - 1] != '"'
    ensures ClassifyTrimmed("version" + (gap + (['='] + rest))) == VersionKey(value)
  {
    var tail := gap + (['='] + rest);
    SevenLetters(tail);
    KeyWord("version" + tail, tail);
    TrimStartBlank(gap, ['='] + rest);
    KeyOfRest(rest, open, value, close);
  }

  lemma SevenLetters(tail: string)
    ensures |"version" + tail| >= 7 && ("version" + tail)[..7] == "version" && ("version" + tail)[7..] == tail
  {
  }

  lemma KeyOfRest(rest: string, open: string, value: string, close: string)
    requires Trim(rest) == open + value + close && AllQuotes(open) && AllQuotes(close)
    requires value != [] && value[0] != '"' && value[|value| - 1] != '"'
    ensures ClassifyRest(['='] + rest) == VersionKey(value)
  {
    assert (['='] + rest)[1..] == rest;
    assert open + value + close == open + (value + close) && (value + close)[0] == value[0];
    StripStartQuotes(open, value + close);
    StripEndQuotes(value, close);
  }

  /** Nothing else is a version key. */
  lemma OnlyKeysAreKeys(t: string) returns (gap: string, rest: string)
    ensures ClassifyTrimmed(t).VersionKey? ==> t == "version" + (gap + (['='] + rest)) && AllWhitespace(gap)
  {
    gap, rest := [], [];
    if |t| >= 7 && t[..7] == "version" {
      KeyWord(t, t[7..]);
      var key := TrimStart(t[7..]);
      if key == [] || key[0] != '=' {
        NoEqualsNoKey(key);
      } else {
        TrimmedTail(t[7..]);
        gap, rest := KeyTail(t[7..], key);
        SevenAndTail(t, gap + (['='] + rest));
      }
    } else {
      NoWordNoKey(t);
    }
  }

  lemma NoWordNoKey(t: string)
    requires |t| < 7 || t[..7] != "version"
    ensures !ClassifyTrimmed(t).VersionKey?
  {
    assert |"version"| == 7 && !("version" <= t);
  }

  lemma NoEqualsNoKey(key: string)
    requires key == [] || key[0] != '='
    ensures ClassifyRest(key) == Other
  {
  }

  lemma KeyTail(tail: string, key: string) returns (gap: string, rest: string)
    requires key != [] && key[0] == '=' && |key| <= |tail| && tail[|tail| - |key|..] == key
    requires AllWhitespace(tail[..|tail| - |key|])
    ensures tail == gap + (['='] + rest) && AllWhitespace(gap)
  {
    gap, rest := tail[..|tail| - |key|], key[1..];
    assert key == ['='] + rest;
  }

  lemma TrimmedTail(tail: string)
    ensures var key := TrimStart(tail);
            |key| <= |tail| && tail[|tail| - |key|..] == key && AllWhitespace(tail[..|tail| - |key|])
  {
  }

  lemma SevenAndTail(t: string, tail: string)
    requires |t| >= 7 && t[..7] == "version" && t[7..] == tail
    ensures t == "version" + tail
  {
    assert t == t[..7] + t[7..];
  }

  /** The written line: the white space of the old one, the key, and the quoted value. */
  lemma NewLineSpelledOut(pad: string, body: string, value: string)
    requires AllWhitespace(pad) && (body == [] || !IsWhitespace(body[0]))
    ensures NewLine(pad + body, value) == pad + "version = \"" + value + "\""
  {
    IndentIs(pad, body);
    assert (pad + body)[..|pad|] == pad;
    assert VersionText(value) == "version = \"" + value + "\"";
  }

  lemma {:induction false} IndentIs(pad: string, body: string)
    requires AllWhitespace(pad) && (body == [] || !IsWhitespace(body[0]))
    ensures Indent(pad + body) == |pad|
  {
    if body != [] {
      IndentOf(pad, body);
    } else if pad != [] {
      IndentIs(pad[1..], body);
      assert (pad + body)[1..] == pad[1..] + body;
    }
  }
}
