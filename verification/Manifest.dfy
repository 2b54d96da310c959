/** The text edit that sets the workspace version in a Cargo manifest. */
module Manifest {
  import opened Wrappers
  import opened Text

  // ---- Lines ----

  function StripCr(line: string): string {
    if line != [] && line[|line| - 1] == '\r' then line[..|line| - 1] else line
  }

  /** The text before the first line feed, and what follows it. */
  function FirstLine(text: string): (string, Option<string>) {
    if text == [] then ([], None)
    else if text[0] == '\n' then ([], Some(text[1..]))
    else
      var (head, tail) := FirstLine(text[1..]);
      ([text[0]] + head, tail)
  }

  lemma {:induction false} FirstLineShorter(text: string)
    ensures var (line, rest) := FirstLine(text);
            && '\n' !in line
            && (rest.None? ==> line == text)
            && (rest.Some? ==> text == line + ['\n'] + rest.value)
  {
    if text != [] && text[0] != '\n' {
      FirstLineShorter(text[1..]);
      assert text == [text[0]] + text[1..];
    }
  }

  /** The lines of a text, line feeds and the carriage returns before them dropped. */
  function Lines(text: string): seq<string>
    decreases |text|
  {
    if text == [] then []
    else
      FirstLineShorter(text);
      var (line, rest) := FirstLine(text);
      match rest
      case None => [line]
      case Some(more) => [StripCr(line)] + Lines(more)
  }

  function JoinLines(lines: seq<string>): string {
    if lines == [] then []
    else if |lines| == 1 then lines[0]
    else lines[0] + ['\n'] + JoinLines(lines[1..])
  }

  predicate EndsWithNewline(text: string) {
    text != [] && text[|text| - 1] == '\n'
  }

  /** The lines joined again, with the final newline of `text`. */
  function Rejoin(lines: seq<string>, text: string): string {
    JoinLines(lines) + NewlineIf(EndsWithNewline(text))
  }

  lemma {:induction false} FirstLineJoined(line: string, rest: string)
    requires '\n' !in line
    ensures FirstLine(line + ['\n'] + rest) == (line, Some(rest))
    ensures FirstLine(line) == (line, None)
  {
    if line == [] {
      assert ([] + ['\n'] + rest)[1..] == rest;
    } else {
      FirstLineJoined(line[1..], rest);
      assert (line + ['\n'] + rest)[1..] == line[1..] + ['\n'] + rest;
      assert line == [line[0]] + line[1..];
    }
  }

  predicate NoLineFeeds(lines: seq<string>) {
    forall i | 0 <= i < |lines| :: '\n' !in lines[i]
  }

  /** What splitting again makes of joined lines: a line feed takes the carriage return before it along. */
  function Stripped(lines: seq<string>, newline: bool): (stripped: seq<string>)
    ensures |stripped| == |lines|
    ensures forall i | 0 <= i < |lines| ::
              stripped[i] == if i < |lines| - 1 || newline then StripCr(lines[i]) else lines[i]
  {
    seq(|lines|, i requires 0 <= i < |lines| => if i < |lines| - 1 || newline then StripCr(lines[i]) else lines[i])
  }

  function NewlineIf(newline: bool): string {
    if newline then "\n" else ""
  }

  lemma LinesOfFirst(line: string, rest: string)
    requires '\n' !in line
    ensures Lines(line + ['\n'] + rest) == [StripCr(line)] + Lines(rest)
    ensures line != [] ==> Lines(line) == [line]
  {
    FirstLineJoined(line, rest);
  }

  lemma StrippedCons(lines: seq<string>, newline: bool)
    requires |lines| > 1
    ensures Stripped(lines, newline) == [StripCr(lines[0])] + Stripped(lines[1..], newline)
  {
  }

  lemma JoinedCons(lines: seq<string>, end: string)
    requires |lines| > 1
    ensures JoinLines(lines) + end == lines[0] + ['\n'] + (JoinLines(lines[1..]) + end)
  {
  }

  lemma OneLineBack(line: string, newline: bool)
    requires '\n' !in line && (line != [] || newline)
    ensures Lines(line + NewlineIf(newline)) == [if newline then StripCr(line) else line]
  {
    LinesOfFirst(line, []);
    assert line + ['\n'] + [] == line + "\n" && line + "" == line;
  }

  /** Lines come back from the joined text, stripped; an empty last line needs its newline. */
  lemma {:induction false} LinesJoined(lines: seq<string>, newline: bool)
    requires lines != [] && NoLineFeeds(lines) && (lines[|lines| - 1] != [] || newline)
    ensures Lines(JoinLines(lines) + NewlineIf(newline)) == Stripped(lines, newline)
    decreases |lines|
  {
    if |lines| == 1 {
      OneLineBack(lines[0], newline);
    } else {
      LinesJoined(lines[1..], newline);
      JoinedCons(lines, NewlineIf(newline));
      LinesOfFirst(lines[0], JoinLines(lines[1..]) + NewlineIf(newline));
      StrippedCons(lines, newline);
    }
  }

  predicate HasCrLf(text: string) {
    exists i | 0 <= i < |text| - 1 :: text[i] == '\r' && text[i + 1] == '\n'
  }

  lemma {:induction false} RejoinAtMost(text: string)
    ensures |Rejoin(Lines(text), text)| <= |text|
    ensures Rejoin(Lines(text), text) == text || |Rejoin(Lines(text), text)| < |text|
    ensures HasCrLf(text) <==> |Rejoin(Lines(text), text)| < |text|
    decreases |text|
  {
    if text != [] {
      FirstLineShorter(text);
      var (line, rest) := FirstLine(text);
      match rest {
        case None =>
        case Some(more) =>
          RejoinAtMost(more);
          RejoinStep(text, line, more);
          CrLfStep(text, line, more);
      }
    }
  }

  lemma RejoinStep(text: string, line: string, more: string)
    requires FirstLine(text) == (line, Some(more)) && '\n' !in line && text == line + ['\n'] + more
    ensures Rejoin(Lines(text), text) == StripCr(line) + ['\n'] + Rejoin(Lines(more), more)
  {
    var first := StripCr(line);
    assert Lines(text) == [first] + Lines(more);
    if more == [] {
      assert Lines(more) == [] && text[|text| - 1] == '\n';
      assert Rejoin(Lines(text), text) == first + "\n";
      assert first + "\n" == first + ['\n'] + Rejoin(Lines(more), more);
    } else {
      assert text[|text| - 1] == more[|more| - 1];
      NonemptyLines(more);
      assert ([first] + Lines(more))[1..] == Lines(more);
      var end := if EndsWithNewline(text) then "\n" else "";
      assert first + ['\n'] + JoinLines(Lines(more)) + end == first + ['\n'] + (JoinLines(Lines(more)) + end);
    }
  }

  lemma NonemptyLines(text: string)
    requires text != []
    ensures Lines(text) != []
  {
  }

  lemma CrLfStep(text: string, line: string, more: string)
    requires '\n' !in line && text == line + ['\n'] + more
    ensures HasCrLf(text) <==> (line != [] && line[|line| - 1] == '\r') || HasCrLf(more)
  {
    if HasCrLf(more) {
      var i :| 0 <= i < |more| - 1 && more[i] == '\r' && more[i + 1] == '\n';
      assert text[|line| + 1 + i] == '\r' && text[|line| + 1 + i + 1] == '\n';
    }
    if line != [] && line[|line| - 1] == '\r' {
      assert text[|line| - 1] == '\r' && text[|line| - 1 + 1] == '\n';
    }
    if HasCrLf(text) {
      var i :| 0 <= i < |text| - 1 && text[i] == '\r' && text[i + 1] == '\n';
      if i >= |line| {
        assert text[i] == more[i - |line| - 1] && text[i + 1] == more[i - |line| - 1 + 1];
      }
    }
  }

  /** Taking a text apart and joining it again gives the same text exactly when no line ends in CR LF. */
  lemma RejoinExact(text: string)
    ensures Rejoin(Lines(text), text) == text <==> !HasCrLf(text)
  {
    RejoinAtMost(text);
  }

  // ---- The version line ----

  function StripStart(s: string, c: char): string {
    if s != [] && s[0] == c then StripStart(s[1..], c) else s
  }

  function StripEnd(s: string, c: char): string {
    if s != [] && s[|s| - 1] == c then StripEnd(s[..|s| - 1], c) else s
  }

  /** A table header (of the workspace package table or another), a version key, or anything else. */
  datatype LineKind = Header(isPackage: bool) | VersionKey(value: string) | Other

  const PACKAGE_HEADER := "[workspace.package]"

  function ClassifyTrimmed(trimmed: string): LineKind {
    if trimmed != [] && trimmed[0] == '[' && trimmed[|trimmed| - 1] == ']' then Header(trimmed == PACKAGE_HEADER)
    else if "version" <= trimmed then ClassifyRest(TrimStart(trimmed[7..]))
    else Other
  }

  function ClassifyRest(rest: string): LineKind {
    if rest != [] && rest[0] == '=' then VersionKey(StripEnd(StripStart(Trim(rest[1..]), '"'), '"')) else Other
  }

  function Classify(line: string): LineKind {
    ClassifyTrimmed(Trim(line))
  }

  function Kinds(lines: seq<string>): (kinds: seq<LineKind>)
    ensures |kinds| == |lines|
    ensures forall i | 0 <= i < |lines| :: kinds[i] == Classify(lines[i])
  {
    seq(|lines|, i requires 0 <= i < |lines| => Classify(lines[i]))
  }

  /** The last header before line `i` is that of the workspace package table. */
  ghost predicate InPackage(kinds: seq<LineKind>, i: nat) {
    exists h | 0 <= h < i :: h < |kinds| && kinds[h] == Header(true)
      && forall j | h < j < i && j < |kinds| :: !kinds[j].Header?
  }

  ghost predicate IsVersionLine(kinds: seq<LineKind>, i: nat) {
    i < |kinds| && kinds[i].VersionKey? && InPackage(kinds, i)
  }

  ghost predicate IsFirstVersionLine(kinds: seq<LineKind>, i: nat) {
    IsVersionLine(kinds, i) && forall j: nat | j < i :: !IsVersionLine(kinds, j)
  }

  method FindVersionKind(kinds: seq<LineKind>) returns (found: Option<(nat, string)>)
    ensures found.None? ==> forall i :: !IsVersionLine(kinds, i)
    ensures found.Some? ==>
              IsFirstVersionLine(kinds, found.value.0) && kinds[found.value.0].value == found.value.1
  {
    var inSection := false;
    for i := 0 to |kinds|
      invariant inSection <==> InPackage(kinds, i)
      invariant forall j: nat | j < i :: !IsVersionLine(kinds, j)
    {
      SectionStep(kinds, i);
      match kinds[i] {
        case Header(isPackage) => inSection := isPackage;
        case VersionKey(value) =>
          if inSection {
            return Some((i, value));
          }
        case Other =>
      }
    }
    found := None;
  }

  lemma SectionStep(kinds: seq<LineKind>, i: nat)
    requires i < |kinds|
    ensures InPackage(kinds, i + 1) <==> if kinds[i].Header? then kinds[i].isPackage else InPackage(kinds, i)
  {
  }

  method FindWorkspaceVersionLine(toml: string) returns (found: Option<(nat, string)>)
    ensures found.None? ==> forall i :: !IsVersionLine(Kinds(Lines(toml)), i)
    ensures found.Some? ==>
              && IsFirstVersionLine(Kinds(Lines(toml)), found.value.0)
              && Kinds(Lines(toml))[found.value.0].value == found.value.1
  {
    found := FindVersionKind(Kinds(Lines(toml)));
  }

  // ---- The edit ----

  function Indent(line: string): (n: nat)
    ensures n <= |line| && forall i | 0 <= i < n :: IsWhitespace(line[i])
    ensures n < |line| ==> !IsWhitespace(line[n])
  {
    if line != [] && IsWhitespace(line[0]) then 1 + Indent(line[1..]) else 0
  }

  function VersionText(value: string): string {
    "version = " + ['"'] + value + ['"']
  }

  function NewLine(line: string, value: string): string {
    line[..Indent(line)] + VersionText(value)
  }

  function Rewritten(toml: string, at: nat, value: string): string
    requires at < |Lines(toml)|
  {
    Rejoin(Lines(toml)[at := NewLine(Lines(toml)[at], value)], toml)
  }

  ghost function FirstVersionLine(kinds: seq<LineKind>): Option<nat> {
    if exists at :: IsFirstVersionLine(kinds, at) then
      var at :| IsFirstVersionLine(kinds, at);
      Some(at)
    else None
  }

  lemma FirstVersionLineIs(kinds: seq<LineKind>, at: nat)
    requires IsFirstVersionLine(kinds, at)
    ensures FirstVersionLine(kinds) == Some(at)
  {
    var other := FirstVersionLine(kinds).value;
    assert !(other < at) && !(at < other);
  }

  /** The edit: none without a version line. */
  ghost function Edited(toml: string, value: string): Option<string> {
    match FirstVersionLine(Kinds(Lines(toml)))
    case Some(at) => Some(Rewritten(toml, at, value))
    case None => None
  }

  lemma EditedAt(toml: string, at: nat, value: string)
    requires at < |Lines(toml)|
    ensures IsFirstVersionLine(Kinds(Lines(toml)), at) ==> Edited(toml, value) == Some(Rewritten(toml, at, value))
  {
    if IsFirstVersionLine(Kinds(Lines(toml)), at) {
      FirstVersionLineIs(Kinds(Lines(toml)), at);
    }
  }

  method ReplaceWorkspaceVersion(toml: string, value: string) returns (result: Option<string>)
    ensures result == Edited(toml, value)
    ensures result.None? <==> forall i :: !IsVersionLine(Kinds(Lines(toml)), i)
  {
    var found := FindWorkspaceVersionLine(toml);
    if found.None? {
      return None;
    }
    var idx := found.value.0;
    EditedAt(toml, idx, value);
    var text := RewriteLine(toml, idx, value);
    result := Some(text);
  }

  method RewriteLine(toml: string, idx: nat, value: string) returns (text: string)
    requires idx < |Lines(toml)|
    ensures text == Rewritten(toml, idx, value)
  {
    var lines := Lines(toml);
    lines := lines[idx := lines[idx][..Indent(lines[idx])] + VersionText(value)];
    text := JoinLines(lines);
    if EndsWithNewline(toml) {
      text := text + "\n";
    }
    assert !EndsWithNewline(toml) ==> text == text + "";
  }

  // ---- The rewritten line reads back ----

  /** A value that the line can carry: no white space, no quotes, no line ends, not empty. */
  predicate IsPlainValue(value: string) {
    value != [] && forall i | 0 <= i < |value| :: !IsWhitespace(value[i]) && value[i] != '"'
  }

  lemma TrimPadded(pad: string, body: string)
    requires forall i | 0 <= i < |pad| :: IsWhitespace(pad[i])
    requires body != [] && !IsWhitespace(body[0]) && !IsWhitespace(body[|body| - 1])
    ensures Trim(pad + body) == body
  {
    TrimStartPadded(pad, body);
  }

  lemma QuotesStripped(value: string)
    requires IsPlainValue(value)
    ensures StripEnd(StripStart(['"'] + value + ['"'], '"'), '"') == value
  {
    var quoted := ['"'] + value + ['"'];
    assert quoted[1..] == value + ['"'];
    assert StripStart(quoted, '"') == value + ['"'];
    assert (value + ['"'])[..|value|] == value;
  }

  lemma VersionTextParts(value: string)
    ensures var body := VersionText(value);
            && "version" <= body && body[0] == 'v' && body[|body| - 1] == '"'
            && body[7..] == " " + (['='] + " " + (['"'] + value + ['"']))
  {
  }

  lemma RestReadsBack(value: string)
    requires IsPlainValue(value)
    ensures ClassifyRest(['='] + " " + (['"'] + value + ['"'])) == VersionKey(value)
  {
    var quoted := ['"'] + value + ['"'];
    var rest := ['='] + " " + quoted;
    assert rest[1..] == " " + quoted;
    TrimPadded(" ", quoted);
    QuotesStripped(value);
  }

  lemma VersionTextReadsBack(value: string)
    requires IsPlainValue(value)
    ensures ClassifyTrimmed(VersionText(value)) == VersionKey(value)
  {
    VersionTextParts(value);
    RestReadsBack(value);
    TrimStartPadded(" ", ['='] + " " + (['"'] + value + ['"']));
  }

  /** The written line is read as a version key with the written value. */
  lemma NewLineReadsBack(line: string, value: string)
    requires IsPlainValue(value)
    ensures Classify(NewLine(line, value)) == VersionKey(value)
  {
    VersionTextParts(value);
    TrimPadded(line[..Indent(line)], VersionText(value));
    VersionTextReadsBack(value);
  }

  lemma HeaderReadsBack()
    ensures Classify(PACKAGE_HEADER) == Header(true)
  {
    assert PACKAGE_HEADER[0] == '[' && PACKAGE_HEADER[18] == ']' && [] + PACKAGE_HEADER == PACKAGE_HEADER;
    TrimPadded([], PACKAGE_HEADER);
  }

  /** The smallest manifest that declares a version. */
  function PackageText(value: string): string {
    PACKAGE_HEADER + ['\n'] + VersionText(value)
  }

  lemma TwoLines(first: string, second: string)
    requires '\n' !in first && '\n' !in second && second != [] && StripCr(first) == first
    ensures Lines(first + ['\n'] + second) == [first, second]
  {
    LinesOfFirst(second, []);
    LinesOfFirst(first, second);
  }

  lemma PackageLines(value: string)
    requires IsPlainValue(value)
    ensures Lines(PackageText(value)) == [PACKAGE_HEADER, VersionText(value)]
  {
    NewLinePlain([], value);
    assert NewLine([], value) == VersionText(value);
    assert PACKAGE_HEADER[18] == ']' && '\n' !in PACKAGE_HEADER;
    TwoLines(PACKAGE_HEADER, VersionText(value));
  }

  lemma SecondLineDeclares(kinds: seq<LineKind>, value: string)
    requires |kinds| == 2 && kinds[0] == Header(true) && kinds[1] == VersionKey(value)
    ensures IsFirstVersionLine(kinds, 1)
  {
    assert InPackage(kinds, 1);
  }

  lemma VersionLineKind(value: string)
    requires IsPlainValue(value)
    ensures Classify(VersionText(value)) == VersionKey(value)
  {
    NewLineReadsBack([], value);
    assert NewLine([], value) == VersionText(value);
  }

  lemma KindAt(lines: seq<string>, i: nat, line: string)
    requires i < |lines| && lines[i] == line
    ensures Kinds(lines)[i] == Classify(line)
  {
  }

  lemma PackageTextDeclares(value: string)
    requires IsPlainValue(value)
    ensures IsFirstVersionLine(Kinds(Lines(PackageText(value))), 1)
  {
    PackageLines(value);
    HeaderReadsBack();
    VersionLineKind(value);
    var lines := Lines(PackageText(value));
    KindAt(lines, 0, PACKAGE_HEADER);
    KindAt(lines, 1, VersionText(value));
    SecondLineDeclares(Kinds(lines), value);
  }

  lemma {:induction false} IndentOf(pad: string, body: string)
    requires forall i | 0 <= i < |pad| :: IsWhitespace(pad[i])
    requires body != [] && !IsWhitespace(body[0])
    ensures Indent(pad + body) == |pad|
  {
    if pad != [] {
      IndentOf(pad[1..], body);
      assert (pad + body)[1..] == pad[1..] + body;
    }
  }

  lemma NewLineTwice(line: string, a: string, b: string)
    ensures NewLine(NewLine(line, a), b) == NewLine(line, b)
  {
    VersionTextParts(a);
    IndentOf(line[..Indent(line)], VersionText(a));
    assert NewLine(line, a)[..Indent(line)] == line[..Indent(line)];
  }

  // ---- The lines of the edited text ----

  lemma StripKeepsPlain(line: string)
    requires '\n' !in line
    ensures '\n' !in StripCr(line)
  {
  }

  lemma {:induction false} LinesOfText(text: string)
    ensures NoLineFeeds(Lines(text))
    ensures text != [] ==> Lines(text) != [] && (Lines(text)[|Lines(text)| - 1] != [] || EndsWithNewline(text))
    decreases |text|
  {
    if text != [] {
      FirstLineShorter(text);
      var (line, rest) := FirstLine(text);
      if rest.Some? {
        var more := rest.value;
        LinesOfText(more);
        StripKeepsPlain(line);
        assert more != [] ==> more[|more| - 1] == text[|text| - 1];
        assert more == [] ==> text[|text| - 1] == '\n';
      }
    }
  }

  lemma NewLinePlain(line: string, value: string)
    requires IsPlainValue(value) && '\n' !in line
    ensures '\n' !in NewLine(line, value) && NewLine(line, value) != []
    ensures StripCr(NewLine(line, value)) == NewLine(line, value)
  {
    VersionTextParts(value);
    assert IsWhitespace('\n');
  }

  /** The lines after the edit, before they are joined. */
  function Updated(toml: string, at: nat, value: string): seq<string>
    requires at < |Lines(toml)|
  {
    Lines(toml)[at := NewLine(Lines(toml)[at], value)]
  }

  lemma UpdatedPlain(toml: string, at: nat, value: string)
    requires at < |Lines(toml)| && IsPlainValue(value)
    ensures var lines := Updated(toml, at, value);
            NoLineFeeds(lines) && (lines[|lines| - 1] != [] || EndsWithNewline(toml))
  {
    LinesOfText(toml);
    NewLinePlain(Lines(toml)[at], value);
  }

  lemma {:induction false} JoinedEnds(lines: seq<string>)
    requires lines != [] && NoLineFeeds(lines) && lines[|lines| - 1] != []
    ensures !EndsWithNewline(JoinLines(lines))
    decreases |lines|
  {
    if |lines| > 1 {
      JoinedEnds(lines[1..]);
    }
  }

  /** The edited text splits into the updated lines, stripped once more, and keeps its final newline or its lack. */
  lemma LinesOfRewritten(toml: string, at: nat, value: string)
    requires at < |Lines(toml)| && IsPlainValue(value)
    ensures Lines(Rewritten(toml, at, value)) == Stripped(Updated(toml, at, value), EndsWithNewline(toml))
    ensures EndsWithNewline(Rewritten(toml, at, value)) == EndsWithNewline(toml)
  {
    var lines := Updated(toml, at, value);
    UpdatedPlain(toml, at, value);
    LinesJoined(lines, EndsWithNewline(toml));
    if !EndsWithNewline(toml) {
      JoinedEnds(lines);
      assert JoinLines(lines) + "" == JoinLines(lines);
    }
  }

  /** No line but the edited one has a carriage return left in front of its line feed. */
  predicate NoReturnLeft(lines: seq<string>, at: nat, newline: bool) {
    forall i | 0 <= i < |lines| && i != at && (i < |lines| - 1 || newline) :: StripCr(lines[i]) == lines[i]
  }

  lemma StrippedSame(toml: string, at: nat, value: string)
    requires at < |Lines(toml)| && IsPlainValue(value)
    ensures var lines, newline := Updated(toml, at, value), EndsWithNewline(toml);
            Stripped(lines, newline) == lines <==> NoReturnLeft(Lines(toml), at, newline)
  {
    var lines, newline := Updated(toml, at, value), EndsWithNewline(toml);
    LinesOfText(toml);
    NewLinePlain(Lines(toml)[at], value);
    if Stripped(lines, newline) == lines {
      forall i | 0 <= i < |lines| && i != at && (i < |lines| - 1 || newline)
        ensures StripCr(Lines(toml)[i]) == Lines(toml)[i]
      {
        assert Stripped(lines, newline)[i] == lines[i];
      }
    } else {
      var i :| 0 <= i < |lines| && Stripped(lines, newline)[i] != lines[i];
    }
  }

  /**
   * The edit keeps the number of lines and the final newline; the other lines stay exactly when
   * none of them has a second carriage return in front of its line feed.
   */
  lemma OnlyOneLineChanges(toml: string, at: nat, value: string)
    requires at < |Lines(toml)| && IsPlainValue(value)
    ensures |Lines(Rewritten(toml, at, value))| == |Lines(toml)|
    ensures EndsWithNewline(Rewritten(toml, at, value)) == EndsWithNewline(toml)
    ensures Lines(Rewritten(toml, at, value)) == Lines(toml)[at := NewLine(Lines(toml)[at], value)] <==>
            NoReturnLeft(Lines(toml), at, EndsWithNewline(toml))
  {
    LinesOfRewritten(toml, at, value);
    StrippedSame(toml, at, value);
  }

  lemma {:induction false} JoinSplitAt(lines: seq<string>, at: nat, line: string)
    returns (before: string, after: string)
    requires at < |lines|
    ensures JoinLines(lines) == before + lines[at] + after
    ensures JoinLines(lines[at := line]) == before + line + after
    decreases at
  {
    if at == 0 {
      before := [];
      after := if |lines| == 1 then [] else ['\n'] + JoinLines(lines[1..]);
      assert lines[0 := line][1..] == lines[1..];
    } else {
      var before', after' := JoinSplitAt(lines[1..], at - 1, line);
      before, after := lines[0] + ['\n'] + before', after';
      assert lines[at := line][1..] == lines[1..][at - 1 := line];
    }
  }

  lemma EditLengths(toml: string, at: nat, value: string) returns (before: string, after: string)
    requires at < |Lines(toml)|
    ensures Rejoin(Lines(toml), toml) == before + Lines(toml)[at] + after
    ensures Rewritten(toml, at, value) == before + NewLine(Lines(toml)[at], value) + after
  {
    var line, line', end := Lines(toml)[at], NewLine(Lines(toml)[at], value), NewlineIf(EndsWithNewline(toml));
    var after';
    before, after' := JoinSplitAt(Lines(toml), at, line');
    after := after' + end;
    assert before + line + after' + end == before + line + after;
    assert before + line' + after' + end == before + line' + after;
  }

  /** The text is the line with `before` and `after` around it, and the edit puts the new line between them. */
  ghost predicate Surrounds(toml: string, at: nat, value: string, before: string, after: string)
    requires at < |Lines(toml)|
  {
    && toml == before + Lines(toml)[at] + after
    && Rewritten(toml, at, value) == before + NewLine(Lines(toml)[at], value) + after
  }

  /** As text: everything around the located line is untouched exactly when no line ends in CR LF. */
  lemma RestOfTextUntouched(toml: string, at: nat, value: string)
    requires at < |Lines(toml)|
    ensures (exists before, after :: Surrounds(toml, at, value, before, after)) <==> !HasCrLf(toml)
  {
    var before, after := EditLengths(toml, at, value);
    RejoinAtMost(toml);
    RejoinExact(toml);
    if !HasCrLf(toml) {
      assert Surrounds(toml, at, value, before, after);
    }
  }

  lemma SameSections(kinds: seq<LineKind>, at: nat, value: string, i: nat)
    requires at < |kinds| && kinds[at].VersionKey?
    ensures InPackage(kinds[at := VersionKey(value)], i) <==> InPackage(kinds, i)
  {
    var kinds' := kinds[at := VersionKey(value)];
    assert forall j | 0 <= j < |kinds| :: kinds'[j].Header? == kinds[j].Header?;
    assert forall j | 0 <= j < |kinds| && kinds[j].Header? :: kinds'[j] == kinds[j];
  }

  lemma KindsUpdated(lines: seq<string>, at: nat, line: string)
    requires at < |lines|
    ensures Kinds(lines[at := line]) == Kinds(lines)[at := Classify(line)]
  {
  }

  lemma FirstVersionLineStays(kinds: seq<LineKind>, at: nat, value: string)
    requires IsFirstVersionLine(kinds, at)
    ensures IsFirstVersionLine(kinds[at := VersionKey(value)], at)
  {
    var kinds' := kinds[at := VersionKey(value)];
    SameSections(kinds, at, value, at);
    forall j: nat | j < at
      ensures !IsVersionLine(kinds', j)
    {
      SameSections(kinds, at, value, j);
      assert !IsVersionLine(kinds, j);
    }
  }

  lemma TrimEndStrip(s: string)
    ensures TrimEnd(StripCr(s)) == TrimEnd(s)
  {
  }

  lemma StripTail(s: string)
    requires |s| > 1
    ensures StripCr(s) != [] && StripCr(s)[0] == s[0] && StripCr(s)[1..] == StripCr(s[1..])
  {
  }

  lemma TrimStartSkips(s: string)
    requires s != [] && IsWhitespace(s[0])
    ensures TrimStart(s) == TrimStart(s[1..])
  {
  }

  lemma {:induction false} TrimStartStrip(s: string)
    ensures TrimStart(StripCr(s)) == StripCr(TrimStart(s))
  {
    if |s| > 1 {
      StripTail(s);
      if IsWhitespace(s[0]) {
        TrimStartStrip(s[1..]);
        TrimStartSkips(s);
        TrimStartSkips(StripCr(s));
      }
    } else if |s| == 1 && IsWhitespace(s[0]) {
      TrimStartSkips(s);
    }
  }

  lemma ClassifyStrip(line: string)
    ensures Classify(StripCr(line)) == Classify(line)
  {
    TrimStartStrip(line);
    TrimEndStrip(TrimStart(line));
  }

  lemma KindsStripped(lines: seq<string>, newline: bool)
    ensures Kinds(Stripped(lines, newline)) == Kinds(lines)
  {
    forall i | 0 <= i < |lines|
      ensures Classify(Stripped(lines, newline)[i]) == Classify(lines[i])
    {
      ClassifyStrip(lines[i]);
    }
  }

  /** In any manifest the edited text is found at the same line, with the value written. */
  lemma RewriteReadsBack(toml: string, at: nat, value: string)
    requires IsPlainValue(value) && at < |Lines(toml)|
    ensures IsFirstVersionLine(Kinds(Lines(toml)), at) ==>
              var kinds' := Kinds(Lines(Rewritten(toml, at, value)));
              IsFirstVersionLine(kinds', at) && kinds'[at].value == value
  {
    var line := Lines(toml)[at];
    LinesOfRewritten(toml, at, value);
    KindsStripped(Updated(toml, at, value), EndsWithNewline(toml));
    NewLineReadsBack(line, value);
    KindsUpdated(Lines(toml), at, NewLine(line, value));
    if IsFirstVersionLine(Kinds(Lines(toml)), at) {
      FirstVersionLineStays(Kinds(Lines(toml)), at, value);
    }
  }

  lemma {:induction false} JoinLength(a: seq<string>, b: seq<string>)
    requires |a| == |b| && forall i | 0 <= i < |a| :: |a[i]| <= |b[i]|
    ensures |JoinLines(a)| <= |JoinLines(b)|
    ensures |JoinLines(a)| == |JoinLines(b)| ==> forall i | 0 <= i < |a| :: |a[i]| == |b[i]|
  {
    if |a| > 1 {
      JoinLength(a[1..], b[1..]);
      assert forall i | 0 < i < |a| :: a[i] == a[1..][i - 1] && b[i] == b[1..][i - 1];
    }
  }

  /** The stripped lines, with one plain line replaced, are the lines or strictly shorter. */
  lemma StrippedOrShorter(lines: seq<string>, again: seq<string>, at: nat, newline: bool)
    requires at < |lines| == |again| && again[at] == lines[at]
    requires forall i | 0 <= i < |lines| && i != at :: again[i] == Stripped(lines, newline)[i]
    ensures forall i | 0 <= i < |lines| :: |again[i]| <= |lines[i]|
    ensures again == lines <==> NoReturnLeft(lines, at, newline)
    ensures (forall i | 0 <= i < |lines| :: |again[i]| == |lines[i]|) ==> again == lines
  {
    if again == lines {
      forall i | 0 <= i < |lines| && i != at && (i < |lines| - 1 || newline)
        ensures StripCr(lines[i]) == lines[i]
      {
        assert again[i] == lines[i];
      }
    }
  }

  lemma SecondEditLines(toml: string, at: nat, a: string, b: string)
    requires at < |Lines(toml)| && IsPlainValue(a)
    ensures at < |Lines(Rewritten(toml, at, a))|
    ensures Lines(Rewritten(toml, at, a))[at] == NewLine(Lines(toml)[at], a)
    ensures Updated(Rewritten(toml, at, a), at, b)[at] == NewLine(Lines(toml)[at], b)
  {
    LinesOfRewritten(toml, at, a);
    LinesOfText(toml);
    NewLinePlain(Lines(toml)[at], a);
    NewLineTwice(Lines(toml)[at], a, b);
  }

  lemma OtherLinesOfEdit(toml: string, at: nat, a: string, b: string, i: nat)
    requires at < |Lines(toml)| && IsPlainValue(a) && i < |Lines(toml)| && i != at
    ensures i < |Lines(Rewritten(toml, at, a))| && at < |Lines(Rewritten(toml, at, a))|
    ensures Updated(Rewritten(toml, at, a), at, b)[i] == Stripped(Updated(toml, at, b), EndsWithNewline(toml))[i]
  {
    LinesOfRewritten(toml, at, a);
  }

  lemma SameReturns(toml: string, at: nat, b: string, newline: bool)
    requires at < |Lines(toml)|
    ensures NoReturnLeft(Updated(toml, at, b), at, newline) <==> NoReturnLeft(Lines(toml), at, newline)
  {
    assert forall i | 0 <= i < |Lines(toml)| && i != at :: Updated(toml, at, b)[i] == Lines(toml)[i];
  }

  /** A second rewrite is as if the first had not happened, exactly when no other line changes. */
  lemma RewriteTwice(toml: string, at: nat, a: string, b: string)
    requires at < |Lines(toml)| && IsPlainValue(a)
    ensures at < |Lines(Rewritten(toml, at, a))|
    ensures Rewritten(Rewritten(toml, at, a), at, b) == Rewritten(toml, at, b) <==>
            NoReturnLeft(Lines(toml), at, EndsWithNewline(toml))
  {
    LinesOfRewritten(toml, at, a);
    SecondEditLines(toml, at, a, b);
    forall i | 0 <= i < |Lines(toml)| && i != at
      ensures Updated(Rewritten(toml, at, a), at, b)[i] == Stripped(Updated(toml, at, b), EndsWithNewline(toml))[i]
    {
      OtherLinesOfEdit(toml, at, a, b, i);
    }
    var again, second := Updated(Rewritten(toml, at, a), at, b), Updated(toml, at, b);
    StrippedOrShorter(second, again, at, EndsWithNewline(toml));
    SameReturns(toml, at, b, EndsWithNewline(toml));
    JoinLength(again, second);
  }

  // ---- A manifest that the edit does not spare ----

  /** A manifest whose table header ends in CR CR LF. */
  function ReturnsText(value: string): string {
    PACKAGE_HEADER + "\r\r" + ['\n'] + VersionText(value)
  }

  lemma StrippedLines(first: string, second: string)
    requires '\n' !in first && '\n' !in second && second != []
    ensures Lines(first + ['\n'] + second) == [StripCr(first), second]
    ensures !EndsWithNewline(first + ['\n'] + second)
  {
    LinesOfFirst(second, []);
    LinesOfFirst(first, second);
  }

  lemma ReturnBeforeFeed(first: string, second: string)
    requires first != [] && first[|first| - 1] == '\r'
    ensures HasCrLf(first + ['\n'] + second)
  {
    var text := first + ['\n'] + second;
    assert text[|first| - 1] == '\r' && text[|first| - 1 + 1] == '\n';
  }

  lemma ReturnsLines(value: string)
    requires IsPlainValue(value)
    ensures Lines(ReturnsText(value)) == [PACKAGE_HEADER + "\r", VersionText(value)]
    ensures !EndsWithNewline(ReturnsText(value)) && HasCrLf(ReturnsText(value))
  {
    var first, second := PACKAGE_HEADER + "\r\r", VersionText(value);
    NewLinePlain([], value);
    assert NewLine([], value) == second;
    assert '\n' !in PACKAGE_HEADER && '\n' !in first && first[|first| - 1] == '\r';
    assert StripCr(first) == PACKAGE_HEADER + "\r";
    StrippedLines(first, second);
    ReturnBeforeFeed(first, second);
  }

  lemma ReturnsDeclare(value: string)
    requires IsPlainValue(value)
    ensures IsFirstVersionLine(Kinds(Lines(ReturnsText(value))), 1)
  {
    ReturnsLines(value);
    HeaderReadsBack();
    ClassifyStrip(PACKAGE_HEADER + "\r");
    assert StripCr(PACKAGE_HEADER + "\r") == PACKAGE_HEADER;
    VersionLineKind(value);
    var lines := Lines(ReturnsText(value));
    KindAt(lines, 0, PACKAGE_HEADER + "\r");
    KindAt(lines, 1, VersionText(value));
    SecondLineDeclares(Kinds(lines), value);
  }

  /** The edit changes other lines too, a second edit changes them again, and the surrounding text is not kept. */
  ghost predicate NotSpared(toml: string, at: nat, a: string, b: string)
    requires at < |Lines(toml)|
  {
    && Lines(Rewritten(toml, at, a)) != Lines(toml)[at := NewLine(Lines(toml)[at], a)]
    && at < |Lines(Rewritten(toml, at, a))|
    && Rewritten(Rewritten(toml, at, a), at, b) != Rewritten(toml, at, b)
    && !exists before, after :: Surrounds(toml, at, a, before, after)
  }

  lemma ReturnLeftIsLost(toml: string, at: nat, other: nat, a: string, b: string)
    requires at < |Lines(toml)| && IsPlainValue(a) && HasCrLf(toml)
    requires other < |Lines(toml)| - 1 && other != at && StripCr(Lines(toml)[other]) != Lines(toml)[other]
    ensures NotSpared(toml, at, a, b)
  {
    OnlyOneLineChanges(toml, at, a);
    RewriteTwice(toml, at, a, b);
    RestOfTextUntouched(toml, at, a);
  }

  /** The edit does not spare this manifest: its header line loses a carriage return each time. */
  lemma HeaderLosesReturns(value: string, a: string, b: string)
    requires IsPlainValue(value) && IsPlainValue(a)
    ensures 1 < |Lines(ReturnsText(value))| && IsFirstVersionLine(Kinds(Lines(ReturnsText(value))), 1)
    ensures NotSpared(ReturnsText(value), 1, a, b)
  {
    ReturnsLines(value);
    ReturnsDeclare(value);
    assert StripCr(PACKAGE_HEADER + "\r") == PACKAGE_HEADER;
    ReturnLeftIsLost(ReturnsText(value), 1, 0, a, b);
  }
}
