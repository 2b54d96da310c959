/**
 * How a gated item without a block ends: at the first semicolon outside brackets, or at the first
 * comma outside brackets, generic arguments and a where clause. Nesting is counted here on the text
 * itself.
 */
module GateItems {
  import opened Bytes
  import opened LineLexer
  import opened GateScanner

  // ---- Nesting, counted on the text ----

  function Ch(c: char): byte
    requires c < '\U{80}'
  {
    (c as int) as byte
  }

  /** Open parentheses and square brackets behind the code, `n` of them open before it. */
  function Brackets(n: nat, code: Line): nat {
    if code == [] then n
    else
      var m, last := Brackets(n, code[..|code| - 1]), code[|code| - 1];
      if last == Ch('(') || last == Ch('[') then m + 1
      else if last == Ch(')') || last == Ch(']') then (if m == 0 then 0 else m - 1)
      else m
  }

  /** The last byte of the code that is no white space, or `prev` if there is none. */
  function LastInk(code: Line, prev: byte): byte {
    if code == [] then prev
    else
      var last := code[|code| - 1];
      if last == Ch(' ') || 9 <= last <= 13 then LastInk(code[..|code| - 1], prev) else last
  }

  predicate IsWordChar(b: byte) {
    || Ch('0') <= b <= Ch('9') || Ch('A') <= b <= Ch('Z') || Ch('a') <= b <= Ch('z') || b == Ch('_')
  }

  /** Open generic arguments behind the code: `<` counts behind a word or `>`, and `>` unless behind `-`. */
  function Angles(n: nat, code: Line, prev: byte): nat {
    if code == [] then n
    else
      var m, last := Angles(n, code[..|code| - 1], prev), code[|code| - 1];
      var ink := LastInk(code[..|code| - 1], prev);
      if last == Ch('<') && (IsWordChar(ink) || ink == Ch('>')) then m + 1
      else if last == Ch('>') && ink != Ch('-') then (if m == 0 then 0 else m - 1)
      else m
  }

  lemma {:induction false} BracketsConcat(n: nat, a: Line, b: Line)
    ensures Brackets(n, a + b) == Brackets(Brackets(n, a), b)
    decreases |b|
  {
    if b == [] {
      assert a + b == a;
    } else {
      BracketsConcat(n, a, b[..|b| - 1]);
      assert (a + b)[..|a + b| - 1] == a + b[..|b| - 1];
    }
  }

  lemma StepLast(s: Scope, code: Line, prev: byte)
    requires code != []
    ensures var before, last := code[..|code| - 1], code[|code| - 1];
            && StepCode(s, code, prev) == StepScope(StepCode(s, before, prev), last, PrevAfter(before, prev))
            && PrevAfter(code, prev) == NextPrev(last, PrevAfter(before, prev))
  {
    var before, last := code[..|code| - 1], code[|code| - 1];
    assert code == before + [last];
    StepConcat(s, before, [last], prev);
    PrevConcat(before, last, prev);
    assert [last][1..] == [];
  }

  lemma {:induction false} PrevConcat(code: Line, last: byte, prev: byte)
    ensures PrevAfter(code + [last], prev) == NextPrev(last, PrevAfter(code, prev))
    decreases |code|
  {
    if code == [] {
      assert (code + [last])[1..] == [];
    } else {
      PrevConcat(code[1..], last, NextPrev(code[0], prev));
      assert (code + [last])[1..] == code[1..] + [last];
    }
  }

  lemma NestingStep(s: Scope, ch: byte, prev: byte)
    ensures var s' := StepScope(s, ch, prev);
            && s'.group == (if ch == Ch('(') || ch == Ch('[') then s.group + 1
                            else if ch == Ch(')') || ch == Ch(']') then (if s.group == 0 then 0 else s.group - 1)
                            else s.group)
            && s'.angle == (if ch == Ch('<') && (IsWordChar(prev) || prev == Ch('>')) then s.angle + 1
                            else if ch == Ch('>') && prev != Ch('-') then (if s.angle == 0 then 0 else s.angle - 1)
                            else s.angle)
            && s'.inWhere == s.inWhere
  {
  }

  /** The scanner's nesting is the one counted on the text. */
  lemma {:induction false} NestingCounted(s: Scope, code: Line, prev: byte)
    ensures StepCode(s, code, prev).group == Brackets(s.group, code)
    ensures StepCode(s, code, prev).angle == Angles(s.angle, code, prev)
    ensures StepCode(s, code, prev).inWhere == s.inWhere
    ensures PrevAfter(code, prev) == LastInk(code, prev)
    decreases |code|
  {
    if code != [] {
      var before, last := code[..|code| - 1], code[|code| - 1];
      NestingCounted(s, before, prev);
      StepLast(s, code, prev);
      NestingStep(StepCode(s, before, prev), last, PrevAfter(before, prev));
    }
  }

  // ---- Where an item ends ----

  /** What surrounds a stretch of code: open brackets, open generic arguments, a where clause. */
  datatype Nesting = Nesting(brackets: nat, angles: nat, inWhere: bool)

  /** The byte at `i` ends an item without a block. */
  predicate Terminates(at: Nesting, code: Line, prev: byte, i: nat) {
    && i < |code| && Brackets(at.brackets, code[..i]) == 0
    && (|| code[i] == Ch(';')
        || (code[i] == Ch(',') && Angles(at.angles, code[..i], prev) == 0 && !at.inWhere))
  }

  predicate NoBraces(code: Line) {
    forall i | 0 <= i < |code| :: code[i] != Ch('{') && code[i] != Ch('}')
  }

  /** No byte of the code ends the item or opens a block. */
  predicate Quiet(at: Nesting, code: Line, prev: byte) {
    NoBraces(code) && forall i | 0 <= i < |code| :: !Terminates(at, code, prev, i)
  }

  function NestingOf(s: Scope): Nesting {
    Nesting(s.group, s.angle, s.inWhere)
  }

  lemma QuietLast(at: Nesting, code: Line, prev: byte)
    requires code != [] && NoBraces(code)
    ensures var before, n := code[..|code| - 1], |code| - 1;
            && NoBraces(before)
            && (Quiet(at, code, prev) <==> Quiet(at, before, prev) && !Terminates(at, code, prev, n))
  {
    var before, n := code[..|code| - 1], |code| - 1;
    forall i | 0 <= i < n
      ensures Terminates(at, code, prev, i) <==> Terminates(at, before, prev, i)
    {
      assert code[..i] == before[..i];
    }
  }

  lemma LastDisarms(s: Scope, code: Line, prev: byte)
    requires code != [] && NoBraces(code)
    ensures var before, n := code[..|code| - 1], |code| - 1;
            var t := StepCode(s, before, prev);
            && StepCode(s, code, prev).stack == t.stack
            && (StepCode(s, code, prev).armed <==> t.armed && !Terminates(NestingOf(s), code, prev, n))
  {
    NestingCounted(s, code[..|code| - 1], prev);
    StepLast(s, code, prev);
  }

  /** Over code without braces a gate stays armed exactly when nothing in it ends the item. */
  lemma {:induction false} ArmedExactly(s: Scope, code: Line, prev: byte)
    requires NoBraces(code)
    ensures StepCode(s, code, prev).stack == s.stack
    ensures StepCode(s, code, prev).armed <==> s.armed && Quiet(NestingOf(s), code, prev)
    decreases |code|
  {
    if code != [] {
      QuietLast(NestingOf(s), code, prev);
      ArmedExactly(s, code[..|code| - 1], prev);
      LastDisarms(s, code, prev);
    }
  }

  // ---- Items across lines ----

  /** Open generic arguments before line `k`; what stands before a line does not reach into it. */
  function AnglesBefore(lines: seq<Line>, k: nat): nat
    requires k <= |lines|
  {
    if k == 0 then 0 else Angles(AnglesBefore(lines, k - 1), ScannedCode(lines, k - 1), SPACE)
  }

  /** The five letters stand at `i`, and no word character on either side. */
  predicate WhereAt(code: Line, i: nat) {
    && i + 5 <= |code|
    && code[i] == Ch('w') && code[i + 1] == Ch('h') && code[i + 2] == Ch('e') && code[i + 3] == Ch('r')
    && code[i + 4] == Ch('e')
    && (i > 0 ==> !IsWordChar(code[i - 1])) && (i + 5 < |code| ==> !IsWordChar(code[i + 5]))
  }

  ghost predicate HoldsWhere(code: Line) {
    exists i: nat :: WhereAt(code, i)
  }

  lemma FiveLetters(code: Line, i: nat)
    ensures OccursAt(code, WHERE, i) <==>
            && i + 5 <= |code|
            && code[i] == Ch('w') && code[i + 1] == Ch('h') && code[i + 2] == Ch('e') && code[i + 3] == Ch('r')
            && code[i + 4] == Ch('e')
  {
    assert |WHERE| == 5;
    if i + 5 <= |code| {
      var word := code[i..i + 5];
      assert word[0] == code[i] && word[1] == code[i + 1] && word[2] == code[i + 2] && word[3] == code[i + 3];
      assert word[4] == code[i + 4];
      assert WHERE == [Ch('w'), Ch('h'), Ch('e'), Ch('r'), Ch('e')];
    }
  }

  /** The keyword is found exactly where `where` stands as a word of its own. */
  lemma WhereIsAWord(code: Line)
    ensures HasWhereKeyword(code) <==> HoldsWhere(code)
  {
    assert |WHERE| == 5;
    if HoldsWhere(code) {
      var i: nat :| WhereAt(code, i);
      FiveLetters(code, i);
    }
    if HasWhereKeyword(code) {
      var i :| && 0 <= i <= |code| && OccursAt(code, WHERE, i)
               && (i == 0 || !IsWordByte(code[i - 1]))
               && (i + |WHERE| == |code| || !IsWordByte(code[i + |WHERE|]));
      FiveLetters(code, i);
      assert WhereAt(code, i);
    }
  }

  /** Some line behind line `g` and before line `k` holds the word `where`. */
  ghost predicate WhereBetween(lines: seq<Line>, g: nat, k: nat)
    requires k <= |lines|
  {
    exists j | g < j < k :: HoldsWhere(ScannedCode(lines, j))
  }

  /** The nesting in which line `k` is read, behind the gate on line `g`. */
  ghost function NestingAt(lines: seq<Line>, g: nat, k: nat): Nesting
    requires k < |lines|
  {
    Nesting(BracketsBefore(lines, k), AnglesBefore(lines, k), WhereBetween(lines, g, k + 1))
  }

  function BracketsBefore(lines: seq<Line>, k: nat): nat
    requires k <= |lines|
  {
    if k == 0 then 0 else Brackets(BracketsBefore(lines, k - 1), ScannedCode(lines, k - 1))
  }

  lemma {:induction false} NestingBefore(lines: seq<Line>, k: nat)
    requires k <= |lines|
    ensures Before(lines, k).group == BracketsBefore(lines, k) && Before(lines, k).angle == AnglesBefore(lines, k)
    decreases k
  {
    if k > 0 {
      NestingBefore(lines, k - 1);
      LineIsStep(lines, k - 1);
      NestingCounted(Entered(lines, k - 1), ScannedCode(lines, k - 1), SPACE);
    }
  }

  /** From the gate on line `g` up to line `k` there is no other gate, no brace and no end of the item. */
  ghost predicate HeaderOf(lines: seq<Line>, g: nat, k: nat)
    requires k <= |lines|
  {
    && g < k && IsGateAt(lines, g)
    && forall j | g < j < k ::
         !IsGateAt(lines, j) && Quiet(NestingAt(lines, g, j), ScannedCode(lines, j), SPACE)
  }

  lemma HeaderShorter(lines: seq<Line>, g: nat, k: nat)
    requires k < |lines| && g < k && HeaderOf(lines, g, k + 1)
    ensures HeaderOf(lines, g, k)
  {
  }

  lemma GateArms(lines: seq<Line>, g: nat)
    requires IsGateAt(lines, g)
    ensures Before(lines, g + 1) == Before(lines, g).(armed := true, inWhere := false)
  {
    LineIsStep(lines, g);
  }

  /** Behind an armed gate the line is entered in the nesting of the text. */
  lemma EnteredNesting(lines: seq<Line>, g: nat, k: nat)
    requires g < k < |lines| && !IsGateAt(lines, k) && Before(lines, k).armed
    requires Before(lines, k).inWhere <==> WhereBetween(lines, g, k)
    ensures NestingOf(Entered(lines, k)) == NestingAt(lines, g, k)
    ensures Entered(lines, k).armed && Entered(lines, k).stack == Before(lines, k).stack
  {
    NestingBefore(lines, k);
    WhereStep(lines, g, k);
    WhereIsAWord(ScannedCode(lines, k));
  }

  lemma WhereStep(lines: seq<Line>, g: nat, k: nat)
    requires g < k < |lines|
    ensures WhereBetween(lines, g, k + 1) <==> WhereBetween(lines, g, k) || HoldsWhere(ScannedCode(lines, k))
  {
  }

  /** The gate waits before line `k`, and the braces around are those around it. */
  ghost predicate Waits(lines: seq<Line>, g: nat, k: nat)
    requires g <= k <= |lines|
  {
    && Before(lines, k).armed && Before(lines, k).stack == Before(lines, g).stack
    && (Before(lines, k).inWhere <==> WhereBetween(lines, g, k))
  }

  lemma StillWaits(lines: seq<Line>, g: nat, k: nat)
    requires g < k < |lines| && Waits(lines, g, k) && !IsGateAt(lines, k)
    requires Quiet(NestingAt(lines, g, k), ScannedCode(lines, k), SPACE)
    ensures Waits(lines, g, k + 1)
  {
    EnteredNesting(lines, g, k);
    LineIsStep(lines, k);
    ArmedExactly(Entered(lines, k), ScannedCode(lines, k), SPACE);
    NestingCounted(Entered(lines, k), ScannedCode(lines, k), SPACE);
  }

  /** Throughout its header the gate waits. */
  lemma {:induction false} HeaderIsArmed(lines: seq<Line>, g: nat, k: nat)
    requires k <= |lines| && HeaderOf(lines, g, k)
    ensures Waits(lines, g, k)
    decreases k
  {
    if k == g + 1 {
      GateArms(lines, g);
    } else {
      HeaderShorter(lines, g, k - 1);
      HeaderIsArmed(lines, g, k - 1);
      StillWaits(lines, g, k - 1);
    }
  }

  /** Every line of the header, and the one behind it, is gated. */
  lemma HeaderLinesGated(lines: seq<Line>, g: nat, k: nat)
    requires k < |lines| && HeaderOf(lines, g, k)
    ensures InGatedItem(lines, k)
  {
    HeaderIsArmed(lines, g, k);
  }

  /** On line `k`, behind `pre`, the item of the gate on line `g` ends, and `post` closes no brace around it. */
  ghost predicate ItemEnds(lines: seq<Line>, g: nat, k: nat, pre: Line, end: byte, post: Line) {
    && k < |lines| && HeaderOf(lines, g, k) && !IsGateAt(lines, k)
    && ScannedCode(lines, k) == pre + [end] + post && NoBraces(pre) && StaysOpen(post, 0)
    && Terminates(NestingAt(lines, g, k), pre + [end], SPACE, |pre|)
  }

  /** The gate ends with its item: the next line is gated exactly when the gate stood inside a gated block. */
  lemma VerdictEndsWithItem(lines: seq<Line>, g: nat, k: nat, pre: Line, end: byte, post: Line)
    requires ItemEnds(lines, g, k, pre, end, post)
    ensures !Before(lines, k + 1).armed
    ensures k + 1 < |lines| ==> (InGatedItem(lines, k + 1) <==> true in Before(lines, g).stack)
  {
    HeaderIsArmed(lines, g, k);
    EnteredNesting(lines, g, k);
    LineIsStep(lines, k);
    EndIsNoBrace(NestingOf(Entered(lines, k)), pre, pre + [end]);
    EndDisarms(Entered(lines, k), pre + [end], post);
  }

  lemma EndIsNoBrace(at: Nesting, pre: Line, code: Line)
    requires NoBraces(pre) && |code| == |pre| + 1 && code[..|pre|] == pre && Terminates(at, code, SPACE, |pre|)
    ensures NoBraces(code) && !Quiet(at, code, SPACE)
  {
    assert forall i | 0 <= i < |pre| :: code[i] == pre[i];
  }

  lemma EndDisarms(s: Scope, code: Line, post: Line)
    requires NoBraces(code) && !Quiet(NestingOf(s), code, SPACE) && StaysOpen(post, 0)
    ensures var s' := StepCode(s, code + post, SPACE);
            !s'.armed && (true in s'.stack <==> true in s.stack)
  {
    ArmedExactly(s, code, SPACE);
    StepConcat(s, code, post, SPACE);
    assert s.stack == s.stack + Ungated(0);
    UnarmedCode(StepCode(s, code, SPACE), s.stack, 0, post, PrevAfter(code, SPACE));
  }

  // ---- Which lines arm ----

  /** A gate line starts outside block comments, and holds the attribute and nothing else but white space before it. */
  lemma GateExactly(lines: seq<Line>, k: nat)
    requires k < |lines|
    ensures IsGateAt(lines, k) <==>
            DepthBefore(lines, k) == 0 && Bytes.TrimStart(lines[k]) == Ascii("#[cfg(feature = \"self-update\")]")
  {
  }

  /** A gate attribute behind spaces and tabs, on a line that starts outside comments, gates the next line. */
  lemma GateLineArms(lines: seq<Line>, k: nat, pad: Line)
    requires k < |lines| && DepthBefore(lines, k) == 0
    requires forall i | 0 <= i < |pad| :: pad[i] == Ch(' ') || pad[i] == 9
    requires lines[k] == pad + Ascii("#[cfg(feature = \"self-update\")]")
    ensures IsGateAt(lines, k) && (k + 1 < |lines| ==> InGatedItem(lines, k + 1))
  {
    PadTrimmed(pad, SELF_UPDATE_GATE);
    GateArms(lines, k);
  }

  lemma PadByte(line: Line, rest: Line)
    requires line != [] && (line[0] == Ch(' ') || line[0] == 9) && line[1..] == rest
    ensures Bytes.TrimStart(line) == Bytes.TrimStart(rest)
  {
    assert WhitespaceAt(line, 0) == 1;
  }

  lemma UnpaddedTrimmed(body: Line)
    requires WhitespaceAt(body, 0) == 0
    ensures Bytes.TrimStart(body) == body
  {
  }

  lemma {:induction false} PadTrimmed(pad: Line, body: Line)
    requires forall i | 0 <= i < |pad| :: pad[i] == Ch(' ') || pad[i] == 9
    requires WhitespaceAt(body, 0) == 0
    ensures Bytes.TrimStart(pad + body) == body
  {
    var line := pad + body;
    if pad == [] {
      assert line == body;
      UnpaddedTrimmed(body);
    } else {
      var rest := pad[1..] + body;
      assert line[0] == pad[0] && line[1..] == rest;
      PadByte(line, rest);
      PadTrimmed(pad[1..], body);
    }
  }

  /** No other line arms, a line that starts inside a comment least of all. */
  lemma OnlyGateLinesArm(lines: seq<Line>, k: nat)
    requires k < |lines| && !Before(lines, k).armed && !IsGateAt(lines, k)
    ensures !Before(lines, k + 1).armed
  {
    LineIsStep(lines, k);
    NeverArms(Entered(lines, k), ScannedCode(lines, k), SPACE);
  }

  lemma {:induction false} NeverArms(s: Scope, code: Line, prev: byte)
    requires !s.armed
    ensures !StepCode(s, code, prev).armed
    decreases |code|
  {
    if code != [] {
      NeverArms(StepScope(s, code[0], prev), code[1..], NextPrev(code[0], prev));
    }
  }

  // ---- Findings, spelled out ----

  /** The six symbols, the exempt paths and the comment mark, as they are written. */
  lemma LeaksSpelledOut(file: string, lines: seq<Line>, f: Finding)
    ensures f in Leaks(file, lines) <==>
            && file != "xtask/src/no_network.rs" && f.file == file && 0 < f.line <= |lines|
            && f.symbol in [Ascii("reqwest"), Ascii("hyper::"), Ascii("std::net::"), Ascii("TcpStream"),
                            Ascii("rustls"), Ascii("axoupdater")]
            && Contains(lines[f.line - 1], f.symbol)
            && !OccursAt(Bytes.TrimStart(lines[f.line - 1]), Ascii("//"), 0)
            && !(file == "crates/unblock-cli/src/commands/update.rs" && f.symbol == Ascii("axoupdater"))
            && !InGatedItem(lines, f.line - 1)
  {
    assert Ascii("//") == [SLASH, SLASH];
    if file != "xtask/src/no_network.rs" {
      LeaksExactly(file, lines, f);
    }
  }
}
