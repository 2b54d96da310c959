/**
 * The network-confinement scan: which lines sit inside an item behind the self-update gate, and
 * which network symbols leak out of one.
 */
module GateScanner {
  import opened Bytes
  import opened LineLexer

  const SELF_UPDATE_GATE: Line := Ascii("#[cfg(feature = \"self-update\")]")

  // ---- The full stack of flagged braces ----

  /**
   * The braces open so far, each flagged when a gated item opened it, and a gate that waits for
   * its item. `group` and `angle` are the nesting of brackets and of generic arguments.
   */
  datatype Scope = Scope(stack: seq<bool>, armed: bool, inWhere: bool, group: nat, angle: nat)

  const OUTERMOST := Scope([], false, false, 0, 0)

  /** A gate is armed, or some enclosing brace was opened by a gated item. */
  predicate Gated(s: Scope) {
    s.armed || true in s.stack
  }

  predicate IsWordByte(b: byte) {
    (0x30 <= b <= 0x39) || (0x41 <= b <= 0x5A) || (0x61 <= b <= 0x7A) || b == 0x5F
  }

  predicate IsSpaceByte(b: byte) {
    TAB <= b <= CARRIAGE_RETURN || b == SPACE
  }

  /** `<` after an identifier or another `>` opens generic arguments. */
  predicate OpensAngle(ch: byte, prev: byte) {
    ch == 0x3C && (IsWordByte(prev) || prev == 0x3E)
  }

  /** `>` closes them, except in `->`. */
  predicate ClosesAngle(ch: byte, prev: byte) {
    ch == 0x3E && prev != 0x2D
  }

  predicate OpensGroup(ch: byte) {
    ch == 0x28 || ch == 0x5B
  }

  predicate ClosesGroup(ch: byte) {
    ch == 0x29 || ch == 0x5D
  }

  const OPEN_BRACE: byte := 0x7B
  const CLOSE_BRACE: byte := 0x7D
  const SEMICOLON: byte := 0x3B
  const COMMA: byte := 0x2C

  function Down(n: nat): nat {
    if n == 0 then 0 else n - 1
  }

  /** A gated item without a block ends at a top-level semicolon or at a separator comma. */
  predicate EndsItem(s: Scope, ch: byte) {
    s.group == 0 && (ch == SEMICOLON || (ch == COMMA && s.angle == 0 && !s.inWhere))
  }

  /** One character of code. A brace takes the waiting gate; a closing brace drops it. */
  function StepScope(s: Scope, ch: byte, prev: byte): Scope {
    if OpensGroup(ch) then s.(group := s.group + 1)
    else if ClosesGroup(ch) then s.(group := Down(s.group))
    else if OpensAngle(ch, prev) then s.(angle := s.angle + 1)
    else if ClosesAngle(ch, prev) then s.(angle := Down(s.angle))
    else if ch == OPEN_BRACE then s.(stack := s.stack + [s.armed], armed := false)
    else if ch == CLOSE_BRACE then
      s.(stack := if s.stack == [] then [] else s.stack[..|s.stack| - 1], armed := false)
    else if s.armed && EndsItem(s, ch) then s.(armed := false)
    else s
  }

  function NextPrev(ch: byte, prev: byte): byte {
    if IsSpaceByte(ch) then prev else ch
  }

  function StepCode(s: Scope, code: Line, prev: byte): Scope
    decreases |code|
  {
    if code == [] then s else StepCode(StepScope(s, code[0], prev), code[1..], NextPrev(code[0], prev))
  }

  /** `where` as a word of its own. */
  predicate HasWhereKeyword(code: Line) {
    exists i | 0 <= i <= |code| ::
      && OccursAt(code, WHERE, i)
      && (i == 0 || !IsWordByte(code[i - 1]))
      && (i + |WHERE| == |code| || !IsWordByte(code[i + |WHERE|]))
  }

  const WHERE: Line := Ascii("where")

  predicate IsGateLine(line: Line) {
    Bytes.TrimStart(line) == SELF_UPDATE_GATE
  }

  /** One line, read at comment depth `depth`. */
  function StepLine(s: Scope, line: Line, depth: nat): (Scope, nat) {
    var (code, depth') := CodeOf(line, depth);
    if depth == 0 && IsGateLine(line) then (s.(armed := true, inWhere := false), depth')
    else
      var s' := if s.armed && HasWhereKeyword(code) then s.(inWhere := true) else s;
      (StepCode(s', code, SPACE), depth')
  }

  /** The state after the given lines. */
  function AfterLines(lines: seq<Line>): (Scope, nat) {
    if lines == [] then (OUTERMOST, 0)
    else
      var (s, depth) := AfterLines(lines[..|lines| - 1]);
      StepLine(s, lines[|lines| - 1], depth)
  }

  /** A line is inside a gated item by what precedes it alone. */
  predicate InGatedItem(lines: seq<Line>, target: nat) {
    target < |lines| && Gated(AfterLines(lines[..target]).0)
  }

  // ---- Balanced blocks ----

  /** How far the braces of the code rise in all. */
  function NetDepth(code: Line): int {
    if code == [] then 0
    else (if code[0] == OPEN_BRACE then 1 else if code[0] == CLOSE_BRACE then -1 else 0) + NetDepth(code[1..])
  }

  /** With `open` braces open before it, the code closes none but these and its own. */
  predicate StaysOpen(code: Line, open: nat)
    decreases |code|
  {
    code == [] ||
    (if code[0] == OPEN_BRACE then StaysOpen(code[1..], open + 1)
     else if code[0] == CLOSE_BRACE then open > 0 && StaysOpen(code[1..], open - 1)
     else StaysOpen(code[1..], open))
  }

  function Ungated(n: nat): seq<bool> {
    seq(n, _ => false)
  }

  /** Code with no gate armed leaves what it did not open alone, and opens only ungated braces. */
  lemma {:induction false} UnarmedCode(s: Scope, base: seq<bool>, open: nat, code: Line, prev: byte)
    requires !s.armed && s.stack == base + Ungated(open) && StaysOpen(code, open)
    ensures open + NetDepth(code) >= 0 && !StepCode(s, code, prev).armed
    ensures StepCode(s, code, prev).stack == base + Ungated(open + NetDepth(code))
    decreases |code|
  {
    if code != [] {
      var ch := code[0];
      var open' := if ch == OPEN_BRACE then open + 1 else if ch == CLOSE_BRACE then open - 1 else open;
      UnarmedStep(s, base, open, ch, prev);
      UnarmedCode(StepScope(s, ch, prev), base, open', code[1..], NextPrev(ch, prev));
    }
  }

  lemma UnarmedStep(s: Scope, base: seq<bool>, open: nat, ch: byte, prev: byte)
    requires !s.armed && s.stack == base + Ungated(open) && (ch == CLOSE_BRACE ==> open > 0)
    ensures !StepScope(s, ch, prev).armed
    ensures StepScope(s, ch, prev).stack ==
            base + Ungated(if ch == OPEN_BRACE then open + 1 else if ch == CLOSE_BRACE then open - 1 else open)
  {
    assert Ungated(open) + [false] == Ungated(open + 1);
    assert open > 0 ==> (base + Ungated(open))[..|base| + open - 1] == base + Ungated(open - 1);
  }

  /** The block's closing brace ends the gate: the scope is what it was before the item, unarmed. */
  lemma GatedBlockEnds(s: Scope, code: Line, prev: byte)
    requires s.armed && StaysOpen(code, 0) && NetDepth(code) == 0
    ensures var after := StepCode(s, [OPEN_BRACE] + code + [CLOSE_BRACE], prev);
            after.stack == s.stack && !after.armed
  {
    var inside := StepScope(s, OPEN_BRACE, prev);
    assert inside.stack == s.stack + [true] + Ungated(0);
    UnarmedCode(inside, s.stack + [true], 0, code, NextPrev(OPEN_BRACE, prev));
    assert ([OPEN_BRACE] + code + [CLOSE_BRACE])[1..] == code + [CLOSE_BRACE];
    var last := StepAppended(inside, code, NextPrev(OPEN_BRACE, prev), CLOSE_BRACE);
    assert (s.stack + [true])[..|s.stack|] == s.stack;
  }

  lemma {:induction false} StepAppended(s: Scope, code: Line, prev: byte, ch: byte) returns (last: byte)
    ensures StepCode(s, code + [ch], prev) == StepScope(StepCode(s, code, prev), ch, last)
    decreases |code|
  {
    if code == [] {
      last := prev;
      assert (code + [ch])[1..] == [];
    } else {
      assert (code + [ch])[1..] == code[1..] + [ch];
      last := StepAppended(StepScope(s, code[0], prev), code[1..], NextPrev(code[0], prev), ch);
    }
  }

  // ---- Blocks across lines ----

  function PrevAfter(code: Line, prev: byte): byte
    decreases |code|
  {
    if code == [] then prev else PrevAfter(code[1..], NextPrev(code[0], prev))
  }

  lemma {:induction false} StepConcat(s: Scope, a: Line, b: Line, prev: byte)
    ensures StepCode(s, a + b, prev) == StepCode(StepCode(s, a, prev), b, PrevAfter(a, prev))
    decreases |a|
  {
    if a == [] {
      assert a + b == b;
    } else {
      StepConcat(StepScope(s, a[0], prev), a[1..], b, NextPrev(a[0], prev));
      assert (a + b)[1..] == a[1..] + b;
    }
  }

  lemma {:induction false} StaysOpenConcat(a: Line, b: Line, open: nat)
    ensures NetDepth(a + b) == NetDepth(a) + NetDepth(b)
    ensures StaysOpen(a, open) ==> open + NetDepth(a) >= 0
    ensures StaysOpen(a + b, open) <==> StaysOpen(a, open) && StaysOpen(b, open + NetDepth(a))
    decreases |a|
  {
    if a == [] {
      assert a + b == b;
    } else {
      assert (a + b)[1..] == a[1..] + b;
      var rises, falls := a[0] == OPEN_BRACE, a[0] == CLOSE_BRACE && open > 0;
      StaysOpenConcat(a[1..], b, if rises then open + 1 else if falls then open - 1 else open);
    }
  }

  lemma StepKeepsBelow(s: Scope, base: seq<bool>, open: nat, ch: byte, prev: byte)
    requires base <= s.stack && |s.stack| == |base| + open && (ch == CLOSE_BRACE ==> open > 0)
    ensures base <= StepScope(s, ch, prev).stack
    ensures |StepScope(s, ch, prev).stack| ==
            |base| + (if ch == OPEN_BRACE then open + 1 else if ch == CLOSE_BRACE then open - 1 else open)
  {
  }

  /** Whatever gates the code arms, it leaves the braces below its own as they are. */
  lemma {:induction false} CodeKeepsBelow(s: Scope, base: seq<bool>, open: nat, code: Line, prev: byte)
    requires base <= s.stack && |s.stack| == |base| + open && StaysOpen(code, open)
    ensures open + NetDepth(code) >= 0
    ensures base <= StepCode(s, code, prev).stack && |StepCode(s, code, prev).stack| == |base| + open + NetDepth(code)
    decreases |code|
  {
    if code != [] {
      var ch := code[0];
      StepKeepsBelow(s, base, open, ch, prev);
      CodeKeepsBelow(StepScope(s, ch, prev), base,
                     if ch == OPEN_BRACE then open + 1 else if ch == CLOSE_BRACE then open - 1 else open,
                     code[1..], NextPrev(ch, prev));
    }
  }

  /** The scope before line `k`. */
  function Before(lines: seq<Line>, k: nat): Scope
    requires k <= |lines|
  {
    AfterLines(lines[..k]).0
  }

  function DepthBefore(lines: seq<Line>, k: nat): nat
    requires k <= |lines|
  {
    AfterLines(lines[..k]).1
  }

  predicate IsGateAt(lines: seq<Line>, k: nat) {
    k < |lines| && DepthBefore(lines, k) == 0 && IsGateLine(lines[k])
  }

  /** The code of line `k` that the scan reads; a gate attribute line has none. */
  function ScannedCode(lines: seq<Line>, k: nat): Line
    requires k < |lines|
  {
    if IsGateAt(lines, k) then [] else CodeOf(lines[k], DepthBefore(lines, k)).0
  }

  /** The scope in which that code is read: a gate line arms, a where clause is noted. */
  function Entered(lines: seq<Line>, k: nat): Scope
    requires k < |lines|
  {
    var s := Before(lines, k);
    if IsGateAt(lines, k) then s.(armed := true, inWhere := false)
    else if s.armed && HasWhereKeyword(ScannedCode(lines, k)) then s.(inWhere := true)
    else s
  }

  lemma LineIsStep(lines: seq<Line>, k: nat)
    requires k < |lines|
    ensures Before(lines, k + 1) == StepCode(Entered(lines, k), ScannedCode(lines, k), SPACE)
    ensures Entered(lines, k).stack == Before(lines, k).stack
  {
    assert lines[..k + 1][..k] == lines[..k];
  }

  function Joined(codes: seq<Line>): Line {
    if codes == [] then [] else Joined(codes[..|codes| - 1]) + codes[|codes| - 1]
  }

  /** The code takes one stack to the other, whatever else the scope holds. */
  ghost predicate Leads(stack: seq<bool>, code: Line, stack': seq<bool>) {
    exists s: Scope :: s.stack == stack && StepCode(s, code, SPACE).stack == stack'
  }

  /** The stack is `base` with `open` braces above it. */
  predicate Keeps(stack: seq<bool>, base: seq<bool>, open: int) {
    base <= stack && |stack| == |base| + open
  }

  lemma LeadsKeeps(stack: seq<bool>, code: Line, stack': seq<bool>, base: seq<bool>, open: nat)
    requires Leads(stack, code, stack') && Keeps(stack, base, open) && StaysOpen(code, open)
    ensures open + NetDepth(code) >= 0 && Keeps(stack', base, open + NetDepth(code))
  {
    var s: Scope :| s.stack == stack && StepCode(s, code, SPACE).stack == stack';
    CodeKeepsBelow(s, base, open, code, SPACE);
  }

  /** Each code leads from one stack to the next. */
  ghost predicate IsChain(stacks: seq<seq<bool>>, codes: seq<Line>) {
    |stacks| == |codes| + 1 && forall k | 0 <= k < |codes| :: Leads(stacks[k], codes[k], stacks[k + 1])
  }

  lemma {:induction false} ChainKeeps(stacks: seq<seq<bool>>, codes: seq<Line>, base: seq<bool>, open: nat)
    requires IsChain(stacks, codes)
    requires Keeps(stacks[0], base, open) && StaysOpen(Joined(codes), open)
    ensures open + NetDepth(Joined(codes)) >= 0
    ensures Keeps(stacks[|codes|], base, open + NetDepth(Joined(codes)))
    decreases |codes|
  {
    if codes != [] {
      var n := |codes| - 1;
      StaysOpenConcat(Joined(codes[..n]), codes[n], open);
      ChainKeeps(stacks[..n + 1], codes[..n], base, open);
      LeadsKeeps(stacks[n], codes[n], stacks[n + 1], base, open + NetDepth(Joined(codes[..n])));
    }
  }

  /** Entries `i` up to `j` of an indexed family. */
  function Slice<T>(at: nat -> T, i: nat, j: nat): (slice: seq<T>)
    requires i <= j
    ensures |slice| == j - i && forall k | 0 <= k < j - i :: slice[k] == at(i + k)
  {
    seq(j - i, k requires 0 <= k < j - i => at(i + k))
  }

  function CodeAt(lines: seq<Line>): nat -> Line {
    (k: nat) => if k < |lines| then ScannedCode(lines, k) else []
  }

  function StackAt(lines: seq<Line>): nat -> seq<bool> {
    (k: nat) => if k <= |lines| then Before(lines, k).stack else []
  }

  /** The code of the lines from `i` up to `j`. */
  function CodeBetween(lines: seq<Line>, i: nat, j: nat): Line
    requires i <= j <= |lines|
  {
    Joined(Slice(CodeAt(lines), i, j))
  }

  lemma LineLeads(lines: seq<Line>, k: nat)
    requires k < |lines|
    ensures Leads(StackAt(lines)(k), CodeAt(lines)(k), StackAt(lines)(k + 1))
  {
    LineIsStep(lines, k);
  }

  lemma FamilyKeeps(stack: nat -> seq<bool>, code: nat -> Line, i: nat, j: nat, base: seq<bool>, open: nat)
    requires i <= j && forall k: nat | i <= k < j :: Leads(stack(k), code(k), stack(k + 1))
    requires Keeps(stack(i), base, open) && StaysOpen(Joined(Slice(code, i, j)), open)
    ensures open + NetDepth(Joined(Slice(code, i, j))) >= 0
    ensures Keeps(stack(j), base, open + NetDepth(Joined(Slice(code, i, j))))
  {
    SliceIsChain(stack, code, i, j);
    ChainKeeps(Slice(stack, i, j + 1), Slice(code, i, j), base, open);
  }

  lemma SliceIsChain(stack: nat -> seq<bool>, code: nat -> Line, i: nat, j: nat)
    requires i <= j && forall k: nat | i <= k < j :: Leads(stack(k), code(k), stack(k + 1))
    ensures IsChain(Slice(stack, i, j + 1), Slice(code, i, j))
  {
    var stacks, codes := Slice(stack, i, j + 1), Slice(code, i, j);
    forall k | 0 <= k < |codes|
      ensures Leads(stacks[k], codes[k], stacks[k + 1])
    {
      var n := i + k;
      assert stacks[k] == stack(n) && codes[k] == code(n) && stacks[k + 1] == stack(n + 1);
    }
  }

  lemma LinesKeepBelow(lines: seq<Line>, i: nat, j: nat, base: seq<bool>, open: nat)
    requires i <= j <= |lines| && Keeps(Before(lines, i).stack, base, open) && StaysOpen(CodeBetween(lines, i, j), open)
    ensures open + NetDepth(CodeBetween(lines, i, j)) >= 0
    ensures Keeps(Before(lines, j).stack, base, open + NetDepth(CodeBetween(lines, i, j)))
  {
    forall k: nat | i <= k < j
      ensures Leads(StackAt(lines)(k), CodeAt(lines)(k), StackAt(lines)(k + 1))
    {
      LineLeads(lines, k);
    }
    FamilyKeeps(StackAt(lines), CodeAt(lines), i, j, base, open);
  }

  /**
   * As long as the code of the lines never closes a flagged brace, every line is gated, whatever
   * gates and braces nest inside.
   */
  lemma LinesInsideGatedBrace(lines: seq<Line>, i: nat, j: nat, base: seq<bool>, open: nat)
    requires i <= j < |lines| && Keeps(Before(lines, i).stack, base + [true], open)
    requires StaysOpen(CodeBetween(lines, i, j), open)
    ensures InGatedItem(lines, j)
  {
    LinesKeepBelow(lines, i, j, base + [true], open);
    FlagStays(Before(lines, j).stack, base, open + NetDepth(CodeBetween(lines, i, j)));
  }

  lemma FlagStays(stack: seq<bool>, base: seq<bool>, open: nat)
    requires Keeps(stack, base + [true], open)
    ensures true in stack
  {
    assert (base + [true])[|base|];
    assert stack[|base|];
  }

  /** On line `g`, behind `pre`, a waiting gate finds the brace that opens the block of its item. */
  predicate OpensBlock(lines: seq<Line>, g: nat, pre: Line, rest: Line) {
    && g < |lines| && ScannedCode(lines, g) == pre + ([OPEN_BRACE] + rest)
    && StepCode(Entered(lines, g), pre, SPACE).armed
  }

  /** The braces around the item. */
  function Enclosing(lines: seq<Line>, g: nat, pre: Line): seq<bool>
    requires g < |lines|
  {
    StepCode(Entered(lines, g), pre, SPACE).stack
  }

  lemma BlockOpened(lines: seq<Line>, g: nat, pre: Line, rest: Line)
    requires OpensBlock(lines, g, pre, rest) && StaysOpen(rest, 0)
    ensures NetDepth(rest) >= 0 && Keeps(Before(lines, g + 1).stack, Enclosing(lines, g, pre) + [true], NetDepth(rest))
  {
    var s, prev := StepCode(Entered(lines, g), pre, SPACE), PrevAfter(pre, SPACE);
    LineIsStep(lines, g);
    StepConcat(Entered(lines, g), pre, [OPEN_BRACE] + rest, SPACE);
    assert ([OPEN_BRACE] + rest)[1..] == rest;
    CodeKeepsBelow(StepScope(s, OPEN_BRACE, prev), s.stack + [true], 0, rest, NextPrev(OPEN_BRACE, prev));
  }

  lemma RestThenLines(lines: seq<Line>, g: nat, base: seq<bool>, rest: Line, c: nat)
    requires g < c <= |lines| && StaysOpen(rest + CodeBetween(lines, g + 1, c), 0)
    requires NetDepth(rest) >= 0 && Keeps(Before(lines, g + 1).stack, base, NetDepth(rest))
    ensures NetDepth(rest + CodeBetween(lines, g + 1, c)) >= 0
    ensures Keeps(Before(lines, c).stack, base, NetDepth(rest + CodeBetween(lines, g + 1, c)))
  {
    StaysOpenConcat(rest, CodeBetween(lines, g + 1, c), 0);
    LinesKeepBelow(lines, g + 1, c, base, NetDepth(rest));
  }

  lemma RestStaysOpen(rest: Line, more: Line)
    requires StaysOpen(rest + more, 0)
    ensures StaysOpen(rest, 0)
  {
    StaysOpenConcat(rest, more, 0);
  }

  lemma BlockOpenAt(lines: seq<Line>, g: nat, pre: Line, rest: Line, c: nat)
    requires OpensBlock(lines, g, pre, rest) && g < c <= |lines|
    requires StaysOpen(rest + CodeBetween(lines, g + 1, c), 0)
    ensures NetDepth(rest + CodeBetween(lines, g + 1, c)) >= 0
    ensures Keeps(Before(lines, c).stack, Enclosing(lines, g, pre) + [true],
                  NetDepth(rest + CodeBetween(lines, g + 1, c)))
  {
    RestStaysOpen(rest, CodeBetween(lines, g + 1, c));
    BlockOpened(lines, g, pre, rest);
    RestThenLines(lines, g, Enclosing(lines, g, pre) + [true], rest, c);
  }

  /** Every line that starts inside the block of a gated item is gated. */
  lemma BlockLinesGated(lines: seq<Line>, g: nat, pre: Line, rest: Line, j: nat)
    requires OpensBlock(lines, g, pre, rest) && g < j < |lines|
    requires StaysOpen(rest + CodeBetween(lines, g + 1, j), 0)
    ensures InGatedItem(lines, j)
  {
    BlockOpenAt(lines, g, pre, rest, j);
    FlagStays(Before(lines, j).stack, Enclosing(lines, g, pre), NetDepth(rest + CodeBetween(lines, g + 1, j)));
  }

  /** On line `c`, behind `last`, the block is closed, and `post` closes nothing outside it. */
  predicate ClosesBlock(lines: seq<Line>, g: nat, rest: Line, c: nat, last: Line, post: Line)
  {
    && g < c < |lines| && ScannedCode(lines, c) == last + ([CLOSE_BRACE] + post)
    && StaysOpen(rest + CodeBetween(lines, g + 1, c) + last, 0)
    && NetDepth(rest + CodeBetween(lines, g + 1, c) + last) == 0
    && StaysOpen(post, 0)
  }

  lemma BlockClosed(lines: seq<Line>, g: nat, pre: Line, rest: Line, c: nat, last: Line, post: Line)
    requires OpensBlock(lines, g, pre, rest) && ClosesBlock(lines, g, rest, c, last, post)
    ensures StepCode(Entered(lines, c), last, SPACE).stack == Enclosing(lines, g, pre) + [true]
  {
    var between, outer := CodeBetween(lines, g + 1, c), Enclosing(lines, g, pre);
    StaysOpenConcat(rest + between, last, 0);
    BlockOpenAt(lines, g, pre, rest, c);
    LineIsStep(lines, c);
    CodeKeepsBelow(Entered(lines, c), outer + [true], NetDepth(rest + between), last, SPACE);
  }

  /** The gate ends with the closing line: the next line is gated exactly when the item stood inside a gated block. */
  lemma VerdictEndsWithBlock(lines: seq<Line>, g: nat, pre: Line, rest: Line, c: nat, last: Line, post: Line)
    requires OpensBlock(lines, g, pre, rest) && ClosesBlock(lines, g, rest, c, last, post)
    ensures !Before(lines, c + 1).armed
    ensures c + 1 < |lines| ==> (InGatedItem(lines, c + 1) <==> true in Enclosing(lines, g, pre))
  {
    var outer := Enclosing(lines, g, pre);
    var s, prev := StepCode(Entered(lines, c), last, SPACE), PrevAfter(last, SPACE);
    BlockClosed(lines, g, pre, rest, c, last, post);
    LineIsStep(lines, c);
    StepConcat(Entered(lines, c), last, [CLOSE_BRACE] + post, SPACE);
    assert ([CLOSE_BRACE] + post)[1..] == post;
    AfterClosing(s, outer, post, prev);
  }

  /** A block on one line: the next line is gated exactly when the item stood inside a gated block. */
  lemma VerdictEndsOnOneLine(lines: seq<Line>, g: nat, pre: Line, block: Line, post: Line)
    requires OpensBlock(lines, g, pre, block + [CLOSE_BRACE] + post)
    requires StaysOpen(block, 0) && NetDepth(block) == 0 && StaysOpen(post, 0)
    ensures !Before(lines, g + 1).armed
    ensures g + 1 < |lines| ==> (InGatedItem(lines, g + 1) <==> true in Enclosing(lines, g, pre))
  {
    LineIsStep(lines, g);
    StepConcat(Entered(lines, g), pre, [OPEN_BRACE] + (block + [CLOSE_BRACE] + post), SPACE);
    BlockAndMore(StepCode(Entered(lines, g), pre, SPACE), block, post, PrevAfter(pre, SPACE));
  }

  lemma BlockAndMore(s: Scope, block: Line, post: Line, prev: byte)
    requires s.armed && StaysOpen(block, 0) && NetDepth(block) == 0 && StaysOpen(post, 0)
    ensures var after := StepCode(s, [OPEN_BRACE] + (block + [CLOSE_BRACE] + post), prev);
            !after.armed && (true in after.stack <==> true in s.stack)
  {
    var whole := [OPEN_BRACE] + block + [CLOSE_BRACE];
    assert [OPEN_BRACE] + (block + [CLOSE_BRACE] + post) == whole + post;
    StepConcat(s, whole, post, prev);
    GatedBlockEnds(s, block, prev);
    assert s.stack == s.stack + Ungated(0);
    UnarmedCode(StepCode(s, whole, prev), s.stack, 0, post, PrevAfter(whole, prev));
  }

  lemma AfterClosing(s: Scope, outer: seq<bool>, post: Line, prev: byte)
    requires s.stack == outer + [true] && StaysOpen(post, 0)
    ensures var s' := StepCode(StepScope(s, CLOSE_BRACE, prev), post, NextPrev(CLOSE_BRACE, prev));
            !s'.armed && (true in s'.stack <==> true in outer)
  {
    var closed := StepScope(s, CLOSE_BRACE, prev);
    assert closed.stack == outer + Ungated(0);
    UnarmedCode(closed, outer, 0, post, NextPrev(CLOSE_BRACE, prev));
  }

  // ---- The counter and the list of gated depths ----

  /** The depths at which gated braces stand, on a stack whose first brace stands at depth `base`. */
  function GatedDepths(stack: seq<bool>, base: int): seq<int> {
    if stack == [] then []
    else
      var below := stack[..|stack| - 1];
      GatedDepths(below, base) + (if stack[|stack| - 1] then [base + |stack| - 1] else [])
  }

  lemma {:induction false} GatedDepthsBelow(stack: seq<bool>, base: int)
    ensures forall d | d in GatedDepths(stack, base) :: base <= d < base + |stack|
    ensures forall i, j | 0 <= i < j < |GatedDepths(stack, base)| ::
              GatedDepths(stack, base)[i] < GatedDepths(stack, base)[j]
    ensures GatedDepths(stack, base) == [] <==> true !in stack
  {
    if stack != [] {
      GatedDepthsBelow(stack[..|stack| - 1], base);
      assert stack == stack[..|stack| - 1] + [stack[|stack| - 1]];
      var below := GatedDepths(stack[..|stack| - 1], base);
      assert forall d | d in below :: d < base + |stack| - 1;
      var all := GatedDepths(stack, base);
      forall i, j | 0 <= i < j < |all|
        ensures all[i] < all[j]
      {
        assert all[i] == below[i] && all[i] in below;
      }
    }
  }

  /** The last gated depth belongs to the innermost brace exactly when that brace is gated. */
  lemma GatedDepthsPop(stack: seq<bool>, base: int)
    requires stack != []
    ensures var all, below := GatedDepths(stack, base), GatedDepths(stack[..|stack| - 1], base);
            if all != [] && base + |stack| - 1 <= all[|all| - 1] then all[..|all| - 1] == below else all == below
  {
    GatedDepthsBelow(stack[..|stack| - 1], base);
  }

  /** The gate scanner's own variables. */
  class Scanner {
    var depth: int
    var group: int
    var angle: int
    var gatedDepths: seq<int>
    var armed: bool
    var inWhere: bool
    var armedDepth: int

    /** The variables stand for the scope `s`, on top of `base` (minus the unmatched closing braces). */
    ghost predicate Stands(s: Scope, base: int)
      reads this
    {
      && depth == base + |s.stack|
      && gatedDepths == GatedDepths(s.stack, base)
      && armed == s.armed && inWhere == s.inWhere
      && group == s.group && angle == s.angle
      && (armed ==> armedDepth == depth)
    }

    constructor ()
      ensures Stands(OUTERMOST, 0)
    {
      depth, group, angle, armedDepth := 0, 0, 0, 0;
      gatedDepths, armed, inWhere := [], false, false;
    }

    /** The verdict of the scanner is the verdict of the full stack. */
    method Verdict(ghost s: Scope, ghost base: int) returns (gated: bool)
      requires Stands(s, base)
      ensures gated <==> Gated(s)
    {
      GatedDepthsBelow(s.stack, base);
      gated := gatedDepths != [] || armed;
    }

    method Arm(ghost s: Scope, ghost base: int)
      requires Stands(s, base)
      modifies this
      ensures Stands(s.(armed := true, inWhere := false), base)
    {
      armed, armedDepth, inWhere := true, depth, false;
    }

    method OpenBrace(ghost s: Scope, ghost base: int, ghost prev: byte)
      requires Stands(s, base)
      modifies this
      ensures Stands(StepScope(s, OPEN_BRACE, prev), base)
    {
      ghost var stack' := s.stack + [s.armed];
      assert stack'[..|stack'| - 1] == s.stack;
      if armed {
        gatedDepths := gatedDepths + [depth];
        armed := false;
      }
      depth := depth + 1;
    }

    /** A closing brace that nothing opened lowers the base; the list of gated depths is empty then. */
    method CloseBrace(ghost s: Scope, ghost base: int, ghost prev: byte) returns (ghost base': int)
      requires Stands(s, base)
      modifies this
      ensures Stands(StepScope(s, CLOSE_BRACE, prev), base')
    {
      depth := depth - 1;
      base' := if s.stack == [] then base - 1 else base;
      if s.stack != [] {
        GatedDepthsPop(s.stack, base);
      }
      if gatedDepths != [] && depth <= gatedDepths[|gatedDepths| - 1] {
        gatedDepths := gatedDepths[..|gatedDepths| - 1];
      }
      if armed && depth < armedDepth {
        armed := false;
      }
    }

    method ReadChar(ch: byte, prev: byte, ghost s: Scope, ghost base: int) returns (ghost base': int)
      requires Stands(s, base)
      modifies this
      ensures Stands(StepScope(s, ch, prev), base')
    {
      base' := base;
      if ch == 0x28 || ch == 0x5B {
        group := group + 1;
      } else if ch == 0x29 || ch == 0x5D {
        group := if group - 1 < 0 then 0 else group - 1;
      } else if ch == 0x3C && (IsWordByte(prev) || prev == 0x3E) {
        angle := angle + 1;
      } else if ch == 0x3E && prev != 0x2D {
        angle := if angle - 1 < 0 then 0 else angle - 1;
      } else if ch == OPEN_BRACE {
        OpenBrace(s, base, prev);
      } else if ch == CLOSE_BRACE {
        base' := CloseBrace(s, base, prev);
      } else if ch == SEMICOLON && armed && group == 0 {
        armed := false;
      } else if ch == COMMA && armed && group == 0 && angle == 0 && !inWhere {
        armed := false;
      }
    }

    method ReadCode(code: Line, ghost s: Scope, ghost base: int) returns (ghost base': int)
      requires Stands(s, base)
      modifies this
      ensures Stands(StepCode(s, code, SPACE), base')
    {
      var prev := SPACE;
      base' := base;
      ghost var t := s;
      for i := 0 to |code|
        invariant Stands(t, base')
        invariant StepCode(t, code[i..], prev) == StepCode(s, code, SPACE)
      {
        base' := ReadChar(code[i], prev, t, base');
        assert code[i..][1..] == code[i + 1..];
        t := StepScope(t, code[i], prev);
        if !IsSpaceByte(code[i]) {
          prev := code[i];
        }
      }
    }

    method ReadLine(line: Line, blockComment: nat, ghost s: Scope, ghost base: int)
      returns (blockComment': nat, ghost base': int)
      requires Stands(s, base)
      modifies this
      ensures Stands(StepLine(s, line, blockComment).0, base')
      ensures blockComment' == StepLine(s, line, blockComment).1
    {
      var code;
      code, blockComment' := CodeOnly(line, blockComment);
      if !(blockComment > 0) && Bytes.TrimStart(line) == SELF_UPDATE_GATE {
        Arm(s, base);
        return blockComment', base;
      }
      ghost var s' := s;
      if armed && !inWhere && HasWhereKeyword(code) {
        inWhere := true;
        s' := s.(inWhere := true);
      }
      base' := ReadCode(code, s', base);
    }
  }

  // ---- The scan of one target line ----

  /** Without the gate attribute anywhere, nothing is ever armed. */
  lemma {:induction false} NoGateNothingGated(lines: seq<Line>)
    requires forall line | line in lines :: !Contains(line, SELF_UPDATE_GATE)
    ensures !Gated(AfterLines(lines).0)
  {
    if lines != [] {
      var before, line := lines[..|lines| - 1], lines[|lines| - 1];
      NoGateNothingGated(before);
      var (s, depth) := AfterLines(before);
      GateLineContainsGate(line);
      assert line in lines;
      UngatedCode(if s.armed && HasWhereKeyword(CodeOf(line, depth).0) then s.(inWhere := true) else s,
                  CodeOf(line, depth).0, SPACE);
    }
  }

  lemma GateLineContainsGate(line: Line)
    ensures IsGateLine(line) ==> Contains(line, SELF_UPDATE_GATE)
  {
    var trimmed := Bytes.TrimStart(line);
    var i := |line| - |trimmed|;
    assert OccursAt(line, trimmed, i);
  }

  lemma {:induction false} UngatedCode(s: Scope, code: Line, prev: byte)
    requires !Gated(s)
    ensures !Gated(StepCode(s, code, prev))
    decreases |code|
  {
    if code != [] {
      UngatedCode(StepScope(s, code[0], prev), code[1..], NextPrev(code[0], prev));
    }
  }

  method IsCfgGatedRegion(lines: seq<Line>, target: nat) returns (gated: bool)
    ensures gated <==> InGatedItem(lines, target)
  {
    if !(exists i | 0 <= i < |lines| :: Contains(lines[i], SELF_UPDATE_GATE)) {
      if target < |lines| {
        NoGateNothingGated(lines[..target]);
      }
      return false;
    }
    var scanner := new Scanner();
    var blockComment: nat := 0;
    ghost var base: int := 0;
    for i := 0 to |lines|
      invariant target >= i
      invariant fresh(scanner)
      invariant scanner.Stands(AfterLines(lines[..i]).0, base) && blockComment == AfterLines(lines[..i]).1
    {
      ghost var s := AfterLines(lines[..i]).0;
      if i == target {
        gated := scanner.Verdict(s, base);
        return;
      }
      assert lines[..i + 1][..i] == lines[..i];
      blockComment, base := scanner.ReadLine(lines[i], blockComment, s, base);
    }
    return false;
  }

  // ---- The scan of a file ----

  const AXOUPDATER: Line := Ascii("axoupdater")

  const NETWORK_SYMBOLS: seq<Line> := [
    Ascii("reqwest"), Ascii("hyper::"), Ascii("std::net::"), Ascii("TcpStream"), Ascii("rustls"), AXOUPDATER]

  const SCANNER_SELF := "xtask/src/no_network.rs"
  const UPDATER_PATH := "crates/unblock-cli/src/commands/update.rs"

  /** Lines are numbered from 1. */
  datatype Finding = Finding(file: string, line: nat, symbol: Line)

  predicate IsCommentLine(line: Line) {
    OccursAt(Bytes.TrimStart(line), [SLASH, SLASH], 0)
  }

  /** The symbol occurs in the line, in no comment line, and is not the one the updater may name. */
  predicate Names(file: string, line: Line, symbol: Line) {
    Contains(line, symbol) && !IsCommentLine(line) && !(file == UPDATER_PATH && symbol == AXOUPDATER)
  }

  /** The findings on one line among the first `k` symbols. */
  function LineFindings(file: string, i: nat, line: Line, gated: bool, k: nat): seq<Finding>
    requires k <= |NETWORK_SYMBOLS|
  {
    if k == 0 then []
    else
      LineFindings(file, i, line, gated, k - 1) +
      (if Names(file, line, NETWORK_SYMBOLS[k - 1]) && !gated
       then [Finding(file, i + 1, NETWORK_SYMBOLS[k - 1])] else [])
  }

  /** One forward pass over the lines that carries the scope along. */
  function ForwardPass(file: string, lines: seq<Line>, i: nat, s: Scope, depth: nat): seq<Finding>
    requires i <= |lines|
    decreases |lines| - i
  {
    if i == |lines| then []
    else
      var (s', depth') := StepLine(s, lines[i], depth);
      LineFindings(file, i, lines[i], Gated(s), |NETWORK_SYMBOLS|) + ForwardPass(file, lines, i + 1, s', depth')
  }

  /** What the scan of a file must find; the scanner's own source is exempt. */
  function Leaks(file: string, lines: seq<Line>): seq<Finding> {
    if file == SCANNER_SELF then [] else ForwardPass(file, lines, 0, OUTERMOST, 0)
  }

  lemma {:induction false} InLineFindings(file: string, i: nat, line: Line, gated: bool, k: nat, f: Finding)
    requires k <= |NETWORK_SYMBOLS|
    ensures f in LineFindings(file, i, line, gated, k) <==>
            && f.file == file && f.line == i + 1 && !gated && f.symbol in NETWORK_SYMBOLS[..k]
            && Names(file, line, f.symbol)
  {
    if k > 0 {
      InLineFindings(file, i, line, gated, k - 1, f);
      assert NETWORK_SYMBOLS[..k] == NETWORK_SYMBOLS[..k - 1] + [NETWORK_SYMBOLS[k - 1]];
    }
  }

  lemma {:induction false} InForwardPass(file: string, lines: seq<Line>, i: nat, f: Finding)
    requires i <= |lines|
    ensures var (s, depth) := AfterLines(lines[..i]);
            f in ForwardPass(file, lines, i, s, depth) <==>
            && f.file == file && i < f.line <= |lines| && f.symbol in NETWORK_SYMBOLS
            && Names(file, lines[f.line - 1], f.symbol) && !InGatedItem(lines, f.line - 1)
    decreases |lines| - i
  {
    if i < |lines| {
      var (s, depth) := AfterLines(lines[..i]);
      assert lines[..i + 1][..i] == lines[..i];
      InForwardPass(file, lines, i + 1, f);
      InLineFindings(file, i, lines[i], Gated(s), |NETWORK_SYMBOLS|, f);
      assert NETWORK_SYMBOLS[..|NETWORK_SYMBOLS|] == NETWORK_SYMBOLS;
    }
  }

  /** A finding is a network symbol that no comment, no exemption and no gated item covers. */
  lemma LeaksExactly(file: string, lines: seq<Line>, f: Finding)
    requires file != SCANNER_SELF
    ensures f in Leaks(file, lines) <==>
            && f.file == file && 0 < f.line <= |lines| && f.symbol in NETWORK_SYMBOLS
            && Names(file, lines[f.line - 1], f.symbol) && !InGatedItem(lines, f.line - 1)
  {
    InForwardPass(file, lines, 0, f);
  }

  /** One line against every symbol, asking for the gate anew each time. */
  method ScanLineSymbols(file: string, lines: seq<Line>, i: nat) returns (findings: seq<Finding>)
    requires i < |lines|
    ensures findings == LineFindings(file, i, lines[i], InGatedItem(lines, i), |NETWORK_SYMBOLS|)
  {
    findings := [];
    var isUpdater := file == UPDATER_PATH;
    for k := 0 to |NETWORK_SYMBOLS|
      invariant findings == LineFindings(file, i, lines[i], InGatedItem(lines, i), k)
    {
      var symbol := NETWORK_SYMBOLS[k];
      if !Contains(lines[i], symbol) {
        continue;
      }
      if IsCommentLine(lines[i]) {
        continue;
      }
      if isUpdater && symbol == AXOUPDATER {
        continue;
      }
      var gated := IsCfgGatedRegion(lines, i);
      if gated {
        continue;
      }
      findings := findings + [Finding(file, i + 1, symbol)];
    }
  }

  /** The forward pass from line `i` on, in the state that the lines before it leave. */
  function PassFrom(file: string, lines: seq<Line>, i: nat): seq<Finding>
    requires i <= |lines|
  {
    ForwardPass(file, lines, i, AfterLines(lines[..i]).0, AfterLines(lines[..i]).1)
  }

  lemma PassStep(file: string, lines: seq<Line>, i: nat)
    requires i < |lines|
    ensures PassFrom(file, lines, i) ==
            LineFindings(file, i, lines[i], InGatedItem(lines, i), |NETWORK_SYMBOLS|) + PassFrom(file, lines, i + 1)
  {
    assert lines[..i + 1][..i] == lines[..i];
  }

  /** The per-line rescans add up to one forward pass. */
  method ScanFile(file: string, lines: seq<Line>) returns (findings: seq<Finding>)
    ensures findings == Leaks(file, lines)
  {
    findings := [];
    if file == SCANNER_SELF {
      return;
    }
    for i := 0 to |lines|
      invariant PassFrom(file, lines, 0) == findings + PassFrom(file, lines, i)
    {
      var more := ScanLineSymbols(file, lines, i);
      PassStep(file, lines, i);
      findings := findings + more;
    }
  }
}
