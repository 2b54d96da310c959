/** Fenced code blocks of a document: which lines a fence masks. */
module FenceMask {
  import opened Text
  import opened Wrappers

  datatype Fence = Fence(ch: char, length: nat)

  /** How many leading characters of `s` are `ch`. */
  function LeadingRun(s: string, ch: char): (n: nat)
    ensures n <= |s|
    ensures forall i | 0 <= i < n :: s[i] == ch
    ensures n < |s| ==> s[n] != ch
  {
    if s != [] && s[0] == ch then 1 + LeadingRun(s[1..], ch) else 0
  }

  /** A fence run is three or more identical backticks or tildes at the start of `s`. */
  function FenceRun(s: string): Option<Fence> {
    if s == [] || (s[0] != '`' && s[0] != '~') then None
    else
      var length := LeadingRun(s, s[0]);
      if length >= 3 then Some(Fence(s[0], length)) else None
  }

  function InfoString(s: string, ch: char): string {
    Trim(s[LeadingRun(s, ch)..])
  }

  /** A line with no fence run, or its run and whether nothing follows it. */
  datatype LineKind = Plain | Run(fence: Fence, bare: bool)

  /** Indentation is ignored. */
  function Classify(line: string): LineKind {
    var trimmed := TrimStart(line);
    match FenceRun(trimmed)
    case None => Plain
    case Some(fence) => Run(fence, InfoString(trimmed, fence.ch) == [])
  }

  /**
   * A line carries a fence run exactly when at least three equal backticks or tildes follow its
   * indentation; the run is maximal, and bare when only white space follows it.
   */
  lemma FenceLineExactly(indent: string, ch: char, n: nat, rest: string)
    requires forall i | 0 <= i < |indent| :: IsWhitespace(indent[i])
    requires n > 0 && !IsWhitespace(ch) && (rest != [] ==> rest[0] != ch)
    ensures var line := indent + seq(n, _ => ch) + rest;
            Classify(line) ==
            if (ch == '`' || ch == '~') && n >= 3
            then Run(Fence(ch, n), forall i | 0 <= i < |rest| :: IsWhitespace(rest[i]))
            else Plain
  {
    var body := seq(n, _ => ch) + rest;
    assert body[0] == ch;
    TrimStartPadded(indent, body);
    assert indent + seq(n, _ => ch) + rest == indent + body;
    RunExactly(n, ch, rest);
  }

  lemma RunExactly(n: nat, ch: char, rest: string)
    requires n > 0 && (rest != [] ==> rest[0] != ch)
    ensures var body := seq(n, _ => ch) + rest;
            && FenceRun(body) == (if (ch == '`' || ch == '~') && n >= 3 then Some(Fence(ch, n)) else None)
            && (InfoString(body, ch) == [] <==> forall i | 0 <= i < |rest| :: IsWhitespace(rest[i]))
  {
    var body := seq(n, _ => ch) + rest;
    RunLength(n, ch, rest);
    assert body[0] == ch && body[n..] == rest;
    TrimmedAway(rest);
  }

  lemma RunLength(n: nat, ch: char, rest: string)
    requires rest != [] ==> rest[0] != ch
    ensures LeadingRun(seq(n, _ => ch) + rest, ch) == n
  {
    var s := seq(n, _ => ch) + rest;
    assert forall i | 0 <= i < n :: s[i] == ch;
    assert rest != [] ==> s[n] == rest[0];
  }

  // ---- Where the opening fences of CommonMark 0.31.2, section 4.5, agree ----

  function Spaces(k: nat): string {
    seq(k, _ => ' ')
  }

  /** Up to three spaces, the fence, and an info string that holds no backtick after a backtick fence. */
  ghost predicate OpensWith(line: string, f: Fence, k: nat, rest: string) {
    && k <= 3 && (f.ch == '`' || f.ch == '~') && f.length >= 3
    && line == Spaces(k) + seq(f.length, _ => f.ch) + rest
    && (rest != [] ==> rest[0] != f.ch) && (f.ch == '`' ==> '`' !in rest)
  }

  ghost predicate OpensByCommonMark(line: string, f: Fence) {
    exists k, rest :: OpensWith(line, f, k, rest)
  }

  /** What the code leaves out of section 4.5: the bound on the indentation, and the backticks of the info string. */
  predicate MeetsUncheckedRules(line: string, trimmed: string, f: Fence) {
    && |trimmed| <= |line| && |line| - |trimmed| <= 3 && (forall i | 0 <= i < |line| - |trimmed| :: line[i] == ' ')
    && (f.ch == '`' ==> f.length <= |trimmed| && '`' !in trimmed[f.length..])
  }

  lemma OpensWithIsRun(line: string, f: Fence, k: nat, rest: string)
    requires OpensWith(line, f, k, rest)
    ensures FenceRun(TrimStart(line)) == Some(f) && MeetsUncheckedRules(line, TrimStart(line), f)
    ensures TrimStart(line)[f.length..] == rest
  {
    var body := seq(f.length, _ => f.ch) + rest;
    assert line == Spaces(k) + body;
    BodyAfterSpaces(k, body, f.ch);
    RunLength(f.length, f.ch, rest);
    assert body[f.length..] == rest;
  }

  lemma BodyAfterSpaces(k: nat, body: string, ch: char)
    requires body != [] && body[0] == ch && (ch == '`' || ch == '~')
    ensures TrimStart(Spaces(k) + body) == body
    ensures forall i | 0 <= i < k :: (Spaces(k) + body)[i] == ' '
  {
    TrimStartPadded(Spaces(k), body);
  }

  lemma FenceRunParts(s: string, f: Fence)
    requires FenceRun(s) == Some(f)
    ensures (f.ch == '`' || f.ch == '~') && 3 <= f.length <= |s|
    ensures (forall i | 0 <= i < f.length :: s[i] == f.ch) && (f.length < |s| ==> s[f.length] != f.ch)
  {
  }

  lemma RunOpensWith(line: string, trimmed: string, f: Fence)
    requires |trimmed| <= |line| && trimmed == line[|line| - |trimmed|..]
    requires FenceRun(trimmed) == Some(f) && MeetsUncheckedRules(line, trimmed, f)
    ensures OpensWith(line, f, |line| - |trimmed|, trimmed[f.length..])
  {
    FenceRunParts(trimmed, f);
    var k, run, rest := |line| - |trimmed|, seq(f.length, _ => f.ch), trimmed[f.length..];
    assert trimmed[..f.length] == run && line[..k] == Spaces(k);
    assert line == line[..k] + (trimmed[..f.length] + rest);
    assert Spaces(k) + (run + rest) == Spaces(k) + run + rest;
  }

  lemma ClassifiedRun(line: string, f: Fence)
    ensures Classify(line).Run? && Classify(line).fence == f <==> FenceRun(TrimStart(line)) == Some(f)
  {
  }

  /** The code sees the run, and the rules of section 4.5 that it does not check hold too. */
  predicate RunAgrees(line: string, trimmed: string, f: Fence) {
    FenceRun(trimmed) == Some(f) && MeetsUncheckedRules(line, trimmed, f)
  }

  lemma AgreesOnRun(line: string, f: Fence)
    ensures OpensByCommonMark(line, f) <==> RunAgrees(line, TrimStart(line), f)
  {
    if OpensByCommonMark(line, f) {
      var k, rest :| OpensWith(line, f, k, rest);
      OpensWithIsRun(line, f, k, rest);
    }
    RunOpens(line, TrimStart(line), f);
  }

  lemma RunOpens(line: string, trimmed: string, f: Fence)
    requires |trimmed| <= |line| && trimmed == line[|line| - |trimmed|..]
    ensures RunAgrees(line, trimmed, f) ==> OpensByCommonMark(line, f)
  {
    if RunAgrees(line, trimmed, f) {
      RunOpensWith(line, trimmed, f);
    }
  }

  /** A line opens a fence by section 4.5 exactly when the code sees that run and the unchecked rules hold. */
  lemma CommonMarkAgreesExactly(line: string, f: Fence)
    ensures OpensByCommonMark(line, f) <==>
            Classify(line).Run? && Classify(line).fence == f && MeetsUncheckedRules(line, TrimStart(line), f)
  {
    AgreesOnRun(line, f);
    ClassifiedRun(line, f);
  }

  lemma DeepNeverOpens(line: string, k: nat, body: string, f: Fence)
    requires k > 3 && line == Spaces(k) + body && TrimStart(line) == body
    ensures !OpensByCommonMark(line, f)
  {
    AgreesOnRun(line, f);
  }

  /** Four spaces of indentation: the code opens a fence where section 4.5 does not. */
  lemma DeepFenceOpens()
    ensures var line := Spaces(4) + seq(3, _ => '`');
            Classify(line).Run? && forall f :: !OpensByCommonMark(line, f)
  {
    var run := seq(3, _ => '`');
    var line := Spaces(4) + run;
    DeepRun(line, run);
    ClassifiedRun(line, Fence('`', 3));
    forall f
      ensures !OpensByCommonMark(line, f)
    {
      DeepNeverOpens(line, 4, run, f);
    }
  }

  lemma DeepRun(line: string, run: string)
    requires run == seq(3, _ => '`') && line == Spaces(4) + run
    ensures TrimStart(line) == run && FenceRun(run) == Some(Fence('`', 3))
  {
    BodyAfterSpaces(4, run, '`');
    RunLength(3, '`', []);
    assert run + [] == run;
  }

  function Kinds(lines: seq<string>): (kinds: seq<LineKind>)
    ensures |kinds| == |lines|
    ensures forall i | 0 <= i < |lines| :: kinds[i] == Classify(lines[i])
  {
    seq(|lines|, i requires 0 <= i < |lines| => Classify(lines[i]))
  }

  /** A run of the opener's character, at least as long, with nothing after it. */
  predicate Closes(line: LineKind, opener: Fence) {
    line.Run? && line.fence.ch == opener.ch && line.fence.length >= opener.length && line.bare
  }

  // ---- Where its closing fences agree ----

  /** Only spaces and tabs. */
  predicate Blank(s: string) {
    forall i | 0 <= i < |s| :: s[i] == ' ' || s[i] == '\t'
  }

  /** Up to three spaces, a fence of the opener's character, at least as long, and only spaces and tabs after it. */
  ghost predicate ClosesWith(line: string, opener: Fence, f: Fence, k: nat, tail: string) {
    OpensWith(line, f, k, tail) && Blank(tail) && f.ch == opener.ch && f.length >= opener.length
  }

  ghost predicate ClosesByCommonMark(line: string, opener: Fence) {
    exists f, k, tail :: ClosesWith(line, opener, f, k, tail)
  }

  /** What the code does not check of a closing fence: its indentation, and that no other white space follows. */
  predicate MeetsClosingRules(line: string, trimmed: string, length: nat) {
    && |trimmed| <= |line| && |line| - |trimmed| <= 3 && (forall i | 0 <= i < |line| - |trimmed| :: line[i] == ' ')
    && length <= |trimmed| && Blank(trimmed[length..])
  }

  lemma BlankIsBare(s: string, f: Fence)
    requires FenceRun(s) == Some(f) && f.length <= |s| && Blank(s[f.length..])
    ensures InfoString(s, f.ch) == []
  {
    TrimmedAway(s[f.length..]);
  }

  lemma ClassifiedBare(line: string, f: Fence)
    requires FenceRun(TrimStart(line)) == Some(f)
    ensures Classify(line) == Run(f, InfoString(TrimStart(line), f.ch) == [])
  {
  }

  lemma ClosesWithCloses(line: string, opener: Fence, f: Fence, k: nat, tail: string)
    requires ClosesWith(line, opener, f, k, tail)
    ensures FenceRun(TrimStart(line)) == Some(f) && MeetsClosingRules(line, TrimStart(line), f.length)
    ensures InfoString(TrimStart(line), f.ch) == []
  {
    OpensWithIsRun(line, f, k, tail);
    FenceRunParts(TrimStart(line), f);
    BlankIsBare(TrimStart(line), f);
  }

  lemma BlankHasNoFence(line: string, trimmed: string, f: Fence)
    requires MeetsClosingRules(line, trimmed, f.length)
    ensures MeetsUncheckedRules(line, trimmed, f)
  {
  }

  lemma RunCloses(line: string, trimmed: string, opener: Fence, f: Fence)
    requires |trimmed| <= |line| && trimmed == line[|line| - |trimmed|..]
    requires FenceRun(trimmed) == Some(f) && MeetsClosingRules(line, trimmed, f.length)
    requires f.ch == opener.ch && f.length >= opener.length
    ensures ClosesByCommonMark(line, opener)
  {
    BlankHasNoFence(line, trimmed, f);
    RunOpensWith(line, trimmed, f);
    assert ClosesWith(line, opener, f, |line| - |trimmed|, trimmed[f.length..]);
  }

  /** The code sees a closing run, and the rules of section 4.5 that it does not check hold too. */
  predicate ClosingAgrees(line: string, trimmed: string, kind: LineKind, opener: Fence) {
    Closes(kind, opener) && MeetsClosingRules(line, trimmed, kind.fence.length)
  }

  /** A line closes a fence by section 4.5 exactly when it does for the code and the unchecked rules hold. */
  lemma ClosingAgreesExactly(line: string, opener: Fence)
    ensures ClosesByCommonMark(line, opener) <==> ClosingAgrees(line, TrimStart(line), Classify(line), opener)
  {
    if ClosesByCommonMark(line, opener) {
      var f, k, tail :| ClosesWith(line, opener, f, k, tail);
      ClosesWithCloses(line, opener, f, k, tail);
      ClassifiedBare(line, f);
    }
    if ClosingAgrees(line, TrimStart(line), Classify(line), opener) {
      var f := Classify(line).fence;
      ClassifiedRun(line, f);
      RunCloses(line, TrimStart(line), opener, f);
    }
  }

  lemma DeepNeverCloses(line: string, body: string, opener: Fence)
    requires |line| > |body| + 3 && TrimStart(line) == body
    ensures !ClosesByCommonMark(line, opener)
  {
    ClosingAgreesExactly(line, opener);
  }

  /** Four spaces of indentation: the code closes a fence where section 4.5 does not. */
  lemma DeepFenceCloses()
    ensures var line := Spaces(4) + seq(3, _ => '`');
            Closes(Classify(line), Fence('`', 3)) && !ClosesByCommonMark(line, Fence('`', 3))
  {
    var run := seq(3, _ => '`');
    var line := Spaces(4) + run;
    DeepRun(line, run);
    BlankIsBare(run, Fence('`', 3));
    ClassifiedBare(line, Fence('`', 3));
    DeepNeverCloses(line, run, Fence('`', 3));
  }

  // ---- What fenced blocks are ----

  /** The lines from an opening fence to its closing fence, or to the end of the document. */
  datatype Block = Block(first: nat, last: nat)

  ghost predicate NoCloser(lines: seq<LineKind>, fence: Fence, from: nat, to: nat)
    requires to <= |lines|
  {
    forall i | from <= i < to :: !Closes(lines[i], fence)
  }

  ghost predicate IsBlock(lines: seq<LineKind>, b: Block) {
    && b.first <= b.last < |lines|
    && lines[b.first].Run?
    && var fence := lines[b.first].fence;
    && NoCloser(lines, fence, b.first + 1, b.last)
    && (b.last == |lines| - 1 || (b.first < b.last && Closes(lines[b.last], fence)))
  }

  ghost predicate Covered(blocks: seq<Block>, i: int) {
    exists b | b in blocks :: b.first <= i <= b.last
  }

  ghost predicate Ordered(blocks: seq<Block>) {
    forall i, j | 0 <= i < j < |blocks| :: blocks[i].last < blocks[j].first
  }

  /** The blocks of a document: ordered, disjoint, and leaving no fence run outside. */
  ghost predicate IsFencing(lines: seq<LineKind>, blocks: seq<Block>) {
    && (forall b | b in blocks :: IsBlock(lines, b))
    && Ordered(blocks)
    && (forall i | 0 <= i < |lines| && lines[i].Run? :: Covered(blocks, i))
  }

  /** The mask holds exactly the lines of the blocks. */
  ghost predicate MaskOf(lines: seq<LineKind>, blocks: seq<Block>, mask: seq<bool>) {
    |mask| == |lines| && forall i | 0 <= i < |lines| :: mask[i] <==> Covered(blocks, i)
  }

  ghost predicate IsFenceMask(lines: seq<LineKind>, mask: seq<bool>) {
    exists blocks :: IsFencing(lines, blocks) && MaskOf(lines, blocks, mask)
  }

  // ---- A document has one set of blocks ----

  /** The next block starts at the first fence run after the blocks before it. */
  lemma NextStarts(lines: seq<LineKind>, bs: seq<Block>, bs': seq<Block>, k: nat)
    requires IsFencing(lines, bs) && IsFencing(lines, bs')
    requires k < |bs| && k <= |bs'| && bs[..k] == bs'[..k]
    ensures k < |bs'| && bs'[k].first <= bs[k].first
  {
    forall j | 0 <= j < k
      ensures bs'[j].last < bs[k].first
    {
      assert bs'[j] == bs'[..k][j] == bs[..k][j] == bs[j];
    }
    assert IsBlock(lines, bs[k]) && Covered(bs', bs[k].first);
    var b :| b in bs' && b.first <= bs[k].first <= b.last;
    var i :| 0 <= i < |bs'| && bs'[i] == b;
    if i > k {
      assert IsBlock(lines, bs'[k]) && bs'[k].last < b.first;
    }
  }

  lemma SameBlock(lines: seq<LineKind>, b: Block, b': Block)
    requires IsBlock(lines, b) && IsBlock(lines, b') && b.first == b'.first
    ensures b == b'
  {
  }

  lemma {:induction false} FencingUniqueFrom(lines: seq<LineKind>, bs: seq<Block>, bs': seq<Block>, k: nat)
    requires IsFencing(lines, bs) && IsFencing(lines, bs')
    requires k <= |bs| && k <= |bs'| && bs[..k] == bs'[..k]
    ensures bs == bs'
    decreases |bs| - k
  {
    if k < |bs| {
      NextStarts(lines, bs, bs', k);
      NextStarts(lines, bs', bs, k);
      SameBlock(lines, bs[k], bs'[k]);
      assert bs[..k + 1] == bs[..k] + [bs[k]] && bs'[..k + 1] == bs'[..k] + [bs'[k]];
      FencingUniqueFrom(lines, bs, bs', k + 1);
    } else if k < |bs'| {
      NextStarts(lines, bs', bs, k);
    }
  }

  lemma FencingUnique(lines: seq<LineKind>, bs: seq<Block>, bs': seq<Block>)
    requires IsFencing(lines, bs) && IsFencing(lines, bs')
    ensures bs == bs'
  {
    FencingUniqueFrom(lines, bs, bs', 0);
  }

  // ---- The mask of a prefix ----

  /** The blocks of the first `n` lines: the last one cut short. */
  function Truncate(blocks: seq<Block>, n: nat): seq<Block> {
    if blocks == [] || blocks[0].first >= n then []
    else
      var b := blocks[0];
      [Block(b.first, if b.last < n then b.last else n - 1)] + Truncate(blocks[1..], n)
  }

  lemma {:induction false} TruncatedFrom(blocks: seq<Block>, n: nat, i: nat)
    requires i < |Truncate(blocks, n)|
    ensures i < |blocks| && blocks[i].first < n
    ensures Truncate(blocks, n)[i] == Block(blocks[i].first, if blocks[i].last < n then blocks[i].last else n - 1)
  {
    if i > 0 {
      TruncatedFrom(blocks[1..], n, i - 1);
    }
  }

  lemma {:induction false} TruncatedCovers(blocks: seq<Block>, n: nat, i: int)
    requires Ordered(blocks) && (forall b | b in blocks :: b.first <= b.last) && i < n
    ensures Covered(Truncate(blocks, n), i) <==> Covered(blocks, i)
  {
    if blocks != [] {
      var head, rest := blocks[0], blocks[1..];
      TruncatedCovers(rest, n, i);
      assert blocks == [head] + rest;
      assert Covered(blocks, i) <==> head.first <= i <= head.last || Covered(rest, i);
      if head.first < n {
        var head' := Truncate(blocks, n)[0];
        assert Truncate(blocks, n) == [head'] + Truncate(rest, n);
        assert Covered([head'] + Truncate(rest, n), i) <==>
               head'.first <= i <= head'.last || Covered(Truncate(rest, n), i);
      } else {
        assert forall b | b in rest :: head.first < b.first;
      }
    }
  }

  lemma PrefixFencing(lines: seq<LineKind>, blocks: seq<Block>, n: nat)
    requires IsFencing(lines, blocks) && n <= |lines|
    ensures IsFencing(lines[..n], Truncate(blocks, n))
  {
    var cut := Truncate(blocks, n);
    forall i | 0 <= i < |cut|
      ensures IsBlock(lines[..n], cut[i])
    {
      TruncatedFrom(blocks, n, i);
      assert IsBlock(lines, blocks[i]);
    }
    forall i, j | 0 <= i < j < |cut|
      ensures cut[i].last < cut[j].first
    {
      TruncatedFrom(blocks, n, i);
      TruncatedFrom(blocks, n, j);
    }
    forall i | 0 <= i < n && lines[..n][i].Run?
      ensures Covered(cut, i)
    {
      assert lines[i].Run?;
      TruncatedCovers(blocks, n, i);
    }
  }

  /** The mask of a prefix of the document is the prefix of its mask; a document has one mask. */
  lemma PrefixMask(lines: seq<LineKind>, mask: seq<bool>, n: nat, mask': seq<bool>)
    requires n <= |lines| && IsFenceMask(lines, mask)
    ensures IsFenceMask(lines[..n], mask') <==> mask' == mask[..n]
  {
    var blocks :| IsFencing(lines, blocks) && MaskOf(lines, blocks, mask);
    PrefixFencing(lines, blocks, n);
    PrefixMaskOf(lines, blocks, mask, n);
    if IsFenceMask(lines[..n], mask') {
      var blocks' :| IsFencing(lines[..n], blocks') && MaskOf(lines[..n], blocks', mask');
      FencingUnique(lines[..n], blocks', Truncate(blocks, n));
    }
  }

  lemma PrefixMaskOf(lines: seq<LineKind>, blocks: seq<Block>, mask: seq<bool>, n: nat)
    requires n <= |lines| && IsFencing(lines, blocks) && MaskOf(lines, blocks, mask)
    ensures MaskOf(lines[..n], Truncate(blocks, n), mask[..n])
  {
    forall i | 0 <= i < n
      ensures mask[i] <==> Covered(Truncate(blocks, n), i)
    {
      TruncatedCovers(blocks, n, i);
    }
  }

  // ---- The scanner ----

  /** What the scan knows before line `i`: finished blocks, and an open one from line `first` on. */
  ghost predicate Scanned(lines: seq<LineKind>, i: nat, blocks: seq<Block>, open: Option<Fence>, first: nat) {
    && i <= |lines|
    && (forall b | b in blocks :: IsBlock(lines, b) && b.last < i) && Ordered(blocks)
    && (open.Some? ==>
          && first < i && lines[first].Run? && lines[first].fence == open.value
          && NoCloser(lines, open.value, first + 1, i)
          && forall b | b in blocks :: b.last < first)
    && (forall j | 0 <= j < i && lines[j].Run? :: Covered(blocks, j) || (open.Some? && first <= j))
  }

  lemma CoveredByOneMore(blocks: seq<Block>, b: Block)
    ensures forall i :: Covered(blocks + [b], i) <==> Covered(blocks, i) || b.first <= i <= b.last
  {
    assert b in blocks + [b];
    assert forall b' | b' in blocks :: b' in blocks + [b];
  }

  /** The open block, ended at line `last`, joins the finished ones. */
  lemma Finish(lines: seq<LineKind>, i: nat, blocks: seq<Block>, fence: Fence, first: nat, last: nat)
    requires Scanned(lines, i, blocks, Some(fence), first) && IsBlock(lines, Block(first, last))
    requires last <= i <= last + 1
    ensures Scanned(lines, last + 1, blocks + [Block(first, last)], None, first)
  {
    CoveredByOneMore(blocks, Block(first, last));
  }

  /** A block still open at the end of the document runs to its last line. */
  lemma DocumentEnds(lines: seq<LineKind>, blocks: seq<Block>, open: Option<Fence>, first: nat)
    returns (all: seq<Block>)
    requires Scanned(lines, |lines|, blocks, open, first)
    ensures IsFencing(lines, all)
    ensures forall j | 0 <= j < |lines| :: Covered(all, j) <==> Covered(blocks, j) || (open.Some? && first <= j)
  {
    all := blocks;
    if open.Some? {
      Finish(lines, |lines|, blocks, open.value, first, |lines| - 1);
      CoveredByOneMore(blocks, Block(first, |lines| - 1));
      all := blocks + [Block(first, |lines| - 1)];
    }
  }

  lemma Opens(lines: seq<LineKind>, i: nat, blocks: seq<Block>, first: nat)
    requires Scanned(lines, i, blocks, None, first) && i < |lines| && lines[i].Run?
    ensures Scanned(lines, i + 1, blocks, Some(lines[i].fence), i)
  {
  }

  lemma Continues(lines: seq<LineKind>, i: nat, blocks: seq<Block>, open: Option<Fence>, first: nat)
    requires Scanned(lines, i, blocks, open, first) && i < |lines|
    requires if open.Some? then !Closes(lines[i], open.value) else lines[i].Plain?
    ensures Scanned(lines, i + 1, blocks, open, first)
  {
  }

  /** The first `i` lines are masked by the finished blocks and the open one; later lines are not yet. */
  ghost predicate Masked(mask: array<bool>, i: nat, blocks: seq<Block>, open: Option<Fence>, first: nat)
    reads mask
  {
    && i <= mask.Length
    && (forall j | 0 <= j < i :: mask[j] <==> Covered(blocks, j) || (open.Some? && first <= j))
    && (forall j | i <= j < mask.Length :: !mask[j])
  }

  /** One line: updates the mask and the open fence. */
  method ScanLine(line: LineKind, i: nat, mask: array<bool>, open: Option<Fence>,
                  ghost lines: seq<LineKind>, ghost blocks: seq<Block>, ghost first: nat)
    returns (open': Option<Fence>, ghost blocks': seq<Block>, ghost first': nat)
    requires i < |lines| == mask.Length && lines[i] == line
    requires Scanned(lines, i, blocks, open, first) && Masked(mask, i, blocks, open, first)
    modifies mask
    ensures Scanned(lines, i + 1, blocks', open', first') && Masked(mask, i + 1, blocks', open', first')
  {
    open', blocks', first' := open, blocks, first;
    match (open, line) {
      case (None, Run(fence, _)) =>
        Opens(lines, i, blocks, first);
        open', first' := Some(fence), i;
        mask[i] := true;
      case (Some(opener), Run(_, _)) =>
        mask[i] := true;
        if Closes(line, opener) {
          Finish(lines, i, blocks, opener, first, i);
          CoveredByOneMore(blocks, Block(first, i));
          open', blocks' := None, blocks + [Block(first, i)];
        } else {
          Continues(lines, i, blocks, open, first);
        }
      case (Some(_), Plain) =>
        mask[i] := true;
        Continues(lines, i, blocks, open, first);
      case (None, Plain) =>
        Continues(lines, i, blocks, open, first);
    }
  }

  method FenceMaskOf(lines: seq<string>) returns (mask: array<bool>)
    ensures fresh(mask) && IsFenceMask(Kinds(lines), mask[..])
  {
    ghost var kinds := Kinds(lines);
    mask := new bool[|lines|](_ => false);
    var open: Option<Fence> := None;
    ghost var first: nat, blocks: seq<Block> := 0, [];
    for i := 0 to |lines|
      invariant mask.Length == |lines|
      invariant Scanned(kinds, i, blocks, open, first) && Masked(mask, i, blocks, open, first)
    {
      open, blocks, first := ScanLine(Classify(lines[i]), i, mask, open, kinds, blocks, first);
    }
    blocks := DocumentEnds(kinds, blocks, open, first);
    assert MaskOf(kinds, blocks, mask[..]);
  }
}
