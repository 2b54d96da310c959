/** Inline code spans of a line: matched backtick runs, and blanking what they enclose. */
module CodeSpans {
  import opened Bytes
  import opened Wrappers

  type Line = seq<byte>

  // ---- What code spans are ----

  /** `[from, to)` is a maximal run of backticks. */
  ghost predicate IsRun(line: Line, from: int, to: int) {
    && 0 <= from < to <= |line|
    && (forall i | from <= i < to :: line[i] == BACKTICK)
    && (from > 0 ==> line[from - 1] != BACKTICK)
    && (to < |line| ==> line[to] != BACKTICK)
  }

  /** An opening run `[open, start)` and the run `[end, close)` that closes it. */
  datatype Match = Match(open: nat, start: nat, end: nat, close: nat)

  /** A run is closed by the next run of exactly its length. */
  ghost predicate IsMatch(line: Line, m: Match) {
    && IsRun(line, m.open, m.start) && IsRun(line, m.end, m.close)
    && m.start <= m.end && m.close - m.end == m.start - m.open
    && (forall p, q | m.start <= p && q <= m.end && IsRun(line, p, q) :: q - p != m.start - m.open)
  }

  ghost predicate Outside(matches: seq<Match>, from: int, to: int) {
    forall m | m in matches :: to <= m.open || m.close <= from
  }

  /** No run of the same length follows. */
  ghost predicate Unclosed(line: Line, from: int, to: int) {
    forall p, q | to <= p && IsRun(line, p, q) :: q - p != to - from
  }

  ghost predicate Ordered(matches: seq<Match>) {
    forall i, j | 0 <= i < j < |matches| :: matches[i].close <= matches[j].open
  }

  /** The matches of a line: ordered, disjoint, and leaving out only runs that nothing closes. */
  ghost predicate IsMatching(line: Line, matches: seq<Match>) {
    && (forall m | m in matches :: IsMatch(line, m))
    && Ordered(matches)
    && (forall p, q | IsRun(line, p, q) && Outside(matches, p, q) :: Unclosed(line, p, q))
  }

  type Span = (nat, nat)

  /** The code content of the matches, delimiters excluded. */
  function Contents(matches: seq<Match>): (spans: seq<Span>)
    ensures |spans| == |matches|
    ensures forall i | 0 <= i < |spans| :: spans[i] == (matches[i].start, matches[i].end)
  {
    seq(|matches|, i requires 0 <= i < |matches| => (matches[i].start, matches[i].end))
  }

  /** The spans are the contents of a matching of the line. */
  ghost predicate IsCodeSpans(line: Line, spans: seq<Span>) {
    exists matches :: IsMatching(line, matches) && spans == Contents(matches)
  }

  // ---- A line has one matching ----

  lemma RunsDisjoint(line: Line, p: int, q: int, p': int, q': int)
    requires IsRun(line, p, q) && IsRun(line, p', q')
    ensures (p == p' && q == q') || q < p' || q' < p
  {
    assert p > 0 ==> line[p - 1] != BACKTICK;
    assert p' > 0 ==> line[p' - 1] != BACKTICK;
    assert q < |line| ==> line[q] != BACKTICK;
    assert q' < |line| ==> line[q'] != BACKTICK;
  }

  /** A run that something closes is an opening run, unless an earlier match covers it. */
  lemma MustOpen(line: Line, ms: seq<Match>, k: nat, m: Match)
    requires IsMatching(line, ms) && IsMatch(line, m) && k <= |ms|
    requires forall i | 0 <= i < k :: ms[i].close <= m.open
    ensures k < |ms| && ms[k].open <= m.open
  {
    if k == |ms| || m.open < ms[k].open {
      NotCovered(line, ms, k, m.open, m.start);
    }
  }

  lemma NotCovered(line: Line, ms: seq<Match>, k: nat, from: int, to: int)
    requires (forall m | m in ms :: IsMatch(line, m)) && Ordered(ms) && IsRun(line, from, to) && k <= |ms|
    requires forall i | 0 <= i < k :: ms[i].close <= from
    requires k < |ms| ==> from < ms[k].open
    ensures Outside(ms, from, to)
  {
    forall m | m in ms
      ensures to <= m.open || m.close <= from
    {
      var i :| 0 <= i < |ms| && ms[i] == m;
      if i >= k {
        assert IsMatch(line, ms[k]) && (i > k ==> ms[k].close <= ms[i].open);
        RunsDisjoint(line, from, to, m.open, m.start);
      }
    }
  }

  /** Two matchings that agree on `k` matches agree on the next opening run as well. */
  lemma NextOpens(line: Line, ms: seq<Match>, ms': seq<Match>, k: nat)
    requires IsMatching(line, ms) && IsMatching(line, ms')
    requires k < |ms| && k <= |ms'| && ms[..k] == ms'[..k]
    ensures k < |ms'| && ms'[k].open <= ms[k].open
  {
    forall i | 0 <= i < k
      ensures ms'[i].close <= ms[k].open
    {
      assert ms'[i] == ms'[..k][i] == ms[..k][i] == ms[i];
    }
    MustOpen(line, ms', k, ms[k]);
  }

  lemma SameMatch(line: Line, m: Match, m': Match)
    requires IsMatch(line, m) && IsMatch(line, m') && m.open == m'.open
    ensures m == m'
  {
    RunsDisjoint(line, m.open, m.start, m'.open, m'.start);
    RunsDisjoint(line, m.end, m.close, m'.end, m'.close);
  }

  lemma {:induction false} MatchingUniqueFrom(line: Line, ms: seq<Match>, ms': seq<Match>, k: nat)
    requires IsMatching(line, ms) && IsMatching(line, ms')
    requires k <= |ms| && k <= |ms'| && ms[..k] == ms'[..k]
    ensures ms == ms'
    decreases |ms| - k
  {
    if k < |ms| {
      NextOpens(line, ms, ms', k);
      NextOpens(line, ms', ms, k);
      SameMatch(line, ms[k], ms'[k]);
      assert ms[..k + 1] == ms[..k] + [ms[k]] && ms'[..k + 1] == ms'[..k] + [ms'[k]];
      MatchingUniqueFrom(line, ms, ms', k + 1);
    } else if k < |ms'| {
      NextOpens(line, ms', ms, k);
    }
  }

  lemma MatchingUnique(line: Line, ms: seq<Match>, ms': seq<Match>)
    requires IsMatching(line, ms) && IsMatching(line, ms')
    ensures ms == ms'
  {
    MatchingUniqueFrom(line, ms, ms', 0);
  }

  /** A line has one list of code spans. */
  lemma CodeSpansUnique(line: Line, spans: seq<Span>, spans': seq<Span>)
    requires IsCodeSpans(line, spans) && IsCodeSpans(line, spans')
    ensures spans == spans'
  {
    var ms :| IsMatching(line, ms) && spans == Contents(ms);
    var ms' :| IsMatching(line, ms') && spans' == Contents(ms');
    MatchingUnique(line, ms, ms');
  }

  // ---- The scanner ----

  /** The position `i` does not fall inside a run. */
  ghost predicate Boundary(line: Line, i: nat) {
    i <= |line| && !(0 < i < |line| && line[i - 1] == BACKTICK && line[i] == BACKTICK)
  }

  /** The end of the run that starts at `from`. */
  method SkipRun(line: Line, from: nat) returns (to: nat)
    requires from < |line| && line[from] == BACKTICK && Boundary(line, from)
    ensures IsRun(line, from, to) && Boundary(line, to)
  {
    to := from;
    while to < |line| && line[to] == BACKTICK
      invariant from <= to <= |line|
      invariant forall i | from <= i < to :: line[i] == BACKTICK
    {
      to := to + 1;
    }
  }

  /** The first run of exactly `length` backticks at or after `from`. */
  method FindCloser(line: Line, from: nat, length: nat) returns (closed: Option<Span>)
    requires Boundary(line, from)
    ensures closed.None? ==> forall p, q | from <= p && IsRun(line, p, q) :: q - p != length
    ensures closed.Some? ==>
              var (s, e) := closed.value;
              && from <= s && IsRun(line, s, e) && e - s == length
              && forall p, q | from <= p && q <= s && IsRun(line, p, q) :: q - p != length
  {
    var j := from;
    while j < |line|
      invariant from <= j && Boundary(line, j)
      invariant forall p, q | from <= p < j && IsRun(line, p, q) :: q <= j && q - p != length
    {
      if line[j] == BACKTICK {
        var k := SkipRun(line, j);
        forall p, q | from <= p < k && IsRun(line, p, q)
          ensures (p == j && q == k) || q <= j
        {
          RunsDisjoint(line, j, k, p, q);
        }
        if k - j == length {
          return Some((j, k));
        }
        j := k;
      } else {
        j := j + 1;
      }
    }
    closed := None;
  }

  /** What the scan has settled before `i`. */
  ghost predicate Settled(line: Line, matches: seq<Match>, i: nat) {
    && Boundary(line, i)
    && (forall m | m in matches :: IsMatch(line, m) && m.close <= i)
    && Ordered(matches)
    && (forall p, q | IsRun(line, p, q) && q <= i && Outside(matches, p, q) :: Unclosed(line, p, q))
  }

  lemma SettleClosed(line: Line, matches: seq<Match>, m: Match)
    requires Settled(line, matches, m.open) && IsMatch(line, m)
    ensures Settled(line, matches + [m], m.close)
  {
    forall p, q | IsRun(line, p, q) && q <= m.close && Outside(matches + [m], p, q)
      ensures Unclosed(line, p, q)
    {
      assert m in matches + [m];
      assert forall m' | m' in matches :: m' in matches + [m];
    }
  }

  lemma SettleUnclosed(line: Line, matches: seq<Match>, from: nat, to: nat)
    requires Settled(line, matches, from) && IsRun(line, from, to) && Unclosed(line, from, to)
    ensures Settled(line, matches, to)
  {
    forall p, q | IsRun(line, p, q) && q <= to && Outside(matches, p, q)
      ensures Unclosed(line, p, q)
    {
      RunsDisjoint(line, from, to, p, q);
    }
  }

  lemma SettlePlain(line: Line, matches: seq<Match>, i: nat)
    requires Settled(line, matches, i) && i < |line| && line[i] != BACKTICK
    ensures Settled(line, matches, i + 1)
  {
    forall p, q | IsRun(line, p, q) && q <= i + 1
      ensures q <= i
    {
      assert line[q - 1] == BACKTICK;
    }
  }

  method CodeSpansOf(line: Line) returns (spans: seq<Span>)
    ensures IsCodeSpans(line, spans)
  {
    spans := [];
    ghost var matches: seq<Match> := [];
    var i := 0;
    while i < |line|
      invariant Settled(line, matches, i) && spans == Contents(matches)
    {
      if line[i] == BACKTICK {
        var contentStart := SkipRun(line, i);
        var closed := FindCloser(line, contentStart, contentStart - i);
        match closed {
          case Some((closeStart, closeEnd)) =>
            SettleClosed(line, matches, Match(i, contentStart, closeStart, closeEnd));
            spans := spans + [(contentStart, closeStart)];
            matches := matches + [Match(i, contentStart, closeStart, closeEnd)];
            i := closeEnd;
          case None =>
            SettleUnclosed(line, matches, i, contentStart);
            i := contentStart;
        }
      } else {
        SettlePlain(line, matches, i);
        i := i + 1;
      }
    }
    assert IsMatching(line, matches);
  }

  // ---- Blanking ----

  ghost predicate InContent(matches: seq<Match>, i: int) {
    exists m | m in matches :: m.start <= i < m.end
  }

  /** `scrubbed` is `line` with every content byte blanked, except ASCII whitespace. */
  ghost predicate IsScrubbed(line: Line, matches: seq<Match>, scrubbed: Line) {
    && |scrubbed| == |line|
    && forall i | 0 <= i < |line| ::
         scrubbed[i] == if InContent(matches, i) && !IsAsciiWhitespace(line[i]) then SPACE else line[i]
  }

  /** The content between two runs neither starts nor ends with a backtick. */
  lemma MatchEdges(line: Line, m: Match)
    requires IsMatch(line, m) && m.start < m.end
    ensures m.end <= |line| && line[m.start] != BACKTICK && line[m.end - 1] != BACKTICK
  {
  }

  /** Where a content begins and where it stops there is no backtick. */
  lemma ContentEdges(line: Line, ms: seq<Match>, m: Match, i: int)
    requires m in ms && m.start <= i < m.end && IsMatch(line, m)
    ensures 0 <= i < |line|
    ensures InContent(ms, i - 1) || line[i] != BACKTICK
    ensures InContent(ms, i + 1) || line[i] != BACKTICK
  {
    MatchEdges(line, m);
    assert i > m.start ==> InContent(ms, i - 1);
    assert i + 1 < m.end ==> InContent(ms, i + 1);
  }

  /** The runs that blanking leaves are runs of the line outside every content. */
  lemma ScrubbedRun(line: Line, ms: seq<Match>, scrubbed: Line, p: int, q: int)
    requires IsMatching(line, ms) && IsScrubbed(line, ms, scrubbed) && IsRun(scrubbed, p, q)
    ensures IsRun(line, p, q)
    ensures forall i | p <= i < q :: !InContent(ms, i)
  {
    forall i | p <= i < q
      ensures line[i] == BACKTICK && !InContent(ms, i)
    {
      assert scrubbed[i] == BACKTICK;
    }
    if p > 0 && InContent(ms, p - 1) {
      var m :| m in ms && m.start <= p - 1 < m.end;
      ContentEdges(line, ms, m, p - 1);
    }
    if q < |line| && InContent(ms, q) {
      var m :| m in ms && m.start <= q < m.end;
      ContentEdges(line, ms, m, q);
      assert !InContent(ms, q - 1);
    }
  }

  /** The delimiters survive. */
  lemma DelimiterRun(line: Line, ms: seq<Match>, scrubbed: Line, p: int, q: int)
    requires IsMatching(line, ms) && IsScrubbed(line, ms, scrubbed) && IsRun(line, p, q)
    requires forall i | p <= i < q :: !InContent(ms, i)
    ensures IsRun(scrubbed, p, q)
  {
  }

  lemma DelimitersOutside(line: Line, ms: seq<Match>, m: Match, i: nat)
    requires IsMatching(line, ms) && m in ms
    requires m.open <= i < m.start || m.end <= i < m.close
    ensures !InContent(ms, i)
  {
    forall m' | m' in ms
      ensures !(m'.start <= i < m'.end)
    {
      var j :| 0 <= j < |ms| && ms[j] == m;
      var j' :| 0 <= j' < |ms| && ms[j'] == m';
      assert IsMatch(line, m) && IsMatch(line, m');
      assert j < j' ==> m.close <= m'.open;
      assert j' < j ==> m'.close <= m.open;
    }
  }

  /** A blanked line has the same matches. */
  lemma ScrubbedMatching(line: Line, ms: seq<Match>, scrubbed: Line)
    requires IsMatching(line, ms) && IsScrubbed(line, ms, scrubbed)
    ensures IsMatching(scrubbed, ms)
  {
    forall m | m in ms
      ensures IsMatch(scrubbed, m)
    {
      ScrubbedMatch(line, ms, scrubbed, m);
    }
    forall p, q | IsRun(scrubbed, p, q) && Outside(ms, p, q)
      ensures Unclosed(scrubbed, p, q)
    {
      ScrubbedRun(line, ms, scrubbed, p, q);
      forall p', q' | q <= p' && IsRun(scrubbed, p', q')
        ensures q' - p' != q - p
      {
        ScrubbedRun(line, ms, scrubbed, p', q');
      }
    }
  }

  lemma ScrubbedMatch(line: Line, ms: seq<Match>, scrubbed: Line, m: Match)
    requires IsMatching(line, ms) && IsScrubbed(line, ms, scrubbed) && m in ms
    ensures IsMatch(scrubbed, m)
  {
    forall i | m.open <= i < m.start || m.end <= i < m.close
      ensures !InContent(ms, i)
    {
      DelimitersOutside(line, ms, m, i);
    }
    DelimiterRun(line, ms, scrubbed, m.open, m.start);
    DelimiterRun(line, ms, scrubbed, m.end, m.close);
    NoneBetween(line, ms, scrubbed, m);
  }

  lemma NoneBetween(line: Line, ms: seq<Match>, scrubbed: Line, m: Match)
    requires IsMatching(line, ms) && IsScrubbed(line, ms, scrubbed) && m in ms
    ensures forall p, q | m.start <= p && q <= m.end && IsRun(scrubbed, p, q) :: q - p != m.start - m.open
  {
    forall p, q | m.start <= p && q <= m.end && IsRun(scrubbed, p, q)
      ensures q - p != m.start - m.open
    {
      ScrubbedRun(line, ms, scrubbed, p, q);
    }
  }

  /** `scrubbed` is `line` with the contents of its code spans blanked. */
  ghost predicate IsScrubOf(line: Line, scrubbed: Line) {
    exists matches :: IsMatching(line, matches) && IsScrubbed(line, matches, scrubbed)
  }

  /** A blanked line has the code spans of the line. */
  lemma ScrubKeepsSpans(line: Line, scrubbed: Line, spans: seq<Span>)
    requires IsScrubOf(line, scrubbed)
    ensures IsCodeSpans(scrubbed, spans) <==> IsCodeSpans(line, spans)
  {
    var ms :| IsMatching(line, ms) && IsScrubbed(line, ms, scrubbed);
    ScrubbedMatching(line, ms, scrubbed);
    assert IsCodeSpans(line, Contents(ms)) && IsCodeSpans(scrubbed, Contents(ms));
    if IsCodeSpans(scrubbed, spans) {
      CodeSpansUnique(scrubbed, spans, Contents(ms));
    }
    if IsCodeSpans(line, spans) {
      CodeSpansUnique(line, spans, Contents(ms));
    }
  }

  /** Blanking a blanked line changes nothing. */
  lemma ScrubIdempotent(line: Line, scrubbed: Line, again: Line)
    requires IsScrubOf(line, scrubbed) && IsScrubOf(scrubbed, again)
    ensures again == scrubbed
  {
    var ms :| IsMatching(line, ms) && IsScrubbed(line, ms, scrubbed);
    var ms' :| IsMatching(scrubbed, ms') && IsScrubbed(scrubbed, ms', again);
    ScrubbedMatching(line, ms, scrubbed);
    MatchingUnique(scrubbed, ms, ms');
    SameScrub(line, ms, scrubbed, again);
  }

  lemma SameScrub(line: Line, ms: seq<Match>, scrubbed: Line, again: Line)
    requires IsScrubbed(line, ms, scrubbed) && IsScrubbed(scrubbed, ms, again)
    ensures again == scrubbed
  {
  }

  /** Overwrites the span contents in a copy of the line. */
  method ScrubCodeSpans(line: Line) returns (scrubbed: Line)
    ensures IsScrubOf(line, scrubbed)
  {
    var spans := CodeSpansOf(line);
    ghost var matches :| IsMatching(line, matches) && spans == Contents(matches);
    if |spans| == 0 {
      assert IsScrubbed(line, matches, line);
      return line;
    }
    var bytes := new byte[|line|](i requires 0 <= i < |line| => line[i]);
    assert bytes[..] == line;
    for k := 0 to |spans|
      invariant IsScrubbed(line, matches[..k], bytes[..])
    {
      assert matches[k] in matches;
      BlankSpan(line, matches, k, bytes, spans[k]);
    }
    assert matches[..|spans|] == matches;
    scrubbed := bytes[..];
  }

  method BlankSpan(line: Line, ghost matches: seq<Match>, ghost k: nat, bytes: array<byte>, span: Span)
    requires k < |matches| && span == (matches[k].start, matches[k].end) && span.0 <= span.1 <= |line|
    requires IsScrubbed(line, matches[..k], bytes[..])
    modifies bytes
    ensures IsScrubbed(line, matches[..k + 1], bytes[..])
  {
    for i := span.0 to span.1
      invariant bytes.Length == |line|
      invariant forall j | 0 <= j < |line| ::
          bytes[j] == if span.0 <= j < i && !IsAsciiWhitespace(old(bytes[j])) then SPACE else old(bytes[j])
    {
      if !IsAsciiWhitespace(bytes[i]) {
        bytes[i] := SPACE;
      }
    }
    forall i: nat | i < |line|
      ensures InContent(matches[..k + 1], i) <==> InContent(matches[..k], i) || span.0 <= i < span.1
    {
      assert matches[..k + 1] == matches[..k] + [matches[k]];
      assert matches[k] in matches[..k + 1];
      assert forall m | m in matches[..k] :: m in matches[..k + 1];
    }
  }
}
