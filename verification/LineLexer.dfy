/**
 * The lightweight Rust lexer of the network scan: what is left of a line once comments, strings
 * and char literals are dropped, with block-comment nesting carried from line to line.
 */
module LineLexer {
  import opened Bytes
  import opened Wrappers

  type Line = seq<byte>

  // ---- The mode machine ----

  /** Where the machine is before it reads a byte. */
  datatype Mode =
    | Code
    | LineComment
    | BlockComment(depth: nat)
    | Str
    | RawStr(hashes: nat)
    | CharLiteral
    | InToken(left: nat, next: Mode)  // `left` more bytes belong to the token being read

  /** Code, or the inside of `depth` nested block comments. */
  function Nested(depth: nat): Mode {
    if depth == 0 then Code else BlockComment(depth)
  }

  function After(left: nat, next: Mode): Mode {
    if left == 0 then next else InToken(left, next)
  }

  predicate At(line: Line, i: nat, b: byte) {
    i < |line| && line[i] == b
  }

  function Hashes(line: Line, i: nat): (n: nat)
    ensures n == 0 || i + n <= |line|
    ensures forall k | i <= k < i + n :: line[k] == HASH
    ensures !At(line, i + n, HASH)
    decreases |line| - i
  {
    if At(line, i, HASH) then 1 + Hashes(line, i + 1) else 0
  }

  /** From `i` on: `r`, any number of hashes, a quote. */
  predicate RawOpens(line: Line, i: nat) {
    At(line, i, LOWER_R) && At(line, i + 1 + Hashes(line, i + 1), QUOTE)
  }

  /** From `i` on: a quote and at least `hashes` hashes. */
  predicate RawCloses(line: Line, i: nat, hashes: nat) {
    At(line, i, QUOTE) && hashes <= Hashes(line, i + 1)
  }

  /** A closing tick at or after `i`. */
  predicate TickFollows(line: Line, i: nat) {
    exists j | i <= j < |line| :: line[j] == TICK
  }

  /** The mode after the byte at `i`, which is read in mode `mode`. */
  function Step(line: Line, i: nat, mode: Mode): Mode
    requires i < |line|
  {
    match mode
    case InToken(left, next) => if left <= 1 then next else InToken(left - 1, next)
    case LineComment => LineComment
    case BlockComment(depth) =>
      if At(line, i, SLASH) && At(line, i + 1, STAR) then InToken(1, BlockComment(depth + 1))
      else if At(line, i, STAR) && At(line, i + 1, SLASH) then InToken(1, Nested(if depth == 0 then 0 else depth - 1))
      else mode
    case Str =>
      if At(line, i, BACKSLASH) then InToken(1, Str) else if At(line, i, QUOTE) then Code else Str
    case RawStr(hashes) => if RawCloses(line, i, hashes) then After(hashes, Code) else mode
    case CharLiteral => if At(line, i, TICK) then Code else CharLiteral
    case Code => Opened(line, i)
  }

  /** The mode after a byte of code: the token it opens, if any. */
  function Opened(line: Line, i: nat): Mode
    requires i < |line|
  {
    if At(line, i, SLASH) && At(line, i + 1, SLASH) then LineComment
    else if At(line, i, SLASH) && At(line, i + 1, STAR) then InToken(1, BlockComment(1))
    else if RawOpens(line, i) then InToken(Hashes(line, i + 1) + 1, RawStr(Hashes(line, i + 1)))
    else if At(line, i, LOWER_B) && RawOpens(line, i + 1) then
      InToken(Hashes(line, i + 2) + 2, RawStr(Hashes(line, i + 2)))
    else if At(line, i, QUOTE) then Str
    else if At(line, i, LOWER_B) && At(line, i + 1, QUOTE) then InToken(1, Str)
    else if At(line, i, TICK) && At(line, i + 1, BACKSLASH) && TickFollows(line, i + 3) then InToken(2, CharLiteral)
    else if At(line, i, TICK) && i + 1 < |line| && line[i + 1] != BACKSLASH && At(line, i + 2, TICK) then
      InToken(2, Code)
    else Code
  }

  /** A byte is kept when it is read as code and opens no token; lifetime ticks are kept. */
  predicate Kept(line: Line, i: nat, mode: Mode)
    requires i < |line|
  {
    mode == Code && Opened(line, i) == Code && IsAscii(line[i])
  }

  function DepthAtEnd(mode: Mode): nat {
    if mode.BlockComment? then mode.depth else 0
  }

  /** The kept bytes from `i` on, and the comment depth at the end of the line. */
  function Run(line: Line, i: nat, mode: Mode): (Line, nat)
    requires i <= |line|
    decreases |line| - i
  {
    if i == |line| then ([], DepthAtEnd(mode))
    else
      var (rest, depth) := Run(line, i + 1, Step(line, i, mode));
      (if Kept(line, i, mode) then [line[i]] + rest else rest, depth)
  }

  /** The code of a line that starts inside `depth` nested block comments. */
  function CodeOf(line: Line, depth: nat): (Line, nat) {
    Run(line, 0, Nested(depth))
  }

  // ---- What the machine drops ----

  lemma {:induction false} TokenRead(line: Line, i: nat, left: nat, next: Mode)
    requires i + left <= |line|
    ensures Run(line, i, After(left, next)) == Run(line, i + left, next)
    decreases left
  {
    if left > 0 {
      TokenRead(line, i + 1, left - 1, next);
    }
  }

  lemma {:induction false} CommentToEnd(line: Line, i: nat)
    requires i <= |line|
    ensures Run(line, i, LineComment) == ([], 0)
    decreases |line| - i
  {
    if i < |line| {
      CommentToEnd(line, i + 1);
    }
  }

  lemma EscapeRead(line: Line, i: nat)
    requires At(line, i, BACKSLASH) && i + 1 < |line|
    ensures Run(line, i, Str) == Run(line, i + 2, Str)
  {
    TokenRead(line, i + 1, 1, Str);
  }

  /** From `i` to `close`: bytes that are neither quotes nor backslashes, and backslashes with any byte behind them. */
  predicate StringBody(line: Line, i: nat, close: nat)
    decreases close - i
  {
    if i >= close then i == close
    else if close > |line| then false
    else if line[i] == BACKSLASH then StringBody(line, i + 2, close)
    else line[i] != QUOTE && StringBody(line, i + 1, close)
  }

  /** A string literal with any escapes is dropped up to its closing quote, and only up to it. */
  lemma {:induction false} EscapedStringDropped(line: Line, i: nat, close: nat)
    requires StringBody(line, i, close) && At(line, close, QUOTE)
    ensures Run(line, i, Str) == Run(line, close + 1, Code)
    decreases close - i
  {
    if i < close {
      if line[i] == BACKSLASH {
        EscapeRead(line, i);
        EscapedStringDropped(line, i + 2, close);
      } else {
        EscapedStringDropped(line, i + 1, close);
      }
    }
  }

  /** What a comment holds: single bytes, and whole comments. */
  datatype CommentBody =
    | End
    | Byte(rest: CommentBody)
    | Inner(inner: CommentBody, rest: CommentBody)

  function Length(body: CommentBody): nat {
    match body
    case End => 0
    case Byte(rest) => 1 + Length(rest)
    case Inner(inner, rest) => 4 + Length(inner) + Length(rest)
  }

  predicate OpenerAt(line: Line, i: nat) {
    At(line, i, SLASH) && At(line, i + 1, STAR)
  }

  predicate CloserAt(line: Line, i: nat) {
    At(line, i, STAR) && At(line, i + 1, SLASH)
  }

  /** The line holds the body from `i` on: no single byte of it starts a delimiter. */
  predicate BodyAt(line: Line, i: nat, body: CommentBody)
    decreases body, 0
  {
    match body
    case End => i <= |line|
    case Byte(rest) => i < |line| && !OpenerAt(line, i) && !CloserAt(line, i) && BodyAt(line, i + 1, rest)
    case Inner(inner, rest) => CommentAt(line, i, inner) && BodyAt(line, i + 4 + Length(inner), rest)
  }

  /** The line holds a comment with that body from `i` on. */
  predicate CommentAt(line: Line, i: nat, body: CommentBody)
    decreases body, 1
  {
    OpenerAt(line, i) && BodyAt(line, i + 2, body) && CloserAt(line, i + 2 + Length(body))
  }

  lemma OpenerRead(line: Line, i: nat, depth: nat)
    requires OpenerAt(line, i)
    ensures Run(line, i, Nested(depth)) == Run(line, i + 2, Nested(depth + 1))
  {
    TokenRead(line, i + 1, 1, BlockComment(depth + 1));
  }

  lemma CloserRead(line: Line, i: nat, depth: nat)
    requires CloserAt(line, i)
    ensures Run(line, i, Nested(depth + 1)) == Run(line, i + 2, Nested(depth))
  {
    TokenRead(line, i + 1, 1, Nested(depth));
  }

  lemma CommentByteRead(line: Line, i: nat, depth: nat)
    requires i < |line| && !OpenerAt(line, i) && !CloserAt(line, i) && depth > 0
    ensures Run(line, i, Nested(depth)) == Run(line, i + 1, Nested(depth))
  {
  }

  /** The inside of a comment is dropped whole, whatever comments nest in it. */
  lemma {:induction false} BodyDropped(line: Line, i: nat, body: CommentBody, depth: nat)
    requires depth > 0 && BodyAt(line, i, body)
    ensures i + Length(body) <= |line|
    ensures Run(line, i, Nested(depth)) == Run(line, i + Length(body), Nested(depth))
    decreases body, 0
  {
    assert Nested(depth) == BlockComment(depth);
    match body {
      case End =>
      case Byte(rest) =>
        CommentByteRead(line, i, depth);
        BodyDropped(line, i + 1, rest, depth);
      case Inner(inner, rest) =>
        CommentDropped(line, i, inner, depth);
        BodyDropped(line, i + 4 + Length(inner), rest, depth);
    }
  }

  /** A comment, comments nested in it included, is dropped from its opener to its own close, at any nesting. */
  lemma {:induction false} CommentDropped(line: Line, i: nat, body: CommentBody, depth: nat)
    requires CommentAt(line, i, body)
    ensures i + 4 + Length(body) <= |line|
    ensures Run(line, i, Nested(depth)) == Run(line, i + 4 + Length(body), Nested(depth))
    decreases body, 1
  {
    OpenerRead(line, i, depth);
    BodyDropped(line, i + 2, body, depth + 1);
    CloserRead(line, i + 2 + Length(body), depth);
  }

  lemma RawByteRead(line: Line, i: nat, hashes: nat)
    requires i < |line|
    ensures Run(line, i, RawStr(hashes)) ==
            Run(line, i + 1, if RawCloses(line, i, hashes) then After(hashes, Code) else RawStr(hashes))
  {
  }

  /** A raw string is dropped up to the first quote that enough hashes follow. */
  lemma {:induction false} RawStringDropped(line: Line, i: nat, close: nat, hashes: nat)
    requires i <= close && RawCloses(line, close, hashes)
    requires forall k: nat | i <= k < close :: !RawCloses(line, k, hashes)
    ensures close + 1 + hashes <= |line|
    ensures Run(line, i, RawStr(hashes)) == Run(line, close + 1 + hashes, Code)
    decreases close - i
  {
    RawByteRead(line, i, hashes);
    if i < close {
      RawStringDropped(line, i + 1, close, hashes);
    } else {
      TokenRead(line, i + 1, hashes, Code);
    }
  }

  /** A line without quotes, ticks, slashes or non-ASCII bytes is all code. */
  lemma {:induction false} PlainLineKept(line: Line, i: nat)
    requires i <= |line|
    requires forall k | i <= k < |line| ::
               line[k] != QUOTE && line[k] != TICK && line[k] != SLASH && IsAscii(line[k])
    ensures Run(line, i, Code) == (line[i..], 0)
    decreases |line| - i
  {
    if i < |line| {
      PlainLineKept(line, i + 1);
      assert line[i..] == [line[i]] + line[i + 1..];
    }
  }

  // ---- Every token, from code on ----

  /** A string literal is dropped, from its opening quote to the closing one. */
  lemma StringLiteralDropped(line: Line, i: nat, close: nat)
    requires At(line, i, QUOTE) && StringBody(line, i + 1, close) && At(line, close, QUOTE)
    ensures Run(line, i, Code) == Run(line, close + 1, Code)
  {
    EscapedStringDropped(line, i + 1, close);
  }

  /** The same behind a `b`. */
  lemma ByteStringDropped(line: Line, i: nat, close: nat)
    requires At(line, i, LOWER_B) && At(line, i + 1, QUOTE)
    requires StringBody(line, i + 2, close) && At(line, close, QUOTE)
    ensures Run(line, i, Code) == Run(line, close + 1, Code)
  {
    TokenRead(line, i + 1, 1, Str);
    EscapedStringDropped(line, i + 2, close);
  }

  /** A string literal without its closing quote is dropped to the end of the line. */
  lemma OpenStringDropped(line: Line, i: nat)
    requires At(line, i, QUOTE)
    requires forall close | i < close < |line| :: !(StringBody(line, i + 1, close) && line[close] == QUOTE)
    ensures Run(line, i, Code) == ([], 0)
  {
    NoQuoteToEnd(line, i + 1);
  }

  lemma {:induction false} NoQuoteToEnd(line: Line, i: nat)
    requires i <= |line|
    requires forall close | i <= close < |line| :: !(StringBody(line, i, close) && line[close] == QUOTE)
    ensures Run(line, i, Str) == ([], 0)
    decreases |line| - i
  {
    if i < |line| {
      assert StringBody(line, i, i);
      if line[i] == BACKSLASH {
        if i + 1 < |line| {
          EscapeRead(line, i);
          assert forall close | i + 2 <= close < |line| ::
                   StringBody(line, i + 2, close) ==> StringBody(line, i, close);
          NoQuoteToEnd(line, i + 2);
        }
      } else {
        assert forall close | i + 1 <= close < |line| :: StringBody(line, i + 1, close) ==> StringBody(line, i, close);
        NoQuoteToEnd(line, i + 1);
      }
    }
  }

  /** A quote and the given number of hashes behind it. */
  predicate QuoteAndHashes(line: Line, i: nat, hashes: nat) {
    At(line, i, QUOTE) && i + hashes < |line| && forall k | i < k <= i + hashes :: line[k] == HASH
  }

  /** The given number of hashes, and a quote behind them. */
  predicate HashesAndQuote(line: Line, i: nat, hashes: nat) {
    At(line, i + hashes, QUOTE) && forall k | i <= k < i + hashes :: line[k] == HASH
  }

  lemma {:induction false} HashesAre(line: Line, i: nat, n: nat)
    requires i + n <= |line| && (forall k | i <= k < i + n :: line[k] == HASH) && !At(line, i + n, HASH)
    ensures Hashes(line, i) == n
    decreases n
  {
    if n > 0 {
      HashesAre(line, i + 1, n - 1);
    }
  }

  lemma ClosesSpelledOut(line: Line, i: nat, hashes: nat)
    ensures RawCloses(line, i, hashes) <==> QuoteAndHashes(line, i, hashes)
  {
    if RawCloses(line, i, hashes) {
      assert forall k | i < k <= i + hashes :: line[k] == HASH;
    }
  }

  /** The first quote from `from` on that enough hashes follow. */
  predicate FirstClose(line: Line, from: nat, close: nat, hashes: nat) {
    from <= close && QuoteAndHashes(line, close, hashes)
    && forall k: nat | from <= k < close :: !QuoteAndHashes(line, k, hashes)
  }

  lemma RawInsideDropped(line: Line, from: nat, close: nat, hashes: nat)
    requires FirstClose(line, from, close, hashes)
    ensures close + 1 + hashes <= |line|
    ensures Run(line, from, RawStr(hashes)) == Run(line, close + 1 + hashes, Code)
  {
    forall k: nat | from <= k <= close
      ensures RawCloses(line, k, hashes) <==> QuoteAndHashes(line, k, hashes)
    {
      ClosesSpelledOut(line, k, hashes);
    }
    RawStringDropped(line, from, close, hashes);
  }

  /** A token is read from the byte that opens it to the end of its opener. */
  lemma OpenedRead(line: Line, i: nat, left: nat, next: Mode)
    requires i + 1 + left <= |line| && Opened(line, i) == After(left, next) && Opened(line, i) != Code
    ensures Run(line, i, Code) == Run(line, i + 1 + left, next)
  {
    TokenRead(line, i + 1, left, next);
  }

  lemma RawOpened(line: Line, i: nat, hashes: nat)
    requires At(line, i, LOWER_R) && HashesAndQuote(line, i + 1, hashes)
    ensures Opened(line, i) == InToken(hashes + 1, RawStr(hashes))
  {
    HashesAre(line, i + 1, hashes);
  }

  lemma ByteRawOpened(line: Line, i: nat, hashes: nat)
    requires At(line, i, LOWER_B) && At(line, i + 1, LOWER_R) && HashesAndQuote(line, i + 2, hashes)
    ensures Opened(line, i) == InToken(hashes + 2, RawStr(hashes))
  {
    HashesAre(line, i + 2, hashes);
  }

  /** A raw string is dropped, from its `r` to the first quote that as many hashes follow as it opened with. */
  lemma RawLiteralDropped(line: Line, i: nat, hashes: nat, close: nat)
    requires At(line, i, LOWER_R) && HashesAndQuote(line, i + 1, hashes)
    requires FirstClose(line, i + 2 + hashes, close, hashes)
    ensures close + 1 + hashes <= |line|
    ensures Run(line, i, Code) == Run(line, close + 1 + hashes, Code)
  {
    RawOpened(line, i, hashes);
    OpenedRead(line, i, hashes + 1, RawStr(hashes));
    RawInsideDropped(line, i + 2 + hashes, close, hashes);
  }

  /** The same behind a `b`. */
  lemma ByteRawLiteralDropped(line: Line, i: nat, hashes: nat, close: nat)
    requires At(line, i, LOWER_B) && At(line, i + 1, LOWER_R) && HashesAndQuote(line, i + 2, hashes)
    requires FirstClose(line, i + 3 + hashes, close, hashes)
    ensures close + 1 + hashes <= |line|
    ensures Run(line, i, Code) == Run(line, close + 1 + hashes, Code)
  {
    ByteRawOpened(line, i, hashes);
    OpenedRead(line, i, hashes + 2, RawStr(hashes));
    RawInsideDropped(line, i + 3 + hashes, close, hashes);
  }

  /** `'x'` is dropped. */
  lemma PlainCharDropped(line: Line, i: nat)
    requires At(line, i, TICK) && i + 1 < |line| && line[i + 1] != BACKSLASH && At(line, i + 2, TICK)
    ensures Run(line, i, Code) == Run(line, i + 3, Code)
  {
    TokenRead(line, i + 1, 2, Code);
  }

  /** A char literal with an escape is dropped up to the first tick behind the escaped byte. */
  lemma EscapedCharDropped(line: Line, i: nat, close: nat)
    requires At(line, i, TICK) && At(line, i + 1, BACKSLASH) && i + 3 <= close && At(line, close, TICK)
    requires forall k | i + 3 <= k < close :: line[k] != TICK
    ensures Run(line, i, Code) == Run(line, close + 1, Code)
  {
    TokenRead(line, i + 1, 2, CharLiteral);
    CharInsideDropped(line, i + 3, close);
  }

  lemma {:induction false} CharInsideDropped(line: Line, i: nat, close: nat)
    requires i <= close && At(line, close, TICK) && forall k | i <= k < close :: line[k] != TICK
    ensures Run(line, i, CharLiteral) == Run(line, close + 1, Code)
    decreases close - i
  {
    if i < close {
      CharInsideDropped(line, i + 1, close);
    }
  }

  /** The tick opens no char literal. */
  predicate IsLifetimeTick(line: Line, i: nat) {
    && At(line, i, TICK)
    && (if At(line, i + 1, BACKSLASH) then forall k | i + 3 <= k < |line| :: line[k] != TICK
        else !At(line, i + 2, TICK))
  }

  /** A lifetime's tick is kept. */
  lemma LifetimeTickKept(line: Line, i: nat)
    requires IsLifetimeTick(line, i)
    ensures Run(line, i, Code) == Prepend([TICK], Run(line, i + 1, Code))
  {
  }

  /** A line comment drops the rest of the line. */
  lemma LineCommentDropped(line: Line, i: nat)
    requires At(line, i, SLASH) && At(line, i + 1, SLASH)
    ensures Run(line, i, Code) == ([], 0)
  {
    CommentToEnd(line, i + 1);
  }

  /** A byte that can open nothing is kept if it is ASCII, and dropped otherwise. */
  lemma PlainByteRead(line: Line, i: nat)
    requires i < |line| && line[i] != QUOTE && line[i] != TICK && line[i] != SLASH
    requires line[i] != LOWER_R && line[i] != LOWER_B
    ensures Run(line, i, Code) ==
            Prepend(if line[i] < 0x80 then [line[i]] else [], Run(line, i + 1, Code))
  {
    assert [] + Run(line, i + 1, Code).0 == Run(line, i + 1, Code).0;
  }

  /** At `i` stand no hashes that a quote follows, nor a quote. */
  ghost predicate NoQuoteBehindHashes(line: Line, i: nat) {
    forall hashes: nat :: !HashesAndQuote(line, i, hashes)
  }

  /** Nothing at `i` opens a raw string. */
  ghost predicate NoRawString(line: Line, i: nat) {
    At(line, i, LOWER_R) ==> NoQuoteBehindHashes(line, i + 1)
  }

  lemma NoRawStringOpens(line: Line, i: nat)
    requires NoRawString(line, i)
    ensures !RawOpens(line, i)
  {
    if RawOpens(line, i) {
      assert HashesAndQuote(line, i + 1, Hashes(line, i + 1));
    }
  }

  /** An `r` or a `b` that opens no string is kept, and so is a slash that opens no comment. */
  lemma PlainLetterRead(line: Line, i: nat)
    requires i < |line|
    requires (line[i] == LOWER_R && NoRawString(line, i))
             || (line[i] == LOWER_B && !At(line, i + 1, QUOTE) && NoRawString(line, i + 1))
             || (line[i] == SLASH && !At(line, i + 1, SLASH) && !At(line, i + 1, STAR))
    ensures Run(line, i, Code) == Prepend([line[i]], Run(line, i + 1, Code))
  {
    NoRawStringOpens(line, i);
    if line[i] == LOWER_B {
      NoRawStringOpens(line, i + 1);
    }
  }

  /** A comment that the line does not close is carried, one level deeper, to the next line. */
  lemma OpenCommentCarried(line: Line, i: nat, body: CommentBody, depth: nat)
    requires OpenerAt(line, i) && BodyAt(line, i + 2, body) && i + 2 + Length(body) == |line|
    ensures Run(line, i, Nested(depth)) == ([], depth + 1)
  {
    OpenerRead(line, i, depth);
    BodyDropped(line, i + 2, body, depth + 1);
  }

  /** A line that starts inside comments and closes one level goes on one level up. */
  lemma CarriedCommentCloses(line: Line, body: CommentBody, n: nat, depth: nat)
    requires BodyAt(line, 0, body) && n == Length(body) && CloserAt(line, n)
    ensures CodeOf(line, depth + 1) == Run(line, n + 2, Nested(depth))
  {
    CarriedBody(line, body, n, depth + 1);
    CarriedFrom(line, n, depth);
  }

  lemma CarriedBody(line: Line, body: CommentBody, n: nat, depth: nat)
    requires BodyAt(line, 0, body) && n == Length(body) <= |line| && depth > 0
    ensures Run(line, 0, Nested(depth)) == Run(line, n, Nested(depth))
  {
    BodyDropped(line, 0, body, depth);
  }

  lemma CarriedFrom(line: Line, n: nat, depth: nat)
    requires CloserAt(line, n) && Run(line, 0, Nested(depth + 1)) == Run(line, n, Nested(depth + 1))
    ensures CodeOf(line, depth + 1) == Run(line, n + 2, Nested(depth))
  {
    CloserRead(line, n, depth);
  }

  // ---- The index-driven lexer ----

  /** A result with more code in front. */
  function Prepend(out: Line, rest: (Line, nat)): (Line, nat) {
    (out + rest.0, rest.1)
  }

  lemma PrependTwice(out: Line, more: Line, rest: (Line, nat))
    ensures Prepend(out, Prepend(more, rest)) == Prepend(out + more, rest)
    ensures Prepend([], rest) == rest
  {
    assert out + (more + rest.0) == out + more + rest.0;
    assert [] + rest.0 == rest.0;
  }

  method StartsRawString(line: Line, i: nat) returns (starts: bool)
    requires At(line, i, LOWER_R)
    ensures starts <==> RawOpens(line, i)
  {
    var j := i + 1;
    while j < |line| && line[j] == HASH
      invariant i + 1 <= j <= |line| && j + Hashes(line, j) == i + 1 + Hashes(line, i + 1)
    {
      j := j + 1;
    }
    starts := j < |line| && line[j] == QUOTE;
  }

  /** Past the closing quote and hashes of the raw string at `i`, or the end of the line. */
  method SkipRawString(line: Line, i: nat) returns (next: nat)
    requires RawOpens(line, i)
    ensures i < next <= |line|
    ensures Run(line, i + 1, InToken(Hashes(line, i + 1) + 1, RawStr(Hashes(line, i + 1)))) == Run(line, next, Code)
  {
    var hashes: nat, j := 0, i + 1;
    while j < |line| && line[j] == HASH
      invariant i + 1 <= j <= |line| && hashes == j - (i + 1)
      invariant hashes + Hashes(line, j) == Hashes(line, i + 1)
    {
      hashes := hashes + 1;
      j := j + 1;
    }
    TokenRead(line, i + 1, hashes + 1, RawStr(hashes));
    next := FindRawClose(line, j + 1, hashes);
  }

  /** Past the first quote at or after `from` that `hashes` hashes follow, or the end of the line. */
  method FindRawClose(line: Line, from: nat, hashes: nat) returns (next: nat)
    requires from <= |line|
    ensures from <= next <= |line|
    ensures Run(line, from, RawStr(hashes)) == Run(line, next, Code)
  {
    var j := from;
    while j < |line|
      invariant from <= j <= |line|
      invariant Run(line, j, RawStr(hashes)) == Run(line, from, RawStr(hashes))
    {
      if line[j] == QUOTE {
        var matched := CountHashes(line, j + 1, hashes);
        if matched == hashes {
          RawStringDropped(line, j, j, hashes);
          return j + 1 + matched;
        }
      }
      j := j + 1;
    }
    next := |line|;
  }

  /** The hashes from `from` on, counted up to `limit`. */
  method CountHashes(line: Line, from: nat, limit: nat) returns (matched: nat)
    requires from <= |line|
    ensures from + matched <= |line|
    ensures matched <= limit && (matched == limit <==> limit <= Hashes(line, from))
  {
    matched := 0;
    var end := from;
    while matched < limit && end < |line| && line[end] == HASH
      invariant end == from + matched <= |line| && matched <= limit
      invariant matched + Hashes(line, end) == Hashes(line, from)
    {
      matched := matched + 1;
      end := end + 1;
    }
  }

  /** Past the closing quote of the string at `i`, or the end of the line. */
  method SkipString(line: Line, i: nat) returns (next: nat)
    requires At(line, i, QUOTE)
    ensures i < next <= |line|
    ensures Run(line, i + 1, Str) == Run(line, next, Code)
  {
    var j := i + 1;
    while j < |line|
      invariant i < j
      invariant if j <= |line| then Run(line, i + 1, Str) == Run(line, j, Str) else Run(line, i + 1, Str) == ([], 0)
    {
      if line[j] == BACKSLASH {
        assert Step(line, j, Str) == InToken(1, Str);
        if j + 1 < |line| {
          TokenRead(line, j + 1, 1, Str);
        }
        j := j + 2;
      } else if line[j] == QUOTE {
        return j + 1;
      } else {
        j := j + 1;
      }
    }
    next := |line|;
  }

  /** Past the closing tick of the char literal at `i`, or none for a lifetime. */
  method SkipCharLiteral(line: Line, i: nat) returns (next: Option<nat>)
    requires At(line, i, TICK)
    ensures next.None? ==> Opened(line, i) == Code
    ensures next.Some? ==>
              && i < next.value <= |line| && Opened(line, i) != Code
              && Run(line, i + 1, Opened(line, i)) == Run(line, next.value, Code)
  {
    if i + 1 >= |line| {
      return None;
    }
    if line[i + 1] == BACKSLASH {
      var j := i + 3;
      while j < |line| && line[j] != TICK
        invariant i + 3 <= j && (j <= |line| || j == i + 3)
        invariant forall k | i + 3 <= k < j :: line[k] != TICK
        invariant j <= |line| ==> Run(line, i + 3, CharLiteral) == Run(line, j, CharLiteral)
      {
        j := j + 1;
      }
      if j < |line| {
        TokenRead(line, i + 1, 2, CharLiteral);
        return Some(j + 1);
      }
      return None;
    }
    if i + 2 < |line| && line[i + 2] == TICK {
      TokenRead(line, i + 1, 2, Code);
      return Some(i + 3);
    }
    return None;
  }

  /** One turn of the lexer inside a block comment. */
  method CommentTurn(line: Line, i: nat, depth: nat) returns (next: nat, depth': nat)
    requires i < |line| && depth > 0
    ensures i < next <= |line|
    ensures Run(line, i, Nested(depth)) == Run(line, next, Nested(depth'))
  {
    if line[i] == SLASH && i + 1 < |line| && line[i + 1] == STAR {
      TokenRead(line, i + 1, 1, Nested(depth + 1));
      next, depth' := i + 2, depth + 1;
    } else if line[i] == STAR && i + 1 < |line| && line[i + 1] == SLASH {
      TokenRead(line, i + 1, 1, Nested(depth - 1));
      next, depth' := i + 2, depth - 1;
    } else {
      next, depth' := i + 1, depth;
    }
  }

  /** The raw string that opens at a byte of code, with or without its `b`. */
  method SkipRawToken(line: Line, i: nat) returns (past: Option<(nat, nat)>)
    requires i < |line| && !OpenerAt(line, i) && Opened(line, i) != LineComment
    ensures past.None? ==> !RawOpens(line, i) && !(At(line, i, LOWER_B) && RawOpens(line, i + 1))
    ensures past.Some? ==>
              && i < past.value.0 <= |line| && Opened(line, i) != Code
              && Run(line, i, Code) == Run(line, past.value.0, Nested(past.value.1))
  {
    if line[i] == LOWER_R {
      var raw := StartsRawString(line, i);
      if raw {
        var next := SkipRawString(line, i);
        return Some((next, 0));
      }
    }
    if line[i] == LOWER_B && i + 1 < |line| && line[i + 1] == LOWER_R {
      var raw := StartsRawString(line, i + 1);
      if raw {
        TokenRead(line, i + 1, 1, InToken(Hashes(line, i + 2) + 1, RawStr(Hashes(line, i + 2))));
        assert Step(line, i, Code) == InToken(Hashes(line, i + 2) + 2, RawStr(Hashes(line, i + 2)));
        var next := SkipRawString(line, i + 1);
        return Some((next, 0));
      }
    }
    past := None;
  }

  /** The token that opens at a byte of code: where the lexer goes on, and at what comment depth. */
  method SkipToken(line: Line, i: nat) returns (past: Option<(nat, nat)>)
    requires i < |line| && Opened(line, i) != LineComment
    ensures past.None? ==> Opened(line, i) == Code
    ensures past.Some? ==>
              && i < past.value.0 <= |line| && Opened(line, i) != Code
              && Run(line, i, Code) == Run(line, past.value.0, Nested(past.value.1))
  {
    if line[i] == SLASH && i + 1 < |line| && line[i + 1] == STAR {
      TokenRead(line, i + 1, 1, Nested(1));
      return Some((i + 2, 1));
    }
    past := SkipRawToken(line, i);
    if past.Some? {
      return;
    }
    if line[i] == QUOTE {
      var next := SkipString(line, i);
      return Some((next, 0));
    }
    if line[i] == LOWER_B && i + 1 < |line| && line[i + 1] == QUOTE {
      TokenRead(line, i + 1, 1, Str);
      var next := SkipString(line, i + 1);
      return Some((next, 0));
    }
    if line[i] == TICK {
      var closed := SkipCharLiteral(line, i);
      if closed.Some? {
        return Some((closed.value, 0));
      }
    }
    past := None;
  }

  /** The code of one line; `blockComment` is the comment nesting carried between lines. */
  method CodeOnly(line: Line, blockComment: nat) returns (out: Line, blockComment': nat)
    ensures (out, blockComment') == CodeOf(line, blockComment)
  {
    out, blockComment' := [], blockComment;
    var i := 0;
    PrependTwice([], [], CodeOf(line, blockComment));
    while i < |line|
      invariant i <= |line|
      invariant CodeOf(line, blockComment) == Prepend(out, Run(line, i, Nested(blockComment')))
    {
      if blockComment' > 0 {
        i, blockComment' := CommentTurn(line, i, blockComment');
      } else if line[i] == SLASH && i + 1 < |line| && line[i + 1] == SLASH {
        CommentToEnd(line, i + 1);
        assert Run(line, i, Code) == ([], 0) && out + [] == out;
        return;
      } else {
        var past := SkipToken(line, i);
        match past {
          case Some((next, depth)) =>
            i, blockComment' := next, depth;
          case None =>
            if IsAscii(line[i]) {
              PrependTwice(out, [line[i]], Run(line, i + 1, Code));
              out := out + [line[i]];
            }
            i := i + 1;
        }
      }
    }
    assert out + [] == out;
  }
}
