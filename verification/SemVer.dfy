/** Versions and their precedence, after SemVer 2.0.0 sections 2, 9, 10 and 11, printed and parsed. */
module SemVer {
  import opened Wrappers
  import opened Decimal
  import opened Ordering

  const U64_MAX: nat := 0xFFFF_FFFF_FFFF_FFFF

  /** A dot-separated pre-release identifier. */
  datatype Identifier = Numeric(n: nat) | Alphanumeric(text: string)

  /** Build metadata is kept as its dot-separated parts. */
  datatype Version = Version(major: nat, minor: nat, patch: nat, pre: seq<Identifier>, build: seq<string>)

  predicate SameCore(v: Version, w: Version) {
    v.major == w.major && v.minor == w.minor && v.patch == w.patch
  }

  // ---- Precedence ----

  predicate IdentifierBelow(a: Identifier, b: Identifier) {
    match (a, b)
    case (Numeric(m), Numeric(n)) => m < n
    case (Numeric(_), Alphanumeric(_)) => true
    case (Alphanumeric(_), Numeric(_)) => false
    case (Alphanumeric(s), Alphanumeric(t)) => s != t && LexLeq(s, t)
  }

  predicate IdentifiersBelow(p: seq<Identifier>, q: seq<Identifier>) {
    if q == [] then false
    else if p == [] then true
    else if p[0] == q[0] then IdentifiersBelow(p[1..], q[1..])
    else IdentifierBelow(p[0], q[0])
  }

  /** A pre-release ranks below the release it leads up to. */
  predicate PreBelow(p: seq<Identifier>, q: seq<Identifier>) {
    if p == [] then false else if q == [] then true else IdentifiersBelow(p, q)
  }

  predicate CoreBelow(v: Version, w: Version) {
    || v.major < w.major
    || (v.major == w.major && v.minor < w.minor)
    || (v.major == w.major && v.minor == w.minor && v.patch < w.patch)
  }

  /** `v` has lower precedence than `w`; build metadata does not count. */
  predicate Precedes(v: Version, w: Version) {
    CoreBelow(v, w) || (SameCore(v, w) && PreBelow(v.pre, w.pre))
  }

  lemma IdentifierTrichotomy(a: Identifier, b: Identifier)
    ensures a == b || IdentifierBelow(a, b) || IdentifierBelow(b, a)
    ensures !(IdentifierBelow(a, b) && IdentifierBelow(b, a)) && !IdentifierBelow(a, a)
  {
    if a.Alphanumeric? && b.Alphanumeric? {
      LexTotal(a.text, b.text);
    }
  }

  lemma {:induction false} IdentifiersTrichotomy(p: seq<Identifier>, q: seq<Identifier>)
    ensures p == q || IdentifiersBelow(p, q) || IdentifiersBelow(q, p)
    ensures !(IdentifiersBelow(p, q) && IdentifiersBelow(q, p))
  {
    if p != [] && q != [] {
      IdentifierTrichotomy(p[0], q[0]);
      if p[0] == q[0] {
        IdentifiersTrichotomy(p[1..], q[1..]);
        assert p == [p[0]] + p[1..] && q == [q[0]] + q[1..];
      }
    }
  }

  /** Two versions are equal up to build metadata, or one precedes the other and not conversely. */
  lemma PrecedenceTrichotomy(v: Version, w: Version)
    ensures (SameCore(v, w) && v.pre == w.pre) || Precedes(v, w) || Precedes(w, v)
    ensures !(Precedes(v, w) && Precedes(w, v))
  {
    IdentifiersTrichotomy(v.pre, w.pre);
  }

  lemma IdentifierTransitive(a: Identifier, b: Identifier, c: Identifier)
    requires IdentifierBelow(a, b) && IdentifierBelow(b, c)
    ensures IdentifierBelow(a, c)
  {
    if a.Alphanumeric? && b.Alphanumeric? && c.Alphanumeric? {
      LexTransitive(a.text, b.text, c.text);
      IdentifierTrichotomy(a, b);
    }
  }

  lemma {:induction false} IdentifiersTransitive(p: seq<Identifier>, q: seq<Identifier>, r: seq<Identifier>)
    requires IdentifiersBelow(p, q) && IdentifiersBelow(q, r)
    ensures IdentifiersBelow(p, r)
  {
    if p != [] {
      if p[0] == q[0] && q[0] == r[0] {
        IdentifiersTransitive(p[1..], q[1..], r[1..]);
      } else if p[0] != q[0] && q[0] != r[0] {
        IdentifierTransitive(p[0], q[0], r[0]);
        IdentifierTrichotomy(p[0], q[0]);
      }
    }
  }

  /** Precedence is transitive, so with its trichotomy it is a linear order up to build metadata. */
  lemma PrecedenceTransitive(v: Version, w: Version, x: Version)
    requires Precedes(v, w) && Precedes(w, x)
    ensures Precedes(v, x)
  {
    if SameCore(v, w) && SameCore(w, x) && x.pre != [] {
      IdentifiersTransitive(v.pre, w.pre, x.pre);
    }
  }

  // ---- Splitting and joining ----

  /** The text before the first `c`, and what follows it. */
  function Cut(s: string, c: char): (string, Option<string>) {
    if s == [] then ([], None)
    else if s[0] == c then ([], Some(s[1..]))
    else
      var (head, tail) := Cut(s[1..], c);
      ([s[0]] + head, tail)
  }

  lemma {:induction false} CutJoined(a: string, c: char, b: string)
    requires c !in a
    ensures Cut(a + [c] + b, c) == (a, Some(b))
    ensures Cut(a, c) == (a, None)
  {
    if a == [] {
      assert ([] + [c] + b)[1..] == b;
    } else {
      CutJoined(a[1..], c, b);
      assert (a + [c] + b)[1..] == a[1..] + [c] + b;
      assert a == [a[0]] + a[1..];
    }
  }

  function Split(s: string, c: char): (parts: seq<string>)
    ensures parts != []
    decreases |s|
  {
    if s == [] then [[]]
    else
      var rest := Split(s[1..], c);
      if s[0] == c then [[]] + rest else [[s[0]] + rest[0]] + rest[1..]
  }

  function Join(parts: seq<string>, c: char): string {
    if parts == [] then []
    else if |parts| == 1 then parts[0]
    else parts[0] + [c] + Join(parts[1..], c)
  }

  lemma {:induction false} SplitOne(a: string, c: char)
    requires c !in a
    ensures Split(a, c) == [a]
  {
    if a != [] {
      SplitOne(a[1..], c);
      assert a == [a[0]] + a[1..];
    }
  }

  lemma {:induction false} SplitFirst(a: string, c: char, b: string)
    requires c !in a
    ensures Split(a + [c] + b, c) == [a] + Split(b, c)
  {
    if a == [] {
      assert ([] + [c] + b)[1..] == b;
    } else {
      SplitFirst(a[1..], c, b);
      assert (a + [c] + b)[1..] == a[1..] + [c] + b;
      assert a == [a[0]] + a[1..];
    }
  }

  lemma {:induction false} SplitJoined(parts: seq<string>, c: char)
    requires parts != [] && forall part | part in parts :: c !in part
    ensures Split(Join(parts, c), c) == parts
    decreases |parts|
  {
    if |parts| == 1 {
      SplitOne(parts[0], c);
      assert parts == [parts[0]];
    } else {
      SplitJoined(parts[1..], c);
      SplitFirst(parts[0], c, Join(parts[1..], c));
      assert parts == [parts[0]] + parts[1..];
    }
  }

  lemma {:induction false} JoinChars(parts: seq<string>, c: char, d: char)
    requires d != c && forall part | part in parts :: d !in part
    ensures d !in Join(parts, c)
  {
    if |parts| > 1 {
      JoinChars(parts[1..], c, d);
    }
  }

  // ---- Printing and parsing ----

  predicate IsIdentifierChar(c: char) {
    IsDigit(c) || 'a' <= c <= 'z' || 'A' <= c <= 'Z' || c == '-'
  }

  predicate IsIdentifierText(s: string) {
    s != [] && forall i | 0 <= i < |s| :: IsIdentifierChar(s[i])
  }

  /** What the grammar lets a version hold: core numbers of 64 bits, well-formed identifiers. */
  ghost predicate WellFormed(v: Version) {
    && v.major <= U64_MAX && v.minor <= U64_MAX && v.patch <= U64_MAX
    && (forall id | id in v.pre :: id.Alphanumeric? ==> IsIdentifierText(id.text) && !AllDigits(id.text))
    && (forall part | part in v.build :: IsIdentifierText(part))
  }

  function IdentifierTextOf(id: Identifier): string {
    match id
    case Numeric(n) => Numeral(n)
    case Alphanumeric(text) => text
  }

  function IdentifierTexts(pre: seq<Identifier>): (texts: seq<string>)
    ensures |texts| == |pre|
    ensures forall i | 0 <= i < |pre| :: texts[i] == IdentifierTextOf(pre[i])
  {
    seq(|pre|, i requires 0 <= i < |pre| => IdentifierTextOf(pre[i]))
  }

  function ShowCore(v: Version): string {
    Join([Numeral(v.major), Numeral(v.minor), Numeral(v.patch)], '.')
  }

  function ShowPre(v: Version): string {
    if v.pre == [] then ShowCore(v) else ShowCore(v) + ['-'] + Join(IdentifierTexts(v.pre), '.')
  }

  function Show(v: Version): string {
    if v.build == [] then ShowPre(v) else ShowPre(v) + ['+'] + Join(v.build, '.')
  }

  /** A numeral without leading zeros. */
  function ParseNumber(s: string): Option<nat> {
    if s == [] || !AllDigits(s) || LeadingZero(s) then None else Some(Value(s))
  }

  function ParseU64(s: string): Option<nat> {
    match ParseNumber(s)
    case Some(n) => if n <= U64_MAX then Some(n) else None
    case None => None
  }

  function ParseIdentifier(s: string): Option<Identifier> {
    if !IsIdentifierText(s) then None
    else if !AllDigits(s) then Some(Alphanumeric(s))
    else if LeadingZero(s) then None
    else Some(Numeric(Value(s)))
  }

  function ParseIdentifiers(parts: seq<string>): Option<seq<Identifier>> {
    if parts == [] then Some([])
    else
      match (ParseIdentifier(parts[0]), ParseIdentifiers(parts[1..]))
      case (Some(id), Some(rest)) => Some([id] + rest)
      case _ => None
  }

  function ParseCore(s: string): Option<(nat, nat, nat)> {
    var parts := Split(s, '.');
    if |parts| != 3 then None
    else
      match (ParseU64(parts[0]), ParseU64(parts[1]), ParseU64(parts[2]))
      case (Some(major), Some(minor), Some(patch)) => Some((major, minor, patch))
      case _ => None
  }

  function ParseBuild(text: Option<string>): Option<seq<string>> {
    match text
    case None => Some([])
    case Some(s) =>
      var parts := Split(s, '.');
      if forall i | 0 <= i < |parts| :: IsIdentifierText(parts[i]) then Some(parts) else None
  }

  function ParsePre(text: Option<string>): Option<seq<Identifier>> {
    match text
    case None => Some([])
    case Some(s) => ParseIdentifiers(Split(s, '.'))
  }

  function ParseVersion(s: string): Option<Version> {
    var (main, build) := Cut(s, '+');
    var (core, pre) := Cut(main, '-');
    match (ParseCore(core), ParsePre(pre), ParseBuild(build))
    case (Some((major, minor, patch)), Some(ids), Some(parts)) => Some(Version(major, minor, patch, ids, parts))
    case _ => None
  }

  lemma CoreRoundTrip(v: Version)
    requires WellFormed(v)
    ensures ParseCore(ShowCore(v)) == Some((v.major, v.minor, v.patch))
    ensures '-' !in ShowCore(v) && '+' !in ShowCore(v)
  {
    var parts := [Numeral(v.major), Numeral(v.minor), Numeral(v.patch)];
    forall part | part in parts
      ensures '.' !in part && '-' !in part && '+' !in part
    {
      assert forall n :: '.' !in Numeral(n) && '-' !in Numeral(n) && '+' !in Numeral(n);
    }
    SplitJoined(parts, '.');
    JoinChars(parts, '.', '-');
    JoinChars(parts, '.', '+');
    NumeralValue(v.major);
    NumeralValue(v.minor);
    NumeralValue(v.patch);
  }

  lemma IdentifierRoundTrip(id: Identifier)
    requires id.Alphanumeric? ==> IsIdentifierText(id.text) && !AllDigits(id.text)
    ensures ParseIdentifier(IdentifierTextOf(id)) == Some(id)
    ensures '.' !in IdentifierTextOf(id) && '+' !in IdentifierTextOf(id)
  {
    if id.Numeric? {
      NumeralValue(id.n);
    }
  }

  lemma {:induction false} IdentifiersRoundTrip(pre: seq<Identifier>)
    requires forall id | id in pre :: id.Alphanumeric? ==> IsIdentifierText(id.text) && !AllDigits(id.text)
    ensures ParseIdentifiers(IdentifierTexts(pre)) == Some(pre)
  {
    if pre != [] {
      IdentifierRoundTrip(pre[0]);
      IdentifiersRoundTrip(pre[1..]);
      assert IdentifierTexts(pre)[1..] == IdentifierTexts(pre[1..]);
      assert pre == [pre[0]] + pre[1..];
    }
  }

  lemma PreRoundTrip(v: Version)
    requires WellFormed(v) && v.pre != []
    ensures ParsePre(Some(Join(IdentifierTexts(v.pre), '.'))) == Some(v.pre)
    ensures '+' !in Join(IdentifierTexts(v.pre), '.')
  {
    var texts := IdentifierTexts(v.pre);
    forall text | text in texts
      ensures '.' !in text && '+' !in text
    {
      var i :| 0 <= i < |texts| && texts[i] == text;
      assert v.pre[i] in v.pre;
      IdentifierRoundTrip(v.pre[i]);
    }
    SplitJoined(texts, '.');
    JoinChars(texts, '.', '+');
    IdentifiersRoundTrip(v.pre);
  }

  lemma BuildRoundTrip(v: Version)
    requires WellFormed(v) && v.build != []
    ensures ParseBuild(Some(Join(v.build, '.'))) == Some(v.build)
  {
    SplitJoined(v.build, '.');
  }

  lemma MainRoundTrip(v: Version)
    requires WellFormed(v)
    ensures '+' !in ShowPre(v)
    ensures var (core, pre) := Cut(ShowPre(v), '-');
            ParseCore(core) == Some((v.major, v.minor, v.patch)) && ParsePre(pre) == Some(v.pre)
  {
    CoreRoundTrip(v);
    if v.pre == [] {
      CutJoined(ShowCore(v), '-', []);
    } else {
      PreRoundTrip(v);
      CutJoined(ShowCore(v), '-', Join(IdentifierTexts(v.pre), '.'));
    }
  }

  /** A printed version parses back to itself. */
  lemma VersionRoundTrip(v: Version)
    requires WellFormed(v)
    ensures ParseVersion(Show(v)) == Some(v)
  {
    MainRoundTrip(v);
    if v.build == [] {
      CutJoined(ShowPre(v), '+', []);
    } else {
      BuildRoundTrip(v);
      CutJoined(ShowPre(v), '+', Join(v.build, '.'));
    }
  }

  lemma {:induction false} ParsedIdentifiers(parts: seq<string>)
    requires ParseIdentifiers(parts).Some?
    ensures forall id | id in ParseIdentifiers(parts).value ::
              id.Alphanumeric? ==> IsIdentifierText(id.text) && !AllDigits(id.text)
  {
    if parts != [] {
      ParsedIdentifiers(parts[1..]);
    }
  }

  /** Whatever parses is well formed, so printing it loses nothing. */
  lemma ParsedIsWellFormed(s: string)
    requires ParseVersion(s).Some?
    ensures WellFormed(ParseVersion(s).value)
    ensures ParseVersion(Show(ParseVersion(s).value)) == ParseVersion(s)
  {
    var (main, _) := Cut(s, '+');
    var (_, pre) := Cut(main, '-');
    if pre.Some? {
      ParsedIdentifiers(Split(pre.value, '.'));
    }
    VersionRoundTrip(ParseVersion(s).value);
  }

  // ---- The characters of a printed version ----

  predicate IsVersionChar(c: char) {
    IsIdentifierChar(c) || c == '.' || c == '+'
  }

  predicate AllVersionChars(s: string) {
    forall i | 0 <= i < |s| :: IsVersionChar(s[i])
  }

  lemma {:induction false} JoinVersionChars(parts: seq<string>)
    requires forall part | part in parts :: AllVersionChars(part)
    ensures AllVersionChars(Join(parts, '.'))
    ensures parts != [] && parts[0] != [] ==> Join(parts, '.') != []
  {
    if parts != [] {
      assert parts[0] in parts;
      JoinVersionChars(parts[1..]);
    }
  }

  lemma ShowVersionChars(v: Version)
    requires WellFormed(v)
    ensures AllVersionChars(Show(v)) && Show(v) != []
  {
    var core := [Numeral(v.major), Numeral(v.minor), Numeral(v.patch)];
    assert forall n :: AllDigits(Numeral(n));
    JoinVersionChars(core);
    forall text | text in IdentifierTexts(v.pre)
      ensures AllVersionChars(text)
    {
      var i :| 0 <= i < |v.pre| && IdentifierTexts(v.pre)[i] == text;
      assert v.pre[i] in v.pre;
    }
    JoinVersionChars(IdentifierTexts(v.pre));
    JoinVersionChars(v.build);
  }
}
