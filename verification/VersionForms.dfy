/** The text of a version, exactly: what parses is what is printed; and its precedence, rule by rule. */
module VersionForms {
  import opened Wrappers
  import opened Decimal
  import opened Ordering
  import opened SemVer
  import opened ReleaseVersion

  // ---- What parses is what is printed ----

  lemma NumeralStep(v: nat, c: char)
    requires v > 0 && IsDigit(c)
    ensures Numeral(v * 10 + DigitValue(c)) == Numeral(v) + [c]
  {
    var n := v * 10 + DigitValue(c);
    assert n >= 10 && n / 10 == v && n % 10 == DigitValue(c);
  }

  lemma ValueStep(before: string, c: char)
    requires AllDigits(before) && IsDigit(c)
    ensures AllDigits(before + [c]) && Value(before + [c]) == Value(before) * 10 + DigitValue(c)
  {
    assert (before + [c])[..|before|] == before;
  }

  lemma {:induction false} NumeralOfValue(s: string)
    requires s != [] && AllDigits(s) && !LeadingZero(s)
    ensures Numeral(Value(s)) == s
  {
    var before, last := s[..|s| - 1], s[|s| - 1];
    assert s == before + [last];
    ValueStep(before, last);
    if before != [] {
      assert before[0] == s[0];
      PositiveValue(before);
      NumeralOfValue(before);
      NumeralStep(Value(before), last);
    }
  }

  lemma {:induction false} PositiveValue(s: string)
    requires s != [] && AllDigits(s) && s[0] != '0'
    ensures Value(s) > 0
  {
    if |s| > 1 {
      PositiveValue(s[..|s| - 1]);
    }
  }

  lemma {:induction false} CutParts(s: string, c: char)
    ensures var (head, tail) := Cut(s, c);
            c !in head && s == head + (if tail.Some? then [c] + tail.value else [])
  {
    if s != [] && s[0] != c {
      CutParts(s[1..], c);
      assert s == [s[0]] + s[1..];
    }
  }

  lemma {:induction false} JoinSplit(s: string, c: char)
    ensures Join(Split(s, c), c) == s
    decreases |s|
  {
    if s != [] {
      var rest := Split(s[1..], c);
      JoinSplit(s[1..], c);
      assert s == [s[0]] + s[1..];
      if s[0] == c {
        assert ([[]] + rest)[1..] == rest;
      } else {
        JoinHead(s[0], rest, c);
      }
    }
  }

  lemma JoinHead(x: char, parts: seq<string>, c: char)
    requires parts != []
    ensures Join([[x] + parts[0]] + parts[1..], c) == [x] + Join(parts, c)
  {
    assert ([[x] + parts[0]] + parts[1..])[1..] == parts[1..];
  }

  lemma IdentifierPrinted(s: string)
    requires ParseIdentifier(s).Some?
    ensures IdentifierTextOf(ParseIdentifier(s).value) == s
  {
    if AllDigits(s) {
      NumeralOfValue(s);
    }
  }

  lemma {:induction false} IdentifiersPrinted(parts: seq<string>)
    requires ParseIdentifiers(parts).Some?
    ensures IdentifierTexts(ParseIdentifiers(parts).value) == parts
  {
    if parts != [] {
      IdentifierPrinted(parts[0]);
      IdentifiersPrinted(parts[1..]);
      assert parts == [parts[0]] + parts[1..];
    }
  }

  lemma CorePrinted(s: string, v: Version)
    requires ParseCore(s) == Some((v.major, v.minor, v.patch))
    ensures ShowCore(v) == s
  {
    var parts := Split(s, '.');
    NumeralOfValue(parts[0]);
    NumeralOfValue(parts[1]);
    NumeralOfValue(parts[2]);
    assert parts == [Numeral(v.major), Numeral(v.minor), Numeral(v.patch)];
    JoinSplit(s, '.');
  }

  lemma PrePrinted(s: string, pre: seq<Identifier>)
    requires ParsePre(Some(s)) == Some(pre)
    ensures Join(IdentifierTexts(pre), '.') == s && pre != []
  {
    IdentifiersPrinted(Split(s, '.'));
    JoinSplit(s, '.');
  }

  lemma MainPrinted(main: string, v: Version)
    requires var (core, pre) := Cut(main, '-');
             ParseCore(core) == Some((v.major, v.minor, v.patch)) && ParsePre(pre) == Some(v.pre)
    ensures ShowPre(v) == main
  {
    var (core, pre) := Cut(main, '-');
    CutParts(main, '-');
    CorePrinted(core, v);
    if pre.Some? {
      PrePrinted(pre.value, v.pre);
    }
  }

  /** A text parses to a version exactly when it is the printed form of that version, and the version is well formed. */
  lemma ParsesExactly(s: string, v: Version)
    ensures ParseVersion(s) == Some(v) <==> WellFormed(v) && s == Show(v)
  {
    if ParseVersion(s) == Some(v) {
      ParsedIsWellFormed(s);
      var (main, build) := Cut(s, '+');
      CutParts(s, '+');
      MainPrinted(main, v);
      if build.Some? {
        JoinSplit(build.value, '.');
      }
    }
    if WellFormed(v) && s == Show(v) {
      VersionRoundTrip(v);
    }
  }

  /** A tag names a version exactly when it is a `v` and the printed form. */
  lemma TagsExactly(tag: string, v: Version)
    ensures TagVersion(tag) == Some(v) <==> WellFormed(v) && tag == TagOf(v)
  {
    if tag != [] {
      ParsesExactly(tag[1..], v);
      assert tag == [tag[0]] + tag[1..];
    }
    assert TagOf(v)[1..] == Show(v);
  }

  /** The printed forms: three numbers, then the pre-release behind a hyphen, then the build behind a plus sign. */
  lemma PrintedForms(major: nat, minor: nat, patch: nat, n: nat, word: string, meta: string)
    ensures var core := Numeral(major) + "." + Numeral(minor) + "." + Numeral(patch);
            && Show(Version(major, minor, patch, [], [])) == core
            && Show(Version(major, minor, patch, Rc(n), [])) == core + "-rc." + Numeral(n)
            && Show(Version(major, minor, patch, [Alphanumeric(word)], [meta, meta])) ==
               core + "-" + word + "+" + meta + "." + meta
  {
    var numbers := [Numeral(major), Numeral(minor), Numeral(patch)];
    ThreeJoined(numbers[0], numbers[1], numbers[2], '.');
    TwoJoined("rc", Numeral(n), '.');
    TwoJoined(meta, meta, '.');
    assert IdentifierTexts(Rc(n)) == ["rc", Numeral(n)];
    assert IdentifierTexts([Alphanumeric(word)]) == [word];
  }

  lemma TwoJoined(a: string, b: string, c: char)
    ensures Join([a, b], c) == a + [c] + b
  {
    assert [a, b][1..] == [b];
  }

  lemma ThreeJoined(a: string, b: string, d: string, c: char)
    ensures Join([a, b, d], c) == a + [c] + b + [c] + d
  {
    assert [a, b, d][1..] == [b, d];
    TwoJoined(b, d, c);
  }

  // ---- Precedence, rule by rule ----

  /** Major, then minor, then patch decide, by number. */
  lemma CoreDecides(v: Version, w: Version)
    ensures v.major < w.major ==> Precedes(v, w)
    ensures v.major == w.major && v.minor < w.minor ==> Precedes(v, w)
    ensures v.major == w.major && v.minor == w.minor && v.patch < w.patch ==> Precedes(v, w)
    ensures SameCore(v, w) && v.pre != [] && w.pre == [] ==> Precedes(v, w) && !Precedes(w, v)
    ensures SameCore(v, w) && v.pre == w.pre ==> !Precedes(v, w)
  {
    IdentifiersTrichotomy(v.pre, w.pre);
  }

  /** Behind equal identifiers the first differing one decides, and a longer list outranks its beginnings. */
  lemma PreReleaseDecides(v: Version, w: Version, k: nat)
    requires SameCore(v, w) && v.pre != [] && w.pre != []
    requires k <= |v.pre| && k <= |w.pre| && v.pre[..k] == w.pre[..k]
    ensures k == |v.pre| < |w.pre| ==> Precedes(v, w)
    ensures k == |w.pre| ==> !Precedes(v, w)
    ensures k < |v.pre| && k < |w.pre| && v.pre[k] != w.pre[k] ==>
              (Precedes(v, w) <==> IdentifierBelow(v.pre[k], w.pre[k]))
  {
    IdentifiersDecide(v.pre, w.pre, k);
  }

  lemma {:induction false} IdentifiersDecide(p: seq<Identifier>, q: seq<Identifier>, k: nat)
    requires k <= |p| && k <= |q| && p[..k] == q[..k]
    ensures k == |p| < |q| ==> IdentifiersBelow(p, q)
    ensures k == |q| ==> !IdentifiersBelow(p, q)
    ensures k < |p| && k < |q| && p[k] != q[k] ==> (IdentifiersBelow(p, q) <==> IdentifierBelow(p[k], q[k]))
  {
    if k > 0 {
      assert p[0] == p[..k][0] && q[0] == q[..k][0];
      assert p[1..][..k - 1] == p[..k][1..] && q[1..][..k - 1] == q[..k][1..];
      IdentifiersDecide(p[1..], q[1..], k - 1);
    }
  }

  /** Numbers rank by value and below every word; words rank by their first differing character. */
  lemma IdentifierDecides(m: nat, n: nat, s: string, t: string, k: nat)
    requires k <= |s| && k <= |t| && s[..k] == t[..k]
    ensures IdentifierBelow(Numeric(m), Numeric(n)) <==> m < n
    ensures IdentifierBelow(Numeric(m), Alphanumeric(s)) && !IdentifierBelow(Alphanumeric(s), Numeric(m))
    ensures k < |s| && k < |t| && s[k] != t[k] ==>
              (IdentifierBelow(Alphanumeric(s), Alphanumeric(t)) <==> s[k] < t[k])
    ensures k == |s| < |t| ==> IdentifierBelow(Alphanumeric(s), Alphanumeric(t))
    ensures k == |t| ==> !IdentifierBelow(Alphanumeric(s), Alphanumeric(t))
  {
    FirstDifferenceDecides(s, t, k);
    if k == |t| == |s| {
      assert s == s[..k] && t == t[..k];
    }
  }

  // ---- The target, exactly ----

  const LAST_NUMBER: nat := 18446744073709551615

  /** The number that a bump raises is the last one of 64 bits. */
  predicate Exhausted(current: Version, bump: Bump) {
    match bump
    case NoBump => false
    case Patch => current.patch >= LAST_NUMBER
    case Minor => current.minor >= LAST_NUMBER
    case Major => current.major >= LAST_NUMBER
  }

  /** No target exactly when the number to raise is exhausted, or an rc is asked for and the last rc is taken. */
  lemma NoTargetExactly(current: Version, kind: Kind, bump: Bump, tags: seq<string>)
    ensures ComputeTarget(current, kind, bump, tags).None? <==>
            || Exhausted(current, bump)
            || (kind == PreRelease
                && exists tag | tag in tags :: CountedRc(tag, BumpCore(current, bump).value) == Some(LAST_NUMBER))
  {
    if !Exhausted(current, bump) {
      NoNextRcExactly(tags, BumpCore(current, bump).value);
    }
  }

  /** The target: the bumped core alone for a final release, and with `rc.N` for a pre-release, N the next one. */
  lemma TargetSpelledOut(current: Version, kind: Kind, bump: Bump, tags: seq<string>)
    requires ComputeTarget(current, kind, bump, tags).Some?
    ensures var v := ComputeTarget(current, kind, bump, tags).value;
            && v.build == []
            && (kind == Final ==> v.pre == [])
            && (kind == PreRelease ==>
                  exists n: nat ::
                    && v.pre == [Alphanumeric("rc"), Numeric(n)] && n > 0
                    && (forall m: nat :: m < n <==> m == 0 || Reached(tags, v, m)))
            && (bump == NoBump ==> SameCore(v, current))
            && (bump == Patch ==> v.major == current.major && v.minor == current.minor && v.patch == current.patch + 1)
            && (bump == Minor ==> v.major == current.major && v.minor == current.minor + 1 && v.patch == 0)
            && (bump == Major ==> v.major == current.major + 1 && v.minor == 0 && v.patch == 0)
  {
    var v := ComputeTarget(current, kind, bump, tags).value;
    if kind == PreRelease {
      var core := BumpCore(current, bump).value;
      var n := NextRc(tags, core).value;
      forall m: nat
        ensures m < n <==> m == 0 || Reached(tags, v, m)
      {
        NextRcAbove(tags, core, m);
        SameReached(tags, core, v, m);
      }
      assert v.pre == [Alphanumeric("rc"), Numeric(n)];
    }
  }

  lemma SameReached(tags: seq<string>, v: Version, w: Version, n: nat)
    requires SameCore(v, w)
    ensures Reached(tags, v, n) <==> Reached(tags, w, n)
  {
    forall tag | tag in tags
      ensures CountedRc(tag, v) == CountedRc(tag, w)
    {
    }
  }

  /** A tag counts for a core exactly when it is the tag of an rc of that core with a 64-bit number. */
  lemma CountsExactly(tag: string, core: Version, n: nat)
    ensures CountedRc(tag, core) == Some(n) <==>
            exists build ::
              var v := Version(core.major, core.minor, core.patch, [Alphanumeric("rc"), Numeric(n)], build);
              n <= LAST_NUMBER && WellFormed(v) && tag == TagOf(v)
  {
    if CountedRc(tag, core) == Some(n) {
      var v := TagVersion(tag).value;
      TagsExactly(tag, v);
      assert v.pre == [Alphanumeric("rc"), Numeric(n)];
      assert v == Version(core.major, core.minor, core.patch, [Alphanumeric("rc"), Numeric(n)], v.build);
    }
    forall build |
      var v := Version(core.major, core.minor, core.patch, [Alphanumeric("rc"), Numeric(n)], build);
      n <= LAST_NUMBER && WellFormed(v) && tag == TagOf(v)
      ensures CountedRc(tag, core) == Some(n)
    {
      TagsExactly(tag, Version(core.major, core.minor, core.patch, [Alphanumeric("rc"), Numeric(n)], build));
    }
  }
}
