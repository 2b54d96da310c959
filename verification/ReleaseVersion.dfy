/** Which version a release run computes from the current one, the operator's choice and the known tags. */
module ReleaseVersion {
  import opened Wrappers
  import opened Decimal
  import opened SemVer
  import Manifest
  import Text

  datatype Kind = PreRelease | Final

  datatype Bump = NoBump | Patch | Minor | Major

  /** Adding one to a 64-bit number; None is the overflow panic of a debug build. */
  function Increment(n: nat): Option<nat> {
    if n < U64_MAX then Some(n + 1) else None
  }

  function CoreOf(v: Version): Version {
    Version(v.major, v.minor, v.patch, [], [])
  }

  function BumpCore(current: Version, bump: Bump): Option<Version> {
    match bump
    case NoBump => Some(CoreOf(current))
    case Patch =>
      (match Increment(current.patch)
       case Some(n) => Some(Version(current.major, current.minor, n, [], []))
       case None => None)
    case Minor =>
      (match Increment(current.minor)
       case Some(n) => Some(Version(current.major, n, 0, [], []))
       case None => None)
    case Major =>
      (match Increment(current.major)
       case Some(n) => Some(Version(n, 0, 0, [], []))
       case None => None)
  }

  function Rc(n: nat): seq<Identifier> {
    [Alphanumeric("rc"), Numeric(n)]
  }

  function WithRc(core: Version, n: nat): Version {
    CoreOf(core).(pre := Rc(n))
  }

  function TagOf(v: Version): string {
    ['v'] + Show(v)
  }

  /** The version a tag names, if it names one. */
  function TagVersion(tag: string): Option<Version> {
    if tag != [] && tag[0] == 'v' then ParseVersion(tag[1..]) else None
  }

  /** The N of an `rc.N` pre-release, as a 64-bit number. */
  function RcNumberOf(pre: seq<Identifier>): Option<nat> {
    if |pre| == 2 && pre[0] == Alphanumeric("rc") && pre[1].Numeric? && pre[1].n <= U64_MAX then Some(pre[1].n)
    else None
  }

  /** The rc number by which a tag counts for `core`. */
  function CountedRc(tag: string, core: Version): Option<nat> {
    match TagVersion(tag)
    case Some(v) => if SameCore(v, core) then RcNumberOf(v.pre) else None
    case None => None
  }

  /** The greatest counted rc number. */
  function MaxRc(tags: seq<string>, core: Version): Option<nat> {
    if tags == [] then None
    else
      var before := MaxRc(tags[..|tags| - 1], core);
      match (before, CountedRc(tags[|tags| - 1], core))
      case (Some(m), Some(n)) => Some(if m < n then n else m)
      case (None, n) => n
      case (m, None) => m
  }

  /** One past the greatest counted rc number, else 1. */
  function NextRc(tags: seq<string>, core: Version): Option<nat> {
    match MaxRc(tags, core)
    case Some(m) => Increment(m)
    case None => Some(1)
  }

  lemma {:induction false} MaxRcIsMax(tags: seq<string>, core: Version)
    ensures forall tag | tag in tags && CountedRc(tag, core).Some? ::
              MaxRc(tags, core).Some? && CountedRc(tag, core).value <= MaxRc(tags, core).value
    ensures MaxRc(tags, core).Some? ==> exists tag | tag in tags :: CountedRc(tag, core) == MaxRc(tags, core)
  {
    if tags != [] {
      var before, last := tags[..|tags| - 1], tags[|tags| - 1];
      MaxRcIsMax(before, core);
      assert tags == before + [last];
      assert last in tags && forall tag | tag in before :: tag in tags;
    }
  }

  method NextRcNumber(tags: seq<string>, core: Version) returns (n: Option<nat>)
    ensures n == NextRc(tags, core)
  {
    var maxN: Option<nat> := None;
    for i := 0 to |tags|
      invariant maxN == MaxRc(tags[..i], core)
    {
      assert tags[..i + 1][..i] == tags[..i];
      if tags[i] == [] || tags[i][0] != 'v' {
        continue;
      }
      var v := ParseVersion(tags[i][1..]);
      if v.None? {
        continue;
      }
      if v.value.major != core.major || v.value.minor != core.minor || v.value.patch != core.patch {
        continue;
      }
      var found := RcNumberOf(v.value.pre);
      if found.Some? {
        maxN := Some(if maxN.Some? && found.value <= maxN.value then maxN.value else found.value);
      }
    }
    assert tags[..|tags|] == tags;
    n := if maxN.Some? then Increment(maxN.value) else Some(1);
  }

  /** The version of the release; None when a number would overflow. */
  function ComputeTarget(current: Version, kind: Kind, bump: Bump, tags: seq<string>): Option<Version> {
    match BumpCore(current, bump)
    case None => None
    case Some(core) =>
      match kind
      case Final => Some(core)
      case PreRelease =>
        match NextRc(tags, core)
        case Some(n) => Some(WithRc(core, n))
        case None => None
  }

  // ---- A computed rc is new ----

  lemma TargetWellFormed(current: Version, kind: Kind, bump: Bump, tags: seq<string>)
    requires WellFormed(current) && ComputeTarget(current, kind, bump, tags).Some?
    ensures WellFormed(ComputeTarget(current, kind, bump, tags).value)
  {
    assert !AllDigits("rc") by { assert "rc"[0] == 'r'; }
  }

  /** The tag of a well-formed version names that version. */
  lemma TagNames(v: Version)
    requires WellFormed(v)
    ensures TagVersion(TagOf(v)) == Some(v)
  {
    VersionRoundTrip(v);
    assert TagOf(v)[1..] == Show(v);
  }

  /** A computed pre-release tag is not among the known tags. */
  lemma RcTagIsFresh(current: Version, bump: Bump, tags: seq<string>)
    requires WellFormed(current) && ComputeTarget(current, PreRelease, bump, tags).Some?
    ensures TagOf(ComputeTarget(current, PreRelease, bump, tags).value) !in tags
  {
    var v := ComputeTarget(current, PreRelease, bump, tags).value;
    var core := BumpCore(current, bump).value;
    TargetWellFormed(current, PreRelease, bump, tags);
    TagNames(v);
    MaxRcIsMax(tags, core);
    assert CountedRc(TagOf(v), core) == NextRc(tags, core);
  }

  /** The tag names an rc of the core, whatever the size of its number. */
  predicate IsRcOf(tag: string, core: Version) {
    var v := TagVersion(tag);
    && v.Some? && SameCore(v.value, core)
    && |v.value.pre| == 2 && v.value.pre[0] == Alphanumeric("rc") && v.value.pre[1].Numeric?
  }

  /** An rc ranks above an rc of the same core exactly when its number is greater. */
  lemma RcOrder(v: Version, w: Version, m: nat, n: nat)
    requires SameCore(v, w) && v.pre == Rc(m) && w.pre == Rc(n)
    ensures Precedes(v, w) <==> m < n
  {
    var p, q := [Numeric(m)], [Numeric(n)];
    assert Rc(m)[1..] == p && Rc(n)[1..] == q && Rc(m)[0] == Rc(n)[0];
    assert IdentifiersBelow(Rc(m), Rc(n)) == IdentifiersBelow(p, q);
    assert p[1..] == [] && q[1..] == [];
    assert p[0] == q[0] <==> m == n;
    assert m == n ==> IdentifiersBelow(p, q) == IdentifiersBelow(p[1..], q[1..]);
    assert IdentifiersBelow(p, q) <==> m < n;
    assert PreBelow(v.pre, w.pre) <==> m < n;
    assert !CoreBelow(v, w);
  }

  /**
   * A computed rc ranks above every known rc of its core exactly when none of them has a number
   * beyond 64 bits, which the scan does not count.
   */
  lemma RcRanksHighestExactly(current: Version, bump: Bump, tags: seq<string>)
    requires ComputeTarget(current, PreRelease, bump, tags).Some?
    ensures var v := ComputeTarget(current, PreRelease, bump, tags).value;
            (forall tag | tag in tags && IsRcOf(tag, v) :: Precedes(TagVersion(tag).value, v)) <==>
            (forall tag | tag in tags && IsRcOf(tag, v) :: TagVersion(tag).value.pre[1].n <= U64_MAX)
  {
    var v := ComputeTarget(current, PreRelease, bump, tags).value;
    var core := BumpCore(current, bump).value;
    MaxRcIsMax(tags, core);
    forall tag | tag in tags && IsRcOf(tag, v)
      ensures Precedes(TagVersion(tag).value, v) <==> TagVersion(tag).value.pre[1].n <= U64_MAX
    {
      var w := TagVersion(tag).value;
      assert w.pre == Rc(w.pre[1].n);
      RcOrder(w, v, w.pre[1].n, v.pre[1].n);
      assert w.pre[1].n <= U64_MAX ==> CountedRc(tag, core) == Some(w.pre[1].n);
    }
  }

  /** A known rc beyond 64 bits is not counted, and outranks the rc that is computed. */
  lemma HugeRcOutranks() returns (current: Version, tags: seq<string>)
    ensures WellFormed(current) && ComputeTarget(current, PreRelease, NoBump, tags) == Some(WithRc(current, 1))
    ensures exists tag | tag in tags :: IsRcOf(tag, current) && Precedes(WithRc(current, 1), TagVersion(tag).value)
  {
    current := Version(1, 0, 0, [], []);
    var huge := WithRc(current, U64_MAX + 1);
    tags := [TagOf(huge)];
    assert !AllDigits("rc") by { assert "rc"[0] == 'r'; }
    TagNames(huge);
    RcOrder(WithRc(current, 1), huge, 1, U64_MAX + 1);
    assert CountedRc(tags[0], current).None?;
    assert tags[..0] == [] && MaxRc(tags, current) == None;
    assert TagOf(huge) in tags;
  }

  /** There is no next rc exactly when the last 64-bit number is taken. */
  lemma NoNextRcExactly(tags: seq<string>, core: Version)
    ensures NextRc(tags, core).None? <==> exists tag | tag in tags :: CountedRc(tag, core) == Some(U64_MAX)
  {
    MaxRcIsMax(tags, core);
    if exists tag | tag in tags :: CountedRc(tag, core) == Some(U64_MAX) {
      var tag :| tag in tags && CountedRc(tag, core) == Some(U64_MAX);
      assert MaxRc(tags, core).value <= U64_MAX by {
        var max :| max in tags && CountedRc(max, core) == MaxRc(tags, core);
      }
    }
  }

  // ---- A release moves forward ----

  /** The pre-release ranks below the rc that follows the counted ones: by its first identifier, or by its number. */
  predicate BelowNextRc(pre: seq<Identifier>, tags: seq<string>, core: Version) {
    pre != [] &&
    (|| IdentifierBelow(pre[0], Alphanumeric("rc"))
     || (pre[0] == Alphanumeric("rc")
         && (|pre| == 1 || (pre[1].Numeric? && (pre[1].n == 0 || Reached(tags, core, pre[1].n))))))
  }

  /** Some tag counts for the core with at least this rc number. */
  predicate Reached(tags: seq<string>, core: Version, n: nat) {
    exists tag | tag in tags :: CountedRc(tag, core).Some? && n <= CountedRc(tag, core).value
  }

  lemma NextRcAbove(tags: seq<string>, core: Version, n: nat)
    requires NextRc(tags, core).Some?
    ensures n < NextRc(tags, core).value <==> n == 0 || Reached(tags, core, n)
  {
    MaxRcIsMax(tags, core);
  }

  lemma PairBelow(p: seq<Identifier>, n: nat)
    ensures PreBelow(p, Rc(n)) <==>
            p != [] &&
            (|| IdentifierBelow(p[0], Alphanumeric("rc"))
             || (p[0] == Alphanumeric("rc") && (|p| == 1 || (p[1].Numeric? && p[1].n < n))))
  {
    var q := Rc(n);
    IdentifierTrichotomy(Alphanumeric("rc"), Alphanumeric("rc"));
    if p != [] && p[0] == q[0] {
      var p', q' := p[1..], q[1..];
      assert IdentifiersBelow(p, q) == IdentifiersBelow(p', q');
      assert q' == [Numeric(n)];
      if p' != [] && p'[0] == q'[0] {
        assert q'[1..] == [] && !IdentifiersBelow(p'[1..], q'[1..]);
      }
    }
  }

  /**
   * The release ranks strictly above the current version exactly when the core is bumped, or the
   * current version is a pre-release that a final leaves behind, or that the next rc outranks.
   */
  lemma ReleaseRanksAboveExactly(current: Version, kind: Kind, bump: Bump, tags: seq<string>)
    requires ComputeTarget(current, kind, bump, tags).Some?
    ensures var v := ComputeTarget(current, kind, bump, tags).value;
            Precedes(current, v) <==>
            || bump != NoBump
            || (if kind == Final then current.pre != [] else BelowNextRc(current.pre, tags, CoreOf(current)))
  {
    if bump == NoBump && kind == PreRelease {
      var n := NextRc(tags, CoreOf(current)).value;
      PairBelow(current.pre, n);
      if |current.pre| > 1 && current.pre[1].Numeric? {
        NextRcAbove(tags, CoreOf(current), current.pre[1].n);
      }
    }
  }

  /** The core rises at the level of the bump, or above it. */
  predicate Rises(current: Version, w: Version, bump: Bump) {
    match bump
    case NoBump => true
    case Patch => CoreBelow(current, w)
    case Minor => current.major < w.major || (current.major == w.major && current.minor < w.minor)
    case Major => current.major < w.major
  }

  /** A bump gives the least core that rises at its level, a plain one without pre-release or build. */
  lemma BumpIsLeast(current: Version, bump: Bump, w: Version)
    requires BumpCore(current, bump).Some? && bump != NoBump && Rises(current, w, bump)
    ensures var core := BumpCore(current, bump).value;
            Rises(current, core, bump) && !CoreBelow(w, core) && core.pre == [] && core.build == []
  {
  }

  /** The release target: above the current version on a real bump, and new among the tags if an rc. */
  method TargetVersion(current: Version, kind: Kind, bump: Bump, tags: seq<string>) returns (v: Option<Version>)
    ensures v == ComputeTarget(current, kind, bump, tags)
    ensures v.Some? && bump != NoBump ==> Precedes(current, v.value)
    ensures v.Some? && WellFormed(current) ==> WellFormed(v.value) && (kind == PreRelease ==> TagOf(v.value) !in tags)
  {
    if ComputeTarget(current, kind, bump, tags).Some? {
      ReleaseRanksAboveExactly(current, kind, bump, tags);
      if WellFormed(current) {
        TargetWellFormed(current, kind, bump, tags);
        if kind == PreRelease {
          RcTagIsFresh(current, bump, tags);
        }
      }
    }
    var core := BumpCore(current, bump);
    if core.None? || kind == Final {
      return core;
    }
    var n := NextRcNumber(tags, core.value);
    v := if n.Some? then Some(WithRc(core.value, n.value)) else None;
  }

  // ---- The manifest carries the version ----

  /** The version a manifest declares, if it declares one and it parses. */
  method ParseWorkspaceVersion(toml: string) returns (v: Option<Version>)
    ensures v.Some? ==>
              exists i: nat :: Manifest.IsFirstVersionLine(Manifest.Kinds(Manifest.Lines(toml)), i)
                && ParseVersion(Manifest.Kinds(Manifest.Lines(toml))[i].value) == v
    ensures forall i: nat | Manifest.IsFirstVersionLine(Manifest.Kinds(Manifest.Lines(toml)), i) ::
              v == ParseVersion(Manifest.Kinds(Manifest.Lines(toml))[i].value)
  {
    var found := Manifest.FindWorkspaceVersionLine(toml);
    if found.None? {
      return None;
    }
    forall i: nat | Manifest.IsFirstVersionLine(Manifest.Kinds(Manifest.Lines(toml)), i)
      ensures i == found.value.0
    {
    }
    v := ParseVersion(found.value.1);
  }

  lemma VersionIsPlainValue(v: Version)
    requires WellFormed(v)
    ensures Manifest.IsPlainValue(Show(v))
  {
    ShowVersionChars(v);
    forall i | 0 <= i < |Show(v)|
      ensures !Text.IsWhitespace(Show(v)[i]) && Show(v)[i] != '"'
    {
      assert IsVersionChar(Show(v)[i]);
    }
  }

  /** Setting a version in any manifest and reading it back gives that version. */
  lemma SetVersionReadsBack(toml: string, at: nat, v: Version)
    requires WellFormed(v) && at < |Manifest.Lines(toml)|
    ensures Manifest.IsFirstVersionLine(Manifest.Kinds(Manifest.Lines(toml)), at) ==>
              var kinds' := Manifest.Kinds(Manifest.Lines(Manifest.Rewritten(toml, at, Show(v))));
              Manifest.IsFirstVersionLine(kinds', at) && ParseVersion(kinds'[at].value) == Some(v)
  {
    VersionIsPlainValue(v);
    Manifest.RewriteReadsBack(toml, at, Show(v));
    VersionRoundTrip(v);
  }
}
