/** When a release run goes through, what the operator's answers mean, and which failure a stopped run reports. */
module ReleaseCompletion {
  import opened Wrappers
  import opened SemVer
  import opened ReleaseVersion
  import opened ReleaseRun
  import Text

  // ---- The answers ----

  /** The character is the lower-case letter, digit or hyphen of the word, or that letter's capital. */
  predicate SameLetter(c: char, d: char) {
    c == d || ('a' <= d <= 'z' && c as int == d as int - 32)
  }

  /** The text is the word, its letters in either case. */
  predicate Spells(text: string, word: string) {
    |text| == |word| && forall i | 0 <= i < |text| :: SameLetter(text[i], word[i])
  }

  /** The line holds the word and nothing else but white space around it. */
  predicate Says(line: string, word: string) {
    Spells(Text.Trim(line), word)
  }

  predicate NoCapitals(word: string) {
    forall i | 0 <= i < |word| :: !('A' <= word[i] <= 'Z')
  }

  lemma SpellsExactly(text: string, word: string)
    requires NoCapitals(word)
    ensures ToAsciiLower(text) == word <==> Spells(text, word)
  {
    var lower := ToAsciiLower(text);
    assert |lower| == |text| && forall i | 0 <= i < |text| :: lower[i] == Lower(text[i]);
    if Spells(text, word) {
      forall i | 0 <= i < |text|
        ensures lower[i] == word[i]
      {
        assert SameLetter(text[i], word[i]);
      }
      assert lower == word;
    }
  }

  ghost predicate SaysOneOf(line: string, words: set<string>) {
    exists word | word in words :: Says(line, word)
  }

  ghost predicate Uncapitalised(words: set<string>) {
    forall word | word in words :: NoCapitals(word)
  }

  lemma WordsExactly(line: string, words: set<string>)
    requires Uncapitalised(words)
    ensures ToAsciiLower(Text.Trim(line)) in words <==> SaysOneOf(line, words)
  {
    forall word | word in words
      ensures ToAsciiLower(Text.Trim(line)) == word <==> Says(line, word)
    {
      SpellsExactly(Text.Trim(line), word);
    }
  }

  function KindWords(kind: Kind): set<string> {
    match kind
    case PreRelease => {"1", "pre-release", "prerelease", "pre", "rc"}
    case Final => {"2", "final"}
  }

  function BumpWords(bump: Bump): set<string> {
    match bump
    case NoBump => {"1", "none"}
    case Patch => {"2", "patch"}
    case Minor => {"3", "minor"}
    case Major => {"4", "major"}
  }

  lemma KindWordsPlain(kind: Kind)
    ensures Uncapitalised(KindWords(kind))
  {
    assert NoCapitals("1") && NoCapitals("pre-release") && NoCapitals("prerelease") && NoCapitals("pre");
    assert NoCapitals("rc") && NoCapitals("2") && NoCapitals("final");
  }

  lemma BumpWordsPlain(bump: Bump)
    ensures Uncapitalised(BumpWords(bump))
  {
    assert NoCapitals("1") && NoCapitals("none") && NoCapitals("2") && NoCapitals("patch");
    assert NoCapitals("3") && NoCapitals("minor") && NoCapitals("4") && NoCapitals("major");
  }

  lemma KindTable(line: string, kind: Kind)
    ensures ParseKind(line) == Some(kind) <==> ToAsciiLower(Text.Trim(line)) in KindWords(kind)
  {
    DistinctKinds(ToAsciiLower(Text.Trim(line)));
  }

  lemma DistinctKinds(s: string)
    ensures s in {"2", "final"} ==> s !in {"1", "pre-release", "prerelease", "pre", "rc"}
  {
    assert "2"[0] == '2' && "final"[0] == 'f' && "1"[0] == '1' && "rc"[0] == 'r' && "pre"[0] == 'p';
    assert "pre-release"[0] == 'p' && "prerelease"[0] == 'p';
  }

  lemma BumpTable(line: string, bump: Bump)
    ensures ParseBump(line) == Some(bump) <==> ToAsciiLower(Text.Trim(line)) in BumpWords(bump)
  {
    DistinctWords(ToAsciiLower(Text.Trim(line)));
  }

  lemma DistinctWords(s: string)
    ensures s in {"2", "patch"} ==> s !in {"1", "none"}
    ensures s in {"3", "minor"} ==> s !in {"1", "none"} && s !in {"2", "patch"}
    ensures s in {"4", "major"} ==> s !in {"1", "none"} && s !in {"2", "patch"} && s !in {"3", "minor"}
  {
    assert "1"[0] == '1' && "2"[0] == '2' && "3"[0] == '3' && "4"[0] == '4';
    assert |"none"| == 4 && |"patch"| == 5 && |"minor"| == 5 && |"major"| == 5;
    assert "patch"[0] == 'p' && "minor"[1] == 'i' && "major"[1] == 'a';
  }

  /** Which answers ask for a pre-release, and which for a final release; no other answer is taken. */
  lemma KindAnswers(line: string, kind: Kind)
    ensures ParseKind(line) == Some(kind) <==> SaysOneOf(line, KindWords(kind))
  {
    KindTable(line, kind);
    KindWordsPlain(kind);
    WordsExactly(line, KindWords(kind));
  }

  /** Which answers ask for which bump; no other answer is taken. */
  lemma BumpAnswers(line: string, bump: Bump)
    ensures ParseBump(line) == Some(bump) <==> SaysOneOf(line, BumpWords(bump))
  {
    BumpTable(line, bump);
    BumpWordsPlain(bump);
    WordsExactly(line, BumpWords(bump));
  }

  // ---- The prompts ----

  /** `count` writes in a row succeed. */
  predicate WritesOk(env: Env, from: nat, count: nat) {
    forall n | from <= n < from + count :: env.writeOk(n)
  }

  lemma WritesSplit(env: Env, from: nat, count: nat, more: nat)
    ensures WritesOk(env, from, count + more) <==> WritesOk(env, from, count) && WritesOk(env, from + count, more)
  {
    if WritesOk(env, from, count) && WritesOk(env, from + count, more) {
      forall n | from <= n < from + count + more
        ensures env.writeOk(n)
      {
        if n < from + count {
          assert env.writeOk(n);
        }
      }
    }
  }

  /** A prompt whose first good answer is line `k` goes through when each prompt and each complaint can be written. */
  lemma {:induction false} AskGoes<T>(env: Env, s: State, parse: string -> Option<T>, k: nat, value: T)
    requires FirstAnswer(s, 0, k, parse, value)
    ensures Ask(env, s, parse).Go? <==> WritesOk(env, s.written, 2 * k + 1)
    ensures Ask(env, s, parse).Go? ==>
              Ask(env, s, parse) == Go(s.(input := s.input[k + 1..], written := s.written + 2 * k + 1), value)
    decreases k
  {
    if k == 0 {
      AskOnce(env, s, parse);
    } else {
      var s' := s.(input := s.input[1..], written := s.written + 2);
      assert forall j | 0 <= j < k :: s'.input[j] == s.input[j + 1];
      assert FirstAnswer(s', 0, k - 1, parse, value);
      AskGoes(env, s', parse, k - 1, value);
      WritesSplit(env, s.written, 2, 2 * k - 1);
      AskAgain(env, s, parse);
      assert s'.input[k..] == s.input[k + 1..];
    }
  }

  lemma AskOnce<T>(env: Env, s: State, parse: string -> Option<T>)
    requires s.input != [] && s.input[0].Some? && parse(s.input[0].value).Some?
    ensures Ask(env, s, parse).Go? <==> WritesOk(env, s.written, 1)
    ensures Ask(env, s, parse).Go? ==>
              Ask(env, s, parse) ==
              Go(s.(input := s.input[1..], written := s.written + 1), parse(s.input[0].value).value)
  {
  }

  lemma AskAgain<T>(env: Env, s: State, parse: string -> Option<T>)
    requires s.input != [] && s.input[0].Some? && parse(s.input[0].value).None?
    ensures WritesOk(env, s.written, 2) ==>
              Ask(env, s, parse) == Ask(env, s.(input := s.input[1..], written := s.written + 2), parse)
    ensures !WritesOk(env, s.written, 2) ==> Ask(env, s, parse).Stop?
  {
    assert WritesOk(env, s.written, 2) <==> env.writeOk(s.written) && env.writeOk(s.written + 1);
  }

  /** The prompt is answered exactly when some line parses, all lines before it can be read, and the writes succeed. */
  lemma AskExactly<T>(env: Env, s: State, parse: string -> Option<T>)
    ensures Ask(env, s, parse).Go? <==>
            exists k: nat, value: T :: FirstAnswer(s, 0, k, parse, value) && WritesOk(env, s.written, 2 * k + 1)
  {
    if Ask(env, s, parse).Go? {
      var k := AskAnswers(env, s, parse);
      AskGoes(env, s, parse, k, Ask(env, s, parse).value);
    } else {
      forall k: nat, value: T | FirstAnswer(s, 0, k, parse, value)
        ensures !WritesOk(env, s.written, 2 * k + 1)
      {
        AskGoes(env, s, parse, k, value);
      }
    }
  }

  lemma AnswerFrom<T>(s: State, s': State, from: nat, at: nat, parse: string -> Option<T>, value: T)
    requires from <= |s.input| && s'.input == s.input[from..] && FirstAnswer(s, from, at, parse, value)
    ensures FirstAnswer(s', 0, at - from, parse, value)
  {
    forall j | 0 <= j < at - from
      ensures s'.input[j].Some? && parse(s'.input[j].value).None?
    {
      assert s'.input[j] == s.input[from + j];
    }
  }

  /** Two prompts in a row. */
  lemma TwoGo<A, B>(env: Env, s: State, first: string -> Option<A>, second: string -> Option<B>,
                    a: A, b: B, k: nat, m: nat)
    requires FirstAnswer(s, 0, k, first, a) && FirstAnswer(s, k + 1, m, second, b)
    ensures var o := Ask(env, s, first);
            if WritesOk(env, s.written, 2 * m) then
              && o.Go? && o.value == a
              && Ask(env, o.state, second) == Go(s.(input := s.input[m + 1..], written := s.written + 2 * m), b)
            else o.Stop? || Ask(env, o.state, second).Stop?
  {
    var s' := s.(input := s.input[k + 1..], written := s.written + 2 * k + 1);
    var rest := m - (k + 1);
    AskGoes(env, s, first, k, a);
    AnswerFrom(s, s', k + 1, m, second, b);
    AskGoes(env, s', second, rest, b);
    WritesSplit(env, s.written, 2 * k + 1, 2 * rest + 1);
    assert s'.input[rest + 1..] == s.input[m + 1..];
  }

  /** `o` reads the lines up to `m` and writes `writes` messages, or stops at one that cannot be written. */
  ghost predicate Reads<T>(env: Env, s: State, o: Outcome<T>, value: T, m: nat, writes: nat) {
    && m < |s.input|
    && (o.Go? <==> WritesOk(env, s.written, writes))
    && (o.Go? ==> o.value == value && o.state == s.(input := s.input[m + 1..], written := s.written + writes))
  }

  lemma ChooseGoes(env: Env, s: State, choice: (Kind, Bump), k: nat, m: nat)
    requires Answered(s, choice, k, m)
    ensures Reads(env, s, Choose(env, s), choice, m, 2 * m)
  {
    TwoGo(env, s, ParseKind, ParseBump, choice.0, choice.1, k, m);
  }

  // ---- Before the first gate ----

  lemma PreflightMoves(env: Env, s: State)
    ensures Preflight(env, s).Go? <==> FitToRelease(env.facts) && WritesOk(env, s.written, 4)
    ensures Preflight(env, s).Go? ==> Preflight(env, s) == Go(s.(written := s.written + 4), ())
  {
    PreflightExactly(env, s);
  }

  lemma SettleGoes(env: Env, s: State, target: Option<Version>, tags: seq<string>)
    ensures SettleTarget(env, s, target, tags).Go? <==>
            target.Some? && TagOf(target.value) !in tags && env.writeOk(s.written)
    ensures SettleTarget(env, s, target, tags).Go? ==>
              SettleTarget(env, s, target, tags) ==
              Go(s.(written := s.written + 1), (target.value, TagOf(target.value)))
  {
    if target.Some? {
      SettleTagGoes(env, s, target.value, TagOf(target.value), tags);
    }
  }

  lemma SettleTagGoes(env: Env, s: State, v: Version, tag: string, tags: seq<string>)
    ensures SettleTag(env, s, v, tag, tags).Go? <==> tag !in tags && env.writeOk(s.written)
    ensures SettleTag(env, s, v, tag, tags).Go? ==>
              SettleTag(env, s, v, tag, tags) == Go(s.(written := s.written + 1), (v, tag))
  {
  }

  lemma PlanBehind(env: Env, s: State, s': State, choice: (Kind, Bump))
    requires Choose(env, s) == Go(s', choice)
    ensures Surveyed(env.facts) ==>
              var tags := KnownTags(env.facts);
              MakePlan(env, s) ==
              SettleTarget(env, s', ComputeTarget(env.facts.version.value, choice.0, choice.1, tags), tags)
    ensures !Surveyed(env.facts) ==> MakePlan(env, s).Stop?
  {
    SurveyGoes(env, s');
  }

  lemma PlanStops(env: Env, s: State)
    requires Choose(env, s).Stop?
    ensures MakePlan(env, s).Stop?
  {
  }

  lemma PlanFrom(env: Env, s: State, s': State, choice: (Kind, Bump))
    requires Choose(env, s) == Go(s', choice)
    ensures var o := MakePlan(env, s);
            && (o.Go? <==> (exists v :: IsPlanned(env.facts, choice, v)) && env.writeOk(s'.written))
            && (o.Go? ==>
                  && IsPlanned(env.facts, choice, o.value.0) && o.value.1 == TagOf(o.value.0)
                  && o.state == s'.(written := s'.written + 1))
  {
    PlanBehind(env, s, s', choice);
    if Surveyed(env.facts) {
      var target := ComputeTarget(env.facts.version.value, choice.0, choice.1, KnownTags(env.facts));
      SettleGoes(env, s', target, KnownTags(env.facts));
      PlannedExactly(env.facts, choice, target);
    }
  }

  /** `o` follows `first` with one more message. */
  ghost predicate Follows<A, B>(env: Env, first: Outcome<A>, o: Outcome<B>, value: B) {
    && (o.Go? <==> first.Go? && env.writeOk(first.state.written))
    && (o.Go? ==> o.value == value && o.state == first.state.(written := first.state.written + 1))
  }

  lemma FollowReads<A, B>(env: Env, s: State, first: Outcome<A>, o: Outcome<B>, a: A, b: B, m: nat, writes: nat)
    requires Reads(env, s, first, a, m, writes) && Follows(env, first, o, b)
    ensures Reads(env, s, o, b, m, writes + 1)
  {
    WritesSplit(env, s.written, writes, 1);
    OneWrite(env, s.written + writes);
  }

  lemma PlanFollows(env: Env, s: State, choice: (Kind, Bump), v: Version)
    requires Choose(env, s).Go? ==> Choose(env, s).value == choice
    requires IsPlanned(env.facts, choice, v)
    ensures Follows(env, Choose(env, s), MakePlan(env, s), (v, TagOf(v)))
  {
    if Choose(env, s).Go? {
      PlanFrom(env, s, Choose(env, s).state, choice);
    } else {
      PlanStops(env, s);
    }
  }

  lemma OneWrite(env: Env, at: nat)
    ensures WritesOk(env, at, 1) <==> env.writeOk(at)
  {
  }

  lemma SurveyGoes(env: Env, s: State)
    ensures Survey(env, s).Go? <==> Surveyed(env.facts)
    ensures Survey(env, s).Go? ==> Survey(env, s) == Go(s, (env.facts.version.value, KnownTags(env.facts)))
  {
  }

  lemma PlannedExactly(facts: Facts, choice: (Kind, Bump), target: Option<Version>)
    requires Surveyed(facts)
    requires target == ComputeTarget(facts.version.value, choice.0, choice.1, KnownTags(facts))
    ensures (exists v :: IsPlanned(facts, choice, v)) <==> target.Some? && TagOf(target.value) !in KnownTags(facts)
  {
    if target.Some? && TagOf(target.value) !in KnownTags(facts) {
      assert IsPlanned(facts, choice, target.value);
    }
  }

  /** Two answers, the second on line `m`, plan the version. */
  ghost predicate Leads(env: Env, s: State, v: Version, m: nat) {
    exists choice, k :: Answered(s, choice, k, m) && IsPlanned(env.facts, choice, v)
  }

  lemma LeadsPlan(env: Env, s: State, s': State, v: Version, m: nat)
    requires Leads(env, s, v, m) && s'.input == s.input
    ensures Reads(env, s', MakePlan(env, s'), (v, TagOf(v)), m, 2 * m + 1)
  {
    var choice, k :| Answered(s, choice, k, m) && IsPlanned(env.facts, choice, v);
    SameAnswers(s', s, choice, k, m);
    ChooseGoes(env, s', choice, k, m);
    PlanFollows(env, s', choice, v);
    FollowReads(env, s', Choose(env, s'), MakePlan(env, s'), choice, (v, TagOf(v)), m, 2 * m);
  }

  /** On a fit repository `o` reads the lines up to `m` and writes `writes` messages; otherwise it stops. */
  ghost predicate FitReads<T>(env: Env, s: State, o: Outcome<T>, value: T, m: nat, writes: nat) {
    if FitToRelease(env.facts) then Reads(env, s, o, value, m, writes) else o.Stop?
  }

  /** The preparation gives `v`, with the gates to read from line `m + 1` on. */
  ghost predicate Prepares(env: Env, s: State, v: Version, m: nat) {
    m < |s.input| && FitReads(env, s, Prepare(env, s), (v, TagOf(v)), m, 2 * m + 6)
  }

  lemma FitFollows<T>(env: Env, s: State, plan: Outcome<T>, o: Outcome<T>, value: T, m: nat, writes: nat)
    requires Reads(env, s.(written := s.written + 5), plan, value, m, writes)
    requires if FitToRelease(env.facts) && WritesOk(env, s.written, 5) then o == plan else o.Stop?
    ensures FitReads(env, s, o, value, m, writes + 5)
  {
    WritesSplit(env, s.written, 5, writes);
  }

  lemma PrepareReaches(env: Env, s: State)
    requires env.writeOk(s.written) && Preflight(env, Say(env, s).state).Go?
    ensures Prepare(env, s) == MakePlan(env, Preflight(env, Say(env, s).state).state)
  {
  }

  lemma PrepareStops(env: Env, s: State)
    requires env.writeOk(s.written) && Preflight(env, Say(env, s).state).Stop?
    ensures Prepare(env, s).Stop?
  {
  }

  lemma PrepareUnsaid(env: Env, s: State)
    requires !env.writeOk(s.written)
    ensures Prepare(env, s).Stop?
  {
  }

  lemma PrepareReady(env: Env, s: State)
    requires FitToRelease(env.facts) && WritesOk(env, s.written, 5)
    ensures Prepare(env, s) == MakePlan(env, s.(written := s.written + 5))
  {
    WritesSplit(env, s.written, 1, 4);
    var said := Say(env, s).state;
    PreflightMoves(env, said);
    assert said.(written := said.written + 4) == s.(written := s.written + 5);
    PrepareReaches(env, s);
  }

  lemma PrepareUnready(env: Env, s: State)
    requires !FitToRelease(env.facts) || !WritesOk(env, s.written, 5)
    ensures Prepare(env, s).Stop?
  {
    WritesSplit(env, s.written, 1, 4);
    if env.writeOk(s.written) {
      PreflightMoves(env, Say(env, s).state);
      PrepareStops(env, s);
    } else {
      PrepareUnsaid(env, s);
    }
  }

  lemma PrepareGoes(env: Env, s: State, v: Version, m: nat)
    requires var ready := s.(written := s.written + 5);
             Reads(env, ready, MakePlan(env, ready), (v, TagOf(v)), m, 2 * m + 1)
    ensures Prepares(env, s, v, m)
  {
    if FitToRelease(env.facts) && WritesOk(env, s.written, 5) {
      PrepareReady(env, s);
    } else {
      PrepareUnready(env, s);
    }
    FitFollows(env, s, MakePlan(env, s.(written := s.written + 5)), Prepare(env, s), (v, TagOf(v)), m, 2 * m + 1);
  }

  // ---- Behind the first gate ----

  lemma PushGoes(env: Env, s: State, tag: string)
    ensures PushGate(env, s, tag).Go? <==>
            Typed(s, 0, tag) && env.schedule.pushed && env.writeOk(s.written) && env.writeOk(s.written + 1)
  {
    if env.writeOk(s.written) && s.input != [] && s.input[0].Some? {
      assert AskLine(env, s) == Go(s.(input := s.input[1..], written := s.written + 1), s.input[0].value);
    }
  }

  lemma FourWrites(env: Env, at: nat)
    ensures WritesOk(env, at, 4) <==>
            env.writeOk(at) && env.writeOk(at + 1) && env.writeOk(at + 2) && env.writeOk(at + 3)
  {
  }

  /** An execution goes through exactly on two typed tags, five effects that succeed, and four writes. */
  lemma ExecuteGoes(env: Env, s: State, v: Version, tag: string, edited: Option<string>)
    ensures Execute(env, s, v, tag, edited).Go? <==>
            && Typed(s, 0, tag) && Typed(s, 1, tag)
            && LocalSucceeds(env.schedule, edited) && env.schedule.pushed && WritesOk(env, s.written, 4)
  {
    FourWrites(env, s.written);
    if FirstGate(env, s, tag) {
      GateOpen(env, s, v, tag, edited);
      LocalHint(env, BehindGate(s), v, tag, edited);
      LocalKeepsConsole(env, BehindGate(s), v, tag, edited);
      PushGoes(env, LocalEffects(env, BehindGate(s), v, tag, edited).state, tag);
      assert Typed(BehindGate(s), 0, tag) <==> Typed(s, 1, tag);
    } else {
      GateShut(env, s, v, tag, edited);
    }
  }

  /** Two answers plan `v`, and its tag is typed on the next two lines. */
  ghost predicate Publishes(env: Env, s: State, v: Version, m: nat) {
    && Leads(env, s, v, m) && FitToRelease(env.facts)
    && Typed(s, m + 1, TagOf(v)) && Typed(s, m + 2, TagOf(v))
    && LocalSucceeds(env.schedule, EditedManifest(s.repo, v)) && env.schedule.pushed
    && WritesOk(env, s.written, 2 * m + 10)
  }

  ghost predicate DryRuns(env: Env, s: State, v: Version, m: nat) {
    Leads(env, s, v, m) && FitToRelease(env.facts) && WritesOk(env, s.written, 2 * m + 7)
  }

  /** Behind the preparation, a run is its plan. */
  lemma RunIs(env: Env, s: State, dryRun: bool)
    requires Prepare(env, s).Go?
    ensures Orchestrate(env, s, dryRun) == RunPlan(env, Prepare(env, s).state, Prepare(env, s).value, dryRun)
  {
  }

  /** Two typed tags, five effects that succeed, and four messages. */
  ghost predicate Executes(env: Env, s: State, plan: (Version, string)) {
    && Typed(s, 0, plan.1) && Typed(s, 1, plan.1)
    && LocalSucceeds(env.schedule, EditedManifest(s.repo, plan.0)) && env.schedule.pushed
    && WritesOk(env, s.written, 4)
  }

  lemma PlanRuns(env: Env, s: State, plan: (Version, string))
    ensures RunPlan(env, s, plan, true).Go? <==> env.writeOk(s.written)
    ensures RunPlan(env, s, plan, false).Go? <==> Executes(env, s, plan)
  {
    ExecuteGoes(env, s, plan.0, plan.1, EditedManifest(s.repo, plan.0));
    assert RunPlan(env, s, plan, false) == Execute(env, s, plan.0, plan.1, EditedManifest(s.repo, plan.0));
  }

  lemma PreparedRuns(env: Env, s: State)
    requires Prepare(env, s).Go?
    ensures Orchestrate(env, s, true).Go? <==> env.writeOk(Prepare(env, s).state.written)
    ensures Orchestrate(env, s, false).Go? <==> Executes(env, Prepare(env, s).state, Prepare(env, s).value)
  {
    RunIs(env, s, true);
    RunIs(env, s, false);
    PlanRuns(env, Prepare(env, s).state, Prepare(env, s).value);
  }

  lemma TypedBehind(s: State, s': State, m: nat, tag: string)
    requires m < |s.input| && s'.input == s.input[m + 1..]
    ensures Typed(s', 0, tag) <==> Typed(s, m + 1, tag)
    ensures Typed(s', 1, tag) <==> Typed(s, m + 2, tag)
  {
  }

  lemma ExecutesBehind(env: Env, s: State, v: Version, m: nat)
    requires m < |s.input| && WritesOk(env, s.written, 2 * m + 6)
    ensures var s' := s.(input := s.input[m + 1..], written := s.written + 2 * m + 6);
            Executes(env, s', (v, TagOf(v))) <==>
            && Typed(s, m + 1, TagOf(v)) && Typed(s, m + 2, TagOf(v))
            && LocalSucceeds(env.schedule, EditedManifest(s.repo, v)) && env.schedule.pushed
            && WritesOk(env, s.written, 2 * m + 10)
  {
    WritesSplit(env, s.written, 2 * m + 6, 4);
    TypedBehind(s, s.(input := s.input[m + 1..], written := s.written + 2 * m + 6), m, TagOf(v));
  }

  /** What a preparation that reads up to line `m` means for the run itself and for a dry run. */
  lemma RunDecides(env: Env, s: State, prepared: Outcome<(Version, string)>, run: Outcome<()>, dry: Outcome<()>,
                   v: Version, m: nat)
    requires m < |s.input| && FitReads(env, s, prepared, (v, TagOf(v)), m, 2 * m + 6)
    requires prepared.Stop? ==> run.Stop? && dry.Stop?
    requires prepared.Go? ==>
               && (dry.Go? <==> env.writeOk(prepared.state.written))
               && (run.Go? <==> Executes(env, prepared.state, prepared.value))
    ensures run.Go? <==>
            && FitToRelease(env.facts) && Typed(s, m + 1, TagOf(v)) && Typed(s, m + 2, TagOf(v))
            && LocalSucceeds(env.schedule, EditedManifest(s.repo, v)) && env.schedule.pushed
            && WritesOk(env, s.written, 2 * m + 10)
    ensures dry.Go? <==> FitToRelease(env.facts) && WritesOk(env, s.written, 2 * m + 7)
  {
    WritesSplit(env, s.written, 2 * m + 6, 1);
    WritesSplit(env, s.written, 2 * m + 6, 4);
    OneWrite(env, s.written + 2 * m + 6);
    if prepared.Go? {
      ExecutesBehind(env, s, v, m);
    }
  }

  lemma RunGoes(env: Env, s: State, v: Version, m: nat)
    requires Prepares(env, s, v, m)
    ensures Orchestrate(env, s, false).Go? <==>
            && FitToRelease(env.facts) && Typed(s, m + 1, TagOf(v)) && Typed(s, m + 2, TagOf(v))
            && LocalSucceeds(env.schedule, EditedManifest(s.repo, v)) && env.schedule.pushed
            && WritesOk(env, s.written, 2 * m + 10)
    ensures Orchestrate(env, s, true).Go? <==> FitToRelease(env.facts) && WritesOk(env, s.written, 2 * m + 7)
  {
    if Prepare(env, s).Go? {
      PreparedRuns(env, s);
    } else {
      StopsUnprepared(env, s);
    }
    RunDecides(env, s, Prepare(env, s), Orchestrate(env, s, false), Orchestrate(env, s, true), v, m);
  }

  lemma PlannedRunGoes(env: Env, s: State, v: Version, m: nat)
    requires Leads(env, s, v, m)
    ensures Orchestrate(env, s, false).Go? <==> Publishes(env, s, v, m)
    ensures Orchestrate(env, s, true).Go? <==> DryRuns(env, s, v, m)
  {
    LeadsPlan(env, s, s.(written := s.written + 5), v, m);
    PrepareGoes(env, s, v, m);
    RunGoes(env, s, v, m);
  }

  lemma PreparedLeads(env: Env, s: State) returns (m: nat)
    ensures Prepare(env, s).Go? ==> Leads(env, s, Prepare(env, s).value.0, m)
  {
    var choice, k;
    choice, k, m := PreparedFromAnswers(env, s);
  }

  /**
   * A run goes through exactly when the repository is fit, the two answers plan a version with a
   * new tag, the tag is typed on the next two lines, all five effects succeed, and every message
   * can be written. A dry run needs neither the typed tags nor the effects.
   */
  lemma RunGoesExactly(env: Env, s: State)
    ensures Orchestrate(env, s, false).Go? <==> exists v, m: nat :: Publishes(env, s, v, m)
    ensures Orchestrate(env, s, true).Go? <==> exists v, m: nat :: DryRuns(env, s, v, m)
  {
    var m := PreparedLeads(env, s);
    if Prepare(env, s).Go? {
      PlannedRunGoes(env, s, Prepare(env, s).value.0, m);
    }
    forall v, m: nat | Leads(env, s, v, m)
      ensures Orchestrate(env, s, false).Go? <==> Publishes(env, s, v, m)
      ensures Orchestrate(env, s, true).Go? <==> DryRuns(env, s, v, m)
    {
      PlannedRunGoes(env, s, v, m);
    }
    StopsUnprepared(env, s);
  }

  lemma StopsUnprepared(env: Env, s: State)
    ensures Prepare(env, s).Stop? ==> Orchestrate(env, s, false).Stop? && Orchestrate(env, s, true).Stop?
  {
  }

  // ---- Which failure is reported ----

  /** The first thing that goes wrong in the checks, in their order. */
  lemma PreflightFailure(env: Env, s: State)
    requires Preflight(env, s).Stop?
    ensures var facts := env.facts;
            Preflight(env, s).failure ==
            if facts.branch.None? then ReadFailed
            else if !env.writeOk(s.written) then StreamError
            else if facts.branch != Some("main") then NotOnMain
            else if facts.clean.None? then ReadFailed
            else if !env.writeOk(s.written + 1) then StreamError
            else if facts.clean == Some(false) then NotClean
            else if !facts.fetched || facts.synced.None? then ReadFailed
            else if !env.writeOk(s.written + 2) then StreamError
            else if facts.synced == Some(false) then Diverged
            else StreamError
  {
  }

  /** A local effect that fails names itself, and what undoes the effects before it. */
  lemma LocalFailure(env: Env, s: State, v: Version, tag: string, edited: Option<string>)
    requires LocalEffects(env, s, v, tag, edited).Stop?
    ensures LocalEffects(env, s, v, tag, edited).failure ==
            if edited.None? || env.schedule.setVersion != Written then EffectFailed(SetVersion(v), RestoreFiles)
            else if env.schedule.refreshLock.Broke? then EffectFailed(RefreshLock, RestoreFiles)
            else if env.schedule.commit != Committed then EffectFailed(CommitFiles("release: " + tag), RestoreFiles)
            else EffectFailed(AnnotateTag(tag), DropCommit)
  {
  }

  /** At the push gate: a line other than the tag, or a failed push, names tag and commit as what to drop. */
  lemma PushFailure(env: Env, s: State, tag: string)
    requires PushGate(env, s, tag).Stop?
    ensures PushGate(env, s, tag).failure ==
            if !env.writeOk(s.written) then StreamError
            else if s.input == [] then EndOfInput
            else if s.input[0].None? then StreamError
            else if s.input[0] != Some(tag) then PushGateMismatch(DropTagAndCommit(tag))
            else if !env.schedule.pushed then EffectFailed(PushAtomic(tag), DropTagAndCommit(tag))
            else StreamError
  {
    if env.writeOk(s.written) && s.input != [] && s.input[0].Some? {
      assert AskLine(env, s) == Go(s.(input := s.input[1..], written := s.written + 1), s.input[0].value);
    }
  }

  /** At the first gate: a line other than the tag is a mismatch, and nothing was done. */
  lemma GateFailure(env: Env, s: State, v: Version, tag: string, edited: Option<string>)
    requires !FirstGate(env, s, tag)
    ensures Execute(env, s, v, tag, edited).Stop?
    ensures Execute(env, s, v, tag, edited).failure ==
            if !env.writeOk(s.written) || !env.writeOk(s.written + 1) then StreamError
            else if s.input == [] then EndOfInput
            else if s.input[0].None? then StreamError
            else FirstGateMismatch
  {
    GateShut(env, s, v, tag, edited);
  }

  /** Without a target there is an overflow; a known tag stops the run; nothing else does but the stream. */
  lemma SettleFailure(env: Env, s: State, choice: (Kind, Bump), current: Version, tags: seq<string>)
    requires Settle(env, s, choice, current, tags).Stop?
    ensures var target := ComputeTarget(current, choice.0, choice.1, tags);
            Settle(env, s, choice, current, tags).failure ==
            if target.None? then Overflowed
            else if TagOf(target.value) in tags then TagExists
            else StreamError
  {
  }
}
