/**
 * The release run: read-only checks and prompts, then five effects gated by two typed
 * confirmations, over a model of the repository with its index and its remote.
 */
module ReleaseRun {
  import opened Wrappers
  import opened SemVer
  import opened ReleaseVersion
  import Manifest
  import Text

  // ---- The repository ----

  /** The two release files. */
  datatype Files = Files(manifest: string, lock: string)

  datatype Commit = Commit(files: Files, message: string)

  datatype Repo = Repo(
    history: seq<Commit>, index: Files, worktree: Files, tags: map<string, seq<Commit>>,
    remote: seq<Commit>, remoteTags: set<string>)

  /** Nothing is staged or changed since the last commit. */
  predicate Clean(repo: Repo) {
    repo.history != [] && repo.index == repo.worktree == repo.history[|repo.history| - 1].files
  }

  datatype Effect =
    | SetVersion(version: Version)
    | RefreshLock
    | CommitFiles(message: string)
    | AnnotateTag(tag: string)
    | PushAtomic(tag: string)

  /** What an error message tells the operator to run. */
  datatype Recovery = RestoreFiles | DropCommit | DropTagAndCommit(tag: string)

  datatype Failure =
    | StreamError | EndOfInput | ReadFailed
    | NotOnMain | NotClean | Diverged | Overflowed | TagExists
    | FirstGateMismatch
    | EffectFailed(effect: Effect, recovery: Recovery)
    | PushGateMismatch(recovery: Recovery)

  function Hint(failure: Failure): Option<Recovery> {
    match failure
    case EffectFailed(_, recovery) => Some(recovery)
    case PushGateMismatch(recovery) => Some(recovery)
    case _ => None
  }

  /** `git reset --hard HEAD~1`. */
  function ResetOne(repo: Repo): Repo {
    if |repo.history| < 2 then repo
    else
      var history := repo.history[..|repo.history| - 1];
      var files := history[|history| - 1].files;
      repo.(history := history, index := files, worktree := files)
  }

  /** `git checkout -- Cargo.toml Cargo.lock` takes the files from the index, not from HEAD. */
  function Recover(repo: Repo, recovery: Recovery): Repo {
    match recovery
    case RestoreFiles => repo.(worktree := repo.index)
    case DropCommit => ResetOne(repo)
    case DropTagAndCommit(tag) => ResetOne(repo.(tags := repo.tags - {tag}))
  }

  // ---- The environment ----

  /** The manifest is edited and written; it cannot be read; or its write fails and leaves any content. */
  datatype ManifestWrite = Written | Unread | Torn(content: string)

  /** A run of the lock refresh that succeeds, or fails with whatever it left on disk. */
  datatype Write = Wrote(content: string) | Broke(content: string)

  /** The commit effect stages the files and then commits; either part can fail. */
  datatype CommitOutcome = Committed | AddFailed | CommitFailed

  datatype Schedule = Schedule(
    setVersion: ManifestWrite, refreshLock: Write, commit: CommitOutcome, tagged: bool, pushed: bool)

  /** What the read-only commands report; None when a command fails. */
  datatype Facts = Facts(
    branch: Option<string>, clean: Option<bool>, fetched: bool, synced: Option<bool>,
    version: Option<Version>, localTags: Option<seq<string>>, remoteTags: Option<seq<string>>)

  /** `writeOk(k)` tells whether the k-th write to the output stream succeeds. */
  datatype Env = Env(facts: Facts, schedule: Schedule, writeOk: nat -> bool)

  /** `input` holds the lines the operator will type, trimmed, None for a read error; `trace` the effects done. */
  datatype State = State(repo: Repo, trace: seq<Effect>, input: seq<Option<string>>, written: nat)

  datatype Outcome<T> = Go(state: State, value: T) | Stop(state: State, failure: Failure)
  {
    predicate IsFailure() {
      Stop?
    }

    function PropagateFailure<U>(): Outcome<U>
      requires Stop?
    {
      Stop(state, failure)
    }

    function Extract(): (State, T)
      requires Go?
    {
      (state, value)
    }
  }

  // ---- The run as a function of state ----

  function Say(env: Env, s: State): Outcome<()> {
    var s' := s.(written := s.written + 1);
    if env.writeOk(s.written) then Go(s', ()) else Stop(s', StreamError)
  }

  function ReadLine(s: State): Outcome<string> {
    if s.input == [] then Stop(s, EndOfInput)
    else
      var s' := s.(input := s.input[1..]);
      match s.input[0]
      case None => Stop(s', StreamError)
      case Some(line) => Go(s', line)
  }

  /** Prompts once and takes the line as it is. */
  function AskLine(env: Env, s: State): Outcome<string> {
    var (s1, _) :- Say(env, s);
    ReadLine(s1)
  }

  /** Prompts until `parse` accepts a line. */
  function Ask<T>(env: Env, s: State, parse: string -> Option<T>): Outcome<T>
    decreases |s.input|
  {
    var (s1, line) :- AskLine(env, s);
    match parse(line)
    case Some(v) => Go(s1, v)
    case None =>
      var (s2, _) :- Say(env, s1);
      Ask(env, s2, parse)
  }

  function Guard(s: State, ok: bool, failure: Failure): Outcome<()> {
    if ok then Go(s, ()) else Stop(s, failure)
  }

  function Read<T>(s: State, fact: Option<T>): Outcome<T> {
    match fact
    case Some(v) => Go(s, v)
    case None => Stop(s, ReadFailed)
  }

  function BranchCheck(env: Env, s: State): Outcome<()> {
    var (s1, branch) :- Read(s, env.facts.branch);
    var (s2, _) :- Say(env, s1);
    Guard(s2, branch == "main", NotOnMain)
  }

  function CleanCheck(env: Env, s: State): Outcome<()> {
    var (s1, clean) :- Read(s, env.facts.clean);
    var (s2, _) :- Say(env, s1);
    Guard(s2, clean, NotClean)
  }

  function SyncCheck(env: Env, s: State): Outcome<()> {
    var (s1, _) :- Guard(s, env.facts.fetched, ReadFailed);
    var (s2, synced) :- Read(s1, env.facts.synced);
    var (s3, _) :- Say(env, s2);
    Guard(s3, synced, Diverged)
  }

  /** The first failed check ends the run; a reminder follows the last. */
  function Preflight(env: Env, s: State): Outcome<()> {
    var (s1, _) :- BranchCheck(env, s);
    var (s2, _) :- CleanCheck(env, s1);
    var (s3, _) :- SyncCheck(env, s2);
    Say(env, s3)
  }

  function Lower(c: char): char {
    if 'A' <= c <= 'Z' then (c as int + 32) as char else c
  }

  function ToAsciiLower(s: string): string {
    seq(|s|, i requires 0 <= i < |s| => Lower(s[i]))
  }

  function ParseKind(line: string): Option<Kind> {
    var s := ToAsciiLower(Text.Trim(line));
    if s in {"1", "pre-release", "prerelease", "pre", "rc"} then Some(PreRelease)
    else if s in {"2", "final"} then Some(Final)
    else None
  }

  function ParseBump(line: string): Option<Bump> {
    var s := ToAsciiLower(Text.Trim(line));
    if s in {"1", "none"} then Some(NoBump)
    else if s in {"2", "patch"} then Some(Patch)
    else if s in {"3", "minor"} then Some(Minor)
    else if s in {"4", "major"} then Some(Major)
    else None
  }

  function Choose(env: Env, s: State): Outcome<(Kind, Bump)> {
    var (s1, kind) :- Ask(env, s, ParseKind);
    var (s2, bump) :- Ask(env, s1, ParseBump);
    Go(s2, (kind, bump))
  }

  /** The current version, and the tags known locally and remotely. */
  function Survey(env: Env, s: State): Outcome<(Version, seq<string>)> {
    var (s1, current) :- Read(s, env.facts.version);
    var (s2, localTags) :- Read(s1, env.facts.localTags);
    var (s3, remoteTags) :- Read(s2, env.facts.remoteTags);
    Go(s3, (current, localTags + remoteTags))
  }

  /** The version to release and its tag, which must be new. */
  function Settle(env: Env, s: State, choice: (Kind, Bump), current: Version, tags: seq<string>):
    Outcome<(Version, string)>
  {
    SettleTarget(env, s, ComputeTarget(current, choice.0, choice.1, tags), tags)
  }

  function SettleTarget(env: Env, s: State, target: Option<Version>, tags: seq<string>): Outcome<(Version, string)> {
    var (s1, _) :- Guard(s, target.Some?, Overflowed);
    SettleTag(env, s1, target.value, TagOf(target.value), tags)
  }

  function SettleTag(env: Env, s: State, v: Version, tag: string, tags: seq<string>): Outcome<(Version, string)> {
    var (s1, _) :- Guard(s, tag !in tags, TagExists);
    var (s2, _) :- Say(env, s1);
    Go(s2, (v, tag))
  }

  /** Everything before the first possible change. */
  function Prepare(env: Env, s: State): Outcome<(Version, string)> {
    var (s1, _) :- Say(env, s);
    var (s2, _) :- Preflight(env, s1);
    MakePlan(env, s2)
  }

  /** The operator's choice, and the version and tag that it asks for. */
  function MakePlan(env: Env, s: State): Outcome<(Version, string)> {
    var (s1, choice) :- Choose(env, s);
    var (s2, survey) :- Survey(env, s1);
    Settle(env, s2, choice, survey.0, survey.1)
  }

  /** `edited` is the manifest with the new version, None when it has no version line. */
  function RunSetVersion(env: Env, s: State, v: Version, edited: Option<string>): Outcome<()> {
    var failure := EffectFailed(SetVersion(v), RestoreFiles);
    match (edited, env.schedule.setVersion)
    case (Some(text), Written) => Go(WithManifest(s, text).(trace := s.trace + [SetVersion(v)]), ())
    case (Some(_), Torn(content)) => Stop(WithManifest(s, content), failure)
    case _ => Stop(s, failure)
  }

  function WithManifest(s: State, content: string): State {
    s.(repo := s.repo.(worktree := s.repo.worktree.(manifest := content)))
  }

  function RunRefreshLock(env: Env, s: State): Outcome<()> {
    var s' := s.(repo := s.repo.(worktree := s.repo.worktree.(lock := env.schedule.refreshLock.content)));
    if env.schedule.refreshLock.Wrote? then Go(s'.(trace := s.trace + [RefreshLock]), ())
    else Stop(s', EffectFailed(RefreshLock, RestoreFiles))
  }

  function RunCommit(env: Env, s: State, message: string): Outcome<()> {
    var staged := s.repo.(index := s.repo.worktree);
    match env.schedule.commit
    case AddFailed => Stop(s, EffectFailed(CommitFiles(message), RestoreFiles))
    case CommitFailed => Stop(s.(repo := staged), EffectFailed(CommitFiles(message), RestoreFiles))
    case Committed =>
      var repo := staged.(history := staged.history + [Commit(staged.index, message)]);
      Go(s.(repo := repo, trace := s.trace + [CommitFiles(message)]), ())
  }

  function RunTag(env: Env, s: State, tag: string): Outcome<()> {
    if !env.schedule.tagged then Stop(s, EffectFailed(AnnotateTag(tag), DropCommit))
    else
      Go(s.(repo := s.repo.(tags := s.repo.tags[tag := s.repo.history]), trace := s.trace + [AnnotateTag(tag)]), ())
  }

  /** Both refs advance or neither does. */
  function RunPush(env: Env, s: State, tag: string): Outcome<()> {
    if !env.schedule.pushed then Stop(s, EffectFailed(PushAtomic(tag), DropTagAndCommit(tag)))
    else
      var repo := s.repo.(remote := s.repo.history, remoteTags := s.repo.remoteTags + {tag});
      Go(s.(repo := repo, trace := s.trace + [PushAtomic(tag)]), ())
  }

  function LocalEffects(env: Env, s: State, v: Version, tag: string, edited: Option<string>): Outcome<()> {
    var (s1, _) :- RunFiles(env, s, v, edited);
    var (s2, _) :- RunCommit(env, s1, "release: " + tag);
    RunTag(env, s2, tag)
  }

  /** The two files of the release. */
  function RunFiles(env: Env, s: State, v: Version, edited: Option<string>): Outcome<()> {
    var (s1, _) :- RunSetVersion(env, s, v, edited);
    RunRefreshLock(env, s1)
  }

  /** The second gate and the push. */
  function PushGate(env: Env, s: State, tag: string): Outcome<()> {
    var (s1, typed) :- AskLine(env, s);
    var (s2, _) :- Guard(s1, typed == tag, PushGateMismatch(DropTagAndCommit(tag)));
    var (s3, _) :- RunPush(env, s2, tag);
    Say(env, s3)
  }

  /** The banner and the first gate in front of every change. `edited` is the manifest with the new version. */
  function Execute(env: Env, s: State, v: Version, tag: string, edited: Option<string>): Outcome<()> {
    var (s0, _) :- Say(env, s);
    var (s1, typed) :- AskLine(env, s0);
    var (s2, _) :- Guard(s1, typed == tag, FirstGateMismatch);
    Effects(env, s2, v, tag, edited)
  }

  /** Everything behind the first gate. */
  function Effects(env: Env, s: State, v: Version, tag: string, edited: Option<string>): Outcome<()> {
    var (s1, _) :- LocalEffects(env, s, v, tag, edited);
    PushGate(env, s1, tag)
  }

  /** The edited manifest; None when it has no version line. */
  ghost function EditedManifest(repo: Repo, v: Version): Option<string> {
    Manifest.Edited(repo.worktree.manifest, Show(v))
  }

  ghost function Orchestrate(env: Env, s: State, dryRun: bool): Outcome<()> {
    var (s1, plan) :- Prepare(env, s);
    RunPlan(env, s1, plan, dryRun)
  }

  /** From the plan on: a dry run only reports it. */
  ghost function RunPlan(env: Env, s: State, plan: (Version, string), dryRun: bool): Outcome<()> {
    if dryRun then Say(env, s) else Execute(env, s, plan.0, plan.1, EditedManifest(s.repo, plan.0))
  }

  // ---- Reading changes nothing ----

  /** Neither the repository nor the trace moved, and only input lines were consumed. */
  predicate OnlyRead(s: State, s': State) {
    s'.repo == s.repo && s'.trace == s.trace && |s'.input| <= |s.input|
    && s'.input == s.input[|s.input| - |s'.input|..]
  }

  /** A step that only reads, and carries no recovery hint when it stops. */
  predicate Harmless<T>(s: State, o: Outcome<T>) {
    OnlyRead(s, o.state) && (o.Stop? ==> Hint(o.failure).None?)
  }

  lemma OnlyReadTransitive(s: State, s': State, s'': State)
    requires OnlyRead(s, s') && OnlyRead(s', s'')
    ensures OnlyRead(s, s'')
  {
  }

  /** The line is the first of the input, and is consumed. */
  predicate Answers(s: State, o: Outcome<string>) {
    o.Go? ==> s.input != [] && s.input[0] == Some(o.value) && o.state.input == s.input[1..]
  }

  lemma ReadLineReads(s: State, written: nat)
    ensures Harmless(s, ReadLine(s.(written := written)))
  {
    if s.input == [] {
      SameInputIsRead(s, s.(written := written));
    } else {
      OneLineIsRead(s, s.(input := s.input[1..], written := written));
    }
  }

  lemma ReadLineAnswers(s: State, written: nat)
    ensures Answers(s, ReadLine(s.(written := written)))
  {
  }

  lemma OneLineIsRead(s: State, s': State)
    requires s.input != [] && s'.repo == s.repo && s'.trace == s.trace && s'.input == s.input[1..]
    ensures OnlyRead(s, s')
  {
  }

  lemma StreamErrorReads(s: State, written: nat)
    ensures Harmless<string>(s, Stop(s.(written := written), StreamError))
  {
    SameInputIsRead(s, s.(written := written));
  }

  /** One prompt consumes at most one line, and answers with it. */
  lemma AskLineReads(env: Env, s: State)
    ensures Harmless(s, AskLine(env, s)) && Answers(s, AskLine(env, s))
  {
    if env.writeOk(s.written) {
      ReadLineReads(s, s.written + 1);
      ReadLineAnswers(s, s.written + 1);
    } else {
      StreamErrorReads(s, s.written + 1);
    }
  }

  lemma {:induction false} AskReads<T>(env: Env, s: State, parse: string -> Option<T>)
    ensures Harmless(s, Ask(env, s, parse))
    decreases |s.input|
  {
    AskLineReads(env, s);
    var asked := AskLine(env, s);
    if asked.Go? && parse(asked.value).None? {
      var said := Say(env, asked.state);
      if said.Go? {
        AskReads(env, said.state, parse);
        OnlyReadTransitive(s, said.state, Ask(env, said.state, parse).state);
      }
    }
  }

  /** The answer is the first line that parses, and every line up to it is consumed. */
  lemma {:induction false} AskTakesFirst<T>(env: Env, s: State, parse: string -> Option<T>) returns (k: nat)
    requires Ask(env, s, parse).Go?
    ensures k < |s.input| && s.input[k].Some?
    ensures parse(s.input[k].value) == Some(Ask(env, s, parse).value)
    ensures forall j | 0 <= j < k :: s.input[j].Some? && parse(s.input[j].value).None?
    ensures Ask(env, s, parse).state.input == s.input[k + 1..]
    decreases |s.input|
  {
    AskLineReads(env, s);
    var asked := AskLine(env, s);
    k := 0;
    if parse(asked.value).None? {
      var rest := Say(env, asked.state).state;
      var k' := AskTakesFirst(env, rest, parse);
      k := k' + 1;
      assert forall j | 0 <= j < |rest.input| :: rest.input[j] == s.input[j + 1];
      assert rest.input[k' + 1..] == s.input[k + 1..];
    }
  }

  lemma SameInputIsRead(s: State, s': State)
    requires s'.repo == s.repo && s'.trace == s.trace && s'.input == s.input
    ensures OnlyRead(s, s')
  {
    assert s.input[0..] == s.input;
  }

  lemma BranchCheckReads(env: Env, s: State)
    ensures Harmless(s, BranchCheck(env, s))
    ensures BranchCheck(env, s).Go? <==> env.facts.branch == Some("main") && env.writeOk(s.written)
    ensures BranchCheck(env, s).Go? ==> BranchCheck(env, s).state.written == s.written + 1
  {
    SameInputIsRead(s, BranchCheck(env, s).state);
  }

  lemma CleanCheckReads(env: Env, s: State)
    ensures Harmless(s, CleanCheck(env, s))
    ensures CleanCheck(env, s).Go? <==> env.facts.clean == Some(true) && env.writeOk(s.written)
    ensures CleanCheck(env, s).Go? ==> CleanCheck(env, s).state.written == s.written + 1
  {
    SameInputIsRead(s, CleanCheck(env, s).state);
  }

  lemma SyncCheckReads(env: Env, s: State)
    ensures Harmless(s, SyncCheck(env, s))
    ensures SyncCheck(env, s).Go? <==> env.facts.fetched && env.facts.synced == Some(true) && env.writeOk(s.written)
    ensures SyncCheck(env, s).Go? ==> SyncCheck(env, s).state.written == s.written + 1
  {
    SameInputIsRead(s, SyncCheck(env, s).state);
  }

  lemma SayReads(env: Env, s: State)
    ensures Harmless(s, Say(env, s))
  {
    SameInputIsRead(s, Say(env, s).state);
  }

  /** On `main`, clean, and in sync with the remote after a fetch. */
  predicate FitToRelease(facts: Facts) {
    facts.branch == Some("main") && facts.clean == Some(true) && facts.fetched && facts.synced == Some(true)
  }

  lemma PreflightReads(env: Env, s: State)
    ensures Harmless(s, Preflight(env, s))
  {
    BranchCheckReads(env, s);
    var branch := BranchCheck(env, s);
    if branch.Go? {
      CleanCheckReads(env, branch.state);
      var clean := CleanCheck(env, branch.state);
      OnlyReadTransitive(s, branch.state, clean.state);
      if clean.Go? {
        SyncCheckReads(env, clean.state);
        var synced := SyncCheck(env, clean.state);
        OnlyReadTransitive(s, clean.state, synced.state);
        if synced.Go? {
          SayReads(env, synced.state);
          OnlyReadTransitive(s, synced.state, Say(env, synced.state).state);
        }
      }
    }
  }

  /** The checks pass exactly on a clean `main` in sync, when their four reports can be written. */
  lemma PreflightExactly(env: Env, s: State)
    ensures Preflight(env, s).Go? <==>
            FitToRelease(env.facts) && forall n | s.written <= n < s.written + 4 :: env.writeOk(n)
  {
    BranchCheckReads(env, s);
    var branch := BranchCheck(env, s);
    if branch.Go? {
      CleanCheckReads(env, branch.state);
      var clean := CleanCheck(env, branch.state);
      if clean.Go? {
        SyncCheckReads(env, clean.state);
      }
    }
  }

  lemma ChooseReads(env: Env, s: State)
    ensures Harmless(s, Choose(env, s))
  {
    AskReads(env, s, ParseKind);
    var kind := Ask(env, s, ParseKind);
    if kind.Go? {
      AskReads(env, kind.state, ParseBump);
      OnlyReadTransitive(s, kind.state, Ask(env, kind.state, ParseBump).state);
    }
  }

  predicate Surveyed(facts: Facts) {
    facts.version.Some? && facts.localTags.Some? && facts.remoteTags.Some?
  }

  /** The tags known locally or remotely. */
  function KnownTags(facts: Facts): seq<string>
    requires Surveyed(facts)
  {
    facts.localTags.value + facts.remoteTags.value
  }

  lemma SurveyReads(env: Env, s: State)
    ensures Harmless(s, Survey(env, s))
    ensures Survey(env, s).Go? ==>
              Surveyed(env.facts) && Survey(env, s).value == (env.facts.version.value, KnownTags(env.facts))
  {
    SameInputIsRead(s, Survey(env, s).state);
  }

  lemma SettleReads(env: Env, s: State, choice: (Kind, Bump), current: Version, tags: seq<string>)
    ensures Harmless(s, Settle(env, s, choice, current, tags))
    ensures Settle(env, s, choice, current, tags).Go? ==>
              var (v, tag) := Settle(env, s, choice, current, tags).value;
              tag == TagOf(v) && tag !in tags && ComputeTarget(current, choice.0, choice.1, tags) == Some(v)
  {
    SettleTargetReads(env, s, ComputeTarget(current, choice.0, choice.1, tags), tags);
  }

  lemma SettleTargetReads(env: Env, s: State, target: Option<Version>, tags: seq<string>)
    ensures Harmless(s, SettleTarget(env, s, target, tags))
    ensures SettleTarget(env, s, target, tags).Go? ==>
              var (v, tag) := SettleTarget(env, s, target, tags).value;
              target == Some(v) && tag == TagOf(v) && tag !in tags
  {
    if target.Some? {
      SettleTagReads(env, s, target.value, TagOf(target.value), tags);
    } else {
      SameInputIsRead(s, s);
    }
  }

  lemma SettleTagReads(env: Env, s: State, v: Version, tag: string, tags: seq<string>)
    ensures Harmless(s, SettleTag(env, s, v, tag, tags))
    ensures SettleTag(env, s, v, tag, tags).Go? ==>
              tag !in tags && SettleTag(env, s, v, tag, tags).value == (v, tag)
  {
    SameInputIsRead(s, SettleTag(env, s, v, tag, tags).state);
  }

  /** The version is the target of some choice, and its tag is not known yet. */
  predicate IsPlanned(facts: Facts, choice: (Kind, Bump), v: Version) {
    Surveyed(facts) && ComputeTarget(facts.version.value, choice.0, choice.1, KnownTags(facts)) == Some(v)
    && TagOf(v) !in KnownTags(facts)
  }

  /** A prepared run passed every check, and planned a version whose tag is known neither locally nor remotely. */
  lemma PrepareReads(env: Env, s: State)
    ensures Harmless(s, Prepare(env, s))
    ensures Prepare(env, s).Go? ==>
              var (v, tag) := Prepare(env, s).value;
              tag == TagOf(v) && FitToRelease(env.facts) && exists choice :: IsPlanned(env.facts, choice, v)
  {
    var said := Say(env, s);
    SayReads(env, s);
    if said.Go? {
      PreflightReads(env, said.state);
      PreflightExactly(env, said.state);
      var ready := Preflight(env, said.state);
      OnlyReadTransitive(s, said.state, ready.state);
      if ready.Go? {
        PlanReads(env, ready.state);
        OnlyReadTransitive(s, ready.state, MakePlan(env, ready.state).state);
      }
    }
  }

  lemma PlanReads(env: Env, s: State)
    ensures Harmless(s, MakePlan(env, s))
    ensures var o := MakePlan(env, s);
            o.Go? ==> o.value.1 == TagOf(o.value.0) && exists choice :: IsPlanned(env.facts, choice, o.value.0)
  {
    var chosen := Choose(env, s);
    ChooseReads(env, s);
    if chosen.Go? {
      var survey := Survey(env, chosen.state);
      SurveyReads(env, chosen.state);
      OnlyReadTransitive(s, chosen.state, survey.state);
      if survey.Go? {
        var settled := Settle(env, survey.state, chosen.value, survey.value.0, survey.value.1);
        SettleReads(env, survey.state, chosen.value, survey.value.0, survey.value.1);
        OnlyReadTransitive(s, survey.state, settled.state);
        assert settled.Go? ==> IsPlanned(env.facts, chosen.value, settled.value.0);
      }
    }
  }

  // ---- The answers behind a plan ----

  lemma PreflightKeepsInput(env: Env, s: State)
    ensures Preflight(env, s).state.input == s.input
  {
  }

  lemma SurveyKeepsInput(env: Env, s: State)
    ensures Survey(env, s).state.input == s.input
  {
  }

  lemma SettleTagKeepsInput(env: Env, s: State, v: Version, tag: string, tags: seq<string>)
    ensures SettleTag(env, s, v, tag, tags).state.input == s.input
  {
  }

  lemma SettleKeepsInput(env: Env, s: State, target: Option<Version>, tags: seq<string>)
    ensures SettleTarget(env, s, target, tags).state.input == s.input
  {
    if target.Some? {
      SettleTagKeepsInput(env, s, target.value, TagOf(target.value), tags);
    }
  }

  /** Line `at` is the first from line `from` on that parses, and it parses to `value`. */
  ghost predicate FirstAnswer<T>(s: State, from: nat, at: nat, parse: string -> Option<T>, value: T) {
    && from <= at < |s.input| && s.input[at].Some? && parse(s.input[at].value) == Some(value)
    && forall j | from <= j < at :: s.input[j].Some? && parse(s.input[j].value).None?
  }

  /** The kind was answered on line `k`, and the bump after it on line `m`. */
  ghost predicate Answered(s: State, choice: (Kind, Bump), k: nat, m: nat) {
    FirstAnswer(s, 0, k, ParseKind, choice.0) && FirstAnswer(s, k + 1, m, ParseBump, choice.1)
  }

  lemma AskAnswers<T>(env: Env, s: State, parse: string -> Option<T>) returns (k: nat)
    requires Ask(env, s, parse).Go?
    ensures FirstAnswer(s, 0, k, parse, Ask(env, s, parse).value)
    ensures Ask(env, s, parse).state.input == s.input[k + 1..]
  {
    k := AskTakesFirst(env, s, parse);
  }

  /** An answer among the remaining lines is one among all lines. */
  lemma AnswerLater<T>(s: State, s': State, from: nat, at: nat, parse: string -> Option<T>, value: T)
    requires from <= |s.input| && s'.input == s.input[from..] && FirstAnswer(s', 0, at, parse, value)
    ensures FirstAnswer(s, from, from + at, parse, value) && s'.input[at + 1..] == s.input[from + at + 1..]
  {
    forall j | from <= j < from + at
      ensures s.input[j].Some? && parse(s.input[j].value).None?
    {
      assert s.input[j] == s'.input[j - from];
    }
  }

  /** Two prompts in a row read the first answer to the one, and behind it the first answer to the other. */
  lemma TwoAnswers<A, B>(env: Env, s: State, first: string -> Option<A>, second: string -> Option<B>)
    returns (k: nat, m: nat)
    ensures var a := Ask(env, s, first);
            var b := Ask(env, a.state, second);
            a.Go? && b.Go? ==>
              && FirstAnswer(s, 0, k, first, a.value) && FirstAnswer(s, k + 1, m, second, b.value)
              && m < |s.input| && b.state.input == s.input[m + 1..]
  {
    k, m := 0, 0;
    var a := Ask(env, s, first);
    if a.Go? && Ask(env, a.state, second).Go? {
      k := AskAnswers(env, s, first);
      var at := AskAnswers(env, a.state, second);
      m := k + 1 + at;
      AnswerLater(s, a.state, k + 1, at, second, Ask(env, a.state, second).value);
    }
  }

  lemma ChooseAnswers(env: Env, s: State) returns (k: nat, m: nat)
    ensures Choose(env, s).Go? ==>
              && Answered(s, Choose(env, s).value, k, m) && m < |s.input|
              && Choose(env, s).state.input == s.input[m + 1..]
  {
    k, m := TwoAnswers(env, s, ParseKind, ParseBump);
  }

  lemma SameAnswers(s: State, s': State, choice: (Kind, Bump), k: nat, m: nat)
    requires s'.input == s.input
    ensures Answered(s', choice, k, m) ==> Answered(s, choice, k, m)
  {
  }

  /** What follows the preflight: the answers, and a plan for them. */
  lemma PlanAnswers(env: Env, s: State) returns (choice: (Kind, Bump), k: nat, m: nat)
    ensures var o := MakePlan(env, s);
            o.Go? ==>
              && Answered(s, choice, k, m) && IsPlanned(env.facts, choice, o.value.0)
              && m < |s.input| && o.state.input == s.input[m + 1..]
  {
    var chosen := Choose(env, s);
    choice := if chosen.Go? then chosen.value else (Final, NoBump);
    k, m := ChooseAnswers(env, s);
    if chosen.Go? {
      SurveyKeepsInput(env, chosen.state);
      SurveyReads(env, chosen.state);
      var survey := Survey(env, chosen.state);
      if survey.Go? {
        SettleReads(env, survey.state, choice, survey.value.0, survey.value.1);
        SettleKeepsInput(env, survey.state,
                         ComputeTarget(survey.value.0, choice.0, choice.1, survey.value.1), survey.value.1);
      }
    }
  }

  /** The line that the first gate of a prepared run reads: all before it went to the prompts. */
  function GateLine(env: Env, s: State): nat {
    if |Prepare(env, s).state.input| <= |s.input| then |s.input| - |Prepare(env, s).state.input| else 0
  }

  lemma PreparedFromAnswers(env: Env, s: State) returns (choice: (Kind, Bump), k: nat, m: nat)
    ensures Prepare(env, s).Go? ==>
              && Answered(s, choice, k, m) && IsPlanned(env.facts, choice, Prepare(env, s).value.0)
              && m < |s.input| && Prepare(env, s).state.input == s.input[m + 1..]
  {
    var said := Say(env, s).state;
    PreflightKeepsInput(env, said);
    var ready := Preflight(env, said).state;
    choice, k, m := PlanAnswers(env, ready);
    SameAnswers(s, ready, choice, k, m);
  }

  /** Every plan is for the operator's two answers, and the gates read the lines right after the second. */
  lemma PrepareAnswers(env: Env, s: State) returns (choice: (Kind, Bump), k: nat, m: nat)
    ensures Prepare(env, s).Go? ==>
              && Answered(s, choice, k, m) && IsPlanned(env.facts, choice, Prepare(env, s).value.0)
              && GateLine(env, s) == m + 1
  {
    choice, k, m := PreparedFromAnswers(env, s);
  }

  /** A version that some choice plans on a fit repository, which is the one this run prepared. */
  ghost predicate IsPrepared(env: Env, s: State, v: Version) {
    && FitToRelease(env.facts) && (exists choice :: IsPlanned(env.facts, choice, v))
    && Prepare(env, s).Go? && Prepare(env, s).value == (v, TagOf(v))
  }

  // ---- The trace ----

  /** The five effects in order. */
  function Plan(v: Version, tag: string): seq<Effect> {
    [SetVersion(v), RefreshLock, CommitFiles("release: " + tag), AnnotateTag(tag), PushAtomic(tag)]
  }

  /** The operator's lines at the two gates. */
  predicate Typed(s: State, k: nat, tag: string) {
    k < |s.input| && s.input[k].Some? && s.input[k].value == tag
  }

  // ---- The first gate ----

  /** The banner and the prompt can be written, and the first line is the tag. */
  predicate FirstGate(env: Env, s: State, tag: string) {
    env.writeOk(s.written) && env.writeOk(s.written + 1) && Typed(s, 0, tag)
  }

  function BehindGate(s: State): State
    requires s.input != []
  {
    s.(input := s.input[1..], written := s.written + 2)
  }

  /** A shut gate stops the run without a hint and without a change. */
  lemma GateShut(env: Env, s: State, v: Version, tag: string, edited: Option<string>)
    requires !FirstGate(env, s, tag)
    ensures var o := Execute(env, s, v, tag, edited);
            o.Stop? && Hint(o.failure).None? && o.state.repo == s.repo && o.state.trace == s.trace
  {
    if env.writeOk(s.written) {
      AskLineReads(env, Say(env, s).state);
    }
  }

  lemma GateOpen(env: Env, s: State, v: Version, tag: string, edited: Option<string>)
    requires FirstGate(env, s, tag)
    ensures Execute(env, s, v, tag, edited) == Effects(env, BehindGate(s), v, tag, edited)
  {
    assert AskLine(env, Say(env, s).state) == Go(BehindGate(s), tag);
  }

  // ---- The trace ----

  lemma LocalTrace(env: Env, s: State, v: Version, tag: string, edited: Option<string>) returns (k: nat)
    requires s.trace == []
    ensures k <= 4 && LocalEffects(env, s, v, tag, edited).state.trace == Plan(v, tag)[..k]
    ensures LocalEffects(env, s, v, tag, edited).Go? ==> k == 4
  {
    PlanPrefixes(v, tag);
    FilesTrace(env, s, v, edited);
    k := |LocalEffects(env, s, v, tag, edited).state.trace|;
  }

  lemma PlanPrefixes(v: Version, tag: string)
    ensures Plan(v, tag)[..0] == [] && Plan(v, tag)[..1] == [SetVersion(v)]
    ensures Plan(v, tag)[..2] == [SetVersion(v), RefreshLock]
    ensures Plan(v, tag)[..3] == [SetVersion(v), RefreshLock, CommitFiles("release: " + tag)]
    ensures Plan(v, tag)[..4] == [SetVersion(v), RefreshLock, CommitFiles("release: " + tag), AnnotateTag(tag)]
  {
  }

  lemma FilesTrace(env: Env, s: State, v: Version, edited: Option<string>)
    requires s.trace == []
    ensures var o := RunFiles(env, s, v, edited);
            && (o.Go? ==> o.state.trace == [SetVersion(v), RefreshLock])
            && (o.Stop? ==> o.state.trace == [] || o.state.trace == [SetVersion(v)])
  {
  }

  /** The local effects type nothing and print nothing. */
  lemma LocalKeepsConsole(env: Env, s: State, v: Version, tag: string, edited: Option<string>)
    ensures LocalEffects(env, s, v, tag, edited).state.input == s.input
    ensures LocalEffects(env, s, v, tag, edited).state.written == s.written
  {
  }

  lemma PushTrace(env: Env, s: State, tag: string) returns (k: nat)
    ensures k <= 1 && PushGate(env, s, tag).state.trace == s.trace + [PushAtomic(tag)][..k]
    ensures k == 1 ==> Typed(s, 0, tag)
    ensures PushGate(env, s, tag).Go? ==> k == 1
  {
    AskLineReads(env, s);
    k := |PushGate(env, s, tag).state.trace| - |s.trace|;
  }

  lemma EffectsTrace(env: Env, s: State, v: Version, tag: string, edited: Option<string>) returns (k: nat)
    requires s.trace == []
    ensures k <= 5 && Effects(env, s, v, tag, edited).state.trace == Plan(v, tag)[..k]
    ensures k == 5 ==> Typed(s, 0, tag)
    ensures Effects(env, s, v, tag, edited).Go? ==> k == 5
  {
    k := LocalTrace(env, s, v, tag, edited);
    LocalKeepsConsole(env, s, v, tag, edited);
    var done := LocalEffects(env, s, v, tag, edited);
    if done.Go? {
      var pushed := PushTrace(env, done.state, tag);
      k := 4 + pushed;
    }
  }

  /** How many effects of the plan an execution does, and what the gates have to do with it. */
  lemma ExecuteTrace(env: Env, s: State, v: Version, tag: string, edited: Option<string>) returns (k: nat)
    requires s.trace == []
    ensures k <= 5 && Execute(env, s, v, tag, edited).state.trace == Plan(v, tag)[..k]
    ensures k > 0 ==> Typed(s, 0, tag)
    ensures k == 5 ==> Typed(s, 1, tag)
    ensures Execute(env, s, v, tag, edited).Go? ==> k == 5
    ensures !Typed(s, 0, tag) ==> Execute(env, s, v, tag, edited).state.repo == s.repo
  {
    if FirstGate(env, s, tag) {
      GateOpen(env, s, v, tag, edited);
      k := EffectsTrace(env, BehindGate(s), v, tag, edited);
    } else {
      GateShut(env, s, v, tag, edited);
      k := 0;
    }
  }

  /** The trace is a prefix of the plan, with the typed lines that it needs from line `i` on. */
  predicate Confirmed(s: State, trace: seq<Effect>, v: Version, tag: string, i: nat) {
    && |trace| <= 5 && trace == Plan(v, tag)[..|trace|]
    && (trace != [] ==> Typed(s, i, tag)) && (|trace| == 5 ==> Typed(s, i + 1, tag))
  }

  lemma ConfirmedLater(s: State, s': State, trace: seq<Effect>, v: Version, tag: string, i: nat)
    requires i <= |s.input| && s'.input == s.input[i..] && Confirmed(s', trace, v, tag, 0)
    ensures Confirmed(s, trace, v, tag, i)
  {
  }

  lemma ExecuteConfirmed(env: Env, s: State, v: Version, tag: string, edited: Option<string>)
    requires s.trace == []
    ensures Confirmed(s, Execute(env, s, v, tag, edited).state.trace, v, tag, 0)
    ensures Execute(env, s, v, tag, edited).Go? ==> |Execute(env, s, v, tag, edited).state.trace| == 5
  {
    var k := ExecuteTrace(env, s, v, tag, edited);
  }

  /**
   * Whatever the operator types and whatever fails, the effects done are a prefix of the five for
   * the version planned from the two answers; none on a dry run; none unless the line right after
   * the answers is the tag; and no push unless the line after that is the tag again.
   */
  lemma TraceIsPrefixOfPlan(env: Env, s: State, dryRun: bool) returns (v: Version)
    requires s.trace == []
    ensures var o := Orchestrate(env, s, dryRun);
            && (o.state.trace != [] ==>
                  IsPrepared(env, s, v) && Confirmed(s, o.state.trace, v, TagOf(v), GateLine(env, s)))
            && (dryRun ==> o.state.trace == [] && o.state.repo == s.repo)
            && (!dryRun && o.Go? ==> |o.state.trace| == 5)
  {
    PrepareReads(env, s);
    v := Version(0, 0, 0, [], []);
    if Prepare(env, s).Go? && !dryRun {
      v := Prepare(env, s).value.0;
      PreparedConfirmed(env, s);
    }
  }

  lemma PreparedConfirmed(env: Env, s: State)
    requires s.trace == []
    ensures Prepare(env, s).Go? ==>
              var (v, _) := Prepare(env, s).value;
              var o := RunPlan(env, Prepare(env, s).state, Prepare(env, s).value, false);
              && IsPrepared(env, s, v) && Confirmed(s, o.state.trace, v, TagOf(v), GateLine(env, s))
              && (o.Go? ==> |o.state.trace| == 5)
  {
    PrepareReads(env, s);
    if Prepare(env, s).Go? {
      PlanConfirmed(env, s, Prepare(env, s).state, Prepare(env, s).value.0, GateLine(env, s));
    }
  }

  lemma PlanConfirmed(env: Env, s: State, s': State, v: Version, i: nat)
    requires s'.trace == [] && i <= |s.input| && s'.input == s.input[i..]
    ensures var o := RunPlan(env, s', (v, TagOf(v)), false);
            Confirmed(s, o.state.trace, v, TagOf(v), i) && (o.Go? ==> |o.state.trace| == 5)
  {
    ConfirmedFrom(env, s, s', v, TagOf(v), EditedManifest(s'.repo, v), i);
  }

  lemma ConfirmedFrom(env: Env, s: State, s': State, v: Version, tag: string, edited: Option<string>, i: nat)
    requires s'.trace == [] && i <= |s.input| && s'.input == s.input[i..]
    ensures var o := Execute(env, s', v, tag, edited);
            Confirmed(s, o.state.trace, v, tag, i) && (o.Go? ==> |o.state.trace| == 5)
  {
    ExecuteConfirmed(env, s', v, tag, edited);
    ConfirmedLater(s, s', Execute(env, s', v, tag, edited).state.trace, v, tag, i);
  }

  // ---- What a run leaves behind ----

  lemma LocalEffectsCommit(env: Env, s: State, v: Version, tag: string, edited: Option<string>)
    requires LocalEffects(env, s, v, tag, edited).Go?
    ensures edited.Some?
    ensures var repo := LocalEffects(env, s, v, tag, edited).state.repo;
            var files := Files(edited.value, env.schedule.refreshLock.content);
            && repo.history == s.repo.history + [Commit(files, "release: " + tag)] && Clean(repo)
            && repo.tags == s.repo.tags[tag := repo.history]
            && repo.remote == s.repo.remote && repo.remoteTags == s.repo.remoteTags
  {
  }

  lemma PushPublishes(env: Env, s: State, tag: string)
    requires PushGate(env, s, tag).Go?
    ensures PushGate(env, s, tag).state.repo ==
            s.repo.(remote := s.repo.history, remoteTags := s.repo.remoteTags + {tag})
  {
    AskLineReads(env, s);
  }

  /** A completed run has published exactly one new commit, with the two new files, under the tag. */
  lemma CompletedRunPublishes(env: Env, s: State, v: Version, tag: string, edited: Option<string>)
    requires Execute(env, s, v, tag, edited).Go?
    ensures edited.Some?
    ensures var repo := Execute(env, s, v, tag, edited).state.repo;
            var files := Files(edited.value, env.schedule.refreshLock.content);
            && repo.history == s.repo.history + [Commit(files, "release: " + tag)] && Clean(repo)
            && repo.remote == repo.history && repo.remoteTags == s.repo.remoteTags + {tag}
            && repo.tags == s.repo.tags[tag := repo.history]
  {
    if FirstGate(env, s, tag) {
      GateOpen(env, s, v, tag, edited);
      LocalEffectsCommit(env, BehindGate(s), v, tag, edited);
      PushPublishes(env, LocalEffects(env, BehindGate(s), v, tag, edited).state, tag);
    } else {
      GateShut(env, s, v, tag, edited);
    }
  }

  /** The manifest's first version line parses to `v`. */
  ghost predicate Declares(toml: string, v: Version) {
    var kinds := Manifest.Kinds(Manifest.Lines(toml));
    exists at: nat :: Manifest.IsFirstVersionLine(kinds, at) && ParseVersion(kinds[at].value) == Some(v)
  }

  lemma EditedDeclares(repo: Repo, v: Version)
    requires WellFormed(v)
    ensures EditedManifest(repo, v).Some? ==> Declares(EditedManifest(repo, v).value, v)
  {
    if EditedManifest(repo, v).Some? {
      var at := Manifest.FirstVersionLine(Manifest.Kinds(Manifest.Lines(repo.worktree.manifest))).value;
      SetVersionReadsBack(repo.worktree.manifest, at, v);
    }
  }

  /** The head of the remote declares the version, and its tag, which names the version, is there. */
  ghost predicate Published(repo: Repo, v: Version) {
    && repo.remote != [] && repo.remote == repo.history && TagOf(v) in repo.remoteTags
    && TagVersion(TagOf(v)) == Some(v) && Declares(repo.remote[|repo.remote| - 1].files.manifest, v)
  }

  lemma ExecutePublishes(env: Env, s: State, v: Version)
    requires WellFormed(v)
    ensures var o := Execute(env, s, v, TagOf(v), EditedManifest(s.repo, v));
            o.Go? ==> Published(o.state.repo, v)
  {
    if Execute(env, s, v, TagOf(v), EditedManifest(s.repo, v)).Go? {
      CompletedRunPublishes(env, s, v, TagOf(v), EditedManifest(s.repo, v));
      TagNames(v);
      EditedDeclares(s.repo, v);
    }
  }

  /** A completed run has published a head whose manifest declares the version that its new tag names. */
  lemma PublishedHeadMatchesTag(env: Env, s: State)
    requires env.facts.version.Some? ==> WellFormed(env.facts.version.value)
    ensures Orchestrate(env, s, false).Go? ==>
              exists v, choice :: IsPlanned(env.facts, choice, v) && Published(Orchestrate(env, s, false).state.repo, v)
  {
    if Orchestrate(env, s, false).Go? {
      PrepareReads(env, s);
      var prepared := Prepare(env, s);
      var v := prepared.value.0;
      var choice :| IsPlanned(env.facts, choice, v);
      TargetWellFormed(env.facts.version.value, choice.0, choice.1, KnownTags(env.facts));
      ExecutePublishes(env, prepared.state, v);
    }
  }

  /** A stopped run published nothing, unless only the closing message failed. */
  lemma StoppedRunPublishes(env: Env, s: State, v: Version, tag: string, edited: Option<string>)
    requires s.trace == [] && Execute(env, s, v, tag, edited).Stop?
    ensures var o := Execute(env, s, v, tag, edited);
            (o.state.repo.remote == s.repo.remote && o.state.repo.remoteTags == s.repo.remoteTags)
            || (o.failure == StreamError && o.state.trace == Plan(v, tag))
  {
    if FirstGate(env, s, tag) {
      GateOpen(env, s, v, tag, edited);
      var done := LocalEffects(env, BehindGate(s), v, tag, edited);
      LocalEffectsStayLocal(env, BehindGate(s), v, tag, edited);
      var k := LocalTrace(env, BehindGate(s), v, tag, edited);
      if done.Go? {
        AskLineReads(env, done.state);
        assert Plan(v, tag)[..4] + [PushAtomic(tag)] == Plan(v, tag);
      }
    } else {
      GateShut(env, s, v, tag, edited);
    }
  }

  lemma LocalEffectsStayLocal(env: Env, s: State, v: Version, tag: string, edited: Option<string>)
    ensures var repo := LocalEffects(env, s, v, tag, edited).state.repo;
            repo.remote == s.repo.remote && repo.remoteTags == s.repo.remoteTags
  {
  }

  // ---- Recovery ----

  /** The commit is to fail after it has staged files that differ from those of HEAD. */
  predicate StagedThenFails(schedule: Schedule, before: Repo, edited: Option<string>) {
    && schedule.setVersion == Written && edited.Some? && schedule.refreshLock.Wrote? && schedule.commit == CommitFailed
    && Files(edited.value, schedule.refreshLock.content) != before.index
  }

  lemma LocalRecovers(env: Env, s: State, v: Version, tag: string, edited: Option<string>)
    requires Clean(s.repo) && LocalEffects(env, s, v, tag, edited).Stop?
    ensures var o := LocalEffects(env, s, v, tag, edited);
            && Hint(o.failure).Some?
            && (Recover(o.state.repo, Hint(o.failure).value) == s.repo <==>
                !StagedThenFails(env.schedule, s.repo, edited))
  {
    var end := LocalEffects(env, s, v, tag, edited).state.repo;
    if |end.history| > |s.repo.history| {
      assert end.history[..|end.history| - 1] == s.repo.history;
    }
  }

  /** Once the local effects are done, dropping the tag and the commit undoes all of them. */
  lemma LocalEffectsUndone(env: Env, s: State, v: Version, tag: string, edited: Option<string>)
    requires Clean(s.repo) && tag !in s.repo.tags && LocalEffects(env, s, v, tag, edited).Go?
    ensures Recover(LocalEffects(env, s, v, tag, edited).state.repo, DropTagAndCommit(tag)) == s.repo
    ensures !StagedThenFails(env.schedule, s.repo, edited)
  {
    var end := LocalEffects(env, s, v, tag, edited).state.repo;
    assert end.history[..|end.history| - 1] == s.repo.history;
    assert end.tags - {tag} == s.repo.tags;
  }

  /** Whatever stops the push gate with a hint leaves the repository alone, and hints at all that was done. */
  lemma PushGateStops(env: Env, s: State, tag: string)
    requires PushGate(env, s, tag).Stop? && Hint(PushGate(env, s, tag).failure).Some?
    ensures PushGate(env, s, tag).state.repo == s.repo
    ensures Hint(PushGate(env, s, tag).failure) == Some(DropTagAndCommit(tag))
  {
    AskLineReads(env, s);
  }

  lemma EffectsRecover(env: Env, s: State, v: Version, tag: string, edited: Option<string>)
    requires Clean(s.repo) && tag !in s.repo.tags
    requires Effects(env, s, v, tag, edited).Stop? && Hint(Effects(env, s, v, tag, edited).failure).Some?
    ensures var o := Effects(env, s, v, tag, edited);
            Recover(o.state.repo, Hint(o.failure).value) == s.repo <==> !StagedThenFails(env.schedule, s.repo, edited)
  {
    var done := LocalEffects(env, s, v, tag, edited);
    if done.Stop? {
      LocalRecovers(env, s, v, tag, edited);
    } else {
      LocalEffectsUndone(env, s, v, tag, edited);
      PushGateStops(env, done.state, tag);
    }
  }

  lemma ExecuteRecovers(env: Env, s: State, v: Version, tag: string, edited: Option<string>)
    requires Clean(s.repo) && tag !in s.repo.tags
    requires Execute(env, s, v, tag, edited).Stop? && Hint(Execute(env, s, v, tag, edited).failure).Some?
    ensures var o := Execute(env, s, v, tag, edited);
            Recover(o.state.repo, Hint(o.failure).value) == s.repo <==> !StagedThenFails(env.schedule, s.repo, edited)
  {
    if FirstGate(env, s, tag) {
      GateOpen(env, s, v, tag, edited);
      EffectsRecover(env, BehindGate(s), v, tag, edited);
    } else {
      GateShut(env, s, v, tag, edited);
    }
  }

  /** The read-only commands report what is there. */
  ghost predicate Truthful(env: Env, repo: Repo) {
    && (env.facts.clean == Some(true) ==> Clean(repo))
    && (env.facts.localTags.Some? ==> forall tag | tag in repo.tags :: tag in env.facts.localTags.value)
  }

  /**
   * After any failed effect or a mismatch at the push gate, the stated recovery restores the
   * starting repository, exactly unless the commit is to fail with changed files already staged.
   */
  lemma RecoveryRestoresExactly(env: Env, s: State, dryRun: bool)
    requires Truthful(env, s.repo)
    ensures var o, prepared := Orchestrate(env, s, dryRun), Prepare(env, s);
            o.Stop? && Hint(o.failure).Some? ==>
              && prepared.Go?
              && (Recover(o.state.repo, Hint(o.failure).value) == s.repo <==>
                  !StagedThenFails(env.schedule, s.repo, EditedManifest(s.repo, prepared.value.0)))
  {
    PrepareReads(env, s);
    var o := Orchestrate(env, s, dryRun);
    if o.Stop? && Hint(o.failure).Some? {
      var prepared := Prepare(env, s);
      var (v, tag) := prepared.value;
      var choice :| IsPlanned(env.facts, choice, v);
      ExecuteRecovers(env, prepared.state, v, tag, EditedManifest(s.repo, v));
    }
  }

  // ---- Failures without a hint ----

  /** All local effects are to succeed. */
  predicate LocalSucceeds(schedule: Schedule, edited: Option<string>) {
    && schedule.setVersion == Written && edited.Some? && schedule.refreshLock.Wrote?
    && schedule.commit == Committed && schedule.tagged
  }

  /** At the push gate, before write `written`: a stream fails or the input ends, or the closing message fails. */
  predicate SilentAtPush(env: Env, input: seq<Option<string>>, written: nat, tag: string) {
    || !env.writeOk(written) || input == [] || input[0].None?
    || (input[0] == Some(tag) && env.schedule.pushed && !env.writeOk(written + 1))
  }

  lemma LocalHint(env: Env, s: State, v: Version, tag: string, edited: Option<string>)
    ensures LocalEffects(env, s, v, tag, edited).Go? <==> LocalSucceeds(env.schedule, edited)
    ensures LocalEffects(env, s, v, tag, edited).Stop? ==> Hint(LocalEffects(env, s, v, tag, edited).failure).Some?
  {
  }

  lemma PushHint(env: Env, s: State, tag: string)
    ensures PushGate(env, s, tag).Stop? && Hint(PushGate(env, s, tag).failure).None? <==>
            SilentAtPush(env, s.input, s.written, tag)
  {
    if env.writeOk(s.written) && s.input != [] && s.input[0].Some? {
      assert AskLine(env, s) == Go(s.(input := s.input[1..], written := s.written + 1), s.input[0].value);
    }
  }

  /**
   * A failure lacks a recovery hint exactly when the first gate is shut, or when every local effect
   * succeeds and a stream fails, or the input ends, at or after the push gate.
   */
  lemma HintMissingExactly(env: Env, s: State, v: Version, tag: string, edited: Option<string>)
    ensures var o := Execute(env, s, v, tag, edited);
            o.Stop? && Hint(o.failure).None? <==>
            || !FirstGate(env, s, tag)
            || (LocalSucceeds(env.schedule, edited) && SilentAtPush(env, s.input[1..], s.written + 2, tag))
  {
    if FirstGate(env, s, tag) {
      GateOpen(env, s, v, tag, edited);
      LocalHint(env, BehindGate(s), v, tag, edited);
      LocalKeepsConsole(env, BehindGate(s), v, tag, edited);
      var done := LocalEffects(env, BehindGate(s), v, tag, edited);
      if done.Go? {
        PushHint(env, done.state, tag);
      }
    } else {
      GateShut(env, s, v, tag, edited);
    }
  }

  /** The first gate is open and every local effect succeeds, and then the run stops silently at the push gate. */
  predicate StopsSilently(env: Env, s: State, tag: string, edited: Option<string>) {
    && FirstGate(env, s, tag) && LocalSucceeds(env.schedule, edited)
    && SilentAtPush(env, s.input[1..], s.written + 2, tag)
  }

  /** Effects were done, and the failure says nothing about undoing them. */
  predicate FailedSilently(o: Outcome<()>) {
    o.Stop? && Hint(o.failure).None? && o.state.trace != []
  }

  lemma ExecuteSilentExactly(env: Env, s: State, v: Version, tag: string, edited: Option<string>)
    requires s.trace == []
    ensures FailedSilently(Execute(env, s, v, tag, edited)) <==>
            StopsSilently(env, s, tag, edited)
  {
    HintMissingExactly(env, s, v, tag, edited);
    if FirstGate(env, s, tag) {
      if LocalSucceeds(env.schedule, edited) {
        TraceOfLocal(env, s, v, tag, edited);
      }
    } else {
      GateShut(env, s, v, tag, edited);
    }
  }

  /** A whole run leaves effects and no hint exactly when it is no dry run and stops silently at the push gate. */
  lemma SilentFailureExactly(env: Env, s: State, dryRun: bool)
    requires s.trace == []
    ensures FailedSilently(Orchestrate(env, s, dryRun)) <==>
            !dryRun && Prepare(env, s).Go? && PlanStopsSilently(env, Prepare(env, s).state, Prepare(env, s).value)
  {
    PrepareReads(env, s);
    if Prepare(env, s).Go? {
      PlannedSilentExactly(env, Prepare(env, s).state, Prepare(env, s).value, dryRun);
    }
  }

  ghost predicate PlanStopsSilently(env: Env, s: State, plan: (Version, string)) {
    StopsSilently(env, s, plan.1, EditedManifest(s.repo, plan.0))
  }

  lemma PlannedSilentExactly(env: Env, s: State, plan: (Version, string), dryRun: bool)
    requires s.trace == []
    ensures FailedSilently(RunPlan(env, s, plan, dryRun)) <==> !dryRun && PlanStopsSilently(env, s, plan)
  {
    var (v, tag) := plan;
    var edited := EditedManifest(s.repo, v);
    ExecuteSilentExactly(env, s, v, tag, edited);
    assert !dryRun ==> RunPlan(env, s, plan, dryRun) == Execute(env, s, v, tag, edited);
  }

  lemma TraceOfLocal(env: Env, s: State, v: Version, tag: string, edited: Option<string>)
    requires s.trace == [] && FirstGate(env, s, tag) && LocalSucceeds(env.schedule, edited)
    ensures Execute(env, s, v, tag, edited).state.trace != []
  {
    GateOpen(env, s, v, tag, edited);
    LocalHint(env, BehindGate(s), v, tag, edited);
    var k := LocalTrace(env, BehindGate(s), v, tag, edited);
    var pushed := PushTrace(env, LocalEffects(env, BehindGate(s), v, tag, edited).state, tag);
  }

  /** Input that ends at the push gate leaves the commit and the tag behind, and no hint. */
  lemma EndOfInputLeavesTag(env: Env, s: State, v: Version, tag: string, edited: Option<string>)
    requires s.input == [Some(tag)] && FirstGate(env, s, tag) && env.writeOk(s.written + 2)
    requires LocalSucceeds(env.schedule, edited)
    ensures var o := Execute(env, s, v, tag, edited);
            && o.Stop? && o.failure == EndOfInput && Hint(o.failure).None?
            && |o.state.repo.history| == |s.repo.history| + 1 && tag in o.state.repo.tags
  {
    GateOpen(env, s, v, tag, edited);
    LocalHint(env, BehindGate(s), v, tag, edited);
    LocalKeepsConsole(env, BehindGate(s), v, tag, edited);
    LocalEffectsCommit(env, BehindGate(s), v, tag, edited);
    EmptyInputStops(env, LocalEffects(env, BehindGate(s), v, tag, edited).state, tag);
  }

  lemma EmptyInputStops(env: Env, s: State, tag: string)
    requires s.input == [] && env.writeOk(s.written)
    ensures PushGate(env, s, tag).Stop? && PushGate(env, s, tag).failure == EndOfInput
    ensures PushGate(env, s, tag).state.repo == s.repo
  {
    assert AskLine(env, s).Stop?;
  }

  // ---- A run whose commit fails after staging ----

  lemma AskFirst<T>(env: Env, s: State, parse: string -> Option<T>)
    requires env.writeOk(s.written) && s.input != [] && s.input[0].Some? && parse(s.input[0].value).Some?
    ensures Ask(env, s, parse) ==
            Go(s.(input := s.input[1..], written := s.written + 1), parse(s.input[0].value).value)
  {
  }

  lemma TwoMeans()
    ensures ParseKind("2") == Some(Final) && ParseBump("2") == Some(Patch)
  {
    assert Text.Trim("2") == "2" && ToAsciiLower("2") == "2";
  }

  /** A fit repository, a final release, a patch bump, and working streams. */
  predicate Smooth(env: Env, s: State, v: Version) {
    && FitToRelease(env.facts) && Surveyed(env.facts)
    && ComputeTarget(env.facts.version.value, Final, Patch, KnownTags(env.facts)) == Some(v)
    && TagOf(v) !in KnownTags(env.facts)
    && |s.input| == 3 && s.input[0] == Some("2") && s.input[1] == Some("2")
  }

  lemma ChooseSmooth(env: Env, s: State)
    requires (forall k :: env.writeOk(k)) && |s.input| == 3 && s.input[0] == Some("2") && s.input[1] == Some("2")
    ensures Choose(env, s) == Go(s.(input := s.input[2..], written := s.written + 2), (Final, Patch))
  {
    TwoMeans();
    AskFirst(env, s, ParseKind);
    var s1 := s.(input := s.input[1..], written := s.written + 1);
    AskFirst(env, s1, ParseBump);
    assert s.input[1..][1..] == s.input[2..];
  }

  lemma SettleSmooth(env: Env, s: State, v: Version, tags: seq<string>, current: Version)
    requires (forall k :: env.writeOk(k)) && ComputeTarget(current, Final, Patch, tags) == Some(v) && TagOf(v) !in tags
    ensures Settle(env, s, (Final, Patch), current, tags) == Go(s.(written := s.written + 1), (v, TagOf(v)))
  {
  }

  lemma PrepareSmooth(env: Env, s: State, v: Version)
    requires Smooth(env, s, v) && forall k :: env.writeOk(k)
    ensures Prepare(env, s).Go? && Prepare(env, s).value == (v, TagOf(v))
    ensures Prepare(env, s).state.repo == s.repo && Prepare(env, s).state.input == s.input[2..]
  {
    var said := Say(env, s).state;
    PreflightExactly(env, said);
    PreflightReads(env, said);
    PreflightKeepsInput(env, said);
    var ready := Preflight(env, said).state;
    ChooseSmooth(env, ready);
    var chosen := Choose(env, ready).state;
    assert Survey(env, chosen) == Go(chosen, (env.facts.version.value, KnownTags(env.facts)));
    SettleSmooth(env, chosen, v, KnownTags(env.facts), env.facts.version.value);
    PrepareReads(env, s);
  }

  lemma CommitFails(env: Env, s: State, v: Version, tag: string, edited: Option<string>)
    requires FirstGate(env, s, tag) && StagedThenFails(env.schedule, s.repo, edited)
    ensures var o := Execute(env, s, v, tag, edited);
            o.Stop? && o.failure == EffectFailed(CommitFiles("release: " + tag), RestoreFiles)
  {
    GateOpen(env, s, v, tag, edited);
  }

  /** A final release of 1.0.1 over 1.0.0, whose commit a hook for instance will refuse. */
  const CURRENT := Version(1, 0, 0, [], [])
  const RELEASED := Version(1, 0, 1, [], [])

  const REFUSING: Env :=
    Env(Facts(Some("main"), Some(true), true, Some(true), Some(CURRENT), Some([]), Some([])),
        Schedule(Written, Wrote("lock 2"), CommitFailed, true, true), _ => true)

  function RefusedStart(): State {
    var files := Files(Manifest.PackageText(Show(CURRENT)), "lock 1");
    State(Repo([Commit(files, "start")], files, files, map[], [], {}), [],
          [Some("2"), Some("2"), Some(TagOf(RELEASED))], 0)
  }

  lemma RefusedIsSmooth()
    ensures Smooth(REFUSING, RefusedStart(), RELEASED) && forall k :: REFUSING.writeOk(k)
    ensures Truthful(REFUSING, RefusedStart().repo) && Clean(RefusedStart().repo)
    ensures RefusedStart().input[2..] == [Some(TagOf(RELEASED))]
  {
    assert ComputeTarget(CURRENT, Final, Patch, []) == Some(RELEASED);
    assert KnownTags(REFUSING.facts) == [];
  }

  lemma RefusedStages()
    ensures StagedThenFails(REFUSING.schedule, RefusedStart().repo, EditedManifest(RefusedStart().repo, RELEASED))
  {
    VersionIsPlainValue(CURRENT);
    Manifest.PackageTextDeclares(Show(CURRENT));
    Manifest.EditedAt(RefusedStart().repo.worktree.manifest, 1, Show(RELEASED));
    assert "lock 2"[5] != "lock 1"[5];
  }

  /** A smooth run whose commit fails after staging stops with a hint that does not restore the start. */
  lemma SmoothRunNotRestored(env: Env, s: State, v: Version)
    requires (forall k :: env.writeOk(k)) && Truthful(env, s.repo)
    ensures Smooth(env, s, v) && s.input[2..] == [Some(TagOf(v))]
            && StagedThenFails(env.schedule, s.repo, EditedManifest(s.repo, v)) ==>
              var o := Orchestrate(env, s, false);
              o.Stop? && Hint(o.failure) == Some(RestoreFiles) && Recover(o.state.repo, RestoreFiles) != s.repo
  {
    if Smooth(env, s, v) && s.input[2..] == [Some(TagOf(v))]
       && StagedThenFails(env.schedule, s.repo, EditedManifest(s.repo, v))
    {
      PrepareSmooth(env, s, v);
      CommitFails(env, Prepare(env, s).state, v, TagOf(v), EditedManifest(s.repo, v));
      RecoveryRestoresExactly(env, s, false);
    }
  }

  /** A whole run over a truthful environment whose stated recovery does not restore the start. */
  lemma StagedCommitIsNotRestored()
    ensures Truthful(REFUSING, RefusedStart().repo) && Clean(RefusedStart().repo)
    ensures var o := Orchestrate(REFUSING, RefusedStart(), false);
            && o.Stop? && Hint(o.failure) == Some(RestoreFiles)
            && Recover(o.state.repo, RestoreFiles) != RefusedStart().repo
  {
    RefusedIsSmooth();
    RefusedStages();
    SmoothRunNotRestored(REFUSING, RefusedStart(), RELEASED);
  }

  // ---- What a run promises ----

  /** Exactly one new commit, with the edited manifest and the new lock, is published under the tag. */
  predicate PublishesOne(env: Env, before: Repo, after: Repo, tag: string, edited: Option<string>) {
    && edited.Some? && env.schedule.refreshLock.Wrote?
    && after.history ==
       before.history + [Commit(Files(edited.value, env.schedule.refreshLock.content), "release: " + tag)]
    && Clean(after) && after.remote == after.history && after.remoteTags == before.remoteTags + {tag}
    && after.tags == before.tags[tag := after.history]
  }

  /** The stated recovery gives back the repository, exactly unless changed files are to stay staged. */
  predicate RecoversExactly(env: Env, before: Repo, o: Outcome<()>, edited: Option<string>)
    requires o.Stop? && Hint(o.failure).Some?
  {
    Recover(o.state.repo, Hint(o.failure).value) == before <==> !StagedThenFails(env.schedule, before, edited)
  }

  /** An outcome that does what the gates promise: confirmed effects, a full publication or a hint that undoes them. */
  ghost predicate KeepsPromises(env: Env, s: State, v: Version, tag: string, edited: Option<string>, o: Outcome<()>) {
    && (s.trace == [] ==> Confirmed(s, o.state.trace, v, tag, 0))
    && (o.Go? ==> PublishesOne(env, s.repo, o.state.repo, tag, edited))
    && (o.Stop? && Hint(o.failure).Some? && Clean(s.repo) && tag !in s.repo.tags ==>
          RecoversExactly(env, s.repo, o, edited))
    && (o.Stop? && Hint(o.failure).None? <==>
        !FirstGate(env, s, tag)
        || (LocalSucceeds(env.schedule, edited) && SilentAtPush(env, s.input[1..], s.written + 2, tag)))
  }

  lemma ExecuteKeepsPromises(env: Env, s: State, v: Version, tag: string, edited: Option<string>)
    ensures KeepsPromises(env, s, v, tag, edited, Execute(env, s, v, tag, edited))
  {
    var o := Execute(env, s, v, tag, edited);
    if s.trace == [] {
      var k := ExecuteTrace(env, s, v, tag, edited);
    }
    HintMissingExactly(env, s, v, tag, edited);
    if o.Go? {
      CompletedRunPublishes(env, s, v, tag, edited);
      ExecuteLocks(env, s, v, tag, edited);
    } else if Hint(o.failure).Some? && Clean(s.repo) && tag !in s.repo.tags {
      ExecuteRecovers(env, s, v, tag, edited);
    }
  }

  lemma ExecuteLocks(env: Env, s: State, v: Version, tag: string, edited: Option<string>)
    requires Execute(env, s, v, tag, edited).Go?
    ensures env.schedule.refreshLock.Wrote?
  {
    if FirstGate(env, s, tag) {
      GateOpen(env, s, v, tag, edited);
      LocalHint(env, BehindGate(s), v, tag, edited);
    } else {
      GateShut(env, s, v, tag, edited);
    }
  }

  /**
   * The outcome follows the plan: effects confirmed on the lines from `i` on, one publication on
   * success, and a hint that undoes everything but a staged failed commit.
   */
  ghost predicate Explains(env: Env, s: State, o: Outcome<()>, v: Version, tag: string, edited: Option<string>,
                           i: nat)
  {
    && (s.trace == [] ==> Confirmed(s, o.state.trace, v, tag, i))
    && (o.Go? ==> PublishesOne(env, s.repo, o.state.repo, tag, edited))
    && (o.Stop? && Hint(o.failure).Some? && Truthful(env, s.repo) ==> RecoversExactly(env, s.repo, o, edited))
  }

  /** The run succeeded, changed something, or hints at something to undo. */
  predicate Acted(s: State, o: Outcome<()>) {
    o.Go? || Hint(o.failure).Some? || o.state.repo != s.repo || o.state.trace != s.trace
  }

  /** A whole run: nothing on a dry run, and otherwise nothing but what the one prepared plan explains. */
  ghost predicate RunKeepsPromises(env: Env, s: State, dryRun: bool, o: Outcome<()>) {
    && (dryRun ==> o.state.repo == s.repo && o.state.trace == s.trace)
    && (!dryRun && Acted(s, o) ==>
          exists v :: IsPrepared(env, s, v)
            && Explains(env, s, o, v, TagOf(v), EditedManifest(s.repo, v), GateLine(env, s)))
  }

  lemma PlannedIsFresh(env: Env, repo: Repo, v: Version, choice: (Kind, Bump))
    requires FitToRelease(env.facts) && IsPlanned(env.facts, choice, v)
    ensures Truthful(env, repo) ==> Clean(repo) && TagOf(v) !in repo.tags
  {
  }

  lemma PromisesExplain(env: Env, s: State, s': State, v: Version, tag: string, edited: Option<string>,
                        o: Outcome<()>, i: nat)
    requires KeepsPromises(env, s', v, tag, edited, o) && i <= |s.input|
    requires s'.repo == s.repo && s'.trace == s.trace && s'.input == s.input[i..]
    requires Truthful(env, s.repo) ==> Clean(s.repo) && tag !in s.repo.tags
    ensures Explains(env, s, o, v, tag, edited, i)
  {
    if s.trace == [] {
      ConfirmedLater(s, s', o.state.trace, v, tag, i);
    }
  }

  lemma ExecuteExplained(env: Env, s: State, s': State, v: Version, tag: string, edited: Option<string>, i: nat)
    requires i <= |s.input| && s'.repo == s.repo && s'.trace == s.trace && s'.input == s.input[i..]
    requires Truthful(env, s.repo) ==> Clean(s.repo) && tag !in s.repo.tags
    ensures Explains(env, s, Execute(env, s', v, tag, edited), v, tag, edited, i)
  {
    ExecuteKeepsPromises(env, s', v, tag, edited);
    PromisesExplain(env, s, s', v, tag, edited, Execute(env, s', v, tag, edited), i);
  }

  lemma HarmlessKeepsPromises<T>(env: Env, s: State, dryRun: bool, o: Outcome<T>)
    requires o.Stop? && Harmless(s, o)
    ensures RunKeepsPromises(env, s, dryRun, Stop(o.state, o.failure))
  {
  }

  lemma PlanExplained(env: Env, s: State, s': State, plan: (Version, string), i: nat)
    requires s'.repo == s.repo && s'.trace == s.trace && i <= |s.input| && s'.input == s.input[i..]
    requires Truthful(env, s.repo) ==> Clean(s.repo) && plan.1 !in s.repo.tags
    ensures Explains(env, s, RunPlan(env, s', plan, false), plan.0, plan.1, EditedManifest(s.repo, plan.0), i)
  {
    ExecuteExplained(env, s, s', plan.0, plan.1, EditedManifest(s.repo, plan.0), i);
  }

  lemma Witnessed(env: Env, s: State, o: Outcome<()>, v: Version)
    ensures IsPrepared(env, s, v) && Explains(env, s, o, v, TagOf(v), EditedManifest(s.repo, v), GateLine(env, s)) ==>
              RunKeepsPromises(env, s, false, o)
  {
  }

  lemma DryRunKeepsPromises(env: Env, s: State, s': State, plan: (Version, string))
    requires OnlyRead(s, s')
    ensures RunKeepsPromises(env, s, true, RunPlan(env, s', plan, true))
  {
  }

  lemma UnreadLines(s: State, s': State)
    requires OnlyRead(s, s')
    ensures s'.input == s.input[|s.input| - |s'.input|..]
  {
  }

  lemma PreparedReads(env: Env, s: State)
    ensures Prepare(env, s).Go? ==> IsPrepared(env, s, Prepare(env, s).value.0)
  {
    PrepareReads(env, s);
  }

  lemma PreparedInput(env: Env, s: State)
    ensures var s' := Prepare(env, s).state;
            && s'.repo == s.repo && s'.trace == s.trace
            && GateLine(env, s) <= |s.input| && s'.input == s.input[GateLine(env, s)..]
  {
    PrepareReads(env, s);
    UnreadLines(s, Prepare(env, s).state);
  }

  lemma PreparedIsFresh(env: Env, s: State)
    ensures Prepare(env, s).Go? && Truthful(env, s.repo) ==>
              Clean(s.repo) && Prepare(env, s).value.1 !in s.repo.tags
  {
    PrepareReads(env, s);
    if Prepare(env, s).Go? {
      var v := Prepare(env, s).value.0;
      var choice :| IsPlanned(env.facts, choice, v);
      PlannedIsFresh(env, s.repo, v, choice);
    }
  }

  lemma PreparedKeepsPromises(env: Env, s: State)
    ensures Prepare(env, s).Go? ==>
              RunKeepsPromises(env, s, false, RunPlan(env, Prepare(env, s).state, Prepare(env, s).value, false))
  {
    PreparedReads(env, s);
    PreparedInput(env, s);
    PreparedIsFresh(env, s);
    var prepared := Prepare(env, s);
    if prepared.Go? {
      PlanExplained(env, s, prepared.state, prepared.value, GateLine(env, s));
      Witnessed(env, s, RunPlan(env, prepared.state, prepared.value, false), prepared.value.0);
    }
  }

  lemma OrchestrateKeepsPromises(env: Env, s: State, dryRun: bool)
    ensures RunKeepsPromises(env, s, dryRun, Orchestrate(env, s, dryRun))
  {
    PrepareReads(env, s);
    if Prepare(env, s).Stop? {
      HarmlessKeepsPromises(env, s, dryRun, Prepare(env, s));
    } else if dryRun {
      DryRunKeepsPromises(env, s, Prepare(env, s).state, Prepare(env, s).value);
    } else {
      PreparedKeepsPromises(env, s);
    }
  }

  // ---- The run over its own state ----

  function Seen<T>(s: State, r: Result<T, Failure>): Outcome<T> {
    match r
    case Ok(v) => Go(s, v)
    case Err(f) => Stop(s, f)
  }

  function Trimmed(lines: seq<Option<string>>): (r: seq<Option<string>>)
    ensures |r| == |lines|
  {
    seq(|lines|, i requires 0 <= i < |lines| =>
      match lines[i] case None => None case Some(line) => Some(Text.Trim(line)))
  }

  /** The release tool: its repository, its console, and the record of effects done. */
  class Tool {
    const env: Env
    var repo: Repo
    var trace: seq<Effect>
    var typed: seq<Option<string>>
    var written: nat

    ghost function Now(): State
      reads this
    {
      State(repo, trace, Trimmed(typed), written)
    }

    constructor (env: Env, repo: Repo, typed: seq<Option<string>>)
      ensures this.env == env && Now() == State(repo, [], Trimmed(typed), 0)
    {
      this.env, this.repo, this.typed := env, repo, typed;
      trace, written := [], 0;
    }

    method Print() returns (r: Result<(), Failure>)
      modifies this`written
      ensures Seen(Now(), r) == Say(env, old(Now()))
    {
      r := if env.writeOk(written) then Ok(()) else Err(StreamError);
      written := written + 1;
    }

    method NextLine() returns (r: Result<string, Failure>)
      modifies this`typed
      ensures Seen(Now(), r) == ReadLine(old(Now()))
    {
      if typed == [] {
        return Err(EndOfInput);
      }
      var line := typed[0];
      assert Trimmed(typed)[1..] == Trimmed(typed[1..]);
      typed := typed[1..];
      r := match line case None => Err(StreamError) case Some(text) => Ok(Text.Trim(text));
    }

    method PromptLine() returns (r: Result<string, Failure>)
      modifies this`typed, this`written
      ensures Seen(Now(), r) == AskLine(env, old(Now()))
    {
      var said := Print();
      if said.Err? {
        return Err(said.error);
      }
      r := NextLine();
    }

    method Prompt<T>(parse: string -> Option<T>) returns (r: Result<T, Failure>)
      modifies this`typed, this`written
      ensures Seen(Now(), r) == Ask(env, old(Now()), parse)
    {
      while true
        invariant Ask(env, Now(), parse) == Ask(env, old(Now()), parse)
        invariant repo == old(repo) && trace == old(trace)
        decreases |typed|
      {
        AskLineReads(env, Now());
        var line := PromptLine();
        if line.Err? {
          return Err(line.error);
        }
        var v := parse(line.value);
        if v.Some? {
          return Ok(v.value);
        }
        var said := Print();
        if said.Err? {
          return Err(said.error);
        }
      }
    }

    method EditManifest(v: Version) returns (edited: Option<string>)
      ensures edited == EditedManifest(repo, v)
    {
      edited := Manifest.ReplaceWorkspaceVersion(repo.worktree.manifest, Show(v));
    }

    method SetWorkspaceVersion(v: Version) returns (r: Result<(), Failure>)
      modifies this`repo, this`trace
      ensures Seen(Now(), r) == RunSetVersion(env, old(Now()), v, EditedManifest(old(repo), v))
    {
      var edited := EditManifest(v);
      r := WriteManifest(v, edited);
    }

    method WriteManifest(v: Version, edited: Option<string>) returns (r: Result<(), Failure>)
      modifies this`repo, this`trace
      ensures Seen(Now(), r) == RunSetVersion(env, old(Now()), v, edited)
    {
      if env.schedule.setVersion == Unread || edited.None? {
        return Err(EffectFailed(SetVersion(v), RestoreFiles));
      }
      var content := if env.schedule.setVersion.Torn? then env.schedule.setVersion.content else edited.value;
      repo := repo.(worktree := repo.worktree.(manifest := content));
      if env.schedule.setVersion.Torn? {
        return Err(EffectFailed(SetVersion(v), RestoreFiles));
      }
      trace := trace + [SetVersion(v)];
      r := Ok(());
    }

    method CargoUpdateWorkspace() returns (r: Result<(), Failure>)
      modifies this`repo, this`trace
      ensures Seen(Now(), r) == RunRefreshLock(env, old(Now()))
    {
      repo := repo.(worktree := repo.worktree.(lock := env.schedule.refreshLock.content));
      if env.schedule.refreshLock.Broke? {
        return Err(EffectFailed(RefreshLock, RestoreFiles));
      }
      trace := trace + [RefreshLock];
      r := Ok(());
    }

    /** Stages the two files, then commits. */
    method GitCommitAll(message: string) returns (r: Result<(), Failure>)
      modifies this`repo, this`trace
      ensures Seen(Now(), r) == RunCommit(env, old(Now()), message)
    {
      if env.schedule.commit == AddFailed {
        return Err(EffectFailed(CommitFiles(message), RestoreFiles));
      }
      repo := repo.(index := repo.worktree);
      if env.schedule.commit == CommitFailed {
        return Err(EffectFailed(CommitFiles(message), RestoreFiles));
      }
      repo := repo.(history := repo.history + [Commit(repo.index, message)]);
      trace := trace + [CommitFiles(message)];
      r := Ok(());
    }

    method GitAnnotatedTag(tag: string) returns (r: Result<(), Failure>)
      modifies this`repo, this`trace
      ensures Seen(Now(), r) == RunTag(env, old(Now()), tag)
    {
      if !env.schedule.tagged {
        return Err(EffectFailed(AnnotateTag(tag), DropCommit));
      }
      repo := repo.(tags := repo.tags[tag := repo.history]);
      trace := trace + [AnnotateTag(tag)];
      r := Ok(());
    }

    method GitPushAtomic(tag: string) returns (r: Result<(), Failure>)
      modifies this`repo, this`trace
      ensures Seen(Now(), r) == RunPush(env, old(Now()), tag)
    {
      if !env.schedule.pushed {
        return Err(EffectFailed(PushAtomic(tag), DropTagAndCommit(tag)));
      }
      repo := repo.(remote := repo.history, remoteTags := repo.remoteTags + {tag});
      trace := trace + [PushAtomic(tag)];
      r := Ok(());
    }

    method DoFiles(v: Version) returns (r: Result<(), Failure>)
      modifies this`repo, this`trace
      ensures Seen(Now(), r) == RunFiles(env, old(Now()), v, EditedManifest(old(repo), v))
    {
      r := SetWorkspaceVersion(v);
      if r.Err? {
        return;
      }
      r := CargoUpdateWorkspace();
    }

    method DoLocalEffects(v: Version, tag: string) returns (r: Result<(), Failure>)
      modifies this`repo, this`trace
      ensures Seen(Now(), r) == LocalEffects(env, old(Now()), v, tag, EditedManifest(old(repo), v))
    {
      r := DoFiles(v);
      if r.Err? {
        return;
      }
      r := GitCommitAll("release: " + tag);
      if r.Err? {
        return;
      }
      r := GitAnnotatedTag(tag);
    }

    method ConfirmAndPush(tag: string) returns (r: Result<(), Failure>)
      modifies this
      ensures Seen(Now(), r) == PushGate(env, old(Now()), tag)
    {
      var line := PromptLine();
      if line.Err? {
        return Err(line.error);
      }
      if line.value != tag {
        return Err(PushGateMismatch(DropTagAndCommit(tag)));
      }
      r := GitPushAtomic(tag);
      if r.Err? {
        return;
      }
      r := Print();
    }

    method DoExecute(v: Version, tag: string) returns (r: Result<(), Failure>)
      modifies this
      ensures Seen(Now(), r) == Execute(env, old(Now()), v, tag, EditedManifest(old(repo), v))
      ensures KeepsPromises(env, old(Now()), v, tag, EditedManifest(old(repo), v), Seen(Now(), r))
    {
      ExecuteKeepsPromises(env, Now(), v, tag, EditedManifest(repo, v));
      r := Print();
      if r.Err? {
        return;
      }
      var line := PromptLine();
      if line.Err? {
        return Err(line.error);
      }
      if line.value != tag {
        return Err(FirstGateMismatch);
      }
      r := DoEffects(v, tag);
    }

    method DoEffects(v: Version, tag: string) returns (r: Result<(), Failure>)
      modifies this
      ensures Seen(Now(), r) == Effects(env, old(Now()), v, tag, EditedManifest(old(repo), v))
    {
      r := DoLocalEffects(v, tag);
      if r.Err? {
        return;
      }
      r := ConfirmAndPush(tag);
    }

    method CheckBranch() returns (r: Result<(), Failure>)
      modifies this`written
      ensures Seen(Now(), r) == BranchCheck(env, old(Now()))
    {
      if env.facts.branch.None? {
        return Err(ReadFailed);
      }
      r := Print();
      if r.Ok? && env.facts.branch.value != "main" {
        r := Err(NotOnMain);
      }
    }

    method CheckClean() returns (r: Result<(), Failure>)
      modifies this`written
      ensures Seen(Now(), r) == CleanCheck(env, old(Now()))
    {
      if env.facts.clean.None? {
        return Err(ReadFailed);
      }
      r := Print();
      if r.Ok? && !env.facts.clean.value {
        r := Err(NotClean);
      }
    }

    method CheckSynced() returns (r: Result<(), Failure>)
      modifies this`written
      ensures Seen(Now(), r) == SyncCheck(env, old(Now()))
    {
      if !env.facts.fetched || env.facts.synced.None? {
        return Err(ReadFailed);
      }
      r := Print();
      if r.Ok? && !env.facts.synced.value {
        r := Err(Diverged);
      }
    }

    method DoPreflight() returns (r: Result<(), Failure>)
      modifies this`written
      ensures Seen(Now(), r) == Preflight(env, old(Now()))
    {
      r := CheckBranch();
      if r.Err? {
        return;
      }
      r := CheckClean();
      if r.Err? {
        return;
      }
      r := CheckSynced();
      if r.Err? {
        return;
      }
      r := Print();
    }

    method DoChoose() returns (r: Result<(Kind, Bump), Failure>)
      modifies this`written, this`typed
      ensures Seen(Now(), r) == Choose(env, old(Now()))
    {
      var kind := Prompt(ParseKind);
      if kind.Err? {
        return Err(kind.error);
      }
      var bump := Prompt(ParseBump);
      if bump.Err? {
        return Err(bump.error);
      }
      r := Ok((kind.value, bump.value));
    }

    method DoSettle(choice: (Kind, Bump), current: Version, tags: seq<string>)
      returns (r: Result<(Version, string), Failure>)
      modifies this`written
      ensures Seen(Now(), r) == Settle(env, old(Now()), choice, current, tags)
    {
      var target := TargetVersion(current, choice.0, choice.1, tags);
      if target.None? {
        return Err(Overflowed);
      }
      var tag := TagOf(target.value);
      if tag in tags {
        return Err(TagExists);
      }
      var said := Print();
      r := if said.Ok? then Ok((target.value, tag)) else Err(said.error);
    }

    method DoPrepare() returns (r: Result<(Version, string), Failure>)
      modifies this`written, this`typed
      ensures Seen(Now(), r) == Prepare(env, old(Now()))
    {
      var said := Print();
      if said.Err? {
        return Err(said.error);
      }
      said := DoPreflight();
      if said.Err? {
        return Err(said.error);
      }
      var choice := DoChoose();
      if choice.Err? {
        return Err(choice.error);
      }
      if env.facts.version.None? || env.facts.localTags.None? || env.facts.remoteTags.None? {
        return Err(ReadFailed);
      }
      r := DoSettle(choice.value, env.facts.version.value, env.facts.localTags.value + env.facts.remoteTags.value);
    }

    method DoOrchestrate(dryRun: bool) returns (r: Result<(), Failure>)
      modifies this
      ensures Seen(Now(), r) == Orchestrate(env, old(Now()), dryRun)
      ensures RunKeepsPromises(env, old(Now()), dryRun, Seen(Now(), r))
    {
      OrchestrateKeepsPromises(env, Now(), dryRun);
      var plan := DoPrepare();
      if plan.Err? {
        return Err(plan.error);
      }
      if dryRun {
        r := Print();
      } else {
        r := DoExecute(plan.value.0, plan.value.1);
      }
    }
  }
}
