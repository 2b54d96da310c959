/** Which layer wins, key by key, and which rows count: the resolution as explicit cascades. */
module ConfigCascade {
  import opened Wrappers
  import opened Text
  import opened Decimal
  import opened ConfigValues
  import opened ConfigLayers

  /** The first of six layers that sets the key. */
  lemma FirstOfSix<T>(stack: seq<Layer>, f: Layer -> Option<T>)
    requires |stack| == 6 && f(stack[5]).Some?
    ensures Pick(stack, f) == Some(
              if f(stack[0]).Some? then (f(stack[0]).value, SourceOf(stack[0]))
              else if f(stack[1]).Some? then (f(stack[1]).value, SourceOf(stack[1]))
              else if f(stack[2]).Some? then (f(stack[2]).value, SourceOf(stack[2]))
              else if f(stack[3]).Some? then (f(stack[3]).value, SourceOf(stack[3]))
              else if f(stack[4]).Some? then (f(stack[4]).value, SourceOf(stack[4]))
              else (f(stack[5]).value, SourceOf(stack[5])))
  {
    var i :=
      if f(stack[0]).Some? then 0 else if f(stack[1]).Some? then 1 else if f(stack[2]).Some? then 2
      else if f(stack[3]).Some? then 3 else if f(stack[4]).Some? then 4 else 5;
    PickIsFirst(stack, f, i);
  }

  /** The output format: command line, environment, project, user, database, then JSON. */
  function FormatCascade(l: Layers): (OutputFormat, Source) {
    if l.cli.outputFormat.Some? then (l.cli.outputFormat.value, FromCli)
    else if l.env.outputFormat.Some? then (l.env.outputFormat.value, FromEnv)
    else if l.project.outputFormat.Some? then (l.project.outputFormat.value, FromProject)
    else if l.user.outputFormat.Some? then (l.user.outputFormat.value, FromUser)
    else if l.db.outputFormat.Some? then (l.db.outputFormat.value, FromDb)
    else (Json, FromDefault)
  }

  /** The search cap: neither flag nor variable; 50 when nothing sets it. */
  function CapCascade(l: Layers): (nat, Source) {
    if l.project.searchCap.Some? then (l.project.searchCap.value, FromProject)
    else if l.user.searchCap.Some? then (l.user.searchCap.value, FromUser)
    else if l.db.searchCap.Some? then (l.db.searchCap.value, FromDb)
    else (50, FromDefault)
  }

  /** The JSONL toggle: neither user file nor database; off when nothing sets it. */
  function JsonlCascade(l: Layers): (bool, Source) {
    if l.cli.jsonlExport.Some? then (l.cli.jsonlExport.value, FromCli)
    else if l.env.jsonlExport.Some? then (l.env.jsonlExport.value, FromEnv)
    else if l.project.jsonlExport.Some? then (l.project.jsonlExport.value, FromProject)
    else (false, FromDefault)
  }

  /** The value names someone: it is set and more than white space. */
  predicate Names(actor: Option<string>) {
    actor.Some? && exists i | 0 <= i < |actor.value| :: !IsWhitespace(actor.value[i])
  }

  /** The actor: a blank value counts as unset; behind the database come the system user and "unblock". */
  function ActorCascade(l: Layers, osUser: Option<string>): (string, Source) {
    if Names(l.cli.actor) then (Trim(l.cli.actor.value), FromCli)
    else if Names(l.env.actor) then (Trim(l.env.actor.value), FromEnv)
    else if Names(l.project.actor) then (Trim(l.project.actor.value), FromProject)
    else if Names(l.user.actor) then (Trim(l.user.actor.value), FromUser)
    else if Names(l.db.actor) then (Trim(l.db.actor.value), FromDb)
    else if Names(osUser) then (Trim(osUser.value), FromOsUser)
    else ("unblock", FromDefault)
  }

  lemma NamesTrimmed(actor: Option<string>)
    ensures TrimmedNonEmpty(actor) == if Names(actor) then Some(Trim(actor.value)) else None
  {
    if actor.Some? {
      TrimmedAway(actor.value);
    }
  }

  lemma ActorPicked(l: Layers, osUser: Option<string>)
    requires l.bottom == WithOsUser(osUser)
    ensures PickedActor(l) == ActorCascade(l, osUser)
  {
    NamesTrimmed(l.cli.actor);
    NamesTrimmed(l.env.actor);
    NamesTrimmed(l.project.actor);
    NamesTrimmed(l.user.actor);
    NamesTrimmed(l.db.actor);
    NamesTrimmed(osUser);
    FirstOfSix(Stack(l), ActorIn);
  }

  lemma FormatPicked(l: Layers)
    ensures Picked(l, FormatIn) == FormatCascade(l)
  {
    FirstOfSix(Stack(l), FormatIn);
  }

  lemma JsonlPicked(l: Layers)
    ensures Picked(l, JsonlIn) == JsonlCascade(l)
  {
    FirstOfSix(Stack(l), JsonlIn);
  }

  lemma CapPicked(l: Layers)
    ensures Picked(l, CapIn) == CapCascade(l)
  {
    FirstOfSix(Stack(l), CapIn);
  }

  /** Every runtime key is reported as its cascade says. */
  lemma MergesByCascade(l: Layers, osUser: Option<string>)
    requires l.bottom == WithOsUser(osUser)
    ensures MergeRuntime(l) ==
            Runtime.Runtime(ActorCascade(l, osUser), FormatCascade(l), JsonlCascade(l), CapCascade(l))
  {
    ActorPicked(l, osUser);
    FormatPicked(l);
    JsonlPicked(l);
    CapPicked(l);
  }

  /** At most 200 characters, none a control character of ASCII or Latin-1. */
  predicate Admissible(actor: string) {
    |actor| <= 200 && forall i | 0 <= i < |actor| :: actor[i] as int >= 32 && !(127 <= actor[i] as int <= 159)
  }

  lemma AdmissibleExactly(actor: string)
    ensures ValidActor(actor) <==> Admissible(actor)
  {
    if Admissible(actor) {
      forall i | 0 <= i < |actor|
        ensures !IsControl(actor[i])
      {
        assert actor[i] as int >= 32 && !(127 <= actor[i] as int <= 159);
      }
    }
  }

  /**
   * A reload, in full: a project file that does not load is reported before the user file; an
   * inadmissible actor before a cap outside 1 to 9223372036854775807; and a reload that succeeds
   * reports every key by its cascade, the database's values being those of the rows.
   */
  lemma ReloadsByCascade(r: Reloader, project: Result<FileConfig, ConfigError>, user: Result<FileConfig, ConfigError>,
                         rows: seq<Row>)
    ensures project.Err? ==> ReloadRuntime(r, project, user, rows) == Err(project.error)
    ensures project.Ok? && user.Err? ==> ReloadRuntime(r, project, user, rows) == Err(user.error)
    ensures project.Ok? && user.Ok? ==>
              var l := Layers(r.cli, r.env, project.value, user.value, LayerOf(DecodeAll(rows)),
                              WithOsUser(r.osUser));
              var actor, cap := ActorCascade(l, r.osUser), CapCascade(l);
              ReloadRuntime(r, project, user, rows) ==
              if !Admissible(actor.0) then Err(InvalidActor(actor.0))
              else if cap.0 == 0 || cap.0 > 9223372036854775807 then Err(InvalidCap(cap.0))
              else Ok(RuntimeConfig(Runtime.Runtime(actor, FormatCascade(l), JsonlCascade(l), cap),
                                    FaultsOf(DecodeAll(rows))))
  {
    if project.Ok? && user.Ok? {
      var l := Layers(r.cli, r.env, project.value, user.value, LayerOf(DecodeAll(rows)), WithOsUser(r.osUser));
      MergesByCascade(l, r.osUser);
      AdmissibleExactly(ActorCascade(l, r.osUser).0);
    }
  }

  // ---- The startup keys ----

  lemma StartupPicked<T>(l: Layers, field: FileConfig -> Option<T>, default: Option<T>)
    ensures PickStartup(l, field, default) == if field(l.project).Some? then field(l.project) else default
  {
    ProjectOrDefault(l, StartupView(field, default));
  }

  /** Every startup key is the project file's or the written default; the lock timeout is at least 100. */
  lemma StartupByCascade(l: Layers, normalize: string -> string)
    ensures var s, p := MergeStartup(l, normalize), l.project;
            && s.dbFilename == OrElse(p.dbFilename, "unblock.db")
            && s.jsonlFilename == OrElse(p.jsonlFilename, "issues.jsonl")
            && s.idPrefix == normalize(OrElse(p.idPrefix, "ub"))
            && s.writeLockTimeoutMs ==
               (if p.writeLockTimeoutMs.None? then 30000
                else if p.writeLockTimeoutMs.value < 100 then 100
                else p.writeLockTimeoutMs.value)
            && s.deletionsRetentionDays == p.deletionsRetentionDays
            && s.backend == p.backend
  {
    StartupPicked(l, LockTimeoutIn, Some(DEFAULT_WRITE_LOCK_TIMEOUT_MS));
    StartupPicked(l, DbFilenameIn, Some(DB_FILENAME));
    StartupPicked(l, JsonlFilenameIn, Some(JSONL_FILENAME));
    StartupPicked(l, IdPrefixIn, Some(DEFAULT_ID_PREFIX));
    StartupPicked(l, RetentionIn, None);
    StartupPicked(l, BackendIn, None);
  }

  /** The open is refused exactly for a project backend other than "libsql", and names it. */
  lemma BackendDecides(l: Layers, normalize: string -> string)
    ensures var p := l.project;
            ResolveStartup(l, normalize) ==
            if p.backend.Some? && p.backend.value != "libsql" then Err(UnsupportedBackend(p.backend.value))
            else Ok(MergeStartup(l, normalize))
  {
    StartupIgnoresRuntimeLayers(l, NO_FILE, NO_LAYER, WithOsUser(None), normalize);
    StartupPicked(l, BackendIn, None);
  }

  // ---- The rows ----

  ghost predicate NoSoundRow(rows: seq<DecodedRow>, key: RuntimeKey) {
    forall row | row in rows :: row.result.Ok? ==> KeyOf(row.result.value) != key
  }

  /** The database's value of a key is that of the last sound row of the key. */
  lemma {:induction false} LastSoundRowCounts(rows: seq<DecodedRow>, key: RuntimeKey, i: nat)
    requires i < |rows| && rows[i].result.Ok? && KeyOf(rows[i].result.value) == key
    requires NoSoundRow(rows[i + 1..], key)
    ensures FieldIn(LayerOf(rows), key) == Some(rows[i].result.value)
  {
    var before, last := rows[..|rows| - 1], rows[|rows| - 1];
    AddedField(LayerOf(before), last, key);
    if i < |before| {
      assert rows[i + 1..] == before[i + 1..] + [last];
      assert last in rows[i + 1..];
      LastSoundRowCounts(before, key, i);
    }
  }

  /** Without a sound row the database says nothing about the key. */
  lemma {:induction false} NoSoundRowNoValue(rows: seq<DecodedRow>, key: RuntimeKey)
    requires NoSoundRow(rows, key)
    ensures FieldIn(LayerOf(rows), key) == None
  {
    if rows != [] {
      NoSoundRowNoValue(rows[..|rows| - 1], key);
      AddedField(LayerOf(rows[..|rows| - 1]), rows[|rows| - 1], key);
    }
  }

  lemma AddedField(layer: DbLayer, row: DecodedRow, key: RuntimeKey)
    ensures FieldIn(AddRow(layer, row), key) ==
            if row.result.Ok? && KeyOf(row.result.value) == key then Some(row.result.value) else FieldIn(layer, key)
  {
  }

  /** The names of the startup keys; the JSONL file name has two. */
  predicate NamesStartupKey(name: string) {
    || name == "db_filename" || name == "jsonl_filename" || name == "jsonl_export_filename" || name == "backend"
    || name == "deletions_retention_days" || name == "id_prefix" || name == "write_lock_timeout_ms"
  }

  predicate NamesRuntimeKey(name: string) {
    name == "actor" || name == "output_format" || name == "jsonl_export" || name == "search_cap"
  }

  /** What is wrong with a row: a marked cell first, then the name, then the value. */
  lemma FaultsSpelledOut(row: Row)
    ensures var marked := NonText(row.0) || NonText(row.1);
            && (DecodeRow(row) == Err(StartupKeyFault) <==> !marked && NamesStartupKey(row.0))
            && (DecodeRow(row) == Err(UnknownKeyFault) <==>
                !marked && !NamesStartupKey(row.0) && !NamesRuntimeKey(row.0))
            && (marked || row.0 == "jsonl_export" ==> DecodeRow(row).Err?)
  {
    ClassifyInvertsName(JsonlExport, row.0);
    ClassSpelledOut(row.0);
  }

  lemma ClassSpelledOut(name: string)
    ensures Classify(name).None? <==> !NamesStartupKey(name) && !NamesRuntimeKey(name)
    ensures Classify(name).Some? && Classify(name).value.Startup? <==> NamesStartupKey(name)
  {
    assert |"db_filename"| == 11 && |"jsonl_filename"| == 14 && |"jsonl_export_filename"| == 21 && |"backend"| == 7;
    assert |"deletions_retention_days"| == 24 && |"id_prefix"| == 9 && |"write_lock_timeout_ms"| == 21;
    assert |"actor"| == 5 && |"output_format"| == 13 && |"jsonl_export"| == 12 && |"search_cap"| == 10;
    assert "jsonl_export_filename"[0] == 'j' && "write_lock_timeout_ms"[0] == 'w';
  }

  /** An unmarked row under a layer key is sound exactly when its trimmed value is admitted. */
  lemma RowParses(row: Row, key: RuntimeKey, value: RuntimeValue)
    requires !NonText(row.0) && !NonText(row.1) && row.0 == KeyName(key) && IsLayerKey(key)
    ensures DecodeRow(row) == Ok(value) <==> ParseTrimmed(key, Trim(row.1)) == Ok(value)
  {
    ClassifyInvertsName(key, row.0);
  }

  /** An actor row is sound exactly with a non-empty admissible name. */
  lemma SoundActorSpelledOut(row: Row, actor: string)
    requires !NonText(row.0) && !NonText(row.1) && row.0 == "actor"
    ensures DecodeRow(row) == Ok(ActorValue(actor)) <==> actor == Trim(row.1) && actor != [] && Admissible(actor)
  {
    RowParses(row, Actor, ActorValue(actor));
    ActorParses(Trim(row.1), actor);
  }

  lemma ActorParses(trimmed: string, actor: string)
    ensures ParseTrimmed(Actor, trimmed) == Ok(ActorValue(actor)) <==>
            actor == trimmed && actor != [] && Admissible(actor)
  {
    AdmissibleExactly(trimmed);
  }

  /** A format row is sound exactly with one of the five names, and means that format. */
  lemma SoundFormatSpelledOut(row: Row)
    requires !NonText(row.0) && !NonText(row.1) && row.0 == "output_format"
    ensures var name, result := Trim(row.1), DecodeRow(row);
            && (result == Ok(FormatValue(Json)) <==> name == "json")
            && (result == Ok(FormatValue(Robot)) <==> name == "robot")
            && (result == Ok(FormatValue(Plain)) <==> name == "plain")
            && (result == Ok(FormatValue(Csv)) <==> name == "csv")
            && (result == Ok(FormatValue(Markdown)) <==> name == "markdown")
  {
    forall f: OutputFormat
      ensures DecodeRow(row) == Ok(FormatValue(f)) <==> ParseFormat(Trim(row.1)) == Some(f)
    {
      FormatRow(row, f);
    }
    FormatTable(DecodeRow(row), Trim(row.1));
  }

  lemma FormatRow(row: Row, f: OutputFormat)
    requires !NonText(row.0) && !NonText(row.1) && row.0 == "output_format"
    ensures DecodeRow(row) == Ok(FormatValue(f)) <==> ParseFormat(Trim(row.1)) == Some(f)
  {
    RowParses(row, OutputFormatKey, FormatValue(f));
    FormatParses(Trim(row.1), f);
  }

  lemma FormatParses(trimmed: string, f: OutputFormat)
    ensures ParseTrimmed(OutputFormatKey, trimmed) == Ok(FormatValue(f)) <==> ParseFormat(trimmed) == Some(f)
  {
  }

  lemma FormatTable(result: Result<RuntimeValue, FaultKind>, name: string)
    requires forall f: OutputFormat :: result == Ok(FormatValue(f)) <==> ParseFormat(name) == Some(f)
    ensures (result == Ok(FormatValue(Json)) <==> name == "json")
    ensures (result == Ok(FormatValue(Robot)) <==> name == "robot")
    ensures (result == Ok(FormatValue(Plain)) <==> name == "plain")
    ensures (result == Ok(FormatValue(Csv)) <==> name == "csv")
    ensures (result == Ok(FormatValue(Markdown)) <==> name == "markdown")
  {
    FormatSpelledOut(name);
  }

  lemma FormatSpelledOut(s: string)
    ensures (ParseFormat(s) == Some(Json) <==> s == "json") && (ParseFormat(s) == Some(Robot) <==> s == "robot")
    ensures (ParseFormat(s) == Some(Plain) <==> s == "plain") && (ParseFormat(s) == Some(Csv) <==> s == "csv")
    ensures ParseFormat(s) == Some(Markdown) <==> s == "markdown"
  {
    assert "json"[0] == 'j' && "robot"[0] == 'r' && "plain"[0] == 'p' && "csv"[0] == 'c' && "markdown"[0] == 'm';
  }

  /** A cap is a numeral of digits, a plus sign in front or none, from 1 to 9223372036854775807. */
  lemma SoundCapSpelledOut(row: Row, cap: nat)
    requires !NonText(row.0) && !NonText(row.1) && row.0 == "search_cap"
    ensures DecodeRow(row) == Ok(CapValue(cap)) <==> WritesCap(Trim(row.1), cap)
  {
    RowParses(row, SearchCap, CapValue(cap));
    CapSpelledOut(Trim(row.1), cap);
    CapParses(Trim(row.1), cap);
  }

  lemma CapParses(trimmed: string, cap: nat)
    ensures ParseTrimmed(SearchCap, trimmed) == Ok(CapValue(cap)) <==> ParseSearchCap(trimmed) == Some(cap)
  {
  }

  predicate WritesCap(s: string, cap: nat) {
    && s != []
    && 1 <= cap <= 9223372036854775807
    && var digits := if s[0] == '+' then s[1..] else s;
       digits != [] && AllDigits(digits) && Value(digits) == cap
  }

  lemma CapSpelledOut(s: string, cap: nat)
    ensures ParseSearchCap(s) == Some(cap) <==> WritesCap(s, cap)
  {
    if s != [] && s[0] == '-' {
      assert !IsDigit(s[0]);
    }
  }
}
