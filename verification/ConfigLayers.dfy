/** Six configuration layers folded highest first, their validation, and the live reload. */
module ConfigLayers {
  import opened Wrappers
  import opened Text
  import opened ConfigValues

  datatype Source = FromCli | FromEnv | FromProject | FromUser | FromDb | FromOsUser | FromDefault

  /** What the command line, or the environment, may set. */
  datatype Overrides = Overrides(actor: Option<string>, outputFormat: Option<OutputFormat>, jsonlExport: Option<bool>)

  /** The shape of the project file and of the user file. */
  datatype FileConfig = FileConfig(
    actor: Option<string>, outputFormat: Option<OutputFormat>, jsonlExport: Option<bool>, searchCap: Option<nat>,
    dbFilename: Option<string>, jsonlFilename: Option<string>, idPrefix: Option<string>,
    writeLockTimeoutMs: Option<nat>, deletionsRetentionDays: Option<nat>, backend: Option<string>)

  const NO_FILE := FileConfig(None, None, None, None, None, None, None, None, None, None)

  /** The bottom layer's actor: the operating-system user, or the literal default. */
  datatype Bottom = Bottom(actor: string, source: Source)

  datatype Layer =
    | Cli(cli: Overrides)
    | Env(env: Overrides)
    | Project(project: FileConfig)
    | User(user: FileConfig)
    | Db(db: DbLayer)
    | Defaults(bottom: Bottom)

  const DEFAULT_ACTOR := "unblock"
  const DEFAULT_SEARCH_CAP: nat := 50
  const DB_FILENAME := "unblock.db"
  const JSONL_FILENAME := "issues.jsonl"
  const DEFAULT_ID_PREFIX := "ub"
  const DEFAULT_WRITE_LOCK_TIMEOUT_MS: nat := 30_000
  const MIN_WRITE_LOCK_TIMEOUT_MS: nat := 100
  const SUPPORTED_BACKEND := "libsql"

  /** A blank value is unset. */
  function TrimmedNonEmpty(value: Option<string>): Option<string> {
    match value
    case None => None
    case Some(s) => if Trim(s) == [] then None else Some(Trim(s))
  }

  function WithOsUser(osUser: Option<string>): Bottom {
    match TrimmedNonEmpty(osUser)
    case Some(actor) => Bottom(actor, FromOsUser)
    case None => Bottom(DEFAULT_ACTOR, FromDefault)
  }

  // ---- What each layer contributes ----

  function SourceOf(layer: Layer): Source {
    match layer
    case Cli(_) => FromCli
    case Env(_) => FromEnv
    case Project(_) => FromProject
    case User(_) => FromUser
    case Db(_) => FromDb
    case Defaults(bottom) => FromDefault
  }

  function ActorIn(layer: Layer): Option<string> {
    match layer
    case Cli(c) => TrimmedNonEmpty(c.actor)
    case Env(e) => TrimmedNonEmpty(e.actor)
    case Project(p) => TrimmedNonEmpty(p.actor)
    case User(u) => TrimmedNonEmpty(u.actor)
    case Db(d) => TrimmedNonEmpty(d.actor)
    case Defaults(bottom) => Some(bottom.actor)
  }

  function FormatIn(layer: Layer): Option<OutputFormat> {
    match layer
    case Cli(c) => c.outputFormat
    case Env(e) => e.outputFormat
    case Project(p) => p.outputFormat
    case User(u) => u.outputFormat
    case Db(d) => d.outputFormat
    case Defaults(_) => Some(Json)
  }

  /** Never read from the user file or the database. */
  function JsonlIn(layer: Layer): Option<bool> {
    match layer
    case Cli(c) => c.jsonlExport
    case Env(e) => e.jsonlExport
    case Project(p) => p.jsonlExport
    case User(_) => None
    case Db(_) => None
    case Defaults(_) => Some(false)
  }

  /** The search cap has no command-line flag and no variable. */
  function CapIn(layer: Layer): Option<nat> {
    match layer
    case Cli(_) => None
    case Env(_) => None
    case Project(p) => p.searchCap
    case User(u) => u.searchCap
    case Db(d) => d.searchCap
    case Defaults(_) => Some(DEFAULT_SEARCH_CAP)
  }

  /** A startup key comes from the project file or the defaults. */
  function StartupIn<T>(layer: Layer, field: FileConfig -> Option<T>, default: Option<T>): Option<T> {
    match layer
    case Project(p) => field(p)
    case Defaults(_) => default
    case _ => None
  }

  function DbFilenameIn(p: FileConfig): Option<string> {
    p.dbFilename
  }

  function JsonlFilenameIn(p: FileConfig): Option<string> {
    p.jsonlFilename
  }

  function IdPrefixIn(p: FileConfig): Option<string> {
    p.idPrefix
  }

  function LockTimeoutIn(p: FileConfig): Option<nat> {
    p.writeLockTimeoutMs
  }

  function RetentionIn(p: FileConfig): Option<nat> {
    p.deletionsRetentionDays
  }

  function BackendIn(p: FileConfig): Option<string> {
    p.backend
  }

  /** The view of one startup key on every layer. */
  function StartupView<T>(field: FileConfig -> Option<T>, default: Option<T>): Layer -> Option<T> {
    layer => StartupIn(layer, field, default)
  }

  // ---- The fold ----

  /** The first value set, scanning from the head, with the source of the layer that set it. */
  function Pick<T>(layers: seq<Layer>, f: Layer -> Option<T>): Option<(T, Source)> {
    if layers == [] then None
    else
      match f(layers[0])
      case Some(v) => Some((v, SourceOf(layers[0])))
      case None => Pick(layers[1..], f)
  }

  lemma {:induction false} PickIsFirst<T>(layers: seq<Layer>, f: Layer -> Option<T>, i: nat)
    requires i < |layers| && f(layers[i]).Some? && forall j | 0 <= j < i :: f(layers[j]).None?
    ensures Pick(layers, f) == Some((f(layers[i]).value, SourceOf(layers[i])))
  {
    if i > 0 {
      PickIsFirst(layers[1..], f, i - 1);
    }
  }

  /** The lower layers matter only when no higher one sets the key. */
  lemma {:induction false} PickSplit<T>(higher: seq<Layer>, lower: seq<Layer>, f: Layer -> Option<T>)
    ensures Pick(higher + lower, f) == if Pick(higher, f).Some? then Pick(higher, f) else Pick(lower, f)
  {
    if higher == [] {
      assert higher + lower == lower;
    } else {
      PickSplit(higher[1..], lower, f);
      assert (higher + lower)[1..] == higher[1..] + lower;
    }
  }

  lemma {:induction false} PickTotal<T>(layers: seq<Layer>, f: Layer -> Option<T>)
    requires layers != [] && f(layers[|layers| - 1]).Some?
    ensures Pick(layers, f).Some?
  {
    if f(layers[0]).None? {
      PickTotal(layers[1..], f);
    }
  }

  /** The runtime values with the layer that supplied each. */
  datatype Runtime = Runtime(
    actor: (string, Source), outputFormat: (OutputFormat, Source), jsonlExport: (bool, Source),
    searchCap: (nat, Source))

  datatype Startup = Startup(
    dbFilename: string, jsonlFilename: string, idPrefix: string, writeLockTimeoutMs: nat,
    deletionsRetentionDays: Option<nat>, backend: Option<string>)

  datatype Layers = Layers(
    cli: Overrides, env: Overrides, project: FileConfig, user: FileConfig, db: DbLayer, bottom: Bottom)

  function Higher(l: Layers): seq<Layer> {
    [Cli(l.cli), Env(l.env), Project(l.project), User(l.user)]
  }

  function Stack(l: Layers): seq<Layer> {
    Higher(l) + [Db(l.db), Defaults(l.bottom)]
  }

  /** The picked value; the defaults layer guarantees one. */
  function Picked<T>(l: Layers, f: Layer -> Option<T>): (T, Source)
    requires f(Defaults(l.bottom)).Some?
  {
    PickTotal(Stack(l), f);
    Pick(Stack(l), f).value
  }

  /** The bottom layer reports which of its two tiers supplied the actor. */
  function PickedActor(l: Layers): (string, Source) {
    var (actor, source) := Picked(l, ActorIn);
    (actor, if source == FromDefault then l.bottom.source else source)
  }

  function MergeRuntime(l: Layers): Runtime {
    Runtime.Runtime(PickedActor(l), Picked(l, FormatIn), Picked(l, JsonlIn), Picked(l, CapIn))
  }

  function PickStartup<T>(l: Layers, field: FileConfig -> Option<T>, default: Option<T>): Option<T> {
    match Pick(Stack(l), StartupView(field, default))
    case Some((v, _)) => Some(v)
    case None => None
  }

  function OrElse<T>(value: Option<T>, default: T): T {
    match value case Some(v) => v case None => default
  }

  /** `normalize` is the id-prefix normaliser; the lock timeout is raised to its floor. */
  function MergeStartup(l: Layers, normalize: string -> string): Startup {
    var timeout := OrElse(PickStartup(l, LockTimeoutIn, Some(DEFAULT_WRITE_LOCK_TIMEOUT_MS)),
                          DEFAULT_WRITE_LOCK_TIMEOUT_MS);
    Startup.Startup(
      OrElse(PickStartup(l, DbFilenameIn, Some(DB_FILENAME)), DB_FILENAME),
      OrElse(PickStartup(l, JsonlFilenameIn, Some(JSONL_FILENAME)), JSONL_FILENAME),
      normalize(OrElse(PickStartup(l, IdPrefixIn, Some(DEFAULT_ID_PREFIX)), DEFAULT_ID_PREFIX)),
      if timeout < MIN_WRITE_LOCK_TIMEOUT_MS then MIN_WRITE_LOCK_TIMEOUT_MS else timeout,
      PickStartup(l, RetentionIn, None),
      PickStartup(l, BackendIn, None))
  }

  // ---- Resolution ----

  datatype ConfigError =
    | InvalidActor(actor: string)
    | InvalidCap(cap: nat)
    | UnsupportedBackend(backend: string)
    | FileError

  /** The actor is checked before the cap. */
  function ValidateRuntime(r: Runtime): Option<ConfigError> {
    if !ValidActor(r.actor.0) then Some(InvalidActor(r.actor.0))
    else if !(1 <= r.searchCap.0 <= MAX_SEARCH_CAP) then Some(InvalidCap(r.searchCap.0))
    else None
  }

  datatype RuntimeConfig = RuntimeConfig(values: Runtime, dbFaults: seq<Fault>)

  function ResolveRuntime(l: Layers, rows: seq<Row>): Result<RuntimeConfig, ConfigError> {
    var decoded := DecodeAll(rows);
    var merged := MergeRuntime(l.(db := LayerOf(decoded)));
    match ValidateRuntime(merged)
    case Some(e) => Err(e)
    case None => Ok(RuntimeConfig(merged, FaultsOf(decoded)))
  }

  /** Startup sees neither the user file, nor the database, nor the operating-system user. */
  function ResolveStartup(l: Layers, normalize: string -> string): Result<Startup, ConfigError> {
    var merged := MergeStartup(l.(user := NO_FILE, db := NO_LAYER, bottom := WithOsUser(None)), normalize);
    if merged.backend.Some? && merged.backend.value != SUPPORTED_BACKEND then
      Err(UnsupportedBackend(merged.backend.value))
    else Ok(merged)
  }

  /** What a live session captured at open; both files are read anew. */
  datatype Reloader = Reloader(cli: Overrides, env: Overrides, osUser: Option<string>)

  function ReloadRuntime(r: Reloader, project: Result<FileConfig, ConfigError>, user: Result<FileConfig, ConfigError>,
                         rows: seq<Row>): Result<RuntimeConfig, ConfigError> {
    match project
    case Err(e) => Err(e)
    case Ok(p) =>
      match user
      case Err(e) => Err(e)
      case Ok(u) => ResolveRuntime(Layers(r.cli, r.env, p, u, NO_LAYER, WithOsUser(r.osUser)), rows)
  }

  // ---- The startup half ----

  lemma PickStartupIgnores<T>(l: Layers, l': Layers, field: FileConfig -> Option<T>, default: Option<T>)
    requires l.project == l'.project
    ensures PickStartup(l, field, default) == PickStartup(l', field, default)
  {
    ProjectOrDefault(l, StartupView(field, default));
    ProjectOrDefault(l', StartupView(field, default));
  }

  /** A key that only the project file and the defaults carry. */
  lemma ProjectOrDefault<T>(l: Layers, f: Layer -> Option<T>)
    requires f(Cli(l.cli)).None? && f(Env(l.env)).None? && f(User(l.user)).None? && f(Db(l.db)).None?
    ensures Pick(Stack(l), f) ==
            if f(Project(l.project)).Some? then Some((f(Project(l.project)).value, FromProject))
            else if f(Defaults(l.bottom)).Some? then
              Some((f(Defaults(l.bottom)).value, FromDefault))
            else None
  {
    ThirdOrLast(Stack(l), f);
  }

  lemma ThirdOrLast<T>(stack: seq<Layer>, f: Layer -> Option<T>)
    requires |stack| == 6
    requires f(stack[0]).None? && f(stack[1]).None? && f(stack[3]).None? && f(stack[4]).None?
    ensures Pick(stack, f) ==
            if f(stack[2]).Some? then Some((f(stack[2]).value, SourceOf(stack[2])))
            else if f(stack[5]).Some? then Some((f(stack[5]).value, SourceOf(stack[5])))
            else None
  {
    if f(stack[2]).Some? {
      PickIsFirst(stack, f, 2);
    } else if f(stack[5]).Some? {
      PickIsFirst(stack, f, 5);
    } else {
      PickNone(stack, f);
    }
  }

  lemma {:induction false} PickNone<T>(layers: seq<Layer>, f: Layer -> Option<T>)
    requires forall i | 0 <= i < |layers| :: f(layers[i]).None?
    ensures Pick(layers, f).None?
  {
    if layers != [] {
      PickNone(layers[1..], f);
    }
  }

  /** The startup half is the same for all user files, database rows and operating-system users. */
  lemma StartupIgnoresRuntimeLayers(l: Layers, user: FileConfig, db: DbLayer, bottom: Bottom,
                                    normalize: string -> string)
    ensures MergeStartup(l.(user := user, db := db, bottom := bottom), normalize) == MergeStartup(l, normalize)
  {
    var l' := l.(user := user, db := db, bottom := bottom);
    PickStartupIgnores(l, l', LockTimeoutIn, Some(DEFAULT_WRITE_LOCK_TIMEOUT_MS));
    PickStartupIgnores(l, l', DbFilenameIn, Some(DB_FILENAME));
    PickStartupIgnores(l, l', JsonlFilenameIn, Some(JSONL_FILENAME));
    PickStartupIgnores(l, l', IdPrefixIn, Some(DEFAULT_ID_PREFIX));
    PickStartupIgnores(l, l', RetentionIn, None);
    PickStartupIgnores(l, l', BackendIn, None);
  }

  /** The startup resolution at open is the startup half of the full merge, refused exactly for a foreign backend. */
  lemma StartupResolvesAlike(l: Layers, normalize: string -> string)
    ensures ResolveStartup(l, normalize).Ok? <==>
            PickStartup(l, BackendIn, None).None? || PickStartup(l, BackendIn, None) == Some(SUPPORTED_BACKEND)
    ensures ResolveStartup(l, normalize).Ok? ==>
              && ResolveStartup(l, normalize).value == MergeStartup(l, normalize)
              && ResolveStartup(l, normalize).value.writeLockTimeoutMs >= MIN_WRITE_LOCK_TIMEOUT_MS
  {
    StartupIgnoresRuntimeLayers(l, NO_FILE, NO_LAYER, WithOsUser(None), normalize);
  }

  // ---- The runtime half ----

  /** The layer sets the key. */
  predicate Sets(layer: Layer, key: RuntimeKey) {
    match key
    case Actor => ActorIn(layer).Some?
    case OutputFormatKey => FormatIn(layer).Some?
    case JsonlExport => JsonlIn(layer).Some?
    case SearchCap => CapIn(layer).Some?
  }

  /** A command-line, environment, project or user value hides the database and the defaults. */
  ghost predicate HigherSets(l: Layers, key: RuntimeKey) {
    exists layer | layer in Higher(l) :: Sets(layer, key)
  }

  lemma {:induction false} PickSome<T>(layers: seq<Layer>, f: Layer -> Option<T>)
    ensures Pick(layers, f).Some? <==> exists layer | layer in layers :: f(layer).Some?
  {
    if layers != [] {
      PickSome(layers[1..], f);
      assert layers == [layers[0]] + layers[1..];
    }
  }

  /** What the fold picks: a higher layer's value, else the database's, else the default. */
  lemma PickedFrom<T>(l: Layers, f: Layer -> Option<T>)
    requires f(Defaults(l.bottom)).Some?
    ensures Picked(l, f) ==
            if Pick(Higher(l), f).Some? then Pick(Higher(l), f).value
            else if f(Db(l.db)).Some? then (f(Db(l.db)).value, FromDb)
            else (f(Defaults(l.bottom)).value, FromDefault)
  {
    var lower := [Db(l.db), Defaults(l.bottom)];
    PickSplit(Higher(l), lower, f);
    PickTotal(Stack(l), f);
    if f(Db(l.db)).Some? {
      PickIsFirst(lower, f, 0);
    } else {
      PickIsFirst(lower, f, 1);
    }
  }

  /** The value and source that the resolution reports for a layer key. */
  function Reported(r: Runtime, key: RuntimeKey): (RuntimeValue, Source)
    requires IsLayerKey(key)
  {
    match key
    case Actor => (ActorValue(r.actor.0), r.actor.1)
    case OutputFormatKey => (FormatValue(r.outputFormat.0), r.outputFormat.1)
    case SearchCap => (CapValue(r.searchCap.0), r.searchCap.1)
  }

  /** A database layer's value of a key. */
  function FieldIn(db: DbLayer, key: RuntimeKey): Option<RuntimeValue> {
    match key
    case Actor => (match db.actor case Some(a) => Some(ActorValue(a)) case None => None)
    case OutputFormatKey => (match db.outputFormat case Some(f) => Some(FormatValue(f)) case None => None)
    case SearchCap => (match db.searchCap case Some(n) => Some(CapValue(n)) case None => None)
    case JsonlExport => None
  }

  function KeyOf(value: RuntimeValue): RuntimeKey {
    match value
    case ActorValue(_) => Actor
    case FormatValue(_) => OutputFormatKey
    case CapValue(_) => SearchCap
  }

  /** What any row decodes to: trimmed non-empty valid actors, caps in range. */
  predicate GoodValue(value: RuntimeValue) {
    match value
    case ActorValue(a) => a != [] && IsTrimmed(a) && ValidActor(a)
    case FormatValue(_) => true
    case CapValue(n) => 1 <= n <= MAX_SEARCH_CAP
  }

  lemma CapInRange(trimmed: string)
    ensures ParseSearchCap(trimmed).Some? ==> 1 <= ParseSearchCap(trimmed).value <= MAX_SEARCH_CAP
  {
  }

  lemma TrimmedIsGood(key: RuntimeKey, trimmed: string)
    requires IsTrimmed(trimmed) && ParseTrimmed(key, trimmed).Ok?
    ensures GoodValue(ParseTrimmed(key, trimmed).value) && KeyOf(ParseTrimmed(key, trimmed).value) == key
  {
    CapInRange(trimmed);
  }

  lemma ParsedIsGood(key: RuntimeKey, raw: string)
    requires ParseRuntimeValue(key, raw).Ok?
    ensures GoodValue(ParseRuntimeValue(key, raw).value) && KeyOf(ParseRuntimeValue(key, raw).value) == key
  {
    TrimIsTrimmed(raw);
    TrimmedIsGood(key, Trim(raw));
  }

  /** A sound row holds a good value of the very key it names. */
  ghost predicate OwnKey(row: DecodedRow) {
    row.result.Ok? ==> GoodValue(row.result.value) && row.row.0 == KeyName(KeyOf(row.result.value))
  }

  lemma DecodedRowsOwnKeys(row: Row)
    ensures OwnKey(DecodedRow(row, DecodeRow(row)))
  {
    if DecodeRow(row).Ok? {
      var key := Classify(row.0).value.runtime;
      ClassifyInvertsName(key, row.0);
      ParsedIsGood(key, row.1);
    }
  }

  /** Every value in the layer came from a row, so it is good. */
  lemma {:induction false} LayerIsGood(rows: seq<DecodedRow>, key: RuntimeKey)
    requires forall row | row in rows :: OwnKey(row)
    ensures FieldIn(LayerOf(rows), key).Some? ==>
              GoodValue(FieldIn(LayerOf(rows), key).value) && KeyOf(FieldIn(LayerOf(rows), key).value) == key
  {
    if rows != [] {
      assert OwnKey(rows[|rows| - 1]);
      LayerIsGood(rows[..|rows| - 1], key);
    }
  }

  lemma ActorOfLayer(db: DbLayer)
    requires db.actor.Some? ==> GoodValue(ActorValue(db.actor.value))
    ensures ActorIn(Db(db)) == db.actor
  {
    if db.actor.Some? {
      TrimKeepsTrimmed(db.actor.value);
    }
  }

  function WithRows(l: Layers, rows: seq<DecodedRow>): Layers {
    l.(db := LayerOf(rows))
  }

  lemma HigherActor(l: Layers)
    ensures HigherSets(l, Actor) <==> Pick(Higher(l), ActorIn).Some?
  {
    PickSome(Higher(l), ActorIn);
  }

  lemma ActorPicked(l: Layers, db: DbLayer)
    requires db.actor.Some? ==> GoodValue(ActorValue(db.actor.value))
    ensures Picked(l.(db := db), ActorIn) ==
            if Pick(Higher(l), ActorIn).None? && db.actor.Some? then (db.actor.value, FromDb)
            else Picked(l.(db := NO_LAYER), ActorIn)
  {
    ActorOfLayer(db);
    ActorOfLayer(NO_LAYER);
    HigherIgnoresDb(l, db, ActorIn);
  }

  lemma ActorReported(l: Layers, db: DbLayer)
    requires db.actor.Some? ==> GoodValue(ActorValue(db.actor.value))
    ensures PickedActor(l.(db := db)) ==
            if !HigherSets(l, Actor) && db.actor.Some? then (db.actor.value, FromDb)
            else PickedActor(l.(db := NO_LAYER))
  {
    HigherActor(l);
    ActorPicked(l, db);
  }

  /** Changing the database layer matters only below the higher layers. */
  lemma HigherIgnoresDb<T>(l: Layers, db: DbLayer, f: Layer -> Option<T>)
    requires f(Defaults(l.bottom)).Some? && f(Db(NO_LAYER)).None?
    ensures Picked(l.(db := db), f) ==
            if Pick(Higher(l), f).None? && f(Db(db)).Some? then (f(Db(db)).value, FromDb)
            else Picked(l.(db := NO_LAYER), f)
  {
    PickedFrom(l.(db := db), f);
    PickedFrom(l.(db := NO_LAYER), f);
  }

  lemma FormatReported(l: Layers, db: DbLayer)
    ensures Picked(l.(db := db), FormatIn) ==
            if !HigherSets(l, OutputFormatKey) && db.outputFormat.Some? then (db.outputFormat.value, FromDb)
            else Picked(l.(db := NO_LAYER), FormatIn)
  {
    PickSome(Higher(l), FormatIn);
    HigherIgnoresDb(l, db, FormatIn);
  }

  lemma CapReported(l: Layers, db: DbLayer)
    ensures Picked(l.(db := db), CapIn) ==
            if !HigherSets(l, SearchCap) && db.searchCap.Some? then (db.searchCap.value, FromDb)
            else Picked(l.(db := NO_LAYER), CapIn)
  {
    PickSome(Higher(l), CapIn);
    HigherIgnoresDb(l, db, CapIn);
  }

  /** What is reported for a key, given what the rows say of it. */
  lemma ReportedFrom(l: Layers, rows: seq<DecodedRow>, key: RuntimeKey)
    requires IsLayerKey(key) && forall row | row in rows :: OwnKey(row)
    ensures var field := FieldIn(LayerOf(rows), key);
            Reported(MergeRuntime(WithRows(l, rows)), key) ==
            if !HigherSets(l, key) && field.Some? then (field.value, FromDb)
            else Reported(MergeRuntime(WithRows(l, [])), key)
  {
    LayerIsGood(rows, key);
    match key
    case Actor => ActorReported(l, LayerOf(rows));
    case OutputFormatKey => FormatReported(l, LayerOf(rows));
    case SearchCap => CapReported(l, LayerOf(rows));
  }

  // ---- Rows never break a resolution ----

  lemma DecodeAllOwnKeys(rows: seq<Row>)
    ensures forall row | row in DecodeAll(rows) :: OwnKey(row)
  {
    forall row | row in DecodeAll(rows)
      ensures OwnKey(row)
    {
      var i :| 0 <= i < |rows| && DecodeAll(rows)[i] == row;
      DecodedRowsOwnKeys(rows[i]);
    }
  }

  lemma ValidWithRows(l: Layers, rows: seq<DecodedRow>)
    requires forall row | row in rows :: OwnKey(row)
    requires ValidateRuntime(MergeRuntime(WithRows(l, []))).None?
    ensures ValidateRuntime(MergeRuntime(WithRows(l, rows))).None?
  {
    ReportedFrom(l, rows, Actor);
    ReportedFrom(l, rows, SearchCap);
    LayerIsGood(rows, Actor);
    LayerIsGood(rows, SearchCap);
    var r, r0 := MergeRuntime(WithRows(l, rows)), MergeRuntime(WithRows(l, []));
    assert Reported(r, Actor).0 == ActorValue(r.actor.0) && Reported(r, SearchCap).0 == CapValue(r.searchCap.0);
    assert Reported(r0, Actor).0 == ActorValue(r0.actor.0) && Reported(r0, SearchCap).0 == CapValue(r0.searchCap.0);
  }

  /** If the runtime keys resolve without the database, they resolve whatever its rows are. */
  lemma RowsNeverBreakResolution(l: Layers, rows: seq<Row>)
    requires ResolveRuntime(l, []).Ok?
    ensures ResolveRuntime(l, rows).Ok?
  {
    DecodeAllOwnKeys(rows);
    assert DecodeAll([]) == [];
    ValidWithRows(l, DecodeAll(rows));
  }

  // ---- Storing a value ----

  function Without(rows: seq<Row>, name: string): seq<Row> {
    if rows == [] then []
    else Without(rows[..|rows| - 1], name) + (if rows[|rows| - 1].0 == name then [] else [rows[|rows| - 1]])
  }

  /** The value as the key's only row. */
  function StoreRow(rows: seq<Row>, key: RuntimeKey, value: string): seq<Row> {
    Without(rows, KeyName(key)) + [(KeyName(key), value)]
  }

  lemma DecodeAppended(rows: seq<Row>, row: Row)
    ensures DecodeAll(rows + [row]) == DecodeAll(rows) + [DecodedRow(row, DecodeRow(row))]
  {
  }

  lemma NamesDiffer(k: RuntimeKey, k': RuntimeKey)
    ensures KeyName(k) == KeyName(k') <==> k == k'
  {
    assert |KeyName(Actor)| == 5 && |KeyName(OutputFormatKey)| == 13;
    assert |KeyName(JsonlExport)| == 12 && |KeyName(SearchCap)| == 10;
  }

  lemma RowOfOtherKey(layer: DbLayer, row: DecodedRow, key: RuntimeKey)
    requires OwnKey(row) && row.row.0 != KeyName(key)
    ensures FieldIn(AddRow(layer, row), key) == FieldIn(layer, key)
  {
  }

  lemma RowOfThisKey(layer: DbLayer, row: DecodedRow, name: RuntimeKey, key: RuntimeKey)
    requires OwnKey(row) && row.row.0 == KeyName(name) && name != key
    ensures FieldIn(AddRow(layer, row), key) == FieldIn(layer, key)
  {
    NamesDiffer(name, key);
    RowOfOtherKey(layer, row, key);
  }

  /** `Without`, for decoded rows. */
  function DecodedWithout(rows: seq<DecodedRow>, name: string): seq<DecodedRow> {
    if rows == [] then []
    else
      DecodedWithout(rows[..|rows| - 1], name) +
      (if rows[|rows| - 1].row.0 == name then [] else [rows[|rows| - 1]])
  }

  lemma DecodedWithoutAppended(rows: seq<DecodedRow>, row: DecodedRow, name: string)
    ensures DecodedWithout(rows + [row], name) ==
            DecodedWithout(rows, name) + (if row.row.0 == name then [] else [row])
  {
    assert (rows + [row])[..|rows|] == rows;
  }

  lemma {:induction false} DecodeWithout(rows: seq<Row>, name: string)
    ensures DecodeAll(Without(rows, name)) == DecodedWithout(DecodeAll(rows), name)
  {
    if rows != [] {
      var before, last := rows[..|rows| - 1], rows[|rows| - 1];
      DecodeWithout(before, name);
      assert rows == before + [last];
      DecodeAppended(before, last);
      DecodedWithoutAppended(DecodeAll(before), DecodedRow(last, DecodeRow(last)), name);
      if last.0 != name {
        DecodeAppended(Without(before, name), last);
      } else {
        assert DecodedWithout(DecodeAll(before), name) + [] == DecodedWithout(DecodeAll(before), name);
      }
    }
  }

  lemma {:induction false} OtherFieldsKept(rows: seq<DecodedRow>, name: RuntimeKey, key: RuntimeKey)
    requires name != key && forall row | row in rows :: OwnKey(row)
    ensures FieldIn(LayerOf(DecodedWithout(rows, KeyName(name))), key) == FieldIn(LayerOf(rows), key)
  {
    if rows != [] {
      var before, last := rows[..|rows| - 1], rows[|rows| - 1];
      assert last in rows && forall row | row in before :: row in rows;
      OtherFieldsKept(before, name, key);
      var kept := DecodedWithout(before, KeyName(name));
      if last.row.0 == KeyName(name) {
        RowOfThisKey(LayerOf(before), last, name, key);
        assert kept + [] == kept;
      } else {
        RowAppended(kept, last);
        SameField(LayerOf(before), LayerOf(kept), last, key);
      }
    }
  }

  /** Removing the rows of one key leaves the other keys as they were. */
  lemma OtherKeysKept(rows: seq<Row>, name: RuntimeKey, key: RuntimeKey)
    requires name != key
    ensures FieldIn(LayerOf(DecodeAll(Without(rows, KeyName(name)))), key) == FieldIn(LayerOf(DecodeAll(rows)), key)
  {
    DecodeWithout(rows, KeyName(name));
    DecodeAllOwnKeys(rows);
    OtherFieldsKept(DecodeAll(rows), name, key);
  }

  lemma SameField(a: DbLayer, b: DbLayer, row: DecodedRow, key: RuntimeKey)
    requires FieldIn(a, key) == FieldIn(b, key)
    ensures FieldIn(AddRow(a, row), key) == FieldIn(AddRow(b, row), key)
  {
  }

  lemma StoredField(rows: seq<Row>, key: RuntimeKey, raw: string, k: RuntimeKey)
    requires ParseRuntimeValue(key, raw).Ok?
    ensures var v := ParseRuntimeValue(key, raw).value;
            FieldIn(LayerOf(DecodeAll(StoreRow(rows, key, Canonical(v)))), k) ==
            if k == key then Some(v) else FieldIn(LayerOf(DecodeAll(rows)), k)
  {
    var v := ParseRuntimeValue(key, raw).value;
    var rest, row := Without(rows, KeyName(key)), (KeyName(key), Canonical(v));
    StoredRowIsSound(key, raw);
    ParsedIsGood(key, raw);
    DecodeAppended(rest, row);
    RowAppended(DecodeAll(rest), DecodedRow(row, DecodeRow(row)));
    if k != key {
      OtherKeysKept(rows, key, k);
      RowOfThisKey(LayerOf(DecodeAll(rest)), DecodedRow(row, Ok(v)), key, k);
    }
  }

  /** No row reaches the JSONL toggle. */
  lemma JsonlIgnoresDb(l: Layers, db: DbLayer, db': DbLayer)
    ensures Picked(l.(db := db), JsonlIn) == Picked(l.(db := db'), JsonlIn)
  {
    PickedFrom(l.(db := db), JsonlIn);
    PickedFrom(l.(db := db'), JsonlIn);
  }

  // ---- The faults after a store ----

  /** The faults of the rows of other keys, in order. */
  function OtherFaults(faults: seq<Fault>, name: string): seq<Fault> {
    if faults == [] then []
    else
      OtherFaults(faults[..|faults| - 1], name) +
      (if faults[|faults| - 1].row.0 == name then [] else [faults[|faults| - 1]])
  }

  lemma OtherFaultsAppended(faults: seq<Fault>, more: seq<Fault>, name: string)
    requires |more| <= 1
    ensures OtherFaults(faults + more, name) ==
            OtherFaults(faults, name) + (if more == [] || more[0].row.0 == name then [] else more)
  {
    if more == [] {
      assert faults + more == faults;
    } else {
      assert (faults + more)[..|faults|] == faults;
      assert more == [more[0]];
    }
  }

  lemma {:induction false} FaultsWithout(rows: seq<DecodedRow>, name: string)
    ensures FaultsOf(DecodedWithout(rows, name)) == OtherFaults(FaultsOf(rows), name)
  {
    if rows != [] {
      var before, last := rows[..|rows| - 1], rows[|rows| - 1];
      assert before + [last] == rows;
      FaultsWithout(before, name);
      FaultsStep(before, last, name);
    }
  }

  lemma RowFaultsAreOwn(row: DecodedRow)
    ensures |RowFaults(row)| <= 1 && (RowFaults(row) != [] ==> RowFaults(row)[0].row == row.row)
  {
  }

  lemma FaultsStep(before: seq<DecodedRow>, last: DecodedRow, name: string)
    requires FaultsOf(DecodedWithout(before, name)) == OtherFaults(FaultsOf(before), name)
    ensures FaultsOf(DecodedWithout(before + [last], name)) == OtherFaults(FaultsOf(before + [last]), name)
  {
    var kept, more := DecodedWithout(before, name), RowFaults(last);
    RowFaultsAreOwn(last);
    FaultAppended(before, last);
    DecodedWithoutAppended(before, last, name);
    OtherFaultsAppended(FaultsOf(before), more, name);
    if last.row.0 == name {
      assert DecodedWithout(before + [last], name) == kept;
    } else {
      assert DecodedWithout(before + [last], name) == kept + [last];
      FaultAppended(kept, last);
    }
  }

  /** Storing a value removes the faults of its key's rows, and adds none. */
  lemma FaultsAfterStore(rows: seq<Row>, key: RuntimeKey, raw: string)
    requires ParseRuntimeValue(key, raw).Ok?
    ensures var v := ParseRuntimeValue(key, raw).value;
            FaultsOf(DecodeAll(StoreRow(rows, key, Canonical(v)))) ==
            OtherFaults(FaultsOf(DecodeAll(rows)), KeyName(key))
  {
    var v := ParseRuntimeValue(key, raw).value;
    var rest, row := Without(rows, KeyName(key)), (KeyName(key), Canonical(v));
    StoredRowIsSound(key, raw);
    DecodeWithout(rows, KeyName(key));
    FaultsWithout(DecodeAll(rows), KeyName(key));
    DecodeAppended(rest, row);
    FaultAppended(DecodeAll(rest), DecodedRow(row, DecodeRow(row)));
  }

  /**
   * After a value is stored as its key's only row, the key reports it from the database exactly
   * when no command-line, environment, project or user layer sets the key; otherwise it reports
   * what it did before, and so does every other key.
   */
  lemma StoredValueReported(l: Layers, rows: seq<Row>, key: RuntimeKey, raw: string, k: RuntimeKey)
    requires ParseRuntimeValue(key, raw).Ok? && IsLayerKey(k)
    ensures var v := ParseRuntimeValue(key, raw).value;
            var after := MergeRuntime(WithRows(l, DecodeAll(StoreRow(rows, key, Canonical(v)))));
            var before := MergeRuntime(WithRows(l, DecodeAll(rows)));
            && Reported(after, k) == (if k == key && !HigherSets(l, key) then (v, FromDb) else Reported(before, k))
            && after.jsonlExport == before.jsonlExport
  {
    var v := ParseRuntimeValue(key, raw).value;
    var rows' := StoreRow(rows, key, Canonical(v));
    JsonlIgnoresDb(l, LayerOf(DecodeAll(rows)), LayerOf(DecodeAll(rows')));
    DecodeAllOwnKeys(rows);
    DecodeAllOwnKeys(rows');
    StoredField(rows, key, raw, k);
    ReportedFrom(l, DecodeAll(rows), k);
    ReportedFrom(l, DecodeAll(rows'), k);
  }

  /** What validation asks of the reported value of a key. */
  predicate Acceptable(value: RuntimeValue) {
    match value
    case ActorValue(a) => ValidActor(a)
    case FormatValue(_) => true
    case CapValue(n) => 1 <= n <= MAX_SEARCH_CAP
  }

  lemma ValidExactly(r: Runtime)
    ensures ValidateRuntime(r).None? <==> forall k | IsLayerKey(k) :: Acceptable(Reported(r, k).0)
  {
    assert IsLayerKey(Actor) && IsLayerKey(SearchCap);
    assert Acceptable(Reported(r, Actor).0) <==> ValidActor(r.actor.0);
    assert Acceptable(Reported(r, SearchCap).0) <==> 1 <= r.searchCap.0 <= MAX_SEARCH_CAP;
  }

  /**
   * When the resolution with the stored row succeeds: every other key resolved acceptably before,
   * and so did this one unless the stored row now decides it.
   */
  lemma StoreSucceedsExactly(l: Layers, rows: seq<Row>, key: RuntimeKey, raw: string)
    requires ParseRuntimeValue(key, raw).Ok?
    ensures var rows' := StoreRow(rows, key, Canonical(ParseRuntimeValue(key, raw).value));
            var before := MergeRuntime(WithRows(l, DecodeAll(rows)));
            ResolveRuntime(l, rows').Ok? <==>
            forall k | IsLayerKey(k) :: (k == key && !HigherSets(l, key)) || Acceptable(Reported(before, k).0)
  {
    var v := ParseRuntimeValue(key, raw).value;
    var after := MergeRuntime(WithRows(l, DecodeAll(StoreRow(rows, key, Canonical(v)))));
    var before := MergeRuntime(WithRows(l, DecodeAll(rows)));
    ParsedIsGood(key, raw);
    ValidExactly(after);
    forall k | IsLayerKey(k)
      ensures Acceptable(Reported(after, k).0) <==>
              (k == key && !HigherSets(l, key)) || Acceptable(Reported(before, k).0)
    {
      StoredValueReported(l, rows, key, raw, k);
    }
  }

  /** A resolution that succeeds still succeeds once a value is stored. */
  lemma StoreKeepsResolution(l: Layers, rows: seq<Row>, key: RuntimeKey, raw: string)
    requires ParseRuntimeValue(key, raw).Ok?
    ensures ResolveRuntime(l, rows).Ok? ==>
              ResolveRuntime(l, StoreRow(rows, key, Canonical(ParseRuntimeValue(key, raw).value))).Ok?
  {
    ValidExactly(MergeRuntime(WithRows(l, DecodeAll(rows))));
    StoreSucceedsExactly(l, rows, key, raw);
  }

  /** A refused actor is repaired by a stored one exactly when no higher layer sets it and the cap is acceptable. */
  lemma StoredActorRepairs(l: Layers, rows: seq<Row>, raw: string)
    requires ParseRuntimeValue(Actor, raw).Ok?
    requires !Acceptable(Reported(MergeRuntime(WithRows(l, DecodeAll(rows))), Actor).0)
    ensures ResolveRuntime(l, StoreRow(rows, Actor, Canonical(ParseRuntimeValue(Actor, raw).value))).Ok? <==>
            !HigherSets(l, Actor) && Acceptable(Reported(MergeRuntime(WithRows(l, DecodeAll(rows))), SearchCap).0)
  {
    StoreSucceedsExactly(l, rows, Actor, raw);
  }

  /** As above, for a live session: its next reload succeeds and reports the stored value. */
  lemma ReloadAfterStore(r: Reloader, project: FileConfig, user: FileConfig, rows: seq<Row>,
                         key: RuntimeKey, raw: string)
    requires ParseRuntimeValue(key, raw).Ok?
    ensures var v := ParseRuntimeValue(key, raw).value;
            var l := Layers(r.cli, r.env, project, user, NO_LAYER, WithOsUser(r.osUser));
            var before := ReloadRuntime(r, Ok(project), Ok(user), rows);
            var after := ReloadRuntime(r, Ok(project), Ok(user), StoreRow(rows, key, Canonical(v)));
            before.Ok? ==>
              && after.Ok?
              && (Reported(after.value.values, key) ==
                  if HigherSets(l, key) then Reported(before.value.values, key) else (v, FromDb))
              && (forall k | IsLayerKey(k) && k != key ::
                    Reported(after.value.values, k) == Reported(before.value.values, k))
              && after.value.values.jsonlExport == before.value.values.jsonlExport
              && after.value.dbFaults == OtherFaults(before.value.dbFaults, KeyName(key))
  {
    var v := ParseRuntimeValue(key, raw).value;
    var l := Layers(r.cli, r.env, project, user, NO_LAYER, WithOsUser(r.osUser));
    StoreKeepsResolution(l, rows, key, raw);
    ParsedIsLayerKey(key, raw);
    FaultsAfterStore(rows, key, raw);
    JsonlIgnoresDb(l, LayerOf(DecodeAll(rows)), LayerOf(DecodeAll(StoreRow(rows, key, Canonical(v)))));
    forall k | IsLayerKey(k)
      ensures Reported(MergeRuntime(WithRows(l, DecodeAll(StoreRow(rows, key, Canonical(v))))), k) ==
              if k == key && !HigherSets(l, key) then (v, FromDb)
              else Reported(MergeRuntime(WithRows(l, DecodeAll(rows))), k)
    {
      StoredValueReported(l, rows, key, raw, k);
    }
  }

  lemma ParsedIsLayerKey(key: RuntimeKey, raw: string)
    requires ParseRuntimeValue(key, raw).Ok?
    ensures IsLayerKey(key)
  {
  }
}
