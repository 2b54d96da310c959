/** Runtime configuration values: parsing, canonical printing, and the tolerant decode of database rows. */
module ConfigValues {
  import opened Wrappers
  import opened Text
  import opened Decimal

  datatype OutputFormat = Json | Robot | Plain | Csv | Markdown

  datatype RuntimeKey = Actor | OutputFormatKey | JsonlExport | SearchCap

  datatype StartupKey = DbFilename | JsonlFilename | Backend | DeletionsRetentionDays | IdPrefix | WriteLockTimeoutMs

  datatype KeyClass = Startup(startup: StartupKey) | Runtime(runtime: RuntimeKey)

  function KeyName(key: RuntimeKey): string {
    match key
    case Actor => "actor"
    case OutputFormatKey => "output_format"
    case JsonlExport => "jsonl_export"
    case SearchCap => "search_cap"
  }

  /** The keys a user file or a database row may hold. */
  predicate IsLayerKey(key: RuntimeKey) {
    key != JsonlExport
  }

  function Classify(key: string): Option<KeyClass> {
    if key == "db_filename" then Some(Startup(DbFilename))
    else if key == "jsonl_filename" || key == "jsonl_export_filename" then Some(Startup(JsonlFilename))
    else if key == "backend" then Some(Startup(Backend))
    else if key == "deletions_retention_days" then Some(Startup(DeletionsRetentionDays))
    else if key == "id_prefix" then Some(Startup(IdPrefix))
    else if key == "write_lock_timeout_ms" then Some(Startup(WriteLockTimeoutMs))
    else if key == "actor" then Some(Runtime(Actor))
    else if key == "output_format" then Some(Runtime(OutputFormatKey))
    else if key == "jsonl_export" then Some(Runtime(JsonlExport))
    else if key == "search_cap" then Some(Runtime(SearchCap))
    else None
  }

  /** The runtime keys are classified by their own names, and by no other name. */
  lemma ClassifyInvertsName(key: RuntimeKey, name: string)
    ensures Classify(name) == Some(Runtime(key)) <==> name == KeyName(key)
  {
    assert |"db_filename"| == 11 && |"jsonl_filename"| == 14 && |"jsonl_export_filename"| == 21 && |"backend"| == 7;
    assert |"deletions_retention_days"| == 24 && |"id_prefix"| == 9 && |"write_lock_timeout_ms"| == 21;
    assert |"actor"| == 5 && |"output_format"| == 13 && |"jsonl_export"| == 12 && |"search_cap"| == 10;
  }

  // ---- Values ----

  const ACTOR_MAX_CHARS: nat := 200
  const I64_MAX: nat := 0x7FFF_FFFF_FFFF_FFFF
  const MAX_SEARCH_CAP: nat := I64_MAX

  predicate IsControl(c: char) {
    c <= '\U{1F}' || '\U{7F}' <= c <= '\U{9F}'
  }

  predicate ValidActor(actor: string) {
    |actor| <= ACTOR_MAX_CHARS && forall i | 0 <= i < |actor| :: !IsControl(actor[i])
  }

  /** A decoded value of a layer key. */
  datatype RuntimeValue = ActorValue(actor: string) | FormatValue(format: OutputFormat) | CapValue(cap: nat)

  function FormatName(format: OutputFormat): string {
    match format
    case Json => "json"
    case Robot => "robot"
    case Plain => "plain"
    case Csv => "csv"
    case Markdown => "markdown"
  }

  function ParseFormat(s: string): Option<OutputFormat> {
    if s == "json" then Some(Json)
    else if s == "robot" then Some(Robot)
    else if s == "plain" then Some(Plain)
    else if s == "csv" then Some(Csv)
    else if s == "markdown" then Some(Markdown)
    else None
  }

  /** The string a row stores. */
  function Canonical(value: RuntimeValue): string {
    match value
    case ActorValue(actor) => actor
    case FormatValue(format) => FormatName(format)
    case CapValue(cap) => Numeral(cap)
  }

  /** A decimal 64-bit integer: an optional sign, then digits. */
  function ParseI64(s: string): Option<int> {
    if s == [] then None
    else
      var digits := if s[0] == '+' || s[0] == '-' then s[1..] else s;
      if digits == [] || !AllDigits(digits) then None
      else
        var n := if s[0] == '-' then -(Value(digits) as int) else Value(digits);
        if -(I64_MAX as int) - 1 <= n <= I64_MAX then Some(n) else None
  }

  function ParseSearchCap(trimmed: string): Option<nat> {
    match ParseI64(trimmed)
    case Some(n) => if n < 1 then None else Some(n)
    case None => None
  }

  /** Why a value is refused. */
  datatype Refusal = NotALayerKey | Blank | BadActor | BadFormat | BadCap

  /** Parses a value whose surrounding white space is gone. */
  function ParseTrimmed(key: RuntimeKey, trimmed: string): Result<RuntimeValue, Refusal> {
    if key == JsonlExport then Err(NotALayerKey)
    else if trimmed == [] then Err(Blank)
    else
      match key
      case Actor => if ValidActor(trimmed) then Ok(ActorValue(trimmed)) else Err(BadActor)
      case OutputFormatKey =>
        (match ParseFormat(trimmed) case Some(f) => Ok(FormatValue(f)) case None => Err(BadFormat))
      case SearchCap =>
        (match ParseSearchCap(trimmed) case Some(n) => Ok(CapValue(n)) case None => Err(BadCap))
      case JsonlExport => Err(NotALayerKey)
  }

  function ParseRuntimeValue(key: RuntimeKey, raw: string): Result<RuntimeValue, Refusal> {
    ParseTrimmed(key, Trim(raw))
  }

  function Canonicalize(key: RuntimeKey, raw: string): Result<string, Refusal> {
    match ParseRuntimeValue(key, raw)
    case Ok(v) => Ok(Canonical(v))
    case Err(e) => Err(e)
  }

  predicate IsTrimmed(s: string) {
    s == [] || (!IsWhitespace(s[0]) && !IsWhitespace(s[|s| - 1]))
  }

  lemma TrimIsTrimmed(s: string)
    ensures IsTrimmed(Trim(s))
  {
  }

  lemma TrimKeepsTrimmed(s: string)
    requires IsTrimmed(s)
    ensures Trim(s) == s
  {
  }

  lemma CapRoundTrip(cap: nat)
    requires 1 <= cap <= I64_MAX
    ensures ParseSearchCap(Numeral(cap)) == Some(cap)
    ensures IsTrimmed(Numeral(cap))
  {
    var s := Numeral(cap);
    NumeralValue(cap);
    assert IsDigit(s[0]) && IsDigit(s[|s| - 1]);
  }

  lemma FormatRoundTrip(format: OutputFormat)
    ensures ParseFormat(FormatName(format)) == Some(format)
    ensures FormatName(format) != [] && IsTrimmed(FormatName(format))
  {
    assert "json"[0] == 'j' && "robot"[0] == 'r' && "plain"[0] == 'p' && "csv"[0] == 'c' && "markdown"[0] == 'm';
    assert "json"[3] == 'n' && "robot"[4] == 't' && "plain"[4] == 'n' && "csv"[2] == 'v' && "markdown"[7] == 'n';
  }

  /** The canonical string of a parsed value is trimmed and parses back to the value. */
  lemma CanonicalParses(key: RuntimeKey, trimmed: string)
    requires IsTrimmed(trimmed) && ParseTrimmed(key, trimmed).Ok?
    ensures var v := ParseTrimmed(key, trimmed).value;
            IsTrimmed(Canonical(v)) && Canonical(v) != [] && ParseTrimmed(key, Canonical(v)) == Ok(v)
  {
    match ParseTrimmed(key, trimmed).value
    case ActorValue(_) =>
    case FormatValue(f) => FormatRoundTrip(f);
    case CapValue(cap) => CapRoundTrip(cap);
  }

  /** Decoding the stored string gives back the parsed value. */
  lemma StoredDecodes(key: RuntimeKey, raw: string)
    requires ParseRuntimeValue(key, raw).Ok?
    ensures var v := ParseRuntimeValue(key, raw).value;
            ParseRuntimeValue(key, Canonical(v)) == Ok(v)
  {
    TrimIsTrimmed(raw);
    CanonicalParses(key, Trim(raw));
    TrimKeepsTrimmed(Canonical(ParseRuntimeValue(key, raw).value));
  }

  /** Canonicalising twice is canonicalising once. */
  lemma CanonicalizeIdempotent(key: RuntimeKey, raw: string)
    requires Canonicalize(key, raw).Ok?
    ensures Canonicalize(key, Canonicalize(key, raw).value) == Canonicalize(key, raw)
  {
    StoredDecodes(key, raw);
  }

  /** Two raw strings are stored alike exactly when they mean the same value. */
  lemma CanonicalIsInjective(key: RuntimeKey, raw: string, raw': string)
    ensures ParseRuntimeValue(key, raw).Ok? && ParseRuntimeValue(key, raw').Ok? ==>
              (Canonicalize(key, raw) == Canonicalize(key, raw') <==>
               ParseRuntimeValue(key, raw) == ParseRuntimeValue(key, raw'))
  {
    if ParseRuntimeValue(key, raw).Ok? && ParseRuntimeValue(key, raw').Ok? {
      StoredDecodes(key, raw);
      StoredDecodes(key, raw');
    }
  }

  // ---- Database rows ----

  const NON_TEXT_CELL_MARKER: char := '\U{1}'

  predicate IsLowerAscii(c: char) {
    'a' <= c <= 'z'
  }

  predicate IsUpperHex(c: char) {
    IsDigit(c) || 'A' <= c <= 'F'
  }

  /** A marked cell: the marker, a lower-case storage class, a colon, upper-case hex digits. */
  predicate NonText(cell: string) {
    && cell != [] && cell[0] == NON_TEXT_CELL_MARKER
    && exists k | 1 < k < |cell| ::
         && cell[k] == ':'
         && (forall i | 1 <= i < k :: IsLowerAscii(cell[i]))
         && (forall i | k < i < |cell| :: IsUpperHex(cell[i]))
  }

  datatype FaultKind = StartupKeyFault | InvalidValueFault | UnknownKeyFault

  type Row = (string, string)

  /** A faulty row as read, and what is wrong with it. */
  datatype Fault = Fault(row: Row, kind: FaultKind)

  function DecodeRow(row: Row): Result<RuntimeValue, FaultKind> {
    if NonText(row.0) || NonText(row.1) then Err(InvalidValueFault)
    else
      match Classify(row.0)
      case Some(Runtime(key)) =>
        if key == JsonlExport then Err(InvalidValueFault)
        else
          (match ParseRuntimeValue(key, row.1) case Ok(v) => Ok(v) case Err(_) => Err(InvalidValueFault))
      case Some(Startup(_)) => Err(StartupKeyFault)
      case None => Err(UnknownKeyFault)
  }

  /** The values the sound rows contribute. */
  datatype DbLayer = DbLayer(actor: Option<string>, outputFormat: Option<OutputFormat>, searchCap: Option<nat>)

  const NO_LAYER := DbLayer(None, None, None)

  function Contribute(layer: DbLayer, value: RuntimeValue): DbLayer {
    match value
    case ActorValue(a) => layer.(actor := Some(a))
    case FormatValue(f) => layer.(outputFormat := Some(f))
    case CapValue(n) => layer.(searchCap := Some(n))
  }

  /** A row with what it decodes to. */
  datatype DecodedRow = DecodedRow(row: Row, result: Result<RuntimeValue, FaultKind>)

  function DecodeAll(rows: seq<Row>): (decoded: seq<DecodedRow>)
    ensures |decoded| == |rows|
    ensures forall i | 0 <= i < |rows| :: decoded[i] == DecodedRow(rows[i], DecodeRow(rows[i]))
  {
    seq(|rows|, i requires 0 <= i < |rows| => DecodedRow(rows[i], DecodeRow(rows[i])))
  }

  function AddRow(layer: DbLayer, row: DecodedRow): DbLayer {
    match row.result
    case Ok(v) => Contribute(layer, v)
    case Err(_) => layer
  }

  function RowFaults(row: DecodedRow): seq<Fault> {
    match row.result
    case Ok(_) => []
    case Err(kind) => [Fault(row.row, kind)]
  }

  /** Row after row, a later sound row of a key replacing an earlier one. */
  function LayerOf(rows: seq<DecodedRow>): DbLayer {
    if rows == [] then NO_LAYER else AddRow(LayerOf(rows[..|rows| - 1]), rows[|rows| - 1])
  }

  function FaultsOf(rows: seq<DecodedRow>): seq<Fault> {
    if rows == [] then [] else FaultsOf(rows[..|rows| - 1]) + RowFaults(rows[|rows| - 1])
  }

  function Sound(rows: seq<DecodedRow>): seq<DecodedRow> {
    if rows == [] then []
    else Sound(rows[..|rows| - 1]) + (if rows[|rows| - 1].result.Ok? then [rows[|rows| - 1]] else [])
  }

  method DbLayerOf(rows: seq<Row>) returns (layer: DbLayer, faults: seq<Fault>)
    ensures layer == LayerOf(DecodeAll(rows)) && faults == FaultsOf(DecodeAll(rows))
  {
    layer, faults := NO_LAYER, [];
    ghost var decoded := DecodeAll(rows);
    for i := 0 to |rows|
      invariant layer == LayerOf(decoded[..i]) && faults == FaultsOf(decoded[..i])
    {
      assert decoded[..i + 1] == decoded[..i] + [decoded[i]];
      RowAppended(decoded[..i], decoded[i]);
      var result := DecodeRow(rows[i]);
      assert decoded[i].result == result;
      match result {
        case Ok(v) =>
          match v {
            case ActorValue(a) => layer := layer.(actor := Some(a));
            case FormatValue(f) => layer := layer.(outputFormat := Some(f));
            case CapValue(n) => layer := layer.(searchCap := Some(n));
          }
        case Err(kind) => faults := faults + [Fault(rows[i], kind)];
      }
    }
    assert decoded[..|rows|] == decoded;
  }

  lemma RowAppended(rows: seq<DecodedRow>, row: DecodedRow)
    ensures LayerOf(rows + [row]) == AddRow(LayerOf(rows), row)
    ensures FaultsOf(rows + [row]) == FaultsOf(rows) + RowFaults(row)
    ensures Sound(rows + [row]) == Sound(rows) + (if row.result.Ok? then [row] else [])
  {
    assert (rows + [row])[..|rows|] == rows;
  }

  /** Every row is one contribution or one fault. */
  lemma {:induction false} RowsPartition(rows: seq<DecodedRow>)
    ensures |Sound(rows)| + |FaultsOf(rows)| == |rows|
    ensures forall row | row in Sound(rows) :: row in rows && row.result.Ok?
    ensures forall f | f in FaultsOf(rows) :: DecodedRow(f.row, Err(f.kind)) in rows
  {
    if rows != [] {
      RowsPartition(rows[..|rows| - 1]);
    }
  }

  lemma FaultAppended(rows: seq<DecodedRow>, row: DecodedRow)
    ensures FaultsOf(rows + [row]) == FaultsOf(rows) + RowFaults(row)
  {
    assert (rows + [row])[..|rows|] == rows;
  }

  lemma {:induction false} FaultsConcat(a: seq<DecodedRow>, b: seq<DecodedRow>)
    ensures FaultsOf(a + b) == FaultsOf(a) + FaultsOf(b)
  {
    if b == [] {
      assert a + b == a;
    } else {
      var before, last := b[..|b| - 1], b[|b| - 1];
      FaultsConcat(a, before);
      FaultAppended(a + before, last);
      FaultAppended(before, last);
      assert b == before + [last] && a + b == a + before + [last];
      FaultsAssociate(FaultsOf(a), FaultsOf(before), RowFaults(last));
    }
  }

  lemma FaultsAssociate(a: seq<Fault>, b: seq<Fault>, c: seq<Fault>)
    ensures a + b + c == a + (b + c)
  {
  }

  /** Faults come out in row order: a faulty row's fault follows exactly the faults of the rows before it. */
  lemma FaultsInRowOrder(rows: seq<DecodedRow>, i: nat)
    requires i < |rows| && rows[i].result.Err?
    ensures |FaultsOf(rows[..i])| < |FaultsOf(rows)|
    ensures FaultsOf(rows)[|FaultsOf(rows[..i])|] == Fault(rows[i].row, rows[i].result.error)
  {
    assert rows == rows[..i] + [rows[i]] + rows[i + 1..];
    FaultsConcat(rows[..i] + [rows[i]], rows[i + 1..]);
    RowAppended(rows[..i], rows[i]);
  }

  /** Deleting the faulty rows changes nothing the layer says, and leaves no fault. */
  lemma {:induction false} FaultsNeverContribute(rows: seq<DecodedRow>)
    ensures LayerOf(Sound(rows)) == LayerOf(rows)
    ensures FaultsOf(Sound(rows)) == []
  {
    if rows != [] {
      var before, last := rows[..|rows| - 1], rows[|rows| - 1];
      FaultsNeverContribute(before);
      if last.result.Ok? {
        RowAppended(Sound(before), last);
      } else {
        assert Sound(rows) == Sound(before);
      }
    }
  }

  function ParseRowValue(key: RuntimeKey, raw: string): Result<RuntimeValue, FaultKind> {
    match ParseRuntimeValue(key, raw)
    case Ok(v) => Ok(v)
    case Err(_) => Err(InvalidValueFault)
  }

  lemma NameIsText(key: RuntimeKey)
    ensures !NonText(KeyName(key))
  {
    assert KeyName(key)[0] in ['a', 'o', 'j', 's'];
  }

  /** A row of a layer key decodes by the parser of its key. */
  lemma LayerRowDecodes(key: RuntimeKey, value: string)
    requires IsLayerKey(key) && !NonText(value)
    ensures DecodeRow((KeyName(key), value)) == ParseRowValue(key, value)
  {
    NameIsText(key);
    ClassifyInvertsName(key, KeyName(key));
  }

  /** A canonical value, stored under its key, is a sound row. */
  lemma StoredRowIsSound(key: RuntimeKey, raw: string)
    requires ParseRuntimeValue(key, raw).Ok?
    ensures var v := ParseRuntimeValue(key, raw).value;
            DecodeRow((KeyName(key), Canonical(v))) == Ok(v)
  {
    var v := ParseRuntimeValue(key, raw).value;
    CanonicalIsText(key, raw);
    StoredDecodes(key, raw);
    LayerRowDecodes(key, Canonical(v));
  }

  lemma CanonicalIsText(key: RuntimeKey, raw: string)
    requires ParseRuntimeValue(key, raw).Ok?
    ensures Canonical(ParseRuntimeValue(key, raw).value) != []
    ensures Canonical(ParseRuntimeValue(key, raw).value)[0] != NON_TEXT_CELL_MARKER
  {
    TrimIsTrimmed(raw);
    CanonicalParses(key, Trim(raw));
    CanonicalStart(key, Trim(raw));
  }

  lemma FormatStart(format: OutputFormat)
    ensures FormatName(format) != [] && FormatName(format)[0] != NON_TEXT_CELL_MARKER
  {
    assert FormatName(format)[0] in ['j', 'r', 'p', 'c', 'm'];
  }

  lemma CanonicalStart(key: RuntimeKey, trimmed: string)
    requires ParseTrimmed(key, trimmed).Ok?
    ensures var text := Canonical(ParseTrimmed(key, trimmed).value);
            text != [] && text[0] != NON_TEXT_CELL_MARKER
  {
    match ParseTrimmed(key, trimmed).value
    case ActorValue(a) => assert !IsControl(a[0]);
    case FormatValue(f) => FormatStart(f);
    case CapValue(cap) => assert IsDigit(Numeral(cap)[0]);
  }
}
