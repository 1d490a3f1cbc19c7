/**
 * The plugin configuration (config.go): a record whose recognised fields
 * set how the database is opened, the defaults used when there is no
 * configuration, and the rule that decides whether a missing database file
 * may be created.
 *
 * A Go map has no iteration order; the record is a sequence of fields here,
 * visited in sequence order.
 */
module Config {

  import opened Wrappers
  import opened Values

  /** `fs.FileMode`: an unsigned 32-bit integer. */
  newtype FileMode = x: int | 0 <= x < 0x1_0000_0000

  /** `fs.FileMode(m)`: the conversion keeps the low 32 bits of the two's complement. */
  function ToFileMode(m: int64): FileMode
  {
    (m as int % 0x1_0000_0000) as FileMode
  }

  /** The values of the four fields of `configuration` (config.go:17-22). */
  datatype Settings = Settings(timeout: int64, readOnly: bool, fileMode: FileMode, mustExist: bool)

  /** `3 * time.Second`, in nanoseconds. */
  const ThreeSeconds: int64 := 3_000_000_000

  /** The octal permission 0600. */
  const OwnerReadWrite: FileMode := 0x180

  /** The configuration `loadCfg` starts from (config.go:70-75). */
  const Defaults := Settings(ThreeSeconds, false, OwnerReadWrite, false)

  /** Why a configuration value is refused (config.go:27, 33, 37-41, 46-49, 54). */
  datatype ConfigError =
    | NotARecord(span: Span)
    | ExpectedBool(field: string, span: Span)
    | ExpectedDuration(span: Span)
    | ExpectedInteger(span: Span)

  /** The settings after a parse and the error that stopped it, if any. */
  datatype Parsed = Parsed(settings: Settings, error: Option<ConfigError>)

  /** The field names `parse` recognises. */
  const KnownKeys: set<string> := {"ReadOnly", "timeout", "fileMode", "mustExist"}

  /** A field that `parse` accepts: a recognised name carries a value of its type. */
  predicate WellTyped(e: Entry)
  {
    && (e.key == "ReadOnly" ==> e.value.Bool?)
    && (e.key == "timeout" ==> e.value.Duration?)
    && (e.key == "fileMode" ==> e.value.Int?)
    && (e.key == "mustExist" ==> e.value.Bool?)
  }

  /**
   * One step of the loop of config.go:29-57. A failed type assertion on a
   * boolean or a duration has already stored the zero value when the error
   * is returned; a failed one on the file mode leaves it as it was.
   */
  function ApplyEntry(s: Settings, e: Entry): Parsed
  {
    var x := e.value;
    if e.key == "ReadOnly" then
      if x.Bool? then Parsed(s.(readOnly := x.truth), None)
      else Parsed(s.(readOnly := false), Some(ExpectedBool("ReadOnly", x.span)))
    else if e.key == "timeout" then
      if x.Duration? then Parsed(s.(timeout := x.nanos), None)
      else Parsed(s.(timeout := 0), Some(ExpectedDuration(x.span)))
    else if e.key == "fileMode" then
      if x.Int? then Parsed(s.(fileMode := ToFileMode(x.number)), None)
      else Parsed(s, Some(ExpectedInteger(x.span)))
    else if e.key == "mustExist" then
      if x.Bool? then Parsed(s.(mustExist := x.truth), None)
      else Parsed(s.(mustExist := false), Some(ExpectedBool("mustExist", x.span)))
    else Parsed(s, None)
  }

  /** The loop of config.go:29-57 over `fields`, from settings `s`, stopping at the first error. */
  function ParseFields(s: Settings, fields: seq<Entry>): Parsed
    decreases fields
  {
    if fields == [] then Parsed(s, None)
    else
      var p := ApplyEntry(s, fields[0]);
      if p.error.Some? then p else ParseFields(p.settings, fields[1..])
  }

  /** What `cfg.parse(v)` (config.go:24-59) leaves in `cfg`, from settings `s`, and returns. */
  function ParseValue(s: Settings, v: Value): Parsed
  {
    if v.Record? then ParseFields(s, v.entries) else Parsed(s, Some(NotARecord(v.span)))
  }

  /** `configuration` (config.go:17-22). */
  class Configuration {
    var timeout: int64
    var readOnly: bool
    var fileMode: FileMode
    var mustExist: bool

    /** The values of the fields. */
    function State(): Settings
      reads this
    {
      Settings(timeout, readOnly, fileMode, mustExist)
    }

    /** The literal of config.go:70-75. */
    constructor ()
      ensures State() == Defaults
    {
      timeout := ThreeSeconds;
      readOnly := false;
      fileMode := OwnerReadWrite;
      mustExist := false;
    }

    /** `cfg.parse(v)` (config.go:24-59). */
    method Parse(v: Value) returns (err: Option<ConfigError>)
      modifies this
      ensures Parsed(State(), err) == ParseValue(old(State()), v)
    {
      if !v.Record? {
        return Some(NotARecord(v.span));
      }
      var fields := v.entries;
      for k := 0 to |fields|
        invariant ParseFields(old(State()), fields) == ParseFields(State(), fields[k..])
      {
        var key, x := fields[k].key, fields[k].value;
        assert fields[k..][1..] == fields[k + 1..];
        if key == "ReadOnly" {
          if !x.Bool? {
            readOnly := false;
            return Some(ExpectedBool("ReadOnly", x.span));
          }
          readOnly := x.truth;
        } else if key == "timeout" {
          if !x.Duration? {
            timeout := 0;
            return Some(ExpectedDuration(x.span));
          }
          timeout := x.nanos;
        } else if key == "fileMode" {
          if !x.Int? {
            return Some(ExpectedInteger(x.span));
          }
          fileMode := ToFileMode(x.number);
        } else if key == "mustExist" {
          if !x.Bool? {
            mustExist := false;
            return Some(ExpectedBool("mustExist", x.span));
          }
          mustExist := x.truth;
        }
      }
      return None;
    }
  }

  /** The value of the last field called `key`, the one whose assignment stands after the loop. */
  function Lookup(fields: seq<Entry>, key: string): Option<Value>
  {
    if fields == [] then None
    else
      match Lookup(fields[1..], key)
      case Some(x) => Some(x)
      case None => if fields[0].key == key then Some(fields[0].value) else None
  }

  /** The recognised fields of `fields`, in order: all of them and nothing else. */
  function KnownFields(fields: seq<Entry>): (r: seq<Entry>)
    ensures forall i :: 0 <= i < |r| ==> r[i].key in KnownKeys
    ensures forall e :: e in r <==> e in fields && e.key in KnownKeys
    ensures |r| <= |fields|
  {
    if fields == [] then []
    else if fields[0].key in KnownKeys then [fields[0]] + KnownFields(fields[1..])
    else KnownFields(fields[1..])
  }

  /** A well-typed field sets the setting of its name, if it has one, and nothing else. */
  lemma ApplyWellTyped(s: Settings, e: Entry)
    requires WellTyped(e)
    ensures var p := ApplyEntry(s, e);
      && p.error.None?
      && p.settings.readOnly == (if e.key == "ReadOnly" then e.value.truth else s.readOnly)
      && p.settings.timeout == (if e.key == "timeout" then e.value.nanos else s.timeout)
      && p.settings.fileMode == (if e.key == "fileMode" then ToFileMode(e.value.number) else s.fileMode)
      && p.settings.mustExist == (if e.key == "mustExist" then e.value.truth else s.mustExist)
  {
  }

  /** In a record of well-typed fields, the last field of a recognised name has that name's type. */
  lemma {:induction false} LookupWellTyped(fields: seq<Entry>, key: string)
    requires forall i :: 0 <= i < |fields| ==> WellTyped(fields[i])
    ensures Lookup(fields, key).Some? ==> WellTyped(Entry(key, Lookup(fields, key).value))
  {
    if fields != [] {
      assert WellTyped(fields[0]);
      forall i | 0 <= i < |fields| - 1 ensures WellTyped(fields[1..][i]) {
        assert fields[1..][i] == fields[i + 1];
      }
      LookupWellTyped(fields[1..], key);
    }
  }

  /** A record is accepted exactly when each of its recognised fields has the right type (config.go:31-55). */
  lemma {:induction false} ParseSucceeds(s: Settings, fields: seq<Entry>)
    ensures ParseFields(s, fields).error.None? <==> forall i :: 0 <= i < |fields| ==> WellTyped(fields[i])
    decreases fields
  {
    if fields != [] {
      ParseSucceeds(ApplyEntry(s, fields[0]).settings, fields[1..]);
      assert forall i :: 1 <= i < |fields| ==> fields[i] == fields[1..][i - 1];
    }
  }

  /**
   * After an accepted record each field holds the value of the last
   * recognised field of its name, converted to its type; a field the record
   * does not mention keeps its value (config.go:31-55).
   */
  lemma {:induction false} ParsedFields(s: Settings, fields: seq<Entry>)
    requires forall i :: 0 <= i < |fields| ==> WellTyped(fields[i])
    ensures var r := ParseFields(s, fields).settings;
      && r.readOnly == (match Lookup(fields, "ReadOnly") case Some(Bool(b, _)) => b case _ => s.readOnly)
      && r.timeout == (match Lookup(fields, "timeout") case Some(Duration(d, _)) => d case _ => s.timeout)
      && r.fileMode == (match Lookup(fields, "fileMode") case Some(Int(m, _)) => ToFileMode(m) case _ => s.fileMode)
      && r.mustExist == (match Lookup(fields, "mustExist") case Some(Bool(b, _)) => b case _ => s.mustExist)
    decreases fields
  {
    if fields != [] {
      assert WellTyped(fields[0]);
      assert forall i :: 0 <= i < |fields[1..]| ==> WellTyped(fields[1..][i]) by {
        forall i | 0 <= i < |fields[1..]| ensures WellTyped(fields[1..][i]) {
          assert fields[1..][i] == fields[i + 1];
        }
      }
      var p := ApplyEntry(s, fields[0]);
      ApplyWellTyped(s, fields[0]);
      assert ParseFields(s, fields) == ParseFields(p.settings, fields[1..]);
      ParsedFields(p.settings, fields[1..]);
      LookupWellTyped(fields[1..], "ReadOnly");
      LookupWellTyped(fields[1..], "timeout");
      LookupWellTyped(fields[1..], "fileMode");
      LookupWellTyped(fields[1..], "mustExist");
    }
  }

  /** Unrecognised fields are ignored: dropping them changes neither the settings nor the error (config.go:30-56). */
  lemma {:induction false} UnknownFieldsIgnored(s: Settings, fields: seq<Entry>)
    ensures ParseFields(s, fields) == ParseFields(s, KnownFields(fields))
    decreases fields
  {
    if fields != [] {
      UnknownFieldsIgnored(ApplyEntry(s, fields[0]).settings, fields[1..]);
      if fields[0].key in KnownKeys {
        assert ([fields[0]] + KnownFields(fields[1..]))[1..] == KnownFields(fields[1..]);
      } else {
        UnknownFieldsIgnored(s, fields[1..]);
      }
    }
  }

  /**
   * The first badly typed field stops the parse with its error. The fields
   * before it have been stored; a boolean or duration field in error has
   * been set to its zero value, a file mode in error is left as it was
   * (config.go:32-33, 36-41, 45-49, 53-54).
   */
  lemma {:induction false} ParseStopsAtBadField(s: Settings, fields: seq<Entry>, k: nat)
    requires k < |fields| && !WellTyped(fields[k])
    requires forall i :: 0 <= i < k ==> WellTyped(fields[i])
    ensures var before := ParseFields(s, fields[..k]).settings;
      var x := fields[k].value;
      ParseFields(s, fields) ==
        if fields[k].key == "ReadOnly" then Parsed(before.(readOnly := false), Some(ExpectedBool("ReadOnly", x.span)))
        else if fields[k].key == "timeout" then Parsed(before.(timeout := 0), Some(ExpectedDuration(x.span)))
        else if fields[k].key == "fileMode" then Parsed(before, Some(ExpectedInteger(x.span)))
        else Parsed(before.(mustExist := false), Some(ExpectedBool("mustExist", x.span)))
    decreases k
  {
    if k > 0 {
      assert WellTyped(fields[0]);
      assert fields[1..][k - 1] == fields[k];
      assert fields[..k][1..] == fields[1..][..k - 1];
      forall i | 0 <= i < k - 1 ensures WellTyped(fields[1..][i]) {
        assert fields[1..][i] == fields[i + 1];
      }
      ParseStopsAtBadField(ApplyEntry(s, fields[0]).settings, fields[1..], k - 1);
    }
  }

  /**
   * The file mode keeps the low 32 bits of the integer: a mode that fits is
   * stored as given, a negative one wraps around (config.go:51).
   */
  lemma FileModeOf(m: int64)
    ensures 0 <= m < 0x1_0000_0000 ==> ToFileMode(m) as int == m as int
    ensures -0x1_0000_0000 <= m < 0 ==> ToFileMode(m) as int == m as int + 0x1_0000_0000
    ensures ToFileMode(m) as int % 0x1_0000_0000 == m as int % 0x1_0000_0000
  {
  }

  // ---------------------------------------------------------------------------
  // loadCfg and openDB
  // ---------------------------------------------------------------------------

  /** What `call.GetPluginConfig(ctx)` gave: an error, no configuration, or a value. */
  datatype PluginConfig = ReadFailed | NoConfig | Supplied(value: Value)

  /** Why `loadCfg` fails (config.go:79, 86). */
  datatype LoadError = ReadingConfig | ParsingConfig(cause: ConfigError)

  /** The configuration `loadCfg` returns and its error, if any. */
  datatype Loaded = Loaded(settings: Settings, error: Option<LoadError>)

  /** What `loadCfg(ctx, call)` (config.go:69-89) returns. */
  function Load(config: PluginConfig): Loaded
  {
    match config
    case ReadFailed => Loaded(Defaults, Some(ReadingConfig))
    case NoConfig => Loaded(Defaults, None)
    case Supplied(v) =>
      var p := ParseValue(Defaults, v);
      Loaded(p.settings, if p.error.Some? then Some(ParsingConfig(p.error.value)) else None)
  }

  /** `loadCfg(ctx, call)` (config.go:69-89). */
  method LoadCfg(config: PluginConfig) returns (cfg: Configuration, err: Option<LoadError>)
    ensures fresh(cfg)
    ensures Loaded(cfg.State(), err) == Load(config)
  {
    cfg := new Configuration();
    if config.ReadFailed? {
      return cfg, Some(ReadingConfig);
    }
    if config.NoConfig? {
      return cfg, None;
    }
    var e := cfg.Parse(config.value);
    if e.Some? {
      return cfg, Some(ParsingConfig(e.value));
    }
    return cfg, None;
  }

  /**
   * `loadCfg` succeeds exactly when there is no configuration or the
   * configuration is a record whose recognised fields are well typed; each
   * setting is then the last such field, or its default (config.go:70-88).
   */
  lemma LoadOutcome(config: PluginConfig)
    ensures Load(config).error.None? <==>
      config.NoConfig? || (config.Supplied? && config.value.Record? &&
        forall i :: 0 <= i < |config.value.entries| ==> WellTyped(config.value.entries[i]))
    ensures config.NoConfig? ==> Load(config).settings == Defaults
    ensures Load(config).error.None? && config.Supplied? ==>
      var fields := config.value.entries;
      var r := Load(config).settings;
      && r.readOnly == (match Lookup(fields, "ReadOnly") case Some(Bool(b, _)) => b case _ => false)
      && r.timeout == (match Lookup(fields, "timeout") case Some(Duration(d, _)) => d case _ => ThreeSeconds)
      && r.fileMode == (match Lookup(fields, "fileMode") case Some(Int(m, _)) => ToFileMode(m) case _ => OwnerReadWrite)
      && r.mustExist == (match Lookup(fields, "mustExist") case Some(Bool(b, _)) => b case _ => false)
  {
    if config.Supplied? && config.value.Record? {
      ParseSucceeds(Defaults, config.value.entries);
      if Load(config).error.None? {
        ParsedFields(Defaults, config.value.entries);
      }
    }
  }

  /** What `os.Stat(dbName)` reported about the database file. */
  datatype FileStatus = Exists | NotExist | StatFailed

  /** Why `openDB` refuses to open the database (config.go:93-94, 101-107, 110). */
  datatype OpenError = LoadFailed(cause: LoadError) | DatabaseMissing | InvalidDatabaseName

  /** What `bbolt.Open` is given: the file mode and the options (config.go:114). */
  datatype OpenOptions = OpenOptions(fileMode: FileMode, timeout: int64, readOnly: bool)

  /** The actions that may create a missing database (config.go:100). */
  const CreatingActions: set<string> := {"add", "set"}

  /** What `openDB(ctx, call, action)` (config.go:91-113) decides before `bbolt.Open`. */
  function OpenDB(config: PluginConfig, action: string, status: FileStatus): (r: Result<OpenOptions, OpenError>)
    ensures var l := Load(config);
      r.Ok? <==> l.error.None? && (status == Exists || (status == NotExist && !l.settings.mustExist && action in CreatingActions))
    ensures var l := Load(config);
      r.Ok? ==> r.value == OpenOptions(l.settings.fileMode, l.settings.timeout, l.settings.readOnly)
    ensures Load(config).error.None? && status == StatFailed ==> r == Err(InvalidDatabaseName)
  {
    var l := Load(config);
    if l.error.Some? then Err(LoadFailed(l.error.value))
    else if status == StatFailed then Err(InvalidDatabaseName)
    else if status == NotExist && (l.settings.mustExist || action !in CreatingActions) then Err(DatabaseMissing)
    else Ok(OpenOptions(l.settings.fileMode, l.settings.timeout, l.settings.readOnly))
  }

  /**
   * A missing database file is refused unless `mustExist` is false and the
   * action is `add` or `set`; an existing one is always opened with the
   * configured mode, timeout and read-only flag (config.go:98-114).
   */
  lemma MissingDatabaseRule(config: PluginConfig, action: string)
    requires Load(config).error.None?
    ensures OpenDB(config, action, NotExist).Ok? <==> !Load(config).settings.mustExist && action in {"add", "set"}
    ensures OpenDB(config, action, NotExist).Err? ==> OpenDB(config, action, NotExist) == Err(DatabaseMissing)
    ensures var s := Load(config).settings;
      OpenDB(config, action, Exists) == Ok(OpenOptions(s.fileMode, s.timeout, s.readOnly))
  {
  }

  /** Without a configuration a missing database may be created by `add` and `set` only. */
  lemma DefaultMayCreate(action: string)
    ensures OpenDB(NoConfig, action, NotExist).Ok? <==> action == "add" || action == "set"
  {
  }

  /** A configuration error is reported before the database file is looked at (config.go:92-95). */
  lemma ConfigCheckedFirst(config: PluginConfig, action: string, status: FileStatus)
    requires Load(config).error.Some?
    ensures OpenDB(config, action, status) == Err(LoadFailed(Load(config).error.value))
  {
  }
}
