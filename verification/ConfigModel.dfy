/** The schema-1 configuration: validation, decoding, legacy migration, and what a pair of files loads as. */
module ConfigModel {
  import opened Prelude
  import opened Samples

  const CONFIG_SCHEMA_VERSION: nat := 1

  datatype InputMode = Selected | FollowDefault
  datatype ChannelSelection = Auto | Mono | Left | Right | Index(index: nat)
  datatype LatencyProfile = Low | Balanced
  datatype FailMode = Closed | Open
  datatype LogLevel = Error | Warn | Info | Debug

  datatype InputConfig = InputConfig(mode: InputMode, stableId: string, channel: ChannelSelection, fallbackToDefault: bool)
  datatype OutputConfig = OutputConfig(latencyProfile: LatencyProfile)
  datatype SuppressionConfig = SuppressionConfig(enabled: bool, strength: Sample, failMode: FailMode)
  datatype DiagnosticsConfig = DiagnosticsConfig(logLevel: LogLevel, metering: bool)

  datatype Config = Config(
    schemaVersion: nat,
    active: bool,
    startWithNoiseReduction: bool,
    launchAtLogin: bool,
    input: InputConfig,
    output: OutputConfig,
    suppression: SuppressionConfig,
    diagnostics: DiagnosticsConfig)

  const DEFAULT_INPUT := InputConfig(FollowDefault, "", Auto, false)
  const DEFAULT_CONFIG :=
    Config(CONFIG_SCHEMA_VERSION, false, false, false, DEFAULT_INPUT, OutputConfig(Low),
           SuppressionConfig(true, Finite(0.55), Closed), DiagnosticsConfig(Info, true))

  datatype ValidationError = UnsupportedSchema | InputIdRequired | InputIdUnexpected | StrengthOutOfRange

  predicate UnitInterval(strength: Sample) {
    strength.Finite? && 0.0 <= strength.value <= 1.0
  }

  /** Validation reports the first failure. */
  function Validate(c: Config): Result<(), ValidationError> {
    if c.schemaVersion != CONFIG_SCHEMA_VERSION then Err(UnsupportedSchema)
    else if c.input.mode.Selected? && Blank(c.input.stableId) then Err(InputIdRequired)
    else if c.input.mode.FollowDefault? && c.input.stableId != "" then Err(InputIdUnexpected)
    else if !UnitInterval(c.suppression.strength) then Err(StrengthOutOfRange)
    else Ok(())
  }

  datatype LegacyConfigV0 = LegacyConfigV0(active: bool, inputNode: string, suppressionEnabled: bool, strength: Sample)

  /** What the TOML parser makes of a text: the version field if it is an integer, and either typed reading. */
  datatype Document =
    | Malformed
    | Document(version: Option<int>, legacy: Option<LegacyConfigV0>, current: Option<Config>)

  datatype Codec = Codec(parse: string -> Document, render: Config -> string)

  datatype ConfigError =
    | Validation(why: ValidationError)
    | Parse
    | NewerSchema(found: nat)
    | InvalidSchemaVersion
    | Io(operation: Operation)

  datatype Operation =
    | Read | CreateDirectory | OpenTemporary | WriteAll | FlushFile | SyncFile | Rename | RemoveTemporary | NamesExhausted
    | SyncDirectory

  function Migrate(legacy: LegacyConfigV0): Config {
    var mode := if Blank(legacy.inputNode) then FollowDefault else Selected;
    DEFAULT_CONFIG.(
      active := legacy.active,
      input := DEFAULT_INPUT.(mode := mode, stableId := legacy.inputNode),
      suppression := DEFAULT_CONFIG.suppression.(enabled := legacy.suppressionEnabled, strength := legacy.strength))
  }

  function Validated(c: Config): Result<Config, ConfigError> {
    match Validate(c)
    case Ok(_) => Ok(c)
    case Err(why) => Err(Validation(why))
  }

  function Decode(codec: Codec, text: string): Result<Config, ConfigError> {
    match codec.parse(text)
    case Malformed => Err(Parse)
    case Document(version, legacy, current) =>
      if version.None? || version.value < 0 then Err(InvalidSchemaVersion)
      else if version.value > CONFIG_SCHEMA_VERSION then Err(NewerSchema(version.value))
      else if version.value == 0 then if legacy.None? then Err(Parse) else Validated(Migrate(legacy.value))
      else if current.None? then Err(Parse) else Validated(current.value)
  }

  /** Rendering one of these configurations, if valid, and parsing the text gives it back. */
  ghost predicate RoundTrips(codec: Codec, configs: set<Config>) {
    forall c :: c in configs && Validate(c).Ok? ==>
      codec.parse(codec.render(c)).Document? && codec.parse(codec.render(c)).version == Some(CONFIG_SCHEMA_VERSION)
      && codec.parse(codec.render(c)).current == Some(c)
  }

  /** A decoded configuration is always valid, and canonical text decodes to what was rendered. */
  lemma DecodedIsValid(codec: Codec, text: string, c: Config)
    requires RoundTrips(codec, {c})
    ensures Decode(codec, text).Ok? ==> Validate(Decode(codec, text).value).Ok?
    ensures Validate(c).Ok? <==> Decode(codec, codec.render(c)) == Ok(c)
  {
  }

  lemma {:induction false} Enumerated(configs: set<Config>) returns (list: seq<Config>)
    ensures forall c :: c in configs ==> c in list
  {
    list := [];
    if configs != {} {
      var c :| c in configs;
      var rest := Enumerated(configs - {c});
      list := rest + [c];
    }
  }

  function Position(list: seq<Config>, c: Config): (k: nat)
    ensures c in list ==> k < |list| && list[k] == c
  {
    if list == [] then 0
    else if list[|list| - 1] == c then |list| - 1
    else Position(list[..|list| - 1], c)
  }

  /**
   * The assumption about codecs can always be met: for any configurations that ever come up there is one that gives all
   * of them back. This one numbers them, and knows a broken text and one of a newer schema besides.
   */
  lemma SomeCodecRoundTrips(configs: set<Config>) returns (codec: Codec, broken: string, newer: string)
    ensures RoundTrips(codec, configs)
    ensures Decode(codec, broken) == Err(Parse) && Decode(codec, newer) == Err(NewerSchema(CONFIG_SCHEMA_VERSION + 1))
  {
    var list := Enumerated(configs);
    codec := Codec(
      (text: string) =>
        if |text| < |list| then Document(Some(CONFIG_SCHEMA_VERSION), None, Some(list[|text|]))
        else if |text| == |list| then Document(Some(CONFIG_SCHEMA_VERSION + 1), None, None)
        else Malformed,
      (c: Config) => seq(Position(list, c), _ => '.'));
    newer := seq(|list|, _ => '.');
    broken := newer + ".";
  }

  /**
   * A version-0 file migrates exactly when its strength is in range and its input is not blank text: a white-space
   * input is read as "follow the default" yet kept as an identity, which validation refuses.
   */
  lemma LegacyMigratesIff(legacy: LegacyConfigV0)
    ensures Validate(Migrate(legacy)).Ok? <==>
      UnitInterval(legacy.strength) && (legacy.inputNode == "" || !Blank(legacy.inputNode))
    ensures
      var c := Migrate(legacy);
      && c.active == legacy.active && c.suppression.enabled == legacy.suppressionEnabled
      && c.suppression.strength == legacy.strength && c.input.stableId == legacy.inputNode
      && (Validate(c).Ok? ==> (c.input.mode.Selected? <==> legacy.inputNode != ""))
  {
  }

  /**
   * What becomes of a document on loading: a version-0 file is migrated and keeps the user's settings, a current one is
   * taken as it is, a newer one is left alone. Everything else is an error, and so is every invalid configuration.
   */
  lemma DecodesByVersion(codec: Codec, text: string, c: Config)
    requires codec.parse(text).Document?
    ensures
      var Document(version, legacy, current) := codec.parse(text);
      && (version.None? || version.value < 0 ==> Decode(codec, text) == Err(InvalidSchemaVersion))
      && (version.Some? && version.value > 1 ==> Decode(codec, text) == Err(NewerSchema(version.value)))
      && (version == Some(1) ==> (Decode(codec, text) == Ok(c) <==> current == Some(c) && Validate(c).Ok?))
      && ((version == Some(1) && current.None?) || (version == Some(0) && legacy.None?) ==> Decode(codec, text) == Err(Parse))
  {
  }

  /**
   * Loading a version-0 file: it decodes exactly if its strength is in range and its input is empty or not blank, and
   * then its settings are what the daemon starts from, with the choices that version 0 did not have at their defaults.
   */
  lemma LegacyFileLoadsIff(codec: Codec, text: string, legacy: LegacyConfigV0, backup: Content)
    requires codec.parse(text).Document? && codec.parse(text).version == Some(0) && codec.parse(text).legacy == Some(legacy)
    ensures
      Decode(codec, text).Ok? <==>
      && legacy.strength.Finite? && 0.0 <= legacy.strength.value <= 1.0
      && (legacy.inputNode == "" || exists i :: 0 <= i < |legacy.inputNode| && !IsWhitespace(legacy.inputNode[i]))
    ensures Decode(codec, text).Ok? ==>
      && Load(codec, Text(text), backup).Ok?
      && var LoadOutcome(c, source, writable) := Load(codec, Text(text), backup).value;
         && source == Primary && writable
         && c.active == legacy.active && !c.startWithNoiseReduction && !c.launchAtLogin
         && c.suppression == SuppressionConfig(legacy.suppressionEnabled, legacy.strength, Closed)
         && c.input == InputConfig(if legacy.inputNode == "" then FollowDefault else Selected, legacy.inputNode, Auto, false)
  {
    LegacyMigratesIff(legacy);
  }

  /** What every decoded configuration can be relied on for. */
  lemma ValidIff(c: Config)
    ensures
      Validate(c).Ok? <==>
      && c.schemaVersion == 1
      && c.suppression.strength.Finite? && 0.0 <= c.suppression.strength.value <= 1.0
      && match c.input.mode
         case Selected => exists i :: 0 <= i < |c.input.stableId| && !IsWhitespace(c.input.stableId[i])
         case FollowDefault => c.input.stableId == ""
  {
  }

  /** Without a file the daemon starts inactive, follows the default input, mixes at 55 %, and fails closed. */
  lemma FirstStartIsOff(codec: Codec, backup: Content)
    ensures
      var first := Load(codec, Absent, backup);
      && first.Ok? && first.value.source == Defaults && first.value.writable
      && Validate(first.value.config).Ok?
      && first.value.config == Config(
           1, false, false, false, InputConfig(FollowDefault, "", Auto, false), OutputConfig(Low),
           SuppressionConfig(true, Finite(0.55), Closed), DiagnosticsConfig(Info, true))
  {
  }

  /** A valid strength does not help a version-0 file whose input is one space. */
  lemma BlankLegacyInputIsRefused(legacy: LegacyConfigV0)
    requires legacy.inputNode == " "
    ensures Validate(Migrate(legacy)) == Err(InputIdUnexpected)
  {
    assert Blank(legacy.inputNode);
  }

  datatype Content = Absent | Unreadable | Text(text: string)

  datatype LoadSource = Defaults | Primary | Backup | SafeDefaults | NewerReadOnly

  datatype LoadOutcome = LoadOutcome(config: Config, source: LoadSource, writable: bool)

  function Load(codec: Codec, primary: Content, backup: Content): Result<LoadOutcome, ConfigError> {
    match primary
    case Absent => Ok(LoadOutcome(DEFAULT_CONFIG, Defaults, true))
    case Unreadable => Err(Io(Read))
    case Text(text) =>
      match Decode(codec, text)
      case Ok(c) => Ok(LoadOutcome(c, Primary, true))
      case Err(NewerSchema(_)) => Ok(LoadOutcome(DEFAULT_CONFIG, NewerReadOnly, false))
      case Err(_) =>
        if backup.Text? && Decode(codec, backup.text).Ok?
        then Ok(LoadOutcome(Decode(codec, backup.text).value, Backup, true))
        else Ok(LoadOutcome(DEFAULT_CONFIG, SafeDefaults, true))
  }

  /** Whatever the files hold, a readable primary loads as a valid configuration. */
  lemma LoadedIsValid(codec: Codec, primary: Content, backup: Content)
    ensures Load(codec, primary, backup).Err? <==> primary.Unreadable?
    ensures Load(codec, primary, backup).Ok? ==> Validate(Load(codec, primary, backup).value.config).Ok?
  {
  }
}
