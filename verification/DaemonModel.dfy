/** The control plane as a value: one step per client call or observation, with the audio engine's answers as inputs. */
module DaemonModel {
  import opened Prelude
  import opened Samples
  import opened ConfigModel
  import opened ConfigStores

  datatype LifecycleState = Stopped | Running | Degraded

  datatype EngineObservation =
    EngineObservation(state: LifecycleState, inputDisplayName: string, version: string, fault: Option<string>)

  const NO_OBSERVATION := EngineObservation(Stopped, "", "", None)

  /** The engine accepts a configuration completely, or rejects it and keeps what it had. */
  datatype Reply = Accepted(observation: EngineObservation) | Rejected(code: string)

  /**
   * The world's answers to one call: the engine to the candidate and to the rollback, the store with what becomes of its
   * file operations, systemd.
   */
  datatype Replies = Replies(
    apply: Reply,
    rollback: Reply,
    checked: bool,
    read: bool,
    fates: seq<Fate>,
    saved: SaveResult,
    unitSet: bool,
    unitRestored: bool)

  datatype ControlError =
    | Conflict(expected: nat, current: nat)
    | Invalid(why: ValidationError)
    | Audio(code: string)
    | Persistence(cause: ConfigError)
    | PersistenceRollback(cause: ConfigError, rollback: string)
    | ReadOnly
    | LaunchManager
    | Killed

  datatype Edit =
    | SetActive(active: bool)
    | SelectInput(stableId: string)
    | SetSuppressionEnabled(enabled: bool)
    | SetStrength(strength: Sample)
    | SetLatencyProfile(profile: LatencyProfile)
    | SetFailMode(mode: FailMode)

  function Edited(edit: Edit, c: Config): Config {
    match edit
    case SetActive(active) => c.(active := active)
    case SelectInput(id) =>
      if id == "" then c.(input := c.input.(mode := FollowDefault, stableId := ""))
      else c.(input := c.input.(mode := Selected, stableId := id))
    case SetSuppressionEnabled(enabled) => c.(suppression := c.suppression.(enabled := enabled))
    case SetStrength(strength) => c.(suppression := c.suppression.(strength := strength))
    case SetLatencyProfile(profile) => c.(output := c.output.(latencyProfile := profile))
    case SetFailMode(mode) => c.(suppression := c.suppression.(failMode := mode))
  }

  datatype Request =
    | Start
    | Stop
    | Change(edit: Edit)
    | SetStartPreference(enabled: bool)
    | SetLaunchAtLogin(enabled: bool)
    | Retry

  /** What a request means for the configuration, whatever the daemon does to get there. */
  function Effect(request: Request, c: Config): Config {
    match request
    case Start => c.(active := true)
    case Stop => c.(active := false)
    case Change(edit) => Edited(edit, c)
    case SetStartPreference(enabled) => c.(startWithNoiseReduction := enabled)
    case SetLaunchAtLogin(enabled) => c.(launchAtLogin := enabled)
    case Retry => c
  }

  /**
   * `engine` is the last configuration the engine accepted, `unit` whether systemd starts the daemon at login, and
   * `alive` turns false when the process is killed in the middle of a save.
   */
  datatype Service = Service(
    config: Config,
    writable: bool,
    revision: nat,
    observation: EngineObservation,
    engine: Option<Config>,
    unit: bool,
    alive: bool)
  {
    function Bumped(): Service {
      this.(revision := SaturatingAdd(revision, 1))
    }

    function Committed(candidate: Config): Service {
      this.(config := candidate).Bumped()
    }
  }

  datatype Ended = Ended(service: Service, result: Result<(), ControlError>)

  function Failure(s: Service, error: ControlError): Ended {
    Ended(s, Err(error))
  }

  /** What a daemon makes of a loaded configuration: processing resumes only if the user opted in. */
  function Resumed(c: Config): Config {
    c.(active := c.startWithNoiseReduction)
  }

  function Boot(loaded: LoadOutcome, apply: Reply, unit: bool): Service {
    var config := Resumed(loaded.config);
    match apply
    case Accepted(observation) => Service(config, loaded.writable, 1, observation, Some(config), unit, true)
    case Rejected(_) => Service(config, loaded.writable, 1, NO_OBSERVATION.(state := Degraded), None, unit, true)
  }

  /** Apply to the engine, save, and roll the engine back if the save is refused. */
  function MutateStep(s: Service, expected: nat, candidate: Config, r: Replies): Ended {
    if expected != s.revision then Failure(s, Conflict(expected, s.revision))
    else if !s.writable then Failure(s, ReadOnly)
    else if Validate(candidate).Err? then Failure(s, Invalid(Validate(candidate).error))
    else
      match r.apply
      case Rejected(code) => Failure(s, Audio(code))
      case Accepted(observation) =>
        match r.saved
        case Saved => Ended(s.(engine := Some(candidate), observation := observation).Committed(candidate), Ok(()))
        case Crashed => Failure(s.(engine := Some(candidate), alive := false), Killed)
        case Refused(cause) =>
          match r.rollback
          case Accepted(restored) => Failure(s.(engine := Some(s.config), observation := restored), Persistence(cause))
          case Rejected(code) =>
            Failure(s.(engine := Some(candidate), observation := s.observation.(state := Degraded, fault := Some(code))).Bumped(),
                    PersistenceRollback(cause, code))
  }

  function ToggleStep(s: Service, expected: nat, active: bool, r: Replies): Ended {
    if expected != s.revision then Failure(s, Conflict(expected, s.revision))
    else if s.config.active == active then Ended(s, Ok(()))
    else MutateStep(s, expected, Edited(SetActive(active), s.config), r)
  }

  /** A preference the engine does not care about: only the store is asked. */
  function PreferenceStep(s: Service, expected: nat, enabled: bool, r: Replies): Ended {
    if expected != s.revision then Failure(s, Conflict(expected, s.revision))
    else if !s.writable then Failure(s, ReadOnly)
    else if s.config.startWithNoiseReduction == enabled then Ended(s, Ok(()))
    else
      match r.saved
      case Saved => Ended(s.Committed(Effect(SetStartPreference(enabled), s.config)), Ok(()))
      case Refused(cause) => Failure(s, Persistence(cause))
      case Crashed => Failure(s.(alive := false), Killed)
  }

  /** systemd first, then the store, then systemd back if the store refuses. */
  function LaunchStep(s: Service, expected: nat, enabled: bool, r: Replies): Ended {
    if expected != s.revision then Failure(s, Conflict(expected, s.revision))
    else if !s.writable then Failure(s, ReadOnly)
    else if s.config.launchAtLogin == enabled then Ended(s, Ok(()))
    else if !r.unitSet then Failure(s, LaunchManager)
    else
      match r.saved
      case Saved => Ended(s.(unit := enabled).Committed(Effect(SetLaunchAtLogin(enabled), s.config)), Ok(()))
      case Refused(cause) => Failure(s.(unit := if r.unitRestored then !enabled else enabled), Persistence(cause))
      case Crashed => Failure(s.(unit := enabled, alive := false), Killed)
  }

  function RetryStep(s: Service, expected: nat, r: Replies): Ended {
    if expected != s.revision then Failure(s, Conflict(expected, s.revision))
    else
      match r.apply
      case Accepted(observation) => Ended(s.(engine := Some(s.config), observation := observation).Bumped(), Ok(()))
      case Rejected(code) => Failure(s.(observation := s.observation.(state := Degraded)), Audio(code))
  }

  function CallStep(s: Service, request: Request, expected: nat, r: Replies): Ended {
    if !s.alive then Failure(s, Killed)
    else
      match request
      case Start => ToggleStep(s, expected, true, r)
      case Stop => ToggleStep(s, expected, false, r)
      case Change(edit) => MutateStep(s, expected, Edited(edit, s.config), r)
      case SetStartPreference(enabled) => PreferenceStep(s, expected, enabled, r)
      case SetLaunchAtLogin(enabled) => LaunchStep(s, expected, enabled, r)
      case Retry => RetryStep(s, expected, r)
  }

  /** A poll of the engine bumps the revision exactly when the public state changed. */
  function RefreshStep(s: Service, reply: Reply): Service {
    if !s.alive then s
    else
      var next := match reply
        case Accepted(observation) => s.(observation := observation)
        case Rejected(_) => s.(observation := s.observation.(state := Degraded));
      if next.observation == s.observation then s else next.Bumped()
  }

  /** The configuration a call hands to the store, if it gets that far. */
  function Saving(s: Service, request: Request, expected: nat, r: Replies): Option<Config> {
    if !s.alive || expected != s.revision || !s.writable then None
    else
      var candidate := Effect(request, s.config);
      match request
      case Retry => None
      case Start => if s.config.active || r.apply.Rejected? then None else Some(candidate)
      case Stop => if !s.config.active || r.apply.Rejected? then None else Some(candidate)
      case Change(_) => if Validate(candidate).Err? || r.apply.Rejected? then None else Some(candidate)
      case SetStartPreference(enabled) => if s.config.startWithNoiseReduction == enabled then None else Some(candidate)
      case SetLaunchAtLogin(enabled) => if s.config.launchAtLogin == enabled || !r.unitSet then None else Some(candidate)
  }

  datatype Event = Call(request: Request, expected: nat, replies: Replies) | Observe(reply: Reply)

  function EventStep(s: Service, e: Event): Ended {
    match e
    case Call(request, expected, r) => CallStep(s, request, expected, r)
    case Observe(reply) => Ended(RefreshStep(s, reply), Ok(()))
  }

  function Run(s: Service, events: seq<Event>): Service {
    if events == [] then s else EventStep(Run(s, events[..|events| - 1]), events[|events| - 1]).service
  }

  /** The event at `i` is a call that succeeded. */
  predicate Succeeded(s: Service, events: seq<Event>, i: nat)
    requires i < |events|
  {
    events[i].Call? && EventStep(Run(s, events[..i]), events[i]).result.Ok?
  }

  /** The successful requests, executed one after the other on the configuration alone. */
  function Serial(s: Service, events: seq<Event>): Config {
    if events == [] then s.config
    else
      var n := |events| - 1;
      if Succeeded(s, events, n) then Effect(events[n].request, Serial(s, events[..n])) else Serial(s, events[..n])
  }

  /** The revision and the constants of one step, which ends with `effect` if it succeeds and with nothing otherwise. */
  predicate Lawful(s: Service, effect: Config, ended: Ended) {
    var next := ended.service;
    && next.config == (if ended.result.Ok? then effect else s.config)
    && next.writable == s.writable && (next.alive ==> s.alive)
    && (next.revision == s.revision || next.revision == SaturatingAdd(s.revision, 1))
    && (next.config != s.config ==> s.writable && next.revision == SaturatingAdd(s.revision, 1))
  }

  lemma MutateIsLawful(s: Service, expected: nat, candidate: Config, r: Replies)
    ensures Lawful(s, candidate, MutateStep(s, expected, candidate, r))
    ensures MutateStep(s, expected, candidate, r).result.Ok? ==> expected == s.revision && Validate(candidate).Ok?
  {
  }

  lemma PreferenceIsLawful(s: Service, expected: nat, enabled: bool, r: Replies)
    ensures Lawful(s, Effect(SetStartPreference(enabled), s.config), PreferenceStep(s, expected, enabled, r))
  {
  }

  lemma LaunchIsLawful(s: Service, expected: nat, enabled: bool, r: Replies)
    ensures Lawful(s, Effect(SetLaunchAtLogin(enabled), s.config), LaunchStep(s, expected, enabled, r))
  {
  }

  lemma RetryIsLawful(s: Service, expected: nat, r: Replies)
    ensures Lawful(s, s.config, RetryStep(s, expected, r))
  {
  }

  /**
   * A success was applied to exactly the configuration of its expected revision, and moved the revision if it changed
   * anything; a refusal left the configuration alone.
   */
  lemma OutcomeOfCall(s: Service, request: Request, expected: nat, r: Replies)
    ensures Lawful(s, Effect(request, s.config), CallStep(s, request, expected, r))
    ensures CallStep(s, request, expected, r).result.Ok? ==> s.alive && expected == s.revision
    ensures Validate(s.config).Ok? ==> Validate(CallStep(s, request, expected, r).service.config).Ok?
    ensures s.alive && expected != s.revision ==> CallStep(s, request, expected, r) == Failure(s, Conflict(expected, s.revision))
  {
    match request {
      case Start => MutateIsLawful(s, expected, Edited(SetActive(true), s.config), r);
      case Stop => MutateIsLawful(s, expected, Edited(SetActive(false), s.config), r);
      case Change(edit) => MutateIsLawful(s, expected, Edited(edit, s.config), r);
      case SetStartPreference(enabled) => PreferenceIsLawful(s, expected, enabled, r);
      case SetLaunchAtLogin(enabled) => LaunchIsLawful(s, expected, enabled, r);
      case Retry => RetryIsLawful(s, expected, r);
    }
  }

  lemma StepFacts(s: Service, e: Event)
    ensures Lawful(s, if e.Call? then Effect(e.request, s.config) else s.config, EventStep(s, e))
    ensures Validate(s.config).Ok? ==> Validate(EventStep(s, e).service.config).Ok?
  {
    match e {
      case Call(request, expected, r) => OutcomeOfCall(s, request, expected, r);
      case Observe(_) =>
    }
  }

  /** Any interleaving of clients is the serial execution of the calls that succeeded, in order. */
  lemma {:induction false} RunIsSerial(s: Service, events: seq<Event>)
    ensures Run(s, events).config == Serial(s, events)
  {
    hide EventStep;
    if events != [] {
      var n := |events| - 1;
      RunIsSerial(s, events[..n]);
      StepFacts(Run(s, events[..n]), events[n]);
    }
  }

  /** The settings that requests are about. */
  datatype Setting = Activity | Input | Enablement | Wet | Latency | FailPolicy | StartPreference | LaunchAtLogin

  function SettingOf(request: Request): Option<Setting> {
    match request
    case Start => Some(Activity)
    case Stop => Some(Activity)
    case Change(SetActive(_)) => Some(Activity)
    case Change(SelectInput(_)) => Some(Input)
    case Change(SetSuppressionEnabled(_)) => Some(Enablement)
    case Change(SetStrength(_)) => Some(Wet)
    case Change(SetLatencyProfile(_)) => Some(Latency)
    case Change(SetFailMode(_)) => Some(FailPolicy)
    case SetStartPreference(_) => Some(StartPreference)
    case SetLaunchAtLogin(_) => Some(LaunchAtLogin)
    case Retry => None
  }

  /** The configuration is as the request wants it. */
  predicate Carries(c: Config, request: Request) {
    match request
    case Start => c.active
    case Stop => !c.active
    case Change(SetActive(active)) => c.active == active
    case Change(SelectInput(id)) => c.input.stableId == id && (c.input.mode.FollowDefault? <==> id == "")
    case Change(SetSuppressionEnabled(enabled)) => c.suppression.enabled == enabled
    case Change(SetStrength(strength)) => c.suppression.strength == strength
    case Change(SetLatencyProfile(profile)) => c.output.latencyProfile == profile
    case Change(SetFailMode(mode)) => c.suppression.failMode == mode
    case SetStartPreference(enabled) => c.startWithNoiseReduction == enabled
    case SetLaunchAtLogin(enabled) => c.launchAtLogin == enabled
    case Retry => true
  }

  predicate SameSetting(setting: Setting, a: Config, b: Config) {
    match setting
    case Activity => a.active == b.active
    case Input => a.input.mode == b.input.mode && a.input.stableId == b.input.stableId
    case Enablement => a.suppression.enabled == b.suppression.enabled
    case Wet => a.suppression.strength == b.suppression.strength
    case Latency => a.output.latencyProfile == b.output.latencyProfile
    case FailPolicy => a.suppression.failMode == b.suppression.failMode
    case StartPreference => a.startWithNoiseReduction == b.startWithNoiseReduction
    case LaunchAtLogin => a.launchAtLogin == b.launchAtLogin
  }

  /** No request is about these. */
  predicate SameOtherwise(a: Config, b: Config) {
    && a.schemaVersion == b.schemaVersion && a.diagnostics == b.diagnostics
    && a.input.channel == b.input.channel && a.input.fallbackToDefault == b.input.fallbackToDefault
  }

  lemma RequestSets(request: Request, c: Config, setting: Setting)
    ensures Carries(Effect(request, c), request)
    ensures SettingOf(request) != Some(setting) ==> SameSetting(setting, c, Effect(request, c))
    ensures SameOtherwise(c, Effect(request, c))
  {
  }

  lemma CarriesOn(a: Config, b: Config, request: Request)
    requires SettingOf(request).Some? && SameSetting(SettingOf(request).value, a, b) && Carries(a, request)
    ensures Carries(b, request)
  {
  }

  /** No call from `from` on that succeeded was about this setting. */
  predicate Untouched(s: Service, events: seq<Event>, from: nat, setting: Setting) {
    forall j :: from <= j < |events| && Succeeded(s, events, j) ==> SettingOf(events[j].request) != Some(setting)
  }

  lemma UntouchedBefore(s: Service, events: seq<Event>, from: nat, setting: Setting)
    requires events != [] && Untouched(s, events, from, setting)
    ensures Untouched(s, events[..|events| - 1], from, setting)
  {
    var n := |events| - 1;
    forall j | from <= j < n && Succeeded(s, events[..n], j)
      ensures SettingOf(events[..n][j].request) != Some(setting)
    {
      assert events[..n][..j] == events[..j];
      assert Succeeded(s, events, j);
    }
  }

  /** Each setting is what the last successful request for it asked for. */
  lemma {:induction false} LastRequestDecides(s: Service, events: seq<Event>, k: nat)
    requires k < |events| && Succeeded(s, events, k) && SettingOf(events[k].request).Some?
    requires Untouched(s, events, k + 1, SettingOf(events[k].request).value)
    ensures Carries(Run(s, events).config, events[k].request)
  {
    hide EventStep, Carries, SameSetting, SettingOf, Effect, Untouched;
    var n := |events| - 1;
    var before, e := Run(s, events[..n]), events[n];
    StepFacts(before, e);
    if k == n {
      RequestSets(e.request, before.config, Activity);
    } else {
      var setting := SettingOf(events[k].request).value;
      assert events[..n][..k] == events[..k];
      UntouchedBefore(s, events, k + 1, setting);
      LastRequestDecides(s, events[..n], k);
      if Succeeded(s, events, n) {
        LastIsUntouched(s, events, k + 1, setting);
        RequestSets(e.request, before.config, setting);
        CarriesOn(before.config, Effect(e.request, before.config), events[k].request);
      }
    }
  }

  lemma LastIsUntouched(s: Service, events: seq<Event>, from: nat, setting: Setting)
    requires events != [] && from < |events| && Untouched(s, events, from, setting) && Succeeded(s, events, |events| - 1)
    ensures SettingOf(events[|events| - 1].request) != Some(setting)
  {
  }

  /** A setting that no successful request was about is the one the daemon started with, and so is everything else. */
  lemma {:induction false} UntouchedSettingsStay(s: Service, events: seq<Event>, setting: Setting)
    ensures Untouched(s, events, 0, setting) ==> SameSetting(setting, s.config, Run(s, events).config)
    ensures SameOtherwise(s.config, Run(s, events).config)
  {
    hide EventStep, SettingOf, Effect, Untouched;
    if events != [] {
      var n := |events| - 1;
      var before, e := Run(s, events[..n]), events[n];
      UntouchedSettingsStay(s, events[..n], setting);
      StepFacts(before, e);
      if Untouched(s, events, 0, setting) {
        UntouchedBefore(s, events, 0, setting);
      }
      if Succeeded(s, events, n) {
        RequestSets(e.request, before.config, setting);
        if Untouched(s, events, 0, setting) {
          LastIsUntouched(s, events, 0, setting);
        }
      }
    }
  }

  /** Asking for what already is changes nothing, not even the revision, and asks neither the engine nor the store. */
  lemma RepeatedRequestIsNoOp(s: Service, request: Request, r: Replies)
    requires s.alive && Carries(s.config, request) && !request.Change? && !request.Retry?
    requires request.Start? || request.Stop? || s.writable
    ensures CallStep(s, request, s.revision, r) == Ended(s, Ok(()))
    ensures Saving(s, request, s.revision, r) == None
  {
  }

  lemma {:induction false} RevisionsGrow(s: Service, events: seq<Event>, i: nat, j: nat)
    requires i <= j <= |events| && Run(s, events[..i]).revision <= U64_MAX
    ensures Run(s, events[..i]).revision <= Run(s, events[..j]).revision <= U64_MAX
    decreases j - i
  {
    hide EventStep;
    if i < j {
      assert events[..j][..j - 1] == events[..j - 1];
      RevisionsGrow(s, events, i, j - 1);
      StepFacts(Run(s, events[..j - 1]), events[j - 1]);
    }
  }

  /** Below saturation, equal revisions mean equal configurations. */
  lemma {:induction false} RevisionIdentifiesConfig(s: Service, events: seq<Event>, i: nat, j: nat)
    requires i <= j <= |events|
    requires Run(s, events[..i]).revision == Run(s, events[..j]).revision < U64_MAX
    ensures Run(s, events[..i]).config == Run(s, events[..j]).config
    decreases j - i
  {
    hide EventStep;
    if i < j {
      assert events[..j][..j - 1] == events[..j - 1];
      RevisionsGrow(s, events, i, j - 1);
      StepFacts(Run(s, events[..j - 1]), events[j - 1]);
      RevisionIdentifiesConfig(s, events, i, j - 1);
    }
  }

  /** No lost update: once a call has changed the configuration, the revision it was based on is refused for good. */
  lemma NoLostUpdate(s: Service, events: seq<Event>, i: nat, j: nat)
    requires i < j < |events| && s.revision <= U64_MAX && events[i].Call? && events[j].Call?
    requires Run(s, events[..i + 1]).config != Run(s, events[..i]).config
    requires events[j].expected == events[i].expected < U64_MAX
    ensures EventStep(Run(s, events[..j]), events[j]).result.Err?
  {
    assert events[..i + 1][..i] == events[..i];
    OutcomeOfCall(Run(s, events[..i]), events[i].request, events[i].expected, events[i].replies);
    assert events[..0] == [];
    RevisionsGrow(s, events, 0, i);
    RevisionsGrow(s, events, 0, i + 1);
    RevisionsGrow(s, events, i + 1, j);
    OutcomeOfCall(Run(s, events[..j]), events[j].request, events[j].expected, events[j].replies);
  }

  /** At saturation the revision no longer protects: two updates based on it both succeed. */
  lemma SaturationLosesUpdates(s: Service, first: Replies, second: Replies)
    requires s.alive && s.writable && s.revision == U64_MAX && Validate(s.config).Ok?
    requires first.apply.Accepted? && first.saved.Saved? && second.apply.Accepted? && second.saved.Saved?
    ensures
      var quieter := CallStep(s, Change(SetStrength(Finite(0.25))), U64_MAX, first);
      var louder := CallStep(quieter.service, Change(SetStrength(Finite(0.75))), U64_MAX, second);
      quieter.result.Ok? && louder.result.Ok? && quieter.service.config != louder.service.config
  {
  }

  lemma {:induction false} ConfigStaysValid(s: Service, events: seq<Event>)
    requires Validate(s.config).Ok?
    ensures Validate(Run(s, events).config).Ok?
  {
    if events != [] {
      var n := |events| - 1;
      ConfigStaysValid(s, events[..n]);
      StepFacts(Run(s, events[..n]), events[n]);
    }
  }

  /** A read-only load never leads to a save, and so to no file change and no configuration change, in any run. */
  lemma {:induction false} ReadOnlyNeverSaves(s: Service, events: seq<Event>, e: Event)
    requires !s.writable
    ensures !Run(s, events).writable
    ensures e.Call? ==> Saving(Run(s, events), e.request, e.expected, e.replies) == None
  {
    if events != [] {
      var n := |events| - 1;
      ReadOnlyNeverSaves(s, events[..n], e);
      StepFacts(Run(s, events[..n]), events[n]);
    }
  }

  /** The engine and the daemon mean the same processing. */
  predicate Agrees(s: Service) {
    s.engine.Some? && SameAudio(s.engine.value, s.config)
  }

  predicate SameAudio(a: Config, b: Config) {
    a.active == b.active && a.input == b.input && a.output == b.output && a.suppression == b.suppression
  }

  /** The call reached the engine last with an accepted configuration that the daemon holds. */
  predicate Restores(s: Service, e: Event) {
    && e.Call? && s.alive
    && var ended := EventStep(s, e);
       match ended.result
       case Ok(_) =>
         e.request.Retry? || e.request.Change? || (e.request.Start? && !s.config.active) || (e.request.Stop? && s.config.active)
       case Err(error) => error.Persistence? && !e.request.SetStartPreference? && !e.request.SetLaunchAtLogin?
  }

  predicate Breaks(s: Service, e: Event) {
    e.Call? && s.alive && EventStep(s, e).result.Err? && EventStep(s, e).result.error.PersistenceRollback?
  }

  /** Since the last restoring call, a startup apply or a rollback was rejected. */
  function Diverged(s: Service, events: seq<Event>): bool {
    if events == [] then s.engine.None?
    else
      var n := |events| - 1;
      var before := Run(s, events[..n]);
      Breaks(before, events[n]) || (Diverged(s, events[..n]) && !Restores(before, events[n]))
  }

  lemma MutateAgrees(s: Service, expected: nat, candidate: Config, r: Replies)
    ensures
      var ended := MutateStep(s, expected, candidate, r);
      match ended.result
      case Ok(_) => Agrees(ended.service)
      case Err(error) =>
        (error.Persistence? ==> Agrees(ended.service))
        && (!error.PersistenceRollback? && Agrees(s) && ended.service.alive ==> Agrees(ended.service))
  {
  }

  lemma EngineStep(s: Service, e: Event)
    requires Agrees(s) || Restores(s, e)
    ensures EventStep(s, e).service.alive && !Breaks(s, e) ==> Agrees(EventStep(s, e).service)
  {
    if e.Call? {
      match e.request {
        case Start => MutateAgrees(s, e.expected, Edited(SetActive(true), s.config), e.replies);
        case Stop => MutateAgrees(s, e.expected, Edited(SetActive(false), s.config), e.replies);
        case Change(edit) => MutateAgrees(s, e.expected, Edited(edit, s.config), e.replies);
        case SetStartPreference(_) =>
        case SetLaunchAtLogin(_) =>
        case Retry =>
      }
    }
  }

  /** Given the engine's contract, it agrees with the living daemon except after a rejected startup apply or rollback. */
  lemma {:induction false} EngineAgrees(s: Service, events: seq<Event>)
    requires s.engine.Some? ==> Agrees(s)
    ensures Run(s, events).alive && !Diverged(s, events) ==> Agrees(Run(s, events))
  {
    if events != [] {
      var n := |events| - 1;
      EngineAgrees(s, events[..n]);
      StepFacts(Run(s, events[..n]), events[n]);
      if Agrees(Run(s, events[..n])) || Restores(Run(s, events[..n]), events[n]) {
        EngineStep(Run(s, events[..n]), events[n]);
      }
    }
  }

  /** The next restoring call brings agreement back, whatever happened before. */
  lemma RestoringCallRestores(s: Service, e: Event)
    requires Restores(s, e)
    ensures Agrees(EventStep(s, e).service)
  {
  }

  /** A rejected rollback leaves the engine on the refused candidate: it agrees exactly if that meant the same audio. */
  lemma RollbackLeavesTheCandidate(s: Service, e: Event)
    requires Breaks(s, e)
    ensures EventStep(s, e).service.engine == Some(Effect(e.request, s.config))
    ensures EventStep(s, e).service.config == s.config
    ensures Agrees(EventStep(s, e).service) <==> SameAudio(Effect(e.request, s.config), s.config)
  {
  }

  /** The public state says so, under a revision of its own. */
  lemma RollbackIsReported(s: Service, e: Event)
    requires Breaks(s, e)
    ensures EventStep(s, e).service.observation.state.Degraded? && EventStep(s, e).service.observation.fault.Some?
    ensures EventStep(s, e).service.revision == SaturatingAdd(s.revision, 1)
  {
  }

  /** What the engine last answered to a poll or a retry is what clients see; an engine that fails shows as degraded. */
  lemma AnswersAreShown(s: Service, reply: Reply, r: Replies)
    requires s.alive
    ensures
      var polled := EventStep(s, Observe(reply)).service;
      && polled.config == s.config && polled.engine == s.engine
      && (reply.Accepted? ==> polled.observation == reply.observation)
      && (reply.Rejected? ==> polled.observation.state.Degraded?)
      && polled.revision == if polled.observation == s.observation then s.revision else SaturatingAdd(s.revision, 1)
    ensures
      var retried := CallStep(s, Retry, s.revision, r);
      && (retried.result.Ok? <==> r.apply.Accepted?)
      && (r.apply.Accepted? ==>
            && retried.service.observation == r.apply.observation && retried.service.revision == SaturatingAdd(s.revision, 1))
      && (r.apply.Rejected? ==> retried.service.observation.state.Degraded? && retried.service.engine == s.engine)
  {
  }

  /** systemd and the configuration mean the same, unless a refused save could not be undone or the process died. */
  predicate UnitLost(s: Service, e: Event) {
    && e.Call? && e.request.SetLaunchAtLogin? && s.alive
    && EventStep(s, e).result.Err? && EventStep(s, e).result.error.Persistence? && !e.replies.unitRestored
  }

  lemma MutateKeepsUnit(s: Service, expected: nat, candidate: Config, r: Replies)
    ensures
      var next := MutateStep(s, expected, candidate, r).service;
      next.unit == s.unit && (next.config == s.config || next.config == candidate)
  {
  }

  lemma UnitStep(s: Service, e: Event)
    requires s.unit == s.config.launchAtLogin && !UnitLost(s, e)
    ensures EventStep(s, e).service.alive ==> EventStep(s, e).service.unit == EventStep(s, e).service.config.launchAtLogin
  {
    hide MutateStep;
    if e.Call? {
      match e.request {
        case Start => MutateKeepsUnit(s, e.expected, Edited(SetActive(true), s.config), e.replies);
        case Stop => MutateKeepsUnit(s, e.expected, Edited(SetActive(false), s.config), e.replies);
        case Change(edit) => MutateKeepsUnit(s, e.expected, Edited(edit, s.config), e.replies);
        case _ =>
      }
    }
  }

  lemma {:induction false} UnitAgrees(s: Service, events: seq<Event>)
    requires s.unit == s.config.launchAtLogin
    requires forall i :: 0 <= i < |events| ==> !UnitLost(Run(s, events[..i]), events[i])
    ensures Run(s, events).alive ==> Run(s, events).unit == Run(s, events).config.launchAtLogin
  {
    if events != [] {
      var n := |events| - 1;
      forall i | 0 <= i < n
        ensures !UnitLost(Run(s, events[..n][..i]), events[..n][i])
      {
        assert events[..n][..i] == events[..i];
      }
      UnitAgrees(s, events[..n]);
      StepFacts(Run(s, events[..n]), events[n]);
      if Run(s, events[..n]).alive {
        assert !UnitLost(Run(s, events[..n]), events[n]);
        UnitStep(Run(s, events[..n]), events[n]);
      }
    }
  }

  /** The disk after an event: what the store did with the candidate, if there was one. */
  ghost predicate DiskStep(codec: Codec, s: Service, e: Event, d: Disk, after: Disk) {
    if e.Call? && Saving(s, e.request, e.expected, e.replies).Some? then
      var r := e.replies;
      SaveOutcome(codec, d, Saving(s, e.request, e.expected, r).value, r.checked, r.read, r.fates, r.saved, after)
    else
      after == d
  }

  ghost predicate DiskHistory(codec: Codec, s: Service, events: seq<Event>, disks: seq<Disk>) {
    && |disks| == |events| + 1
    && forall i :: 0 <= i < |events| ==> DiskStep(codec, Run(s, events[..i]), events[i], disks[i], disks[i + 1])
  }

  /** Whatever a crash leaves on the disk, the next daemon starts with the configuration this one would restart with. */
  ghost predicate Resumes(codec: Codec, s: Service, d: Disk) {
    && d.Valid()
    && forall p, b :: p in d.primaries && b in d.backups ==>
         Load(codec, p, b).Ok? && Resumed(Load(codec, p, b).value.config) == Resumed(s.config)
  }

  /** A refused save that leaves a trace: only the directory sync failed, or a backup now stands in for a broken primary. */
  predicate Leaks(codec: Codec, s: Service, e: Event, d: Disk) {
    && e.Call? && Saving(s, e.request, e.expected, e.replies).Some? && e.replies.saved.Refused?
    && (e.replies.saved.error == Io(SyncDirectory)
        || (BackupRenamed(d, e.replies.fates) && exists p :: p in d.primaries && Undecodable(codec, p)))
  }

  /** The codec gives back what the event hands to the store. */
  ghost predicate RendersSaved(codec: Codec, s: Service, e: Event) {
    e.Call? && Saving(s, e.request, e.expected, e.replies).Some? ==>
      RoundTrips(codec, {Saving(s, e.request, e.expected, e.replies).value})
  }

  /** A living daemon holds the candidate exactly if the store acknowledged it. */
  lemma SavingDecides(s: Service, request: Request, expected: nat, r: Replies)
    requires CallStep(s, request, expected, r).service.alive && Validate(s.config).Ok?
    ensures
      var next := CallStep(s, request, expected, r).service;
      match Saving(s, request, expected, r)
      case None => next.config == s.config
      case Some(candidate) =>
        && Validate(candidate).Ok? && !r.saved.Crashed?
        && next.config == if r.saved.Saved? then candidate else s.config
  {
  }

  /** A refused save without a leak changes nothing that a crash could reveal. */
  lemma RefusalResumes(codec: Codec, candidate: Config, r: Replies, d: Disk, after: Disk, p: Content, b: Content)
    requires d.Valid() && Validate(candidate).Ok? && r.saved.Refused? && r.saved.error != Io(SyncDirectory)
    requires BackupRenamed(d, r.fates) ==> forall p :: p in d.primaries ==> !Undecodable(codec, p)
    requires SaveOutcome(codec, d, candidate, r.checked, r.read, r.fates, r.saved, after)
    requires p in after.primaries && b in after.backups
    ensures p in d.primaries && exists was :: was in d.backups && Load(codec, p, b) == Load(codec, p, was)
  {
  }

  lemma EventResumes(codec: Codec, s: Service, e: Event, d: Disk, after: Disk)
    requires RendersSaved(codec, s, e) && Validate(s.config).Ok?
    requires Resumes(codec, s, d) && DiskStep(codec, s, e, d, after) && !Leaks(codec, s, e, d)
    ensures EventStep(s, e).service.alive ==> Resumes(codec, EventStep(s, e).service, after)
  {
    var next := EventStep(s, e).service;
    if next.alive {
      match e {
        case Observe(_) =>
        case Call(request, expected, r) =>
          SavingDecides(s, request, expected, r);
          var saving := Saving(s, request, expected, r);
          if saving.Some? && r.saved.Refused? {
            forall p, b | p in after.primaries && b in after.backups
              ensures Load(codec, p, b).Ok? && Resumed(Load(codec, p, b).value.config) == Resumed(s.config)
            {
              RefusalResumes(codec, saving.value, r, d, after, p, b);
            }
          }
      }
    }
  }

  /**
   * A daemon starts from the loaded file, but processes only if the file opted in: whatever was active when it was saved.
   * An engine that accepts holds exactly that; one that does not leaves a degraded daemon that still answers.
   */
  lemma BootTakesTheFile(loaded: LoadOutcome, apply: Reply, unit: bool)
    ensures
      var s := Boot(loaded, apply, unit);
      && s.config.active == loaded.config.startWithNoiseReduction && s.config.(active := loaded.config.active) == loaded.config
      && s.writable == loaded.writable && s.revision == 1 && s.unit == unit && s.alive
      && (apply.Accepted? ==> s.engine == Some(s.config) && s.observation == apply.observation)
      && (apply.Rejected? ==> s.engine == None && s.observation.state.Degraded?)
  {
  }

  lemma BootResumes(codec: Codec, d: Disk, loaded: LoadOutcome, apply: Reply, unit: bool)
    requires d.Synced() && Load(codec, d.primary, d.backup) == Ok(loaded)
    ensures
      var s := Boot(loaded, apply, unit);
      && Resumes(codec, s, d) && Validate(s.config).Ok? && s.alive
      && (s.engine.Some? <==> apply.Accepted?) && (s.engine.Some? ==> Agrees(s))
      && (s.writable <==> !Newer(codec, d.primary))
  {
  }

  /**
   * Restarting resumes live intent: in every run from a boot, as long as no refused save leaked, any crash leaves files
   * from which the next daemon starts with this daemon's configuration.
   */
  lemma {:induction false} RestartResumesIntent(codec: Codec, s: Service, events: seq<Event>, disks: seq<Disk>)
    requires DiskHistory(codec, s, events, disks)
    requires Validate(s.config).Ok? && Resumes(codec, s, disks[0])
    requires forall i :: 0 <= i < |events| ==> RendersSaved(codec, Run(s, events[..i]), events[i])
    requires forall i :: 0 <= i < |events| ==> !Leaks(codec, Run(s, events[..i]), events[i], disks[i])
    ensures Run(s, events).alive ==> Resumes(codec, Run(s, events), disks[|events|])
  {
    hide EventStep, Resumes, Leaks, RendersSaved, DiskStep;
    if events != [] {
      var n := |events| - 1;
      forall i | 0 <= i < n
        ensures DiskStep(codec, Run(s, events[..n][..i]), events[..n][i], disks[..n + 1][i], disks[..n + 1][i + 1])
        ensures RendersSaved(codec, Run(s, events[..n][..i]), events[..n][i])
        ensures !Leaks(codec, Run(s, events[..n][..i]), events[..n][i], disks[..n + 1][i])
      {
        assert events[..n][..i] == events[..i];
        assert DiskStep(codec, Run(s, events[..i]), events[i], disks[i], disks[i + 1]);
        assert RendersSaved(codec, Run(s, events[..i]), events[i]);
      }
      RestartResumesIntent(codec, s, events[..n], disks[..n + 1]);
      ConfigStaysValid(s, events[..n]);
      StepFacts(Run(s, events[..n]), events[n]);
      if Run(s, events).alive {
        assert DiskStep(codec, Run(s, events[..n]), events[n], disks[n], disks[n + 1]);
        assert RendersSaved(codec, Run(s, events[..n]), events[n]) && !Leaks(codec, Run(s, events[..n]), events[n], disks[n]);
        EventResumes(codec, Run(s, events[..n]), events[n], disks[n], disks[n + 1]);
      }
    }
  }

  /**
   * The same over a restart: after any run and any crash, the next daemon has this daemon's settings, and is active
   * exactly if they opted in.
   */
  lemma NextDaemonIsActiveIff(
    codec: Codec, s: Service, events: seq<Event>, disks: seq<Disk>, p: Content, b: Content, apply: Reply, unit: bool)
    requires DiskHistory(codec, s, events, disks) && Run(s, events).alive
    requires Validate(s.config).Ok? && Resumes(codec, s, disks[0])
    requires forall i :: 0 <= i < |events| ==> RendersSaved(codec, Run(s, events[..i]), events[i])
    requires forall i :: 0 <= i < |events| ==> !Leaks(codec, Run(s, events[..i]), events[i], disks[i])
    requires p in disks[|events|].primaries && b in disks[|events|].backups
    ensures Load(codec, p, b).Ok?
    ensures
      var was, now := Run(s, events).config, Boot(Load(codec, p, b).value, apply, unit).config;
      && (now.active <==> was.startWithNoiseReduction)
      && now.(active := was.active) == was
  {
    hide Run, Leaks, RendersSaved, DiskHistory;
    RestartResumesIntent(codec, s, events, disks);
  }

  /** A daemon that loaded a newer file never changes any file. */
  lemma {:induction false} ReadOnlyKeepsFiles(codec: Codec, s: Service, events: seq<Event>, disks: seq<Disk>)
    requires !s.writable && DiskHistory(codec, s, events, disks)
    ensures disks[|events|] == disks[0] && Run(s, events).config == s.config
  {
    if events != [] {
      var n := |events| - 1;
      forall i | 0 <= i < n
        ensures DiskStep(codec, Run(s, events[..n][..i]), events[..n][i], disks[..n + 1][i], disks[..n + 1][i + 1])
      {
        assert events[..n][..i] == events[..i];
        assert DiskStep(codec, Run(s, events[..i]), events[i], disks[i], disks[i + 1]);
      }
      ReadOnlyKeepsFiles(codec, s, events[..n], disks[..n + 1]);
      ReadOnlyNeverSaves(s, events[..n], events[n]);
      assert DiskStep(codec, Run(s, events[..n]), events[n], disks[n], disks[n + 1]);
      StepFacts(Run(s, events[..n]), events[n]);
    }
  }
}
