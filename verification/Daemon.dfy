/** The daemon itself: fields changed in place, an engine and a unit manager that answer, and the durable store. */
module Daemons {
  import opened Prelude
  import opened ConfigModel
  import opened ConfigStores
  import opened DaemonModel

  class Daemon {
    const store: ConfigStore
    var config: Config
    const writable: bool
    var revision: nat
    var observation: EngineObservation
    /** What the engine last accepted, and whether systemd has the unit enabled: the state of the daemon's partners. */
    var engine: Option<Config>
    var unit: bool
    ghost var alive: bool

    ghost predicate Valid()
      reads this
    {
      Validate(config).Ok?
    }

    ghost function Value(): Service
      reads this
    {
      Service(config, writable, revision, observation, engine, unit, alive)
    }

    /** Startup never writes, and goes on when the engine rejects what was loaded. */
    constructor (store: ConfigStore, loaded: LoadOutcome, apply: Reply, unit: bool)
      requires Validate(loaded.config).Ok?
      ensures Valid() && this.store == store && Value() == Boot(loaded, apply, unit)
      ensures config == loaded.config.(active := loaded.config.startWithNoiseReduction)
      ensures apply.Accepted? ==> engine == Some(config)
    {
      this.store := store;
      config := Resumed(loaded.config);
      writable := loaded.writable;
      revision := 1;
      match apply {
        case Accepted(realized) =>
          observation := realized;
          engine := Some(Resumed(loaded.config));
        case Rejected(_) =>
          observation := NO_OBSERVATION.(state := Degraded);
          engine := None;
      }
      this.unit := unit;
      alive := true;
    }

    /** Hands a candidate to the engine. */
    method ApplyEngine(candidate: Config, reply: Reply) returns (result: Result<EngineObservation, string>)
      modifies `engine
      ensures match reply
        case Accepted(realized) => result == Ok(realized) && engine == Some(candidate)
        case Rejected(code) => result == Err(code) && engine == old(engine)
    {
      match reply {
        case Accepted(realized) =>
          engine := Some(candidate);
          result := Ok(realized);
        case Rejected(code) =>
          result := Err(code);
      }
    }

    method Bump()
      modifies `revision
      ensures Value() == old(Value()).Bumped()
    {
      revision := SaturatingAdd(revision, 1);
    }

    method Mutate(expected: nat, edit: Edit, r: Replies) returns (result: Result<(), ControlError>, ghost saved: SaveResult)
      requires Valid() && alive
      modifies this, store
      ensures Valid()
      ensures Ended(Value(), result) == MutateStep(old(Value()), expected, Edited(edit, old(config)), r.(saved := saved))
      ensures
        if expected == old(revision) && writable && Validate(Edited(edit, old(config))).Ok? && r.apply.Accepted? then
          SaveOutcome(store.codec, old(store.disk), Edited(edit, old(config)), r.checked, r.read, old(store.fates),
            saved, store.disk)
        else
          store.disk == old(store.disk) && saved == r.saved
    {
      hide SaveOutcome, Edited;
      saved := r.saved;
      if expected != revision {
        return Err(Conflict(expected, revision)), saved;
      }
      if !writable {
        return Err(ReadOnly), saved;
      }
      var previous := config;
      var previousObservation := observation;
      var candidate := Edited(edit, previous);
      var valid := Validate(candidate);
      if valid.Err? {
        return Err(Invalid(valid.error)), saved;
      }
      var applied := ApplyEngine(candidate, r.apply);
      if applied.Err? {
        return Err(Audio(applied.error)), saved;
      }
      var persisted := store.Save(candidate, r.checked, r.read);
      saved := persisted;
      match persisted {
        case Crashed =>
          alive := false;
          result := Err(Killed);
        case Refused(cause) =>
          var restored := ApplyEngine(previous, r.rollback);
          match restored {
            case Ok(realized) =>
              observation := realized;
              result := Err(Persistence(cause));
            case Err(code) =>
              observation := previousObservation.(state := Degraded, fault := Some(code));
              Bump();
              result := Err(PersistenceRollback(cause, code));
          }
        case Saved =>
          config := candidate;
          observation := applied.value;
          Bump();
          result := Ok(());
      }
    }

    method Toggle(expected: nat, active: bool, r: Replies) returns (result: Result<(), ControlError>, ghost saved: SaveResult)
      requires Valid() && alive
      modifies this, store
      ensures Valid()
      ensures Ended(Value(), result) ==
        CallStep(old(Value()), if active then Start else Stop, expected, r.(saved := saved))
      ensures
        match Saving(old(Value()), if active then Start else Stop, expected, r)
        case Some(candidate) => SaveOutcome(store.codec, old(store.disk), candidate, r.checked, r.read,
          old(store.fates), saved, store.disk)
        case None => store.disk == old(store.disk)
    {
      saved := r.saved;
      if expected != revision {
        return Err(Conflict(expected, revision)), saved;
      }
      if config.active == active {
        return Ok(()), saved;
      }
      result, saved := Mutate(expected, SetActive(active), r);
    }

    /** Saves a candidate the engine need not know, and adopts it once it is durable. */
    method Persist(candidate: Config, r: Replies) returns (saved: SaveResult)
      requires Valid() && alive && Validate(candidate).Ok?
      modifies this, store
      ensures Valid()
      ensures SaveOutcome(store.codec, old(store.disk), candidate, r.checked, r.read, old(store.fates), saved, store.disk)
      ensures Value() == match saved
        case Saved => old(Value()).Committed(candidate)
        case Refused(_) => old(Value())
        case Crashed => old(Value()).(alive := false)
    {
      saved := store.Save(candidate, r.checked, r.read);
      if saved.Saved? {
        config := candidate;
        Bump();
      } else if saved.Crashed? {
        alive := false;
      }
    }

    method SetStartPreference(expected: nat, enabled: bool, r: Replies)
      returns (result: Result<(), ControlError>, ghost saved: SaveResult)
      requires Valid() && alive
      modifies this, store
      ensures Valid()
      ensures Ended(Value(), result) == PreferenceStep(old(Value()), expected, enabled, r.(saved := saved))
      ensures
        match Saving(old(Value()), Request.SetStartPreference(enabled), expected, r)
        case Some(candidate) => SaveOutcome(store.codec, old(store.disk), candidate, r.checked, r.read,
          old(store.fates), saved, store.disk)
        case None => store.disk == old(store.disk)
    {
      hide SaveOutcome;
      saved := r.saved;
      if expected != revision {
        return Err(Conflict(expected, revision)), saved;
      }
      if !writable {
        return Err(ReadOnly), saved;
      }
      if config.startWithNoiseReduction == enabled {
        return Ok(()), saved;
      }
      var persisted := Persist(config.(startWithNoiseReduction := enabled), r);
      saved := persisted;
      match persisted {
        case Saved => result := Ok(());
        case Refused(cause) => result := Err(Persistence(cause));
        case Crashed => result := Err(Killed);
      }
    }

    method SetLaunchAtLogin(expected: nat, enabled: bool, r: Replies)
      returns (result: Result<(), ControlError>, ghost saved: SaveResult)
      requires Valid() && alive
      modifies this, store
      ensures Valid()
      ensures Ended(Value(), result) == LaunchStep(old(Value()), expected, enabled, r.(saved := saved))
      ensures
        match Saving(old(Value()), Request.SetLaunchAtLogin(enabled), expected, r)
        case Some(candidate) => SaveOutcome(store.codec, old(store.disk), candidate, r.checked, r.read,
          old(store.fates), saved, store.disk)
        case None => store.disk == old(store.disk)
    {
      saved := r.saved;
      if expected != revision {
        return Err(Conflict(expected, revision)), saved;
      }
      if !writable {
        return Err(ReadOnly), saved;
      }
      if config.launchAtLogin == enabled {
        return Ok(()), saved;
      }
      if !r.unitSet {
        return Err(LaunchManager), saved;
      }
      unit := enabled;
      var persisted := Persist(config.(launchAtLogin := enabled), r);
      saved := persisted;
      match persisted {
        case Saved => result := Ok(());
        case Refused(cause) =>
          if r.unitRestored {
            unit := !enabled;
          }
          result := Err(Persistence(cause));
        case Crashed => result := Err(Killed);
      }
    }

    method Retry(expected: nat, r: Replies) returns (result: Result<(), ControlError>)
      requires Valid() && alive
      modifies this
      ensures Valid()
      ensures Ended(Value(), result) == CallStep(old(Value()), Request.Retry, expected, r)
    {
      if expected != revision {
        return Err(Conflict(expected, revision));
      }
      var applied := ApplyEngine(config, r.apply);
      match applied {
        case Ok(realized) =>
          observation := realized;
          Bump();
          result := Ok(());
        case Err(code) =>
          observation := observation.(state := Degraded);
          result := Err(Audio(code));
      }
    }

    /** Polls the engine and reports whether the public state changed. */
    method RefreshObservation(reply: Reply) returns (changed: bool)
      requires Valid() && alive
      modifies this
      ensures Valid()
      ensures Value() == RefreshStep(old(Value()), reply)
      ensures changed <==> observation != old(observation)
    {
      var previous := observation;
      match reply {
        case Accepted(realized) => observation := realized;
        case Rejected(_) => observation := observation.(state := Degraded);
      }
      changed :=
        previous.state != observation.state || previous.inputDisplayName != observation.inputDisplayName
        || previous.version != observation.version || previous.fault != observation.fault;
      if changed {
        Bump();
      }
    }
  }
}
