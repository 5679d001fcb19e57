/** Durable persistence: a backup and then the primary, each by temporary file, sync, and atomic rename. */
module ConfigStores {
  import opened Prelude
  import opened ConfigModel

  const TEMPORARY_NAMES: nat := 16

  datatype Target = PrimaryFile | BackupFile

  datatype Name = Name(target: Target, attempt: nat)

  /** The first temporary name, from `attempt` on, that nobody uses. */
  function FirstFree(temporaries: map<Name, string>, target: Target, attempt: nat): (free: nat)
    requires attempt <= TEMPORARY_NAMES
    ensures attempt <= free <= TEMPORARY_NAMES
    ensures free < TEMPORARY_NAMES ==> Name(target, free) !in temporaries
    ensures forall i :: attempt <= i < free ==> Name(target, i) in temporaries
    decreases TEMPORARY_NAMES - attempt
  {
    if attempt == TEMPORARY_NAMES || Name(target, attempt) !in temporaries then attempt
    else FirstFree(temporaries, target, attempt + 1)
  }

  /**
   * `primary` and `backup` are what a reader sees now; `primaries` and `backups` what a reader may see after a crash,
   * since a rename is durable only once its directory was synced. `temporaries` are the temporary files.
   */
  datatype Disk = Disk(
    primary: Content,
    backup: Content,
    primaries: set<Content>,
    backups: set<Content>,
    temporaries: map<Name, string>)
  {
    predicate Valid() {
      primary in primaries && backup in backups
    }

    /** A crash would change nothing. */
    predicate Synced() {
      primaries == {primary} && backups == {backup}
    }

    predicate NameFree(target: Target) {
      FirstFree(temporaries, target, 0) < TEMPORARY_NAMES
    }

    /** The operations of one undisturbed atomic write: opening attempts, write, flush, sync, rename. */
    function WriteOps(target: Target): nat {
      FirstFree(temporaries, target, 0) + 5
    }

    /** The operations of one undisturbed save: the directory, the backup, the primary, the directory sync. */
    function SaveOps(): nat {
      1 + WriteOps(BackupFile) + WriteOps(PrimaryFile) + 1
    }

    function Rename(name: Name): Disk
      requires name in temporaries
    {
      var moved := Text(temporaries[name]);
      match name.target
      case PrimaryFile => this.(primary := moved, primaries := primaries + {moved}, temporaries := temporaries - {name})
      case BackupFile => this.(backup := moved, backups := backups + {moved}, temporaries := temporaries - {name})
    }

    function Sync(): Disk {
      this.(primaries := {primary}, backups := {backup})
    }

    /** The files, without the temporaries. */
    function Files(): (Content, Content, set<Content>, set<Content>) {
      (primary, backup, primaries, backups)
    }
  }

  /** What becomes of one file-system operation. A broken write leaves some prefix behind. */
  datatype Fate = Succeed | Fail(written: nat) | Crash(written: nat)

  /** The fate of the `k`-th coming operation. */
  function FateAt(fates: seq<Fate>, k: nat): Fate {
    if k < |fates| then fates[k] else Succeed
  }

  predicate AllSucceed(fates: seq<Fate>, k: int) {
    forall i: nat :: i < k ==> FateAt(fates, i).Succeed?
  }

  predicate SomeCrash(fates: seq<Fate>) {
    exists i: nat :: i < |fates| && FateAt(fates, i).Crash?
  }

  /** The fates after `k` operations. */
  function Later(fates: seq<Fate>, k: nat): seq<Fate> {
    if k <= |fates| then fates[k..] else []
  }

  datatype Progress = Done | Failed(operation: Operation) | Down

  /** `progress` is what `fates` make of `k` operations in a row, the last of which may clean up after a failure. */
  ghost predicate Decides(fates: seq<Fate>, k: nat, progress: Progress) {
    && (progress.Done? <==> AllSucceed(fates, k))
    && (forall i: nat :: i < k && AllSucceed(fates, i) && FateAt(fates, i).Crash? ==> progress.Down?)
    && (progress.Down? ==> SomeCrash(fates))
  }

  lemma LaterFates(fates: seq<Fate>, k: nat, i: nat)
    ensures FateAt(Later(fates, k), i) == FateAt(fates, k + i)
    ensures Later(Later(fates, k), i) == Later(fates, k + i)
  {
  }

  /** Operations one after the other: the rest happens only if all before it succeeded. */
  lemma DecidesInTurn(fates: seq<Fate>, a: nat, first: Progress, b: nat, last: Progress)
    requires Decides(fates, a, first)
    requires if first.Done? then Decides(Later(fates, a), b, last) else !last.Done? && (first.Down? ==> last.Down?)
    requires last.Down? ==> SomeCrash(fates)
    ensures Decides(fates, a + b, last)
  {
    forall i: nat
      ensures FateAt(Later(fates, a), i) == FateAt(fates, a + i)
    {
      LaterFates(fates, a, i);
    }
    if first.Done? {
      assert AllSucceed(fates, a + b) <==> AllSucceed(Later(fates, a), b) by {
        if AllSucceed(Later(fates, a), b) {
          forall i: nat | i < a + b
            ensures FateAt(fates, i).Succeed?
          {
            assert i >= a ==> FateAt(Later(fates, a), i - a) == FateAt(fates, i);
          }
        }
      }
      forall i: nat | i < a + b && AllSucceed(fates, i) && FateAt(fates, i).Crash?
        ensures last.Down?
      {
        assert i >= a;
        assert FateAt(Later(fates, a), i - a) == FateAt(fates, i);
        assert AllSucceed(Later(fates, a), i - a);
      }
    } else {
      assert !AllSucceed(fates, a + b);
      forall i: nat | i < a + b && AllSucceed(fates, i) && FateAt(fates, i).Crash?
        ensures last.Down?
      {
        assert i < a;
      }
    }
  }

  /** A failure is not undone by what would have come after it. */
  lemma DecidesLonger(fates: seq<Fate>, k: nat, n: nat, progress: Progress)
    requires Decides(fates, k, progress) && !progress.Done? && k <= n
    ensures Decides(fates, n, progress)
  {
    forall i: nat | i < n && AllSucceed(fates, i) && FateAt(fates, i).Crash?
      ensures progress.Down?
    {
      assert i < k;
    }
  }

  lemma SomeCrashFirst(fates: seq<Fate>)
    ensures FateAt(fates, 0).Crash? ==> SomeCrash(fates)
    ensures SomeCrash(Later(fates, 1)) ==> SomeCrash(fates)
  {
    if SomeCrash(Later(fates, 1)) {
      LaterCrash(fates, 1);
    }
  }

  lemma LaterCrash(fates: seq<Fate>, k: nat)
    requires SomeCrash(Later(fates, k))
    ensures SomeCrash(fates)
  {
    var i: nat :| i < |Later(fates, k)| && FateAt(Later(fates, k), i).Crash?;
    LaterFates(fates, k, i);
    assert FateAt(fates, k + i).Crash?;
  }

  datatype SaveResult = Saved | Refused(error: ConfigError) | Crashed

  predicate Newer(codec: Codec, primary: Content) {
    primary.Text? && Decode(codec, primary.text).Err? && Decode(codec, primary.text).error.NewerSchema?
  }

  /** The recovery copy: a valid previous primary, or else the candidate itself. */
  function BackupText(codec: Codec, primary: Content, canonical: string, read: bool): string {
    if read && primary.Text? && Decode(codec, primary.text).Ok? then primary.text else canonical
  }

  /**
   * One save from `d` to `after`. `checked` and `read` say whether the two reads of the primary succeeded: the one
   * for the schema check and the one for the recovery copy.
   */
  ghost predicate SaveStep(codec: Codec, d: Disk, candidate: Config, checked: bool, read: bool, result: SaveResult, after: Disk) {
    var canonical := codec.render(candidate);
    var backup := Text(BackupText(codec, d.primary, canonical, read));
    var primary := Text(canonical);
    if Validate(candidate).Err? then result == Refused(Validation(Validate(candidate).error)) && after == d
    else if checked && Newer(codec, d.primary) then
      result == Refused(Decode(codec, d.primary.text).error) && after == d
    else
      match result
      case Saved => after.Synced() && after.primary == primary && after.backup == backup && after.temporaries == d.temporaries
      case Refused(error) =>
        && error.Io?
        && if error == Io(SyncDirectory) then
             after.Files() == (primary, backup, d.primaries + {primary}, d.backups + {backup})
           else
             after.primary == d.primary && after.primaries == d.primaries && BackupMaybe(d, backup, after)
      case Crashed =>
        && BackupMaybe(d, backup, after)
        && ((after.primary == d.primary && after.primaries == d.primaries)
            || after.Files() == (primary, backup, d.primaries + {primary}, d.backups + {backup}))
  }

  /** The backup was renamed or not. */
  predicate BackupMaybe(d: Disk, backup: Content, after: Disk) {
    || (after.backup == d.backup && after.backups == d.backups)
    || (after.backup == backup && after.backups == d.backups + {backup})
  }

  /**
   * Which fates lead to which result of a valid save that no newer file stops, and to which backup. `SaveOps` counts the
   * operations of an undisturbed save, the directory sync last.
   */
  ghost predicate FatesDecide(
    codec: Codec, d: Disk, candidate: Config, checked: bool, read: bool, fates: seq<Fate>, result: SaveResult, after: Disk)
  {
    var free := d.NameFree(BackupFile) && d.NameFree(PrimaryFile);
    var last := d.SaveOps() - 1;
    var backup := Text(BackupText(codec, d.primary, codec.render(candidate), read));
    Validate(candidate).Ok? && !(checked && Newer(codec, d.primary)) ==>
      && (result == Saved <==> free && AllSucceed(fates, last + 1))
      && (result == Refused(Io(SyncDirectory)) <==> free && AllSucceed(fates, last) && FateAt(fates, last).Fail?)
      && (forall i: nat :: free && i <= last && AllSucceed(fates, i) && FateAt(fates, i).Crash? ==> result == Crashed)
      && (result == Crashed ==> SomeCrash(fates))
      && (!result.Saved? ==>
            if BackupRenamed(d, fates) then after.backup == backup && after.backups == d.backups + {backup}
            else after.backup == d.backup && after.backups == d.backups)
  }

  /** One save with everything that is known about it. */
  ghost predicate SaveOutcome(
    codec: Codec, d: Disk, candidate: Config, checked: bool, read: bool, fates: seq<Fate>, result: SaveResult, after: Disk)
  {
    && SaveStep(codec, d, candidate, checked, read, result, after)
    && FatesDecide(codec, d, candidate, checked, read, fates, result, after)
  }

  /** The directory was made and the whole write of the backup succeeded. */
  predicate BackupRenamed(d: Disk, fates: seq<Fate>) {
    d.NameFree(BackupFile) && AllSucceed(fates, 1 + d.WriteOps(BackupFile))
  }

  class ConfigStore {
    const codec: Codec
    var disk: Disk
    /** What happens to the coming file-system operations; once exhausted, they succeed. */
    var fates: seq<Fate>

    constructor (codec: Codec, disk: Disk)
      ensures this.codec == codec && this.disk == disk && fates == []
    {
      this.codec := codec;
      this.disk := disk;
      fates := [];
    }

    method NextFate() returns (fate: Fate)
      modifies `fates
      ensures fate == FateAt(old(fates), 0) && fates == Later(old(fates), 1)
    {
      if fates == [] {
        return Succeed;
      }
      fate := fates[0];
      fates := fates[1..];
    }

    /** One operation without an effect on the modelled files. */
    method Attempt(operation: Operation) returns (progress: Progress)
      modifies `fates
      ensures progress in {Done, Down, Failed(operation)}
      ensures Decides(old(fates), 1, progress) && fates == Later(old(fates), 1) && (SomeCrash(fates) ==> SomeCrash(old(fates)))
      ensures progress.Failed? <==> FateAt(old(fates), 0).Fail?
    {
      var fate := NextFate();
      SomeCrashFirst(old(fates));
      progress := match fate
        case Succeed => Done
        case Fail(_) => Failed(operation)
        case Crash(_) => Down;
    }

    /** Writes all bytes to an open temporary file, or a prefix of them. */
    method WriteTemporary(name: Name, bytes: string) returns (progress: Progress)
      modifies `fates, `disk
      ensures progress in {Done, Down, Failed(WriteAll)}
      ensures name in disk.temporaries
      ensures disk == old(disk).(temporaries := old(disk).temporaries[name := disk.temporaries[name]])
      ensures progress == Done ==> disk == old(disk).(temporaries := old(disk).temporaries[name := bytes])
      ensures Decides(old(fates), 1, progress) && fates == Later(old(fates), 1) && (SomeCrash(fates) ==> SomeCrash(old(fates)))
    {
      var fate := NextFate();
      SomeCrashFirst(old(fates));
      match fate {
        case Succeed =>
          disk := disk.(temporaries := disk.temporaries[name := bytes]);
          progress := Done;
        case Fail(written) =>
          disk := disk.(temporaries := disk.temporaries[name := bytes[..Min(written, |bytes|)]]);
          progress := Failed(WriteAll);
        case Crash(written) =>
          disk := disk.(temporaries := disk.temporaries[name := bytes[..Min(written, |bytes|)]]);
          progress := Down;
      }
    }

    /** The next operation, if everything before it succeeded. */
    method Then(operation: Operation, before: Progress, ghost start: seq<Fate>, ghost k: nat) returns (progress: Progress)
      requires Decides(start, k, before) && (before.Done? ==> fates == Later(start, k))
      modifies `fates
      ensures Decides(start, k + 1, progress) && (progress.Done? ==> fates == Later(start, k + 1))
      ensures SomeCrash(fates) ==> SomeCrash(old(fates))
      ensures if before.Done? then progress in {Done, Down, Failed(operation)} else progress == before
    {
      if before.Done? {
        progress := Attempt(operation);
        LaterFates(start, k, 1);
        if progress.Down? {
          LaterCrash(start, k);
        }
      } else {
        progress := before;
      }
      DecidesInTurn(start, k, before, 1, progress);
    }

    /** Fills, syncs, and renames an open temporary file. */
    method FillAndRename(name: Name, bytes: string) returns (progress: Progress)
      requires name in disk.temporaries
      modifies `fates, `disk
      ensures !progress.Done? ==> disk.Files() == old(disk).Files() && disk.temporaries.Keys == old(disk).temporaries.Keys
      ensures progress.Failed? ==> progress.operation in {WriteAll, FlushFile, SyncFile, Operation.Rename}
      ensures progress.Done? ==> disk == old(disk).(temporaries := old(disk).temporaries[name := bytes]).Rename(name)
      ensures Decides(old(fates), 4, progress) && (progress.Done? ==> fates == Later(old(fates), 4))
      ensures SomeCrash(fates) ==> SomeCrash(old(fates))
    {
      progress := WriteTemporary(name, bytes);
      progress := Then(FlushFile, progress, old(fates), 1);
      progress := Then(SyncFile, progress, old(fates), 2);
      progress := Then(Operation.Rename, progress, old(fates), 3);
      if progress.Done? {
        disk := disk.Rename(name);
      }
    }

    /** Opens a temporary file under the first free name, fills it, and renames it; a broken one is removed again. */
    method AtomicWrite(target: Target, bytes: string) returns (progress: Progress)
      modifies `fates, `disk
      ensures progress.Done? ==>
        && disk.temporaries == old(disk).temporaries
        && disk.Files() == match target
           case PrimaryFile => (Text(bytes), old(disk).backup, old(disk).primaries + {Text(bytes)}, old(disk).backups)
           case BackupFile => (old(disk).primary, Text(bytes), old(disk).primaries, old(disk).backups + {Text(bytes)})
      ensures !progress.Done? ==> disk.Files() == old(disk).Files()
      ensures progress.Failed? ==> progress.operation != SyncDirectory
      ensures progress == Failed(NamesExhausted) ==> !old(disk).NameFree(target)
      ensures old(disk).NameFree(target) ==> Decides(old(fates), old(disk).WriteOps(target), progress)
      ensures progress.Done? ==> old(disk).NameFree(target) && fates == Later(old(fates), old(disk).WriteOps(target))
      ensures progress.Down? ==> SomeCrash(old(fates))
    {
      for attempt := 0 to TEMPORARY_NAMES
        invariant disk == old(disk)
        invariant forall i :: 0 <= i < attempt ==> Name(target, i) in disk.temporaries
        invariant AllSucceed(old(fates), attempt) && fates == Later(old(fates), attempt)
      {
        var name := Name(target, attempt);
        progress := Then(OpenTemporary, Done, old(fates), attempt);
        if !progress.Done? {
          DecidesLonger(old(fates), attempt + 1, disk.WriteOps(target), progress);
          return;
        }
        if name !in disk.temporaries {
          assert FirstFree(disk.temporaries, target, 0) == attempt;
          disk := disk.(temporaries := disk.temporaries[name := ""]);
          progress := FillAndRename(name, bytes);
          if progress.Failed? {
            var removed := Attempt(RemoveTemporary);
            match removed {
              case Done => disk := disk.(temporaries := disk.temporaries - {name});
              case Failed(_) =>
              case Down => progress := Down;
            }
          }
          if progress.Down? {
            LaterCrash(old(fates), attempt + 1);
          }
          DecidesInTurn(old(fates), attempt + 1, Done, 4, progress);
          LaterFates(old(fates), attempt + 1, 4);
          return;
        }
      }
      progress := Failed(NamesExhausted);
    }

    /** An atomic write after `k` operations that succeeded. */
    method NextWrite(target: Target, bytes: string, ghost start: seq<Fate>, ghost k: nat) returns (progress: Progress)
      requires AllSucceed(start, k) && fates == Later(start, k)
      modifies `fates, `disk
      ensures progress.Done? ==>
        && disk.temporaries == old(disk).temporaries
        && disk.Files() == match target
           case PrimaryFile => (Text(bytes), old(disk).backup, old(disk).primaries + {Text(bytes)}, old(disk).backups)
           case BackupFile => (old(disk).primary, Text(bytes), old(disk).primaries, old(disk).backups + {Text(bytes)})
      ensures !progress.Done? ==> disk.Files() == old(disk).Files()
      ensures progress.Failed? ==> progress.operation != SyncDirectory
      ensures old(disk).NameFree(target) ==> Decides(start, k + old(disk).WriteOps(target), progress)
      ensures progress.Done? ==> old(disk).NameFree(target) && fates == Later(start, k + old(disk).WriteOps(target))
      ensures progress.Down? ==> SomeCrash(start)
    {
      progress := AtomicWrite(target, bytes);
      if progress.Down? {
        LaterCrash(start, k);
      }
      LaterFates(start, k, old(disk).WriteOps(target));
      if old(disk).NameFree(target) {
        DecidesInTurn(start, k, Done, old(disk).WriteOps(target), progress);
      }
    }

    /** Makes the directory and writes the recovery copy. */
    method ReplaceBackup(ghost candidate: Config, ghost checked: bool, backup: string, ghost read: bool)
      returns (progress: Progress)
      requires backup == BackupText(codec, disk.primary, codec.render(candidate), read)
      modifies `fates, `disk
      ensures progress.Done? ==>
        && disk.temporaries == old(disk).temporaries && old(disk).NameFree(BackupFile)
        && disk.Files() == (old(disk).primary, Text(backup), old(disk).primaries, old(disk).backups + {Text(backup)})
        && AllSucceed(old(fates), 1 + old(disk).WriteOps(BackupFile))
        && fates == Later(old(fates), 1 + old(disk).WriteOps(BackupFile))
      ensures !progress.Done? ==>
        && disk.Files() == old(disk).Files() && progress != Failed(SyncDirectory)
        && FatesDecide(codec, old(disk), candidate, checked, read, old(fates), Ended(progress), disk)
    {
      hide Decides, AllSucceed, FatesDecide, SomeCrash, BackupText;
      ghost var d, start := disk, fates;
      progress := Attempt(CreateDirectory);
      if !progress.Done? {
        EndsBeforeBackup(codec, d, candidate, checked, read, start, 1, progress, disk);
        return;
      }
      DoneMeansSuccess(start, 1, progress);
      progress := NextWrite(BackupFile, backup, start, 1);
      if progress.Done? {
        DoneMeansSuccess(start, 1 + d.WriteOps(BackupFile), progress);
      } else {
        EndsBeforeBackup(codec, d, candidate, checked, read, start, 1 + d.WriteOps(BackupFile), progress, disk);
      }
    }

    /** Writes the authoritative file and syncs the directory. */
    method ReplacePrimary(
        ghost candidate: Config, ghost checked: bool, ghost read: bool, canonical: string, ghost d: Disk, ghost start: seq<Fate>)
      returns (progress: Progress)
      requires disk.temporaries == d.temporaries && d.NameFree(BackupFile) && canonical == codec.render(candidate)
      requires
        var backup := Text(BackupText(codec, d.primary, canonical, read));
        disk.backup == backup && disk.backups == d.backups + {backup}
      requires AllSucceed(start, 1 + d.WriteOps(BackupFile)) && fates == Later(start, 1 + d.WriteOps(BackupFile))
      modifies `fates, `disk
      ensures FatesDecide(codec, d, candidate, checked, read, start, Ended(progress), disk)
      ensures progress.Done? ==>
        && disk.Synced() && disk.temporaries == old(disk).temporaries
        && disk.primary == Text(canonical) && disk.backup == old(disk).backup
      ensures !progress.Done? ==> disk.backup == old(disk).backup && disk.backups == old(disk).backups
      ensures progress.Failed? ==>
        if progress.operation == SyncDirectory then
          disk.primary == Text(canonical) && disk.primaries == old(disk).primaries + {Text(canonical)}
        else disk.Files() == old(disk).Files()
      ensures progress.Down? ==>
        || disk.Files() == old(disk).Files()
        || (disk.primary == Text(canonical) && disk.primaries == old(disk).primaries + {Text(canonical)})
    {
      hide Decides, AllSucceed, FatesDecide, SomeCrash, BackupText;
      progress := NextWrite(PrimaryFile, canonical, start, 1 + d.WriteOps(BackupFile));
      if !progress.Done? {
        EndsBeforePrimary(codec, d, candidate, checked, read, start, progress, disk);
        return;
      }
      DoneMeansSuccess(start, d.SaveOps() - 1, progress);
      progress := Attempt(SyncDirectory);
      if progress.Done? {
        disk := disk.Sync();
      }
      EndsAtSync(codec, d, candidate, checked, read, start, progress, disk);
    }

    /** The whole save; `checked` and `read` are the outcomes of its two reads of the primary. */
    method Save(candidate: Config, checked: bool, read: bool) returns (result: SaveResult)
      modifies `fates, `disk
      ensures SaveOutcome(codec, old(disk), candidate, checked, read, old(fates), result, disk)
    {
      var valid := Validate(candidate);
      if valid.Err? {
        return Refused(Validation(valid.error));
      }
      if checked && Newer(codec, disk.primary) {
        return Refused(Decode(codec, disk.primary.text).error);
      }
      hide FatesDecide, AllSucceed, BackupText, Newer, Validate;
      var canonical := codec.render(candidate);
      var backup := BackupText(codec, disk.primary, canonical, read);
      var progress := ReplaceBackup(candidate, checked, backup, read);
      if progress.Done? {
        progress := ReplacePrimary(candidate, checked, read, canonical, old(disk), old(fates));
      }
      result := Ended(progress);
    }
  }

  lemma DoneMeansSuccess(fates: seq<Fate>, k: nat, progress: Progress)
    requires Decides(fates, k, progress) && progress.Done?
    ensures AllSucceed(fates, k)
  {
  }

  /** A save that ends before its backup is renamed. */
  lemma EndsBeforeBackup(
    codec: Codec, d: Disk, candidate: Config, checked: bool, read: bool, fates: seq<Fate>, k: nat, progress: Progress,
    after: Disk)
    requires !progress.Done? && progress != Failed(SyncDirectory) && k <= 1 + d.WriteOps(BackupFile)
    requires progress.Down? ==> SomeCrash(fates)
    requires d.NameFree(BackupFile) ==> Decides(fates, k, progress)
    requires after.backup == d.backup && after.backups == d.backups
    ensures FatesDecide(codec, d, candidate, checked, read, fates, Ended(progress), after)
  {
    if d.NameFree(BackupFile) {
      DecidesLonger(fates, k, 1 + d.WriteOps(BackupFile), progress);
      DecidesLonger(fates, k, d.SaveOps() - 1, progress);
      DecidesLonger(fates, k, d.SaveOps(), progress);
    }
  }

  /** A save that ends between the two renames. */
  lemma EndsBeforePrimary(
    codec: Codec, d: Disk, candidate: Config, checked: bool, read: bool, fates: seq<Fate>, progress: Progress, after: Disk)
    requires !progress.Done? && progress != Failed(SyncDirectory)
    requires progress.Down? ==> SomeCrash(fates)
    requires d.NameFree(BackupFile) && AllSucceed(fates, 1 + d.WriteOps(BackupFile))
    requires d.NameFree(PrimaryFile) ==> Decides(fates, d.SaveOps() - 1, progress)
    requires
      var backup := Text(BackupText(codec, d.primary, codec.render(candidate), read));
      after.backup == backup && after.backups == d.backups + {backup}
    ensures FatesDecide(codec, d, candidate, checked, read, fates, Ended(progress), after)
  {
    if d.NameFree(PrimaryFile) {
      DecidesLonger(fates, d.SaveOps() - 1, d.SaveOps(), progress);
    }
  }

  /** A save that gets as far as the directory sync. */
  lemma EndsAtSync(
    codec: Codec, d: Disk, candidate: Config, checked: bool, read: bool, fates: seq<Fate>, progress: Progress, after: Disk)
    requires d.NameFree(BackupFile) && d.NameFree(PrimaryFile) && AllSucceed(fates, d.SaveOps() - 1)
    requires Decides(Later(fates, d.SaveOps() - 1), 1, progress) && progress in {Done, Down, Failed(SyncDirectory)}
    requires progress.Failed? <==> FateAt(Later(fates, d.SaveOps() - 1), 0).Fail?
    requires
      var backup := Text(BackupText(codec, d.primary, codec.render(candidate), read));
      !progress.Done? ==> after.backup == backup && after.backups == d.backups + {backup}
    ensures FatesDecide(codec, d, candidate, checked, read, fates, Ended(progress), after)
  {
    var last := d.SaveOps() - 1;
    LaterFates(fates, last, 0);
    if progress.Down? {
      LaterCrash(fates, last);
    }
    DecidesInTurn(fates, last, Done, 1, progress);
  }

  function Ended(progress: Progress): SaveResult {
    match progress
    case Done => Saved
    case Failed(operation) => Refused(Io(operation))
    case Down => Crashed
  }

  /** A history of one pair of files: saves that end somehow, and restarts that find one of the possible contents. */
  datatype Event =
    | Save(candidate: Config, checked: bool, read: bool, result: SaveResult)
    | Restart(primary: Content, backup: Content)

  ghost predicate EventStep(codec: Codec, d: Disk, e: Event, after: Disk) {
    match e
    case Save(candidate, checked, read, result) => SaveStep(codec, d, candidate, checked, read, result, after)
    case Restart(p, b) => p in d.primaries && b in d.backups && after.Files() == (p, b, {p}, {b})
  }

  ghost predicate History(codec: Codec, disks: seq<Disk>, events: seq<Event>) {
    |disks| == |events| + 1 && forall i :: 0 <= i < |events| ==> EventStep(codec, disks[i], events[i], disks[i + 1])
  }

  function Candidates(events: seq<Event>): set<Config> {
    if events == [] then {}
    else
      Candidates(events[..|events| - 1]) + match events[|events| - 1] case Save(c, _, _, _) => {c} case Restart(_, _) => {}
  }

  /** A readable content that decodes to a known configuration. */
  predicate Known(codec: Codec, known: set<Config>, content: Content) {
    content.Text? && Decode(codec, content.text).Ok? && Decode(codec, content.text).value in known
  }

  /** Every content a crash may leave is the initial one or decodes to a known configuration. */
  ghost predicate AllKnown(codec: Codec, start: Disk, known: set<Config>, d: Disk) {
    && d.Valid()
    && (forall p :: p in d.primaries ==> p == start.primary || Known(codec, known, p))
    && (forall b :: b in d.backups ==> b == start.backup || Known(codec, known, b))
  }

  /** What a readable synced disk loads as. */
  function Loads(codec: Codec, d: Disk): Config
    requires !d.primary.Unreadable?
  {
    Load(codec, d.primary, d.backup).value.config
  }

  lemma SaveKeepsKnown(codec: Codec, start: Disk, known: set<Config>, d: Disk, e: Event, after: Disk)
    requires e.Save? && RoundTrips(codec, {e.candidate}) && !start.primary.Unreadable? && Loads(codec, start) in known
    requires AllKnown(codec, start, known, d) && EventStep(codec, d, e, after)
    ensures AllKnown(codec, start, known + {e.candidate}, after)
  {
    var canonical := codec.render(e.candidate);
    if Validate(e.candidate).Ok? {
      assert Known(codec, known + {e.candidate}, Text(canonical));
      var backup := Text(BackupText(codec, d.primary, canonical, e.read));
      assert Known(codec, known + {e.candidate}, backup);
    }
  }

  lemma {:induction false} HistoryKeepsKnown(codec: Codec, disks: seq<Disk>, events: seq<Event>)
    requires RoundTrips(codec, Candidates(events)) && History(codec, disks, events)
    requires disks[0].Synced() && !disks[0].primary.Unreadable?
    ensures AllKnown(codec, disks[0], {Loads(codec, disks[0])} + Candidates(events), disks[|events|])
  {
    if events != [] {
      var n := |events| - 1;
      HistoryKeepsKnown(codec, disks[..n + 1], events[..n]);
      var known := {Loads(codec, disks[0])} + Candidates(events[..n]);
      assert EventStep(codec, disks[n], events[n], disks[n + 1]);
      if events[n].Save? {
        SaveKeepsKnown(codec, disks[0], known, disks[n], events[n], disks[n + 1]);
        assert known + {events[n].candidate} == {Loads(codec, disks[0])} + Candidates(events);
      } else {
        assert known == {Loads(codec, disks[0])} + Candidates(events);
      }
    }
  }

  /**
   * Crash safety over whole histories: from any readable synced pair of files, after any saves that succeeded, failed,
   * or were cut short anywhere, and whichever unsynced renames a crash loses, loading yields the configuration it
   * yielded at the start or one of the candidates.
   */
  lemma CrashSafety(codec: Codec, disks: seq<Disk>, events: seq<Event>, p: Content, b: Content)
    requires RoundTrips(codec, Candidates(events)) && History(codec, disks, events)
    requires disks[0].Synced() && !disks[0].primary.Unreadable?
    requires p in disks[|events|].primaries && b in disks[|events|].backups
    ensures Load(codec, p, b).Ok?
    ensures Load(codec, p, b).value.config in {Loads(codec, disks[0])} + Candidates(events)
  {
    HistoryKeepsKnown(codec, disks, events);
  }

  /** One save: before or candidate, at every crash point. */
  lemma OneSaveIsAtomic(
    codec: Codec, d: Disk, candidate: Config, checked: bool, read: bool, result: SaveResult, after: Disk, p: Content, b: Content)
    requires RoundTrips(codec, {candidate}) && d.Synced() && !d.primary.Unreadable?
    requires SaveStep(codec, d, candidate, checked, read, result, after)
    requires p in after.primaries && b in after.backups
    ensures Load(codec, p, b).Ok?
    ensures Load(codec, p, b).value.config == Loads(codec, d) || Load(codec, p, b).value.config == candidate
  {
    var e := Event.Save(candidate, checked, read, result);
    SaveKeepsKnown(codec, d, {Loads(codec, d)}, d, e, after);
  }

  /** An acknowledged save survives every crash. */
  lemma SavedIsDurable(
    codec: Codec, d: Disk, candidate: Config, checked: bool, read: bool, after: Disk, p: Content, b: Content)
    requires RoundTrips(codec, {candidate}) && SaveStep(codec, d, candidate, checked, read, Saved, after)
    requires p in after.primaries && b in after.backups
    ensures Load(codec, p, b) == Ok(LoadOutcome(candidate, Primary, true))
  {
  }

  /** Nothing stops the save before its last operation, the directory sync, and that one fails. */
  predicate OnlySyncFails(codec: Codec, d: Disk, candidate: Config, checked: bool, fates: seq<Fate>) {
    && Validate(candidate).Ok? && !(checked && Newer(codec, d.primary))
    && d.NameFree(BackupFile) && d.NameFree(PrimaryFile)
    && AllSucceed(fates, d.SaveOps() - 1) && FateAt(fates, d.SaveOps() - 1).Fail?
  }

  /**
   * When a refused save has replaced the primary: exactly if everything succeeded except the directory sync at the very
   * end. Any other refused save leaves the primary alone; where it already held the candidate, both look the same.
   */
  lemma RefusedButRenamedIff(
    codec: Codec, d: Disk, candidate: Config, checked: bool, read: bool, fates: seq<Fate>, result: SaveResult, after: Disk)
    requires SaveOutcome(codec, d, candidate, checked, read, fates, result, after)
    ensures
      result.Refused? && after.primary != d.primary <==>
      OnlySyncFails(codec, d, candidate, checked, fates) && d.primary != Text(codec.render(candidate))
    ensures OnlySyncFails(codec, d, candidate, checked, fates) ==>
      result.Refused? && after.primary == Text(codec.render(candidate)) && after.primaries == d.primaries + {after.primary}
  {
    hide AllSucceed, FateAt;
  }

  predicate Undecodable(codec: Codec, primary: Content) {
    primary.Text? && Decode(codec, primary.text).Err? && !Newer(codec, primary)
  }

  /**
   * What a refused save that renamed no primary changes for the next load: nothing, unless the primary was broken and
   * the operations up to the rename of the backup succeeded. Then the refused candidate is what gets loaded.
   */
  lemma RefusedCandidateLoadsIff(
    codec: Codec, d: Disk, candidate: Config, checked: bool, read: bool, fates: seq<Fate>, error: ConfigError, after: Disk)
    requires RoundTrips(codec, {candidate}) && Validate(candidate).Ok? && error != Io(SyncDirectory)
    requires SaveOutcome(codec, d, candidate, checked, read, fates, Refused(error), after)
    ensures Load(codec, after.primary, after.backup) ==
      if Undecodable(codec, d.primary) && BackupRenamed(d, fates)
      then Ok(LoadOutcome(candidate, Backup, true))
      else Load(codec, d.primary, d.backup)
  {
    hide AllSucceed;
  }

  /** A concrete such save: the backup is written, and then no temporary file for the primary can be opened. */
  lemma RefusedCandidateComesBack(codec: Codec, rot: string, candidate: Config, d: Disk, result: SaveResult, after: Disk)
    requires RoundTrips(codec, {candidate}) && Validate(candidate).Ok? && Undecodable(codec, Text(rot))
    requires d == Disk(Text(rot), Absent, {Text(rot)}, {Absent}, map[])
    requires SaveOutcome(codec, d, candidate, true, true, seq(6, _ => Succeed) + [Fail(0)], result, after)
    ensures result.Refused?
    ensures Load(codec, d.primary, d.backup) == Ok(LoadOutcome(DEFAULT_CONFIG, SafeDefaults, true))
    ensures Load(codec, after.primary, after.backup) == Ok(LoadOutcome(candidate, Backup, true))
  {
    var fates := seq(6, _ => Succeed) + [Fail(0)];
    assert d.WriteOps(BackupFile) == 5 && d.SaveOps() == 12;
    assert AllSucceed(fates, 6) && !FateAt(fates, 6).Succeed? && !AllSucceed(fates, 11) && !SomeCrash(fates);
    RefusedCandidateLoadsIff(codec, d, candidate, true, true, fates, result.error, after);
  }

  /** What an acknowledged save leaves as the backup: the previous file if it was read and decodes, else the new one. */
  lemma BackupHolds(codec: Codec, d: Disk, candidate: Config, checked: bool, read: bool, after: Disk)
    requires RoundTrips(codec, {candidate}) && SaveStep(codec, d, candidate, checked, read, Saved, after)
    ensures after.backup.Text? && Decode(codec, after.backup.text).Ok?
    ensures
      if read && d.primary.Text? && Decode(codec, d.primary.text).Ok? then after.backup == d.primary
      else Decode(codec, after.backup.text) == Ok(candidate)
  {
  }

  /** After a second acknowledged save, a primary that rots into something undecodable gives back the first candidate. */
  lemma BackupRecoversPrevious(
    codec: Codec, d: Disk, first: Config, d': Disk, second: Config, d'': Disk, checked: bool, checked': bool,
    read: bool, rot: string)
    requires RoundTrips(codec, {first})
    requires SaveStep(codec, d, first, checked, read, Saved, d') && SaveStep(codec, d', second, checked', true, Saved, d'')
    requires Decode(codec, rot).Err? && !Newer(codec, Text(rot))
    ensures Load(codec, Text(rot), d''.backup) == Ok(LoadOutcome(first, Backup, true))
  {
  }

  /**
   * As long as every save reads the file it checks, no history of saves, failures, and restarts changes a newer file or
   * its backup; each save is refused.
   */
  lemma {:induction false} NewerIsPreserved(codec: Codec, disks: seq<Disk>, events: seq<Event>)
    requires History(codec, disks, events) && disks[0].Synced() && Newer(codec, disks[0].primary)
    requires forall i :: 0 <= i < |events| && events[i].Save? ==> events[i].checked
    ensures disks[|events|].Files() == disks[0].Files()
    ensures forall i :: 0 <= i < |events| && events[i].Save? ==> events[i].result.Refused?
  {
    if events != [] {
      var n := |events| - 1;
      NewerIsPreserved(codec, disks[..n + 1], events[..n]);
      assert EventStep(codec, disks[n], events[n], disks[n + 1]);
      assert disks[..n + 1][n] == disks[n];
    }
  }

  /** An undisturbed save of a valid candidate replaces a newer file exactly if its schema check could not read it. */
  lemma NewerIsReplacedIff(
    codec: Codec, d: Disk, candidate: Config, checked: bool, read: bool, fates: seq<Fate>, result: SaveResult, after: Disk)
    requires RoundTrips(codec, {candidate}) && Newer(codec, d.primary) && Validate(candidate).Ok?
    requires SaveOutcome(codec, d, candidate, checked, read, fates, result, after)
    requires d.NameFree(BackupFile) && d.NameFree(PrimaryFile) && AllSucceed(fates, d.SaveOps())
    ensures Newer(codec, after.primary) <==> checked
    ensures !checked ==> Load(codec, after.primary, after.backup) == Ok(LoadOutcome(candidate, Primary, true))
  {
    hide AllSucceed;
  }
}
