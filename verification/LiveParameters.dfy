/**
 * The parameter hand-over in the program's own form: the control's update and the callback's read. Other threads run
 * before every access; a ghost trace ties each call to a run of the seqlock machine.
 */
module LiveParameters {
  import opened Prelude
  import opened Samples
  import opened Strength
  import S = Seqlock

  /** A step of a thread other than control thread `id`; without an `id`, of a thread other than the callback. */
  predicate ByOthers(step: S.Step, id: Option<nat>) {
    match step
    case Enter(other, _) => Some(other) != id
    case Store(other) => Some(other) != id
    case Leave(other) => Some(other) != id
    case _ => id.Some?
  }

  /** Every step of every burst is one of another thread. */
  ghost predicate Foreign(bursts: seq<seq<S.Step>>, id: Option<nat>) {
    forall i, j :: 0 <= i < |bursts| && 0 <= j < |bursts[i]| ==> ByOthers(bursts[i][j], id)
  }

  /** What control threads leave alone. */
  ghost predicate ReaderUntouched(s: S.State, s': S.State) {
    s'.reader == s.reader && s'.adoptedEpoch == s.adoptedEpoch && s'.adopted == s.adopted && s'.ramp == s.ramp
  }

  predicate OwnUntouched(s: S.State, s': S.State, id: nat) {
    (id in s'.writers <==> id in s.writers) && (id in s.writers ==> s'.writers[id] == s.writers[id])
  }

  /** The other threads only read: the callback loads, its ramp moves. */
  ghost predicate OnlyReads(bursts: seq<seq<S.Step>>) {
    forall i, j :: 0 <= i < |bursts| && 0 <= j < |bursts[i]| ==> bursts[i][j].Load? || bursts[i][j].Tick?
  }

  /** What reading threads leave alone. */
  ghost predicate UpdatesUntouched(s: S.State, s': S.State) {
    s'.epoch == s.epoch && s'.shared == s.shared && s'.writers == s.writers && s'.completed == s.completed
  }

  lemma Append(trace: seq<S.Step>, step: S.Step)
    ensures S.Run(trace + [step]) == S.Next(S.Run(trace), step)
  {
    assert (trace + [step])[..|trace|] == trace;
  }

  lemma OthersStep(s: S.State, step: S.Step, id: nat)
    requires ByOthers(step, Some(id))
    ensures OwnUntouched(s, S.Next(s, step), id)
    ensures step.Load? || step.Tick? ==> UpdatesUntouched(s, S.Next(s, step))
  {
  }

  lemma RetargetedHeads(r: Ramp, target: real)
    requires 0.0 <= target <= 1.0
    ensures Retargeted(r, Finite(target), 0).target == target
  {
  }

  /** A handle of one control thread. */
  class LiveControl {
    const id: nat
    var shared: S.State
    var bursts: seq<seq<S.Step>>
    ghost var trace: seq<S.Step>

    ghost predicate Valid()
      reads this
    {
      S.Run(trace) == shared && Foreign(bursts, Some(id))
    }

    constructor (id: nat)
      ensures Valid() && this.id == id && trace == [] && bursts == []
    {
      this.id := id;
      shared, bursts, trace := S.START, [], [];
    }

    method Interfere()
      requires Valid()
      modifies `shared, `bursts, `trace
      ensures Valid() && old(trace) <= trace && OwnUntouched(old(shared), shared, id)
      ensures OnlyReads(old(bursts)) ==> OnlyReads(bursts) && UpdatesUntouched(old(shared), shared)
    {
      if bursts == [] {
        return;
      }
      var burst := bursts[0];
      bursts := bursts[1..];
      for i := 0 to |burst|
        invariant Valid() && old(trace) <= trace && bursts == old(bursts)[1..]
        invariant OwnUntouched(old(shared), shared, id)
        invariant OnlyReads(old(bursts)) ==> UpdatesUntouched(old(shared), shared)
      {
        assert ByOthers(old(bursts)[0][i], Some(id));
        Append(trace, burst[i]);
        OthersStep(shared, burst[i], id);
        shared := S.Next(shared, burst[i]);
        trace := trace + [burst[i]];
      }
    }

    /** Advances the ghost run over the access this thread is making. */
    ghost method Access(step: S.Step)
      requires Valid()
      modifies `trace
      ensures S.Run(trace) == S.Next(shared, step) && old(trace) <= trace
    {
      Append(trace, step);
      trace := trace + [step];
    }

    /**
     * Epoch up, one parameter stored, epoch up. Unless another thread updates in between, exactly the requested change
     * has become the latest completed one, however the callback reads meanwhile.
     */
    method Update(update: S.Update, others: seq<seq<S.Step>>)
      requires Valid() && id !in shared.writers && Foreign(others, Some(id))
      modifies this
      ensures Valid() && id !in shared.writers && old(trace) <= trace
      ensures shared.completed != [] && S.Latest(shared) == shared.shared
      ensures OnlyReads(others) ==>
        && shared.shared == S.Stored(old(shared.shared), update)
        && shared.completed == old(shared.completed) + [shared.shared]
        && shared.epoch == S.Bumped(S.Bumped(old(shared.epoch)))
    {
      bursts := others;
      Interfere();
      Access(S.Enter(id, update));
      shared := shared.(epoch := S.Bumped(shared.epoch), writers := shared.writers[id := S.Writer(update, false)]);
      Interfere();
      Access(S.Store(id));
      shared := shared.(shared := S.Stored(shared.shared, update), writers := shared.writers[id := S.Writer(update, true)]);
      Interfere();
      Access(S.Leave(id));
      shared := shared.(epoch := S.Bumped(shared.epoch), writers := shared.writers - {id},
        completed := shared.completed + [shared.shared]);
    }
  }

  /** The capture callback's private copy of the parameters. */
  class ParameterReader {
    const strength: StrengthRamp
    var epoch: nat
    var failOpen: bool
    /** The atomics, as the control threads leave them. */
    var shared: S.State
    var bursts: seq<seq<S.Step>>
    ghost var trace: seq<S.Step>

    ghost predicate Valid()
      reads this, strength
    {
      && S.Run(trace) == shared && Foreign(bursts, None)
      && shared.adoptedEpoch == epoch && shared.adopted.failOpen == failOpen
      && shared.ramp == strength.Value() && OnTrack(strength.Value())
    }

    constructor ()
      ensures Valid() && fresh(strength) && trace == [] && bursts == [] && shared.reader.Resting?
    {
      strength := new StrengthRamp(Finite(1.0));
      epoch, failOpen := 0, false;
      shared, bursts, trace := S.START, [], [];
    }

    method Interfere()
      requires Valid()
      modifies `shared, `bursts, `trace
      ensures Valid() && old(trace) <= trace && ReaderUntouched(old(shared), shared)
      ensures old(bursts) == [] ==> bursts == [] && shared == old(shared)
    {
      if bursts == [] {
        return;
      }
      var burst := bursts[0];
      bursts := bursts[1..];
      for i := 0 to |burst|
        invariant Valid() && old(trace) <= trace && bursts == old(bursts)[1..] && ReaderUntouched(old(shared), shared)
      {
        assert ByOthers(old(bursts)[0][i], None);
        Append(trace, burst[i]);
        shared := S.Next(shared, burst[i]);
        trace := trace + [burst[i]];
      }
    }

    /** Advances the ghost run over one load. */
    ghost method Access()
      requires S.Run(trace) == shared
      modifies `trace
      ensures S.Run(trace) == S.ReaderNext(shared) && old(trace) <= trace
    {
      Append(trace, S.Load);
      trace := trace + [S.Load];
    }

    /** The three parameter loads between the two epoch loads. */
    method ReadAll(first: nat) returns (read: S.Parameters)
      requires Valid() && shared.reader == S.HasFirst(first)
      modifies `shared, `bursts, `trace
      ensures Valid() && old(trace) <= trace && shared.reader == S.HasAll(first, read)
      ensures shared.adoptedEpoch == old(shared.adoptedEpoch)
      ensures old(bursts) == [] ==> bursts == [] && read == old(shared.shared) && shared == old(shared).(reader := shared.reader)
    {
      Interfere();
      var wet := shared.shared.strength;
      Access();
      shared := shared.(reader := S.HasStrength(first, wet));
      Interfere();
      var enabled := shared.shared.enabled;
      Access();
      shared := shared.(reader := S.HasEnabled(first, wet, enabled));
      Interfere();
      read := S.Parameters(wet, enabled, shared.shared.failOpen);
      Access();
      shared := shared.(reader := S.HasAll(first, read));
    }

    /** Takes over what was read, and retargets the ramp if the effective strength changed. */
    method Adopt(second: nat, read: S.Parameters)
      requires Valid() && shared.reader == S.HasAll(second, read) && shared.epoch == second
      requires 0.0 <= read.strength <= 1.0
      modifies this, strength
      ensures Valid() && old(trace) <= trace && shared.reader.Resting?
      ensures epoch == second == shared.epoch && shared.adopted == read && failOpen == read.failOpen
      ensures strength.Value().target == if read.enabled then read.strength else 0.0
    {
      hide Retargeted, OnTrack, S.Run;
      Access();
      epoch := second;
      failOpen := read.failOpen;
      var target := if read.enabled then read.strength else 0.0;
      if target != strength.target {
        RetargetedHeads(strength.Value(), target);
        strength.SetTarget(Finite(target), 0);
      }
      shared := S.Adopt(shared, second, read);
    }

    /**
     * Reads without waiting, and adopts only what two equal even epochs enclose. Undisturbed, it adopts the current
     * parameters unless it already has them or an update is in progress.
     */
    method LoadParameters(others: seq<seq<S.Step>>)
      requires Valid() && shared.reader.Resting? && Foreign(others, None)
      modifies this, strength
      ensures Valid() && shared.reader.Resting? && old(trace) <= trace
      ensures epoch != old(epoch) ==>
        && epoch % 2 == 0 && epoch == shared.epoch && failOpen == shared.adopted.failOpen
        && strength.Value().target == if shared.adopted.enabled then shared.adopted.strength else 0.0
      ensures others == [] && old(shared.epoch) % 2 == 0 && old(shared.epoch) != old(epoch) ==>
        && epoch == old(shared.epoch) && shared.adopted == old(shared.shared) && failOpen == old(shared.shared).failOpen
        && strength.Value().target == if old(shared.shared).enabled then old(shared.shared).strength else 0.0
      ensures others == [] && (old(shared.epoch) % 2 != 0 || old(shared.epoch) == old(epoch)) ==> shared == old(shared)
    {
      hide Retargeted, OnTrack, S.Run, S.Effective;
      bursts := others;
      Interfere();
      var first := shared.epoch;
      Access();
      if first == epoch || first % 2 != 0 {
        return;
      }
      shared := shared.(reader := S.HasFirst(first));
      var read := ReadAll(first);
      Interfere();
      var second := shared.epoch;
      if first == second {
        ReadStrengthIsUnit(trace);
        Adopt(second, read);
      } else {
        Access();
        shared := shared.(reader := S.Resting);
      }
    }
  }

  /** Whatever the interleaving, every strength ever stored or read is in the unit interval. */
  lemma {:induction false} ReadStrengthIsUnit(trace: seq<S.Step>)
    ensures
      var s := S.Run(trace);
      && 0.0 <= s.shared.strength <= 1.0
      && (s.reader.HasStrength? || s.reader.HasEnabled? ==> 0.0 <= s.reader.strength <= 1.0)
      && (s.reader.HasAll? ==> 0.0 <= s.reader.read.strength <= 1.0)
  {
    if trace != [] {
      ReadStrengthIsUnit(trace[..|trace| - 1]);
    }
  }
}
