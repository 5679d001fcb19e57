/**
 * The source callback's half of the ring, in the program's own form. Every atomic access is preceded by an arbitrary
 * burst of steps of the other threads; a ghost trace ties each call to a run of the ring machine, so everything
 * proved about all runs holds of the object.
 */
module BypassOutputs {
  import opened Prelude
  import opened Samples
  import opened FaultRamps
  import opened RingMachine
  import opened RingTheorems

  datatype BypassOutputError = QuantumTooLarge

  datatype BypassOutputReport = BypassOutputReport(frames: nat, missingFrames: nat, startup: bool, rampState: RampState)

  class BypassOutput {
    const channel: Channel
    const ramp: FaultRamp
    const scratch: array<Pcm>
    var generation: nat
    var startupReady: bool
    var leadingSilencePending: bool

    /** The shared atomics and the ring, as other threads leave them between two accesses. */
    var world: World
    /** What the other threads do before each of the next accesses. */
    var bursts: seq<seq<EnvStep>>

    ghost var consumer: Consumer
    ghost var trace: seq<Step>

    ghost predicate Valid()
      reads this, ramp
    {
      && scratch.Length == MAX_CALLBACK_FRAMES
      && ramp.gains == channel.gains
      && Reach(channel, trace) == Machine(world, consumer)
      && consumer.current == generation
      && consumer.ready == startupReady
      && consumer.leading == leadingSilencePending
      && consumer.fade == ramp.Value()
    }

    constructor (channel: Channel)
      ensures Valid() && fresh(ramp) && fresh(scratch)
      ensures this.channel == channel && trace == [] && consumer.pc.Idle?
    {
      this.channel := channel;
      ramp := new FaultRamp(channel.gains);
      scratch := new Pcm[MAX_CALLBACK_FRAMES](_ => 0.0);
      generation := 1;
      startupReady := false;
      leadingSilencePending := channel.emptyWhileBuffering;
      world := Start(channel).world;
      bursts := [];
      consumer := Start(channel).consumer;
      trace := [];
      new;
      ramp.ResetSilent();
    }

    /** Other threads run before the next access. */
    method Interfere()
      requires Valid()
      modifies `world, `bursts, `trace
      ensures Valid() && Only(old(trace), trace)
      ensures |bursts| == if |old(bursts)| == 0 then 0 else |old(bursts)| - 1
      ensures |old(bursts)| == 0 ==> world == old(world)
      ensures world.popped == old(world.popped) && old(world.pushed) <= world.pushed
      ensures world.generation >= old(world.generation)
    {
      hide EnvNext, Reach;
      if bursts == [] {
        return;
      }
      var burst := bursts[0];
      bursts := bursts[1..];
      for i := 0 to |burst|
        invariant Valid() && Only(old(trace), trace) && bursts == old(bursts)[1..]
        invariant world.popped == old(world.popped) && old(world.pushed) <= world.pushed
        invariant world.generation >= old(world.generation)
      {
        Disturb(old(trace), burst[i]);
        EnvNeverPops(world, burst[i]);
        world := EnvNext(world, burst[i]);
      }
    }

    /** Advances the ghost machine over the access the caller is making. */
    ghost method Access(from: seq<Step>)
      requires Reach(channel, trace) == Machine(world, consumer) && Only(from, trace)
      modifies `consumer, `trace
      ensures Reach(channel, trace) == ConsumerNext(channel, old(Machine(world, consumer)))
      ensures consumer == ConsumerNext(channel, old(Machine(world, consumer))).consumer
      ensures Only(from, trace)
    {
      Extend(channel, trace, Consume);
      consumer := ConsumerNext(channel, Machine(world, consumer)).consumer;
      trace := trace + [Consume];
    }

    /** Advances the ghost machine over a step of another thread. */
    ghost method Disturb(from: seq<Step>, e: EnvStep)
      requires Reach(channel, trace) == Machine(world, consumer) && Only(from, trace)
      modifies `trace
      ensures Reach(channel, trace) == Machine(EnvNext(world, e), consumer)
      ensures Only(from, trace)
    {
      Extend(channel, trace, Env(e));
      trace := trace + [Env(e)];
    }

    /** Adopting a newer generation ends the session and silences the ramp; an unchanged one changes nothing. */
    method SynchronizeGeneration(ghost n: nat)
      requires Valid() && consumer.pc == AtSync(n)
      modifies this, ramp, scratch
      ensures Valid() && consumer.pc == AtPeek(n) && Only(old(trace), trace)
      ensures generation == world.generation >= old(world.generation)
      ensures generation != old(generation) ==>
        && !startupReady && leadingSilencePending == channel.emptyWhileBuffering
        && ramp.Value() == SILENCE && scratch[..] == Zeros(scratch.Length)
      ensures generation == old(generation) ==>
        && startupReady == old(startupReady) && leadingSilencePending == old(leadingSilencePending)
        && ramp.Value() == old(ramp.Value())
    {
      Interfere();
      var requested := world.generation;
      Access(old(trace));
      if requested != generation {
        generation := requested;
        startupReady := false;
        leadingSilencePending := channel.emptyWhileBuffering;
        ramp.ResetSilent();
        forall i | 0 <= i < scratch.Length {
          scratch[i] := 0.0;
        }
        assert scratch[..] == Zeros(scratch.Length);
      }
    }

    /** `peek` on the consumer half. */
    method PeekIsStale(ghost n: nat) returns (stale: bool)
      requires Valid() && consumer.pc == AtPeek(n)
      modifies `world, `bursts, `trace, `consumer
      ensures Valid() && Only(old(trace), trace)
      ensures consumer.pc == if stale then AtStale(n) else AtSlots(n)
      ensures stale <==> world.HasHead() && world.Head().tag != generation
      ensures world.popped == old(world.popped) && old(world.pushed) <= world.pushed
      ensures |bursts| <= |old(bursts)| && (|bursts| == |old(bursts)| ==> world == old(world))
    {
      Interfere();
      stale := world.HasHead() && world.Head().tag != generation;
      Access(old(trace));
    }

    /** `pop` of a head that was just seen to be stale. */
    method DropStale(ghost n: nat)
      requires Valid() && consumer.pc == AtStale(n) && world.HasHead()
      modifies `world, `bursts, `trace, `consumer
      ensures Valid() && Only(old(trace), trace)
      ensures consumer.pc == AtPeek(n)
      ensures world.popped == old(world.popped) + 1 && old(world.pushed) <= world.pushed
      ensures |bursts| < |old(bursts)| || (|bursts| == |old(bursts)| && world == old(world).Pop())
    {
      Interfere();
      Access(old(trace));
      world := world.Pop();
    }

    /** Afterwards the head is of this generation or the ring is empty, and only superseded samples were dropped. */
    method DiscardStalePrefix(ghost n: nat)
      requires Valid() && consumer.pc == AtPeek(n)
      modifies `world, `bursts, `trace, `consumer
      ensures Valid() && consumer.pc == AtSlots(n) && Only(old(trace), trace)
      ensures world.HasHead() ==> world.Head().tag == generation
      ensures old(world.popped) <= world.popped
      ensures old(world.pushed) <= world.pushed && DroppedStale(world, old(world.popped), generation)
    {
      var stale := PeekIsStale(n);
      while stale
        invariant Valid() && Only(old(trace), trace)
        invariant consumer.pc == if stale then AtStale(n) else AtSlots(n)
        invariant stale <==> world.HasHead() && world.Head().tag != generation
        invariant old(world.popped) <= world.popped
        invariant old(world.pushed) <= world.pushed && DroppedStale(world, old(world.popped), generation)
        decreases |bursts|, if stale then world.Occupancy() + 1 else 0
      {
        ghost var before := trace;
        DropStale(n);
        OnlyComposes(old(trace), before, trace);
        before := trace;
        stale := PeekIsStale(n);
        OnlyComposes(old(trace), before, trace);
      }
    }

    /** The startup rule: enough samples for a model frame and the configured quanta, once per session. */
    method CheckStartup(n: nat) returns (startup: Startup)
      requires Valid() && consumer.pc == AtSlots(n)
      modifies `world, `bursts, `trace, `consumer, `startupReady, `leadingSilencePending, ramp
      ensures Valid() && Only(old(trace), trace)
      ensures consumer.pc == if startup.Deliver? then AtPop(n, []) else Idle
      ensures startup.Buffering? <==> !startupReady
      ensures startup.LeadingSilence? ==> channel.emptyWhileBuffering
      ensures startup.Deliver? ==>
        ramp.Value() == if old(startupReady) then old(ramp.Value()) else BeginRecovery(old(ramp.Value()))
    {
      Interfere();
      Access(old(trace));
      if !startupReady && world.Occupancy() < Required(channel, n) {
        return Buffering;
      }
      if !startupReady {
        startupReady := true;
        ramp.StartRecovery();
      }
      if channel.emptyWhileBuffering && leadingSilencePending {
        leadingSilencePending := false;
        startup := LeadingSilence;
      } else {
        startup := Deliver;
      }
    }

    /** One `pop` into the scratch buffer; false if the ring was empty or the sample superseded. */
    method PopInto(n: nat, i: nat) returns (accepted: bool)
      requires Valid() && consumer.pc.AtPop? && consumer.pc.n == n && |consumer.pc.scratch| == i < n <= MAX_CALLBACK_FRAMES
      requires scratch[..i] == Values(consumer.pc.scratch)
      modifies `world, `bursts, `trace, `consumer, scratch
      ensures Valid() && Only(old(trace), trace)
      ensures accepted ==>
        && consumer.pc.AtPop? && consumer.pc.n == n && |consumer.pc.scratch| == i + 1
        && scratch[..i + 1] == Values(consumer.pc.scratch)
      ensures !accepted ==> consumer.pc == AtUnderflow(n)
    {
      Interfere();
      Access(old(trace));
      if !world.HasHead() {
        return false;
      }
      var sample := world.Head();
      world := world.Pop();
      accepted := sample.tag == generation;
      if accepted {
        scratch[i] := sample.value;
      }
    }

    method PopAll(n: nat) returns (complete: bool)
      requires Valid() && consumer.pc == AtPop(n, []) && n <= MAX_CALLBACK_FRAMES
      modifies `world, `bursts, `trace, `consumer, scratch
      ensures Valid() && Only(old(trace), trace)
      ensures complete ==>
        consumer.pc.AtPop? && consumer.pc.n == n == |consumer.pc.scratch| && scratch[..n] == Values(consumer.pc.scratch)
      ensures !complete ==> consumer.pc == AtUnderflow(n) && n > 0
    {
      var i := 0;
      while i < n
        invariant Valid() && Only(old(trace), trace) && i <= n
        invariant consumer.pc.AtPop? && consumer.pc.n == n && |consumer.pc.scratch| == i
        invariant scratch[..i] == Values(consumer.pc.scratch)
      {
        ghost var before := trace;
        var accepted := PopInto(n, i);
        OnlyComposes(old(trace), before, trace);
        if !accepted {
          return false;
        }
        i := i + 1;
      }
      complete := true;
    }

    /** Renders a complete callback. */
    method Publish(output: array<Pcm>) returns (report: FaultRampReport)
      requires Valid() && output.Length <= MAX_CALLBACK_FRAMES && output != scratch
      requires consumer.pc.AtPop? && consumer.pc.n == output.Length == |consumer.pc.scratch|
      requires scratch[..output.Length] == Values(consumer.pc.scratch)
      modifies `trace, `consumer, ramp, output
      ensures Valid() && Only(old(trace), trace) && consumer.pc.Idle?
      ensures report.missingSamples == 0 && report.state == ramp.state
      ensures consumer.heard == old(consumer.heard) + output[..]
      ensures consumer.session == old(consumer.session) + old(consumer.pc.scratch)
    {
      var result := ramp.Process(Some(Raw(scratch[..output.Length])), output);
      report := result.value;
      Access(old(trace));
    }

    /** Fades out and asks for a fresh generation. */
    method Starve(output: array<Pcm>) returns (report: FaultRampReport)
      requires Valid() && output.Length <= MAX_CALLBACK_FRAMES && output != scratch
      requires consumer.pc == AtUnderflow(output.Length)
      modifies `world, `bursts, `trace, `consumer, `startupReady, `leadingSilencePending, ramp, output
      ensures Valid() && Only(old(trace), trace) && consumer.pc.Idle?
      ensures report.missingSamples == output.Length && report.state == ramp.state
      ensures !startupReady
      ensures output[..] == FaultFade(old(ramp.Value()), output.Length, channel.gains)
      ensures generation == old(generation)
    {
      Interfere();
      Access(old(trace));
      world := world.Bump();
      startupReady := false;
      leadingSilencePending := channel.emptyWhileBuffering;
      var result := ramp.Process(None, output);
      report := result.value;
    }

    /** The fill proper, once the request is known to fit. */
    method FillBounded(output: array<Pcm>) returns (report: BypassOutputReport)
      requires Valid() && consumer.pc == AtSync(output.Length)
      requires output != scratch && output.Length <= MAX_CALLBACK_FRAMES
      modifies this, ramp, scratch, output
      ensures Valid() && consumer.pc.Idle? && Only(old(trace), trace)
      ensures report.startup ==>
        && output[..] == Zeros(output.Length) && report.missingFrames == 0
        && report.frames == (if channel.emptyWhileBuffering && !startupReady then 0 else output.Length)
      ensures !report.startup ==> report.frames == output.Length
      ensures !report.startup && report.missingFrames == 0 ==> startupReady && EndsWith(consumer.heard, output[..])
      ensures report.missingFrames > 0 ==> report.missingFrames == output.Length && !startupReady
      ensures report.missingFrames > 0 ==>
        output[..] == FaultFade(FadeOrigin(generation == old(generation), old(startupReady), old(ramp.Value())),
          output.Length, channel.gains)
      ensures report.rampState == ramp.state
    {
      SynchronizeGeneration(output.Length);
      ghost var before := trace;
      DiscardStalePrefix(output.Length);
      OnlyComposes(old(trace), before, trace);
      before := trace;
      var startup := CheckStartup(output.Length);
      OnlyComposes(old(trace), before, trace);
      if !startup.Deliver? {
        Mute(output);
        var published := if startup.Buffering? && channel.emptyWhileBuffering then 0 else output.Length;
        return BypassOutputReport(published, 0, true, ramp.state);
      }
      before := trace;
      var complete := PopAll(output.Length);
      OnlyComposes(old(trace), before, trace);
      before := trace;
      var rendered;
      if complete {
        rendered := Publish(output);
      } else {
        rendered := Starve(output);
      }
      OnlyComposes(old(trace), before, trace);
      report := BypassOutputReport(output.Length, rendered.missingSamples, false, rendered.state);
    }

    /** Advances the ghost machine over the start of a callback. */
    ghost method BeginFill(n: nat)
      requires Valid() && consumer.pc.Idle?
      modifies `consumer, `trace
      ensures trace == old(trace) + [CallFill(n)]
      ensures Reach(channel, trace) == Machine(world, consumer)
      ensures n <= MAX_CALLBACK_FRAMES ==> Valid() && consumer.pc == AtSync(n)
      ensures n > MAX_CALLBACK_FRAMES ==> consumer == old(consumer).Silenced()
    {
      Extend(channel, trace, CallFill(n));
      consumer := Next(channel, Machine(world, consumer), CallFill(n)).consumer;
      trace := trace + [CallFill(n)];
    }

    /** One source callback: the session's next samples, a fault fade, or silence. */
    method Fill(output: array<Pcm>, others: seq<seq<EnvStep>>) returns (result: Result<BypassOutputReport, BypassOutputError>)
      requires Valid() && consumer.pc.Idle? && output != scratch
      modifies this, ramp, scratch, output
      ensures Valid() && consumer.pc.Idle?
      ensures Only(old(trace) + [CallFill(output.Length)], trace)
      ensures result.Err? <==> output.Length > MAX_CALLBACK_FRAMES
      ensures result.Err? ==> output[..] == Zeros(output.Length) && world == old(world) && consumer == old(consumer).Silenced()
      ensures result.Ok? ==>
        var report := result.value;
        && (report.startup ==>
              && output[..] == Zeros(output.Length) && report.missingFrames == 0
              && report.frames == (if channel.emptyWhileBuffering && !startupReady then 0 else output.Length))
        && (!report.startup ==> report.frames == output.Length)
        && (!report.startup && report.missingFrames == 0 ==> startupReady && EndsWith(consumer.heard, output[..]))
        && (report.missingFrames > 0 ==>
              && report.missingFrames == output.Length && !startupReady
              && output[..] == FaultFade(FadeOrigin(generation == old(generation), old(startupReady), old(ramp.Value())),
                                         output.Length, channel.gains))
        && report.rampState == ramp.state
    {
      bursts := others;
      BeginFill(output.Length);
      if output.Length > MAX_CALLBACK_FRAMES {
        Mute(output);
        ramp.ResetSilent();
        return Err(BypassOutputError.QuantumTooLarge);
      }
      var report := FillBounded(output);
      result := Ok(report);
    }

    method Mute(output: array<Pcm>)
      modifies output
      ensures output[..] == Zeros(output.Length)
    {
      forall i | 0 <= i < output.Length {
        output[i] := 0.0;
      }
    }

    /** Pops until the ring is found empty, then forgets everything audible. */
    method DiscardPendingSensitive(ghost clearing: bool)
      requires Valid() && consumer.pc == AtDrain(clearing)
      modifies this, ramp, scratch
      ensures Valid() && Only(old(trace), trace)
      ensures consumer.pc == if clearing then AtReload else Idle
      ensures Forgotten() && !world.HasHead()
      ensures generation == old(generation) && world.generation >= old(world.generation)
    {
      Interfere();
      while world.HasHead()
        invariant Valid() && Only(old(trace), trace) && consumer.pc == AtDrain(clearing)
        invariant generation == old(generation) && world.generation >= old(world.generation)
        decreases |bursts|, world.Occupancy()
      {
        Access(old(trace));
        world := world.Pop();
        ghost var before := trace;
        Interfere();
        OnlyComposes(old(trace), before, trace);
      }
      Access(old(trace));
      Mute(scratch);
      startupReady := false;
      leadingSilencePending := channel.emptyWhileBuffering;
      ramp.ResetSilent();
    }

    /** No queued-up, rendered, or ramp-held audio is left in the consumer. */
    predicate Forgotten()
      reads this, ramp, scratch
    {
      !startupReady && ramp.Value() == SILENCE && scratch[..] == Zeros(scratch.Length)
    }

    /** Adopts the generation the clear requested, or a later one. */
    method Reload()
      requires Valid() && consumer.pc.AtReload?
      modifies `world, `bursts, `trace, `consumer, `generation
      ensures Valid() && Only(old(trace), trace) && consumer.pc.Idle?
      ensures generation >= old(world.generation)
    {
      Interfere();
      Access(old(trace));
      generation := world.generation;
    }

    method ClearSensitive()
      requires Valid() && consumer.pc.AtClear?
      modifies this, ramp, scratch
      ensures Valid() && Only(old(trace), trace) && consumer.pc.Idle?
      ensures Forgotten()
      ensures generation > old(world.generation)
    {
      Interfere();
      Access(old(trace));
      world := world.Bump();
      ghost var before := trace;
      DiscardPendingSensitive(true);
      OnlyComposes(old(trace), before, trace);
      before := trace;
      Reload();
      OnlyComposes(old(trace), before, trace);
    }

    /** `apply_audio_command`: takes whatever was scheduled and obeys it before the next buffer is filled. */
    method ApplyAudioCommand(others: seq<seq<EnvStep>>)
      requires Valid() && consumer.pc.Idle?
      modifies this, ramp, scratch
      ensures Valid() && consumer.pc.Idle?
      ensures Only(old(trace) + [CallCommandCheck], trace)
      ensures old(world.command).NoCommand? ==> consumer == old(consumer) && world == old(world)
      ensures old(world.command).Discard? ==> Forgotten() && generation == old(generation)
      ensures old(world.command).Clear? ==> Forgotten() && generation > old(world.generation)
    {
      bursts := others;
      var command := world.command;
      Extend(channel, trace, CallCommandCheck);
      ghost var next := Next(channel, Machine(world, consumer), CallCommandCheck);
      world := world.(command := NoCommand);
      consumer := next.consumer;
      trace := trace + [CallCommandCheck];
      match command {
        case NoCommand =>
        case Discard => DiscardPendingSensitive(false);
        case Clear => ClearSensitive();
      }
    }
  }

  /** Every entry popped since position `from` is of another generation. */
  ghost predicate DroppedStale(w: World, from: nat, generation: nat) {
    forall i :: from <= i < w.popped && i < |w.pushed| ==> w.pushed[i].tag != generation
  }

  /** The ramp a fault fade starts from: as it was in a running session, or in the recovery of a startup just completed. */
  function FadeOrigin(sameGeneration: bool, ready: bool, f: Fade): Fade {
    if !sameGeneration then BeginRecovery(SILENCE) else if ready then f else BeginRecovery(f)
  }

  /** What a starving callback of `n` samples publishes with the ramp at `f`. */
  function FaultFade(f: Fade, n: nat, g: Gains): seq<Pcm> {
    RenderedAll(BeginFault(f), HeldInput(f, n), g)
  }

  ghost predicate EndsWith(s: seq<Pcm>, tail: seq<Pcm>) {
    |tail| <= |s| && s[|s| - |tail|..] == tail
  }

  /** How a fill starts: still buffering, one callback of leading silence, or delivery. */
  datatype Startup = Buffering | LeadingSilence | Deliver

  /** A call adds steps of its own fill and of other threads, nothing else. */
  ghost predicate Only(before: seq<Step>, after: seq<Step>) {
    before <= after && OneFill(after[|before|..])
  }

  lemma EnvNeverPops(w: World, e: EnvStep)
    ensures EnvNext(w, e).popped == w.popped && w.pushed <= EnvNext(w, e).pushed && w.generation <= EnvNext(w, e).generation
  {
  }

  lemma OnlyComposes(a: seq<Step>, b: seq<Step>, c: seq<Step>)
    requires Only(a, b) && Only(b, c)
    ensures Only(a, c)
  {
    assert c[|a|..] == b[|a|..] + c[|b|..];
  }
}
