/** The live path of a capture callback as one object that works in place, proved equal to the pure steps of `LiveStream`. */
module LiveSinks {
  import opened Samples
  import opened Framing
  import opened DryDelayLine
  import opened Strength
  import opened LiveStream

  class LiveCaptureSink {
    const env: Surroundings
    const assembler: FrameAssembler
    const dryDelay: DryDelay
    const strength: StrengthRamp
    const dry: array<Pcm>
    const mixed: array<Pcm>
    const callbackScratch: array<Sample>
    var failMode: FailMode
    var failed: bool
    var state: LiveState
    var modelCalls: nat
    /** The recurrent state of the model: every frame it was handed since its reset. */
    var seen: seq<Frame>
    /** Every block handed to the processed ring. */
    var offers: seq<Frame>

    ghost predicate Valid()
      reads this, assembler, dryDelay, strength
    {
      && assembler.Valid() && dryDelay.Valid() && OnTrack(strength.Value())
      && dryDelay.storage.Length == env.delay
      && dry.Length == mixed.Length == MODEL_FRAME_SAMPLES
      && callbackScratch.Length == MAX_CALLBACK_FRAMES
      && dry != mixed && dry != dryDelay.storage && mixed != dryDelay.storage
      && assembler.storage != dry && assembler.storage != mixed && assembler.storage != dryDelay.storage
    }

    ghost function Value(): Sink
      requires Valid()
      reads this, assembler, assembler.storage, dryDelay, dryDelay.storage, strength
    {
      Sink(assembler.Pending(), dryDelay.History(), strength.Value(), failMode, failed, state, seen, modelCalls, offers)
    }

    constructor (env: Surroundings)
      requires env.delay <= MAX_DRY_DELAY_SAMPLES
      ensures Valid() && Value() == Fresh(env) && this.env == env
      ensures fresh(assembler) && fresh(assembler.storage) && fresh(dryDelay) && fresh(dryDelay.storage)
      ensures fresh(strength) && fresh(dry) && fresh(mixed) && fresh(callbackScratch)
    {
      this.env := env;
      assembler := new FrameAssembler();
      dryDelay := new DryDelay(env.delay);
      strength := new StrengthRamp(Finite(1.0));
      dry := new Pcm[MODEL_FRAME_SAMPLES](_ => 0.0);
      mixed := new Pcm[MODEL_FRAME_SAMPLES](_ => 0.0);
      callbackScratch := new Sample[MAX_CALLBACK_FRAMES](_ => Finite(0.0));
      failMode, failed, state := Closed, false, Running;
      modelCalls, seen, offers := 0, [], [];
    }

    method WriteProcessed(block: Frame) returns (accepted: bool)
      modifies `offers
      ensures offers == old(offers) + [block] && accepted == env.accepts(|old(offers)|)
    {
      accepted := env.accepts(|offers|);
      offers := offers + [block];
    }

    /** Mixes one frame at the ramp's next 512 strengths. */
    method MixInto(dryFrame: Frame, wetFrame: Frame)
      requires mixed.Length == MODEL_FRAME_SAMPLES && OnTrack(strength.Value())
      modifies strength, mixed
      ensures mixed[..] == MixedFrame(dryFrame, wetFrame, old(strength.Value()))
      ensures strength.Value() == AdvancedBy(old(strength.Value()), MODEL_FRAME_SAMPLES)
      ensures OnTrack(strength.Value())
    {
      var report := MixReport(NO_REPLACEMENTS, 0);
      ghost var ramp := strength.Value();
      for i := 0 to MODEL_FRAME_SAMPLES
        invariant strength.Value() == AdvancedBy(ramp, i) && OnTrack(strength.Value())
        invariant mixed[..i] == MixedFrame(dryFrame, wetFrame, ramp)[..i]
      {
        var s := strength.Next();
        var sample;
        sample, report := Mix(Finite(dryFrame[i]), Finite(wetFrame[i]), Finite(s), report);
        mixed[i] := sample;
      }
      assert mixed[..MODEL_FRAME_SAMPLES] == mixed[..];
    }

    /** The dry path always runs: it is what keeps the latency when the model does not. */
    method DelayFrame(frame: Frame) returns (dryFrame: Frame)
      requires Valid()
      modifies dryDelay, dryDelay.storage, dry
      ensures Valid() && assembler.Pending() == old(assembler.Pending())
      ensures dryFrame == DryOf(old(Value()), frame)
      ensures Value() == old(Value()).(line := Held(old(Value()).line, frame))
    {
      var result := dryDelay.Process(Raw(frame), dry);
      CleanIsIdempotent(frame, NO_REPLACEMENTS);
      assert result.Ok?;
      dryFrame := dry[..];
    }

    /** Mixes and publishes one frame; a refused block latches the failure. */
    method PublishMix(dryFrame: Frame, wetFrame: Frame)
      requires Valid() && !failed
      modifies this, strength, mixed
      ensures Valid() && assembler.Pending() == old(assembler.Pending())
      ensures
        var s := old(Value());
        var accepted := env.accepts(|s.offers|);
        Value() == s.(ramp := AdvancedBy(s.ramp, MODEL_FRAME_SAMPLES),
                      offers := s.offers + [MixedFrame(dryFrame, wetFrame, s.ramp)],
                      failed := !accepted,
                      state := if accepted then s.state else TransportFailed)
    {
      hide MixedFrame, OnTrack;
      MixInto(dryFrame, wetFrame);
      var accepted := WriteProcessed(mixed[..]);
      if !accepted {
        failed := true;
        state := TransportFailed;
      }
    }

    /** Runs the model on the frame, and latches the failure if it or the transport fails. */
    method RunModel(frame: Frame, dryFrame: Frame)
      requires Valid() && !failed
      modifies this, strength, mixed
      ensures Valid() && assembler.Pending() == old(assembler.Pending())
      ensures
        var s := old(Value());
        var calls := s.modelCalls + 1;
        var called := s.(modelCalls := calls, seen := s.seen + [frame],
                         state := if env.degrades(calls) then DegradedPerformance else s.state);
        match env.model(called.seen)
        case None => Value() == Fallback(called.(failed := true, state := ModelFailed), dryFrame)
        case Some(wet) =>
          var accepted := env.accepts(|s.offers|);
          Value() == called.(ramp := AdvancedBy(s.ramp, MODEL_FRAME_SAMPLES),
                             offers := s.offers + [MixedFrame(dryFrame, wet, s.ramp)],
                             failed := !accepted,
                             state := if accepted then called.state else TransportFailed)
    {
      hide Steered;
      hide MixedFrame, OnTrack;
      modelCalls := modelCalls + 1;
      seen := seen + [frame];
      if env.degrades(modelCalls) {
        state := DegradedPerformance;
      }
      var result := env.model(seen);
      match result {
        case None =>
          failed := true;
          state := ModelFailed;
          PublishFallback(dryFrame);
        case Some(wetFrame) =>
          PublishMix(dryFrame, wetFrame);
      }
    }

    /** One exact frame: delay it, run the model unless failure is latched, mix, and publish. */
    method ProcessFrame(frame: Frame)
      requires Valid()
      modifies this, dryDelay, dryDelay.storage, strength, dry, mixed
      ensures Valid() && assembler.Pending() == old(assembler.Pending())
      ensures Value() == FrameStep(env, old(Value()), frame)
    {
      var dryFrame := DelayFrame(frame);
      if failed {
        PublishFallback(dryFrame);
      } else {
        RunModel(frame, dryFrame);
      }
    }

    method PublishFallback(dryFrame: Frame)
      modifies `offers
      ensures offers == if failMode.Open? then old(offers) + [dryFrame] else old(offers)
    {
      if failMode.Open? {
        var _ := WriteProcessed(dryFrame);
      }
    }

    method LoadParameters(loaded: Loaded)
      requires OnTrack(strength.Value())
      modifies `failMode, strength
      ensures OnTrack(strength.Value())
      ensures failMode == Policy(old(failMode), loaded) && strength.Value() == Steered(old(strength.Value()), loaded)
    {
      if loaded.Adopted? {
        failMode := loaded.failMode;
        if loaded.target != strength.target {
          strength.SetTarget(Finite(loaded.target), 0);
        }
      }
    }

    /** Copies the callback and sanitizes the copy in place. */
    method CopySanitized(samples: seq<Sample>)
      requires |samples| <= callbackScratch.Length
      modifies callbackScratch
      ensures callbackScratch[..|samples|] == Raw(CleanAll(samples))
    {
      for i := 0 to |samples|
        invariant callbackScratch[..i] == samples[..i]
      {
        callbackScratch[i] := samples[i];
      }
      for i := 0 to |samples|
        invariant callbackScratch[..i] == Raw(CleanAll(samples))[..i]
        invariant callbackScratch[i..|samples|] == samples[i..]
      {
        assert callbackScratch[i] == callbackScratch[i..|samples|][0] == samples[i];
        callbackScratch[i] := Finite(Clean(callbackScratch[i]));
        assert callbackScratch[i + 1..|samples|] == samples[i..][1..];
      }
    }

    /** One capture callback of at most 4096 samples. */
    method Write(samples: seq<Sample>, loaded: Loaded)
      requires Valid() && |samples| <= MAX_CALLBACK_FRAMES
      modifies this, assembler, assembler.storage, dryDelay, dryDelay.storage, strength, dry, mixed, callbackScratch
      ensures Valid()
      ensures Value() == WriteStep(env, old(Value()), samples, loaded)
    {
      hide FrameStep, Steered;
      ghost var before := Value();
      LoadParameters(loaded);
      CopySanitized(samples);
      var input := callbackScratch[..|samples|];
      CleanIsIdempotent(CleanAll(samples), NO_REPLACEMENTS);
      var _, frames := assembler.Push(input);
      ghost var applied := Applied(before, loaded);
      ghost var carry := assembler.Pending();
      assert frames == Complete(before, CleanAll(samples));
      assert Value() == applied.(pending := carry);
      for i := 0 to |frames|
        invariant Valid() && assembler.Pending() == carry
        invariant Value() == FrameSteps(env, applied.(pending := carry), frames[..i])
      {
        ProcessFrame(frames[i]);
        assert frames[..i + 1][..i] == frames[..i];
      }
      assert frames[..|frames|] == frames;
      StepsIgnorePending(env, applied, frames, carry);
    }

    method ClearBuffers()
      requires dry.Length == mixed.Length == MODEL_FRAME_SAMPLES && callbackScratch.Length == MAX_CALLBACK_FRAMES
      modifies dry, mixed, callbackScratch
      ensures dry[..] == mixed[..] == Zeros(MODEL_FRAME_SAMPLES)
      ensures callbackScratch[..] == Raw(Zeros(MAX_CALLBACK_FRAMES))
    {
      forall i | 0 <= i < MODEL_FRAME_SAMPLES {
        dry[i] := 0.0;
      }
      forall i | 0 <= i < MODEL_FRAME_SAMPLES {
        mixed[i] := 0.0;
      }
      forall i | 0 <= i < MAX_CALLBACK_FRAMES {
        callbackScratch[i] := Finite(0.0);
      }
      assert dry[..] == Zeros(MODEL_FRAME_SAMPLES);
      assert mixed[..] == Zeros(MODEL_FRAME_SAMPLES);
    }

    /** A new input generation starts from clean signal state. */
    method Reset()
      requires Valid()
      modifies this, assembler, assembler.storage, dryDelay, dryDelay.storage, dry, mixed, callbackScratch
      ensures Valid()
      ensures Value() == ResetStep(env, old(Value()))
      ensures Cleared(env, Value()) && state.Running?
      ensures strength.Value() == old(strength.Value()) && failMode == old(failMode) && offers == old(offers)
    {
      seen := [];
      assembler.Reset();
      dryDelay.Reset();
      ClearBuffers();
      failed := false;
      state := Running;
    }
  }
}
