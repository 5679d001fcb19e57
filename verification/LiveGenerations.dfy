/** The live path behind the capture callback: generations are advanced by anyone, and never meet in the sink. */
module LiveGenerations {
  import opened Samples
  import opened Framing
  import opened DryDelayLine
  import opened LiveStream
  import C = Capture

  /** What a call on the sink does, with the parameters that are read on the way. */
  function Heard(call: C.SinkCall, loaded: Loaded): LiveStream.Event {
    match call
    case ResetCall(_) => Reset
    case WriteCall(_, samples) => Write(samples, loaded)
  }

  /** The sink after a log of calls; `loads` are its parameter reads. */
  function Fed(env: Surroundings, loads: nat -> Loaded, calls: seq<C.SinkCall>): Sink {
    if calls == [] then Fresh(env)
    else
      var n := |calls| - 1;
      EventStep(env, Fed(env, loads, calls[..n]), Heard(calls[n], loads(n)))
  }

  /** Model, assembler and delay line know these samples and no others. */
  ghost predicate KnowsOnly(env: Surroundings, now: Sink, samples: seq<Pcm>) {
    var frames := Frames(MODEL_FRAME_SAMPLES, samples);
    && now.seen <= frames && (!now.failed ==> now.seen == frames)
    && now.pending == Rest(MODEL_FRAME_SAMPLES, samples)
    && now.line == Held(Zeros(env.delay), Flatten(frames))
  }

  lemma {:induction false} FramesAreSeen(env: Surroundings, s: Sink, frames: seq<Frame>)
    ensures
      var now := FrameSteps(env, s, frames);
      && s.seen <= now.seen <= s.seen + frames && (s.failed ==> now.failed && now.seen == s.seen)
      && (!now.failed ==> now.seen == s.seen + frames)
      && now.line == Held(s.line, Flatten(frames))
  {
    if frames == [] {
      assert s.line + [] == s.line;
    } else {
      var n := |frames| - 1;
      FramesAreSeen(env, s, frames[..n]);
      FlattenLast<Pcm>(frames);
      DelayIsChunkFree(s.line, Flatten(frames[..n]), frames[n]);
      assert s.seen + frames == (s.seen + frames[..n]) + [frames[n]];
    }
  }

  lemma WriteKnows(env: Surroundings, before: Sink, known: seq<Pcm>, samples: seq<Sample>, loaded: Loaded)
    requires KnowsOnly(env, before, known)
    ensures KnowsOnly(env, EventStep(env, before, Write(samples, loaded)), known + CleanAll(samples))
  {
    var input := CleanAll(samples);
    var more := Frames(MODEL_FRAME_SAMPLES, before.pending + input);
    FramesAppend(MODEL_FRAME_SAMPLES, known, input);
    FramesAreSeen(env, Applied(before, loaded), more);
    var earlier := Frames(MODEL_FRAME_SAMPLES, known);
    FlattenAppend(earlier, more);
    DelayIsChunkFree(Zeros(env.delay), Flatten(earlier), Flatten(more));
  }

  lemma NothingKnown(env: Surroundings, s: Sink)
    ensures KnowsOnly(env, EventStep(env, s, Reset), []) && KnowsOnly(env, Fresh(env), [])
  {
    assert Zeros(env.delay) + [] == Zeros(env.delay);
  }

  lemma FedOneMore(env: Surroundings, loads: nat -> Loaded, calls: seq<C.SinkCall>, call: C.SinkCall)
    ensures Fed(env, loads, calls + [call]) == EventStep(env, Fed(env, loads, calls), Heard(call, loads(|calls|)))
  {
    assert (calls + [call])[..|calls|] == calls;
  }

  /** One callback: a new generation starts from nothing, and what it delivers is added. */
  lemma CallbackKnows(
    env: Surroundings, loads: nat -> Loaded, decode: C.Decoder, s: C.State, e: C.Event)
    requires e.Callback? && s.generation <= s.command && C.Separated(s.calls, s.generation)
    requires KnowsOnly(env, Fed(env, loads, s.calls), C.Accepted(s.calls, s.generation))
    ensures
      var s' := C.Step(decode, s, e);
      KnowsOnly(env, Fed(env, loads, s'.calls), C.Accepted(s'.calls, s'.generation))
  {
    hide KnowsOnly, EventStep, C.Delivered;
    var delivered := C.Delivered(decode, e.mapped, e.metadata);
    C.CallbackAccepts(decode, s, e.mapped, e.metadata, s.command);
    var mid := s.calls + C.ResetCalls(s.generation, s.command);
    if s.command == s.generation {
      assert mid == s.calls;
    } else {
      FedOneMore(env, loads, s.calls, C.ResetCall(s.command));
      NothingKnown(env, Fed(env, loads, s.calls));
    }
    var known := C.Accepted(s.calls, s.command);
    assert KnowsOnly(env, Fed(env, loads, mid), known);
    if delivered.Ok? && delivered.value != [] {
      var samples := Raw(CleanAll(delivered.value));
      CleanIsIdempotent(CleanAll(delivered.value), NO_REPLACEMENTS);
      FedOneMore(env, loads, mid, C.WriteCall(s.command, samples));
      WriteKnows(env, Fed(env, loads, mid), known, samples, loads(|mid|));
    } else {
      assert mid + [] == mid;
      assert delivered.Ok? ==> known + CleanAll(delivered.value) == known;
    }
  }

  /**
   * In every interleaving of advances and callbacks, for every model and ring, the sink knows exactly what the callbacks
   * of the current generation delivered: the model has seen its complete frames, the rest waits, and the delay line has
   * been fed nothing else. Whatever was captured before the generation changed is gone from all three.
   */
  lemma SinkKnowsOneGeneration(env: Surroundings, loads: nat -> Loaded, decode: C.Decoder, events: seq<C.Event>)
    ensures
      var s := C.Run(decode, events);
      KnowsOnly(env, Fed(env, loads, s.calls), C.Collected(decode, events, s.generation))
  {
    KnowsAccepted(env, loads, decode, events);
    C.AcceptedIsCollected(decode, events, C.Run(decode, events).generation);
  }

  lemma {:induction false} KnowsAccepted(env: Surroundings, loads: nat -> Loaded, decode: C.Decoder, events: seq<C.Event>)
    ensures
      var s := C.Run(decode, events);
      KnowsOnly(env, Fed(env, loads, s.calls), C.Accepted(s.calls, s.generation))
  {
    hide KnowsOnly, C.Separated;
    if events == [] {
      NothingKnown(env, Fresh(env));
    } else {
      var n := |events| - 1;
      KnowsAccepted(env, loads, decode, events[..n]);
      C.RunSeparates(decode, events[..n]);
      C.AdvancesCount(decode, events[..n]);
      if events[n].Callback? {
        CallbackKnows(env, loads, decode, C.Run(decode, events[..n]), events[n]);
      }
    }
  }
}
