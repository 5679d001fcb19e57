/** The offline runner: 480-sample framing, a frame model with a declared delay, and delay-compensated output. */
module Offline {
  import opened Prelude
  import opened Samples
  import opened Framing

  const RNNOISE_FRAME_SAMPLES: nat := 480

  type RnnoiseFrame = f: seq<real> | |f| == RNNOISE_FRAME_SAMPLES witness seq(RNNOISE_FRAME_SAMPLES, _ => 0.0)

  /** A deterministic frame model: the output for the last of all frames fed so far, or a failure. */
  type FrameModel = seq<RnnoiseFrame> -> Option<RnnoiseFrame>

  datatype OfflineError = NonFiniteInput | Process | Chunk | LengthOverflow | SampleConservation

  predicate AllFinite(input: seq<Sample>) {
    forall i :: 0 <= i < |input| ==> input[i].Finite?
  }

  function Values(input: seq<Sample>): seq<real>
    requires AllFinite(input)
  {
    seq(|input|, i requires 0 <= i < |input| => input[i].value)
  }

  function Silence(n: nat): seq<real> {
    seq(n, _ => 0.0)
  }

  /** `fed` is what the denoiser has been given since its creation, and so its whole state. */
  datatype Stream = Stream(pending: seq<real>, fed: seq<RnnoiseFrame>, raw: seq<real>, accepted: nat)

  const EMPTY := Stream([], [], [], 0)

  datatype Fed = Fed(fed: seq<RnnoiseFrame>, raw: seq<real>, failed: bool)

  /** The emit callback: frames after a failure are dropped. */
  function Feed(model: FrameModel, s: Fed, frame: RnnoiseFrame): Fed {
    if s.failed then s
    else
      var fed := s.fed + [frame];
      match model(fed)
      case Some(output) => Fed(fed, s.raw + output, false)
      case None => Fed(fed, s.raw, true)
  }

  function FeedAll(model: FrameModel, s: Fed, frames: seq<RnnoiseFrame>): Fed {
    if frames == [] then s else Feed(model, FeedAll(model, s, frames[..|frames| - 1]), frames[|frames| - 1])
  }

  datatype Outcome<T> = Outcome(stream: Stream, result: Result<T, OfflineError>)

  function ProcessStep(model: FrameModel, s: Stream, input: seq<real>): Outcome<()> {
    if |input| > MAX_CALLBACK_FRAMES then Outcome(s, Err(Chunk))
    else
      var stream := s.pending + input;
      var done := FeedAll(model, Fed(s.fed, s.raw, false), Frames<real>(RNNOISE_FRAME_SAMPLES, stream));
      Outcome(
        Stream(Rest<real>(RNNOISE_FRAME_SAMPLES, stream), done.fed, done.raw, s.accepted),
        if done.failed then Err(Process) else Ok(()))
  }

  function PushStep(model: FrameModel, s: Stream, input: seq<Sample>): Outcome<()> {
    if !AllFinite(input) then Outcome(s, Err(NonFiniteInput))
    else if s.accepted + |input| > U64_MAX then Outcome(s, Err(LengthOverflow))
    else ProcessStep(model, s.(accepted := s.accepted + |input|), Values(input))
  }

  /** Completes a started frame with silence. */
  function PadStep(model: FrameModel, s: Stream): Outcome<()> {
    if s.pending == [] || |s.pending| >= RNNOISE_FRAME_SAMPLES then Outcome(s, Ok(()))
    else ProcessStep(model, s, Silence(RNNOISE_FRAME_SAMPLES - |s.pending|))
  }

  function DelaySteps(model: FrameModel, s: Stream, remaining: nat): Outcome<()>
    decreases remaining
  {
    if remaining == 0 then Outcome(s, Ok(()))
    else
      var pushed := Min(remaining, RNNOISE_FRAME_SAMPLES);
      var next := ProcessStep(model, s, Silence(pushed));
      if next.result.Err? then next else DelaySteps(model, next.stream, remaining - pushed)
  }

  function FlushSteps(model: FrameModel, s: Stream, delay: nat): Outcome<()> {
    var padded := PadStep(model, s);
    if padded.result.Err? then padded
    else
      var delayed := DelaySteps(model, padded.stream, delay);
      if delayed.result.Err? then delayed else PadStep(model, delayed.stream)
  }

  /** The output behind the delay, if there is enough of it. */
  function Aligned(raw: seq<real>, delay: nat, accepted: nat): Result<seq<real>, OfflineError> {
    if delay + accepted > U64_MAX then Err(LengthOverflow)
    else if delay + accepted > |raw| then Err(SampleConservation)
    else Ok(raw[delay..delay + accepted])
  }

  function FinishStep(model: FrameModel, s: Stream, delay: nat): Result<seq<real>, OfflineError> {
    var flushed := FlushSteps(model, s, delay);
    if flushed.result.Err? then Err(flushed.result.error) else Aligned(flushed.stream.raw, delay, s.accepted)
  }

  class RnnoiseFrameAssembler {
    const storage: array<real>
    var pending: nat

    ghost predicate Valid()
      reads this
    {
      storage.Length == RNNOISE_FRAME_SAMPLES && pending < RNNOISE_FRAME_SAMPLES
    }

    ghost function Pending(): (s: seq<real>)
      requires Valid()
      reads this, storage
    {
      storage[..pending]
    }

    constructor ()
      ensures Valid() && fresh(storage)
      ensures Pending() == []
    {
      storage := new real[RNNOISE_FRAME_SAMPLES](_ => 0.0);
      pending := 0;
    }

    method CopyIn(chunk: seq<real>)
      requires Valid() && pending + |chunk| <= RNNOISE_FRAME_SAMPLES
      modifies this, storage
      ensures pending == old(pending) + |chunk| && storage[..pending] == old(Pending()) + chunk
    {
      forall i | 0 <= i < |chunk| {
        storage[pending + i] := chunk[i];
      }
      pending := pending + |chunk|;
    }

    /** Returns the frames handed to the emit callback, in the order of the calls. */
    method Push(input: seq<real>) returns (frames: seq<RnnoiseFrame>)
      requires Valid()
      modifies this, storage
      ensures Valid()
      ensures frames == Frames<real>(RNNOISE_FRAME_SAMPLES, old(Pending()) + input)
      ensures Pending() == Rest<real>(RNNOISE_FRAME_SAMPLES, old(Pending()) + input)
    {
      frames := [];
      var consumed := 0;
      ghost var before := Pending();
      assert before + input[..0] == before;
      while consumed < |input|
        invariant Valid() && consumed <= |input|
        invariant frames == Frames<real>(RNNOISE_FRAME_SAMPLES, before + input[..consumed])
        invariant Pending() == Rest<real>(RNNOISE_FRAME_SAMPLES, before + input[..consumed])
      {
        var start := consumed;
        var copied := Min(RNNOISE_FRAME_SAMPLES - pending, |input| - consumed);
        ghost var held := Pending();
        consumed := consumed + copied;
        CopyIn(input[start..consumed]);
        assert before + input[..consumed] == (before + input[..start]) + input[start..consumed];
        FramesAppend<real>(RNNOISE_FRAME_SAMPLES, before + input[..start], input[start..consumed]);
        AtMostOneFrame<real>(RNNOISE_FRAME_SAMPLES, held + input[start..consumed]);
        if pending == RNNOISE_FRAME_SAMPLES {
          assert storage[..] == storage[..pending];
          frames := frames + [storage[..]];
          pending := 0;
        }
      }
      assert input[..consumed] == input;
    }
  }

  class OfflineDenoiser {
    const model: FrameModel
    const delaySamples: nat
    const assembler: RnnoiseFrameAssembler
    /** Everything the denoiser was fed, which determines its state. */
    var fed: seq<RnnoiseFrame>
    var rawOutput: seq<real>
    var acceptedSamples: nat

    ghost predicate Valid()
      reads this, assembler
    {
      assembler.Valid() && acceptedSamples <= U64_MAX
    }

    ghost function Value(): Stream
      requires Valid()
      reads this, assembler, assembler.storage
    {
      Stream(assembler.Pending(), fed, rawOutput, acceptedSamples)
    }

    constructor (model: FrameModel, delaySamples: nat)
      ensures Valid() && Value() == EMPTY
      ensures this.model == model && this.delaySamples == delaySamples
      ensures fresh(assembler) && fresh(assembler.storage)
    {
      this.model := model;
      this.delaySamples := delaySamples;
      assembler := new RnnoiseFrameAssembler();
      fed, rawOutput, acceptedSamples := [], [], 0;
    }

    method ProcessChunk(input: seq<real>) returns (result: Result<(), OfflineError>)
      requires Valid()
      modifies this, assembler, assembler.storage
      ensures Valid()
      ensures Outcome(Value(), result) == ProcessStep(model, old(Value()), input)
    {
      if |input| > MAX_CALLBACK_FRAMES {
        return Err(Chunk);
      }
      var frames := assembler.Push(input);
      var failed := false;
      for i := 0 to |frames|
        invariant Fed(fed, rawOutput, failed) == FeedAll(model, Fed(old(fed), old(rawOutput), false), frames[..i])
        invariant acceptedSamples == old(acceptedSamples)
        modifies this
      {
        assert frames[..i + 1][..i] == frames[..i];
        if !failed {
          fed := fed + [frames[i]];
          match model(fed) {
            case Some(output) => rawOutput := rawOutput + output;
            case None => failed := true;
          }
        }
      }
      assert frames[..|frames|] == frames;
      result := if failed then Err(Process) else Ok(());
    }

    method PushChunk(input: seq<Sample>) returns (result: Result<(), OfflineError>)
      requires Valid()
      modifies this, assembler, assembler.storage
      ensures Valid()
      ensures Outcome(Value(), result) == PushStep(model, old(Value()), input)
    {
      for i := 0 to |input|
        invariant AllFinite(input[..i])
      {
        if !input[i].Finite? {
          return Err(NonFiniteInput);
        }
      }
      assert input[..|input|] == input;
      if acceptedSamples + |input| > U64_MAX {
        return Err(LengthOverflow);
      }
      acceptedSamples := acceptedSamples + |input|;
      result := ProcessChunk(Values(input));
    }

    method Pad() returns (result: Result<(), OfflineError>)
      requires Valid()
      modifies this, assembler, assembler.storage
      ensures Valid()
      ensures Outcome(Value(), result) == PadStep(model, old(Value()))
    {
      result := Ok(());
      if assembler.pending != 0 {
        result := ProcessChunk(Silence(RNNOISE_FRAME_SAMPLES - assembler.pending));
      }
    }

    /** Completes the last frame with silence, pushes as much silence as the model delays, and cuts the delay off again. */
    method Finish() returns (result: Result<seq<real>, OfflineError>)
      requires Valid()
      modifies this, assembler, assembler.storage
      ensures result == FinishStep(model, old(Value()), delaySamples)
    {
      ghost var start := Value();
      var flushed := Pad();
      if flushed.Err? {
        return Err(flushed.error);
      }
      ghost var padded := Value();
      var remaining: nat := delaySamples;
      while remaining != 0
        invariant Valid() && acceptedSamples == start.accepted
        invariant DelaySteps(model, padded, delaySamples) == DelaySteps(model, Value(), remaining)
      {
        var pushed := Min(remaining, RNNOISE_FRAME_SAMPLES);
        flushed := ProcessChunk(Silence(pushed));
        if flushed.Err? {
          return Err(flushed.error);
        }
        remaining := remaining - pushed;
      }
      flushed := Pad();
      if flushed.Err? {
        return Err(flushed.error);
      }
      if delaySamples + acceptedSamples > U64_MAX {
        return Err(LengthOverflow);
      }
      if delaySamples + acceptedSamples > |rawOutput| {
        return Err(SampleConservation);
      }
      result := Ok(rawOutput[delaySamples..delaySamples + acceptedSamples]);
    }
  }

  /** The model has an output for each of these frames in turn. */
  ghost predicate Works(model: FrameModel, frames: seq<RnnoiseFrame>) {
    forall j :: 1 <= j <= |frames| ==> model(frames[..j]).Some?
  }

  /** Everything a working model puts out. */
  ghost function Outputs(model: FrameModel, fed: seq<RnnoiseFrame>): (raw: seq<real>)
    requires Works(model, fed)
    ensures |raw| == RNNOISE_FRAME_SAMPLES * |fed|
  {
    if fed == [] then []
    else
      var n := |fed| - 1;
      WorksBefore(model, fed, n);
      assert fed[..|fed|] == fed;
      Outputs(model, fed[..n]) + model(fed).value
  }

  lemma WorksBefore(model: FrameModel, frames: seq<RnnoiseFrame>, n: nat)
    requires Works(model, frames) && n <= |frames|
    ensures Works(model, frames[..n])
  {
    assert forall j :: 1 <= j <= n ==> frames[..n][..j] == frames[..j];
  }

  lemma WorksOneMore(model: FrameModel, fed: seq<RnnoiseFrame>, frame: RnnoiseFrame)
    requires Works(model, fed)
    ensures Works(model, fed + [frame]) <==> model(fed + [frame]).Some?
  {
    var all := fed + [frame];
    assert all[..|all|] == all;
    assert forall j :: 1 <= j <= |fed| ==> all[..j] == fed[..j];
  }

  /** Feeding a model: everything comes out if it works, and the failure is remembered if it does not. */
  lemma {:induction false} FeedOutputs(model: FrameModel, fed: seq<RnnoiseFrame>, frames: seq<RnnoiseFrame>)
    requires Works(model, fed)
    ensures
      var done := FeedAll(model, Fed(fed, Outputs(model, fed), false), frames);
      if Works(model, fed + frames) then done == Fed(fed + frames, Outputs(model, fed + frames), false) else done.failed
  {
    if frames == [] {
      assert fed + frames == fed;
    } else {
      var n := |frames| - 1;
      var before := fed + frames[..n];
      FeedOutputs(model, fed, frames[..n]);
      assert fed + frames == before + [frames[n]];
      assert (fed + frames)[..|before|] == before;
      if Works(model, before) {
        WorksOneMore(model, before, frames[n]);
      } else if Works(model, fed + frames) {
        WorksBefore(model, fed + frames, |before|);
      }
    }
  }

  /** The stream has assembled exactly the samples `x`, and no frame of theirs has failed. */
  ghost predicate Holds(model: FrameModel, s: Stream, x: seq<real>) {
    && s.pending == Rest<real>(RNNOISE_FRAME_SAMPLES, x)
    && s.fed == Frames<real>(RNNOISE_FRAME_SAMPLES, x)
    && Works(model, s.fed) && s.raw == Outputs(model, s.fed)
  }

  /** The model works on the complete frames of `x`. */
  ghost predicate WorksOn(model: FrameModel, x: seq<real>) {
    Works(model, Frames<real>(RNNOISE_FRAME_SAMPLES, x))
  }

  /** The next samples are assembled, or their first failing frame is reported. */
  ghost predicate Proceeds(model: FrameModel, outcome: Outcome<()>, x: seq<real>) {
    if WorksOn(model, x) then outcome.result == Ok(()) && Holds(model, outcome.stream, x)
    else outcome.result == Err(Process)
  }

  lemma ProcessHolds(model: FrameModel, s: Stream, x: seq<real>, input: seq<real>)
    requires Holds(model, s, x) && |input| <= MAX_CALLBACK_FRAMES
    ensures Proceeds(model, ProcessStep(model, s, input), x + input)
    ensures ProcessStep(model, s, input).stream.accepted == s.accepted
  {
    FramesAppend<real>(RNNOISE_FRAME_SAMPLES, x, input);
    FeedOutputs(model, s.fed, Frames<real>(RNNOISE_FRAME_SAMPLES, s.pending + input));
  }

  lemma WorksOnBefore(model: FrameModel, x: seq<real>, y: seq<real>)
    requires WorksOn(model, x + y)
    ensures WorksOn(model, x)
  {
    FramesAppend<real>(RNNOISE_FRAME_SAMPLES, x, y);
    var all := Frames<real>(RNNOISE_FRAME_SAMPLES, x + y);
    WorksBefore(model, all, |Frames<real>(RNNOISE_FRAME_SAMPLES, x)|);
    assert all[..|Frames<real>(RNNOISE_FRAME_SAMPLES, x)|] == Frames<real>(RNNOISE_FRAME_SAMPLES, x);
  }

  /** What a schedule of chunks leaves behind: the assembled samples, and how many were counted but refused. */
  datatype Taken = Taken(samples: seq<real>, refused: nat)

  function TakenFrom(chunks: seq<seq<Sample>>): Taken {
    if chunks == [] then Taken([], 0)
    else
      var before := TakenFrom(chunks[..|chunks| - 1]);
      var chunk := chunks[|chunks| - 1];
      if !AllFinite(chunk) || |before.samples| + before.refused + |chunk| > U64_MAX then before
      else if |chunk| > MAX_CALLBACK_FRAMES then before.(refused := before.refused + |chunk|)
      else before.(samples := before.samples + Values(chunk))
  }

  /** Pushes a schedule; the caller goes on after an error. */
  function Pushes(model: FrameModel, chunks: seq<seq<Sample>>): Stream {
    if chunks == [] then EMPTY
    else PushStep(model, Pushes(model, chunks[..|chunks| - 1]), chunks[|chunks| - 1]).stream
  }

  lemma {:induction false} PushesHold(model: FrameModel, chunks: seq<seq<Sample>>)
    requires WorksOn(model, TakenFrom(chunks).samples)
    ensures
      var taken := TakenFrom(chunks);
      && Holds(model, Pushes(model, chunks), taken.samples)
      && Pushes(model, chunks).accepted == |taken.samples| + taken.refused
  {
    if chunks == [] {
      assert Holds(model, EMPTY, []);
    } else {
      var n := |chunks| - 1;
      var before := TakenFrom(chunks[..n]).samples;
      var s := Pushes(model, chunks[..n]);
      if TakenFrom(chunks).samples == before {
        PushesHold(model, chunks[..n]);
      } else {
        WorksOnBefore(model, before, Values(chunks[n]));
        PushesHold(model, chunks[..n]);
      }
      if AllFinite(chunks[n]) && |chunks[n]| <= MAX_CALLBACK_FRAMES && s.accepted + |chunks[n]| <= U64_MAX {
        ProcessHolds(model, s.(accepted := s.accepted + |chunks[n]|), before, Values(chunks[n]));
        assert Values(chunks[n]) == [] ==> before + Values(chunks[n]) == before;
      }
    }
  }

  /** What a push refuses, in this order, and whether it counts what it refuses. */
  lemma PushRefuses(model: FrameModel, s: Stream, input: seq<Sample>)
    ensures
      var pushed := PushStep(model, s, input);
      if exists i :: 0 <= i < |input| && !input[i].Finite? then pushed == Outcome(s, Err(NonFiniteInput))
      else if s.accepted + |input| > U64_MAX then pushed == Outcome(s, Err(LengthOverflow))
      else
        && pushed.stream.accepted == s.accepted + |input|
        && (|input| > 4096 <==> pushed.result == Err(Chunk))
        && (|input| > 4096 ==> pushed.stream == s.(accepted := pushed.stream.accepted))
  {
  }

  /** A push reports a failing model exactly when one of the frames it completes is the first to fail. */
  lemma PushFailsIff(model: FrameModel, chunks: seq<seq<Sample>>, chunk: seq<Sample>)
    requires WorksOn(model, TakenFrom(chunks).samples)
    ensures
      PushStep(model, Pushes(model, chunks), chunk).result == Err(Process) <==>
      !WorksOn(model, TakenFrom(chunks + [chunk]).samples)
  {
    assert (chunks + [chunk])[..|chunks|] == chunks;
    PushesHold(model, chunks);
    var s := Pushes(model, chunks);
    if AllFinite(chunk) && |chunk| <= MAX_CALLBACK_FRAMES && s.accepted + |chunk| <= U64_MAX {
      ProcessHolds(model, s.(accepted := s.accepted + |chunk|), TakenFrom(chunks).samples, Values(chunk));
    }
  }

  /** Silence that completes a frame. */
  function PadLength(n: nat): nat {
    if n % RNNOISE_FRAME_SAMPLES == 0 then 0 else RNNOISE_FRAME_SAMPLES - n % RNNOISE_FRAME_SAMPLES
  }

  /** The input followed by all the silence that `finish` pushes. */
  function Flushed(x: seq<real>, delay: nat): seq<real> {
    var padded := x + Silence(PadLength(|x|));
    var delayed := padded + Silence(delay);
    delayed + Silence(PadLength(|delayed|))
  }

  /** What follows the samples is silence. */
  lemma FlushedIsSilent(x: seq<real>, delay: nat)
    ensures x <= Flushed(x, delay)
    ensures forall i :: |x| <= i < |Flushed(x, delay)| ==> Flushed(x, delay)[i] == 0.0
  {
  }

  lemma PadHolds(model: FrameModel, s: Stream, x: seq<real>)
    requires Holds(model, s, x)
    ensures Proceeds(model, PadStep(model, s), x + Silence(PadLength(|x|)))
  {
    FrameAt<real>(RNNOISE_FRAME_SAMPLES, x, 0);
    if s.pending == [] {
      assert x + Silence(0) == x;
    } else {
      ProcessHolds(model, s, x, Silence(PadLength(|x|)));
    }
  }

  lemma {:induction false} DelayHolds(model: FrameModel, s: Stream, x: seq<real>, remaining: nat)
    requires Holds(model, s, x)
    ensures Proceeds(model, DelaySteps(model, s, remaining), x + Silence(remaining))
    decreases remaining
  {
    if remaining == 0 {
      assert x + Silence(0) == x;
    } else {
      var pushed := Min(remaining, RNNOISE_FRAME_SAMPLES);
      ProcessHolds(model, s, x, Silence(pushed));
      assert (x + Silence(pushed)) + Silence(remaining - pushed) == x + Silence(remaining);
      if WorksOn(model, x + Silence(pushed)) {
        DelayHolds(model, ProcessStep(model, s, Silence(pushed)).stream, x + Silence(pushed), remaining - pushed);
      } else if WorksOn(model, x + Silence(remaining)) {
        WorksOnBefore(model, x + Silence(pushed), Silence(remaining - pushed));
      }
    }
  }

  /** The simple form: the model's output on the silenced-out input, without the delay. */
  ghost function Reference(model: FrameModel, x: seq<real>, delay: nat): (out: seq<real>)
    requires WorksOn(model, Flushed(x, delay))
    ensures |out| == |x|
  {
    FlushedLength(x, delay);
    FrameAt<real>(RNNOISE_FRAME_SAMPLES, Flushed(x, delay), 0);
    Outputs(model, Frames<real>(RNNOISE_FRAME_SAMPLES, Flushed(x, delay)))[delay..delay + |x|]
  }

  lemma FlushedLength(x: seq<real>, delay: nat)
    ensures |Flushed(x, delay)| % RNNOISE_FRAME_SAMPLES == 0
    ensures |x| + delay <= |Flushed(x, delay)| < |x| + delay + 2 * RNNOISE_FRAME_SAMPLES
  {
  }

  /**
   * Sample conservation, for every schedule and every model that worked so far: `finish` reports a model that fails on
   * what is still to be flushed; otherwise it returns the reference output of the assembled samples, or reports lost
   * samples exactly when a finite chunk beyond the callback bound was counted although it was refused.
   */
  lemma FinishIsReference(model: FrameModel, chunks: seq<seq<Sample>>, delay: nat)
    requires WorksOn(model, TakenFrom(chunks).samples)
    ensures
      var taken := TakenFrom(chunks);
      FinishStep(model, Pushes(model, chunks), delay) ==
        if !WorksOn(model, Flushed(taken.samples, delay)) then Err(Process)
        else if delay + |taken.samples| + taken.refused > U64_MAX then Err(LengthOverflow)
        else if taken.refused > 0 then Err(SampleConservation)
        else Ok(Reference(model, taken.samples, delay))
  {
    PushesHold(model, chunks);
    RefusedChunksAreLong(chunks);
    var x, s := TakenFrom(chunks).samples, Pushes(model, chunks);
    FlushHolds(model, s, x, delay);
    if WorksOn(model, Flushed(x, delay)) {
      AlignedIsReference(model, FlushSteps(model, s, delay).stream, x, delay, TakenFrom(chunks).refused);
    }
  }

  /** Cutting the flushed output yields the reference, or comes up short by at least one refused chunk. */
  lemma AlignedIsReference(model: FrameModel, flushed: Stream, x: seq<real>, delay: nat, refused: nat)
    requires Holds(model, flushed, Flushed(x, delay))
    requires refused == 0 || refused > MAX_CALLBACK_FRAMES
    ensures Aligned(flushed.raw, delay, |x| + refused) ==
      if delay + |x| + refused > U64_MAX then Err(LengthOverflow)
      else if refused > 0 then Err(SampleConservation)
      else Ok(Reference(model, x, delay))
  {
    FlushedLength(x, delay);
    FrameAt<real>(RNNOISE_FRAME_SAMPLES, Flushed(x, delay), 0);
  }

  /** Flushing pushes exactly the silence of the reference. */
  lemma FlushHolds(model: FrameModel, s: Stream, x: seq<real>, delay: nat)
    requires Holds(model, s, x)
    ensures Proceeds(model, FlushSteps(model, s, delay), Flushed(x, delay))
  {
    hide PadStep, DelaySteps, Holds, WorksOn;
    var padded := x + Silence(PadLength(|x|));
    var delayed := padded + Silence(delay);
    PadHolds(model, s, x);
    if WorksOn(model, Flushed(x, delay)) {
      WorksOnBefore(model, delayed, Silence(PadLength(|delayed|)));
      WorksOnBefore(model, padded, Silence(delay));
    }
    if WorksOn(model, padded) {
      var first := PadStep(model, s).stream;
      DelayHolds(model, first, padded, delay);
      if WorksOn(model, delayed) {
        PadHolds(model, DelaySteps(model, first, delay).stream, delayed);
      }
    }
  }

  lemma {:induction false} RefusedChunksAreLong(chunks: seq<seq<Sample>>)
    ensures TakenFrom(chunks).refused == 0 || TakenFrom(chunks).refused > MAX_CALLBACK_FRAMES
  {
    if chunks != [] {
      RefusedChunksAreLong(chunks[..|chunks| - 1]);
    }
  }

  /** One chunk of a sample too many is counted, refused, and later missed. */
  lemma OversizedChunkIsMissed(model: FrameModel, delay: nat)
    requires WorksOn(model, Flushed([], delay)) && delay + 4097 <= U64_MAX
    ensures
      var chunk := seq(4097, _ => Finite(0.0));
      && PushStep(model, EMPTY, chunk).result == Err(Chunk)
      && FinishStep(model, Pushes(model, [chunk]), delay) == Err(SampleConservation)
  {
    var chunk := seq(4097, _ => Finite(0.0));
    assert TakenFrom([chunk][..0]) == Taken([], 0);
    assert TakenFrom([chunk]) == Taken([], |chunk|);
    FinishIsReference(model, [chunk], delay);
  }

  lemma {:induction false} LegalChunksAreTaken(chunks: seq<seq<Sample>>)
    requires forall i :: 0 <= i < |chunks| ==> AllFinite(chunks[i]) && |chunks[i]| <= MAX_CALLBACK_FRAMES
    requires |Flatten<Sample>(chunks)| <= U64_MAX
    ensures AllFinite(Flatten<Sample>(chunks)) && TakenFrom(chunks) == Taken(Values(Flatten<Sample>(chunks)), 0)
  {
    if chunks == [] {
      assert Values([]) == [];
    } else {
      var n := |chunks| - 1;
      FlattenLast<Sample>(chunks);
      LegalChunksAreTaken(chunks[..n]);
      assert Values(Flatten<Sample>(chunks)) == Values(Flatten<Sample>(chunks[..n])) + Values(chunks[n]);
    }
  }

  /** Legal schedules of the same samples finish alike, and unless the model fails with as many samples as were accepted. */
  lemma FinishIgnoresTheSchedule(model: FrameModel, a: seq<seq<Sample>>, b: seq<seq<Sample>>, delay: nat)
    requires forall i :: 0 <= i < |a| ==> AllFinite(a[i]) && |a[i]| <= MAX_CALLBACK_FRAMES
    requires forall i :: 0 <= i < |b| ==> AllFinite(b[i]) && |b[i]| <= MAX_CALLBACK_FRAMES
    requires Flatten<Sample>(a) == Flatten<Sample>(b) && delay + |Flatten<Sample>(a)| <= U64_MAX
    requires AllFinite(Flatten<Sample>(a)) && WorksOn(model, Values(Flatten<Sample>(a)))
    ensures
      var finished := FinishStep(model, Pushes(model, a), delay);
      && finished == FinishStep(model, Pushes(model, b), delay)
      && (finished.Ok? <==> WorksOn(model, Flushed(Values(Flatten<Sample>(a)), delay)))
      && (finished.Ok? ==> |finished.value| == |Flatten<Sample>(a)|)
  {
    LegalChunksAreTaken(a);
    LegalChunksAreTaken(b);
    FinishIsReference(model, a, delay);
    FinishIsReference(model, b, delay);
  }

  lemma {:induction false} FlattenLength(fed: seq<RnnoiseFrame>)
    ensures |Flatten<real>(fed)| == RNNOISE_FRAME_SAMPLES * |fed|
  {
    if fed != [] {
      FlattenLength(fed[1..]);
    }
  }

  /** The last complete frame of the fed samples behind `delay` zeros. */
  function DelayedFrame(fed: seq<RnnoiseFrame>, delay: nat): RnnoiseFrame
    requires fed != []
  {
    FlattenLength(fed);
    var lo := RNNOISE_FRAME_SAMPLES * (|fed| - 1);
    (Silence(delay) + Flatten<real>(fed))[lo..lo + RNNOISE_FRAME_SAMPLES]
  }

  /** The model's output is its input, `delay` samples later. */
  ghost predicate PureDelay(model: FrameModel, delay: nat) {
    forall fed: seq<RnnoiseFrame> :: fed != [] ==> model(fed) == Some(DelayedFrame(fed, delay))
  }

  lemma {:induction false} PureDelayOutputs(model: FrameModel, delay: nat, fed: seq<RnnoiseFrame>)
    requires PureDelay(model, delay)
    ensures |Flatten<real>(fed)| == RNNOISE_FRAME_SAMPLES * |fed| && Works(model, fed)
    ensures Outputs(model, fed) == (Silence(delay) + Flatten<real>(fed))[..RNNOISE_FRAME_SAMPLES * |fed|]
  {
    FlattenLength(fed);
    if fed != [] {
      var n := |fed| - 1;
      PureDelayOutputs(model, delay, fed[..n]);
      FlattenLast<real>(fed);
      var all := Silence(delay) + Flatten<real>(fed);
      var lo := RNNOISE_FRAME_SAMPLES * n;
      assert (Silence(delay) + Flatten<real>(fed[..n]))[..lo] == all[..lo];
      assert all[..lo] + all[lo..lo + RNNOISE_FRAME_SAMPLES] == all[..lo + RNNOISE_FRAME_SAMPLES];
    }
  }

  lemma DelayUndone(x: seq<real>, all: seq<real>, delay: nat)
    requires x <= all && delay + |x| <= |all|
    ensures (Silence(delay) + all)[..|all|][delay..delay + |x|] == x
  {
  }

  lemma PureDelayReference(model: FrameModel, x: seq<real>, delay: nat)
    requires PureDelay(model, delay)
    ensures WorksOn(model, Flushed(x, delay)) && Reference(model, x, delay) == x
  {
    var all := Flushed(x, delay);
    var fed := Frames<real>(RNNOISE_FRAME_SAMPLES, all);
    FlushedLength(x, delay);
    FrameAt<real>(RNNOISE_FRAME_SAMPLES, all, 0);
    FramesConserve<real>(RNNOISE_FRAME_SAMPLES, all);
    assert Flatten<real>(fed) == all by {
      assert Rest<real>(RNNOISE_FRAME_SAMPLES, all) == [];
      assert Flatten<real>(fed) + [] == Flatten<real>(fed);
    }
    PureDelayOutputs(model, delay, fed);
    DelayUndone(x, all, delay);
  }

  /** For a model that only delays, the runner is the identity on what it accepted. */
  lemma PureDelayIsUndone(model: FrameModel, chunks: seq<seq<Sample>>, delay: nat)
    requires PureDelay(model, delay)
    requires forall i :: 0 <= i < |chunks| ==> AllFinite(chunks[i]) && |chunks[i]| <= MAX_CALLBACK_FRAMES
    requires delay + |Flatten<Sample>(chunks)| <= U64_MAX
    ensures AllFinite(Flatten<Sample>(chunks))
    ensures FinishStep(model, Pushes(model, chunks), delay) == Ok(Values(Flatten<Sample>(chunks)))
  {
    LegalChunksAreTaken(chunks);
    var x := Values(Flatten<Sample>(chunks));
    PureDelayOutputs(model, delay, Frames<real>(RNNOISE_FRAME_SAMPLES, x));
    FinishIsReference(model, chunks, delay);
    PureDelayReference(model, x, delay);
  }
}
