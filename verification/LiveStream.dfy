/** The live path as a value: one step per model frame, one step per callback, and the stream they compute. */
module LiveStream {
  import opened Prelude
  import opened Samples
  import opened Framing
  import opened DryDelayLine
  import opened Strength

  datatype FailMode = Closed | Open

  datatype LiveState = Running | DegradedPerformance | ModelFailed | TransportFailed

  /** A deterministic frame model: the output for the last of all frames since its reset, or a failure. */
  type Model = seq<Frame> -> Option<Frame>

  /**
   * What the sink cannot decide itself: the model's declared delay and behaviour, whether the ring takes the n-th
   * offered block, and whether the n-th model call is a sampled deadline miss that fills the miss window.
   */
  datatype Surroundings = Surroundings(delay: nat, model: Model, accepts: nat -> bool, degrades: nat -> bool)

  /** The outcome of a parameter read: nothing new, or an effective strength and a failure policy. */
  datatype Loaded = Unchanged | Adopted(target: real, failMode: FailMode)

  /** `offers` is every block handed to the ring, in order; `seen` every frame handed to the model since its reset. */
  datatype Sink = Sink(
    pending: seq<Pcm>,
    line: seq<Pcm>,
    ramp: Ramp,
    failMode: FailMode,
    failed: bool,
    state: LiveState,
    seen: seq<Frame>,
    modelCalls: nat,
    offers: seq<Frame>)

  function Fresh(env: Surroundings): Sink {
    Sink([], Zeros(env.delay), Ramp(1.0, 1.0, 0.0, 0), Closed, false, Running, [], 0, [])
  }

  /** The ramp after a parameter read: a new effective strength retargets it. */
  function Steered(r: Ramp, loaded: Loaded): Ramp {
    match loaded
    case Unchanged => r
    case Adopted(target, _) => if target == r.target then r else Retargeted(r, Finite(target), 0)
  }

  function Policy(mode: FailMode, loaded: Loaded): FailMode {
    match loaded
    case Unchanged => mode
    case Adopted(_, adopted) => adopted
  }

  function Applied(s: Sink, loaded: Loaded): Sink {
    s.(failMode := Policy(s.failMode, loaded), ramp := Steered(s.ramp, loaded))
  }

  function DryOf(s: Sink, frame: Frame): Frame {
    Delayed(s.line, frame)
  }

  /** Sample `i` is mixed at the strength `i + 1` steps into the ramp. */
  function MixedFrame(dry: Frame, wet: Frame, ramp: Ramp): (mixed: Frame)
    ensures forall i :: 0 <= i < MODEL_FRAME_SAMPLES ==>
      mixed[i] == Mixed(Finite(dry[i]), Finite(wet[i]), Finite(AdvancedBy(ramp, i + 1).current))
  {
    seq(MODEL_FRAME_SAMPLES, i requires 0 <= i < MODEL_FRAME_SAMPLES =>
      Mixed(Finite(dry[i]), Finite(wet[i]), Finite(AdvancedBy(ramp, i + 1).current)))
  }

  function Fallback(s: Sink, dry: Frame): Sink {
    if s.failMode.Open? then s.(offers := s.offers + [dry]) else s
  }

  function FrameStep(env: Surroundings, s: Sink, frame: Frame): Sink {
    var dry := DryOf(s, frame);
    var moved := s.(line := Held(s.line, frame));
    if s.failed then Fallback(moved, dry)
    else
      var calls := s.modelCalls + 1;
      var called := moved.(modelCalls := calls, seen := s.seen + [frame],
                           state := if env.degrades(calls) then DegradedPerformance else s.state);
      match env.model(called.seen)
      case None => Fallback(called.(failed := true, state := ModelFailed), dry)
      case Some(wet) =>
        var accepted := env.accepts(|s.offers|);
        called.(ramp := AdvancedBy(s.ramp, MODEL_FRAME_SAMPLES),
                offers := s.offers + [MixedFrame(dry, wet, s.ramp)],
                failed := !accepted,
                state := if accepted then called.state else TransportFailed)
  }

  function FrameSteps(env: Surroundings, s: Sink, frames: seq<Frame>): Sink {
    if frames == [] then s
    else FrameStep(env, FrameSteps(env, s, frames[..|frames| - 1]), frames[|frames| - 1])
  }

  function Complete(s: Sink, input: seq<Pcm>): seq<Frame> {
    Frames(MODEL_FRAME_SAMPLES, s.pending + input)
  }

  /** One capture callback. */
  function WriteStep(env: Surroundings, s: Sink, samples: seq<Sample>, loaded: Loaded): Sink {
    var input := CleanAll(samples);
    FrameSteps(env, Applied(s, loaded), Complete(s, input)).(pending := Rest(MODEL_FRAME_SAMPLES, s.pending + input))
  }

  /** A new input generation, or a deactivated reset: signal history goes, parameters and the ramp stay. */
  function ResetStep(env: Surroundings, s: Sink): Sink {
    s.(pending := [], line := Zeros(env.delay), failed := false, state := Running, seen := [])
  }

  lemma {:induction false} StepsAppend(env: Surroundings, s: Sink, a: seq<Frame>, b: seq<Frame>)
    ensures FrameSteps(env, s, a + b) == FrameSteps(env, FrameSteps(env, s, a), b)
  {
    if b == [] {
      assert a + b == a;
    } else {
      var n := |b| - 1;
      assert (a + b)[..|a + b| - 1] == a + b[..n];
      StepsAppend(env, s, a, b[..n]);
    }
  }

  lemma StepIgnoresPending(env: Surroundings, s: Sink, frame: Frame, carry: seq<Pcm>)
    ensures FrameStep(env, s.(pending := carry), frame) == FrameStep(env, s, frame).(pending := carry)
    ensures FrameStep(env, s, frame).pending == s.pending
  {
    hide MixedFrame, Delayed, Held, AdvancedBy;
  }

  /** Frames do not look at the assembler's carry, nor touch it. */
  lemma {:induction false} StepsIgnorePending(env: Surroundings, s: Sink, frames: seq<Frame>, carry: seq<Pcm>)
    ensures FrameSteps(env, s.(pending := carry), frames) == FrameSteps(env, s, frames).(pending := carry)
    ensures FrameSteps(env, s, frames).pending == s.pending
  {
    if frames != [] {
      hide FrameStep;
      StepsIgnorePending(env, s, frames[..|frames| - 1], carry);
      StepIgnoresPending(env, FrameSteps(env, s, frames[..|frames| - 1]), frames[|frames| - 1], carry);
    }
  }

  /** Two callbacks are one callback on the joined samples, for every model, every ring, and every failure in between. */
  lemma WritesMerge(env: Surroundings, s: Sink, a: seq<Sample>, b: seq<Sample>, loaded: Loaded)
    ensures WriteStep(env, WriteStep(env, s, a, loaded), b, Unchanged) == WriteStep(env, s, a + b, loaded)
  {
    var x, y := CleanAll(a), CleanAll(b);
    CleanAllAppends(a, b);
    assert s.pending + (x + y) == (s.pending + x) + y;
    FramesAppend(MODEL_FRAME_SAMPLES, s.pending + x, y);
    var carry := Rest(MODEL_FRAME_SAMPLES, s.pending + x);
    var start := Applied(s, loaded);
    var first, second := Frames(MODEL_FRAME_SAMPLES, s.pending + x), Frames(MODEL_FRAME_SAMPLES, carry + y);
    StepsAppend(env, start, first, second);
    StepsIgnorePending(env, FrameSteps(env, start, first), second, carry);
    assert Complete(s, x + y) == first + second;
  }

  function Writes(env: Surroundings, s: Sink, chunks: seq<seq<Sample>>): Sink {
    if chunks == [] then s
    else WriteStep(env, Writes(env, s, chunks[..|chunks| - 1]), chunks[|chunks| - 1], Unchanged)
  }

  /** The split of the input into callbacks is invisible. */
  lemma {:induction false} SplitIsInvisible(env: Surroundings, s: Sink, chunks: seq<seq<Sample>>)
    requires |s.pending| < MODEL_FRAME_SAMPLES
    ensures Writes(env, s, chunks) == WriteStep(env, s, Flatten<Sample>(chunks), Unchanged)
  {
    if chunks == [] {
      assert CleanAll([]) == [] && s.pending + [] == s.pending;
      assert Complete(s, []) == [];
    } else {
      var n := |chunks| - 1;
      SplitIsInvisible(env, s, chunks[..n]);
      FlattenLast<Sample>(chunks);
      WritesMerge(env, s, Flatten<Sample>(chunks[..n]), chunks[n], Unchanged);
    }
  }

  ghost predicate Healthy(env: Surroundings) {
    (forall frames :: env.model(frames).Some?) && (forall n :: env.accepts(n))
  }

  /** Block `k` of the input behind `delay` zeros. */
  function IdealDry(delay: nat, input: seq<Pcm>, k: nat): Frame
    requires (k + 1) * MODEL_FRAME_SAMPLES <= |input|
  {
    (Zeros(delay) + input)[k * MODEL_FRAME_SAMPLES..(k + 1) * MODEL_FRAME_SAMPLES]
  }

  /** The simple form: block `k` of the published stream, from the whole input and the ramp as it stands before the block. */
  ghost function StreamBlock(env: Surroundings, ramp: Ramp, input: seq<Pcm>, k: nat): Frame
    requires Healthy(env)
    requires k < |Frames(MODEL_FRAME_SAMPLES, input)| && (k + 1) * MODEL_FRAME_SAMPLES <= |input|
  {
    MixedFrame(IdealDry(env.delay, input, k), env.model(Frames(MODEL_FRAME_SAMPLES, input)[..k + 1]).value, ramp)
  }

  /** There are enough samples for `n` blocks. */
  predicate Covers(input: seq<Pcm>, n: nat) {
    n <= |Frames(MODEL_FRAME_SAMPLES, input)| && n * MODEL_FRAME_SAMPLES <= |input|
  }

  /** `blocks` are the first blocks of the stream, block `k` mixed from ramp `ramps[k]` on. */
  ghost predicate AreBlocks(env: Surroundings, ramps: seq<Ramp>, input: seq<Pcm>, blocks: seq<Frame>)
    requires Healthy(env) && Covers(input, |ramps|)
  {
    |blocks| == |ramps| && forall k :: 0 <= k < |ramps| ==> blocks[k] == StreamBlock(env, ramps[k], input, k)
  }

  lemma {:induction false} AdvancedByAdds(r: Ramp, a: nat, b: nat)
    ensures AdvancedBy(AdvancedBy(r, a), b) == AdvancedBy(r, a + b)
  {
    if b > 0 {
      AdvancedByAdds(r, a, b - 1);
    }
  }

  /** The first samples of a delayed stream need only the first samples of the input. */
  lemma DelayLooksBack(history: seq<Pcm>, input: seq<Pcm>, lo: nat, hi: nat)
    requires lo <= hi <= |input|
    ensures Delayed(history, input[..hi])[lo..] == (history + input)[lo..hi]
  {
    assert history + input == (history + input[..hi]) + input[hi..];
    assert (history + input[..hi])[..hi] == (history + input)[..hi];
    assert (history + input)[..hi][lo..] == (history + input)[lo..hi];
  }

  /** The line that has delayed `m` frames of the stream delays the next one as the whole stream would be. */
  lemma StreamFrame(delay: nat, input: seq<Pcm>, m: nat)
    requires Covers(input, m + 1)
    ensures
      var line := Held(Zeros(delay), input[..m * MODEL_FRAME_SAMPLES]);
      var frame := Frames(MODEL_FRAME_SAMPLES, input)[m];
      && Delayed(line, frame) == IdealDry(delay, input, m)
      && Held(line, frame) == Held(Zeros(delay), input[..(m + 1) * MODEL_FRAME_SAMPLES])
  {
    var lo, hi := m * MODEL_FRAME_SAMPLES, (m + 1) * MODEL_FRAME_SAMPLES;
    var frame := Frames(MODEL_FRAME_SAMPLES, input)[m];
    FrameAt(MODEL_FRAME_SAMPLES, input, m);
    assert input[..hi] == input[..lo] + frame;
    DelayIsChunkFree(Zeros(delay), input[..lo], frame);
    DelayLooksBack(Zeros(delay), input, lo, hi);
  }

  /** What holds of a healthy sink after the frames whose ramps are given; `base` is what it had offered before. */
  ghost predicate AfterFrames(env: Surroundings, base: seq<Frame>, ramps: seq<Ramp>, input: seq<Pcm>, now: Sink)
    requires Healthy(env) && Covers(input, |ramps|)
  {
    && !now.failed && now.seen == Frames(MODEL_FRAME_SAMPLES, input)[..|ramps|]
    && now.line == Held(Zeros(env.delay), input[..|ramps| * MODEL_FRAME_SAMPLES])
    && base <= now.offers && AreBlocks(env, ramps, input, now.offers[|base|..])
  }

  /** One frame of a healthy run publishes exactly its block of the stream. */
  lemma HealthyFrame(env: Surroundings, base: seq<Frame>, ramps: seq<Ramp>, input: seq<Pcm>, now: Sink)
    requires Healthy(env) && Covers(input, |ramps| + 1) && AfterFrames(env, base, ramps, input, now)
    ensures
      var next := FrameStep(env, now, Frames(MODEL_FRAME_SAMPLES, input)[|ramps|]);
      AfterFrames(env, base, ramps + [now.ramp], input, next) && next.ramp == AdvancedBy(now.ramp, MODEL_FRAME_SAMPLES)
  {
    var m := |ramps|;
    var frame := Frames(MODEL_FRAME_SAMPLES, input)[m];
    StreamFrame(env.delay, input, m);
    assert now.seen + [frame] == Frames(MODEL_FRAME_SAMPLES, input)[..m + 1];
    var next := FrameStep(env, now, frame);
    assert next.offers == now.offers + [StreamBlock(env, now.ramp, input, m)];
    assert next.offers[|base|..] == now.offers[|base|..] + [StreamBlock(env, now.ramp, input, m)];
  }

  /** The ramps before `n` frames in a row. */
  function RampRun(r: Ramp, n: nat): (ramps: seq<Ramp>)
    ensures |ramps| == n
  {
    seq(n, k requires 0 <= k < n => AdvancedBy(r, k * MODEL_FRAME_SAMPLES))
  }

  lemma {:induction false} HealthyFrames(
    env: Surroundings, base: seq<Frame>, ramps: seq<Ramp>, input: seq<Pcm>, now: Sink, n: nat)
    requires Healthy(env) && Covers(input, |ramps| + n) && Covers(input, |ramps|) && AfterFrames(env, base, ramps, input, now)
    ensures
      var next := FrameSteps(env, now, Frames(MODEL_FRAME_SAMPLES, input)[|ramps|..|ramps| + n]);
      && AfterFrames(env, base, ramps + RampRun(now.ramp, n), input, next)
      && next.ramp == AdvancedBy(now.ramp, n * MODEL_FRAME_SAMPLES)
  {
    hide AfterFrames, FrameStep, Frames;
    var m := |ramps|;
    var frames := Frames(MODEL_FRAME_SAMPLES, input)[m..m + n];
    if n == 0 {
      assert frames == [] && ramps + RampRun(now.ramp, 0) == ramps;
    } else {
      HealthyFrames(env, base, ramps, input, now, n - 1);
      assert frames[..n - 1] == Frames(MODEL_FRAME_SAMPLES, input)[m..m + n - 1];
      var before := FrameSteps(env, now, frames[..n - 1]);
      HealthyFrame(env, base, ramps + RampRun(now.ramp, n - 1), input, before);
      assert (ramps + RampRun(now.ramp, n - 1)) + [before.ramp] == ramps + RampRun(now.ramp, n);
      AdvancedByAdds(now.ramp, (n - 1) * MODEL_FRAME_SAMPLES, MODEL_FRAME_SAMPLES);
    }
  }

  datatype Event = Write(samples: seq<Sample>, loaded: Loaded) | Reset

  function EventStep(env: Surroundings, s: Sink, e: Event): Sink {
    match e
    case Write(samples, loaded) => WriteStep(env, s, samples, loaded)
    case Reset => ResetStep(env, s)
  }

  function EventSteps(env: Surroundings, s: Sink, events: seq<Event>): Sink {
    if events == [] then s else EventStep(env, EventSteps(env, s, events[..|events| - 1]), events[|events| - 1])
  }

  predicate OnlyWrites(events: seq<Event>) {
    forall i :: 0 <= i < |events| ==> events[i].Write?
  }

  /** Everything the callbacks delivered, end to end. */
  function Received(events: seq<Event>): seq<Sample>
    requires OnlyWrites(events)
  {
    if events == [] then [] else Received(events[..|events| - 1]) + events[|events| - 1].samples
  }

  /** How many frames are complete once `events` have arrived behind `pending` carried samples. */
  function Completed(pending: nat, events: seq<Event>): nat
    requires OnlyWrites(events)
  {
    (pending + |Received(events)|) / MODEL_FRAME_SAMPLES
  }

  datatype Schedule = Schedule(ramps: seq<Ramp>, ramp: Ramp)

  /** The strength sequence: each callback's parameter read steers the ramp before the frames that it completes. */
  function Strengths(start: Ramp, pending: nat, events: seq<Event>): (s: Schedule)
    requires OnlyWrites(events) && pending < MODEL_FRAME_SAMPLES
    ensures |s.ramps| == Completed(pending, events)
  {
    if events == [] then Schedule([], start)
    else
      var n := |events| - 1;
      var before := Strengths(start, pending, events[..n]);
      var steered := Steered(before.ramp, events[n].loaded);
      var more := Completed(pending, events) - |before.ramps|;
      Schedule(before.ramps + RampRun(steered, more), AdvancedBy(steered, more * MODEL_FRAME_SAMPLES))
  }

  /** A sink as a reset leaves it: no history, no failure. Its ramp, its policy and its past blocks are arbitrary. */
  predicate Cleared(env: Surroundings, s: Sink) {
    s.pending == [] && s.line == Zeros(env.delay) && s.seen == [] && !s.failed
  }

  /** The frames that a further callback completes are the next ones of the whole stream. */
  lemma NextFrames(done: seq<Pcm>, x: seq<Pcm>, all: seq<Pcm>)
    requires done + x <= all
    ensures
      var m, n := |done| / MODEL_FRAME_SAMPLES, |done + x| / MODEL_FRAME_SAMPLES;
      && m <= n && Covers(all, m) && Covers(all, n)
      && Frames(MODEL_FRAME_SAMPLES, Rest(MODEL_FRAME_SAMPLES, done) + x) == Frames(MODEL_FRAME_SAMPLES, all)[m..n]
      && Rest(MODEL_FRAME_SAMPLES, Rest(MODEL_FRAME_SAMPLES, done) + x) == Rest(MODEL_FRAME_SAMPLES, done + x)
  {
    var tail := all[|done + x|..];
    assert all == (done + x) + tail;
    FramesAppend(MODEL_FRAME_SAMPLES, done, x);
    FramesAppend(MODEL_FRAME_SAMPLES, done + x, tail);
    FrameAt(MODEL_FRAME_SAMPLES, done, 0);
    FrameAt(MODEL_FRAME_SAMPLES, done + x, 0);
    FrameAt(MODEL_FRAME_SAMPLES, all, 0);
  }

  lemma NothingYet(env: Surroundings, s: Sink, all: seq<Pcm>)
    requires Healthy(env) && Cleared(env, s)
    ensures Covers(all, 0) && AfterFrames(env, s.offers, [], all, s)
    ensures CleanAll([]) == [] && Rest(MODEL_FRAME_SAMPLES, CleanAll([])) == []
  {
    assert Held(Zeros(env.delay), all[..0]) == Zeros(env.delay);
  }

  lemma {:induction false} HealthyEvents(env: Surroundings, s: Sink, events: seq<Event>, all: seq<Pcm>)
    requires Healthy(env) && Cleared(env, s) && OnlyWrites(events) && CleanAll(Received(events)) <= all
    ensures
      var schedule := Strengths(s.ramp, 0, events);
      var now := EventSteps(env, s, events);
      && Covers(all, |schedule.ramps|) && AfterFrames(env, s.offers, schedule.ramps, all, now)
      && now.ramp == schedule.ramp && now.pending == Rest(MODEL_FRAME_SAMPLES, CleanAll(Received(events)))
  {
    hide AfterFrames, EventStep, Frames, Rest;
    if events == [] {
      NothingYet(env, s, all);
    } else {
      var n := |events| - 1;
      var front := events[..n];
      var done, x := CleanAll(Received(front)), CleanAll(events[n].samples);
      CleanAllAppends(Received(front), events[n].samples);
      HealthyEvents(env, s, front, all);
      NextFrames(done, x, all);
      HealthyCallback(env, s.offers, Strengths(s.ramp, 0, front), all, EventSteps(env, s, front), done, events[n]);
    }
  }

  /** One callback of a healthy run. */
  lemma HealthyCallback(
    env: Surroundings, base: seq<Frame>, schedule: Schedule, all: seq<Pcm>, before: Sink, done: seq<Pcm>, e: Event)
    requires Healthy(env) && e.Write? && done + CleanAll(e.samples) <= all
    requires |schedule.ramps| == |done| / MODEL_FRAME_SAMPLES && Covers(all, |schedule.ramps|)
    requires AfterFrames(env, base, schedule.ramps, all, before)
    requires before.ramp == schedule.ramp && before.pending == Rest(MODEL_FRAME_SAMPLES, done)
    ensures
      var total := |done + CleanAll(e.samples)| / MODEL_FRAME_SAMPLES;
      var steered := Steered(schedule.ramp, e.loaded);
      var now := EventStep(env, before, e);
      && |schedule.ramps| <= total && Covers(all, total)
      && AfterFrames(env, base, schedule.ramps + RampRun(steered, total - |schedule.ramps|), all, now)
      && now.ramp == AdvancedBy(steered, (total - |schedule.ramps|) * MODEL_FRAME_SAMPLES)
      && now.pending == Rest(MODEL_FRAME_SAMPLES, done + CleanAll(e.samples))
  {
    hide FrameStep, FrameSteps, AreBlocks, Frames, Rest;
    NextFrames(done, CleanAll(e.samples), all);
    var total := |done + CleanAll(e.samples)| / MODEL_FRAME_SAMPLES;
    HealthyFrames(env, base, schedule.ramps, all, Applied(before, e.loaded), total - |schedule.ramps|);
  }

  /**
   * The live sink refines the stream function. From any cleared sink, for any callbacks with any parameters read on
   * the way, a healthy path offers exactly the first floor(n/512) blocks of mix(input delayed by d, model output,
   * strength sequence), where the strengths are steered by each read before the frames that its callback completes.
   */
  lemma LiveSinkComputesTheStream(env: Surroundings, s: Sink, events: seq<Event>)
    requires Healthy(env) && Cleared(env, s) && OnlyWrites(events)
    ensures
      var input := CleanAll(Received(events));
      var ramps := Strengths(s.ramp, 0, events).ramps;
      var now := EventSteps(env, s, events);
      && !now.failed && s.offers <= now.offers
      && |ramps| == |input| / MODEL_FRAME_SAMPLES && Covers(input, |ramps|)
      && AreBlocks(env, ramps, input, now.offers[|s.offers|..])
  {
    HealthyEvents(env, s, events, CleanAll(Received(events)));
  }

  /**
   * With parameters that stay put, not even the strengths depend on the split: block `k` is mixed from the starting
   * ramp advanced by 512 k samples.
   */
  lemma FixedParametersComputeTheStream(env: Surroundings, s: Sink, chunks: seq<seq<Sample>>)
    requires Healthy(env) && Cleared(env, s)
    ensures
      var input := CleanAll(Flatten<Sample>(chunks));
      var now := Writes(env, s, chunks);
      var ramps := RampRun(s.ramp, |input| / MODEL_FRAME_SAMPLES);
      && !now.failed && s.offers <= now.offers && Covers(input, |ramps|)
      && AreBlocks(env, ramps, input, now.offers[|s.offers|..])
  {
    SplitIsInvisible(env, s, chunks);
    var once := [Write(Flatten<Sample>(chunks), Unchanged)];
    assert once[..0] == [];
    assert Received(once) == Flatten<Sample>(chunks);
    assert Strengths(s.ramp, 0, once).ramps == RampRun(s.ramp, |Flatten<Sample>(chunks)| / MODEL_FRAME_SAMPLES);
    assert EventSteps(env, s, once) == Writes(env, s, chunks);
    LiveSinkComputesTheStream(env, s, once);
  }

  ghost predicate LatchHolds(s: Sink) {
    s.failed <==> s.state.ModelFailed? || s.state.TransportFailed?
  }

  lemma {:induction false} FramesKeepTheLatch(env: Surroundings, s: Sink, frames: seq<Frame>)
    requires LatchHolds(s)
    ensures LatchHolds(FrameSteps(env, s, frames))
  {
    if frames != [] {
      FramesKeepTheLatch(env, s, frames[..|frames| - 1]);
    }
  }

  /** At every callback boundary the private latch and the published state say the same. */
  lemma {:induction false} LatchMatchesState(env: Surroundings, events: seq<Event>)
    ensures LatchHolds(EventSteps(env, Fresh(env), events))
  {
    if events != [] {
      var n := |events| - 1;
      LatchMatchesState(env, events[..n]);
      if events[n].Write? {
        FramesKeepTheLatch(env, Applied(EventSteps(env, Fresh(env), events[..n]), events[n].loaded),
                           Complete(EventSteps(env, Fresh(env), events[..n]), CleanAll(events[n].samples)));
      }
    }
  }

  /** What a failed sink publishes for further frames: nothing when closed, the delayed input when open. */
  function FailedOffers(mode: FailMode, line: seq<Pcm>, frames: seq<Frame>): seq<Frame> {
    if mode.Closed? || frames == [] then []
    else
      var n := |frames| - 1;
      FailedOffers(mode, line, frames[..n]) + [Delayed(Held(line, Flatten(frames[..n])), frames[n])]
  }

  lemma {:induction false} FailedSteps(env: Surroundings, s: Sink, frames: seq<Frame>)
    requires s.failed
    ensures FrameSteps(env, s, frames) ==
      s.(line := Held(s.line, Flatten(frames)), offers := s.offers + FailedOffers(s.failMode, s.line, frames))
  {
    if frames == [] {
      assert s.line + [] == s.line;
    } else {
      var n := |frames| - 1;
      FailedSteps(env, s, frames[..n]);
      FlattenLast<Pcm>(frames);
      DelayIsChunkFree(s.line, Flatten(frames[..n]), frames[n]);
    }
  }

  /** The blocks of an open failure, end to end, are the input at the delay it had before the failure. */
  lemma {:induction false} OpenFailureKeepsTheDelay(line: seq<Pcm>, frames: seq<Frame>)
    ensures Flatten(FailedOffers(Open, line, frames)) == Delayed(line, Flatten(frames))
    ensures |FailedOffers(Open, line, frames)| == |frames|
  {
    if frames == [] {
      assert Delayed(line, []) == [];
    } else {
      var n := |frames| - 1;
      OpenFailureKeepsTheDelay(line, frames[..n]);
      var last := Delayed(Held(line, Flatten(frames[..n])), frames[n]);
      FlattenLast<Pcm>(frames);
      DelayIsChunkFree(line, Flatten(frames[..n]), frames[n]);
      FlattenAppend(FailedOffers(Open, line, frames[..n]), [last]);
      assert Flatten([last]) == last + [] == last;
    }
  }

  /** The policy in force after `events`. */
  function PolicyAfter(mode: FailMode, events: seq<Event>): FailMode
    requires OnlyWrites(events)
  {
    if events == [] then mode else Policy(PolicyAfter(mode, events[..|events| - 1]), events[|events| - 1].loaded)
  }

  /** The policy in force for each frame: that of the callback that completes it. */
  function Policies(mode: FailMode, pending: nat, events: seq<Event>): (modes: seq<FailMode>)
    requires OnlyWrites(events) && pending < MODEL_FRAME_SAMPLES
    ensures |modes| == Completed(pending, events)
  {
    if events == [] then []
    else
      var before := Policies(mode, pending, events[..|events| - 1]);
      before + seq(Completed(pending, events) - |before|, _ => PolicyAfter(mode, events))
  }

  /** The blocks whose policy is Open, in order. */
  function Opened(blocks: seq<Frame>, modes: seq<FailMode>): seq<Frame>
    requires |blocks| == |modes|
  {
    if blocks == [] then []
    else
      var n := |blocks| - 1;
      Opened(blocks[..n], modes[..n]) + if modes[n].Open? then [blocks[n]] else []
  }

  /** The delayed dry input in blocks. */
  function DryBlocks(line: seq<Pcm>, frames: seq<Frame>): seq<Frame> {
    FailedOffers(Open, line, frames)
  }

  lemma {:induction false} OpenedAppends(a: seq<Frame>, b: seq<Frame>, ma: seq<FailMode>, mode: FailMode)
    requires |a| == |ma|
    ensures Opened(a + b, ma + seq(|b|, _ => mode)) == Opened(a, ma) + if mode.Open? then b else []
  {
    var mb := seq(|b|, _ => mode);
    if b == [] {
      assert a + b == a && ma + mb == ma;
    } else {
      var n := |b| - 1;
      OpenedAppends(a, b[..n], ma, mode);
      assert (a + b)[..|a| + n] == a + b[..n];
      assert (ma + mb)[..|a| + n] == ma + seq(n, _ => mode);
      assert b == b[..n] + [b[n]];
    }
  }

  lemma DryBlocksOneMore(line: seq<Pcm>, frames: seq<Frame>, frame: Frame)
    ensures DryBlocks(line, frames + [frame]) == DryBlocks(line, frames) + [Delayed(Held(line, Flatten(frames)), frame)]
  {
    hide Delayed, Held, Flatten;
    assert (frames + [frame])[..|frames|] == frames;
  }

  lemma {:induction false} DryBlocksAppend(line: seq<Pcm>, a: seq<Frame>, b: seq<Frame>)
    ensures |DryBlocks(line, a)| == |a|
    ensures DryBlocks(line, a + b) == DryBlocks(line, a) + DryBlocks(Held(line, Flatten(a)), b)
  {
    hide *;
    OpenFailureKeepsTheDelay(line, a);
    DryBlocksAreOffers(line, a);
    if b == [] {
      assert a + b == a;
      DryBlocksAreOffers(Held(line, Flatten(a)), []);
      OpenFailureKeepsTheDelay(Held(line, Flatten(a)), []);
    } else {
      var n := |b| - 1;
      DryBlocksAppend(line, a, b[..n]);
      assert a + b == (a + b[..n]) + [b[n]];
      assert b == b[..n] + [b[n]];
      FlattenAppend(a, b[..n]);
      DelayIsChunkFree(line, Flatten(a), Flatten(b[..n]));
      DryBlocksOneMore(line, a + b[..n], b[n]);
      DryBlocksOneMore(Held(line, Flatten(a)), b[..n], b[n]);
    }
  }

  lemma DryBlocksAreOffers(line: seq<Pcm>, frames: seq<Frame>)
    ensures DryBlocks(line, frames) == FailedOffers(Open, line, frames)
  {
  }

  /** One callback of a failed sink. */
  lemma FailedCallback(env: Surroundings, before: Sink, e: Event)
    requires before.failed && e.Write?
    ensures
      var frames := Complete(before, CleanAll(e.samples));
      var mode := Policy(before.failMode, e.loaded);
      var now := EventStep(env, before, e);
      && now.failed && now.state == before.state && now.modelCalls == before.modelCalls && now.seen == before.seen
      && now.failMode == mode && now.line == Held(before.line, Flatten(frames))
      && now.pending == Rest(MODEL_FRAME_SAMPLES, before.pending + CleanAll(e.samples))
      && now.offers == before.offers + if mode.Open? then DryBlocks(before.line, frames) else []
  {
    FailedSteps(env, Applied(before, e.loaded), Complete(before, CleanAll(e.samples)));
  }

  /** The dry blocks of a stream that goes on, and those of them an open policy offers. */
  lemma LatchedBlocks(line: seq<Pcm>, done: seq<Pcm>, x: seq<Pcm>, modes: seq<FailMode>, mode: FailMode)
    requires |modes| == |done| / MODEL_FRAME_SAMPLES
    ensures
      var a := Frames(MODEL_FRAME_SAMPLES, done);
      var b := Frames(MODEL_FRAME_SAMPLES, Rest(MODEL_FRAME_SAMPLES, done) + x);
      var all := Frames(MODEL_FRAME_SAMPLES, done + x);
      && |a| == |modes| <= |all| == |done + x| / MODEL_FRAME_SAMPLES
      && Held(Held(line, Flatten(a)), Flatten(b)) == Held(line, Flatten(all))
      && Rest(MODEL_FRAME_SAMPLES, Rest(MODEL_FRAME_SAMPLES, done) + x) == Rest(MODEL_FRAME_SAMPLES, done + x)
      && |DryBlocks(line, a)| == |a| && |DryBlocks(line, all)| == |all|
      && Opened(DryBlocks(line, all), modes + seq(|all| - |modes|, _ => mode)) ==
         Opened(DryBlocks(line, a), modes) + if mode.Open? then DryBlocks(Held(line, Flatten(a)), b) else []
  {
    hide FailedOffers, Opened, Frames, Rest, Flatten;
    var a := Frames(MODEL_FRAME_SAMPLES, done);
    var b := Frames(MODEL_FRAME_SAMPLES, Rest(MODEL_FRAME_SAMPLES, done) + x);
    FramesAppend(MODEL_FRAME_SAMPLES, done, x);
    FrameAt(MODEL_FRAME_SAMPLES, done, 0);
    FrameAt(MODEL_FRAME_SAMPLES, done + x, 0);
    DryBlocksAppend(line, a, b);
    DryBlocksAppend(line, a + b, []);
    DryBlocksAppend(Held(line, Flatten(a)), b, []);
    FlattenAppend(a, b);
    DelayIsChunkFree(line, Flatten(a), Flatten(b));
    OpenedAppends(DryBlocks(line, a), DryBlocks(Held(line, Flatten(a)), b), modes, mode);
  }

  /**
   * What a latched failure makes of the carry and all later input, `stream`: nothing of the model's, and the delayed dry
   * blocks, each exactly if its policy is Open.
   */
  ghost predicate Latched(s: Sink, stream: seq<Pcm>, modes: seq<FailMode>, now: Sink) {
    var frames := Frames(MODEL_FRAME_SAMPLES, stream);
    && now.failed && now.state == s.state && now.modelCalls == s.modelCalls && now.seen == s.seen
    && now.line == Held(s.line, Flatten(frames)) && now.pending == Rest(MODEL_FRAME_SAMPLES, stream)
    && |DryBlocks(s.line, frames)| == |modes|
    && now.offers == s.offers + Opened(DryBlocks(s.line, frames), modes)
  }

  lemma LatchedCallback(env: Surroundings, s: Sink, done: seq<Pcm>, modes: seq<FailMode>, before: Sink, e: Event)
    requires Latched(s, done, modes, before) && |modes| == |done| / MODEL_FRAME_SAMPLES && e.Write?
    ensures
      var stream := done + CleanAll(e.samples);
      var mode := Policy(before.failMode, e.loaded);
      && |modes| <= |stream| / MODEL_FRAME_SAMPLES
      && EventStep(env, before, e).failMode == mode
      && Latched(s, stream, modes + seq(|stream| / MODEL_FRAME_SAMPLES - |modes|, _ => mode), EventStep(env, before, e))
  {
    hide EventStep, FailedOffers, Opened, Flatten;
    FailedCallback(env, before, e);
    LatchedBlocks(s.line, done, CleanAll(e.samples), modes, Policy(before.failMode, e.loaded));
  }

  lemma NothingLatchedYet(s: Sink)
    requires s.failed && |s.pending| < MODEL_FRAME_SAMPLES
    ensures Latched(s, s.pending + CleanAll([]), [], s)
  {
    assert s.pending + CleanAll([]) == s.pending && s.line + [] == s.line;
  }

  /**
   * The failure latch: after a failure, however many callbacks follow before a reset and whatever parameters they read,
   * the model is not called and the state stays. What is offered are blocks of the input at the delay it had before the
   * failure, each exactly if the policy of the callback that completes it is Open.
   */
  lemma {:induction false} FailureIsLatched(env: Surroundings, s: Sink, events: seq<Event>)
    requires s.failed && |s.pending| < MODEL_FRAME_SAMPLES && OnlyWrites(events)
    ensures
      var stream := s.pending + CleanAll(Received(events));
      && Latched(s, stream, Policies(s.failMode, |s.pending|, events), EventSteps(env, s, events))
      && EventSteps(env, s, events).failMode == PolicyAfter(s.failMode, events)
      && Flatten(DryBlocks(s.line, Frames(MODEL_FRAME_SAMPLES, stream))) ==
         Delayed(s.line, Flatten(Frames(MODEL_FRAME_SAMPLES, stream)))
  {
    hide Latched, EventStep, DryBlocks;
    DryBlocksFlatten(s.line, Frames(MODEL_FRAME_SAMPLES, s.pending + CleanAll(Received(events))));
    if events == [] {
      NothingLatchedYet(s);
    } else {
      var n := |events| - 1;
      FailureIsLatched(env, s, events[..n]);
      var done := s.pending + CleanAll(Received(events[..n]));
      CleanAllAppends(Received(events[..n]), events[n].samples);
      assert s.pending + CleanAll(Received(events)) == done + CleanAll(events[n].samples);
      LatchedCallback(env, s, done, Policies(s.failMode, |s.pending|, events[..n]), EventSteps(env, s, events[..n]), events[n]);
    }
  }

  lemma DryBlocksFlatten(line: seq<Pcm>, frames: seq<Frame>)
    ensures Flatten(DryBlocks(line, frames)) == Delayed(line, Flatten(frames))
  {
    OpenFailureKeepsTheDelay(line, frames);
  }
}
