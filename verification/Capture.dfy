/** Input generations: concurrent advances, the callback that obeys them, and the frames the model gets to see. */
module Capture {
  import opened Prelude
  import opened Samples
  import opened Framing

  const INITIAL_GENERATION: nat := 1
  const F32_BYTES: nat := 4

  /** Reading four native-endian bytes as a float. */
  type Decoder = seq<Byte> -> Sample

  datatype ChunkMetadata = ChunkMetadata(offsetBytes: nat, sizeBytes: nat, strideBytes: int, corrupted: bool)

  datatype CaptureBufferError = MalformedChunk | QuantumTooLarge

  datatype CaptureReport = CaptureReport(generation: nat, frames: nat, sanitized: SanitizeReport)

  datatype SinkCall = ResetCall(generation: nat) | WriteCall(generation: nat, samples: seq<Sample>)

  /** The metadata describes an aligned accessible region of tightly packed floats. */
  predicate WellFormed(mapped: Option<seq<Byte>>, metadata: ChunkMetadata) {
    && !metadata.corrupted
    && (metadata.strideBytes == 0 || metadata.strideBytes == 4)
    && metadata.sizeBytes % F32_BYTES == 0
    && mapped.Some?
    && metadata.offsetBytes + metadata.sizeBytes <= |mapped.value|
  }

  function Decoded(decode: Decoder, bytes: seq<Byte>): seq<Sample> {
    seq(|bytes| / F32_BYTES, i requires 0 <= i < |bytes| / F32_BYTES => decode(bytes[F32_BYTES * i..F32_BYTES * i + F32_BYTES]))
  }

  /** The samples a chunk delivers: none if it is empty, malformed, or too large. */
  function Delivered(decode: Decoder, mapped: Option<seq<Byte>>, metadata: ChunkMetadata)
    : Result<seq<Sample>, CaptureBufferError>
  {
    if metadata.sizeBytes == 0 then Ok([])
    else if !WellFormed(mapped, metadata) then Err(MalformedChunk)
    else if metadata.sizeBytes / F32_BYTES > MAX_CALLBACK_FRAMES then Err(CaptureBufferError.QuantumTooLarge)
    else Ok(Decoded(decode, mapped.value[metadata.offsetBytes..metadata.offsetBytes + metadata.sizeBytes]))
  }

  /**
   * What a chunk delivers: sample `k` are the four bytes at offset + 4 k. It is refused exactly if it claims samples and
   * they are marked as corrupted, not packed, cut in the middle of one, not mapped, or more than 4096.
   */
  lemma DeliveredSamples(decode: Decoder, mapped: Option<seq<Byte>>, metadata: ChunkMetadata)
    ensures
      var ChunkMetadata(offset, size, stride, corrupted) := metadata;
      Delivered(decode, mapped, metadata).Ok? <==>
      size == 0
      || (!corrupted && stride in {0, 4} && size % 4 == 0 && size <= 4 * 4096 && mapped.Some? && offset + size <= |mapped.value|)
    ensures Delivered(decode, mapped, metadata).Ok? ==>
      var samples := Delivered(decode, mapped, metadata).value;
      && |samples| * 4 == metadata.sizeBytes
      && forall k: nat :: k < |samples| ==>
           var at := metadata.offsetBytes + 4 * k;
           mapped.Some? && at + 4 <= |mapped.value| && samples[k] == decode(mapped.value[at..at + 4])
  {
    var ChunkMetadata(offset, size, stride, corrupted) := metadata;
    if Delivered(decode, mapped, metadata).Ok? && size > 0 {
      var bytes := mapped.value[offset..offset + size];
      forall k: nat | k < size / 4
        ensures bytes[4 * k..4 * k + 4] == mapped.value[offset + 4 * k..offset + 4 * k + 4]
      {
        assert 4 * k + 4 <= size;
        PartOfPart(mapped.value, offset, offset + size, 4 * k, 4 * k + 4);
      }
    }
  }

  lemma PartOfPart<T>(s: seq<T>, a: nat, b: nat, i: nat, j: nat)
    requires i <= j <= b - a && b <= |s|
    ensures s[a..b][i..j] == s[a + i..a + j]
  {
    var part := s[a..b];
    forall m | 0 <= m < j - i
      ensures part[i..j][m] == s[a + i..a + j][m]
    {
      assert part[i + m] == s[a + (i + m)];
    }
  }

  function ResetCalls(current: nat, requested: nat): seq<SinkCall> {
    if requested == current then [] else [ResetCall(requested)]
  }

  function WriteCalls(generation: nat, delivered: Result<seq<Sample>, CaptureBufferError>): seq<SinkCall> {
    match delivered
    case Ok(samples) => if samples == [] then [] else [WriteCall(generation, Raw(CleanAll(samples)))]
    case Err(_) => []
  }

  class CaptureProcessor {
    const decode: Decoder
    const scratch: array<Sample>
    var generation: nat
    /** Every call made on the sink. */
    var calls: seq<SinkCall>

    ghost predicate Valid()
      reads this
    {
      scratch.Length == MAX_CALLBACK_FRAMES
    }

    constructor (decode: Decoder)
      ensures Valid() && fresh(scratch) && this.decode == decode
      ensures generation == INITIAL_GENERATION && calls == []
    {
      this.decode := decode;
      scratch := new Sample[MAX_CALLBACK_FRAMES](_ => Finite(0.0));
      generation := INITIAL_GENERATION;
      calls := [];
    }

    method ApplyGeneration(requested: nat)
      requires Valid()
      modifies this, scratch
      ensures Valid() && generation == requested
      ensures calls == old(calls) + ResetCalls(old(generation), requested)
    {
      if requested == generation {
        return;
      }
      forall i | 0 <= i < scratch.Length {
        scratch[i] := Finite(0.0);
      }
      calls := calls + [ResetCall(requested)];
      generation := requested;
    }

    /** Decodes into the scratch buffer. */
    method Decode(bytes: seq<Byte>)
      requires Valid() && |bytes| / F32_BYTES <= MAX_CALLBACK_FRAMES
      modifies scratch
      ensures scratch[..|bytes| / F32_BYTES] == Decoded(decode, bytes)
    {
      var frames := |bytes| / F32_BYTES;
      for i := 0 to frames
        invariant scratch[..i] == Decoded(decode, bytes)[..i]
      {
        scratch[i] := decode(bytes[F32_BYTES * i..F32_BYTES * i + F32_BYTES]);
      }
    }

    /** Replaces invalid values in place. */
    method Sanitize(frames: nat) returns (report: SanitizeReport)
      requires Valid() && frames <= scratch.Length
      modifies scratch
      ensures scratch[..frames] == Raw(CleanAll(old(scratch[..frames])))
      ensures report == CountedAll(old(scratch[..frames]), NO_REPLACEMENTS)
    {
      report := NO_REPLACEMENTS;
      ghost var was := scratch[..frames];
      for i := 0 to frames
        invariant scratch[..i] == Raw(CleanAll(was))[..i]
        invariant scratch[i..frames] == was[i..]
        invariant report == CountedAll(was[..i], NO_REPLACEMENTS)
      {
        assert scratch[i] == scratch[i..frames][0] == was[i];
        assert was[..i + 1][..i] == was[..i];
        report := Counted(scratch[i], report);
        scratch[i] := Finite(Clean(scratch[i]));
        assert scratch[i + 1..frames] == was[i + 1..];
      }
      assert was[..frames] == was;
    }

    /** One capture callback; `command` is the generation word as loaded at its start. */
    method ProcessMapped(command: nat, mapped: Option<seq<Byte>>, metadata: ChunkMetadata)
      returns (result: Result<CaptureReport, CaptureBufferError>)
      requires Valid()
      modifies this, scratch
      ensures Valid() && generation == command
      ensures calls == old(calls) + ResetCalls(old(generation), command)
                       + WriteCalls(command, Delivered(decode, mapped, metadata))
      ensures match Delivered(decode, mapped, metadata)
        case Err(error) => result == Err(error)
        case Ok(samples) => result == Ok(CaptureReport(command, |samples|, CountedAll(samples, NO_REPLACEMENTS)))
    {
      ApplyGeneration(command);
      if metadata.sizeBytes == 0 {
        return Ok(CaptureReport(generation, 0, NO_REPLACEMENTS));
      }
      if metadata.corrupted || (metadata.strideBytes != 0 && metadata.strideBytes != 4) || metadata.sizeBytes % F32_BYTES != 0 {
        return Err(MalformedChunk);
      }
      if mapped.None? {
        return Err(MalformedChunk);
      }
      var end := metadata.offsetBytes + metadata.sizeBytes;
      if end > |mapped.value| {
        return Err(MalformedChunk);
      }
      var bytes := mapped.value[metadata.offsetBytes..end];
      var frames := |bytes| / F32_BYTES;
      if frames > MAX_CALLBACK_FRAMES {
        return Err(CaptureBufferError.QuantumTooLarge);
      }
      Decode(bytes);
      var sanitized := Sanitize(frames);
      calls := calls + [WriteCall(generation, scratch[..frames])];
      result := Ok(CaptureReport(generation, frames, sanitized));
    }
  }

  /**
   * One atomic access of some thread: an advancing thread loads the generation word or tries to exchange it (possibly
   * failing for no reason), or the data thread runs a callback, which loads the word once.
   */
  datatype Event =
    | Load(thread: nat)
    | Exchange(thread: nat, spurious: bool)
    | Callback(mapped: Option<seq<Byte>>, metadata: ChunkMetadata)

  /** `loaded` holds the value each advancing thread works with, `returned` what finished advances handed out. */
  datatype State = State(command: nat, loaded: map<nat, nat>, returned: seq<nat>, generation: nat, calls: seq<SinkCall>)

  const INITIAL := State(INITIAL_GENERATION, map[], [], INITIAL_GENERATION, [])

  function Step(decode: Decoder, s: State, e: Event): State {
    match e
    case Load(t) => s.(loaded := s.loaded[t := s.command])
    case Exchange(t, spurious) =>
      if t !in s.loaded then s
      else if s.command != s.loaded[t] || spurious then s.(loaded := s.loaded[t := s.command])
      else
        var next := SaturatingAdd(s.loaded[t], 1);
        s.(command := next, loaded := s.loaded - {t}, returned := s.returned + [next])
    case Callback(mapped, metadata) =>
      s.(generation := s.command,
         calls := s.calls + ResetCalls(s.generation, s.command) + WriteCalls(s.command, Delivered(decode, mapped, metadata)))
  }

  function Run(decode: Decoder, events: seq<Event>): State {
    if events == [] then INITIAL else Step(decode, Run(decode, events[..|events| - 1]), events[|events| - 1])
  }

  /** Advances hand out 2, 3, 4, ... without gap or repetition, until the word saturates. */
  lemma {:induction false} AdvancesCount(decode: Decoder, events: seq<Event>)
    ensures
      var s := Run(decode, events);
      && s.command == SaturatingAdd(INITIAL_GENERATION, |s.returned|)
      && s.generation <= s.command
      && forall k :: 0 <= k < |s.returned| ==> s.returned[k] == SaturatingAdd(INITIAL_GENERATION + 1, k)
  {
    if events != [] {
      AdvancesCount(decode, events[..|events| - 1]);
    }
  }

  /** Two advances get different generations, whatever their interleaving, exactly while the word has not saturated. */
  lemma AdvancesAreDistinctIff(decode: Decoder, events: seq<Event>)
    ensures
      var returned := Run(decode, events).returned;
      (forall j, k :: 0 <= j < k < |returned| ==> returned[j] != returned[k]) <==> |returned| < U64_MAX
  {
    AdvancesCount(decode, events);
    var returned := Run(decode, events).returned;
    if |returned| >= U64_MAX {
      assert returned[U64_MAX - 2] == U64_MAX == returned[U64_MAX - 1];
    }
  }

  /** The generation of the model's frames comes from the write that completed them. */
  datatype Emitted = Emitted(generation: nat, frame: Frame)

  function Tag(generation: nat, frames: seq<Frame>): seq<Emitted> {
    seq(|frames|, i requires 0 <= i < |frames| => Emitted(generation, frames[i]))
  }

  datatype Assembly = Assembly(pending: seq<Pcm>, emitted: seq<Emitted>)

  /** A sink that owns a frame assembler: it forgets the carry on reset and cuts frames on write. */
  function Assembled(calls: seq<SinkCall>): Assembly {
    if calls == [] then Assembly([], [])
    else
      var before := Assembled(calls[..|calls| - 1]);
      match calls[|calls| - 1]
      case ResetCall(_) => before.(pending := [])
      case WriteCall(g, samples) =>
        var stream := before.pending + CleanAll(samples);
        Assembly(Rest<Pcm>(MODEL_FRAME_SAMPLES, stream), before.emitted + Tag(g, Frames<Pcm>(MODEL_FRAME_SAMPLES, stream)))
  }

  /** All samples accepted for one generation, end to end. */
  function Accepted(calls: seq<SinkCall>, generation: nat): seq<Pcm> {
    if calls == [] then []
    else
      var before := Accepted(calls[..|calls| - 1], generation);
      match calls[|calls| - 1]
      case ResetCall(_) => before
      case WriteCall(g, samples) => if g == generation then before + CleanAll(samples) else before
  }

  /** What the callbacks that ran under a generation delivered, end to end. */
  function Collected(decode: Decoder, events: seq<Event>, generation: nat): seq<Pcm> {
    if events == [] then []
    else
      var n := |events| - 1;
      var before := Collected(decode, events[..n], generation);
      match events[n]
      case Callback(mapped, metadata) =>
        var delivered := Delivered(decode, mapped, metadata);
        if Run(decode, events[..n]).command == generation && delivered.Ok? then before + CleanAll(delivered.value) else before
      case _ => before
  }

  lemma AcceptedAppends(calls: seq<SinkCall>, more: seq<SinkCall>, generation: nat)
    requires |more| <= 1
    ensures Accepted(calls + more, generation) == Accepted(calls, generation) + Accepted(more, generation)
  {
    if more == [] {
      assert calls + more == calls;
    } else {
      assert (calls + more)[..|calls|] == calls && more[..0] == [];
    }
  }

  lemma CallbackAccepts(decode: Decoder, s: State, mapped: Option<seq<Byte>>, metadata: ChunkMetadata, generation: nat)
    ensures
      var delivered := Delivered(decode, mapped, metadata);
      Accepted(Step(decode, s, Callback(mapped, metadata)).calls, generation) ==
      Accepted(s.calls, generation) + if delivered.Ok? && s.command == generation then CleanAll(delivered.value) else []
  {
    hide Accepted, Delivered, ResetCalls, WriteCalls, CleanAll;
    var delivered := Delivered(decode, mapped, metadata);
    var resets, writes := ResetCalls(s.generation, s.command), WriteCalls(s.command, delivered);
    AtMostOneCall(s.generation, s.command, delivered);
    AcceptedAppends(s.calls, resets, generation);
    AcceptedAppends(s.calls + resets, writes, generation);
    ResetAcceptsNothing(s.generation, s.command, generation);
    WriteAccepts(s.command, delivered, generation);
  }

  lemma AtMostOneCall(current: nat, requested: nat, delivered: Result<seq<Sample>, CaptureBufferError>)
    ensures |ResetCalls(current, requested)| <= 1 && |WriteCalls(requested, delivered)| <= 1
  {
  }

  /** Nothing that a callback delivers is lost on the way to the sink, and everything arrives under its generation. */
  lemma {:induction false} AcceptedIsCollected(decode: Decoder, events: seq<Event>, generation: nat)
    ensures Accepted(Run(decode, events).calls, generation) == Collected(decode, events, generation)
  {
    if events != [] {
      hide Accepted, Delivered, CleanAll;
      var n := |events| - 1;
      AcceptedIsCollected(decode, events[..n], generation);
      match events[n] {
        case Callback(mapped, metadata) => CallbackAccepts(decode, Run(decode, events[..n]), mapped, metadata, generation);
        case _ =>
      }
    }
  }

  lemma ResetAcceptsNothing(current: nat, requested: nat, generation: nat)
    ensures Accepted(ResetCalls(current, requested), generation) == []
  {
    assert [ResetCall(requested)][..0] == [];
  }

  lemma WriteAccepts(g: nat, delivered: Result<seq<Sample>, CaptureBufferError>, generation: nat)
    ensures Accepted(WriteCalls(g, delivered), generation) ==
      if delivered.Ok? && g == generation then CleanAll(delivered.value) else []
  {
    if delivered.Ok? {
      CleanIsIdempotent(CleanAll(delivered.value), NO_REPLACEMENTS);
      assert [WriteCall(g, Raw(CleanAll(delivered.value)))][..0] == [];
    }
  }

  function Of(emitted: seq<Emitted>, generation: nat): seq<Frame> {
    if emitted == [] then []
    else
      var before := Of(emitted[..|emitted| - 1], generation);
      var last := emitted[|emitted| - 1];
      if last.generation == generation then before + [last.frame] else before
  }

  lemma OfOneMore(emitted: seq<Emitted>, e: Emitted, generation: nat)
    ensures Of(emitted + [e], generation) == Of(emitted, generation) + if e.generation == generation then [e.frame] else []
  {
    assert (emitted + [e])[..|emitted|] == emitted;
  }

  lemma {:induction false} OfTagged(emitted: seq<Emitted>, g: nat, frames: seq<Frame>, generation: nat)
    ensures Of(emitted + Tag(g, frames), generation) == Of(emitted, generation) + if g == generation then frames else []
  {
    hide Of;
    if frames == [] {
      assert emitted + Tag(g, []) == emitted;
    } else {
      var n := |frames| - 1;
      var last := Emitted(g, frames[n]);
      OfTagged(emitted, g, frames[..n], generation);
      OfOneMore(emitted + Tag(g, frames[..n]), last, generation);
      assert emitted + Tag(g, frames) == (emitted + Tag(g, frames[..n])) + [last];
      assert frames == frames[..n] + [frames[n]];
    }
  }

  /** The frames of `g` are exactly the complete frames of the samples accepted for `g`. */
  ghost predicate Separate(calls: seq<SinkCall>, g: nat) {
    Of(Assembled(calls).emitted, g) == Frames<Pcm>(MODEL_FRAME_SAMPLES, Accepted(calls, g))
  }

  /** Nothing has been accepted beyond `current`, and the carry belongs to it. */
  ghost predicate Separated(calls: seq<SinkCall>, current: nat) {
    && (forall g :: Separate(calls, g))
    && (forall g :: g > current ==> Accepted(calls, g) == [])
    && Assembled(calls).pending == Rest<Pcm>(MODEL_FRAME_SAMPLES, Accepted(calls, current))
  }

  lemma ResetSeparates(calls: seq<SinkCall>, current: nat, next: nat)
    requires Separated(calls, current) && next >= current
    ensures Separated(calls + ResetCalls(current, next), next)
  {
    var after := calls + ResetCalls(current, next);
    if next == current {
      assert after == calls;
    } else {
      assert after[..|after| - 1] == calls;
      assert Accepted(after, next) == Accepted(calls, next) == [];
      forall g
        ensures Separate(after, g)
      {
        assert Separate(calls, g);
      }
      assert Rest<Pcm>(MODEL_FRAME_SAMPLES, Accepted(after, next)) == Assembled(after).pending == [];
    }
  }

  lemma WriteSeparates(calls: seq<SinkCall>, g: nat, samples: seq<Sample>)
    requires Separated(calls, g)
    ensures Separated(calls + [WriteCall(g, samples)], g)
  {
    var after := calls + [WriteCall(g, samples)];
    assert after[..|after| - 1] == calls;
    var input := CleanAll(samples);
    FramesAppend<Pcm>(MODEL_FRAME_SAMPLES, Accepted(calls, g), input);
    assert Accepted(after, g) == Accepted(calls, g) + input;
    forall other
      ensures Separate(after, other)
    {
      assert Separate(calls, other);
      OfTagged(Assembled(calls).emitted, g, Frames<Pcm>(MODEL_FRAME_SAMPLES, Assembled(calls).pending + input), other);
    }
    assert Rest<Pcm>(MODEL_FRAME_SAMPLES, Accepted(after, g)) == Assembled(after).pending;
  }

  /** Every reachable log is separated, whatever the interleaving of advances and callbacks. */
  lemma {:induction false} RunSeparates(decode: Decoder, events: seq<Event>)
    ensures Separated(Run(decode, events).calls, Run(decode, events).generation)
  {
    if events == [] {
      assert Separated([], INITIAL_GENERATION);
    } else {
      var n := |events| - 1;
      RunSeparates(decode, events[..n]);
      if events[n].Callback? {
        AdvancesCount(decode, events[..n]);
        var s := Run(decode, events[..n]);
        ResetSeparates(s.calls, s.generation, s.command);
        var mid := s.calls + ResetCalls(s.generation, s.command);
        var delivered := Delivered(decode, events[n].mapped, events[n].metadata);
        match delivered {
          case Ok(samples) =>
            if samples == [] {
              assert mid + [] == mid;
            } else {
              WriteSeparates(mid, s.command, Raw(CleanAll(samples)));
            }
          case Err(_) =>
            assert mid + [] == mid;
        }
      }
    }
  }

  /** No model frame mixes input generations: frame `k` of a generation is the `k`-th slice of that generation's samples. */
  lemma NoFrameMixesGenerations(decode: Decoder, events: seq<Event>, g: nat, k: nat)
    ensures
      var calls := Run(decode, events).calls;
      var frames := Of(Assembled(calls).emitted, g);
      && |frames| == |Accepted(calls, g)| / 512
      && (k < |frames| ==>
            0 <= k * 512 <= k * 512 + 512 <= |Accepted(calls, g)|
            && frames[k] == Accepted(calls, g)[k * 512..k * 512 + 512])
  {
    RunSeparates(decode, events);
    var calls := Run(decode, events).calls;
    assert Separate(calls, g);
    FrameAt<Pcm>(MODEL_FRAME_SAMPLES, Accepted(calls, g), k);
  }

  /** The generation of the last reset, or the initial one. */
  function LastReset(calls: seq<SinkCall>): nat {
    if calls == [] then INITIAL_GENERATION
    else if calls[|calls| - 1].ResetCall? then calls[|calls| - 1].generation
    else LastReset(calls[..|calls| - 1])
  }

  /** Every call obeys the protocol: resets go strictly up, and a write belongs to the last reset. */
  ghost predicate Ordered(calls: seq<SinkCall>) {
    forall i :: 0 <= i < |calls| ==>
      if calls[i].ResetCall? then calls[i].generation > LastReset(calls[..i]) else calls[i].generation == LastReset(calls[..i])
  }

  lemma OrderedOneMore(calls: seq<SinkCall>, call: SinkCall)
    requires Ordered(calls)
    requires if call.ResetCall? then call.generation > LastReset(calls) else call.generation == LastReset(calls)
    ensures Ordered(calls + [call]) && LastReset(calls + [call]) == call.generation
  {
    var after := calls + [call];
    forall i | 0 <= i < |after|
      ensures
        if after[i].ResetCall? then after[i].generation > LastReset(after[..i])
        else after[i].generation == LastReset(after[..i])
    {
      assert after[..i] == calls[..i];
      if i == |calls| {
        assert calls[..i] == calls;
      } else {
        assert after[i] == calls[i];
      }
    }
    assert after[..|after| - 1] == calls;
  }

  /** The sink sees reset(g) before the first write of every later generation g, in every interleaving. */
  lemma {:induction false} ResetPrecedesWrites(decode: Decoder, events: seq<Event>)
    ensures Ordered(Run(decode, events).calls)
    ensures LastReset(Run(decode, events).calls) == Run(decode, events).generation
  {
    if events != [] {
      var n := |events| - 1;
      ResetPrecedesWrites(decode, events[..n]);
      AdvancesCount(decode, events[..n]);
      var s := Run(decode, events[..n]);
      if events[n].Callback? {
        var mid := s.calls + ResetCalls(s.generation, s.command);
        if s.command == s.generation {
          assert mid == s.calls;
        } else {
          OrderedOneMore(s.calls, ResetCall(s.command));
        }
        var writes := WriteCalls(s.command, Delivered(decode, events[n].mapped, events[n].metadata));
        if writes == [] {
          assert mid + [] == mid;
        } else {
          OrderedOneMore(mid, writes[0]);
        }
      }
    }
  }
}
