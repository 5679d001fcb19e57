/** The dry signal, delayed by as many samples as the model needs. */
module DryDelayLine {
  import opened Prelude
  import opened Samples

  datatype DryDelayError = DelayTooLarge | ShapeMismatch | QuantumTooLarge

  /** What an ideal delay of `|history|` samples publishes for `input`, and what it then holds. */
  function Delayed(history: seq<Pcm>, input: seq<Pcm>): seq<Pcm> {
    (history + input)[..|input|]
  }

  function Held(history: seq<Pcm>, input: seq<Pcm>): seq<Pcm> {
    (history + input)[|input|..]
  }

  /** Chunking is invisible: two calls are one call on the joined input. */
  lemma DelayIsChunkFree(history: seq<Pcm>, a: seq<Pcm>, b: seq<Pcm>)
    ensures Delayed(history, a + b) == Delayed(history, a) + Delayed(Held(history, a), b)
    ensures Held(history, a + b) == Held(Held(history, a), b)
  {
    assert history + (a + b) == (history + a) + b;
    assert (history + a) + b == (history + a)[..|a|] + (Held(history, a) + b);
  }

  /** Sample `j` of an endless input that begins with `input`, silence before it. */
  function SampleAt(input: seq<Pcm>, j: int): Pcm {
    if 0 <= j < |input| then input[j] else 0.0
  }

  /**
   * A fresh line publishes its own input, `delay` samples late: output sample `j` is input sample `j - delay`. What it
   * keeps are the last `delay` input samples, the next ones to come out.
   */
  lemma DelayIsExact(delay: nat, input: seq<Pcm>)
    ensures |Delayed(Zeros(delay), input)| == |input| && |Held(Zeros(delay), input)| == delay
    ensures forall j :: 0 <= j < |input| ==> Delayed(Zeros(delay), input)[j] == SampleAt(input, j - delay)
    ensures forall k :: 0 <= k < delay ==> Held(Zeros(delay), input)[k] == SampleAt(input, |input| + k - delay)
  {
  }

  /** Builds a line outside the real-time path, refusing latencies over the fixed budget. */
  method Create(delaySamples: nat) returns (result: Result<DryDelay, DryDelayError>)
    ensures result.Ok? <==> delaySamples <= MAX_DRY_DELAY_SAMPLES
    ensures result.Err? ==> result.error == DelayTooLarge
    ensures result.Ok? ==>
      && fresh(result.value) && fresh(result.value.storage) && result.value.Valid()
      && result.value.History() == Zeros(delaySamples)
  {
    if delaySamples > MAX_DRY_DELAY_SAMPLES {
      return Err(DelayTooLarge);
    }
    var line := new DryDelay(delaySamples);
    result := Ok(line);
  }

  /** The circular delay line of the live dry path. */
  class DryDelay {
    const storage: array<Pcm>
    var position: nat

    ghost predicate Valid()
      reads this
    {
      position < storage.Length || position == storage.Length == 0
    }

    /** The samples still to be published, oldest first. */
    ghost function History(): (h: seq<Pcm>)
      requires Valid()
      reads this, storage
      ensures |h| == storage.Length
    {
      storage[position..] + storage[..position]
    }

    constructor (delaySamples: nat)
      ensures Valid() && fresh(storage)
      ensures storage.Length == delaySamples
      ensures History() == Zeros(delaySamples)
    {
      storage := new Pcm[delaySamples](_ => 0.0);
      position := 0;
    }

    method Reset()
      requires Valid()
      modifies this, storage
      ensures Valid()
      ensures History() == Zeros(storage.Length)
    {
      forall i | 0 <= i < storage.Length {
        storage[i] := 0.0;
      }
      position := 0;
    }

    /** Publishes the oldest held sample and stores a new one in its place. */
    method Shift(source: Sample) returns (delayed: Pcm)
      requires Valid() && storage.Length > 0
      modifies this, storage
      ensures Valid()
      ensures delayed == old(History())[0]
      ensures History() == old(History())[1..] + [Clean(source)]
    {
      delayed := storage[position];
      storage[position] := Clean(source);
      position := position + 1;
      if position == storage.Length {
        position := 0;
      }
    }

    method Process(input: seq<Sample>, output: array<Pcm>) returns (result: Result<SanitizeReport, DryDelayError>)
      requires Valid() && output != storage
      modifies this, storage, output
      ensures Valid()
      ensures result.Ok? <==> |input| == output.Length && |input| <= MAX_CALLBACK_FRAMES
      ensures result.Err? ==>
        && result.error == (if |input| != output.Length then ShapeMismatch else QuantumTooLarge)
        && History() == old(History()) && output[..] == old(output[..])
      ensures result.Ok? ==>
        && output[..] == Delayed(old(History()), CleanAll(input))
        && History() == Held(old(History()), CleanAll(input))
        && result.value == CountedAll(input, NO_REPLACEMENTS)
    {
      if |input| != output.Length {
        return Err(ShapeMismatch);
      }
      if |input| > MAX_CALLBACK_FRAMES {
        return Err(QuantumTooLarge);
      }
      var report := NO_REPLACEMENTS;
      ghost var before := History();
      for i := 0 to |input|
        invariant Valid() && |History()| == |before|
        invariant output[..i] + History() == before + CleanAll(input[..i])
        invariant report == CountedAll(input[..i], NO_REPLACEMENTS)
      {
        ghost var history, published := History(), output[..i];
        ghost var cleaned := CleanAll(input[..i]);
        if storage.Length == 0 {
          output[i] := Clean(input[i]);
        } else {
          output[i] := Shift(input[i]);
        }
        report := Counted(input[i], report);
        assert input[..i + 1][..i] == input[..i];
        assert CleanAll(input[..i + 1]) == cleaned + [Clean(input[i])];
        QueueStep(published, history, before + cleaned, Clean(input[i]));
        assert output[..i + 1] == published + [(history + [Clean(input[i])])[0]];
        assert History() == (history + [Clean(input[i])])[1..];
      }
      assert input[..|input|] == input && output[..|input|] == output[..];
      assert output[..] == (output[..] + History())[..|input|];
      assert History() == (output[..] + History())[|input|..];
      result := Ok(report);
    }
  }

  lemma QueueStep(published: seq<Pcm>, history: seq<Pcm>, all: seq<Pcm>, x: Pcm)
    requires published + history == all
    ensures (published + [(history + [x])[0]]) + (history + [x])[1..] == all + [x]
  {
    assert all + [x] == published + (history + [x]);
  }
}
