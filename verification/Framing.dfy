/** Cutting a stream into exact frames, and the bounded assembler that does it in place. */
module Framing {
  import opened Prelude
  import opened Samples

  /** The complete `n`-sample frames of a stream, in order. */
  function Frames<T>(n: nat, s: seq<T>): (frames: seq<seq<T>>)
    requires n > 0
    ensures forall k :: 0 <= k < |frames| ==> |frames[k]| == n
    decreases |s|
  {
    if |s| < n then [] else [s[..n]] + Frames(n, s[n..])
  }

  /** The samples after the last complete frame. */
  function Rest<T>(n: nat, s: seq<T>): (rest: seq<T>)
    requires n > 0
    ensures |rest| < n
    decreases |s|
  {
    if |s| < n then s else Rest(n, s[n..])
  }

  /** Cutting a stream in two calls is cutting it in one. */
  lemma {:induction false} FramesAppend<T>(n: nat, a: seq<T>, b: seq<T>)
    requires n > 0
    ensures Frames(n, a + b) == Frames(n, a) + Frames(n, Rest(n, a) + b)
    ensures Rest(n, a + b) == Rest(n, Rest(n, a) + b)
    decreases |a|
  {
    if |a| < n {
    } else {
      assert (a + b)[..n] == a[..n];
      assert (a + b)[n..] == a[n..] + b;
      FramesAppend(n, a[n..], b);
    }
  }

  lemma QuotientIsUnique(a: nat, n: nat, q: int, r: int)
    requires 0 <= r < n && a == q * n + r
    ensures a / n == q && a % n == r
  {
    var d := a / n - q;
    assert d * n == r - a % n;
    if d >= 1 {
      MultiplyAtLeast(d, n);
    } else if d <= -1 {
      MultiplyAtLeast(-d, n);
    }
  }

  lemma MultiplyAtLeast(d: int, n: nat)
    requires d >= 1
    ensures d * n >= n
  {
    assert (d - 1) * n >= 0;
  }

  lemma DivideOneLess(a: nat, n: nat)
    requires 0 < n <= a
    ensures a / n == (a - n) / n + 1
    ensures a % n == (a - n) % n
  {
    var q := (a - n) / n;
    assert (q + 1) * n == q * n + n;
    QuotientIsUnique(a, n, q + 1, (a - n) % n);
  }

  /** There are exactly floor(|s|/n) frames; frame `k` is the `k`-th slice of the stream. */
  lemma {:induction false} FrameAt<T>(n: nat, s: seq<T>, k: nat)
    requires n > 0
    ensures |Frames(n, s)| == |s| / n
    ensures |Rest(n, s)| == |s| % n
    ensures k < |s| / n ==> 0 <= k * n <= k * n + n <= |s| && Frames(n, s)[k] == s[k * n..k * n + n]
    decreases |s|
  {
    if |s| >= n {
      DivideOneLess(|s|, n);
      if k == 0 {
        FrameAt(n, s[n..], 0);
      } else {
        FrameAt(n, s[n..], k - 1);
        if k < |s| / n {
          var m := (k - 1) * n;
          assert k * n == m + n;
          assert s[n..][m..m + n] == s[m + n..m + n + n];
        }
      }
    }
  }

  /** No sample is lost, repeated, or reordered. */
  lemma {:induction false} FramesConserve<T>(n: nat, s: seq<T>)
    requires n > 0
    ensures Flatten(Frames(n, s)) + Rest(n, s) == s
    decreases |s|
  {
    if |s| >= n {
      FramesConserve(n, s[n..]);
      assert Frames(n, s)[0] == s[..n] && Frames(n, s)[1..] == Frames(n, s[n..]);
      assert s == s[..n] + s[n..];
    }
  }

  function Flatten<T>(frames: seq<seq<T>>): seq<T> {
    if frames == [] then [] else frames[0] + Flatten(frames[1..])
  }

  lemma {:induction false} FlattenAppend<T>(a: seq<seq<T>>, b: seq<seq<T>>)
    ensures Flatten(a + b) == Flatten(a) + Flatten(b)
  {
    if a == [] {
      assert a + b == b;
    } else {
      assert (a + b)[1..] == a[1..] + b;
      FlattenAppend(a[1..], b);
    }
  }

  lemma FlattenLast<T>(chunks: seq<seq<T>>)
    requires chunks != []
    ensures Flatten(chunks) == Flatten(chunks[..|chunks| - 1]) + chunks[|chunks| - 1]
  {
    var n := |chunks| - 1;
    assert chunks == chunks[..n] + [chunks[n]];
    FlattenAppend(chunks[..n], [chunks[n]]);
    assert Flatten([chunks[n]]) == chunks[n] + [] == chunks[n];
  }

  datatype FrameAssemblerError = QuantumTooLarge

  datatype FramePushReport = FramePushReport(acceptedSamples: nat, emittedFrames: nat, sanitized: SanitizeReport)

  /** Assembles arbitrary callback quanta into exact 512-sample model frames. */
  class FrameAssembler {
    const storage: array<Pcm>
    var pending: nat

    ghost predicate Valid()
      reads this
    {
      storage.Length == FRAME_ASSEMBLER_CAPACITY && pending < MODEL_FRAME_SAMPLES
    }

    ghost function Pending(): (s: seq<Pcm>)
      requires Valid()
      reads this, storage
    {
      storage[..pending]
    }

    constructor ()
      ensures Valid() && fresh(storage)
      ensures Pending() == []
    {
      storage := new Pcm[FRAME_ASSEMBLER_CAPACITY](_ => 0.0);
      pending := 0;
    }

    method Reset()
      requires Valid()
      modifies this, storage
      ensures Valid()
      ensures Pending() == []
    {
      forall i | 0 <= i < storage.Length {
        storage[i] := 0.0;
      }
      pending := 0;
    }

    /** Sanitizes one contiguous piece of the callback into the storage after the carried samples. */
    method CopyIn(chunk: seq<Sample>, counted: SanitizeReport) returns (report: SanitizeReport)
      requires Valid() && pending + |chunk| <= MODEL_FRAME_SAMPLES
      modifies this, storage
      ensures pending == old(pending) + |chunk| && storage.Length == FRAME_ASSEMBLER_CAPACITY
      ensures storage[..pending] == old(Pending()) + CleanAll(chunk)
      ensures report == CountedAll(chunk, counted)
    {
      report := counted;
      ghost var held := Pending();
      for i := 0 to |chunk|
        invariant pending == |held| + i
        invariant storage[..pending] == held + CleanAll(chunk[..i])
        invariant report == CountedAll(chunk[..i], counted)
      {
        storage[pending] := Clean(chunk[i]);
        report := Counted(chunk[i], report);
        pending := pending + 1;
        assert chunk[..i + 1][..i] == chunk[..i];
        assert CleanAll(chunk[..i + 1]) == CleanAll(chunk[..i]) + [Clean(chunk[i])];
      }
      assert chunk[..|chunk|] == chunk;
    }

    /** Returns the frames handed to the emit callback, in the order of the calls. */
    method Push(input: seq<Sample>) returns (result: Result<FramePushReport, FrameAssemblerError>, frames: seq<Frame>)
      requires Valid()
      modifies this, storage
      ensures Valid()
      ensures result.Err? <==> |input| > MAX_CALLBACK_FRAMES
      ensures result.Err? ==> frames == [] && Pending() == old(Pending())
      ensures result.Ok? ==>
        && frames == Frames(MODEL_FRAME_SAMPLES, old(Pending()) + CleanAll(input))
        && Pending() == Rest(MODEL_FRAME_SAMPLES, old(Pending()) + CleanAll(input))
        && result.value == FramePushReport(|input|, |frames|, CountedAll(input, NO_REPLACEMENTS))
    {
      frames := [];
      if |input| > MAX_CALLBACK_FRAMES {
        return Err(QuantumTooLarge), [];
      }
      var sanitized := NO_REPLACEMENTS;
      var consumed := 0;
      ghost var before := Pending();
      while consumed < |input|
        invariant Valid() && consumed <= |input|
        invariant frames == Frames(MODEL_FRAME_SAMPLES, before + CleanAll(input[..consumed]))
        invariant Pending() == Rest(MODEL_FRAME_SAMPLES, before + CleanAll(input[..consumed]))
        invariant sanitized == CountedAll(input[..consumed], NO_REPLACEMENTS)
      {
        var needed := MODEL_FRAME_SAMPLES - pending;
        var copied := Min(needed, |input| - consumed);
        var start := consumed;
        ghost var held := Pending();
        consumed := start + copied;
        sanitized := CopyIn(input[start..consumed], sanitized);
        CountedAppends(input[..start], input[start..consumed], NO_REPLACEMENTS);
        assert input[..start] + input[start..consumed] == input[..consumed];
        AppendChunk(before, input, start, consumed);
        if pending == MODEL_FRAME_SAMPLES {
          var frame: Frame := storage[..MODEL_FRAME_SAMPLES];
          frames := frames + [frame];
          pending := 0;
        }
      }
      assert input[..consumed] == input;
      result := Ok(FramePushReport(|input|, |frames|, sanitized));
    }
  }

  /** One loop turn of the assembler: the carried samples and the copied chunk make at most one frame. */
  lemma AppendChunk(before: seq<Pcm>, input: seq<Sample>, start: nat, end: nat)
    requires start <= end <= |input|
    requires |Rest(MODEL_FRAME_SAMPLES, before + CleanAll(input[..start]))| + (end - start) <= MODEL_FRAME_SAMPLES
    ensures
      var held := Rest(MODEL_FRAME_SAMPLES, before + CleanAll(input[..start]));
      var joined := held + CleanAll(input[start..end]);
      var earlier := Frames(MODEL_FRAME_SAMPLES, before + CleanAll(input[..start]));
      var all := before + CleanAll(input[..end]);
      if |joined| == MODEL_FRAME_SAMPLES
      then Frames(MODEL_FRAME_SAMPLES, all) == earlier + [joined] && Rest(MODEL_FRAME_SAMPLES, all) == []
      else Frames(MODEL_FRAME_SAMPLES, all) == earlier && Rest(MODEL_FRAME_SAMPLES, all) == joined
  {
    assert input[..end] == input[..start] + input[start..end];
    CleanAllAppends(input[..start], input[start..end]);
    assert before + CleanAll(input[..end]) == (before + CleanAll(input[..start])) + CleanAll(input[start..end]);
    AppendPiece<Pcm>(MODEL_FRAME_SAMPLES, before + CleanAll(input[..start]), CleanAll(input[start..end]));
  }

  lemma AppendPiece<T>(n: nat, a: seq<T>, b: seq<T>)
    requires n > 0 && |Rest(n, a)| + |b| <= n
    ensures
      var joined := Rest(n, a) + b;
      if |joined| == n
      then Frames(n, a + b) == Frames(n, a) + [joined] && Rest(n, a + b) == []
      else Frames(n, a + b) == Frames(n, a) && Rest(n, a + b) == joined
  {
    FramesAppend(n, a, b);
    AtMostOneFrame(n, Rest(n, a) + b);
  }

  lemma AtMostOneFrame<T>(n: nat, s: seq<T>)
    requires n > 0 && |s| <= n
    ensures Frames(n, s) == if |s| == n then [s] else []
    ensures Rest(n, s) == if |s| == n then [] else s
  {
    if |s| == n {
      assert s[..n] == s && s[n..] == [];
    }
  }
}
