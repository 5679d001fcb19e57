/** The canonical audio domain: bounds, sample values, and sanitization. */
module Samples {
  const MODEL_FRAME_SAMPLES: nat := 512
  const MAX_CALLBACK_FRAMES: nat := 4096
  const FRAME_ASSEMBLER_CAPACITY: nat := 2 * MODEL_FRAME_SAMPLES
  const MIN_STRENGTH_RAMP_SAMPLES: nat := 960
  const FAULT_RAMP_SAMPLES: nat := 240
  const MAX_DRY_DELAY_SAMPLES: nat := MODEL_FRAME_SAMPLES + MAX_CALLBACK_FRAMES
  const CLICK_EXCESS_THRESHOLD: real := 0.01

  /** The smallest positive normal single-precision value, two to the power -126. */
  const MIN_NORMAL: real := 1.0 / 85070591730234615865843651857942052864.0

  /** One 32-bit float as it crosses a trust boundary. Rounding is not modelled. */
  datatype Sample = NaN | Infinite | Finite(value: real)

  predicate Subnormal(x: real) {
    x != 0.0 && -MIN_NORMAL < x < MIN_NORMAL
  }

  /** A sample that needs no sanitization: finite, and zero or normal. */
  type Pcm = x: real | !Subnormal(x) witness 0.0

  type Frame = f: seq<Pcm> | |f| == MODEL_FRAME_SAMPLES witness seq(MODEL_FRAME_SAMPLES, _ => 0.0)

  datatype SanitizeReport = SanitizeReport(nonFinite: nat, subnormal: nat)

  const NO_REPLACEMENTS := SanitizeReport(0, 0)

  /** Flushes a subnormal result to zero. */
  function Flush(x: real): Pcm {
    if Subnormal(x) then 0.0 else x
  }

  function Clean(sample: Sample): Pcm {
    match sample
    case NaN => 0.0
    case Infinite => 0.0
    case Finite(x) => Flush(x)
  }

  function Counted(sample: Sample, report: SanitizeReport): SanitizeReport {
    match sample
    case NaN => report.(nonFinite := report.nonFinite + 1)
    case Infinite => report.(nonFinite := report.nonFinite + 1)
    case Finite(x) => if Subnormal(x) then report.(subnormal := report.subnormal + 1) else report
  }

  function CountedAll(samples: seq<Sample>, report: SanitizeReport): SanitizeReport {
    if samples == [] then report
    else Counted(samples[|samples| - 1], CountedAll(samples[..|samples| - 1], report))
  }

  function CleanAll(samples: seq<Sample>): (clean: seq<Pcm>) {
    seq(|samples|, i requires 0 <= i < |samples| => Clean(samples[i]))
  }

  /** Re-reads clean samples as raw input of the next stage. */
  function Raw(samples: seq<Pcm>): seq<Sample> {
    seq(|samples|, i requires 0 <= i < |samples| => Finite(samples[i]))
  }

  function Zeros(n: nat): seq<Pcm> {
    seq(n, _ => 0.0)
  }

  function Abs(x: real): real {
    if x < 0.0 then -x else x
  }

  function MaxReal(x: real, y: real): real {
    if x < y then y else x
  }

  /** Sanitizing clean samples again changes nothing and counts nothing. */
  lemma {:induction false} CleanIsIdempotent(samples: seq<Pcm>, report: SanitizeReport)
    ensures CleanAll(Raw(samples)) == samples
    ensures CountedAll(Raw(samples), report) == report
  {
    if samples != [] {
      var n := |samples| - 1;
      CleanIsIdempotent(samples[..n], report);
      assert Raw(samples)[..n] == Raw(samples[..n]);
    }
  }

  /** The positions of what is no number, and of what a number was too small for. */
  function NonFinite(samples: seq<Sample>): set<nat> {
    set i: nat | i < |samples| && !samples[i].Finite?
  }

  function TooSmall(samples: seq<Sample>): set<nat> {
    set i: nat | i < |samples| && samples[i].Finite? && samples[i].value != 0.0 && Abs(samples[i].value) < MIN_NORMAL
  }

  lemma CountedLast(samples: seq<Sample>)
    requires samples != []
    ensures
      var n := |samples| - 1;
      && |NonFinite(samples)| == |NonFinite(samples[..n])| + (if samples[n].Finite? then 0 else 1)
      && |TooSmall(samples)| == |TooSmall(samples[..n])| + (if n in TooSmall(samples) then 1 else 0)
  {
    var n: nat := |samples| - 1;
    assert NonFinite(samples) == NonFinite(samples[..n]) + if samples[n].Finite? then {} else {n};
    assert TooSmall(samples) == TooSmall(samples[..n]) + if n in TooSmall(samples) then {n} else {};
  }

  lemma {:induction false} CountsByKind(samples: seq<Sample>)
    ensures CountedAll(samples, NO_REPLACEMENTS) == SanitizeReport(|NonFinite(samples)|, |TooSmall(samples)|)
  {
    if samples == [] {
      assert NonFinite([]) == {} && TooSmall([]) == {};
    } else {
      CountsByKind(samples[..|samples| - 1]);
      CountedLast(samples);
    }
  }

  /** Sanitizing replaces exactly these by zero and counts them by kind. */
  lemma SanitizingCountsTheReplaced(samples: seq<Sample>)
    ensures CountedAll(samples, NO_REPLACEMENTS) == SanitizeReport(|NonFinite(samples)|, |TooSmall(samples)|)
    ensures forall i: nat :: i < |samples| ==>
      if i in NonFinite(samples) || i in TooSmall(samples) then CleanAll(samples)[i] == 0.0
      else samples[i] == Finite(CleanAll(samples)[i])
  {
    CountsByKind(samples);
  }

  lemma CleanAllAppends(a: seq<Sample>, b: seq<Sample>)
    ensures CleanAll(a + b) == CleanAll(a) + CleanAll(b)
  {
  }

  lemma {:induction false} CountedAppends(a: seq<Sample>, b: seq<Sample>, report: SanitizeReport)
    ensures CountedAll(a + b, report) == CountedAll(b, CountedAll(a, report))
  {
    if b == [] {
      assert a + b == a;
    } else {
      var n := |b| - 1;
      assert (a + b)[..|a + b| - 1] == a + b[..n];
      CountedAppends(a, b[..n], report);
    }
  }
}
