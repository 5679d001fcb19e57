/** Fail-closed fades of the output boundary. */
module FaultRamps {
  import opened Prelude
  import opened Samples
  import opened RealProducts

  datatype RampState = Passing | FadingOut | Silent | FadingIn

  datatype FaultRampError = ShapeMismatch | QuantumTooLarge

  datatype FaultRampReport = FaultRampReport(missingSamples: nat, sanitized: SanitizeReport, state: RampState)

  /** The quarter-sine gain table: all that is used of it is shape, end points, and its largest step. */
  type Gains = nat -> real

  const MAX_GAIN_STEP: real := 0.0066

  ghost predicate GoodGains(g: Gains) {
    && g(0) == 0.0 && g(FAULT_RAMP_SAMPLES) == 1.0
    && forall i: nat :: i < FAULT_RAMP_SAMPLES ==> GainStep(g, i)
  }

  ghost predicate GainStep(g: Gains, i: nat) {
    0.0 <= g(i) <= g(i + 1) <= g(i) + MAX_GAIN_STEP
  }

  lemma {:induction false} GainsRise(g: Gains, i: nat, j: nat)
    requires GoodGains(g) && i <= j <= FAULT_RAMP_SAMPLES
    ensures 0.0 <= g(i) <= g(j) <= 1.0
    decreases FAULT_RAMP_SAMPLES - i
  {
    if i < FAULT_RAMP_SAMPLES {
      assert GainStep(g, i);
      GainsRise(g, i + 1, if i == j then i + 1 else j);
    }
  }

  datatype Fade = Fade(state: RampState, step: nat, last: Pcm)

  const SILENCE := Fade(Silent, 0, 0.0)

  /** What every call keeps: unity and silence are the two ends of the table. */
  ghost predicate Settles(f: Fade) {
    && f.step <= FAULT_RAMP_SAMPLES
    && (f.state.Passing? ==> f.step == FAULT_RAMP_SAMPLES)
    && (f.state.Silent? ==> f.step == 0)
  }

  function BeginFault(f: Fade): Fade {
    if f.state.Silent? then f else f.(state := FadingOut)
  }

  function BeginRecovery(f: Fade): Fade {
    if f.state.Passing? then f else f.(state := FadingIn)
  }

  function Stepped(f: Fade): Fade {
    match f.state
    case Passing => f
    case Silent => f
    case FadingOut =>
      var step := SaturatingSub(f.step, 1);
      f.(step := step, state := if step == 0 then Silent else FadingOut)
    case FadingIn =>
      var step := Min(f.step + 1, FAULT_RAMP_SAMPLES);
      f.(step := step, state := if step == FAULT_RAMP_SAMPLES then Passing else FadingIn)
  }

  /** The factor used for the next sample, before the step is taken. */
  function NextGain(f: Fade, g: Gains): real {
    match f.state
    case Passing => 1.0
    case Silent => 0.0
    case _ => g(Stepped(f).step)
  }

  function Gained(x: Pcm, gain: real): Pcm {
    Flush(x * gain)
  }

  function Rendered(f: Fade, source: Sample, g: Gains): Pcm {
    Gained(Clean(source), NextGain(f, g))
  }

  function After(f: Fade, source: Sample, g: Gains): Fade {
    Stepped(f).(last := Rendered(f, source, g))
  }

  function AfterAll(f: Fade, input: seq<Sample>, g: Gains): Fade {
    if input == [] then f
    else After(AfterAll(f, input[..|input| - 1], g), input[|input| - 1], g)
  }

  function RenderedAll(f: Fade, input: seq<Sample>, g: Gains): (output: seq<Pcm>)
    ensures |output| == |input|
  {
    if input == [] then []
    else
      var n := |input| - 1;
      RenderedAll(f, input[..n], g) + [Rendered(AfterAll(f, input[..n], g), input[n], g)]
  }

  function RenderCounted(f: Fade, source: Sample, g: Gains, report: SanitizeReport): SanitizeReport {
    Counted(Finite(Clean(source) * NextGain(f, g)), Counted(source, report))
  }

  function RenderCountedAll(f: Fade, input: seq<Sample>, g: Gains, report: SanitizeReport): SanitizeReport {
    if input == [] then report
    else
      var n := |input| - 1;
      RenderCounted(AfterAll(f, input[..n], g), input[n], g, RenderCountedAll(f, input[..n], g, report))
  }

  /** Missing input holds the last published scalar while fading. */
  function HeldInput(f: Fade, n: nat): seq<Sample> {
    seq(n, _ => Finite(f.last))
  }

  function Played(input: Option<seq<Sample>>, f: Fade, n: nat): seq<Sample> {
    if input.Some? then input.value else HeldInput(f, n)
  }

  function Started(input: Option<seq<Sample>>, f: Fade): Fade {
    if input.Some? then f else BeginFault(f)
  }

  class FaultRamp {
    const gains: Gains
    var state: RampState
    var gainStep: nat
    var lastOutput: Pcm

    function Value(): Fade
      reads this
    {
      Fade(state, gainStep, lastOutput)
    }

    /** Passes audio at unity gain. */
    constructor (gains: Gains)
      ensures this.gains == gains
      ensures Value() == Fade(Passing, FAULT_RAMP_SAMPLES, 0.0) && Settles(Value())
    {
      this.gains := gains;
      state := Passing;
      gainStep := FAULT_RAMP_SAMPLES;
      lastOutput := 0.0;
    }

    method StartFault()
      modifies this
      ensures Value() == BeginFault(old(Value()))
    {
      if !state.Silent? {
        state := FadingOut;
      }
    }

    method StartRecovery()
      modifies this
      ensures Value() == BeginRecovery(old(Value()))
    {
      if !state.Passing? {
        state := FadingIn;
      }
    }

    method ResetSilent()
      modifies this
      ensures Value() == SILENCE
    {
      state := Silent;
      gainStep := 0;
      lastOutput := 0.0;
    }

    method NextStep() returns (gain: real)
      modifies this
      ensures gain == NextGain(old(Value()), gains)
      ensures Value() == Stepped(old(Value()))
      ensures Settles(old(Value())) && GoodGains(gains) ==>
        Settles(Value()) && gain == gains(gainStep) && -1 <= gainStep - old(gainStep) <= 1
    {
      match state {
        case Passing =>
          gain := 1.0;
        case Silent =>
          gain := 0.0;
        case FadingOut =>
          gainStep := SaturatingSub(gainStep, 1);
          if gainStep == 0 {
            state := Silent;
          }
          gain := gains(gainStep);
        case FadingIn =>
          gainStep := Min(gainStep + 1, FAULT_RAMP_SAMPLES);
          if gainStep == FAULT_RAMP_SAMPLES {
            state := Passing;
          }
          gain := gains(gainStep);
      }
    }

    method RenderSample(source: Sample, sanitized: SanitizeReport) returns (sample: Pcm, report: SanitizeReport)
      modifies this
      ensures sample == Rendered(old(Value()), source, gains)
      ensures Value() == After(old(Value()), source, gains)
      ensures report == RenderCounted(old(Value()), source, gains, sanitized)
    {
      report := Counted(source, sanitized);
      var gain := NextStep();
      report := Counted(Finite(Clean(source) * gain), report);
      sample := Gained(Clean(source), gain);
      lastOutput := sample;
    }

    /** Renders every sample of one callback from the input, or from the held scalar when there is none. */
    method Play(input: Option<seq<Sample>>, heldSample: Pcm, output: array<Pcm>) returns (sanitized: SanitizeReport)
      requires input.Some? ==> |input.value| == output.Length
      modifies this, output
      ensures
        var played := if input.Some? then input.value else seq(output.Length, _ => Finite(heldSample));
        && Value() == AfterAll(old(Value()), played, gains)
        && output[..] == RenderedAll(old(Value()), played, gains)
        && sanitized == RenderCountedAll(old(Value()), played, gains, NO_REPLACEMENTS)
    {
      sanitized := NO_REPLACEMENTS;
      ghost var started := Value();
      ghost var played := if input.Some? then input.value else seq(output.Length, _ => Finite(heldSample));
      for i := 0 to output.Length
        invariant Value() == AfterAll(started, played[..i], gains)
        invariant output[..i] == RenderedAll(started, played[..i], gains)
        invariant sanitized == RenderCountedAll(started, played[..i], gains, NO_REPLACEMENTS)
      {
        assert played[..i + 1][..i] == played[..i];
        var source := if input.Some? then input.value[i] else Finite(heldSample);
        var sample;
        sample, sanitized := RenderSample(source, sanitized);
        output[i] := sample;
      }
      assert played[..output.Length] == played && output[..output.Length] == output[..];
    }

    /** One callback: plays the input if there is any, else fades the held sample out. */
    method Process(input: Option<seq<Sample>>, output: array<Pcm>) returns (result: Result<FaultRampReport, FaultRampError>)
      modifies this, output
      ensures result.Err? <==>
        output.Length > MAX_CALLBACK_FRAMES || (input.Some? && |input.value| != output.Length)
      ensures result.Err? ==>
        && result.error == (if output.Length > MAX_CALLBACK_FRAMES then QuantumTooLarge else ShapeMismatch)
        && Value() == SILENCE && output[..] == Zeros(output.Length)
      ensures result.Ok? ==>
        var started := Started(input, old(Value()));
        var played := Played(input, old(Value()), output.Length);
        && Value() == AfterAll(started, played, gains)
        && output[..] == RenderedAll(started, played, gains)
        && result.value == FaultRampReport(
             if input.None? then output.Length else 0,
             RenderCountedAll(started, played, gains, NO_REPLACEMENTS),
             Value().state)
    {
      if output.Length > MAX_CALLBACK_FRAMES || (input.Some? && |input.value| != output.Length) {
        forall i | 0 <= i < output.Length {
          output[i] := 0.0;
        }
        ResetSilent();
        return Err(if output.Length > MAX_CALLBACK_FRAMES then QuantumTooLarge else ShapeMismatch);
      }
      var heldSample := lastOutput;
      if input.None? {
        StartFault();
      }
      var sanitized := Play(input, heldSample, output);
      result := Ok(FaultRampReport(if input.None? then output.Length else 0, sanitized, state));
    }
  }

  lemma {:induction false} AfterAllAppends(f: Fade, a: seq<Sample>, b: seq<Sample>, g: Gains)
    ensures AfterAll(f, a + b, g) == AfterAll(AfterAll(f, a, g), b, g)
    ensures RenderedAll(f, a + b, g) == RenderedAll(f, a, g) + RenderedAll(AfterAll(f, a, g), b, g)
  {
    if b == [] {
      assert a + b == a;
    } else {
      var n := |b| - 1;
      assert (a + b)[..|a + b| - 1] == a + b[..n];
      AfterAllAppends(f, a, b[..n], g);
    }
  }

  lemma {:induction false} FadeInState(input: seq<Sample>, g: Gains)
    ensures
      var now := AfterAll(BeginRecovery(SILENCE), input, g);
      && now.step == Min(|input|, FAULT_RAMP_SAMPLES)
      && now.state == if |input| < FAULT_RAMP_SAMPLES then FadingIn else Passing
  {
    if input != [] {
      FadeInState(input[..|input| - 1], g);
    }
  }

  lemma {:induction false} RenderedAt(f: Fade, input: seq<Sample>, g: Gains, k: nat)
    requires k < |input|
    ensures RenderedAll(f, input, g)[k] == Rendered(AfterAll(f, input[..k], g), input[k], g)
    decreases |input|
  {
    var n := |input| - 1;
    if k < n {
      RenderedAt(f, input[..n], g, k);
      assert input[..n][..k] == input[..k];
    }
  }

  lemma FadeInGain(input: seq<Sample>, g: Gains)
    requires GoodGains(g)
    ensures NextGain(AfterAll(BeginRecovery(SILENCE), input, g), g) == g(Min(|input| + 1, FAULT_RAMP_SAMPLES))
  {
    FadeInState(input, g);
  }

  /** A recovery that starts from silence uses gain step min(k + 1, 240) for its sample `k`. */
  lemma FadeInFromSilence(input: seq<Sample>, g: Gains, k: nat)
    requires GoodGains(g) && k < |input|
    ensures RenderedAll(BeginRecovery(SILENCE), input, g)[k] == Gained(Clean(input[k]), g(Min(k + 1, 240)))
  {
    RenderedAt(BeginRecovery(SILENCE), input, g, k);
    FadeInGain(input[..k], g);
  }

  /** Silence mutes everything that is played into it, for as long as nobody starts a recovery. */
  lemma {:induction false} SilenceMutes(f: Fade, input: seq<Sample>, g: Gains)
    requires f.state.Silent? && Settles(f)
    ensures RenderedAll(f, input, g) == Zeros(|input|)
    ensures AfterAll(f, input, g) == if input == [] then f else SILENCE
  {
    if input != [] {
      SilenceMutes(f, input[..|input| - 1], g);
    }
  }

  /** A fault reaches silence after exactly `step` samples, whatever is played. */
  lemma {:induction false} FadeOutSteps(f: Fade, input: seq<Sample>, g: Gains)
    requires Settles(f) && f.state.FadingOut? && 0 < f.step
    ensures
      var now := AfterAll(f, input, g);
      && Settles(now)
      && now.step == SaturatingSub(f.step, |input|)
      && (now.state.Silent? <==> |input| >= f.step)
      && (|input| < f.step ==> now.state.FadingOut?)
  {
    if input != [] {
      FadeOutSteps(f, input[..|input| - 1], g);
    }
  }

  lemma {:induction false} FadeInSteps(f: Fade, input: seq<Sample>, g: Gains)
    requires Settles(f) && f.state.FadingIn?
    ensures
      var now := AfterAll(f, input, g);
      && Settles(now) && now.step == Min(f.step + |input|, FAULT_RAMP_SAMPLES)
      && (now.state.FadingIn? || now.state.Passing?)
      && (now.state.Passing? <==> |input| > 0 && |input| >= FAULT_RAMP_SAMPLES - f.step)
  {
    if input != [] {
      FadeInSteps(f, input[..|input| - 1], g);
    }
  }

  /** A recovery reverses whatever fade is under way and is back at unity after exactly the steps that were lost. */
  lemma RecoveryReachesUnityIff(f: Fade, input: seq<Sample>, g: Gains)
    requires Settles(f) && input != []
    ensures AfterAll(BeginRecovery(f), input, g).state.Passing? <==> f.state.Passing? || |input| >= 240 - f.step
  {
    if f.state.Passing? {
      StaysPassing(f, input, g);
    } else {
      FadeInSteps(BeginRecovery(f), input, g);
    }
  }

  lemma {:induction false} StaysPassing(f: Fade, input: seq<Sample>, g: Gains)
    requires f.state.Passing?
    ensures AfterAll(f, input, g).state.Passing? && AfterAll(f, input, g).step == f.step
  {
    if input != [] {
      StaysPassing(f, input[..|input| - 1], g);
    }
  }

  /** The fade that missing input starts reaches silence within `n` samples exactly if `n` covers the gain step. */
  lemma FaultFadeEndsIff(f: Fade, n: nat, g: Gains)
    requires Settles(f)
    ensures AfterAll(BeginFault(f), HeldInput(f, n), g).state.Silent? <==> f.state.Silent? || n >= Max(1, f.step)
  {
    var held := HeldInput(f, n);
    if f.state.Silent? {
      SilenceMutes(f, held, g);
    } else if f.step > 0 {
      FadeOutSteps(BeginFault(f), held, g);
    } else if n > 0 {
      FadeFromZero(BeginFault(f), held, g);
    }
  }

  lemma {:induction false} FadeFromZero(f: Fade, input: seq<Sample>, g: Gains)
    requires f.state.FadingOut? && f.step == 0 && input != []
    ensures AfterAll(f, input, g).state.Silent? && AfterAll(f, input, g).step == 0
  {
    if |input| > 1 {
      FadeFromZero(f, input[..|input| - 1], g);
    } else {
      assert input[..0] == [];
    }
  }

  /** One sample moves the gain by at most one table entry, in every state. */
  lemma GainMovesOneStep(f: Fade, source: Sample, g: Gains)
    requires Settles(f) && GoodGains(g)
    ensures Settles(After(f, source, g))
    ensures NextGain(f, g) == g(Stepped(f).step)
    ensures -MAX_GAIN_STEP <= g(Stepped(f).step) - g(f.step) <= MAX_GAIN_STEP
    ensures 0.0 <= NextGain(f, g) <= 1.0
  {
    var step := Stepped(f).step;
    GainsRise(g, step, step);
    if step > f.step {
      assert GainStep(g, f.step);
    } else if step < f.step {
      assert GainStep(g, step);
    }
  }

  /** Starting or reversing a fade keeps the step, so it is never itself a jump. */
  lemma ReversalKeepsTheStep(f: Fade)
    requires Settles(f)
    ensures Settles(BeginFault(f)) && BeginFault(f).step == f.step
    ensures Settles(BeginRecovery(f)) && BeginRecovery(f).step == f.step
  {
  }

  /** Fades that play present audio are click-bounded, also when a fault or a recovery is begun between two samples. */
  lemma PresentAudioIsClickBounded(f: Fade, next: Fade, x: Pcm, y: Pcm, g: Gains)
    requires Settles(f) && GoodGains(g)
    requires -1.0 <= x <= 1.0 && -1.0 <= y <= 1.0
    requires next in {After(f, Finite(x), g), BeginFault(After(f, Finite(x), g)), BeginRecovery(After(f, Finite(x), g))}
    ensures Abs(Rendered(next, Finite(y), g) - Rendered(f, Finite(x), g))
         <= Abs(y - x) + MAX_GAIN_STEP + 2.0 * MIN_NORMAL
    ensures MAX_GAIN_STEP + 2.0 * MIN_NORMAL < CLICK_EXCESS_THRESHOLD
  {
    GainMovesOneStep(f, Finite(x), g);
    ReversalKeepsTheStep(After(f, Finite(x), g));
    GainMovesOneStep(next, Finite(y), g);
    var a, b := NextGain(f, g), NextGain(next, g);
    assert -MAX_GAIN_STEP <= b - a <= MAX_GAIN_STEP;
    GainedStep(x, y, a, b);
    GainedIsClose(x, a);
    GainedIsClose(y, b);
    assert Rendered(f, Finite(x), g) == Gained(x, a) && Rendered(next, Finite(y), g) == Gained(y, b);
  }

  lemma GainedIsClose(x: Pcm, gain: real)
    ensures -MIN_NORMAL <= Gained(x, gain) - x * gain <= MIN_NORMAL
  {
  }

  lemma GainedStep(x: real, y: real, a: real, b: real)
    requires -1.0 <= x <= 1.0 && 0.0 <= b <= 1.0 && -MAX_GAIN_STEP <= b - a <= MAX_GAIN_STEP
    ensures Abs(y * b - x * a) <= Abs(y - x) + MAX_GAIN_STEP
  {
    var moved, drift := b * (y - x), (b - a) * x;
    assert y * b - x * a == moved + drift;
    Scaled(y - x, Abs(y - x), b, moved);
    Scaled(y - x, Abs(y - x), 1.0 - b, (y - x) - moved);
    NonNegativeProduct(1.0 - b, Abs(y - x));
    if b >= a {
      Scaled(x, 1.0, b - a, drift);
      assert drift <= (b - a) * 1.0;
    } else {
      Scaled(x, 1.0, a - b, -drift);
      assert -drift <= (a - b) * 1.0;
    }
  }

  /**
   * Missing audio is not so lucky: the fade holds the last published sample, which already carries the gain of the
   * current step, and multiplies it by the table again. The jump is |last| * (1 - g(step - 1)) up to flushing.
   */
  lemma UnderflowJump(f: Fade, g: Gains)
    requires Settles(f) && GoodGains(g) && !f.state.Silent?
    ensures
      var jump := Abs(f.last) * (1.0 - g(SaturatingSub(f.step, 1)));
      var first := RenderedAll(BeginFault(f), HeldInput(f, 1), g)[0];
      jump - MIN_NORMAL <= Abs(first - f.last) <= jump + MIN_NORMAL
  {
    var gain := g(SaturatingSub(f.step, 1));
    GainsRise(g, SaturatingSub(f.step, 1), FAULT_RAMP_SAMPLES);
    FirstHeldSample(f, g);
    hide *;
    GainedJump(f.last, gain);
  }

  lemma FirstHeldSample(f: Fade, g: Gains)
    requires Settles(f) && GoodGains(g) && !f.state.Silent?
    ensures RenderedAll(BeginFault(f), HeldInput(f, 1), g)[0] == Gained(f.last, g(SaturatingSub(f.step, 1)))
  {
    var held := HeldInput(f, 1);
    assert held[..0] == [];
    assert RenderedAll(BeginFault(f), held, g) == [Rendered(BeginFault(f), held[0], g)];
  }

  lemma GainedJump(x: Pcm, gain: real)
    requires 0.0 <= gain <= 1.0
    ensures
      var jump := Abs(x) * (1.0 - gain);
      jump - MIN_NORMAL <= Abs(Gained(x, gain) - x) <= jump + MIN_NORMAL
  {
    GainedIsClose(x, gain);
    assert x - x * gain == x * (1.0 - gain);
    NonNegativeProduct(Abs(x), 1.0 - gain);
    assert Abs(x * (1.0 - gain)) == Abs(x) * (1.0 - gain);
  }

  /** From unity gain the underflow fade starts without a click; that is the case the fade was designed for. */
  lemma UnderflowFromUnityIsClickFree(last: Pcm, g: Gains)
    requires GoodGains(g) && -1.0 <= last <= 1.0
    ensures
      var f := Fade(Passing, FAULT_RAMP_SAMPLES, last);
      Abs(RenderedAll(BeginFault(f), HeldInput(f, 1), g)[0] - last) <= CLICK_EXCESS_THRESHOLD
  {
    var f := Fade(Passing, FAULT_RAMP_SAMPLES, last);
    UnderflowJump(f, g);
    var gain := g(SaturatingSub(f.step, 1));
    assert GainStep(g, FAULT_RAMP_SAMPLES - 1);
    assert gain == g(FAULT_RAMP_SAMPLES - 1) && g(FAULT_RAMP_SAMPLES - 1 + 1) == g(FAULT_RAMP_SAMPLES);
    SmallProduct(Abs(f.last), 1.0 - g(SaturatingSub(f.step, 1)), MAX_GAIN_STEP);
    var jump := Abs(f.last) * (1.0 - g(SaturatingSub(f.step, 1)));
    var first := RenderedAll(BeginFault(f), HeldInput(f, 1), g)[0];
    assert jump <= MAX_GAIN_STEP;
    assert Abs(first - f.last) <= jump + MIN_NORMAL;
  }

  /** Where a fade-in first reaches half gain. */
  lemma HalfGain(g: Gains) returns (k: nat)
    requires GoodGains(g)
    ensures 1 <= k < FAULT_RAMP_SAMPLES && g(k - 1) < 0.5 <= g(k) <= 1.0
  {
    k := 0;
    while g(k) < 0.5
      invariant k <= FAULT_RAMP_SAMPLES && (k > 0 ==> g(k - 1) < 0.5)
      decreases FAULT_RAMP_SAMPLES - k
    {
      k := k + 1;
    }
    assert GainStep(g, FAULT_RAMP_SAMPLES - 1);
    assert g(FAULT_RAMP_SAMPLES - 1 + 1) == g(FAULT_RAMP_SAMPLES);
    GainsRise(g, k, FAULT_RAMP_SAMPLES);
  }

  /** A fade-in of unit samples stands at the table's gain. */
  lemma UnityFadeIn(g: Gains, k: nat)
    requires GoodGains(g) && 1 <= k < FAULT_RAMP_SAMPLES && g(k) >= 0.5
    ensures AfterAll(BeginRecovery(SILENCE), seq(k, _ => Finite(1.0)), g) == Fade(FadingIn, k, g(k))
  {
    var input: seq<Sample> := seq(k, _ => Finite(1.0));
    FadeInState(input, g);
    FadeInGain(input[..k - 1], g);
    assert AfterAll(BeginRecovery(SILENCE), input, g).last ==
           Rendered(AfterAll(BeginRecovery(SILENCE), input[..k - 1], g), input[k - 1], g) == Gained(1.0, g(k));
  }

  lemma UnderflowClicks(g: Gains, k: nat)
    requires GoodGains(g) && 1 <= k < FAULT_RAMP_SAMPLES && g(k - 1) < 0.5 <= g(k) <= 1.0
    ensures
      var f := Fade(FadingIn, k, g(k));
      Abs(RenderedAll(BeginFault(f), HeldInput(f, 1), g)[0] - f.last) > 0.2
  {
    var f := Fade(FadingIn, k, g(k));
    UnderflowJump(f, g);
    hide RenderedAll, BeginFault, HeldInput;
    AtLeastAQuarter(g(k), 1.0 - g(k - 1));
  }

  /** Halfway through a fade-in the same fade clicks, for every table: unit input, and a jump of more than 0.2. */
  lemma UnderflowDuringFadeInClicks(g: Gains) returns (k: nat)
    requires GoodGains(g)
    ensures k < FAULT_RAMP_SAMPLES
    ensures
      var f := AfterAll(BeginRecovery(SILENCE), seq(k, _ => Finite(1.0)), g);
      Abs(RenderedAll(BeginFault(f), HeldInput(f, 1), g)[0] - f.last) > 0.2 > CLICK_EXCESS_THRESHOLD
  {
    k := HalfGain(g);
    UnityFadeIn(g, k);
    hide AfterAll, RenderedAll, BeginFault;
    UnderflowClicks(g, k);
  }
}
