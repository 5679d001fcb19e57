/** The click-safe strength ramp and the linear wet/dry mixer, in exact reals. */
module Strength {
  import opened Prelude
  import opened RealProducts
  import opened Samples

  function FiniteUnit(x: Sample): real {
    match x
    case Finite(v) => if v < 0.0 then 0.0 else if v > 1.0 then 1.0 else v
    case _ => 0.0
  }

  /** The state of a strength transition. */
  datatype Ramp = Ramp(current: real, target: real, step: real, remaining: nat)

  function Settled(initial: Sample): Ramp {
    Ramp(FiniteUnit(initial), FiniteUnit(initial), 0.0, 0)
  }

  function Retargeted(r: Ramp, target: Sample, requested: nat): Ramp {
    var goal := FiniteUnit(target);
    if goal == r.current then Ramp(r.current, goal, 0.0, 0)
    else
      var duration := Max(requested, MIN_STRENGTH_RAMP_SAMPLES);
      Ramp(r.current, goal, (goal - r.current) / duration as real, duration)
  }

  /** One sample later; the produced strength is the new `current`. */
  function Advanced(r: Ramp): Ramp {
    if r.remaining == 0 then r
    else if r.remaining == 1 then r.(current := r.target, remaining := 0)
    else r.(current := r.current + r.step, remaining := r.remaining - 1)
  }

  /** What every call keeps: the transition is a straight line inside [0, 1] that ends on the target. */
  ghost predicate OnTrack(r: Ramp) {
    && 0.0 <= r.current <= 1.0
    && 0.0 <= r.target <= 1.0
    && r.target - r.current == r.remaining as real * r.step
    && -1.0 <= MIN_STRENGTH_RAMP_SAMPLES as real * r.step <= 1.0
  }

  lemma RetargetedOnTrack(r: Ramp, target: Sample, requested: nat)
    requires OnTrack(r)
    ensures OnTrack(Retargeted(r, target, requested))
  {
    var goal := FiniteUnit(target);
    if goal != r.current {
      var duration := Max(requested, MIN_STRENGTH_RAMP_SAMPLES) as real;
      var step := (goal - r.current) / duration;
      assert duration * step == goal - r.current;
      SmallerFactor(step, MIN_STRENGTH_RAMP_SAMPLES as real, duration);
    }
  }

  lemma SmallerFactor(x: real, small: real, large: real)
    requires 0.0 <= small <= large
    ensures Abs(small * x) <= Abs(large * x)
    ensures 0.0 <= x ==> 0.0 <= small * x <= large * x
    ensures x <= 0.0 ==> large * x <= small * x <= 0.0
  {
    if x >= 0.0 {
      assert (large - small) * x >= 0.0 && small * x >= 0.0;
    } else {
      assert (large - small) * -x >= 0.0 && small * -x >= 0.0;
    }
  }

  lemma AdvancedOnTrack(r: Ramp)
    requires OnTrack(r)
    ensures OnTrack(Advanced(r))
    ensures Advanced(r).target == r.target
    ensures -1.0 <= MIN_STRENGTH_RAMP_SAMPLES as real * (Advanced(r).current - r.current) <= 1.0
  {
    if r.remaining == 1 {
      assert r.target - r.current == r.step;
    } else if r.remaining > 1 {
      assert (r.remaining - 1) as real * r.step == r.remaining as real * r.step - r.step;
      SmallerFactor(r.step, 1.0, r.remaining as real);
    }
  }

  class StrengthRamp {
    var current: real
    var target: real
    var step: real
    var remaining: nat

    function Value(): Ramp
      reads this
    {
      Ramp(current, target, step, remaining)
    }

    constructor (initial: Sample)
      ensures Value() == Settled(initial) && OnTrack(Value())
    {
      current := FiniteUnit(initial);
      target := FiniteUnit(initial);
      step := 0.0;
      remaining := 0;
    }

    method SetTarget(newTarget: Sample, requestedSamples: nat)
      requires OnTrack(Value())
      modifies this
      ensures Value() == Retargeted(old(Value()), newTarget, requestedSamples)
      ensures OnTrack(Value())
    {
      RetargetedOnTrack(Value(), newTarget, requestedSamples);
      var goal := FiniteUnit(newTarget);
      if goal == current {
        target, step, remaining := goal, 0.0, 0;
        return;
      }
      var duration := Max(requestedSamples, MIN_STRENGTH_RAMP_SAMPLES);
      target := goal;
      step := (goal - current) / duration as real;
      remaining := duration;
    }

    method Next() returns (strength: real)
      requires OnTrack(Value())
      modifies this
      ensures Value() == Advanced(old(Value())) && strength == current
      ensures OnTrack(Value())
    {
      AdvancedOnTrack(Value());
      if remaining == 0 {
        return current;
      }
      remaining := remaining - 1;
      if remaining == 0 {
        current := target;
      } else {
        current := current + step;
      }
      strength := current;
    }
  }

  function AdvancedBy(r: Ramp, n: nat): Ramp {
    if n == 0 then r else Advanced(AdvancedBy(r, n - 1))
  }

  lemma {:induction false} AdvancedByOnTrack(r: Ramp, n: nat)
    requires OnTrack(r)
    ensures OnTrack(AdvancedBy(r, n))
    ensures AdvancedBy(r, n).remaining == if n < r.remaining then r.remaining - n else 0
    ensures AdvancedBy(r, n).target == r.target && AdvancedBy(r, n).step == r.step
  {
    if n > 0 {
      AdvancedByOnTrack(r, n - 1);
      AdvancedOnTrack(AdvancedBy(r, n - 1));
    }
  }

  /** Until it ends on the target, the strength moves along a straight line. */
  lemma {:induction false} StraightLine(r: Ramp, n: nat)
    ensures AdvancedBy(r, n).current ==
      if r.remaining == 0 then r.current
      else if n >= r.remaining then r.target
      else r.current + n as real * r.step
    ensures AdvancedBy(r, n).remaining == (if n < r.remaining then r.remaining - n else 0)
    ensures AdvancedBy(r, n).target == r.target && AdvancedBy(r, n).step == r.step
  {
    if n > 0 {
      StraightLine(r, n - 1);
      assert (n - 1) as real * r.step + r.step == n as real * r.step;
    }
  }

  /** A nontrivial change lands exactly on the target after max(requested, 960) samples, and never sooner. */
  lemma LandsExactly(r: Ramp, target: Sample, requested: nat, n: nat)
    requires OnTrack(r) && FiniteUnit(target) != r.current
    ensures AdvancedBy(Retargeted(r, target, requested), n).current == FiniteUnit(target)
       <==> n >= Max(requested, MIN_STRENGTH_RAMP_SAMPLES)
  {
    var started := Retargeted(r, target, requested);
    RetargetedOnTrack(r, target, requested);
    AdvancedByOnTrack(started, n);
    var now := AdvancedBy(started, n);
    if n < started.remaining {
      assert started.remaining as real * started.step != 0.0;
      assert now.remaining as real * now.step != 0.0;
    }
  }

  datatype MixReport = MixReport(sanitized: SanitizeReport, hardCeiling: nat)

  function Blend(dry: real, wet: real, strength: real): real {
    if strength <= 0.0 then dry else if strength >= 1.0 then wet else dry * (1.0 - strength) + wet * strength
  }

  function Ceiling(x: real): real {
    if x < -1.0 then -1.0 else if x > 1.0 then 1.0 else x
  }

  /** The mixed sample, as a value. */
  function Mixed(dry: Sample, wet: Sample, strength: Sample): Pcm {
    var x := Flush(Blend(Clean(dry), Clean(wet), FiniteUnit(strength)));
    CeilingIsPcm(x);
    Ceiling(x)
  }

  lemma CeilingIsPcm(x: Pcm)
    ensures !Subnormal(Ceiling(x))
  {
  }

  function MixCounted(dry: Sample, wet: Sample, strength: Sample, report: MixReport): MixReport {
    var inputs := Counted(wet, Counted(dry, report.sanitized));
    var blend := Blend(Clean(dry), Clean(wet), FiniteUnit(strength));
    var x := Flush(blend);
    MixReport(Counted(Finite(blend), inputs),
              if -1.0 <= x <= 1.0 then report.hardCeiling else report.hardCeiling + 1)
  }

  /** `LinearMixer::mix`: the ends of the range pass one side through unblended. */
  method Mix(dry: Sample, wet: Sample, strength: Sample, report: MixReport) returns (mixed: Pcm, next: MixReport)
    ensures mixed == Mixed(dry, wet, strength)
    ensures next == MixCounted(dry, wet, strength, report)
    ensures -1.0 <= mixed <= 1.0
    ensures FiniteUnit(strength) == 0.0 ==> mixed == Ceiling(Clean(dry))
    ensures FiniteUnit(strength) == 1.0 ==> mixed == Ceiling(Clean(wet))
  {
    var sanitized := Counted(wet, Counted(dry, report.sanitized));
    var d, w, s := Clean(dry), Clean(wet), FiniteUnit(strength);
    var blend := Blend(d, w, s);
    sanitized := Counted(Finite(blend), sanitized);
    var x := Flush(blend);
    CeilingIsPcm(x);
    mixed := Ceiling(x);
    next := MixReport(sanitized, if -1.0 <= x <= 1.0 then report.hardCeiling else report.hardCeiling + 1);
  }

  /** Strengths outside the unit interval act as its nearest end, and what is no number as dry. */
  lemma UnitIsNearest(x: Sample, t: real)
    ensures 0.0 <= FiniteUnit(x) <= 1.0
    ensures x.Finite? && 0.0 <= t <= 1.0 ==> Abs(FiniteUnit(x) - x.value) <= Abs(t - x.value)
    ensures !x.Finite? ==> FiniteUnit(x) == 0.0
  {
  }

  lemma BlendIsLinear(d: real, w: real, s: real)
    requires 0.0 <= s <= 1.0
    ensures Blend(d, w, s) == (1.0 - s) * d + s * w
  {
    assert d * (1.0 - s) == (1.0 - s) * d && w * s == s * w;
  }

  lemma CountsThree(a: Sample, b: Sample, c: Sample, report: SanitizeReport)
    ensures CountedAll([a, b, c], report) == Counted(c, Counted(b, Counted(a, report)))
  {
    assert [a, b, c][..2] == [a, b] && [a, b][..1] == [a] && [a][..0] == [];
    assert CountedAll([a], report) == Counted(a, report);
    assert CountedAll([a, b], report) == Counted(b, Counted(a, report));
  }

  /** The blend of sanitized samples, before it is sanitized and limited itself. */
  function Linear(dry: Sample, wet: Sample, strength: Sample): real {
    (1.0 - FiniteUnit(strength)) * Clean(dry) + FiniteUnit(strength) * Clean(wet)
  }

  lemma BlendIsLinearHere(dry: Sample, wet: Sample, strength: Sample)
    ensures Blend(Clean(dry), Clean(wet), FiniteUnit(strength)) == Linear(dry, wet, strength)
  {
    UnitIsNearest(strength, 0.0);
    BlendIsLinear(Clean(dry), Clean(wet), FiniteUnit(strength));
  }

  /** For any samples and any strength, the mixer's output is the full-scale value nearest to the flushed linear blend. */
  lemma MixIsNearest(dry: Sample, wet: Sample, strength: Sample, t: real)
    ensures
      var blend, mixed := Flush(Linear(dry, wet, strength)), Mixed(dry, wet, strength);
      -1.0 <= mixed <= 1.0 && (-1.0 <= t <= 1.0 ==> Abs(mixed - blend) <= Abs(t - blend))
  {
    hide Blend, Linear, FiniteUnit, Clean;
    BlendIsLinearHere(dry, wet, strength);
  }

  /** What the mixer counts: each of the three values it had to replace, and whether it had to limit. */
  lemma MixCountsExactly(dry: Sample, wet: Sample, strength: Sample, report: MixReport)
    ensures
      var blend, counted := Linear(dry, wet, strength), MixCounted(dry, wet, strength, report);
      && counted.hardCeiling == (report.hardCeiling + if Mixed(dry, wet, strength) == Flush(blend) then 0 else 1)
      && counted.sanitized == CountedAll([dry, wet, Finite(blend)], report.sanitized)
  {
    hide Blend, Linear, FiniteUnit, Clean, Counted, CountedAll;
    BlendIsLinearHere(dry, wet, strength);
    CountsThree(dry, wet, Finite(Linear(dry, wet, strength)), report.sanitized);
  }

  /** What happens to a ramp and its mixer: a new target, or one dry/wet pair to mix. */
  datatype Event = Target(target: Sample, requested: nat) | Pair(dry: Pcm, wet: Pcm)

  datatype Tick = Tick(dry: Pcm, wet: Pcm, strength: real, mixed: Pcm)

  function Ticks(r: Ramp, events: seq<Event>): seq<Tick>
    decreases |events|
  {
    if events == [] then []
    else match events[0]
      case Target(t, n) => Ticks(Retargeted(r, t, n), events[1..])
      case Pair(d, w) =>
        var next := Advanced(r);
        [Tick(d, w, next.current, Mixed(Finite(d), Finite(w), Finite(next.current)))] + Ticks(next, events[1..])
  }

  ghost predicate InRange(events: seq<Event>) {
    forall i :: 0 <= i < |events| && events[i].Pair? ==>
      -1.0 <= events[i].dry <= 1.0 && -1.0 <= events[i].wet <= 1.0
  }

  ghost predicate GoodTick(t: Tick) {
    && 0.0 <= t.strength <= 1.0
    && -1.0 <= t.dry <= 1.0 && -1.0 <= t.wet <= 1.0
    && t.mixed == Flush(Blend(t.dry, t.wet, t.strength))
  }

  ghost predicate SmallStep(before: real, after: real) {
    -1.0 <= MIN_STRENGTH_RAMP_SAMPLES as real * (after - before) <= 1.0
  }

  ghost predicate GoodTicks(last: real, ticks: seq<Tick>)
    decreases |ticks|
  {
    ticks == [] ||
    (GoodTick(ticks[0]) && SmallStep(last, ticks[0].strength) && GoodTicks(ticks[0].strength, ticks[1..]))
  }

  /** In range, the mixer only blends and flushes: the ceiling is never hit, so nothing is counted against it. */
  lemma CeilingNeverHit(d: Pcm, w: Pcm, s: real, report: MixReport)
    requires 0.0 <= s <= 1.0 && -1.0 <= d <= 1.0 && -1.0 <= w <= 1.0
    ensures Mixed(Finite(d), Finite(w), Finite(s)) == Flush(Blend(d, w, s))
    ensures MixCounted(Finite(d), Finite(w), Finite(s), report).hardCeiling == report.hardCeiling
  {
    BlendInRange(d, w, s);
  }

  /** Over any run, strengths stay in [0, 1], move by at most 1/960 per sample, and nothing is clamped. */
  lemma {:induction false} TicksAreGood(r: Ramp, events: seq<Event>)
    requires OnTrack(r) && InRange(events)
    ensures GoodTicks(r.current, Ticks(r, events))
    decreases |events|
  {
    if events != [] {
      match events[0]
      case Target(t, n) =>
        RetargetedOnTrack(r, t, n);
        TicksAreGood(Retargeted(r, t, n), events[1..]);
      case Pair(d, w) =>
        var next := Advanced(r);
        AdvancedOnTrack(r);
        TicksAreGood(next, events[1..]);
        CeilingNeverHit(d, w, next.current, MixReport(NO_REPLACEMENTS, 0));
        assert Ticks(r, events)[1..] == Ticks(next, events[1..]);
    }
  }

  lemma {:induction false} GoodTickAt(last: real, ticks: seq<Tick>, i: nat)
    requires GoodTicks(last, ticks) && i < |ticks|
    ensures GoodTick(ticks[i])
    ensures i > 0 ==> SmallStep(ticks[i - 1].strength, ticks[i].strength)
    decreases i
  {
    if i == 1 {
      assert ticks[1..][0] == ticks[1];
    } else if i > 1 {
      GoodTickAt(ticks[0].strength, ticks[1..], i - 1);
    }
  }

  lemma BlendInRange(d: real, w: real, s: real)
    requires 0.0 <= s <= 1.0 && -1.0 <= d <= 1.0 && -1.0 <= w <= 1.0
    ensures -1.0 <= Blend(d, w, s) <= 1.0
    ensures Blend(d, w, s) == (1.0 - s) * d + s * w
  {
    var dryShare, wetShare := (1.0 - s) * d, s * w;
    Scaled(d, 1.0, 1.0 - s, dryShare);
    Scaled(w, 1.0, s, wetShare);
    assert dryShare <= 1.0 - s && wetShare <= s;
    assert d * (1.0 - s) + w * s == dryShare + wetShare;
  }

  /** Two neighbouring blends differ by at most the larger input step plus 2/960. */
  lemma BlendStep(d: real, w: real, s: real, d': real, w': real, s': real)
    requires 0.0 <= s <= 1.0 && 0.0 <= s' <= 1.0 && -1.0 <= 960.0 * (s' - s) <= 1.0
    requires -1.0 <= d <= 1.0 && -1.0 <= w <= 1.0 && -1.0 <= d' <= 1.0 && -1.0 <= w' <= 1.0
    ensures Abs(Blend(d', w', s') - Blend(d, w, s)) <= MaxReal(Abs(d' - d), Abs(w' - w)) + 2.0 / 960.0
  {
    BlendInRange(d, w, s);
    BlendInRange(d', w', s');
    var bound := MaxReal(Abs(d' - d), Abs(w' - w));
    var shares := (1.0 - s') * (d' - d) + s' * (w' - w);
    var drift := (s' - s) * (w - d);
    StepSplits(d, w, s, d', w', s', shares, drift);
    SharesWithin(d' - d, w' - w, s', bound, shares);
    DriftWithin(s' - s, w - d, drift);
  }

  lemma StepSplits(d: real, w: real, s: real, d': real, w': real, s': real, shares: real, drift: real)
    requires shares == (1.0 - s') * (d' - d) + s' * (w' - w)
    requires drift == (s' - s) * (w - d)
    ensures ((1.0 - s') * d' + s' * w') - ((1.0 - s) * d + s * w) == shares + drift
  {
  }

  lemma SharesWithin(x: real, y: real, s: real, bound: real, shares: real)
    requires 0.0 <= s <= 1.0 && -bound <= x <= bound && -bound <= y <= bound
    requires shares == (1.0 - s) * x + s * y
    ensures -bound <= shares <= bound
  {
    Scaled(x, bound, 1.0 - s, (1.0 - s) * x);
    Scaled(y, bound, s, s * y);
    assert (1.0 - s) * bound + s * bound == bound;
  }

  lemma DriftWithin(change: real, gap: real, drift: real)
    requires -1.0 <= 960.0 * change <= 1.0 && -2.0 <= gap <= 2.0
    requires drift == change * gap
    ensures -2.0 / 960.0 <= drift <= 2.0 / 960.0
  {
    if change >= 0.0 {
      Scaled(gap, 2.0, change, drift);
      assert drift <= change * 2.0;
    } else {
      Scaled(gap, 2.0, -change, -drift);
      assert drift <= -change * 2.0;
    }
  }

  /** The promise to listeners: no run of targets and samples adds an audible click. */
  lemma ClickBound(r: Ramp, events: seq<Event>, i: nat)
    requires OnTrack(r) && InRange(events) && 0 < i < |Ticks(r, events)|
    ensures
      var before, after := Ticks(r, events)[i - 1], Ticks(r, events)[i];
      && -1.0 <= after.mixed <= 1.0
      && Abs(after.mixed - before.mixed)
           <= MaxReal(Abs(after.dry - before.dry), Abs(after.wet - before.wet)) + 2.0 / 960.0 + 2.0 * MIN_NORMAL
      && 2.0 / 960.0 + 2.0 * MIN_NORMAL < CLICK_EXCESS_THRESHOLD
  {
    TicksAreGood(r, events);
    var before, after := Ticks(r, events)[i - 1], Ticks(r, events)[i];
    GoodTickAt(r.current, Ticks(r, events), i - 1);
    GoodTickAt(r.current, Ticks(r, events), i);
    BlendStep(before.dry, before.wet, before.strength, after.dry, after.wet, after.strength);
    BlendInRange(after.dry, after.wet, after.strength);
  }
}
