/** Whole runs of the live path, in every environment: what it publishes, when it fails, and what a reset forgets. */
module LiveRuns {
  import opened Prelude
  import opened Samples
  import opened Framing
  import opened DryDelayLine
  import opened Strength
  import opened LiveStream

  type Event = LiveStream.Event

  /** Model and ring both do their part for frame `k`, whose block is the `offered + k`-th. */
  predicate Succeeds(env: Surroundings, offered: nat, frames: seq<Frame>, k: nat)
    requires k < |frames|
  {
    env.model(frames[..k + 1]).Some? && env.accepts(offered + k)
  }

  /** The first of the frames at which one of them fails, or how many there are. */
  function Breaks(env: Surroundings, offered: nat, frames: seq<Frame>, n: nat): (first: nat)
    requires n <= |frames|
    ensures first <= n && forall k :: 0 <= k < first ==> Succeeds(env, offered, frames, k)
    ensures first < n ==> !Succeeds(env, offered, frames, first)
  {
    if n == 0 then 0
    else
      var first := Breaks(env, offered, frames, n - 1);
      if first < n - 1 then first else if Succeeds(env, offered, frames, n - 1) then n else n - 1
  }

  /** The strengths and the policies in force, frame by frame. */
  datatype Plan = Plan(ramps: seq<Ramp>, modes: seq<FailMode>)

  ghost predicate Fits(plan: Plan, input: seq<Pcm>) {
    |plan.ramps| == |plan.modes| && Covers(input, |plan.ramps|)
  }

  /** What is published for frame `k`: the mix as long as nothing has failed, then the delayed input if the policy is Open. */
  ghost function Block(env: Surroundings, offered: nat, plan: Plan, input: seq<Pcm>, k: nat): seq<Frame>
    requires Fits(plan, input) && k < |plan.ramps|
  {
    var frames := Frames(MODEL_FRAME_SAMPLES, input);
    var dry := IdealDry(env.delay, input, k);
    if Breaks(env, offered, frames, k) == k && env.model(frames[..k + 1]).Some?
    then [MixedFrame(dry, env.model(frames[..k + 1]).value, plan.ramps[k])]
    else if plan.modes[k].Open? then [dry] else []
  }

  ghost function Published(env: Surroundings, offered: nat, plan: Plan, input: seq<Pcm>, n: nat): seq<Frame>
    requires Fits(plan, input) && n <= |plan.ramps|
  {
    if n == 0 then [] else Published(env, offered, plan, input, n - 1) + Block(env, offered, plan, input, n - 1)
  }

  lemma {:induction false} OneBlockEach(env: Surroundings, offered: nat, plan: Plan, input: seq<Pcm>, n: nat)
    requires Fits(plan, input) && n <= |plan.ramps|
    requires Breaks(env, offered, Frames(MODEL_FRAME_SAMPLES, input), n) == n
    ensures |Published(env, offered, plan, input, n)| == n
  {
    if n > 0 {
      OneBlockEach(env, offered, plan, input, n - 1);
    }
  }

  /** One of the model calls after the first `calls` is a deadline miss that fills the miss window. */
  ghost predicate Degrades(env: Surroundings, calls: nat, n: nat) {
    exists c :: calls < c <= calls + n && env.degrades(c)
  }

  /** The state after `n` frames, of which the first `first` went well. */
  ghost predicate Reports(env: Surroundings, s: Sink, frames: seq<Frame>, n: nat, first: nat, now: Sink)
    requires first <= n <= |frames|
  {
    && now.failed == (first < n)
    && now.seen == frames[..Min(first + 1, n)] && now.modelCalls == s.modelCalls + Min(first + 1, n)
    && now.state ==
       if first < n then if env.model(frames[..first + 1]).None? then ModelFailed else TransportFailed
       else if Degrades(env, s.modelCalls, n) then DegradedPerformance
       else s.state
  }

  /** Everything that `n` frames of the stream make of a cleared sink, in any environment. */
  ghost predicate AfterAny(env: Surroundings, s: Sink, plan: Plan, input: seq<Pcm>, n: nat, now: Sink)
    requires Fits(plan, input) && n <= |plan.ramps|
  {
    var frames := Frames(MODEL_FRAME_SAMPLES, input);
    && now.line == Held(Zeros(env.delay), input[..n * MODEL_FRAME_SAMPLES])
    && now.offers == s.offers + Published(env, |s.offers|, plan, input, n)
    && Reports(env, s, frames, n, Breaks(env, |s.offers|, frames, n), now)
  }

  lemma DegradesOneMore(env: Surroundings, calls: nat, n: nat)
    ensures Degrades(env, calls, n + 1) <==> Degrades(env, calls, n) || env.degrades(calls + n + 1)
  {
    if c :| calls < c <= calls + n && env.degrades(c) {
      assert calls < c <= calls + (n + 1);
    }
  }

  /** One frame more reports what it should. */
  lemma ReportsOneMore(env: Surroundings, s: Sink, frames: seq<Frame>, n: nat, now: Sink)
    requires n < |frames| && Reports(env, s, frames, n, Breaks(env, |s.offers|, frames, n), now)
    requires !now.failed ==> |now.offers| == |s.offers| + n
    ensures Reports(env, s, frames, n + 1, Breaks(env, |s.offers|, frames, n + 1), FrameStep(env, now, frames[n]))
  {
    DegradesOneMore(env, s.modelCalls, n);
    if !now.failed {
      assert now.seen + [frames[n]] == frames[..n + 1];
    }
  }

  lemma AnyFrame(env: Surroundings, s: Sink, plan: Plan, input: seq<Pcm>, n: nat, now: Sink)
    requires Fits(plan, input) && n < |plan.ramps| && AfterAny(env, s, plan, input, n, now)
    requires now.failMode == plan.modes[n] && (!now.failed ==> now.ramp == plan.ramps[n])
    ensures
      var next := FrameStep(env, now, Frames(MODEL_FRAME_SAMPLES, input)[n]);
      && AfterAny(env, s, plan, input, n + 1, next) && next.failMode == now.failMode
      && (!next.failed ==> !now.failed && next.ramp == AdvancedBy(now.ramp, MODEL_FRAME_SAMPLES))
  {
    hide Reports, Published, Breaks;
    var frames := Frames(MODEL_FRAME_SAMPLES, input);
    StreamFrame(env.delay, input, n);
    ReportsFailure(env, s, frames, n, now);
    if !now.failed {
      OneBlockEach(env, |s.offers|, plan, input, n);
    }
    ReportsOneMore(env, s, frames, n, now);
    PublishedOneMore(env, |s.offers|, plan, input, n);
  }

  lemma PublishedOneMore(env: Surroundings, offered: nat, plan: Plan, input: seq<Pcm>, n: nat)
    requires Fits(plan, input) && n < |plan.ramps|
    ensures
      Published(env, offered, plan, input, n + 1) == Published(env, offered, plan, input, n) + Block(env, offered, plan, input, n)
  {
  }

  lemma ReportsFailure(env: Surroundings, s: Sink, frames: seq<Frame>, n: nat, now: Sink)
    requires n < |frames| && Reports(env, s, frames, n, Breaks(env, |s.offers|, frames, n), now)
    ensures !now.failed <==> Breaks(env, |s.offers|, frames, n) == n
    ensures !now.failed ==> now.seen + [frames[n]] == frames[..n + 1]
  {
  }

  /** Frames `m` to `m + count` are planned at one policy and, while nothing has failed, along one ramp. */
  ghost predicate Along(plan: Plan, m: nat, count: nat, now: Sink) {
    && m + count <= |plan.ramps| == |plan.modes|
    && (forall i :: m <= i < m + count ==> plan.modes[i] == now.failMode)
    && (!now.failed ==> forall i :: 0 <= i < count ==> plan.ramps[m + i] == AdvancedBy(now.ramp, i * MODEL_FRAME_SAMPLES))
  }

  lemma {:induction false} AnyFrames(env: Surroundings, s: Sink, plan: Plan, input: seq<Pcm>, m: nat, now: Sink, count: nat)
    requires Fits(plan, input) && Along(plan, m, count, now) && AfterAny(env, s, plan, input, m, now)
    ensures
      var next := FrameSteps(env, now, Frames(MODEL_FRAME_SAMPLES, input)[m..m + count]);
      && AfterAny(env, s, plan, input, m + count, next) && next.failMode == now.failMode
      && (!next.failed ==> !now.failed && next.ramp == AdvancedBy(now.ramp, count * MODEL_FRAME_SAMPLES))
  {
    hide AfterAny, FrameStep, Frames;
    var frames := Frames(MODEL_FRAME_SAMPLES, input)[m..m + count];
    if count > 0 {
      AnyFrames(env, s, plan, input, m, now, count - 1);
      assert frames[..count - 1] == Frames(MODEL_FRAME_SAMPLES, input)[m..m + count - 1];
      var before := FrameSteps(env, now, frames[..count - 1]);
      assert plan.modes[m + count - 1] == now.failMode;
      assert !before.failed ==> plan.ramps[m + (count - 1)] == before.ramp;
      AnyFrame(env, s, plan, input, m + count - 1, before);
      AdvancedByAdds(now.ramp, (count - 1) * MODEL_FRAME_SAMPLES, MODEL_FRAME_SAMPLES);
    }
  }

  /** The plan that the parameter reads of the callbacks make. */
  function Planned(s: Sink, events: seq<Event>): (plan: Plan)
    requires OnlyWrites(events)
    ensures |plan.ramps| == |plan.modes| == Completed(0, events)
  {
    Plan(Strengths(s.ramp, 0, events).ramps, Policies(s.failMode, 0, events))
  }

  ghost predicate Extends(longer: Plan, plan: Plan) {
    plan.ramps <= longer.ramps && plan.modes <= longer.modes
  }

  /** The state between two callbacks. */
  ghost predicate AfterCallbacks(
    env: Surroundings, s: Sink, plan: Plan, input: seq<Pcm>, done: seq<Pcm>, ramp: Ramp, mode: FailMode, now: Sink)
    requires Fits(plan, input) && |done| / MODEL_FRAME_SAMPLES <= |plan.ramps|
  {
    && AfterAny(env, s, plan, input, |done| / MODEL_FRAME_SAMPLES, now)
    && now.failMode == mode && (!now.failed ==> now.ramp == ramp) && now.pending == Rest(MODEL_FRAME_SAMPLES, done)
  }

  /** One callback of any run. */
  lemma AnyCallback(
    env: Surroundings, s: Sink, plan: Plan, input: seq<Pcm>, done: seq<Pcm>, ramp: Ramp, before: Sink, e: Event)
    requires Fits(plan, input) && e.Write? && done + CleanAll(e.samples) <= input
    requires |done + CleanAll(e.samples)| / MODEL_FRAME_SAMPLES <= |plan.ramps| && |done| / MODEL_FRAME_SAMPLES <= |plan.ramps|
    requires AfterCallbacks(env, s, plan, input, done, ramp, before.failMode, before)
    requires
      var m, n := |done| / MODEL_FRAME_SAMPLES, |done + CleanAll(e.samples)| / MODEL_FRAME_SAMPLES;
      m <= n && Along(plan, m, n - m, Applied(before.(ramp := ramp), e.loaded))
    ensures
      var m, n := |done| / MODEL_FRAME_SAMPLES, |done + CleanAll(e.samples)| / MODEL_FRAME_SAMPLES;
      AfterCallbacks(env, s, plan, input, done + CleanAll(e.samples),
                     AdvancedBy(Steered(ramp, e.loaded), (n - m) * MODEL_FRAME_SAMPLES), Policy(before.failMode, e.loaded),
                     EventStep(env, before, e))
  {
    hide FrameStep, FrameSteps, Frames, Rest, Published;
    NextFrames(done, CleanAll(e.samples), input);
    var m, n := |done| / MODEL_FRAME_SAMPLES, |done + CleanAll(e.samples)| / MODEL_FRAME_SAMPLES;
    AnyFrames(env, s, plan, input, m, Applied(before, e.loaded), n - m);
  }

  /** The plan of one callback more. */
  lemma PlannedOneMore(s: Sink, events: seq<Event>, plan: Plan)
    requires OnlyWrites(events) && events != [] && Extends(plan, Planned(s, events)) && |plan.ramps| == |plan.modes|
    ensures
      var n := |events| - 1;
      var front := events[..n];
      var m, count := Completed(0, front), Completed(0, events) - Completed(0, front);
      && Completed(0, front) <= Completed(0, events) && Extends(plan, Planned(s, front))
      && (forall i :: m <= i < m + count ==> plan.modes[i] == PolicyAfter(s.failMode, events))
      && (forall i :: 0 <= i < count ==>
            plan.ramps[m + i] == AdvancedBy(Steered(Strengths(s.ramp, 0, front).ramp, events[n].loaded), i * MODEL_FRAME_SAMPLES))
  {
    var n := |events| - 1;
    var front := events[..n];
    var m, count := Completed(0, front), Completed(0, events) - Completed(0, front);
    var p := Planned(s, events);
    assert Planned(s, front).ramps == p.ramps[..m] && Planned(s, front).modes == p.modes[..m];
    assert forall i :: m <= i < m + count ==> p.ramps[i] == plan.ramps[i];
    assert forall i :: m <= i < m + count ==> p.modes[i] == plan.modes[i];
  }

  lemma NothingPublishedYet(env: Surroundings, s: Sink, plan: Plan, input: seq<Pcm>)
    requires Cleared(env, s) && Fits(plan, input)
    ensures AfterCallbacks(env, s, plan, input, CleanAll([]), s.ramp, s.failMode, s)
  {
    assert Held(Zeros(env.delay), input[..0]) == Zeros(env.delay);
    assert CleanAll([]) == [] && Rest(MODEL_FRAME_SAMPLES, CleanAll([])) == [];
    assert Frames(MODEL_FRAME_SAMPLES, input)[..0] == [];
  }

  lemma {:induction false} AnyEvents(env: Surroundings, s: Sink, plan: Plan, input: seq<Pcm>, events: seq<Event>)
    requires Cleared(env, s) && OnlyWrites(events) && CleanAll(Received(events)) <= input
    requires Fits(plan, input) && Extends(plan, Planned(s, events))
    ensures
      AfterCallbacks(env, s, plan, input, CleanAll(Received(events)), Strengths(s.ramp, 0, events).ramp,
                     PolicyAfter(s.failMode, events), EventSteps(env, s, events))
  {
    hide AfterCallbacks, EventStep, Frames, Rest;
    if events == [] {
      NothingPublishedYet(env, s, plan, input);
    } else {
      var n := |events| - 1;
      var front := events[..n];
      var done, x := CleanAll(Received(front)), CleanAll(events[n].samples);
      CleanAllAppends(Received(front), events[n].samples);
      PlannedOneMore(s, events, plan);
      AnyEvents(env, s, plan, input, front);
      SameMode(env, s, plan, input, done, Strengths(s.ramp, 0, front).ramp, PolicyAfter(s.failMode, front),
               EventSteps(env, s, front));
      AnyCallback(env, s, plan, input, done, Strengths(s.ramp, 0, front).ramp, EventSteps(env, s, front), events[n]);
    }
  }

  lemma SameMode(
    env: Surroundings, s: Sink, plan: Plan, input: seq<Pcm>, done: seq<Pcm>, ramp: Ramp, mode: FailMode, now: Sink)
    requires Fits(plan, input) && |done| / MODEL_FRAME_SAMPLES <= |plan.ramps|
    requires AfterCallbacks(env, s, plan, input, done, ramp, mode, now)
    ensures now.failMode == mode
  {
  }

  /**
   * The live sink in every environment: for any callbacks and any parameter reads, and wherever model or ring fail first,
   * it publishes exactly the stream's blocks until then and the delayed input after that, as the policy of each callback
   * says. It hands the model every frame up to the failure and none after it, and names the one that failed.
   */
  lemma EveryRunIsTheStream(env: Surroundings, s: Sink, events: seq<Event>)
    requires Cleared(env, s) && OnlyWrites(events)
    ensures
      var input := CleanAll(Received(events));
      var plan := Planned(s, events);
      var now := EventSteps(env, s, events);
      && |plan.ramps| == |input| / MODEL_FRAME_SAMPLES && Fits(plan, input)
      && AfterAny(env, s, plan, input, |plan.ramps|, now) && now.pending == Rest(MODEL_FRAME_SAMPLES, input)
  {
    var input := CleanAll(Received(events));
    FrameAt(MODEL_FRAME_SAMPLES, input, 0);
    AnyEvents(env, s, Planned(s, events), input, events);
  }

  lemma {:induction false} EventStepsAppend(env: Surroundings, s: Sink, a: seq<Event>, b: seq<Event>)
    ensures EventSteps(env, s, a + b) == EventSteps(env, EventSteps(env, s, a), b)
  {
    if b == [] {
      assert a + b == a;
    } else {
      assert (a + b)[..|a + b| - 1] == a + b[..|b| - 1];
      EventStepsAppend(env, s, a, b[..|b| - 1]);
    }
  }

  /** A reset forgets every sample, and the failure; what was set by the user stays. */
  lemma ResetForgets(env: Surroundings, s: Sink)
    ensures
      var clean := EventStep(env, s, Reset);
      && Cleared(env, clean) && clean.state.Running?
      && clean.ramp == s.ramp && clean.failMode == s.failMode && clean.offers == s.offers && clean.modelCalls == s.modelCalls
  {
  }

  /** So does the construction, which also starts fully wet and fails closed. */
  lemma FreshIsClean(env: Surroundings)
    ensures Cleared(env, Fresh(env)) && Fresh(env).failMode.Closed? && Fresh(env).offers == []
    ensures forall n: nat :: AdvancedBy(Fresh(env).ramp, n).current == 1.0
  {
    forall n: nat
      ensures AdvancedBy(Fresh(env).ramp, n) == Fresh(env).ramp
    {
      StaysSettled(Fresh(env).ramp, n);
    }
  }

  lemma {:induction false} StaysSettled(r: Ramp, n: nat)
    requires r.remaining == 0
    ensures AdvancedBy(r, n) == r
  {
    if n > 0 {
      StaysSettled(r, n - 1);
    }
  }

  /**
   * Input generations do not mix on the live path: whatever went before a reset, the model sees only the frames of the
   * samples received since, and all of them while nothing fails. What is published since are their blocks, behind a
   * delay line that was silent at the reset.
   */
  lemma ResetSeparatesGenerations(env: Surroundings, s: Sink, before: seq<Event>, since: seq<Event>)
    requires OnlyWrites(since)
    ensures
      var clean := EventSteps(env, s, before + [Reset]);
      var input := CleanAll(Received(since));
      var frames := Frames(MODEL_FRAME_SAMPLES, input);
      var plan := Planned(clean, since);
      var now := EventSteps(env, s, before + [Reset] + since);
      && now.seen <= frames && (!now.failed ==> now.seen == frames)
      && now.pending == Rest(MODEL_FRAME_SAMPLES, input)
      && Fits(plan, input)
      && now.offers == EventSteps(env, s, before).offers + Published(env, |clean.offers|, plan, input, |plan.ramps|)
      && (Healthy(env) ==>
            && !now.failed && |now.offers| == |clean.offers| + |plan.ramps|
            && AreBlocks(env, plan.ramps, input, now.offers[|clean.offers|..]))
  {
    var dirty := EventSteps(env, s, before);
    var clean := EventSteps(env, s, before + [Reset]);
    EventStepsAppend(env, s, before, [Reset]);
    assert [Reset][..0] == [];
    assert EventSteps(env, dirty, [Reset]) == EventStep(env, dirty, Reset);
    ResetForgets(env, dirty);
    EventStepsAppend(env, s, before + [Reset], since);
    var input := CleanAll(Received(since));
    FrameAt(MODEL_FRAME_SAMPLES, input, 0);
    hide EventStep, EventSteps, Published;
    EveryRunIsTheStream(env, clean, since);
    if Healthy(env) {
      LiveSinkComputesTheStream(env, clean, since);
    }
  }

  /** The policy and the strength to head for are those of the last read that adopted anything. */
  lemma {:induction false} LastReadDecides(s: Sink, events: seq<Event>, i: nat)
    requires OnlyWrites(events) && i < |events| && events[i].loaded.Adopted? && 0.0 <= events[i].loaded.target <= 1.0
    requires forall j :: i < j < |events| ==> events[j].loaded.Unchanged?
    ensures PolicyAfter(s.failMode, events) == events[i].loaded.failMode
    ensures Strengths(s.ramp, 0, events).ramp.target == events[i].loaded.target
  {
    var n := |events| - 1;
    if i < n {
      LastReadDecides(s, events[..n], i);
    }
    var steered := Steered(Strengths(s.ramp, 0, events[..n]).ramp, events[n].loaded);
    StraightLine(steered, (Completed(0, events) - Completed(0, events[..n])) * MODEL_FRAME_SAMPLES);
  }

  /** An adopted strength is reached after exactly 960 samples, from wherever the ramp stood. */
  lemma SteeringTakes960Samples(r: Ramp, target: real, mode: FailMode, n: nat)
    requires OnTrack(r) && 0.0 <= target <= 1.0 && target != r.target && target != r.current
    ensures AdvancedBy(Steered(r, Adopted(target, mode)), n).current == target <==> n >= 960
  {
    LandsExactly(r, Finite(target), 0, n);
  }

  /** Sample `i` of a frame is mixed `i + 1` steps along a straight line that ends on the target. */
  lemma MixFollowsTheLine(dry: Frame, wet: Frame, r: Ramp, i: nat)
    requires i < MODEL_FRAME_SAMPLES
    ensures MixedFrame(dry, wet, r)[i] ==
      Mixed(Finite(dry[i]), Finite(wet[i]), Finite(
        if r.remaining == 0 then r.current
        else if i + 1 >= r.remaining then r.target
        else r.current + (i + 1) as real * r.step))
  {
    hide *;
    StraightLine(r, i + 1);
  }
}
