/** Whole fills: exactly when they complete, what they leave behind, and what becomes of the fade if they do not. */
module RingFills {
  import opened Prelude
  import opened Samples
  import opened FaultRamps
  import opened RingMachine
  import opened RingWorld
  import opened RingSessions
  import opened RingTheorems

  /** `n` entries from position `from` on are pushed and carry the generation `current`. */
  ghost predicate Fresh(w: World, from: nat, n: nat, current: nat) {
    from + n <= |w.pushed| && forall i :: from <= i < from + n ==> w.pushed[i].tag == current
  }

  /** Nothing older than `current` is queued or in flight, and nothing newer was requested. */
  predicate Calm(w: World, current: nat) {
    && w.generation == current && NextTag(w) == current
    && forall i :: w.popped <= i < |w.pushed| ==> w.pushed[i].tag == current
  }

  /** The startup rule is met and the callback is no leading silence: the fill goes on to pop. */
  predicate Delivers(ch: Channel, c: Consumer) {
    c.ready && !(ch.emptyWhileBuffering && c.leading)
  }

  /** A fill of `n` that will pop from position `from`, at each of its program points, and afterwards. */
  ghost predicate Filling(ch: Channel, start: Machine, n: nat, from: nat, m: Machine) {
    var w0, c0 := start.world, start.consumer;
    var w, c := m.world, m.consumer;
    var untouched := Delivers(ch, c) && c.session == c0.session && c.current == c0.current;
    && w0.pushed <= w.pushed
    && match c.pc
       case AtPeek(k) => k == n && untouched && w.popped <= from
       case AtStale(k) => k == n && untouched && w.popped < from
       case AtSlots(k) => k == n && untouched && w.popped == from
       case AtPop(k, scratch) =>
         && k == n && untouched && |scratch| <= n && w.popped == from + |scratch|
         && Fresh(w0, from, |scratch|, c0.current) && scratch == w0.pushed[from..from + |scratch|]
       case AtUnderflow(k) => k == n && !Fresh(w0, from, n, c0.current)
       case Idle =>
         if c.ready then
           && Fresh(w0, from, n, c0.current) && w.popped == from + n
           && c.session == c0.session + w0.pushed[from..from + n]
         else !Fresh(w0, from, n, c0.current) && c.session == []
       case _ => false
  }

  /** Position `from` is where the queued entries of the consumer's generation begin. */
  ghost predicate StalePrefix(w: World, from: nat, current: nat) {
    && w.popped <= from < |w.pushed| && w.pushed[from].tag == current
    && forall i :: w.popped <= i < from ==> w.pushed[i].tag != current
  }

  /** What the queue has to hold for the fill to be decided by it. */
  ghost predicate Decided(start: Machine, n: nat, from: nat) {
    && from + n <= |start.world.pushed|
    && (start.consumer.pc.AtPeek? ==> StalePrefix(start.world, from, start.consumer.current))
    && (start.consumer.pc.AtPeek? || start.consumer.pc.AtPop?)
  }

  lemma FillingDisturbed(ch: Channel, start: Machine, n: nat, from: nat, m: Machine, e: EnvStep)
    requires Filling(ch, start, n, from, m)
    ensures Filling(ch, start, n, from, Machine(EnvNext(m.world, e), m.consumer))
  {
    assert m.world.pushed <= EnvNext(m.world, e).pushed && EnvNext(m.world, e).popped == m.world.popped;
  }

  lemma FillingPeeks(ch: Channel, start: Machine, n: nat, from: nat, m: Machine)
    requires Filling(ch, start, n, from, m) && StalePrefix(start.world, from, start.consumer.current)
    requires start.world.popped <= m.world.popped
    requires m.consumer.pc.AtPeek? || m.consumer.pc.AtStale? || m.consumer.pc.AtSlots?
    ensures Filling(ch, start, n, from, ConsumerNext(ch, m))
  {
    assert m.world.HasHead() && m.world.Head() == start.world.pushed[m.world.popped];
  }

  lemma FillingPops(ch: Channel, start: Machine, n: nat, from: nat, m: Machine)
    requires Filling(ch, start, n, from, m) && from + n <= |start.world.pushed|
    requires m.consumer.pc.AtPop?
    ensures Filling(ch, start, n, from, ConsumerNext(ch, m))
  {
    var k := |m.consumer.pc.scratch|;
    if k < n {
      assert m.world.HasHead() && m.world.Head() == start.world.pushed[from + k];
      assert start.world.pushed[from..from + k + 1] == start.world.pushed[from..from + k] + [start.world.pushed[from + k]];
    }
  }

  lemma FillingSteps(ch: Channel, start: Machine, n: nat, from: nat, m: Machine, step: Step)
    requires Filling(ch, start, n, from, m) && Decided(start, n, from) && start.world.popped <= m.world.popped
    requires m.consumer.pc.AtPeek? || m.consumer.pc.AtStale? || m.consumer.pc.AtSlots? ==> start.consumer.pc.AtPeek?
    requires step.Env? || step.Consume?
    ensures Filling(ch, start, n, from, Next(ch, m, step))
  {
    match step {
      case Env(e) => FillingDisturbed(ch, start, n, from, m, e);
      case Consume =>
        if m.consumer.pc.AtPop? {
          FillingPops(ch, start, n, from, m);
        } else if !m.consumer.pc.AtUnderflow? && !m.consumer.pc.Idle? {
          FillingPeeks(ch, start, n, from, m);
        }
      case _ =>
    }
  }

  lemma {:induction false} FillingRuns(ch: Channel, start: Machine, n: nat, from: nat, trace: seq<Step>)
    requires Filling(ch, start, n, from, start) && Decided(start, n, from) && OneFill(trace)
    ensures
      var m := Run(ch, start, trace);
      && Filling(ch, start, n, from, m) && start.world.popped <= m.world.popped
      && (m.consumer.pc.AtPeek? || m.consumer.pc.AtStale? || m.consumer.pc.AtSlots? ==> start.consumer.pc.AtPeek?)
  {
    if trace != [] {
      var k := |trace| - 1;
      FillingRuns(ch, start, n, from, trace[..k]);
      FillingSteps(ch, start, n, from, Run(ch, start, trace[..k]), trace[k]);
      var before := Run(ch, start, trace[..k]);
      PopsOnlyGrow(ch, before, trace[k]);
      if before.consumer.pc.AtPop? || before.consumer.pc.AtUnderflow? || before.consumer.pc.Idle? {
        PopsGoOn(ch, before, trace[k]);
      }
    }
  }

  lemma PopsOnlyGrow(ch: Channel, m: Machine, step: Step)
    ensures m.world.popped <= Next(ch, m, step).world.popped
  {
    if step.Consume? {
      hide ConsumerNext;
      ConsumerTouches(ch, m);
    }
  }

  lemma PopsGoOn(ch: Channel, m: Machine, step: Step)
    requires step.Env? || step.Consume?
    requires m.consumer.pc.AtPop? || m.consumer.pc.AtUnderflow? || m.consumer.pc.Idle?
    ensures var pc := Next(ch, m, step).consumer.pc; pc.AtPop? || pc.AtUnderflow? || pc.Idle?
  {
  }

  /** The outcome of a whole fill: delivered in full from `from` on, or starved and the session over. */
  ghost predicate FillOutcome(start: Machine, n: nat, from: nat, now: Machine) {
    && (now.consumer.ready <==> Fresh(start.world, from, n, start.consumer.current))
    && (now.consumer.ready ==>
          && now.consumer.session == start.consumer.session + start.world.pushed[from..from + n]
          && now.world.popped == from + n && start.world.pushed <= now.world.pushed)
    && (!now.consumer.ready ==> now.consumer.session == [])
  }

  /**
   * A fill that starts popping with `n` samples queued completes if and only if the `n` oldest carry the consumer's
   * generation, whatever else happens meanwhile: resyncs, pushes, commands.
   */
  lemma FillCompletesIff(ch: Channel, m: Machine, n: nat, trace: seq<Step>)
    requires Inv(ch, m) && m.consumer.pc == AtPop(n, []) && n <= m.world.Occupancy() && OneFill(trace)
    requires Run(ch, m, trace).consumer.pc.Idle?
    ensures FillOutcome(m, n, m.world.popped, Run(ch, m, trace))
  {
    FillingRuns(ch, m, n, m.world.popped, trace);
  }

  lemma OneStep(ch: Channel, m: Machine, step: Step, rest: seq<Step>)
    ensures Run(ch, m, [step] + rest) == Run(ch, Next(ch, m, step), rest)
  {
    assert [step][..0] == [];
    assert Run(ch, m, [step]) == Next(ch, m, step);
    RunAppends(ch, m, [step], rest);
  }

  /** One pop of a lone consumer. */
  lemma PopAlone(ch: Channel, m: Machine)
    requires m.consumer.pc.AtPop? && m.world.popped <= |m.world.pushed|
    ensures
      var next := Next(ch, m, Consume);
      var left, left' := m.world.Occupancy(), next.world.Occupancy();
      && next.world.popped <= |next.world.pushed|
      && (next.consumer.pc.AtPop? || next.consumer.pc.AtUnderflow? || next.consumer.pc.Idle?)
      && (next.consumer.pc.AtPop? ==>
            && next.consumer.pc.n == m.consumer.pc.n && left' == left - 1
            && |next.consumer.pc.scratch| == |m.consumer.pc.scratch| + 1)
      && (next.consumer.pc.Idle? ==> |m.consumer.pc.scratch| >= m.consumer.pc.n)
  {
  }

  /** A consumer on its own finishes its fill, and starves if too little is queued. */
  lemma {:induction false} AloneFinishes(ch: Channel, m: Machine) returns (trace: seq<Step>)
    requires m.consumer.pc.AtPop? && m.world.popped <= |m.world.pushed|
    ensures OneFill(trace) && Run(ch, m, trace).consumer.pc.Idle?
    ensures |m.consumer.pc.scratch| + m.world.Occupancy() < m.consumer.pc.n ==> !Run(ch, m, trace).consumer.ready
    decreases m.world.Occupancy()
  {
    PopAlone(ch, m);
    var next := Next(ch, m, Consume);
    var rest: seq<Step> := [];
    if next.consumer.pc.AtPop? {
      rest := AloneFinishes(ch, next);
    } else if next.consumer.pc.AtUnderflow? {
      rest := [Consume];
      OneStep(ch, next, Consume, []);
      assert [Consume] + [] == rest;
    }
    trace := [Consume] + rest;
    OneStep(ch, m, Consume, rest);
  }

  /** A fill is safe from starving, in every continuation, if and only if its `n` samples are queued and of its generation. */
  lemma FillNeverStarvesIff(ch: Channel, m: Machine, n: nat)
    requires Inv(ch, m) && m.consumer.pc == AtPop(n, [])
    ensures
      (forall trace :: OneFill(trace) && Run(ch, m, trace).consumer.pc.Idle? ==> Run(ch, m, trace).consumer.ready) <==>
      Fresh(m.world, m.world.popped, n, m.consumer.current)
  {
    var alone := AloneFinishes(ch, m);
    if n <= m.world.Occupancy() {
      forall trace | OneFill(trace) && Run(ch, m, trace).consumer.pc.Idle?
        ensures Run(ch, m, trace).consumer.ready <==> Fresh(m.world, m.world.popped, n, m.consumer.current)
      {
        FillCompletesIff(ch, m, n, trace);
      }
    }
  }

  /** A fill of a running session first drops the stale prefix; then the same rule decides. */
  lemma ReadyFillCompletesIff(ch: Channel, m: Machine, n: nat, from: nat, trace: seq<Step>)
    requires Inv(ch, m) && m.consumer.pc == AtPeek(n) && m.consumer.ready && OneFill(trace)
    requires StalePrefix(m.world, from, m.consumer.current) && from + n <= |m.world.pushed|
    requires Run(ch, m, trace).consumer.pc.Idle?
    ensures FillOutcome(m, n, from, Run(ch, m, trace))
  {
    FillingRuns(ch, m, n, from, trace);
  }

  /**
   * The first delivering fill of the bypass channel: once the startup count is met it completes if and only if the `n`
   * oldest samples are of the consumer's generation, and then a whole model frame of reserve stays in the ring. A calm
   * startup meets the condition; resyncs during the fill do not matter.
   */
  lemma FirstBypassFillKeepsTheReserve(gains: Gains, m: Machine, n: nat, trace: seq<Step>)
    requires Inv(BypassChannel(gains), m) && m.consumer.pc == AtSlots(n) && !m.consumer.ready
    requires m.world.Occupancy() >= Required(BypassChannel(gains), n) && OneFill(trace)
    requires Run(BypassChannel(gains), Next(BypassChannel(gains), m, Consume), trace).consumer.pc.Idle?
    ensures
      var now := Run(BypassChannel(gains), Next(BypassChannel(gains), m, Consume), trace);
      && (now.consumer.ready <==> Fresh(m.world, m.world.popped, n, m.consumer.current))
      && (now.consumer.ready ==>
            && now.consumer.session == m.world.pushed[m.world.popped..m.world.popped + n]
            && now.world.Occupancy() >= MODEL_FRAME_SAMPLES)
    ensures Calm(m.world, m.consumer.current) ==> Fresh(m.world, m.world.popped, n, m.consumer.current)
  {
    var ch := BypassChannel(gains);
    hide Next, Run, Inv, Calm, Fresh, BypassChannel;
    NextKeeps(ch, m, Consume);
    StartupBegins(gains, m, n);
    FillCompletesIff(ch, Next(ch, m, Consume), n, trace);
    CalmIsFresh(m, n);
  }

  lemma StartupBegins(gains: Gains, m: Machine, n: nat)
    requires m.consumer.pc == AtSlots(n) && !m.consumer.ready && m.world.Occupancy() >= Required(BypassChannel(gains), n)
    ensures
      var begun := Next(BypassChannel(gains), m, Consume);
      && begun.world == m.world && begun.consumer.pc == AtPop(n, []) && begun.consumer.session == []
      && begun.consumer.current == m.consumer.current && m.world.Occupancy() >= n + MODEL_FRAME_SAMPLES
  {
  }

  lemma CalmIsFresh(m: Machine, n: nat)
    requires m.world.popped + n <= |m.world.pushed|
    ensures Calm(m.world, m.consumer.current) ==> Fresh(m.world, m.world.popped, n, m.consumer.current)
  {
  }

  /** While no newer generation was requested, everything from the first current entry on is current. */
  lemma CurrentSuffix(w: World, from: nat, current: nat, i: nat)
    requires WorldInv(w) && w.generation == current && StalePrefix(w, from, current) && from <= i < |w.pushed|
    ensures w.pushed[i].tag == current
  {
    assert w.pushed[from].tag <= w.pushed[i].tag <= w.pushed[|w.pushed| - 1].tag <= w.generation;
  }

  /** Everything that may happen between two fills: other threads, command checks with what they drain, rejected requests. */
  predicate NoFill(trace: seq<Step>) {
    forall i :: 0 <= i < |trace| ==> !trace[i].CallFill?
  }

  /** After its leading silence and the steps up to the next buffer, a consumer is called for `n` samples and synchronises. */
  function SecondFill(ch: Channel, m: Machine, between: seq<Step>, n: nat, others: seq<EnvStep>): Machine {
    Run(ch, Next(ch, Run(ch, Next(ch, m, Consume), between), CallFill(n)), EnvSteps(others))
  }

  /** Between two fills: the session has not delivered yet and its queue only grew, or a command ended it. */
  ghost predicate Waiting(ch: Channel, silent: Machine, m: Machine) {
    var c := m.consumer;
    && c.session == []
    && match c.pc
       case Idle =>
         if c.ready then
           && !c.leading && c.current == silent.consumer.current
           && silent.world.pushed <= m.world.pushed && m.world.popped == silent.world.popped
         else c.leading == ch.emptyWhileBuffering
       case AtReload => !c.ready && c.leading == ch.emptyWhileBuffering
       case AtClear => true
       case AtDrain(_) => true
       case _ => false
  }

  lemma WaitingSteps(ch: Channel, silent: Machine, m: Machine, step: Step)
    requires Waiting(ch, silent, m) && !step.CallFill?
    ensures Waiting(ch, silent, Next(ch, m, step))
  {
    match step
    case Env(e) => assert m.world.pushed <= EnvNext(m.world, e).pushed && EnvNext(m.world, e).popped == m.world.popped;
    case _ =>
  }

  lemma {:induction false} WaitingRuns(ch: Channel, silent: Machine, between: seq<Step>)
    requires Waiting(ch, silent, silent) && NoFill(between)
    ensures Waiting(ch, silent, Run(ch, silent, between))
  {
    if between != [] {
      var k := |between| - 1;
      WaitingRuns(ch, silent, between[..k]);
      WaitingSteps(ch, silent, Run(ch, silent, between[..k]), between[k]);
    }
  }

  lemma SilenceKeepsTheQueue(gains: Gains, m: Machine, k: nat)
    requires m.consumer.pc == AtSlots(k) && !m.consumer.ready && m.consumer.leading
    requires m.world.Occupancy() >= MODEL_FRAME_SAMPLES
    ensures
      var silent := Next(ProcessedChannel(gains), m, Consume);
      && silent.world == m.world && silent.consumer.current == m.consumer.current
      && Waiting(ProcessedChannel(gains), silent, silent)
  {
  }

  /** What the call finds: the session with everything that was queued, or none and the silence still ahead. */
  ghost predicate Arrived(ch: Channel, m: Machine, n: nat, called: Machine) {
    && Inv(ch, called) && called.consumer.pc == AtSync(n) && called.consumer.session == []
    && if called.consumer.ready then
         && !called.consumer.leading && called.consumer.current == m.consumer.current
         && m.world.pushed <= called.world.pushed && called.world.popped == m.world.popped
       else called.consumer.leading == ch.emptyWhileBuffering
  }

  lemma SecondFillArrives(gains: Gains, m: Machine, k: nat, between: seq<Step>, n: nat, others: seq<EnvStep>)
    requires Inv(ProcessedChannel(gains), m) && m.consumer.pc == AtSlots(k) && !m.consumer.ready && m.consumer.leading
    requires m.world.Occupancy() >= MODEL_FRAME_SAMPLES && n <= MAX_CALLBACK_FRAMES && NoFill(between)
    requires Run(ProcessedChannel(gains), Next(ProcessedChannel(gains), m, Consume), between).consumer.pc.Idle?
    ensures Arrived(ProcessedChannel(gains), m, n, SecondFill(ProcessedChannel(gains), m, between, n, others))
  {
    var ch := ProcessedChannel(gains);
    var silent := Next(ch, m, Consume);
    SilenceKeepsTheQueue(gains, m, k);
    NextKeeps(ch, m, Consume);
    hide Inv, ConsumerNext;
    WaitingRuns(ch, silent, between);
    RunKeeps(ch, silent, between);
    var idle := Run(ch, silent, between);
    NextKeeps(ch, idle, CallFill(n));
    var called := Next(ch, idle, CallFill(n));
    assert called == Machine(idle.world, idle.consumer.(pc := AtSync(n)));
    EnvStepsOnly(ch, called, others);
    RunKeeps(ch, called, EnvSteps(others));
  }

  lemma QueuedIsFresh(before: World, w: World, n: nat, from: nat, current: nat)
    requires WorldInv(w) && w.generation == current && before.pushed <= w.pushed && before.popped == w.popped
    requires StalePrefix(before, from, current) && from + n <= |before.pushed|
    ensures StalePrefix(w, from, current) && from + n <= |w.pushed| && Fresh(w, from, n, current)
    ensures w.pushed[from..from + n] == before.pushed[from..from + n]
  {
    forall i | from <= i < from + n
      ensures w.pushed[i].tag == current
    {
      CurrentSuffix(w, from, current, i);
    }
  }

  /** A fill that finds its generation current when it synchronises delivers what was queued under that generation before. */
  lemma SyncedFillDelivers(ch: Channel, before: World, called: Machine, n: nat, from: nat, trace: seq<Step>)
    requires Inv(ch, called) && called.consumer.pc == AtSync(n) && Delivers(ch, called.consumer)
    requires called.consumer.session == [] && called.world.generation == called.consumer.current
    requires before.pushed <= called.world.pushed && before.popped == called.world.popped
    requires StalePrefix(before, from, called.consumer.current) && from + n <= |before.pushed| && OneFill(trace)
    ensures
      var c := Run(ch, Next(ch, called, Consume), trace).consumer;
      !c.pc.AtUnderflow? && (c.pc.Idle? ==> c.ready && c.session == before.pushed[from..from + n])
  {
    var synced := Next(ch, called, Consume);
    assert synced == Machine(called.world, called.consumer.(pc := AtPeek(n)));
    QueuedIsFresh(before, called.world, n, from, called.consumer.current);
    hide Next, Run, Inv, StalePrefix, Fresh;
    FillingRuns(ch, synced, n, from, trace);
  }

  /** The fill still has its leading silence before it. */
  predicate Restarting(c: Consumer) {
    c.session == [] && (c.pc.Idle? || (!c.ready && c.leading && (c.pc.AtPeek? || c.pc.AtStale? || c.pc.AtSlots?)))
  }

  lemma RestartSteps(ch: Channel, m: Machine, step: Step)
    requires ch.emptyWhileBuffering && Restarting(m.consumer) && (step.Env? || step.Consume?)
    ensures Restarting(Next(ch, m, step).consumer)
  {
  }

  /** A fill that adopts a new generation is another leading silence. */
  lemma {:induction false} RestartIsSilent(ch: Channel, m: Machine, trace: seq<Step>)
    requires ch.emptyWhileBuffering && Restarting(m.consumer) && OneFill(trace)
    ensures Restarting(Run(ch, m, trace).consumer)
  {
    if trace != [] {
      var k := |trace| - 1;
      RestartIsSilent(ch, m, trace[..k]);
      RestartSteps(ch, Run(ch, m, trace[..k]), trace[k]);
    }
  }

  /**
   * The fill after the leading silence of the processed channel never underflows, in any run, if `n` samples of the
   * consumer's generation were queued at the silence; at a calm startup these are the 512 that ended the buffering. It
   * delivers them unless a command or a resync came before it synchronises, and then it stays silent.
   */
  lemma FillAfterLeadingSilence(
    gains: Gains, m: Machine, k: nat, between: seq<Step>, n: nat, others: seq<EnvStep>, from: nat, trace: seq<Step>)
    requires Inv(ProcessedChannel(gains), m) && m.consumer.pc == AtSlots(k) && !m.consumer.ready && m.consumer.leading
    requires m.world.Occupancy() >= MODEL_FRAME_SAMPLES && n <= MAX_CALLBACK_FRAMES && NoFill(between) && OneFill(trace)
    requires Run(ProcessedChannel(gains), Next(ProcessedChannel(gains), m, Consume), between).consumer.pc.Idle?
    requires StalePrefix(m.world, from, m.consumer.current) && from + n <= |m.world.pushed|
    ensures
      var called := SecondFill(ProcessedChannel(gains), m, between, n, others);
      var c := Run(ProcessedChannel(gains), Next(ProcessedChannel(gains), called, Consume), trace).consumer;
      && !c.pc.AtUnderflow?
      && (c.pc.Idle? ==>
            if called.consumer.ready && called.world.generation == m.consumer.current
            then c.ready && c.session == m.world.pushed[from..from + n]
            else c.session == [])
  {
    var ch := ProcessedChannel(gains);
    SecondFillArrives(gains, m, k, between, n, others);
    var called := SecondFill(ch, m, between, n, others);
    if called.consumer.ready && called.world.generation == m.consumer.current {
      SyncedFillDelivers(ch, m.world, called, n, from, trace);
    } else {
      SyncRestarts(ch, called);
      RestartIsSilent(ch, Next(ch, called, Consume), trace);
    }
  }

  lemma SyncRestarts(ch: Channel, m: Machine)
    requires m.consumer.pc.AtSync? && m.consumer.session == [] && ch.emptyWhileBuffering
    requires m.world.generation != m.consumer.current || (!m.consumer.ready && m.consumer.leading)
    ensures Restarting(Next(ch, m, Consume).consumer)
  {
  }

  /** A calm startup of the processed channel queued a whole model frame of its generation. */
  lemma CalmSilenceQueuesAFrame(m: Machine, n: nat)
    requires m.world.popped <= |m.world.pushed| && m.world.Occupancy() >= MODEL_FRAME_SAMPLES
    requires Calm(m.world, m.consumer.current) && n <= MODEL_FRAME_SAMPLES
    ensures StalePrefix(m.world, m.world.popped, m.consumer.current) && m.world.popped + n <= |m.world.pushed|
  {
  }

  /** Nothing between two fills starts a session. */
  lemma {:induction false} StaysStarved(ch: Channel, starved: Machine, between: seq<Step>)
    requires starved.consumer.pc.Idle? && !starved.consumer.ready && NoFill(between)
    ensures
      var c := Run(ch, starved, between).consumer;
      && !c.ready && (c.pc.Idle? || c.pc.AtClear? || c.pc.AtDrain? || c.pc.AtReload?)
      && (c.fade == starved.consumer.fade || c.fade == SILENCE)
  {
    if between != [] {
      StaysStarved(ch, starved, between[..|between| - 1]);
    }
  }

  /** A call without a session synchronises to silence. */
  lemma StarvedSync(ch: Channel, m: Machine, n: nat)
    requires Inv(ch, m) && m.consumer.pc.Idle? && !m.consumer.ready && n <= MAX_CALLBACK_FRAMES
    ensures
      var c := Next(ch, Next(ch, m, CallFill(n)), Consume).consumer;
      c.fade == SILENCE && !c.ready && c.current == m.world.generation
  {
  }

  lemma StarvedFade(ch: Channel, m: Machine, n: nat)
    requires Inv(ch, m) && m.consumer.pc == AtUnderflow(n)
    ensures
      var c := Next(ch, m, Consume).consumer;
      && c.pc.Idle? && !c.ready
      && (c.fade.state.Silent? <==> m.consumer.fade.state.Silent? || n >= Max(1, m.consumer.fade.step))
  {
    SessionFadeSettles(ch, m);
    FaultFadeEndsIff(m.consumer.fade, n, ch.gains);
  }

  /**
   * The fade of an underflow finishes within its own callback if and only if the ramp was silent already or the request
   * is at least as long as the gain step. If it is not, nothing finishes it: whatever happens before the next fill, that
   * one starts from silence, at the newest generation.
   */
  lemma UnderflowFadeFinishesIff(ch: Channel, m: Machine, n: nat, between: seq<Step>, next: nat)
    requires Inv(ch, m) && m.consumer.pc == AtUnderflow(n) && next <= MAX_CALLBACK_FRAMES && NoFill(between)
    requires Run(ch, Next(ch, m, Consume), between).consumer.pc.Idle?
    ensures
      var starved := Next(ch, m, Consume);
      var idle := Run(ch, starved, between);
      var synced := Next(ch, Next(ch, idle, CallFill(next)), Consume);
      && (starved.consumer.fade.state.Silent? <==> m.consumer.fade.state.Silent? || n >= Max(1, m.consumer.fade.step))
      && (idle.consumer.fade == starved.consumer.fade || idle.consumer.fade == SILENCE)
      && synced.consumer.fade == SILENCE && !synced.consumer.ready && synced.consumer.current == idle.world.generation
  {
    hide *;
    var starved := Next(ch, m, Consume);
    NextKeeps(ch, m, Consume);
    StarvedFade(ch, m, n);
    StaysStarved(ch, starved, between);
    RunKeeps(ch, starved, between);
    StarvedSync(ch, Run(ch, starved, between), next);
  }

  lemma SessionFadeSettles(ch: Channel, m: Machine)
    requires Inv(ch, m) && m.consumer.ready
    ensures Settles(m.consumer.fade)
  {
    FadeInState(Raw(Values(m.consumer.session)), ch.gains);
  }

  function EnvSteps(others: seq<EnvStep>): seq<Step> {
    seq(|others|, i requires 0 <= i < |others| => Env(others[i]))
  }

  lemma {:induction false} EnvStepsOnly(ch: Channel, m: Machine, others: seq<EnvStep>)
    ensures Run(ch, m, EnvSteps(others)).consumer == m.consumer
    ensures m.world.pushed <= Run(ch, m, EnvSteps(others)).world.pushed
    ensures Run(ch, m, EnvSteps(others)).world.popped == m.world.popped
  {
    if others != [] {
      var n := |others| - 1;
      assert EnvSteps(others)[..n] == EnvSteps(others[..n]);
      EnvStepsOnly(ch, m, others[..n]);
    }
  }
}
