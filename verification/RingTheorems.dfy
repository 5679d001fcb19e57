/** What a listener, and the owner of a sensitive recording, get out of the ring in every interleaving. */
module RingTheorems {
  import opened Prelude
  import opened Samples
  import opened FaultRamps
  import opened RingMachine
  import opened RingWorld
  import opened RingSessions

  /** Consecutive positions of the offered stream. */
  ghost predicate GapFree(session: seq<Entry>) {
    forall i :: 0 <= i < |session| ==> session[i].index == session[0].index + i
  }

  lemma DeliveredFromHistory(w: World, c: Consumer, i: nat)
    requires Slice(w, c) && i < |c.session|
    ensures c.start + i < w.popped <= |w.pushed|
    ensures w.pushed[c.start + i] == c.session[i] && c.session[i].tag == c.current
  {
    var g := Gathered(c);
    assert g[i] == c.session[i];
    assert w.pushed[c.start..c.start + |g|][i] == w.pushed[c.start + i];
  }

  /** A delivery session carries one generation and jumps over exactly the samples the closed gate withheld. */
  lemma SessionIsAccounted(ch: Channel, trace: seq<Step>, i: nat, j: nat)
    requires i <= j < |Reach(ch, trace).consumer.session|
    ensures
      var c := Reach(ch, trace).consumer;
      && c.session[i].tag == c.session[j].tag == c.current
      && c.session[i].skipped <= c.session[j].skipped
      && c.session[j].index - c.session[i].index == (j - i) + (c.session[j].skipped - c.session[i].skipped)
  {
    ReachKeeps(ch, trace);
    var w, c := Reach(ch, trace).world, Reach(ch, trace).consumer;
    DeliveredFromHistory(w, c, i);
    DeliveredFromHistory(w, c, j);
    StretchIsAccounted(w.pushed, c.start + i, c.start + j);
  }

  /** What was delivered since `startup_ready` is one gap-free run of the offered stream iff the gate withheld nothing then. */
  lemma SessionIsGapFreeIffGateStayedOpen(ch: Channel, trace: seq<Step>)
    requires Reach(ch, trace).consumer.session != []
    ensures
      var s := Reach(ch, trace).consumer.session;
      GapFree(s) <==> s[0].skipped == s[|s| - 1].skipped
  {
    var s := Reach(ch, trace).consumer.session;
    SessionIsAccounted(ch, trace, 0, |s| - 1);
    forall i | 0 <= i < |s|
      ensures s[i].index == s[0].index + i + (s[i].skipped - s[0].skipped)
      ensures s[0].skipped <= s[i].skipped <= s[|s| - 1].skipped
    {
      SessionIsAccounted(ch, trace, 0, i);
      SessionIsAccounted(ch, trace, i, |s| - 1);
    }
  }

  /** The closed gate withholds a block with this step. */
  predicate Withholds(w: World, step: Step) {
    step == Env(Produce) && w.producer.Called? && !w.publicationEnabled && w.producer.block != []
  }

  /** Between push `i` and push `j` of the run, the gate withheld nothing. */
  predicate NothingWithheld(ch: Channel, trace: seq<Step>, i: nat, j: nat) {
    trace == [] ||
    var n := |trace| - 1;
    var w := Reach(ch, trace[..n]).world;
    NothingWithheld(ch, trace[..n], i, j) && (i < |w.pushed| <= j ==> !Withholds(w, trace[n]))
  }

  lemma StepSkips(ch: Channel, m: Machine, step: Step)
    ensures
      var w, w' := m.world, Next(ch, m, step).world;
      && w.skipped <= w'.skipped && (w.skipped == w'.skipped <==> !Withholds(w, step))
      && (w'.pushed == w.pushed ||
          (|w'.pushed| == |w.pushed| + 1 && w.pushed <= w'.pushed && w'.skipped == w.skipped
            && w'.pushed[|w.pushed|].skipped == w.skipped))
  {
    if step.Consume? {
      hide ConsumerNext;
      ConsumerTouches(ch, m);
    }
  }

  /** The skip counters compare equal exactly over a stretch in which the gate withheld nothing. */
  lemma {:induction false} SkipsCountTheWithheld(ch: Channel, trace: seq<Step>, i: nat, j: nat)
    requires i <= j
    ensures
      var w := Reach(ch, trace).world;
      && (i >= |w.pushed| ==> NothingWithheld(ch, trace, i, j))
      && (i < |w.pushed| ==>
            var until := if j < |w.pushed| then w.pushed[j].skipped else w.skipped;
            w.pushed[i].skipped <= until && (w.pushed[i].skipped == until <==> NothingWithheld(ch, trace, i, j)))
  {
    if trace != [] {
      var n := |trace| - 1;
      SkipsCountTheWithheld(ch, trace[..n], i, j);
      hide Next, Withholds;
      StepSkips(ch, Reach(ch, trace[..n]), trace[n]);
    }
  }

  /** The same, said of the gate: gap-free exactly if it withheld nothing between the first push of the session and its last. */
  lemma SessionIsGapFreeIffNothingWithheld(ch: Channel, trace: seq<Step>)
    requires Reach(ch, trace).consumer.session != []
    ensures
      var c := Reach(ch, trace).consumer;
      GapFree(c.session) <==> NothingWithheld(ch, trace, c.start, c.start + |c.session| - 1)
  {
    hide *;
    var c := Reach(ch, trace).consumer;
    SessionEnds(ch, trace);
    SessionIsGapFreeIffGateStayedOpen(ch, trace);
    SkipsCountTheWithheld(ch, trace, c.start, c.start + |c.session| - 1);
  }

  lemma SessionEnds(ch: Channel, trace: seq<Step>)
    requires Reach(ch, trace).consumer.session != []
    ensures
      var w, c := Reach(ch, trace).world, Reach(ch, trace).consumer;
      var last := |c.session| - 1;
      c.start + last < |w.pushed| && w.pushed[c.start] == c.session[0] && w.pushed[c.start + last] == c.session[last]
  {
    hide Run;
    ReachKeeps(ch, trace);
    var w, c := Reach(ch, trace).world, Reach(ch, trace).consumer;
    DeliveredFromHistory(w, c, 0);
    DeliveredFromHistory(w, c, |c.session| - 1);
  }

  /** A gap-free session is literally a piece of what was offered. */
  lemma GapFreeSessionIsAPieceOfTheStream(ch: Channel, trace: seq<Step>)
    requires Reach(ch, trace).consumer.session != [] && GapFree(Reach(ch, trace).consumer.session)
    ensures
      var s, stream := Reach(ch, trace).consumer.session, Reach(ch, trace).world.stream;
      var from := s[0].index;
      && from + |s| <= |stream|
      && Values(s) == stream[from..from + |s|]
  {
    ReachKeeps(ch, trace);
    var w, c := Reach(ch, trace).world, Reach(ch, trace).consumer;
    PieceOf(w, c, c.session[0].index);
  }

  lemma PieceOf(w: World, c: Consumer, from: nat)
    requires SourcedFrom(w.pushed, w.stream) && Slice(w, c)
    requires c.session != [] && forall i :: 0 <= i < |c.session| ==> c.session[i].index == from + i
    ensures from + |c.session| <= |w.stream| && Values(c.session) == w.stream[from..from + |c.session|]
  {
    var s := c.session;
    forall i | 0 <= i < |s|
      ensures from + i < |w.stream| && s[i].value == w.stream[from + i]
    {
      DeliveredFromHistory(w, c, i);
    }
    assert s[|s| - 1].index == from + |s| - 1;
  }

  /**
   * Every session fades in from exact silence: sample `k` is heard with gain step min(k + 1, 240). An oversized
   * request mutes the rest of its session, and nothing before it.
   */
  lemma SessionFadesInFromSilence(ch: Channel, trace: seq<Step>, k: nat)
    requires GoodGains(ch.gains)
    requires k < |Reach(ch, trace).consumer.session|
    ensures
      var c := Reach(ch, trace).consumer;
      && |c.heard| == |c.session|
      && c.heard[k] ==
           if c.mutedAt.None? || k < c.mutedAt.value
           then Gained(c.session[k].value, ch.gains(Min(k + 1, FAULT_RAMP_SAMPLES)))
           else 0.0
  {
    ReachKeeps(ch, trace);
    var c := Reach(ch, trace).consumer;
    var n := if c.mutedAt.None? then |c.session| else c.mutedAt.value;
    assert c.session[..n][..n] == c.session[..n];
    if k < n {
      FadeInFromSilence(Raw(Values(c.session[..n])), ch.gains, k);
      if c.mutedAt.None? {
        assert c.session[..n] == c.session;
      }
    }
  }

  /** Between sessions the ramp is silent, or already condemned to silence by a pending resync. */
  lemma SilentBetweenSessions(ch: Channel, trace: seq<Step>)
    ensures
      var m := Reach(ch, trace);
      !m.consumer.ready ==> m.consumer.fade == SILENCE || m.consumer.current < m.world.generation
  {
    ReachKeeps(ch, trace);
  }

  ghost predicate Bounded(m: Machine) {
    m.world.mark <= |m.world.pushed| && m.consumer.barrier <= m.world.mark && m.consumer.fence <= m.world.generation
  }

  lemma NextIsMonotone(ch: Channel, m: Machine, step: Step)
    requires Bounded(m)
    ensures var m' := Next(ch, m, step);
      && m.world.mark <= m'.world.mark && m.world.generation <= m'.world.generation
      && m.world.pushed <= m'.world.pushed
      && m.consumer.barrier <= m'.consumer.barrier && m.consumer.fence <= m'.consumer.fence
  {
    match step
    case Env(e) => EnvOnlyAdds(m.world, e);
    case Consume => ConsumerTouches(ch, m);
    case _ => assert Next(ch, m, step).world.pushed == m.world.pushed;
  }

  lemma {:induction false} RunIsMonotone(ch: Channel, m: Machine, trace: seq<Step>)
    requires Inv(ch, m)
    ensures var m' := Run(ch, m, trace);
      && m.world.mark <= m'.world.mark && m.world.generation <= m'.world.generation
      && m.world.pushed <= m'.world.pushed
      && m.consumer.barrier <= m'.consumer.barrier && m.consumer.fence <= m'.consumer.fence
  {
    if trace != [] {
      var n := |trace| - 1;
      RunIsMonotone(ch, m, trace[..n]);
      RunKeeps(ch, m, trace[..n]);
      NextIsMonotone(ch, Run(ch, m, trace[..n]), trace[n]);
    }
  }

  /**
   * A scheduled CLEAR or DISCARD is final: once a command check ran after the scheduling, no sample that was in the
   * ring at the scheduling is delivered, whatever other commands race and however the producer keeps pushing.
   */
  lemma ClearIsFinal(ch: Channel, m: Machine, command: Command, before: seq<Step>, after: seq<Step>)
    requires Inv(ch, m) && !command.NoCommand?
    requires Run(ch, Next(ch, m, Env(Schedule(command))), before).consumer.pc.Idle?
    ensures
      var checked := Next(ch, Run(ch, Next(ch, m, Env(Schedule(command))), before), CallCommandCheck);
      var now := Run(ch, checked, after);
      !Draining(now.consumer) ==>
        && |m.world.pushed| <= now.world.popped
        && (|Gathered(now.consumer)| > 0 ==> |m.world.pushed| <= now.consumer.start)
  {
    var scheduled := Next(ch, m, Env(Schedule(command)));
    NextKeeps(ch, m, Env(Schedule(command)));
    assert scheduled.world.mark == |m.world.pushed|;
    var reached := Run(ch, scheduled, before);
    RunIsMonotone(ch, scheduled, before);
    RunKeeps(ch, scheduled, before);
    CheckRaisesTheBarrier(ch, reached);
    var checked := Next(ch, reached, CallCommandCheck);
    RunIsMonotone(ch, checked, after);
    RunKeeps(ch, checked, after);
    var now := Run(ch, checked, after);
    if !Draining(now.consumer) {
      BarrierIsBehind(ch, now);
    }
  }

  lemma CheckRaisesTheBarrier(ch: Channel, m: Machine)
    requires Inv(ch, m) && m.consumer.pc.Idle?
    ensures Inv(ch, Next(ch, m, CallCommandCheck))
    ensures Next(ch, m, CallCommandCheck).consumer.barrier == m.world.mark
  {
    hide *;
    CommandCheckKeeps(ch, m);
    NoCommandNoMark(ch, m);
    CheckTakesTheMark(ch, m);
  }

  lemma NoCommandNoMark(ch: Channel, m: Machine)
    requires Inv(ch, m)
    ensures m.world.command.NoCommand? ==> m.consumer.barrier == m.world.mark
  {
  }

  lemma CheckTakesTheMark(ch: Channel, m: Machine)
    requires m.consumer.pc.Idle? && (m.world.command.NoCommand? ==> m.consumer.barrier == m.world.mark)
    ensures Next(ch, m, CallCommandCheck).consumer.barrier == m.world.mark
  {
  }

  lemma BarrierIsBehind(ch: Channel, m: Machine)
    requires Inv(ch, m) && !Draining(m.consumer)
    ensures m.consumer.barrier <= m.world.popped
    ensures |Gathered(m.consumer)| > 0 ==> m.consumer.barrier <= m.consumer.start
  {
  }

  /** The clear has done its part: what is gathered from here on was requested after it. */
  predicate Cleared(c: Consumer) {
    !c.pc.AtClear? && !(c.pc.AtDrain? && c.pc.clearing) && !c.pc.AtReload?
  }

  /**
   * CLEAR also stops the block that is being written meanwhile: only generations requested after the clear are
   * delivered again, and every sample of a block that read its generation before carries an older tag.
   */
  lemma ClearFencesTheBlockInFlight(ch: Channel, m: Machine, after: seq<Step>, i: nat)
    requires Inv(ch, m) && m.consumer.pc.AtClear?
    requires
      var c := Run(ch, Next(ch, m, Consume), after).consumer;
      Cleared(c) && i < |Gathered(c)|
    ensures Gathered(Run(ch, Next(ch, m, Consume), after).consumer)[i].tag > m.world.generation >= NextTag(m.world)
  {
    NextKeeps(ch, m, Consume);
    var cleared := Next(ch, m, Consume);
    assert cleared.consumer.fence == m.world.generation + 1;
    RunIsMonotone(ch, cleared, after);
    RunKeeps(ch, cleared, after);
    FenceIsBelow(Run(ch, cleared, after).world, Run(ch, cleared, after).consumer, i);
  }

  lemma FenceIsBelow(w: World, c: Consumer, i: nat)
    requires Slice(w, c) && Fenced(w, c) && i < |Gathered(c)|
    requires Cleared(c)
    ensures Gathered(c)[i].tag >= c.fence
  {
  }

  /** No command check on the way. */
  predicate NoCheck(trace: seq<Step>) {
    forall i :: 0 <= i < |trace| ==> !trace[i].CallCommandCheck?
  }

  /** Some step schedules this command. */
  predicate Schedules(trace: seq<Step>, command: Command) {
    exists i :: 0 <= i < |trace| && trace[i] == Env(Schedule(command))
  }

  lemma SchedulesOneMore(trace: seq<Step>, command: Command)
    requires trace != []
    ensures
      var n := |trace| - 1;
      Schedules(trace, command) <==> Schedules(trace[..n], command) || trace[n] == Env(Schedule(command))
  {
    var n := |trace| - 1;
    if i :| 0 <= i < n && trace[i] == Env(Schedule(command)) {
      assert trace[..n][i] == Env(Schedule(command));
    }
  }

  lemma StepKeepsCommands(ch: Channel, m: Machine, step: Step)
    requires !step.CallCommandCheck?
    ensures
      var command, command' := m.world.command, Next(ch, m, step).world.command;
      && (command'.Clear? <==> command.Clear? || step == Env(Schedule(Clear)))
      && (command'.NoCommand? <==> command.NoCommand? && step != Env(Schedule(Clear)) && step != Env(Schedule(Discard)))
  {
    if step.Consume? {
      hide ConsumerNext;
      ConsumerTouches(ch, m);
    }
  }

  /**
   * Commands that race are merged and never lost: between two checks a CLEAR is pending exactly if one was scheduled, and
   * nothing is pending exactly if nothing was, in whatever order the control threads and the callback run.
   */
  lemma {:induction false} CommandsAccumulate(ch: Channel, m: Machine, trace: seq<Step>)
    requires NoCheck(trace)
    ensures
      var command, command' := m.world.command, Run(ch, m, trace).world.command;
      && (command'.Clear? <==> command.Clear? || Schedules(trace, Clear))
      && (command'.NoCommand? <==> command.NoCommand? && !Schedules(trace, Clear) && !Schedules(trace, Discard))
  {
    if trace != [] {
      var n := |trace| - 1;
      CommandsAccumulate(ch, m, trace[..n]);
      hide Next, Schedules;
      StepKeepsCommands(ch, Run(ch, m, trace[..n]), trace[n]);
      SchedulesOneMore(trace, Clear);
      SchedulesOneMore(trace, Discard);
    }
  }

  /** From a clear on, its fence is above the generation that was current when it was taken. */
  lemma {:induction false} ClearRaisesTheFence(ch: Channel, m: Machine, after: seq<Step>)
    requires Inv(ch, m) && m.consumer.pc.AtClear?
    ensures
      var c := Run(ch, m, after).consumer;
      c.pc.AtClear? || c.fence > m.world.generation
  {
    if after != [] {
      var n := |after| - 1;
      var before := Run(ch, m, after[..n]);
      ClearRaisesTheFence(ch, m, after[..n]);
      RunIsMonotone(ch, m, after[..n]);
      RunKeeps(ch, m, after[..n]);
      NextIsMonotone(ch, before, after[n]);
      if before.consumer.pc.AtClear? {
        ClearOrFence(ch, before, after[n]);
      }
    }
  }

  lemma ClearOrFence(ch: Channel, m: Machine, step: Step)
    requires m.consumer.pc.AtClear?
    ensures
      var c := Next(ch, m, step).consumer;
      c.pc.AtClear? || c.fence == m.world.generation + 1
  {
  }

  lemma CheckObeys(ch: Channel, m: Machine)
    requires m.consumer.pc.Idle? && !m.world.command.NoCommand?
    ensures
      var c := Next(ch, m, CallCommandCheck).consumer;
      if m.world.command.Clear? then c.pc == AtClear else c.pc == AtDrain(false)
  {
  }

  lemma CheckEmptiesTheCommand(ch: Channel, m: Machine)
    requires m.consumer.pc.Idle?
    ensures Next(ch, m, CallCommandCheck).world.command.NoCommand?
    ensures m.world.command.NoCommand? ==> Next(ch, m, CallCommandCheck).consumer == m.consumer
  {
  }

  /** A command is taken once: until another one is scheduled, further checks find nothing to do. */
  lemma CommandIsTakenOnce(ch: Channel, m: Machine, between: seq<Step>)
    requires m.consumer.pc.Idle? && NoCheck(between) && !Schedules(between, Clear) && !Schedules(between, Discard)
    requires Run(ch, Next(ch, m, CallCommandCheck), between).consumer.pc.Idle?
    ensures
      var idle := Run(ch, Next(ch, m, CallCommandCheck), between);
      Next(ch, idle, CallCommandCheck).consumer == idle.consumer
  {
    hide *;
    CheckEmptiesTheCommand(ch, m);
    CommandsAccumulate(ch, Next(ch, m, CallCommandCheck), between);
    CheckEmptiesTheCommand(ch, Run(ch, Next(ch, m, CallCommandCheck), between));
  }

  /**
   * A scheduled CLEAR stands, whatever else is scheduled before or after it: the next command check takes it, and from
   * then on nothing is delivered that was in the ring or in a block in flight when it was scheduled.
   */
  lemma ScheduledClearIsObeyed(ch: Channel, m: Machine, between: seq<Step>, after: seq<Step>, i: nat)
    requires Inv(ch, m) && NoCheck(between)
    requires Run(ch, Next(ch, m, Env(Schedule(Clear))), between).consumer.pc.Idle?
    ensures
      var reached := Run(ch, Next(ch, m, Env(Schedule(Clear))), between);
      var checked := Next(ch, reached, CallCommandCheck);
      var c := Run(ch, checked, after).consumer;
      && checked.consumer.pc.AtClear?
      && (Cleared(c) && i < |Gathered(c)| ==> Gathered(c)[i].tag > m.world.generation >= NextTag(m.world))
  {
    hide *;
    var scheduled := Next(ch, m, Env(Schedule(Clear)));
    NextKeeps(ch, m, Env(Schedule(Clear)));
    StepKeepsCommands(ch, m, Env(Schedule(Clear)));
    CommandsAccumulate(ch, scheduled, between);
    var reached := Run(ch, scheduled, between);
    RunKeeps(ch, scheduled, between);
    CheckObeys(ch, reached);
    var checked := Next(ch, reached, CallCommandCheck);
    NextKeeps(ch, reached, CallCommandCheck);
    ClearRaisesTheFence(ch, checked, after);
    RunKeeps(ch, checked, after);
    GenerationsRise(ch, m, between);
    var now := Run(ch, checked, after);
    if Cleared(now.consumer) && i < |Gathered(now.consumer)| {
      GatheredAboveFence(ch, now, i);
    }
  }

  lemma GenerationsRise(ch: Channel, m: Machine, between: seq<Step>)
    requires Inv(ch, m)
    ensures
      var reached := Run(ch, Next(ch, m, Env(Schedule(Clear))), between);
      NextTag(m.world) <= m.world.generation <= Next(ch, reached, CallCommandCheck).world.generation
  {
    NextKeeps(ch, m, Env(Schedule(Clear)));
    RunIsMonotone(ch, Next(ch, m, Env(Schedule(Clear))), between);
  }

  lemma GatheredAboveFence(ch: Channel, m: Machine, i: nat)
    requires Inv(ch, m) && Cleared(m.consumer) && i < |Gathered(m.consumer)|
    ensures !m.consumer.pc.AtClear? && Gathered(m.consumer)[i].tag >= m.consumer.fence
  {
    FenceIsBelow(m.world, m.consumer, i);
  }

  /** A scheduled DISCARD is obeyed as well, or the CLEAR that joined it. */
  lemma ScheduledDiscardIsObeyed(ch: Channel, m: Machine, between: seq<Step>)
    requires NoCheck(between) && Run(ch, Next(ch, m, Env(Schedule(Discard))), between).consumer.pc.Idle?
    ensures
      var reached := Run(ch, Next(ch, m, Env(Schedule(Discard))), between);
      var c := Next(ch, reached, CallCommandCheck).consumer;
      c.pc == if m.world.command.Clear? || Schedules(between, Clear) then AtClear else AtDrain(false)
  {
    hide *;
    StepKeepsCommands(ch, m, Env(Schedule(Discard)));
    CommandsAccumulate(ch, Next(ch, m, Env(Schedule(Discard))), between);
    CheckObeys(ch, Run(ch, Next(ch, m, Env(Schedule(Discard))), between));
  }

  /** Nothing is created or lost: produced samples are queued, discarded, or taken by fills. */
  lemma RingAccounting(ch: Channel, trace: seq<Step>)
    ensures
      var w, c := Reach(ch, trace).world, Reach(ch, trace).consumer;
      && w.produced + (if w.producer.Pushing? then w.producer.done else 0) == |w.Ring()| + c.discarded + c.taken
      && |w.Ring()| <= BYPASS_RING_CAPACITY
  {
    ReachKeeps(ch, trace);
  }

  /** The steps of one fill: the consumer's own and everybody else's. */
  predicate OneFill(trace: seq<Step>) {
    forall i :: 0 <= i < |trace| ==> trace[i].Env? || trace[i].Consume?
  }

  lemma Extend(ch: Channel, trace: seq<Step>, step: Step)
    ensures Reach(ch, trace + [step]) == Next(ch, Reach(ch, trace), step)
  {
    assert (trace + [step])[..|trace|] == trace;
  }
}
