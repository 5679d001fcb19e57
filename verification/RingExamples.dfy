/** Reachable runs of the ring: that what the theorems single out really happens. */
module RingExamples {
  import opened Samples
  import opened FaultRamps
  import opened RingMachine
  import opened RingWorld
  import opened RingSessions
  import opened RingTheorems
  import opened RingFills

  /** The run goes on with one more step. */
  lemma Then(ch: Channel, trace: seq<Step>, step: Step) returns (longer: seq<Step>)
    ensures longer == trace + [step] && Reach(ch, longer) == Next(ch, Reach(ch, trace), step)
  {
    Extend(ch, trace, step);
    longer := trace + [step];
  }

  lemma {:induction false} PushMany(ch: Channel, trace: seq<Step>, k: nat) returns (longer: seq<Step>)
    requires
      var w := Reach(ch, trace).world;
      w.producer.Pushing? && w.producer.done == 0 && k <= |w.producer.block| && w.Occupancy() + k <= BYPASS_RING_CAPACITY
    ensures
      var m := Reach(ch, trace);
      var p := m.world.producer;
      Reach(ch, longer) == Machine(
        m.world.(pushed := m.world.pushed + Stamped(p.block[..k], p.tag, m.world.offered, m.world.skipped),
          producer := p.(done := k)),
        m.consumer)
  {
    var w := Reach(ch, trace).world;
    var p := w.producer;
    longer := trace;
    if k == 0 {
      assert w.pushed + Stamped(p.block[..0], p.tag, w.offered, w.skipped) == w.pushed;
    } else {
      longer := PushMany(ch, trace, k - 1);
      assert w.pushed + Stamped(p.block[..k], p.tag, w.offered, w.skipped) ==
             w.pushed + Stamped(p.block[..k - 1], p.tag, w.offered, w.skipped)
             + [Entry(p.tag, p.block[k - 1], w.offered + k - 1, w.skipped)];
      longer := Then(ch, longer, Env(Produce));
    }
  }

  /** A whole block through the open gate. */
  lemma PushBlock(ch: Channel, trace: seq<Step>, block: seq<Pcm>) returns (longer: seq<Step>)
    requires
      var w := Reach(ch, trace).world;
      w.producer.Resting? && w.publicationEnabled && w.Occupancy() + |block| <= BYPASS_RING_CAPACITY
    ensures
      var m := Reach(ch, trace);
      var w := m.world;
      Reach(ch, longer) == Machine(
        w.(stream := w.stream + block, offered := w.offered + |block|, produced := w.produced + |block|,
           pushed := w.pushed + Stamped(block, w.generation, w.offered, w.skipped)),
        m.consumer)
  {
    hide Reach, ConsumerNext;
    longer := Then(ch, trace, Env(Offer(block)));
    longer := Then(ch, longer, Env(Produce));
    longer := Then(ch, longer, Env(Produce));
    longer := Then(ch, longer, Env(Produce));
    assert block[..|block|] == block;
    longer := PushMany(ch, longer, |block|);
    longer := Then(ch, longer, Env(Produce));
  }

  /** A block that meets the closed gate. */
  lemma WithholdBlock(ch: Channel, trace: seq<Step>, block: seq<Pcm>) returns (longer: seq<Step>)
    requires Reach(ch, trace).world.producer.Resting?
    ensures
      var m := Reach(ch, trace);
      var w := m.world;
      Reach(ch, longer) == Machine(
        w.(publicationEnabled := true, stream := w.stream + block, offered := w.offered + |block|,
          skipped := w.skipped + |block|),
        m.consumer)
  {
    hide Reach, ConsumerNext;
    longer := Then(ch, trace, Env(SetPublication(false)));
    longer := Then(ch, longer, Env(Offer(block)));
    longer := Then(ch, longer, Env(Produce));
    longer := Then(ch, longer, Env(SetPublication(true)));
  }

  /** The fill pops `k` entries of its generation. */
  lemma {:induction false} PopMany(ch: Channel, trace: seq<Step>, k: nat) returns (longer: seq<Step>)
    requires
      var w, c := Reach(ch, trace).world, Reach(ch, trace).consumer;
      && c.pc.AtPop? && c.pc.scratch == [] && k <= c.pc.n
      && Fresh(w, w.popped, k, c.current)
    ensures
      var m, c' := Reach(ch, trace), Reach(ch, longer).consumer;
      && Reach(ch, longer).world == m.world.(popped := m.world.popped + k)
      && c' == m.consumer.(taken := c'.taken, start := c'.start,
                           pc := AtPop(m.consumer.pc.n, m.world.pushed[m.world.popped..m.world.popped + k]))
  {
    longer := trace;
    if k > 0 {
      var w := Reach(ch, trace).world;
      longer := PopMany(ch, trace, k - 1);
      var before := Reach(ch, longer).world;
      assert before.HasHead() && before.Head() == w.pushed[w.popped + k - 1];
      assert w.pushed[w.popped..w.popped + k] == w.pushed[w.popped..w.popped + k - 1] + [w.pushed[w.popped + k - 1]];
      longer := Then(ch, longer, Consume);
    }
  }

  /** A fill of a ready session up to its first pop, with no resync pending and nothing stale in front. */
  lemma BeginPops(ch: Channel, trace: seq<Step>, n: nat) returns (longer: seq<Step>)
    requires
      var w, c := Reach(ch, trace).world, Reach(ch, trace).consumer;
      && c.pc.Idle? && n <= MAX_CALLBACK_FRAMES && w.generation == c.current && (w.HasHead() ==> w.Head().tag == c.current)
      && PastLeading(ch, c) && (c.ready || (!ch.emptyWhileBuffering && w.Occupancy() >= Required(ch, n)))
    ensures
      var m := Reach(ch, trace);
      Reach(ch, longer) == Machine(m.world, BecomeReady(m.consumer).(pc := AtPop(n, [])))
  {
    hide Reach, EnvNext;
    longer := Then(ch, trace, CallFill(n));
    longer := Then(ch, longer, Consume);
    longer := Then(ch, longer, Consume);
    longer := Then(ch, longer, Consume);
  }

  /**
   * A stale startup exists: a block that read its generation before a resync can complete the startup count with samples
   * the fill will refuse. The fill starves although nobody requested a resync since it synchronised.
   */
  lemma StaleBlockStarvesAStartup(gains: Gains) returns (trace: seq<Step>)
    ensures
      var m := Reach(BypassChannel(gains), trace);
      && m.consumer.pc.AtUnderflow? && m.consumer.session == []
      && m.consumer.current == m.world.generation
  {
    var ch := BypassChannel(gains);
    var block := Zeros(MODEL_FRAME_SAMPLES + 1);
    assert Reach(ch, []) == Start(ch);
    hide Reach;
    trace := Then(ch, [], Env(Offer(block)));
    trace := Then(ch, trace, Env(Produce));
    trace := Then(ch, trace, Env(Produce));
    trace := Then(ch, trace, Env(Produce));
    trace := Then(ch, trace, Env(Resync));
    trace := Then(ch, trace, CallFill(1));
    trace := Then(ch, trace, Consume);
    trace := Then(ch, trace, Consume);
    trace := PushMany(ch, trace, |block|);
    trace := Then(ch, trace, Consume);
    trace := Then(ch, trace, Consume);
  }

  /** A session with a gap exists: its second sample is not the successor of its first. */
  lemma GateLeavesAGap(gains: Gains) returns (trace: seq<Step>)
    ensures
      var c := Reach(BypassChannel(gains), trace).consumer;
      && c.ready && |c.session| == 2 && c.session[0].tag == c.session[1].tag
      && c.session[0].index == 0 && c.session[1].index == 2 && !GapFree(c.session)
  {
    var ch := BypassChannel(gains);
    assert Reach(ch, []) == Start(ch);
    trace := PushBlock(ch, [], Zeros(1));
    trace := WithholdBlock(ch, trace, Zeros(1));
    trace := PushBlock(ch, trace, Zeros(MODEL_FRAME_SAMPLES + 1));
    hide Reach;
    var w := Reach(ch, trace).world;
    assert w.pushed == Stamped(Zeros(1), 1, 0, 0) + Stamped(Zeros(MODEL_FRAME_SAMPLES + 1), 1, 2, 1);
    trace := BeginPops(ch, trace, 2);
    trace := PopMany(ch, trace, 2);
    trace := Then(ch, trace, Consume);
  }

  /**
   * A fade that does not finish exists: after 512 samples the processed channel runs dry, and a buffer of one sample is
   * too short for the 240 steps.
   */
  lemma ShortBufferCutsTheFade(gains: Gains) returns (trace: seq<Step>)
    ensures
      var m := Reach(ProcessedChannel(gains), trace);
      && m.consumer.pc == AtUnderflow(1) && m.consumer.fade.step == FAULT_RAMP_SAMPLES
      && !Next(ProcessedChannel(gains), m, Consume).consumer.fade.state.Silent?
  {
    var ch := ProcessedChannel(gains);
    trace := RunDry(gains);
    var m := Reach(ch, trace);
    ReachKeeps(ch, trace);
    hide Reach, Next;
    FadeInState(Raw(Values(m.consumer.session)), gains);
    StarvedFade(ch, m, 1);
  }

  /** The run up to the underflow. */
  lemma RunDry(gains: Gains) returns (trace: seq<Step>)
    ensures
      var c := Reach(ProcessedChannel(gains), trace).consumer;
      c.pc == AtUnderflow(1) && |c.session| == MODEL_FRAME_SAMPLES && c.mutedAt.None?
  {
    var ch := ProcessedChannel(gains);
    assert Reach(ch, []) == Start(ch);
    trace := PushBlock(ch, [], Zeros(MODEL_FRAME_SAMPLES));
    hide Reach;
    var w := Reach(ch, trace).world;
    assert w.pushed == Stamped(Zeros(MODEL_FRAME_SAMPLES), 1, 0, 0);
    trace := Then(ch, trace, CallFill(1));
    trace := Then(ch, trace, Consume);
    trace := Then(ch, trace, Consume);
    trace := Then(ch, trace, Consume);
    trace := BeginPops(ch, trace, MODEL_FRAME_SAMPLES);
    trace := PopMany(ch, trace, MODEL_FRAME_SAMPLES);
    trace := Then(ch, trace, Consume);
    trace := BeginPops(ch, trace, 1);
    trace := Then(ch, trace, Consume);
  }
}
