/** What every interleaving keeps about the shared ring and its producer. */
module RingWorld {
  import opened Samples
  import opened RingMachine

  /** The offered-stream position of the producer's next push. */
  function NextIndex(w: World): nat {
    w.offered + if w.producer.Pushing? then w.producer.done else 0
  }

  /** A block as it stands in the ring: one tag, consecutive positions. */
  function Stamped(block: seq<Pcm>, tag: nat, from: nat, skipped: nat): seq<Entry> {
    seq(|block|, i requires 0 <= i < |block| => Entry(tag, block[i], from + i, skipped))
  }

  /** Between neighbours of one generation, only withheld samples are missing. */
  predicate Linked(a: Entry, b: Entry) {
    && a.skipped <= b.skipped
    && (a.tag == b.tag ==> b.index - a.index == 1 + (b.skipped - a.skipped))
  }

  ghost predicate TagsOrdered(pushed: seq<Entry>) {
    forall i, j :: 0 <= i < j < |pushed| ==> pushed[i].tag <= pushed[j].tag
  }

  ghost predicate LinksHold(pushed: seq<Entry>) {
    forall i :: 0 < i < |pushed| ==> Linked(pushed[i - 1], pushed[i])
  }

  ghost predicate TailLinked(w: World) {
    |w.pushed| > 0 ==>
      var last := w.pushed[|w.pushed| - 1];
      && last.tag <= NextTag(w) <= w.generation
      && last.skipped <= w.skipped
      && (last.tag == NextTag(w) && !w.producer.Overflowed? ==>
            NextIndex(w) - last.index == 1 + (w.skipped - last.skipped))
  }

  /** Once the slots were counted, the whole block fits: the consumer only makes room. */
  predicate ProducerFits(w: World) {
    match w.producer
    case Pushing(block, _, done) =>
      && done <= |block|
      && w.Occupancy() + (|block| - done) <= BYPASS_RING_CAPACITY
      && w.produced + done == |w.pushed|
    case _ => w.produced == |w.pushed|
  }

  /** Every pushed value is the offered sample at its index. */
  ghost predicate SourcedFrom(pushed: seq<Entry>, stream: seq<Pcm>) {
    forall i :: 0 <= i < |pushed| ==> pushed[i].index < |stream| && pushed[i].value == stream[pushed[i].index]
  }

  predicate CallInFlight(w: World) {
    && w.offered <= |w.stream|
    && match w.producer
       case Resting => w.offered == |w.stream|
       case p => w.stream[w.offered..] == p.block
  }

  predicate Shape(w: World) {
    && w.popped <= |w.pushed|
    && w.Occupancy() <= BYPASS_RING_CAPACITY
    && w.mark <= |w.pushed|
    && NextTag(w) <= w.generation
    && ProducerFits(w)
    && CallInFlight(w)
  }

  ghost predicate WorldInv(w: World) {
    && Shape(w)
    && TagsOrdered(w.pushed)
    && LinksHold(w.pushed)
    && SourcedFrom(w.pushed, w.stream)
    && TailLinked(w)
  }

  lemma HistoryGrows(pushed: seq<Entry>, e: Entry, stream: seq<Pcm>)
    requires TagsOrdered(pushed) && LinksHold(pushed) && SourcedFrom(pushed, stream)
    requires e.index < |stream| && e.value == stream[e.index]
    requires |pushed| > 0 ==> pushed[|pushed| - 1].tag <= e.tag && Linked(pushed[|pushed| - 1], e)
    ensures TagsOrdered(pushed + [e]) && LinksHold(pushed + [e]) && SourcedFrom(pushed + [e], stream)
  {
    if |pushed| > 0 {
      assert forall i :: 0 <= i < |pushed| ==> pushed[i].tag <= pushed[|pushed| - 1].tag;
    }
  }

  lemma PushKeeps(w: World)
    requires WorldInv(w) && w.producer.Pushing? && w.producer.done < |w.producer.block|
    ensures WorldInv(ProducerNext(w))
    ensures w.Occupancy() < BYPASS_RING_CAPACITY
  {
    var p := w.producer;
    var e := Entry(p.tag, p.block[p.done], w.offered + p.done, w.skipped);
    assert e.value == w.stream[w.offered..][p.done];
    HistoryGrows(w.pushed, e, w.stream);
    assert ProducerNext(w).pushed == w.pushed + [e];
    assert Shape(ProducerNext(w));
  }

  lemma CallEndKeeps(w: World)
    requires WorldInv(w)
    requires w.producer.Called? || w.producer.Overflowed? || (w.producer.Pushing? && w.producer.done == |w.producer.block|)
    ensures WorldInv(ProducerNext(w))
  {
    assert |w.stream[w.offered..]| == |w.stream| - w.offered;
    assert Shape(ProducerNext(w)) && TailLinked(ProducerNext(w));
  }

  lemma ProducerKeeps(w: World)
    requires WorldInv(w)
    ensures WorldInv(ProducerNext(w))
  {
    match w.producer
    case Pushing(block, _, done) =>
      if done < |block| {
        PushKeeps(w);
      } else {
        CallEndKeeps(w);
      }
    case Called(_) => CallEndKeeps(w);
    case Overflowed(_) => CallEndKeeps(w);
    case _ =>
  }

  lemma OfferKeeps(w: World, block: seq<Pcm>)
    requires WorldInv(w)
    ensures WorldInv(EnvNext(w, Offer(block)))
  {
    if w.producer.Resting? {
      var w' := EnvNext(w, Offer(block));
      assert w'.stream[w'.offered..] == block;
      assert SourcedFrom(w'.pushed, w'.stream);
    }
  }

  /** What other threads can do to the consumer's view: add at the back, request generations, schedule commands. */
  ghost predicate OnlyAdds(w: World, w': World) {
    && w'.popped == w.popped
    && w.pushed <= w'.pushed
    && w.generation <= w'.generation
    && w.mark <= w'.mark
    && (w'.command.NoCommand? ==> w.command.NoCommand? && w'.mark == w.mark)
    && (w'.generation == w.generation ==> NextTag(w') == NextTag(w) || NextTag(w') == w.generation)
    && forall i :: |w.pushed| <= i < |w'.pushed| ==> w'.pushed[i].tag == NextTag(w)
  }

  lemma EnvOnlyAdds(w: World, e: EnvStep)
    requires w.mark <= |w.pushed|
    ensures OnlyAdds(w, EnvNext(w, e))
  {
  }

  lemma EnvKeeps(w: World, e: EnvStep)
    requires WorldInv(w)
    ensures WorldInv(EnvNext(w, e))
  {
    match e
    case Produce => ProducerKeeps(w);
    case Offer(block) => OfferKeeps(w, block);
    case _ =>
  }

  lemma PopKeeps(w: World)
    requires WorldInv(w) && w.HasHead()
    ensures WorldInv(w.Pop())
  {
  }

  lemma BumpKeeps(w: World)
    requires WorldInv(w)
    ensures WorldInv(w.Bump())
  {
  }

  /** The consumer touches the shared state only by popping the head or requesting a resync. */
  lemma ConsumerTouches(ch: Channel, m: Machine)
    ensures
      var w, w' := m.world, ConsumerNext(ch, m).world;
      w' == w || (w.HasHead() && w' == w.Pop()) || w' == w.Bump()
    ensures
      var c, c' := m.consumer, ConsumerNext(ch, m).consumer;
      c'.barrier == c.barrier && (c'.fence == c.fence || c'.fence == m.world.generation + 1)
  {
  }

  lemma NextKeepsWorld(ch: Channel, m: Machine, step: Step)
    requires WorldInv(m.world)
    ensures WorldInv(Next(ch, m, step).world)
  {
    match step
    case Env(e) => EnvKeeps(m.world, e);
    case Consume =>
      ConsumerTouches(ch, m);
      BumpKeeps(m.world);
      if m.world.HasHead() {
        PopKeeps(m.world);
      }
    case _ =>
      var w, w' := m.world, Next(ch, m, step).world;
      assert w' == w || w' == w.(command := NoCommand);
  }

  lemma {:induction false} ReachKeepsWorld(ch: Channel, trace: seq<Step>)
    ensures WorldInv(Reach(ch, trace).world)
  {
    if trace != [] {
      var n := |trace| - 1;
      ReachKeepsWorld(ch, trace[..n]);
      NextKeepsWorld(ch, Reach(ch, trace[..n]), trace[n]);
    }
  }

  /** In every interleaving, queued tags never decrease and never run ahead of the shared generation. */
  lemma TagsNeverRunAhead(ch: Channel, trace: seq<Step>, i: nat, j: nat)
    requires var w := Reach(ch, trace).world; w.popped <= i <= j < |w.pushed|
    ensures var w := Reach(ch, trace).world; w.pushed[i].tag <= w.pushed[j].tag <= w.generation
  {
    ReachKeepsWorld(ch, trace);
    var w := Reach(ch, trace).world;
    assert w.pushed[j].tag <= w.pushed[|w.pushed| - 1].tag;
  }

  /** The ring never exceeds its capacity, and a block whose slots were counted is never refused half-way. */
  lemma BlocksFit(ch: Channel, trace: seq<Step>)
    ensures
      var w := Reach(ch, trace).world;
      && w.Occupancy() <= 9216
      && (w.producer.Pushing? ==> !ProducerNext(w).producer.Overflowed?)
  {
    ReachKeepsWorld(ch, trace);
    var w := Reach(ch, trace).world;
    if w.producer.Pushing? {
      PushesAreAccepted(w);
    }
  }

  lemma PushesAreAccepted(w: World)
    requires Shape(w) && w.producer.Pushing?
    ensures !ProducerNext(w).producer.Overflowed?
  {
  }

  /** Any stretch of one generation in the push history misses exactly the samples the gate withheld. */
  lemma {:induction false} StretchIsAccounted(pushed: seq<Entry>, i: nat, j: nat)
    requires TagsOrdered(pushed) && LinksHold(pushed)
    requires i <= j < |pushed|
    ensures pushed[i].skipped <= pushed[j].skipped
    ensures pushed[i].tag == pushed[j].tag ==>
      pushed[j].index - pushed[i].index == (j - i) + (pushed[j].skipped - pushed[i].skipped)
    decreases j - i
  {
    if i < j {
      assert pushed[i].tag <= pushed[j - 1].tag <= pushed[j].tag;
      StretchIsAccounted(pushed, i, j - 1);
      assert Linked(pushed[j - 1], pushed[j]);
    }
  }
}
