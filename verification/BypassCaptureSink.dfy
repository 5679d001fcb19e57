/**
 * The capture callback's half of the ring, in the program's own form. Before every atomic access any other threads
 * run, the consumer included; a ghost trace ties the call to a run of the ring machine.
 */
module BypassCaptureSinks {
  import opened Samples
  import opened RingMachine
  import opened RingWorld
  import opened RingTheorems

  /** A step of a thread other than the producer. */
  predicate Foreign(step: Step) {
    step.Env? ==> !step.env.Offer? && !step.env.Produce?
  }

  /** Between two accesses of the producer, only room and generations are added. */
  ghost predicate OnlyMakesRoom(w: World, w': World) {
    && w'.producer == w.producer && w'.pushed == w.pushed && w'.stream == w.stream
    && w'.offered == w.offered && w'.skipped == w.skipped && w'.produced == w.produced
    && w.popped <= w'.popped && w.generation <= w'.generation
  }

  lemma ForeignStepsMakeRoom(ch: Channel, m: Machine, step: Step)
    requires Foreign(step)
    ensures OnlyMakesRoom(m.world, Next(ch, m, step).world)
  {
    if step.Consume? {
      ConsumerTouches(ch, m);
    }
  }

  class BypassCaptureSink {
    const channel: Channel
    /** The shared atomics and the ring, and the consumer that works on them meanwhile. */
    var world: World
    var consumer: Consumer
    /** What the other threads do before each of the next accesses. */
    var bursts: seq<seq<Step>>

    ghost var trace: seq<Step>

    ghost predicate Valid()
      reads this
    {
      && Reach(channel, trace) == Machine(world, consumer)
      && forall i, j :: 0 <= i < |bursts| && 0 <= j < |bursts[i]| ==> Foreign(bursts[i][j])
    }

    constructor (channel: Channel)
      ensures Valid() && this.channel == channel && trace == [] && bursts == []
    {
      this.channel := channel;
      world := Start(channel).world;
      consumer := Start(channel).consumer;
      bursts := [];
      trace := [];
    }

    /** Other threads run before the next access. */
    method Interfere()
      requires Valid()
      modifies `world, `consumer, `bursts, `trace
      ensures Valid() && old(trace) <= trace && OnlyMakesRoom(old(world), world) && Shape(world)
    {
      if bursts != [] {
        var burst := bursts[0];
        bursts := bursts[1..];
        for i := 0 to |burst|
          invariant Valid() && old(trace) <= trace && OnlyMakesRoom(old(world), world)
          invariant bursts == old(bursts)[1..] && forall j :: 0 <= j < |burst| ==> Foreign(burst[j])
        {
          ForeignStepsMakeRoom(channel, Machine(world, consumer), burst[i]);
          Extend(channel, trace, burst[i]);
          var next := Next(channel, Machine(world, consumer), burst[i]);
          world, consumer := next.world, next.consumer;
          trace := trace + [burst[i]];
        }
      }
      ReachKeepsWorld(channel, trace);
    }

    /** Advances the ghost machine over the access the producer is making. */
    ghost method Access()
      requires Reach(channel, trace) == Machine(world, consumer)
      modifies `trace
      ensures Reach(channel, trace) == Machine(ProducerNext(world), consumer) && old(trace) <= trace
    {
      Extend(channel, trace, Env(Produce));
      trace := trace + [Env(Produce)];
    }

    /** Requests a resynchronization for a block that does not fit. */
    method RecordOverflow(block: seq<Pcm>)
      requires Valid() && world.producer == Overflowed(block)
      modifies `world, `consumer, `bursts, `trace
      ensures Valid() && old(trace) <= trace
      ensures world.producer.Resting? && world.pushed == old(world).pushed && world.produced == old(world).produced
      ensures world.generation > old(world).generation && world.skipped == old(world).skipped
      ensures world.stream == old(world).stream && world.offered == old(world).offered + |block|
    {
      Interfere();
      Access();
      world := world.(generation := world.generation + 1, producer := Resting, offered := world.offered + |block|);
    }

    /** One `push`; it is never refused, because the slots were counted and the consumer only makes room. */
    method Push(block: seq<Pcm>, tag: nat, i: nat)
      requires Valid() && world.producer == Pushing(block, tag, i) && i < |block|
      modifies `world, `consumer, `bursts, `trace
      ensures Valid() && old(trace) <= trace && world.producer == Pushing(block, tag, i + 1)
      ensures world.pushed == old(world).pushed + [Entry(tag, block[i], old(world).offered + i, old(world).skipped)]
      ensures world.stream == old(world).stream && world.offered == old(world).offered
      ensures world.skipped == old(world).skipped && world.produced == old(world).produced
      ensures world.generation >= old(world).generation
    {
      Interfere();
      if world.Occupancy() >= BYPASS_RING_CAPACITY {
        assert false;
      }
      Access();
      world := world.(
        pushed := world.pushed + [Entry(tag, block[i], world.offered + i, world.skipped)],
        producer := Pushing(block, tag, i + 1));
    }

    /** The call begins; the gate is read. A closed gate ends the call. */
    method CheckGate(block: seq<Pcm>) returns (enabled: bool)
      requires Valid() && world.producer.Resting?
      modifies `world, `consumer, `bursts, `trace
      ensures Valid() && old(trace) + [Env(Offer(block))] <= trace
      ensures world.stream == old(world).stream + block && world.generation >= old(world).generation
      ensures world.pushed == old(world).pushed && world.produced == old(world).produced
      ensures world.popped >= old(world).popped
      ensures if enabled then
          world.producer == Open(block) && world.offered == old(world).offered && world.skipped == old(world).skipped
        else
          && world.producer.Resting? && world.offered == old(world).offered + |block|
          && world.skipped == old(world).skipped + |block|
    {
      Extend(channel, trace, Env(Offer(block)));
      world := world.(producer := Called(block), stream := world.stream + block);
      trace := trace + [Env(Offer(block))];
      Interfere();
      enabled := world.publicationEnabled;
      Access();
      if enabled {
        world := world.(producer := Open(block));
      } else {
        world := world.(producer := Resting, offered := world.offered + |block|, skipped := world.skipped + |block|);
      }
    }

    /** The generation is read, then the free slots. */
    method Prepare(block: seq<Pcm>) returns (generation: nat, fits: bool)
      requires Valid() && world.producer == Open(block)
      modifies `world, `consumer, `bursts, `trace
      ensures Valid() && old(trace) <= trace && OnlyMakesRoom(old(world).(producer := world.producer), world)
      ensures old(world).generation <= generation <= world.generation
      ensures world.producer == if fits then Pushing(block, generation, 0) else Overflowed(block)
      ensures fits <==> world.Occupancy() + |block| <= BYPASS_RING_CAPACITY
    {
      Interfere();
      generation := world.generation;
      Access();
      world := world.(producer := Tagged(block, generation));
      Interfere();
      var slots := BYPASS_RING_CAPACITY - world.Occupancy();
      Access();
      fits := slots >= |block|;
      world := world.(producer := if fits then Pushing(block, generation, 0) else Overflowed(block));
    }

    /** All pushes, and the end of the call. */
    method PushAll(block: seq<Pcm>, tag: nat)
      requires Valid() && world.producer == Pushing(block, tag, 0)
      modifies `world, `consumer, `bursts, `trace
      ensures Valid() && old(trace) <= trace && world.producer.Resting? && world.generation >= old(world).generation
      ensures world.stream == old(world).stream && world.offered == old(world).offered + |block|
      ensures world.skipped == old(world).skipped && world.produced == old(world).produced + |block|
      ensures world.pushed == old(world).pushed + Stamped(block, tag, old(world).offered, old(world).skipped)
    {
      ghost var stamped := Stamped(block, tag, world.offered, world.skipped);
      assert world.pushed + stamped[..0] == world.pushed;
      var i := 0;
      while i < |block|
        invariant Valid() && old(trace) <= trace && i <= |block|
        invariant world.producer == Pushing(block, tag, i) && world.generation >= old(world).generation
        invariant world.stream == old(world).stream && world.offered == old(world).offered
        invariant world.skipped == old(world).skipped && world.produced == old(world).produced
        invariant world.pushed == old(world).pushed + stamped[..i]
      {
        Push(block, tag, i);
        assert stamped[..i + 1] == stamped[..i] + [stamped[i]];
        i := i + 1;
      }
      assert stamped[..i] == stamped;
      Interfere();
      Access();
      world := world.(producer := Resting, offered := world.offered + |block|, produced := world.produced + |block|);
    }

    /**
     * Writes one complete block. Whatever the other threads do meanwhile, the block enters the ring whole, in order,
     * and under one generation read during the call; or not at all, because the gate was closed or because it did not
     * fit, and then a newer generation was requested.
     */
    method WriteProcessed(block: seq<Pcm>, others: seq<seq<Step>>) returns (accepted: bool, ghost tag: nat, ghost withheld: bool)
      requires Valid() && world.producer.Resting?
      requires forall i, j :: 0 <= i < |others| && 0 <= j < |others[i]| ==> Foreign(others[i][j])
      modifies this
      ensures Valid() && world.producer.Resting? && old(trace) + [Env(Offer(block))] <= trace
      ensures world.stream == old(world).stream + block && world.offered == old(world).offered + |block|
      ensures world.skipped == old(world).skipped + if withheld then |block| else 0
      ensures withheld ==> accepted && world.pushed == old(world).pushed && world.produced == old(world).produced
      ensures !withheld && accepted ==>
        && old(world).generation <= tag <= world.generation
        && world.pushed == old(world).pushed + Stamped(block, tag, old(world).offered, old(world).skipped)
        && world.produced == old(world).produced + |block|
      ensures !accepted ==>
        && !withheld && world.pushed == old(world).pushed && world.produced == old(world).produced
        && world.generation > old(world).generation
      ensures old(world).Occupancy() + |block| <= 9216 ==> accepted
    {
      bursts := others;
      var enabled := CheckGate(block);
      if !enabled {
        return true, 0, true;
      }
      var generation, fits := Prepare(block);
      tag, withheld := generation, false;
      if fits {
        PushAll(block, generation);
      } else {
        RecordOverflow(block);
      }
      accepted := fits;
    }
  }
}
