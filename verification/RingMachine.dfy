/**
 * The generation-tagged single-producer/single-consumer ring, one atomic access per step.
 *
 * Threads: the capture callback (producer), the source callback (consumer), and any number of control threads.
 * Memory is sequentially consistent. A step that its thread cannot take leaves the machine unchanged, so every
 * sequence of steps is a run and a statement about all traces is a statement about all interleavings.
 */
module RingMachine {
  import opened Prelude
  import opened Samples
  import opened FaultRamps

  const BYPASS_RING_CAPACITY: nat := 2 * MAX_CALLBACK_FRAMES + 2 * MODEL_FRAME_SAMPLES
  const BYPASS_STARTUP_QUANTA: nat := 1

  /**
   * One slot of the ring. `tag` and `value` are stored by the program; `index` is the sample's position in the
   * stream offered to the producer, and `skipped` counts the samples withheld so far by a closed publication gate.
   */
  datatype Entry = Entry(tag: nat, value: Pcm, index: nat, skipped: nat)

  datatype Channel = Channel(startupFrame: nat, startupQuanta: nat, emptyWhileBuffering: bool, gains: Gains)

  function BypassChannel(gains: Gains): Channel {
    Channel(MODEL_FRAME_SAMPLES, BYPASS_STARTUP_QUANTA, false, gains)
  }

  function ProcessedChannel(gains: Gains): Channel {
    Channel(MODEL_FRAME_SAMPLES, 0, true, gains)
  }

  datatype Command = NoCommand | Discard | Clear

  /** `fetch_max` on the command byte. */
  function Dominant(a: Command, b: Command): Command {
    if a.Clear? || b.Clear? then Clear else if a.Discard? || b.Discard? then Discard else NoCommand
  }

  /** Where the producer stands inside `write_processed`. */
  datatype Producer =
    | Resting
    | Called(block: seq<Pcm>)
    | Open(block: seq<Pcm>)
    | Tagged(block: seq<Pcm>, tag: nat)
    | Pushing(block: seq<Pcm>, tag: nat, done: nat)
    | Overflowed(block: seq<Pcm>)

  /**
   * Everything shared, and the producer. The ring holds `pushed[popped..]`; `stream` is every sample offered so far,
   * of which `offered` belong to finished calls.
   */
  datatype World = World(
    generation: nat,
    publicationEnabled: bool,
    command: Command,
    producer: Producer,
    stream: seq<Pcm>,
    offered: nat,
    skipped: nat,
    pushed: seq<Entry>,
    popped: nat,
    produced: nat,
    mark: nat)
  {
    function Occupancy(): int {
      |pushed| - popped
    }

    predicate HasHead() {
      popped < |pushed|
    }

    function Head(): Entry
      requires HasHead()
    {
      pushed[popped]
    }

    function Pop(): World
      requires HasHead()
    {
      this.(popped := popped + 1)
    }

    function Bump(): World {
      this.(generation := generation + 1)
    }

    function Ring(): seq<Entry> {
      if popped <= |pushed| then pushed[popped..] else []
    }
  }

  datatype EnvStep =
    | Resync
    | SetPublication(on: bool)
    | Schedule(command: Command)
    | Offer(block: seq<Pcm>)
    | Produce

  function ProducerNext(w: World): World {
    match w.producer
    case Resting => w
    case Called(block) =>
      if w.publicationEnabled then w.(producer := Open(block))
      else w.(producer := Resting, offered := w.offered + |block|, skipped := w.skipped + |block|)
    case Open(block) => w.(producer := Tagged(block, w.generation))
    case Tagged(block, tag) =>
      if BYPASS_RING_CAPACITY - w.Occupancy() < |block| then w.(producer := Overflowed(block))
      else w.(producer := Pushing(block, tag, 0))
    case Pushing(block, tag, done) =>
      if done < |block| then
        if w.Occupancy() >= BYPASS_RING_CAPACITY then w.(producer := Overflowed(block))
        else w.(pushed := w.pushed + [Entry(tag, block[done], w.offered + done, w.skipped)],
                producer := Pushing(block, tag, done + 1))
      else w.(producer := Resting, offered := w.offered + |block|, produced := w.produced + |block|)
    case Overflowed(block) => w.Bump().(producer := Resting, offered := w.offered + |block|)
  }

  function EnvNext(w: World, e: EnvStep): World {
    match e
    case Resync => w.Bump()
    case SetPublication(on) => w.(publicationEnabled := on)
    case Schedule(c) =>
      w.(command := Dominant(w.command, c), mark := if c.NoCommand? then w.mark else |w.pushed|)
    case Offer(block) =>
      if w.producer.Resting? then w.(producer := Called(block), stream := w.stream + block) else w
    case Produce => ProducerNext(w)
  }

  /** Where the consumer stands inside `fill`, `clear_sensitive`, or `discard_pending_sensitive`. */
  datatype Pc =
    | Idle
    | AtSync(n: nat)
    | AtPeek(n: nat)
    | AtStale(n: nat)
    | AtSlots(n: nat)
    | AtPop(n: nat, scratch: seq<Entry>)
    | AtUnderflow(n: nat)
    | AtClear
    | AtDrain(clearing: bool)
    | AtReload

  /**
   * The consumer. Besides the program's fields it remembers the current delivery session: the entries delivered
   * since `ready` last became true, where they start in the history of pushes, what was heard of them, and when an
   * oversized request muted them. `barrier` is the ring position of the last applied command, `fence` the generation
   * of the last applied CLEAR.
   */
  datatype Consumer = Consumer(
    pc: Pc,
    current: nat,
    ready: bool,
    leading: bool,
    fade: Fade,
    session: seq<Entry>,
    start: nat,
    heard: seq<Pcm>,
    mutedAt: Option<nat>,
    barrier: nat,
    fence: nat,
    discarded: nat,
    taken: nat)
  {
    function EndSession(ch: Channel): Consumer {
      this.(ready := false, leading := ch.emptyWhileBuffering, session := [], heard := [], mutedAt := None)
    }

    function Silenced(): Consumer {
      this.(fade := SILENCE, mutedAt := if ready && mutedAt.None? then Some(|session|) else mutedAt)
    }
  }

  datatype Machine = Machine(world: World, consumer: Consumer)

  function Values(entries: seq<Entry>): seq<Pcm> {
    seq(|entries|, i requires 0 <= i < |entries| => entries[i].value)
  }

  /** The tag the producer's next push will carry, if no resync comes first. */
  function NextTag(w: World): nat {
    match w.producer
    case Tagged(_, tag) => tag
    case Pushing(_, tag, _) => tag
    case _ => w.generation
  }

  function Required(ch: Channel, n: nat): nat {
    ch.startupFrame + n * ch.startupQuanta
  }

  function BecomeReady(c: Consumer): Consumer {
    if c.ready then c
    else c.(ready := true, fade := BeginRecovery(c.fade), session := [], heard := [], mutedAt := None)
  }

  function Synced(ch: Channel, w: World, c: Consumer): Consumer {
    if w.generation != c.current then c.EndSession(ch).(current := w.generation, fade := SILENCE) else c
  }

  function Delivered(ch: Channel, c: Consumer, scratch: seq<Entry>): Consumer {
    var input := Raw(Values(scratch));
    c.(fade := AfterAll(c.fade, input, ch.gains),
       heard := c.heard + RenderedAll(c.fade, input, ch.gains),
       session := c.session + scratch)
  }

  function Starved(ch: Channel, c: Consumer, n: nat): Consumer {
    c.EndSession(ch).(fade := AfterAll(BeginFault(c.fade), HeldInput(c.fade, n), ch.gains))
  }

  function ConsumerNext(ch: Channel, m: Machine): Machine {
    var w, c := m.world, m.consumer;
    match c.pc
    case Idle => m
    case AtSync(n) => Machine(w, Synced(ch, w, c).(pc := AtPeek(n)))
    case AtPeek(n) =>
      Machine(w, c.(pc := if w.HasHead() && w.Head().tag != c.current then AtStale(n) else AtSlots(n)))
    case AtStale(n) =>
      if w.HasHead() then Machine(w.Pop(), c.(discarded := c.discarded + 1, pc := AtPeek(n))) else m
    case AtSlots(n) =>
      if !c.ready && w.Occupancy() < Required(ch, n) then Machine(w, c.(pc := Idle))
      else
        var r := BecomeReady(c);
        if ch.emptyWhileBuffering && r.leading then Machine(w, r.(leading := false, pc := Idle))
        else Machine(w, r.(pc := AtPop(n, [])))
    case AtPop(n, scratch) =>
      if |scratch| >= n then Machine(w, Delivered(ch, c, scratch).(pc := Idle))
      else if !w.HasHead() then Machine(w, c.(pc := AtUnderflow(n)))
      else if w.Head().tag != c.current then Machine(w.Pop(), c.(taken := c.taken + 1, pc := AtUnderflow(n)))
      else
        Machine(w.Pop(),
                c.(taken := c.taken + 1,
                   start := if |c.session| + |scratch| == 0 then w.popped else c.start,
                   pc := AtPop(n, scratch + [w.Head()])))
    case AtUnderflow(n) => Machine(w.Bump(), Starved(ch, c, n).(pc := Idle))
    case AtClear => Machine(w.Bump(), c.(fence := w.generation + 1, pc := AtDrain(true)))
    case AtDrain(clearing) =>
      if w.HasHead() then Machine(w.Pop(), c.(discarded := c.discarded + 1))
      else Machine(w, c.EndSession(ch).(fade := SILENCE, pc := if clearing then AtReload else Idle))
    case AtReload => Machine(w, c.(current := w.generation, pc := Idle))
  }

  datatype Step =
    | Env(env: EnvStep)
    | CallFill(n: nat)
    | CallReject
    | CallCommandCheck
    | Consume

  function Next(ch: Channel, m: Machine, step: Step): Machine {
    var w, c := m.world, m.consumer;
    match step
    case Env(e) => Machine(EnvNext(w, e), c)
    case Consume => ConsumerNext(ch, m)
    case CallFill(n) =>
      if !c.pc.Idle? then m
      else if n > MAX_CALLBACK_FRAMES then Machine(w, c.Silenced())
      else Machine(w, c.(pc := AtSync(n)))
    case CallReject => if !c.pc.Idle? then m else Machine(w, c.Silenced())
    case CallCommandCheck =>
      if !c.pc.Idle? then m
      else
        var swapped := w.(command := NoCommand);
        match w.command
        case NoCommand => Machine(swapped, c)
        case Discard => Machine(swapped, c.(barrier := w.mark, pc := AtDrain(false)))
        case Clear => Machine(swapped, c.(barrier := w.mark, pc := AtClear))
  }

  function Start(ch: Channel): Machine {
    Machine(
      World(1, true, NoCommand, Resting, [], 0, 0, [], 0, 0, 0),
      Consumer(Idle, 1, false, ch.emptyWhileBuffering, SILENCE, [], 0, [], None, 0, 0, 0, 0))
  }

  function Run(ch: Channel, m: Machine, trace: seq<Step>): Machine {
    if trace == [] then m else Next(ch, Run(ch, m, trace[..|trace| - 1]), trace[|trace| - 1])
  }

  function Reach(ch: Channel, trace: seq<Step>): Machine {
    Run(ch, Start(ch), trace)
  }

  lemma {:induction false} RunAppends(ch: Channel, m: Machine, a: seq<Step>, b: seq<Step>)
    ensures Run(ch, m, a + b) == Run(ch, Run(ch, m, a), b)
  {
    if b == [] {
      assert a + b == a;
    } else {
      assert (a + b)[..|a + b| - 1] == a + b[..|b| - 1];
      RunAppends(ch, m, a, b[..|b| - 1]);
    }
  }
}
