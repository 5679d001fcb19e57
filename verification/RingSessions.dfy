/** What every interleaving keeps about the consumer, and what that means for the published sound. */
module RingSessions {
  import opened Prelude
  import opened Samples
  import opened FaultRamps
  import opened RingMachine
  import opened RingWorld

  function Scratch(c: Consumer): seq<Entry> {
    if c.pc.AtPop? then c.pc.scratch else []
  }

  /** Delivered and about to be delivered. */
  function Gathered(c: Consumer): seq<Entry> {
    c.session + Scratch(c)
  }

  predicate Draining(c: Consumer) {
    c.pc.AtClear? || c.pc.AtDrain?
  }

  ghost predicate Counts(w: World, c: Consumer) {
    && c.current <= w.generation
    && c.fence <= w.generation
    && w.popped == c.discarded + c.taken
    && (c.pc.AtStale? ==> w.HasHead() && w.Head().tag != c.current)
    && (c.pc.AtPop? || c.pc.AtUnderflow? ==> c.ready)
    && (c.pc.AtReload? ==> !c.ready)
    && (!c.ready ==> c.session == [] && c.mutedAt.None?)
  }

  /** Delivery is one unbroken slice of the push history, all of the consumer's generation. */
  ghost predicate Slice(w: World, c: Consumer) {
    SliceOf(w.pushed, w.popped, Gathered(c), c.start, c.current, !c.pc.AtUnderflow? && !Draining(c))
  }

  ghost predicate SliceOf(pushed: seq<Entry>, popped: nat, g: seq<Entry>, start: nat, current: nat, continues: bool) {
    |g| > 0 ==>
      && start + |g| <= popped <= |pushed|
      && pushed[start..start + |g|] == g
      && (forall i :: 0 <= i < |g| ==> g[i].tag == current)
      && (continues && start + |g| < popped ==> pushed[start + |g|].tag > current)
  }

  /** Without a session the ramp is silent, or a resync is pending that will silence it. */
  ghost predicate SilentOutsideSessions(w: World, c: Consumer) {
    !c.ready ==> c.fade == SILENCE || (c.current < w.generation && (c.pc.Idle? || c.pc.AtSync? || Draining(c)))
  }

  ghost predicate FadeTracksSession(ch: Channel, c: Consumer) {
    c.ready ==> FadeTracks(ch.gains, c.session, c.fade, c.heard, c.mutedAt)
  }

  ghost predicate FadeTracks(g: Gains, session: seq<Entry>, fade: Fade, heard: seq<Pcm>, mutedAt: Option<nat>) {
    match mutedAt
    case None =>
      && fade == AfterAll(BeginRecovery(SILENCE), Raw(Values(session)), g)
      && heard == RenderedAll(BeginRecovery(SILENCE), Raw(Values(session)), g)
    case Some(m) =>
      && m <= |session|
      && fade == SILENCE
      && heard == RenderedAll(BeginRecovery(SILENCE), Raw(Values(session[..m])), g) + Zeros(|session| - m)
  }

  /** Ring positions below `barrier` are gone for good; so are generations below `fence`. */
  ghost predicate Fenced(w: World, c: Consumer) {
    && c.barrier <= w.mark
    && (w.command.NoCommand? ==> c.barrier == w.mark)
    && (!Draining(c) ==> c.barrier <= w.popped && (|Gathered(c)| > 0 ==> c.barrier <= c.start))
    && (c.pc.AtClear? || (c.pc.AtDrain? && c.pc.clearing) || c.pc.AtReload? || c.fence <= c.current)
  }

  ghost predicate SessionInv(ch: Channel, w: World, c: Consumer) {
    && Counts(w, c)
    && Slice(w, c)
    && SilentOutsideSessions(w, c)
    && FadeTracksSession(ch, c)
    && Fenced(w, c)
  }

  /** A session has its leading silence behind it. */
  predicate PastLeading(ch: Channel, c: Consumer) {
    c.ready && ch.emptyWhileBuffering ==> !c.leading
  }

  ghost predicate ConsumerInv(ch: Channel, w: World, c: Consumer) {
    SessionInv(ch, w, c) && PastLeading(ch, c)
  }

  ghost predicate Inv(ch: Channel, m: Machine) {
    WorldInv(m.world) && ConsumerInv(ch, m.world, m.consumer)
  }

  lemma SliceSurvivesPushes(pushed: seq<Entry>, pushed': seq<Entry>, popped: nat, g: seq<Entry>, start: nat, current: nat,
                            continues: bool)
    requires SliceOf(pushed, popped, g, start, current, continues) && pushed <= pushed'
    ensures SliceOf(pushed', popped, g, start, current, continues)
  {
    if |g| > 0 {
      assert pushed'[start..start + |g|] == pushed[start..start + |g|];
    }
  }

  lemma SliceExtends(pushed: seq<Entry>, popped: nat, g: seq<Entry>, start: nat, current: nat)
    requires TagsOrdered(pushed) && popped < |pushed| && pushed[popped].tag == current
    requires SliceOf(pushed, popped, g, start, current, true)
    ensures SliceOf(pushed, popped + 1, g + [pushed[popped]], if |g| == 0 then popped else start, current, true)
  {
    if |g| == 0 || start + |g| == popped {
      var first := if |g| == 0 then popped else start;
      assert pushed[first..popped + 1] == g + [pushed[popped]];
    }
  }

  lemma AddingKeepsConsumer(ch: Channel, w: World, w': World, c: Consumer)
    requires OnlyAdds(w, w') && w.popped <= |w.pushed| && ConsumerInv(ch, w, c)
    ensures ConsumerInv(ch, w', c)
  {
    SliceSurvivesPushes(w.pushed, w'.pushed, w.popped, Gathered(c), c.start, c.current, !c.pc.AtUnderflow? && !Draining(c));
    assert Slice(w', c) && Fenced(w', c) && Counts(w', c);
  }

  lemma ValuesAppend(a: seq<Entry>, b: seq<Entry>)
    ensures Raw(Values(a + b)) == Raw(Values(a)) + Raw(Values(b))
  {
  }

  lemma DeliveryTracks(g: Gains, c: Consumer, scratch: seq<Entry>)
    requires FadeTracks(g, c.session, c.fade, c.heard, c.mutedAt)
    ensures
      var input := Raw(Values(scratch));
      FadeTracks(g, c.session + scratch, AfterAll(c.fade, input, g), c.heard + RenderedAll(c.fade, input, g), c.mutedAt)
  {
    var input := Raw(Values(scratch));
    ValuesAppend(c.session, scratch);
    match c.mutedAt
    case None =>
      AfterAllAppends(BeginRecovery(SILENCE), Raw(Values(c.session)), input, g);
    case Some(m) =>
      SilenceMutes(SILENCE, input, g);
      assert (c.session + scratch)[..m] == c.session[..m];
      assert Zeros(|c.session| - m) + Zeros(|scratch|) == Zeros(|c.session + scratch| - m);
  }

  lemma DeliveryKeeps(ch: Channel, m: Machine)
    requires Inv(ch, m) && m.consumer.pc.AtPop? && |m.consumer.pc.scratch| >= m.consumer.pc.n
    ensures Inv(ch, ConsumerNext(ch, m))
  {
    hide FadeTracks, WorldInv;
    var c, c' := m.consumer, ConsumerNext(ch, m).consumer;
    DeliveryTracks(ch.gains, c, c.pc.scratch);
    assert Gathered(c') == Gathered(c);
    assert FadeTracksSession(ch, c');
  }

  lemma PopOneKeeps(ch: Channel, m: Machine)
    requires Inv(ch, m) && m.consumer.pc.AtPop? && |m.consumer.pc.scratch| < m.consumer.pc.n
    requires m.world.HasHead() && m.world.Head().tag == m.consumer.current
    ensures Inv(ch, ConsumerNext(ch, m))
  {
    hide FadeTracks;
    PopKeeps(m.world);
    var w, c := m.world, m.consumer;
    var w', c' := ConsumerNext(ch, m).world, ConsumerNext(ch, m).consumer;
    assert Gathered(c') == Gathered(c) + [w.Head()];
    SliceExtends(w.pushed, w.popped, Gathered(c), c.start, c.current);
    assert |Gathered(c)| == |c.session| + |c.pc.scratch|;
    assert Slice(w', c') && Counts(w', c') && Fenced(w', c');
    assert FadeTracksSession(ch, c');
  }

  lemma SliceShortens(pushed: seq<Entry>, popped: nat, session: seq<Entry>, scratch: seq<Entry>, start: nat, current: nat,
                      popped': nat)
    requires SliceOf(pushed, popped, session + scratch, start, current, true) && popped <= popped' <= |pushed|
    ensures SliceOf(pushed, popped', session, start, current, false)
  {
    var g := session + scratch;
    if |session| > 0 {
      assert pushed[start..start + |session|] == pushed[start..start + |g|][..|session|] == g[..|session|] == session;
      assert forall i :: 0 <= i < |session| ==> session[i] == g[i];
    }
  }

  lemma UnderflowPopKeeps(ch: Channel, m: Machine)
    requires Inv(ch, m) && m.consumer.pc.AtPop? && |m.consumer.pc.scratch| < m.consumer.pc.n
    requires !m.world.HasHead() || m.world.Head().tag != m.consumer.current
    ensures Inv(ch, ConsumerNext(ch, m))
  {
    if m.world.HasHead() {
      PopKeeps(m.world);
    }
    var w, c := m.world, m.consumer;
    var w', c' := ConsumerNext(ch, m).world, ConsumerNext(ch, m).consumer;
    SliceShortens(w.pushed, w.popped, c.session, c.pc.scratch, c.start, c.current, w'.popped);
    assert Gathered(c') == c.session && |Gathered(c)| == |c.session| + |c.pc.scratch|;
    assert Slice(w', c') && FadeTracksSession(ch, c');
  }

  lemma SliceSkips(pushed: seq<Entry>, popped: nat, g: seq<Entry>, start: nat, current: nat)
    requires TagsOrdered(pushed) && popped < |pushed| && pushed[popped].tag != current
    requires SliceOf(pushed, popped, g, start, current, true)
    ensures SliceOf(pushed, popped + 1, g, start, current, true)
  {
    if |g| > 0 {
      assert pushed[start + |g| - 1] == g[|g| - 1];
      assert pushed[start + |g| - 1].tag <= pushed[popped].tag;
    }
  }

  lemma DropStaleKeeps(ch: Channel, w: World, c: Consumer)
    requires WorldInv(w) && ConsumerInv(ch, w, c) && c.pc.AtStale?
    ensures ConsumerInv(ch, w.Pop(), c.(discarded := c.discarded + 1, pc := AtPeek(c.pc.n)))
  {
    var w', c' := w.Pop(), c.(discarded := c.discarded + 1, pc := AtPeek(c.pc.n));
    SliceSkips(w.pushed, w.popped, Gathered(c), c.start, c.current);
    assert Gathered(c') == Gathered(c) == c.session;
    assert Slice(w', c') && FadeTracksSession(ch, c');
  }

  lemma StalePopKeeps(ch: Channel, m: Machine)
    requires Inv(ch, m) && m.consumer.pc.AtStale?
    ensures Inv(ch, ConsumerNext(ch, m))
  {
    PopKeeps(m.world);
    DropStaleKeeps(ch, m.world, m.consumer);
  }

  lemma ReadyKeeps(ch: Channel, w: World, c: Consumer)
    requires SessionInv(ch, w, c) && c.pc.AtSlots?
    ensures SessionInv(ch, w, BecomeReady(c))
  {
    if !c.ready {
      var r := BecomeReady(c);
      assert Gathered(c) == [] && Gathered(r) == [];
      assert Raw(Values([])) == [];
      assert FadeTracks(ch.gains, [], BeginRecovery(SILENCE), [], None);
      assert FadeTracksSession(ch, r);
    }
  }

  /** Moving on without touching a sample: from the startup check to the pops, or back to the caller. */
  lemma MoveOnKeeps(ch: Channel, w: World, c: Consumer, pc: Pc, leading: bool)
    requires SessionInv(ch, w, c) && c.pc.AtSlots?
    requires pc.Idle? || (c.ready && pc.AtPop? && pc.scratch == [])
    ensures SessionInv(ch, w, c.(pc := pc, leading := leading))
  {
    var c' := c.(pc := pc, leading := leading);
    assert Gathered(c') == Gathered(c) == c.session;
    assert FadeTracksSession(ch, c') && Slice(w, c');
  }

  lemma StartupKeeps(ch: Channel, m: Machine)
    requires Inv(ch, m) && m.consumer.pc.AtSlots?
    ensures Inv(ch, ConsumerNext(ch, m))
  {
    var w, c := m.world, m.consumer;
    var n := c.pc.n;
    if !c.ready && w.Occupancy() < Required(ch, n) {
      MoveOnKeeps(ch, w, c, Idle, c.leading);
    } else {
      ReadyKeeps(ch, w, c);
      var r := BecomeReady(c);
      MoveOnKeeps(ch, w, r, if ch.emptyWhileBuffering && r.leading then Idle else AtPop(n, []),
                  r.leading && !ch.emptyWhileBuffering);
      MoveOnKeeps(ch, w, r, AtPop(n, []), r.leading);
    }
  }

  lemma SyncKeeps(ch: Channel, m: Machine)
    requires Inv(ch, m) && (m.consumer.pc.AtSync? || m.consumer.pc.AtPeek? || m.consumer.pc.AtReload?)
    ensures Inv(ch, ConsumerNext(ch, m))
  {
    hide FadeTracks, WorldInv;
    var c, c' := m.consumer, ConsumerNext(ch, m).consumer;
    assert Gathered(c) == c.session && Gathered(c') == c'.session;
  }

  /** Ending a session restores everything, provided the ramp is silent or a newer generation was requested. */
  lemma EndKeeps(ch: Channel, w: World, c: Consumer, fade: Fade)
    requires ConsumerInv(ch, w, c) && c.pc.AtUnderflow?
    ensures ConsumerInv(ch, w.Bump(), c.EndSession(ch).(fade := fade, pc := Idle))
  {
    var c' := c.EndSession(ch).(fade := fade, pc := Idle);
    assert Gathered(c') == [] && Gathered(c) == c.session;
  }

  lemma StarvedKeeps(ch: Channel, m: Machine)
    requires Inv(ch, m) && m.consumer.pc.AtUnderflow?
    ensures Inv(ch, ConsumerNext(ch, m))
  {
    BumpKeeps(m.world);
    EndKeeps(ch, m.world, m.consumer, Starved(ch, m.consumer, m.consumer.pc.n).fade);
  }

  lemma ClearKeeps(ch: Channel, m: Machine)
    requires Inv(ch, m) && m.consumer.pc.AtClear?
    ensures Inv(ch, ConsumerNext(ch, m))
  {
    hide FadeTracks, WorldInv;
    BumpKeeps(m.world);
    assert Gathered(ConsumerNext(ch, m).consumer) == Gathered(m.consumer);
  }

  lemma DrainKeeps(ch: Channel, m: Machine)
    requires Inv(ch, m) && m.consumer.pc.AtDrain?
    ensures Inv(ch, ConsumerNext(ch, m))
  {
    var w, c := m.world, m.consumer;
    var w', c' := ConsumerNext(ch, m).world, ConsumerNext(ch, m).consumer;
    if w.HasHead() {
      PopKeeps(w);
      assert Gathered(c') == Gathered(c);
      assert FadeTracksSession(ch, c');
      assert Slice(w', c');
    } else {
      assert Gathered(c') == [];
      assert !c'.ready && c'.fade == SILENCE;
    }
  }

  lemma ConsumeKeeps(ch: Channel, m: Machine)
    requires Inv(ch, m)
    ensures Inv(ch, ConsumerNext(ch, m))
  {
    var w, c := m.world, m.consumer;
    match c.pc
    case Idle =>
      assert ConsumerNext(ch, m) == m;
    case AtPop(n, scratch) =>
      if |scratch| >= n {
        DeliveryKeeps(ch, m);
      } else if w.HasHead() && w.Head().tag == c.current {
        PopOneKeeps(ch, m);
      } else {
        UnderflowPopKeeps(ch, m);
      }
    case AtStale(_) => StalePopKeeps(ch, m);
    case AtSlots(_) => StartupKeeps(ch, m);
    case AtDrain(_) => DrainKeeps(ch, m);
    case AtUnderflow(_) => StarvedKeeps(ch, m);
    case AtClear => ClearKeeps(ch, m);
    case _ => SyncKeeps(ch, m);
  }

  lemma SilencingTracks(g: Gains, c: Consumer)
    requires FadeTracks(g, c.session, c.fade, c.heard, c.mutedAt) && c.ready
    ensures FadeTracks(g, c.session, SILENCE, c.heard, c.Silenced().mutedAt)
  {
    if c.mutedAt.None? {
      assert c.session[..|c.session|] == c.session;
      assert c.heard + Zeros(0) == c.heard;
    }
  }

  lemma SilencedKeeps(ch: Channel, m: Machine)
    requires Inv(ch, m) && m.consumer.pc.Idle?
    ensures Inv(ch, Machine(m.world, m.consumer.Silenced()))
  {
    hide FadeTracks, WorldInv;
    var c, c' := m.consumer, m.consumer.Silenced();
    assert Gathered(c') == Gathered(c);
    if c.ready {
      SilencingTracks(ch.gains, c);
    }
    assert FadeTracksSession(ch, c');
  }

  lemma CommandTakenKeeps(ch: Channel, w: World, c: Consumer, pc: Pc)
    requires ConsumerInv(ch, w, c) && c.pc.Idle?
    requires pc == AtClear || pc == AtDrain(false)
    ensures ConsumerInv(ch, w.(command := NoCommand), c.(barrier := w.mark, pc := pc))
  {
    var w', c' := w.(command := NoCommand), c.(barrier := w.mark, pc := pc);
    assert Gathered(c') == Gathered(c);
    assert FadeTracksSession(ch, c') && Slice(w', c') && Counts(w', c') && Fenced(w', c');
  }

  lemma CommandCheckKeeps(ch: Channel, m: Machine)
    requires Inv(ch, m) && m.consumer.pc.Idle?
    ensures Inv(ch, Next(ch, m, CallCommandCheck))
  {
    NextKeepsWorld(ch, m, CallCommandCheck);
    var w, c := m.world, m.consumer;
    match w.command
    case NoCommand => assert w.(command := NoCommand) == w;
    case Discard => CommandTakenKeeps(ch, w, c, AtDrain(false));
    case Clear => CommandTakenKeeps(ch, w, c, AtClear);
  }

  lemma NextKeeps(ch: Channel, m: Machine, step: Step)
    requires Inv(ch, m)
    ensures Inv(ch, Next(ch, m, step))
  {
    match step
    case Env(e) =>
      EnvKeeps(m.world, e);
      EnvOnlyAdds(m.world, e);
      AddingKeepsConsumer(ch, m.world, EnvNext(m.world, e), m.consumer);
    case Consume => ConsumeKeeps(ch, m);
    case CallCommandCheck =>
      if m.consumer.pc.Idle? {
        CommandCheckKeeps(ch, m);
      }
    case CallReject =>
      if m.consumer.pc.Idle? {
        SilencedKeeps(ch, m);
      }
    case CallFill(n) =>
      if m.consumer.pc.Idle? {
        SilencedKeeps(ch, m);
        var c' := m.consumer.(pc := AtSync(n));
        assert Gathered(c') == Gathered(m.consumer);
      }
  }

  lemma {:induction false} RunKeeps(ch: Channel, m: Machine, trace: seq<Step>)
    requires Inv(ch, m)
    ensures Inv(ch, Run(ch, m, trace))
  {
    if trace != [] {
      var n := |trace| - 1;
      RunKeeps(ch, m, trace[..n]);
      NextKeeps(ch, Run(ch, m, trace[..n]), trace[n]);
    }
  }

  lemma ReachKeeps(ch: Channel, trace: seq<Step>)
    ensures Inv(ch, Reach(ch, trace))
  {
    RunKeeps(ch, Start(ch), trace);
  }
}
