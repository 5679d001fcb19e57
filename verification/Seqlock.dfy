/**
 * The frame-boundary parameters: any number of control threads write behind an epoch counter, the capture callback
 * reads without waiting. One atomic load or store per step, sequentially consistent; a step its thread cannot take
 * leaves the machine unchanged.
 */
module Seqlock {
  import opened Prelude
  import opened Samples
  import opened Strength

  datatype Parameters = Parameters(strength: real, enabled: bool, failOpen: bool)

  const DEFAULTS := Parameters(1.0, true, false)

  datatype Update = SetStrength(strength: Sample) | SetEnabled(enabled: bool) | SetFailMode(failOpen: bool)

  function Stored(p: Parameters, u: Update): Parameters {
    match u
    case SetStrength(s) => p.(strength := FiniteUnit(s))
    case SetEnabled(e) => p.(enabled := e)
    case SetFailMode(m) => p.(failOpen := m)
  }

  /** The wet strength the ramp should head for. */
  function Effective(p: Parameters): real {
    if p.enabled then p.strength else 0.0
  }

  /** A control thread inside `update`: the epoch is odd for it, before or after its store. */
  datatype Writer = Writer(update: Update, done: bool)

  datatype Reader =
    | Resting
    | HasFirst(first: nat)
    | HasStrength(first: nat, strength: real)
    | HasEnabled(first: nat, strength: real, enabled: bool)
    | HasAll(first: nat, read: Parameters)

  /** `completed` is the history of the parameters after each completed update, starting with the defaults. */
  datatype State = State(
    epoch: nat,
    shared: Parameters,
    writers: map<nat, Writer>,
    completed: seq<Parameters>,
    reader: Reader,
    adoptedEpoch: nat,
    adopted: Parameters,
    ramp: Ramp)

  datatype Step =
    | Enter(id: nat, update: Update)
    | Store(id: nat)
    | Leave(id: nat)
    | Load
    | Tick

  /** `fetch_add(1)` on a 64-bit counter. */
  function Bumped(epoch: nat): nat {
    if epoch >= U64_MAX then 0 else epoch + 1
  }

  function Adopt(s: State, epoch: nat, p: Parameters): State {
    s.(reader := Resting, adoptedEpoch := epoch, adopted := p,
       ramp := if Effective(p) == s.ramp.target then s.ramp else Retargeted(s.ramp, Finite(Effective(p)), 0))
  }

  function ReaderNext(s: State): State {
    match s.reader
    case Resting => if s.epoch == s.adoptedEpoch || s.epoch % 2 != 0 then s else s.(reader := HasFirst(s.epoch))
    case HasFirst(first) => s.(reader := HasStrength(first, s.shared.strength))
    case HasStrength(first, strength) => s.(reader := HasEnabled(first, strength, s.shared.enabled))
    case HasEnabled(first, strength, enabled) =>
      s.(reader := HasAll(first, Parameters(strength, enabled, s.shared.failOpen)))
    case HasAll(first, read) => if s.epoch == first then Adopt(s, first, read) else s.(reader := Resting)
  }

  function Next(s: State, step: Step): State {
    match step
    case Enter(id, u) =>
      if id in s.writers then s else s.(epoch := Bumped(s.epoch), writers := s.writers[id := Writer(u, false)])
    case Store(id) =>
      if id in s.writers && !s.writers[id].done
      then s.(shared := Stored(s.shared, s.writers[id].update), writers := s.writers[id := s.writers[id].(done := true)])
      else s
    case Leave(id) =>
      if id in s.writers && s.writers[id].done
      then s.(epoch := Bumped(s.epoch), writers := s.writers - {id}, completed := s.completed + [s.shared])
      else s
    case Load => ReaderNext(s)
    case Tick => s.(ramp := Advanced(s.ramp))
  }

  const START := State(0, DEFAULTS, map[], [DEFAULTS], Resting, 0, DEFAULTS, Ramp(1.0, 1.0, 0.0, 0))

  function Run(trace: seq<Step>): State {
    if trace == [] then START else Next(Run(trace[..|trace| - 1]), trace[|trace| - 1])
  }

  function Latest(s: State): Parameters
    requires s.completed != []
  {
    s.completed[|s.completed| - 1]
  }

  /** How often the epoch was incremented: twice per completed update, once per update in progress. */
  function Bumps(s: State): int {
    2 * (|s.completed| - 1) + |s.writers.Keys|
  }

  /** Before the counter wraps. */
  predicate Unwrapped(s: State) {
    Bumps(s) <= U64_MAX
  }

  predicate Unit(strength: real) {
    0.0 <= strength <= 1.0
  }

  ghost predicate WriterInv(s: State) {
    && s.completed != [] && s.epoch == Bumps(s)
    && (s.writers == map[] ==> s.shared == Latest(s))
    && Unit(s.shared.strength)
  }

  /** What a read in progress has seen are the parameters, as long as its first epoch stands and nobody is updating. */
  ghost predicate ReaderInv(s: State) {
    var settled := s.writers == map[];
    match s.reader
    case Resting => true
    case HasFirst(first) => SeenAt(s, first)
    case HasStrength(first, st) => SeenAt(s, first) && Unit(st) && (s.epoch == first && settled ==> st == s.shared.strength)
    case HasEnabled(first, st, e) =>
      SeenAt(s, first) && Unit(st) && (s.epoch == first && settled ==> st == s.shared.strength && e == s.shared.enabled)
    case HasAll(first, p) => SeenAt(s, first) && Unit(p.strength) && (s.epoch == first && settled ==> p == s.shared)
  }

  predicate SeenAt(s: State, first: nat) {
    first % 2 == 0 && s.adoptedEpoch <= first <= s.epoch
  }

  ghost predicate AdoptedInv(s: State) {
    && s.adoptedEpoch % 2 == 0 && s.adoptedEpoch <= s.epoch
    && s.ramp.target == Effective(s.adopted) && OnTrack(s.ramp)
    && (s.epoch == s.adoptedEpoch && s.writers == map[] ==> s.adopted == s.shared)
  }

  ghost predicate Inv(s: State) {
    WriterInv(s) && ReaderInv(s) && AdoptedInv(s)
  }

  lemma EnterKeeps(s: State, id: nat, u: Update)
    requires Inv(s) && id !in s.writers && Unwrapped(Next(s, Enter(id, u)))
    ensures Inv(Next(s, Enter(id, u)))
  {
    var s' := Next(s, Enter(id, u));
    assert s'.writers.Keys == s.writers.Keys + {id};
    assert id in s'.writers;
  }

  lemma StoreKeeps(s: State, id: nat)
    requires Inv(s)
    ensures Inv(Next(s, Store(id)))
  {
    if id in s.writers && !s.writers[id].done {
      assert Next(s, Store(id)).writers.Keys == s.writers.Keys;
      assert id in Next(s, Store(id)).writers;
    }
  }

  lemma LeaveKeeps(s: State, id: nat)
    requires Inv(s) && Unwrapped(Next(s, Leave(id)))
    ensures Inv(Next(s, Leave(id)))
  {
    if id in s.writers && s.writers[id].done {
      assert Next(s, Leave(id)).writers.Keys == s.writers.Keys - {id};
    }
  }

  lemma LoadKeeps(s: State)
    requires Inv(s)
    ensures Inv(ReaderNext(s))
    ensures s.adoptedEpoch <= ReaderNext(s).adoptedEpoch
  {
    if Adopts(s) {
      RetargetedOnTrack(s.ramp, Finite(Effective(s.reader.read)), 0);
    }
  }

  lemma NextKeeps(s: State, step: Step)
    requires Inv(s) && Unwrapped(Next(s, step))
    ensures Inv(Next(s, step))
    ensures s.adoptedEpoch <= Next(s, step).adoptedEpoch
  {
    match step
    case Enter(id, u) =>
      if id !in s.writers {
        EnterKeeps(s, id, u);
      }
    case Store(id) => StoreKeeps(s, id);
    case Leave(id) => LeaveKeeps(s, id);
    case Load => LoadKeeps(s);
    case Tick => AdvancedOnTrack(s.ramp);
  }

  lemma BumpsGrow(s: State, step: Step)
    ensures Bumps(s) <= Bumps(Next(s, step))
    ensures s.completed <= Next(s, step).completed
  {
    match step
    case Enter(id, u) =>
      if id !in s.writers {
        assert Next(s, step).writers.Keys == s.writers.Keys + {id};
      }
    case Store(id) =>
      if id in s.writers {
        assert s.writers[id := s.writers[id].(done := true)].Keys == s.writers.Keys;
      }
    case Leave(id) =>
      if id in s.writers {
        assert (s.writers - {id}).Keys == s.writers.Keys - {id};
      }
    case _ =>
  }

  /** Every run keeps the invariant until the counter wraps, however updates overlap. */
  lemma {:induction false} RunKeeps(trace: seq<Step>)
    requires Unwrapped(Run(trace))
    ensures Inv(Run(trace))
  {
    if trace == [] {
      assert Run(trace) == START;
    } else {
      var n := |trace| - 1;
      BumpsGrow(Run(trace[..n]), trace[n]);
      RunKeeps(trace[..n]);
      NextKeeps(Run(trace[..n]), trace[n]);
    }
  }

  lemma EnterBumps(s: State, id: nat, u: Update)
    requires s.completed != [] && id !in s.writers
    ensures Bumps(Next(s, Enter(id, u))) == Bumps(s) + 1
  {
    assert Next(s, Enter(id, u)).writers.Keys == s.writers.Keys + {id};
  }

  lemma StoreBumpsNothing(s: State, id: nat)
    requires s.completed != []
    ensures Bumps(Next(s, Store(id))) == Bumps(s)
  {
    hide Stored;
    if id in s.writers {
      assert s.writers[id := s.writers[id].(done := true)].Keys == s.writers.Keys;
    }
  }

  lemma LeaveBumps(s: State, id: nat)
    requires s.completed != [] && id in s.writers && s.writers[id].done
    ensures Bumps(Next(s, Leave(id))) == Bumps(s) + 1
  {
    assert (s.writers - {id}).Keys == s.writers.Keys - {id};
  }

  lemma ReadsBumpNothing(s: State)
    ensures ReaderNext(s).epoch == s.epoch && ReaderNext(s).writers == s.writers && ReaderNext(s).completed == s.completed
  {
    hide Retargeted, Effective;
  }

  /** A step bumps the epoch exactly when it counts as a bump. */
  lemma StepBumps(s: State, step: Step)
    requires s.completed != []
    ensures
      var next := Next(s, step);
      && next.completed != []
      && ((next.epoch == s.epoch && Bumps(next) == Bumps(s)) || (next.epoch == Bumped(s.epoch) && Bumps(next) == Bumps(s) + 1))
  {
    hide Bumped, Stored, ReaderNext, Advanced, Bumps;
    match step
    case Enter(id, u) =>
      if id !in s.writers {
        EnterBumps(s, id, u);
      }
    case Store(id) => StoreBumpsNothing(s, id);
    case Leave(id) =>
      if id in s.writers && s.writers[id].done {
        LeaveBumps(s, id);
      }
    case Load =>
      ReadsBumpNothing(s);
      SameBumps(s, ReaderNext(s));
    case Tick => SameBumps(s, Next(s, Step.Tick));
  }

  lemma SameBumps(s: State, s': State)
    requires s'.writers == s.writers && s'.completed == s.completed
    ensures Bumps(s') == Bumps(s)
  {
  }

  const WRAP: nat := U64_MAX + 1

  lemma BumpedIsModular(epoch: nat, bumps: nat)
    requires epoch == bumps % WRAP
    ensures Bumped(epoch) == (bumps + 1) % WRAP
  {
    var q := bumps / WRAP;
    assert bumps + 1 == q * WRAP + (epoch + 1);
    if epoch == U64_MAX {
      assert bumps + 1 == (q + 1) * WRAP;
    }
  }

  lemma EpochStep(s: State, step: Step)
    requires s.completed != [] && s.epoch == Bumps(s) % WRAP
    ensures Next(s, step).completed != [] && Next(s, step).epoch == Bumps(Next(s, step)) % WRAP
  {
    hide Next, Bumped;
    StepBumps(s, step);
    BumpedIsModular(s.epoch, Bumps(s));
  }

  lemma {:induction false} EpochIsModular(trace: seq<Step>)
    ensures Run(trace).completed != [] && Run(trace).epoch == Bumps(Run(trace)) % WRAP
  {
    if trace != [] {
      hide Next, Bumps;
      EpochIsModular(trace[..|trace| - 1]);
      EpochStep(Run(trace[..|trace| - 1]), trace[|trace| - 1]);
    }
  }

  /** The epoch counts the bumps modulo 2^64, also beyond the wrap, and so is even whenever nobody updates. */
  lemma EpochCountsBumps(trace: seq<Step>)
    ensures
      var s := Run(trace);
      && s.completed != [] && s.epoch == Bumps(s) % 0x1_0000_0000_0000_0000
      && (s.writers == map[] ==> s.epoch % 2 == 0)
  {
    hide Run;
    EpochIsModular(trace);
    assert Run(trace).writers == map[] ==> Bumps(Run(trace)) == 2 * (|Run(trace).completed| - 1);
  }

  /** The next load completes a read whose epoch still stands. */
  predicate Adopts(s: State) {
    s.reader.HasAll? && s.epoch == s.reader.first
  }

  /**
   * An adoption with no update in progress takes over exactly the latest completed parameters, whatever overlaps there
   * were before; any other result needs two updates in progress at the adopting read. Either way the ramp heads for
   * the strength that was adopted, or for the dry signal if suppression was switched off.
   */
  lemma AdoptionIsLatestUnlessTwoOverlap(trace: seq<Step>)
    requires Unwrapped(Run(trace)) && Adopts(Run(trace))
    ensures
      var s := Run(trace);
      var next := ReaderNext(s);
      && s.completed != [] && next.ramp.target == (if next.adopted.enabled then next.adopted.strength else 0.0)
      && (s.writers == map[] ==> next.adopted == Latest(s) && next.adoptedEpoch == 2 * (|s.completed| - 1))
      && (next.adopted != Latest(s) ==> |s.writers.Keys| >= 2)
  {
    RunKeeps(trace);
    hide Run, Retargeted;
    AdoptingStep(Run(trace));
  }

  lemma AdoptingStep(s: State)
    requires Inv(s) && Adopts(s)
    ensures
      var next := ReaderNext(s);
      && s.completed != [] && next.ramp.target == (if next.adopted.enabled then next.adopted.strength else 0.0)
      && (s.writers == map[] ==> next.adopted == Latest(s) && next.adoptedEpoch == 2 * (|s.completed| - 1))
      && (next.adopted != Latest(s) ==> |s.writers.Keys| >= 2)
  {
    LoadKeeps(s);
    assert |s.writers.Keys| == 0 ==> s.writers == map[];
  }

  /** No update was in progress at any adopting read. */
  predicate Settled(trace: seq<Step>) {
    trace == [] ||
    var n := |trace| - 1;
    Settled(trace[..n]) && (trace[n].Load? && Adopts(Run(trace[..n])) ==> Run(trace[..n]).writers == map[])
  }

  /** What was adopted are the parameters after the update that its epoch belongs to. */
  ghost predicate Untorn(s: State) {
    s.adoptedEpoch % 2 == 0 && s.adoptedEpoch / 2 < |s.completed| && s.adopted == s.completed[s.adoptedEpoch / 2]
  }

  lemma StepStaysUntorn(s: State, step: Step)
    requires Inv(s) && Untorn(s) && (step.Load? && Adopts(s) ==> s.writers == map[])
    ensures Untorn(Next(s, step))
  {
    BumpsGrow(s, step);
    if step.Load? && Adopts(s) {
      AdoptingStep(s);
    } else {
      hide Inv, Bumps, Retargeted, Advanced, Stored, Bumped;
      assert Next(s, step).adopted == s.adopted && Next(s, step).adoptedEpoch == s.adoptedEpoch;
    }
  }

  lemma TargetIsAdopted(s: State)
    requires Inv(s)
    ensures s.ramp.target == if s.adopted.enabled then s.adopted.strength else 0.0
  {
  }

  /** With settled adoptions, what is adopted are always exactly the parameters after some completed update. */
  lemma {:induction false} AdoptedIsNeverTorn(trace: seq<Step>)
    requires Settled(trace) && Unwrapped(Run(trace))
    ensures
      var s := Run(trace);
      && s.adoptedEpoch % 2 == 0 && s.adoptedEpoch / 2 < |s.completed|
      && s.adopted == s.completed[s.adoptedEpoch / 2]
      && s.ramp.target == if s.adopted.enabled then s.adopted.strength else 0.0
  {
    hide Inv, Next, Adopts;
    RunKeeps(trace);
    TargetIsAdopted(Run(trace));
    if trace != [] {
      var n := |trace| - 1;
      BumpsGrow(Run(trace[..n]), trace[n]);
      AdoptedIsNeverTorn(trace[..n]);
      RunKeeps(trace[..n]);
      StepStaysUntorn(Run(trace[..n]), trace[n]);
    }
  }

  /** No update begins while another is in progress. */
  predicate Exclusive(trace: seq<Step>) {
    trace == [] ||
    var n := |trace| - 1;
    Exclusive(trace[..n]) && (trace[n].Enter? ==> Run(trace[..n]).writers == map[])
  }

  /** A single writer at a time settles every adoption. */
  lemma {:induction false} ExclusiveIsSettled(trace: seq<Step>)
    requires Exclusive(trace) && Unwrapped(Run(trace))
    ensures Settled(trace) && |Run(trace).writers.Keys| <= 1
  {
    hide Inv, Next;
    if trace != [] {
      var n := |trace| - 1;
      var s := Run(trace[..n]);
      BumpsGrow(s, trace[n]);
      ExclusiveIsSettled(trace[..n]);
      OneWriterAtMost(s, trace[n]);
      if Adopts(s) {
        RunKeeps(trace[..n]);
        LoneReadIsSettled(s);
      }
    }
  }

  lemma LoneReadIsSettled(s: State)
    requires Inv(s) && Adopts(s) && |s.writers.Keys| <= 1
    ensures s.writers == map[]
  {
    assert |s.writers.Keys| == 0;
  }

  lemma OneWriterAtMost(s: State, step: Step)
    requires |s.writers.Keys| <= 1 && (step.Enter? ==> s.writers == map[])
    ensures |Next(s, step).writers.Keys| <= 1
  {
    match step
    case Enter(id, u) => assert Next(s, step).writers.Keys == {id};
    case Store(id) =>
      if id in s.writers {
        assert s.writers[id := s.writers[id].(done := true)].Keys == s.writers.Keys;
      }
    case Leave(id) =>
      if id in s.writers {
        assert (s.writers - {id}).Keys == s.writers.Keys - {id};
      }
    case _ =>
  }

  /** Adopted epochs never go back, in any run. */
  lemma {:induction false} AdoptionIsMonotone(trace: seq<Step>, k: nat)
    requires k <= |trace| && Unwrapped(Run(trace))
    ensures Run(trace[..k]).adoptedEpoch <= Run(trace).adoptedEpoch
  {
    if k == |trace| {
      assert trace[..k] == trace;
    } else {
      var n := |trace| - 1;
      BumpsGrow(Run(trace[..n]), trace[n]);
      RunKeeps(trace[..n]);
      NextKeeps(Run(trace[..n]), trace[n]);
      AdoptionIsMonotone(trace[..n], k);
      assert trace[..n][..k] == trace[..k];
    }
  }

  /** One undisturbed read: an epoch load, three parameter loads, and an epoch load. */
  function ReadOnce(s: State): State {
    ReaderNext(ReaderNext(ReaderNext(ReaderNext(ReaderNext(s)))))
  }

  /** A read that nobody disturbs adopts the latest completed update, whatever happened before. */
  lemma QuietReadAdoptsTheLatest(trace: seq<Step>)
    requires Unwrapped(Run(trace))
    requires Run(trace).writers == map[] && Run(trace).reader.Resting?
    ensures
      var s := Run(trace);
      s.completed != [] && ReadOnce(s).adopted == Latest(s)
  {
    hide *;
    RunKeeps(trace);
    QuietRead(Run(trace));
  }

  lemma QuietRead(s: State)
    requires Inv(s) && s.writers == map[] && s.reader.Resting?
    ensures s.completed != [] && ReadOnce(s).adopted == Latest(s)
    ensures ReadOnce(s).ramp.target == if Latest(s).enabled then Latest(s).strength else 0.0
  {
    hide ReaderNext;
    if s.epoch == s.adoptedEpoch {
      NothingToRead(s);
    } else {
      FiveLoads(s);
    }
  }

  lemma NothingToRead(s: State)
    requires s.reader.Resting? && s.epoch == s.adoptedEpoch
    ensures ReaderNext(s) == s
  {
  }

  lemma AdoptIgnoresTheReader(s: State, read: State)
    requires read == s.(reader := read.reader)
    ensures Adopt(read, s.epoch, s.shared) == Adopt(s, s.epoch, s.shared)
  {
  }

  /** The first epoch load, the three parameter loads, and the second epoch load. */
  lemma FiveLoads(s: State)
    requires s.reader.Resting? && s.epoch != s.adoptedEpoch && s.epoch % 2 == 0
    ensures ReadOnce(s) == Adopt(s, s.epoch, s.shared)
  {
    hide Adopt;
    assert ReaderNext(s) == s.(reader := HasFirst(s.epoch));
    var read := s.(reader := HasAll(s.epoch, s.shared));
    assert ReaderNext(ReaderNext(ReaderNext(s.(reader := HasFirst(s.epoch))))) == read;
    assert ReaderNext(read) == Adopt(read, s.epoch, s.shared);
    AdoptIgnoresTheReader(s, read);
  }

  /** Step `k` of the run is the store of update `u`. */
  predicate StoresAt(trace: seq<Step>, k: nat, u: Update) {
    && k < |trace| && trace[k].Store?
    && var writers := Run(trace[..k]).writers;
       trace[k].id in writers && !writers[trace[k].id].done && writers[trace[k].id].update == u
  }

  /** The two updates are about the same parameter. */
  predicate SameParameter(u: Update, v: Update) {
    (u.SetStrength? && v.SetStrength?) || (u.SetEnabled? && v.SetEnabled?) || (u.SetFailMode? && v.SetFailMode?)
  }

  /** Nothing is stored after step `k` for the parameter of `u`. */
  ghost predicate LastStoreOf(trace: seq<Step>, k: nat, u: Update) {
    StoresAt(trace, k, u) && forall j: nat, v: Update :: k < j && StoresAt(trace, j, v) ==> !SameParameter(u, v)
  }

  /** What the parameter of `u` was set to. */
  predicate Holds(p: Parameters, u: Update) {
    match u
    case SetEnabled(enabled) => p.enabled == enabled
    case SetFailMode(failOpen) => p.failOpen == failOpen
    case SetStrength(Finite(x)) => if 0.0 <= x <= 1.0 then p.strength == x else p.strength == if x < 0.0 then 0.0 else 1.0
    case SetStrength(_) => p.strength == 0.0
  }

  lemma StoreHolds(s: State, step: Step, u: Update)
    ensures
      var stored := step.Store? && step.id in s.writers && !s.writers[step.id].done;
      && (stored && s.writers[step.id].update == u ==> Holds(Next(s, step).shared, u))
      && ((stored ==> !SameParameter(u, s.writers[step.id].update)) && Holds(s.shared, u) ==> Holds(Next(s, step).shared, u))
  {
    hide Bumped, Retargeted, Advanced;
  }

  /** Each parameter is what the last store for it says, however the updates interleave. */
  lemma {:induction false} LastStoreDecides(trace: seq<Step>, k: nat, u: Update)
    requires LastStoreOf(trace, k, u)
    ensures Holds(Run(trace).shared, u)
  {
    hide Next, Holds, SameParameter;
    var n := |trace| - 1;
    assert Run(trace) == Next(Run(trace[..n]), trace[n]);
    StoreHolds(Run(trace[..n]), trace[n], u);
    if k < n {
      assert trace[..n][..k] == trace[..k];
      forall j: nat, v: Update | k < j && StoresAt(trace[..n], j, v)
        ensures !SameParameter(u, v)
      {
        assert trace[..n][..j] == trace[..j];
        assert StoresAt(trace, j, v);
      }
      LastStoreDecides(trace[..n], k, u);
      var writers := Run(trace[..n]).writers;
      if trace[n].Store? && trace[n].id in writers && !writers[trace[n].id].done {
        assert StoresAt(trace, n, writers[trace[n].id].update);
      }
    }
  }

  /**
   * Switching suppression is heard: once the last store for the switch was `enabled` and no update is in progress, the
   * next undisturbed read heads for the dry signal if it was off, and for the strength that was stored last if on.
   */
  lemma SwitchIsHeard(trace: seq<Step>, k: nat, enabled: bool)
    requires Unwrapped(Run(trace)) && LastStoreOf(trace, k, SetEnabled(enabled))
    requires Run(trace).writers == map[] && Run(trace).reader.Resting?
    ensures ReadOnce(Run(trace)).ramp.target == if enabled then Run(trace).shared.strength else 0.0
  {
    hide *;
    RunKeeps(trace);
    QuietRead(Run(trace));
    LastStoreDecides(trace, k, SetEnabled(enabled));
    LatestIsShared(Run(trace));
    HoldsEnabled(Run(trace).shared, enabled);
  }

  lemma HoldsEnabled(p: Parameters, enabled: bool)
    requires Holds(p, SetEnabled(enabled))
    ensures p.enabled == enabled
  {
  }

  lemma LatestIsShared(s: State)
    requires Inv(s) && s.writers == map[]
    ensures s.completed != [] && Latest(s) == s.shared
  {
  }

  const OVERLAP := [Enter(0, SetStrength(Finite(0.25))), Enter(1, SetEnabled(false)), Store(0), Load, Load, Load, Load, Load]

  lemma HalfDone()
    ensures Run(OVERLAP[..1]).writers != map[]
    ensures
      var s := Run(OVERLAP[..3]);
      s == START.(epoch := 2, shared := Parameters(0.25, true, false), writers := s.writers) && s.writers.Keys == {0, 1}
  {
    assert OVERLAP[..0] == [];
    Extend(OVERLAP, 0);
    assert 0 in Run(OVERLAP[..1]).writers;
    Extend(OVERLAP, 1);
    assert Run(OVERLAP[..2]) == START.(epoch := 2, writers := Run(OVERLAP[..2]).writers);
    assert Run(OVERLAP[..2]).writers[0] == Writer(SetStrength(Finite(0.25)), false);
    Extend(OVERLAP, 2);
  }

  lemma ReadHalfDone()
    ensures Run(OVERLAP[..7]) == Run(OVERLAP[..3]).(reader := HasAll(2, Parameters(0.25, true, false)))
  {
    hide Run, Inv;
    HalfDone();
    Extend(OVERLAP, 3);
    assert Run(OVERLAP[..4]) == Run(OVERLAP[..3]).(reader := HasFirst(2));
    Extend(OVERLAP, 4);
    Extend(OVERLAP, 5);
    Extend(OVERLAP, 6);
  }

  /** Settling is needed: two overlapping updates make the epoch even, and a half-done state is adopted. */
  lemma OverlappingUpdatesTear()
    ensures !Settled(OVERLAP) && !Exclusive(OVERLAP)
    ensures Run(OVERLAP).completed == [DEFAULTS] && Run(OVERLAP).adopted == Parameters(0.25, true, false)
    ensures Run(OVERLAP).adopted !in Run(OVERLAP).completed
  {
    HalfDone();
    ReadHalfDone();
    Extend(OVERLAP, 7);
    assert OVERLAP[..8] == OVERLAP;
    assert |Run(OVERLAP).writers.Keys| == |{0, 1}| == 2;
    if Exclusive(OVERLAP) {
      ExclusiveIsSettled(OVERLAP);
    }
  }

  lemma Extend(trace: seq<Step>, k: nat)
    requires k < |trace|
    ensures Run(trace[..k + 1]) == Next(Run(trace[..k]), trace[k])
  {
    assert trace[..k + 1][..k] == trace[..k];
  }
}
