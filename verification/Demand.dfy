/** Consumer demand on the virtual source, and the idle clock that delays its end. */
module Demand {
  import opened Prelude

  const CONSUMER_IDLE_DEBOUNCE: nat := 500

  datatype StreamState = Unconnected | Connecting | Paused | Streaming | Broken

  datatype ConsumerDemand = Idle | Active

  datatype DemandTransition = Activate | Deactivate

  /** `idleSince` is the running idle clock, `published` the producer's gate. */
  datatype Control = Control(state: StreamState, demand: ConsumerDemand, idleSince: Option<nat>, published: bool)

  const INITIAL := Control(Unconnected, Idle, None, false)

  function Started(idleSince: Option<nat>, now: nat): Option<nat> {
    if idleSince.Some? then idleSince else Some(now)
  }

  function Changed(c: Control, state: StreamState, now: nat): Control {
    c.(state := state, published := state.Streaming?,
       idleSince := match state
         case Streaming => None
         case Paused => if c.demand.Active? then Started(c.idleSince, now) else c.idleSince
         case Broken => Started(c.idleSince, now)
         case Unconnected => Started(c.idleSince, now)
         case Connecting => c.idleSince)
  }

  datatype Resolution = Resolution(control: Control, transition: Option<DemandTransition>)

  function Resolved(c: Control, now: nat): Resolution {
    if c.state.Streaming? && c.demand.Idle? then Resolution(c.(demand := Active, idleSince := None), Some(Activate))
    else if c.demand.Active? && !c.state.Streaming? && c.idleSince.Some?
            && SaturatingSub(now, c.idleSince.value) >= CONSUMER_IDLE_DEBOUNCE then
      Resolution(c.(demand := Idle, idleSince := None), Some(Deactivate))
    else Resolution(c, None)
  }

  class ControlState {
    var state: StreamState
    var demand: ConsumerDemand
    var idleSince: Option<nat>
    var published: bool

    ghost function Value(): Control
      reads this
    {
      Control(state, demand, idleSince, published)
    }

    constructor ()
      ensures Value() == INITIAL
    {
      state, demand, idleSince, published := Unconnected, Idle, None, false;
    }

    method StateChanged(next: StreamState, now: nat)
      modifies this
      ensures Value() == Changed(old(Value()), next, now)
    {
      published := next == Streaming;
      state := next;
      match next {
        case Streaming => idleSince := None;
        case Paused =>
          if demand == Active && idleSince.None? {
            idleSince := Some(now);
          }
        case Connecting =>
        case _ =>
          if idleSince.None? {
            idleSince := Some(now);
          }
      }
    }

    method ResolveTransition(now: nat) returns (transition: Option<DemandTransition>)
      modifies this
      ensures Resolution(Value(), transition) == Resolved(old(Value()), now)
    {
      if state == Streaming && demand == Idle {
        demand := Active;
        idleSince := None;
        return Some(Activate);
      }
      if demand == Active && state != Streaming && idleSince.Some? {
        if SaturatingSub(now, idleSince.value) >= CONSUMER_IDLE_DEBOUNCE {
          demand := Idle;
          idleSince := None;
          return Some(Deactivate);
        }
      }
      transition := None;
    }
  }

  datatype Event = StateEvent(state: StreamState, at: nat) | Poll(at: nat)

  function EventStep(c: Control, e: Event): Resolution {
    match e
    case StateEvent(state, at) => Resolution(Changed(c, state, at), None)
    case Poll(at) => Resolved(c, at)
  }

  function Run(events: seq<Event>): Control {
    if events == [] then INITIAL else EventStep(Run(events[..|events| - 1]), events[|events| - 1]).control
  }

  function Transitions(events: seq<Event>): seq<DemandTransition> {
    if events == [] then []
    else
      var n := |events| - 1;
      var before := Transitions(events[..n]);
      match EventStep(Run(events[..n]), events[n]).transition
      case Some(t) => before + [t]
      case None => before
  }

  /** Activations and deactivations alternate, beginning with an activation, and the demand is the last of them. */
  lemma {:induction false} TransitionsAlternate(events: seq<Event>)
    ensures forall k :: 0 <= k < |Transitions(events)| ==> Transitions(events)[k] == if k % 2 == 0 then Activate else Deactivate
    ensures Run(events).demand.Active? <==> |Transitions(events)| % 2 == 1
    ensures Run(events).published <==> Run(events).state.Streaming?
  {
    if events != [] {
      TransitionsAlternate(events[..|events| - 1]);
    }
  }

  /** A poll is final: the same moment polled again changes nothing, and a streaming source is active. */
  lemma PollSettles(c: Control, now: nat)
    ensures
      var polled := Resolved(c, now).control;
      Resolved(polled, now) == Resolution(polled, None) && (polled.state.Streaming? ==> polled.demand.Active?)
  {
    var polled := Resolved(c, now).control;
    assert polled.demand == c.demand || polled.idleSince.None?;
  }

  /** A state that starts the idle clock of an active source. */
  predicate StartsClock(state: StreamState) {
    state.Paused? || state.Broken? || state.Unconnected?
  }

  /** Event `j` was the last to stream, and the stream has at most reconnected since. */
  ghost predicate StillStreams(events: seq<Event>, j: nat) {
    && j < |events| && events[j].StateEvent? && events[j].state.Streaming?
    && forall k :: j < k < |events| && events[k].StateEvent? ==> events[k].state.Connecting?
  }

  /** Event `i` is where the stream last left Streaming by more than reconnecting. */
  ghost predicate Leaves(events: seq<Event>, i: nat) {
    && i < |events| && events[i].StateEvent? && StartsClock(events[i].state)
    && (exists j: nat :: StillStreams(events[..i], j))
    && forall k :: i <= k < |events| && events[k].StateEvent? ==> !events[k].state.Streaming?
  }

  lemma {:induction false} ClockHistory(events: seq<Event>)
    ensures
      var c := Run(events);
      && (c.state.Streaming? ==> c.idleSince.None?)
      && (c.state.Streaming? || (c.demand.Active? && c.idleSince.None?) ==> exists j: nat :: StillStreams(events, j))
      && (c.demand.Active? && c.idleSince.Some? ==> exists i: nat :: Leaves(events, i) && events[i].at == c.idleSince.value)
  {
    if events != [] {
      var n := |events| - 1;
      var before, c := Run(events[..n]), Run(events);
      ClockHistory(events[..n]);
      if events[n].StateEvent? && events[n].state.Streaming? {
        assert StillStreams(events, n);
      } else if c.state.Streaming? || (c.demand.Active? && c.idleSince.None?) {
        var j: nat :| StillStreams(events[..n], j);
        assert forall k :: 0 <= k < n ==> events[k] == events[..n][k];
        assert StillStreams(events, j);
      } else if c.demand.Active? {
        if before.idleSince.Some? {
          var i: nat :| Leaves(events[..n], i) && events[i].at == before.idleSince.value;
          assert events[..n][..i] == events[..i];
          assert forall k :: 0 <= k < n ==> events[k] == events[..n][k];
          assert Leaves(events, i);
        } else {
          assert Leaves(events, n);
        }
      }
    }
  }

  lemma LeavesOnce(events: seq<Event>, i: nat, j: nat)
    requires Leaves(events, i) && Leaves(events, j)
    ensures i == j
  {
    var before: nat :| StillStreams(events[..i], before);
    var other: nat :| StillStreams(events[..j], other);
    assert forall k :: 0 <= k < i ==> events[..i][k] == events[k];
    assert forall k :: 0 <= k < j ==> events[..j][k] == events[k];
  }

  lemma LeavingEndsStreaming(events: seq<Event>, i: nat)
    requires Leaves(events, i)
    ensures !exists j: nat :: StillStreams(events, j)
  {
  }

  /**
   * A poll pauses the capture of an active source exactly if at least half a second has passed since its stream left
   * Streaming by more than reconnecting. For a source that merely went back to Connecting, no poll ever does.
   */
  lemma ActiveClockRunsIff(events: seq<Event>, now: nat)
    requires Run(events).demand.Active?
    ensures
      Resolved(Run(events), now).transition == Some(Deactivate) <==>
      exists i: nat :: Leaves(events, i) && now >= events[i].at + 500
  {
    ClockHistory(events);
    if i: nat :| Leaves(events, i) && now >= events[i].at + CONSUMER_IDLE_DEBOUNCE {
      LeavingEndsStreaming(events, i);
      var j: nat :| Leaves(events, j) && events[j].at == Run(events).idleSince.value;
      LeavesOnce(events, i, j);
    }
  }

  /** The idle clock was started by event `i`, and no consumer has streamed since. */
  ghost predicate QuietSince(events: seq<Event>, i: nat, since: nat) {
    && i < |events| && events[i].StateEvent? && events[i].at == since && !events[i].state.Streaming?
    && forall k :: i <= k < |events| && events[k].StateEvent? ==> !events[k].state.Streaming?
  }

  /** Capture pauses only after half a second in which no consumer streamed. */
  lemma DeactivationWasQuiet(events: seq<Event>, now: nat)
    requires Resolved(Run(events), now).transition == Some(Deactivate)
    ensures exists i: nat, since: nat :: QuietSince(events, i, since) && now >= since + CONSUMER_IDLE_DEBOUNCE
  {
    ActiveClockRunsIff(events, now);
    var i: nat :| Leaves(events, i) && now >= events[i].at + CONSUMER_IDLE_DEBOUNCE;
    assert QuietSince(events, i, events[i].at);
  }

  /** Such a source exists: activated once, it stays active through any wait for a consumer to reconnect. */
  lemma ReconnectingNeverPauses(now: nat)
    ensures
      var c := Run([StateEvent(Streaming, 0), Poll(0), StateEvent(Connecting, 1)]);
      c.demand.Active? && !c.published && Resolved(c, now) == Resolution(c, None)
  {
    var events := [StateEvent(Streaming, 0), Poll(0), StateEvent(Connecting, 1)];
    assert events[..2] == [StateEvent(Streaming, 0), Poll(0)] && events[..2][..1] == [StateEvent(Streaming, 0)];
    assert Run(events[..2][..1]) == Changed(Run([]), Streaming, 0);
    assert Run(events[..2]) == Resolved(Run(events[..2][..1]), 0).control;
  }
}
