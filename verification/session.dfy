/**
 The whole game as one sequential stream of events: key releases handled by
 the key handler and rendered frames handled by the traversal, in any
 interleaving (the page runs both on one thread, each to completion).
 */
module Session {
  import opened Grid
  import opened State
  import opened Keys
  import opened Traversal

  datatype Event = KeyUp(key: Key) | Frame(arrived: bool)

  function Apply(s: GameState, e: Event): FrameOutcome {
    match e
    case KeyUp(k) => Rendered(Step(s, k))
    case Frame(arrived) => Advance(s, arrived)
  }

  /** Handle a sequence of events in order; a faulting frame ends the session. */
  function Play(s: GameState, events: seq<Event>): (r: FrameOutcome)
    ensures Valid(s) ==> r.Rendered? && Valid(r.state)
    decreases |events|
  {
    if |events| == 0 then Rendered(s)
    else
      match Apply(s, events[0])
      case LookupFault => LookupFault
      case Rendered(s1) => Play(s1, events[1..])
  }

  /**
   No interleaving of keys and frames from the initial state ever reads past
   the end of the path or outside the tile table, and every state reached is
   valid.
   */
  lemma NeverFaults(events: seq<Event>)
    ensures Play(Initial(), events).Rendered?
    ensures Valid(Play(Initial(), events).state)
  {
  }

  /**
   Once committed, the path stays frozen and the train keeps driving, with a
   destination index that never decreases, until a Backspace arrives.
   */
  lemma {:induction false} CommittedPathIsFrozen(s: GameState, events: seq<Event>)
    requires Valid(s) && s.driving && KeyUp(Backspace) !in events
    ensures Play(s, events).Rendered?
    ensures Play(s, events).state.path == s.path
    ensures Play(s, events).state.current == Goal
    ensures Play(s, events).state.driving
    ensures Play(s, events).state.destinationIndex >= s.destinationIndex
    decreases |events|
  {
    if |events| > 0 {
      var e := events[0];
      if e.KeyUp? {
        DrivingFreezesState(s, e.key);
      }
      var s1 := Apply(s, e).state;
      assert KeyUp(Backspace) !in events[1..];
      CommittedPathIsFrozen(s1, events[1..]);
    }
  }
}
