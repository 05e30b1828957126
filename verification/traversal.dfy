/**
 The discrete skeleton of the train's traversal, run once per rendered frame
 while the train drives. The floating-point interpolation of the train
 position is replaced by an abstract per-frame event `arrived`: the train's
 rounded position has reached the centre of its destination tile.

 The train stands on the start tile when it is committed. On the first
 driving frame it is sent on from the start tile without an arrival test,
 while it still stands there; after that it changes waypoint only on arrival.
 So its rounded position at every waypoint change is the centre of the
 destination being left, and the yaw choice compares that centre with the
 centre of the next destination.
 */
module Traversal {
  import opened Grid
  import opened State

  /**
   The result of one frame: the updated state, or the lookup of a path entry
   or tile position that does not exist (the frame would throw).
   */
  datatype FrameOutcome = Rendered(state: GameState) | LookupFault

  /**
   The yaw rule of the render loop: a quarter turn when the next waypoint
   shares its x coordinate with the train, no turn when it shares z, and the
   previous yaw otherwise.
   */
  function ChooseYaw(prev: Yaw, from: int, to: int): (y: Yaw)
    requires InGrid(from) && InGrid(to)
    ensures GridAdjacent(from, to) ==> y == LegYaw(from, to)
  {
    AdjacentCases(from, to);
    if Pos(to).x == Pos(from).x then YawHalfPi
    else if Pos(to).z == Pos(from).z then Yaw0
    else prev
  }

  /**
   Move the destination on to the next path entry and turn the train towards
   it; a fault when there is no next entry or it is not a tile.
   */
  function NextWaypoint(s: GameState): (r: FrameOutcome)
    requires InGrid(s.destination)
    ensures r.Rendered? <==> 0 <= s.destinationIndex + 1 < |s.path| && InGrid(s.path[s.destinationIndex + 1])
    ensures r.Rendered? ==>
      && r.state.destinationIndex == s.destinationIndex + 1
      && r.state.destination == s.path[r.state.destinationIndex]
      && r.state == s.(destination := r.state.destination, destinationIndex := r.state.destinationIndex, yaw := r.state.yaw)
  {
    var i := s.destinationIndex + 1;
    if 0 <= i < |s.path| && InGrid(s.path[i]) then
      Rendered(s.(destinationIndex := i, destination := s.path[i], yaw := ChooseYaw(s.yaw, s.destination, s.path[i])))
    else
      LookupFault
  }

  /**
   In a valid driving state away from the goal the next path entry exists, so
   moving on to it does not fault, and the train turns along the new leg.
   */
  lemma NextWaypointKeepsValid(s: GameState)
    ensures Valid(s) && s.driving && s.destination != Goal ==>
      NextWaypoint(s).Rendered? && Valid(NextWaypoint(s).state)
  {
    if Valid(s) && s.driving && s.destination != Goal {
      var i := s.destinationIndex + 1;
      assert s.destinationIndex != |s.path| - 1;
      assert i < |s.path| && InGrid(s.path[i]);
      var a, b := s.path[i - 1], s.path[i];
      assert GridAdjacent(a, b);
      assert ChooseYaw(s.yaw, a, b) == LegYaw(a, b);
      SamePathKeepsValid(s, NextWaypoint(s).state);
    }
  }

  /** The facts about a committed path that a frame relies on, for any state. */
  lemma CommittedPathFacts(s: GameState)
    ensures Valid(s) && s.driving ==>
      && |s.path| >= 2
      && (s.destination == Start <==> s.destinationIndex == 0)
      && (s.destination == Goal <==> s.destinationIndex == |s.path| - 1)
  {
    if Valid(s) && s.driving {
      DestinationIsGoalIffLast(s);
    }
  }

  /**
   The departure block of a frame: while the destination is still the start
   tile, head for the second path entry, without any arrival test.
   */
  function Depart(s: GameState): (r: FrameOutcome)
    ensures s.destination != Start ==> r == Rendered(s)
    ensures r.Rendered? ==>
      && s.destinationIndex <= r.state.destinationIndex <= s.destinationIndex + 1
      && r.state == s.(destination := r.state.destination, destinationIndex := r.state.destinationIndex, yaw := r.state.yaw)
    ensures Valid(s) && s.driving ==>
      && r.Rendered? && Valid(r.state)
      && r.state.destinationIndex == (if s.destination == Start then 1 else s.destinationIndex)
  {
    CommittedPathFacts(s);
    NextWaypointKeepsValid(s);
    if s.destination == Start then NextWaypoint(s) else Rendered(s)
  }

  /**
   The arrival block of a frame: look up the destination's position for the
   interpolation, and if the train has arrived there and it is not the goal,
   head for the next path entry.
   */
  function FollowLeg(s: GameState, arrived: bool): (r: FrameOutcome)
    ensures r.Rendered? ==>
      && s.destinationIndex <= r.state.destinationIndex <= s.destinationIndex + 1
      && r.state == s.(destination := r.state.destination, destinationIndex := r.state.destinationIndex, yaw := r.state.yaw)
    ensures InGrid(s.destination) && !(arrived && s.destination != Goal) ==> r == Rendered(s)
    ensures Valid(s) && s.driving ==>
      && r.Rendered? && Valid(r.state)
      && r.state.destinationIndex == s.destinationIndex + (if arrived && s.destination != Goal then 1 else 0)
  {
    NextWaypointKeepsValid(s);
    if !InGrid(s.destination) then LookupFault
    else if arrived && s.destination != Goal then NextWaypoint(s)
    else Rendered(s)
  }

  /**
   One rendered frame: while the train drives, the departure block and then
   the arrival block.
   */
  function Advance(s: GameState, arrived: bool): (r: FrameOutcome)
    ensures Valid(s) ==> r.Rendered? && Valid(r.state)
    ensures r.Rendered? ==>
      && s.destinationIndex <= r.state.destinationIndex <= s.destinationIndex + 2
      && r.state == s.(destination := r.state.destination, destinationIndex := r.state.destinationIndex, yaw := r.state.yaw)
    ensures !s.driving || s.destination == Goal ==> r == Rendered(s)
    ensures Valid(s) && s.driving && s.destination != Start ==>
      r.state.destinationIndex == s.destinationIndex + (if arrived && s.destination != Goal then 1 else 0)
    ensures Valid(s) && s.driving && s.destination == Start ==>
      r.state.destinationIndex == 1 + (if arrived && s.path[1] != Goal then 1 else 0)
  {
    if !s.driving then
      Rendered(s)
    else
      CommittedPathFacts(s);
      match Depart(s)
      case LookupFault => LookupFault
      case Rendered(s1) => FollowLeg(s1, arrived)
  }

  /** A run of frames; `arrivals[k]` says whether the train arrives during frame k. */
  function RunFrames(s: GameState, arrivals: seq<bool>): (r: FrameOutcome)
    ensures Valid(s) ==> r.Rendered? && Valid(r.state)
    ensures r.Rendered? ==>
      && s.destinationIndex <= r.state.destinationIndex
      && r.state.path == s.path && r.state.current == s.current && r.state.driving == s.driving
    decreases |arrivals|
  {
    if |arrivals| == 0 then Rendered(s)
    else
      match Advance(s, arrivals[0])
      case LookupFault => LookupFault
      case Rendered(s1) => RunFrames(s1, arrivals[1..])
  }

  /** `n` frames in each of which the train arrives at its destination. */
  function Arrivals(n: nat): (a: seq<bool>)
    ensures |a| == n && forall k :: 0 <= k < n ==> a[k]
  {
    seq(n, _ => true)
  }

  /** The destination entry is the goal exactly at the last position of a committed path. */
  lemma DestinationIsGoalIffLast(s: GameState)
    requires Valid(s) && s.driving
    ensures s.destination == Goal <==> s.destinationIndex == |s.path| - 1
    ensures s.destination == Start <==> s.destinationIndex == 0
  {
  }

  /** Once the destination is the goal, further frames change nothing. */
  lemma {:induction false} StaysAtGoal(s: GameState, arrivals: seq<bool>)
    requires s.destination == Goal
    ensures RunFrames(s, arrivals) == Rendered(s)
    decreases |arrivals|
  {
    if |arrivals| > 0 {
      StaysAtGoal(s, arrivals[1..]);
    }
  }

  /** The number of frames of a run in which the train arrives. */
  function CountTrue(a: seq<bool>): (n: nat)
    ensures n <= |a|
    ensures n == 0 <==> forall k :: 0 <= k < |a| ==> !a[k]
    decreases |a|
  {
    if |a| == 0 then 0 else (if a[0] then 1 else 0) + CountTrue(a[1..])
  }

  /** Every frame of `Arrivals(n)` is an arrival. */
  lemma {:induction false} CountArrivals(n: nat)
    ensures CountTrue(Arrivals(n)) == n
    decreases n
  {
    if n > 0 {
      var a := Arrivals(n);
      assert a[0] && a[1..] == Arrivals(n - 1);
      CountArrivals(n - 1);
    }
  }

  /**
   One frame of a committed train away from the goal: it renders a valid
   state on the same path, one entry further on at least when the train
   arrives, and the remaining frames continue from that state.
   */
  lemma FrameOnce(s: GameState, arrivals: seq<bool>) returns (s1: GameState)
    ensures Valid(s) && s.driving && s.destination != Goal && |arrivals| > 0 ==>
      && Advance(s, arrivals[0]) == Rendered(s1)
      && Valid(s1) && s1.driving && s1.path == s.path
      && s1.destinationIndex >= s.destinationIndex + (if arrivals[0] then 1 else 0)
      && RunFrames(s, arrivals) == RunFrames(s1, arrivals[1..])
  {
    s1 := s;
    if Valid(s) && s.driving && s.destination != Goal && |arrivals| > 0 {
      DestinationIsGoalIffLast(s);
      s1 := Advance(s, arrivals[0]).state;
    }
  }

  /**
   A committed path is traversed to the end: in any run of frames in which the
   train arrives at least as many times as there are legs left, the
   destination becomes the goal, the last path entry, however many frames
   without an arrival come in between.
   */
  lemma {:induction false} ReachesGoal(s: GameState, arrivals: seq<bool>)
    requires Valid(s) && s.driving && CountTrue(arrivals) >= |s.path| - 1 - s.destinationIndex
    ensures RunFrames(s, arrivals).Rendered?
    ensures RunFrames(s, arrivals).state.destination == Goal
    ensures RunFrames(s, arrivals).state.destinationIndex == |s.path| - 1
    decreases |arrivals|
  {
    DestinationIsGoalIffLast(s);
    if s.destination == Goal {
      StaysAtGoal(s, arrivals);
    } else {
      assert |arrivals| > 0;
      var s1 := FrameOnce(s, arrivals);
      assert CountTrue(arrivals) == (if arrivals[0] then 1 else 0) + CountTrue(arrivals[1..]);
      ReachesGoal(s1, arrivals[1..]);
      var o := RunFrames(s1, arrivals[1..]);
      assert o.Rendered? && o.state.destination == Goal;
    }
  }

  /** In particular, as many arrival frames as legs remain take the train to the goal. */
  lemma ReachesGoalAfterArrivals(s: GameState, n: nat)
    requires Valid(s) && s.driving && n >= |s.path| - 1 - s.destinationIndex
    ensures RunFrames(s, Arrivals(n)).Rendered?
    ensures RunFrames(s, Arrivals(n)).state.destination == Goal
    ensures RunFrames(s, Arrivals(n)).state.destinationIndex == |s.path| - 1
  {
    CountArrivals(n);
    ReachesGoal(s, Arrivals(n));
  }

  /**
   Once the train has left the start, frames without an arrival change
   nothing: the train only moves on when it reaches its destination.
   */
  lemma {:induction false} IdleFramesChangeNothing(s: GameState, arrivals: seq<bool>)
    requires Valid(s) && s.driving && s.destination != Start && CountTrue(arrivals) == 0
    ensures RunFrames(s, arrivals) == Rendered(s)
    decreases |arrivals|
  {
    if |arrivals| > 0 {
      assert !arrivals[0];
      assert Advance(s, false) == Rendered(s);
      IdleFramesChangeNothing(s, arrivals[1..]);
    }
  }
}
