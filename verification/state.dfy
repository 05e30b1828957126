/**
 The mutable game variables of the level, gathered into one immutable value,
 together with the invariant every reachable state satisfies.

 The continuous train position is not part of the state: the traversal only
 ever needs its rounded value at the moments it changes waypoint, and at those
 moments it equals the centre of the waypoint being left (see module
 Traversal).
 */
module State {
  import opened Grid

  /** The tiles the player may not lay track on. */
  const BlockedTiles: seq<int> := [5, 17, 3, 8, 11, 18]

  const InitialPan: real := 0.0
  const InitialZoom: real := 70.0

  /** The two rotations the train takes about the y axis: 0 or a quarter turn (pi / 2). */
  datatype Yaw = Yaw0 | YawHalfPi

  datatype GameState = GameState(
    current: int,           // the cursor tile, head of the path
    path: seq<int>,         // the tiles selected so far, in order
    driving: bool,          // the path is committed and the train runs
    destination: int,       // the waypoint tile the train is heading to
    destinationIndex: int,  // position of `destination` in `path`
    yaw: Yaw,               // the train's rotation about the y axis
    pan: real,              // camera orbit angle
    zoom: real              // camera distance
  )

  /** The state the level starts in, and the one a reset restores. */
  function Initial(): (s: GameState)
    ensures s.current == Start && s.path == [Start] && !s.driving
    ensures s.destination == Start && s.destinationIndex == 0 && s.yaw == Yaw0
    ensures s.pan == InitialPan && s.zoom == InitialZoom
  {
    GameState(Start, [Start], false, Start, 0, Yaw0, InitialPan, InitialZoom)
  }

  /**
   The yaw that belongs to a leg of the path: up and down legs run along z and
   turn the train by a quarter, left and right legs run along x and leave it
   unturned.
   */
  function LegYaw(from: int, to: int): Yaw {
    if to == from - Width || to == from + Width then YawHalfPi else Yaw0
  }

  /**
   A well-formed track: it starts on the start tile, stays on the grid, avoids
   blocked tiles, never revisits a tile, moves one tile at a time, and ends as
   soon as it reaches the goal.
   */
  ghost predicate ValidPath(p: seq<int>) {
    && |p| >= 1
    && p[0] == Start
    && (forall i :: 0 <= i < |p| ==> InGrid(p[i]) && p[i] !in BlockedTiles)
    && (forall i, j :: 0 <= i < j < |p| ==> p[i] != p[j])
    && (forall i :: 0 <= i < |p| - 1 ==> GridAdjacent(p[i], p[i + 1]))
    && (forall i :: 0 <= i < |p| - 1 ==> p[i] != Goal)
  }

  /** Every non-empty prefix of a well-formed path is well formed. */
  lemma PrefixKeepsPathValid(p: seq<int>, n: int)
    requires ValidPath(p) && 1 <= n <= |p|
    ensures ValidPath(p[..n])
  {
  }

  /**
   The invariant of every reachable state: the path is well formed and ends at
   the cursor; driving happens only with the cursor on the goal; the train's
   destination is the path entry at `destinationIndex` (the start tile before
   the train sets off), and its yaw matches the leg it is travelling.
   */
  ghost predicate Valid(s: GameState) {
    && ValidPath(s.path)
    && s.current == s.path[|s.path| - 1]
    && (s.driving ==> s.current == Goal)
    && 0 <= s.destinationIndex < |s.path|
    && s.destination == s.path[s.destinationIndex]
    && (!s.driving ==> s.destinationIndex == 0)
    && (s.destinationIndex > 0 ==> s.yaw == LegYaw(s.path[s.destinationIndex - 1], s.destination))
  }

  /** A state with the same path, cursor and driving flag as a valid one, and a consistent destination, is valid. */
  lemma SamePathKeepsValid(s: GameState, r: GameState)
    requires Valid(s) && r.path == s.path && r.current == s.current && r.driving == s.driving
    requires 0 <= r.destinationIndex < |r.path| && r.destination == r.path[r.destinationIndex]
    requires !r.driving ==> r.destinationIndex == 0
    requires r.destinationIndex > 0 ==> r.yaw == LegYaw(r.path[r.destinationIndex - 1], r.destination)
    ensures Valid(r)
  {
  }

  lemma InitialIsValid()
    ensures Valid(Initial())
  {
  }

  /** The goal tile is on the path exactly when the cursor stands on it. */
  lemma GoalSelectedIffCurrent(s: GameState)
    requires Valid(s)
    ensures Goal in s.path <==> s.current == Goal
  {
  }

  /** A committed path leads from the start to the goal and has at least one leg. */
  lemma DrivingPathShape(s: GameState)
    requires Valid(s) && s.driving
    ensures |s.path| >= 2 && s.path[0] == Start && s.path[|s.path| - 1] == Goal
  {
  }
}
