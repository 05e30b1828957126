/**
 Concrete plays of the level: a route from the start to the goal around the
 blocked tiles, refused moves, and the train's run along the committed route.
 */
module Scenarios {
  import opened Grid
  import opened State
  import opened Keys
  import opened Traversal

  const Route: seq<int> := [20, 21, 22, 23, 24, 19, 14, 13, 12, 7, 2, 1, 0]

  /** Right four times, up twice, left twice, up twice, left twice. */
  const RouteArrows: seq<Key> := [
    Arrow(Right), Arrow(Right), Arrow(Right), Arrow(Right),
    Arrow(Up), Arrow(Up), Arrow(Left), Arrow(Left),
    Arrow(Up), Arrow(Up), Arrow(Left), Arrow(Left)
  ]

  /** No tile occurs twice on the route. */
  lemma RouteIsDistinct()
    ensures forall i, j :: 0 <= i < j < |Route| ==> Route[i] != Route[j]
  {
    forall i, j | 0 <= i < j < |Route|
      ensures Route[i] != Route[j]
    {
      assert i == 0 || i == 1 || i == 2 || i == 3 || i == 4 || i == 5 || i == 6
          || i == 7 || i == 8 || i == 9 || i == 10 || i == 11;
    }
  }

  /** Consecutive route tiles are neighbours. */
  lemma RouteIsConnected()
    ensures forall i :: 0 <= i < |Route| - 1 ==> GridAdjacent(Route[i], Route[i + 1])
  {
    assert GridAdjacent(20, 21);
    assert GridAdjacent(21, 22);
    assert GridAdjacent(22, 23);
    assert GridAdjacent(23, 24);
    assert GridAdjacent(24, 19);
    assert GridAdjacent(19, 14);
    assert GridAdjacent(14, 13);
    assert GridAdjacent(13, 12);
    assert GridAdjacent(12, 7);
    assert GridAdjacent(7, 2);
    assert GridAdjacent(2, 1);
    assert GridAdjacent(1, 0);
    forall i | 0 <= i < |Route| - 1
      ensures GridAdjacent(Route[i], Route[i + 1])
    {
      assert i == 0 || i == 1 || i == 2 || i == 3 || i == 4 || i == 5 || i == 6
          || i == 7 || i == 8 || i == 9 || i == 10 || i == 11;
    }
  }

  /** Every route tile is a free grid tile, and only the last one is the goal. */
  lemma RouteIsFree()
    ensures forall i :: 0 <= i < |Route| ==> InGrid(Route[i]) && Route[i] !in BlockedTiles
    ensures forall i :: 0 <= i < |Route| - 1 ==> Route[i] != Goal
  {
    forall i | 0 <= i < |Route|
      ensures InGrid(Route[i]) && Route[i] !in BlockedTiles && (i < |Route| - 1 ==> Route[i] != Goal)
    {
      assert i == 0 || i == 1 || i == 2 || i == 3 || i == 4 || i == 5 || i == 6
          || i == 7 || i == 8 || i == 9 || i == 10 || i == 11 || i == 12;
    }
  }

  /** This route around the blocked tiles is a well-formed path to the goal. */
  lemma RouteIsValid()
    ensures ValidPath(Route) && Route[|Route| - 1] == Goal
  {
    RouteIsFree();
    RouteIsDistinct();
    RouteIsConnected();
  }

  /** The arrows of the first four legs: Right x4. */
  lemma RouteArrowsFirstLegs()
    ensures forall i :: 0 <= i < 4 ==> RouteArrows[i] == Arrow(DirectionTo(Route[i], Route[i + 1]))
  {
    assert DirectionTo(20, 21) == Right;
    assert DirectionTo(21, 22) == Right;
    assert DirectionTo(22, 23) == Right;
    assert DirectionTo(23, 24) == Right;
    forall i | 0 <= i < 4
      ensures RouteArrows[i] == Arrow(DirectionTo(Route[i], Route[i + 1]))
    {
      assert i == 0 || i == 1 || i == 2 || i == 3;
    }
  }

  /** The arrows of the middle four legs: Up x2, Left x2. */
  lemma RouteArrowsMiddleLegs()
    ensures forall i :: 4 <= i < 8 ==> RouteArrows[i] == Arrow(DirectionTo(Route[i], Route[i + 1]))
  {
    assert DirectionTo(24, 19) == Up;
    assert DirectionTo(19, 14) == Up;
    assert DirectionTo(14, 13) == Left;
    assert DirectionTo(13, 12) == Left;
    forall i | 4 <= i < 8
      ensures RouteArrows[i] == Arrow(DirectionTo(Route[i], Route[i + 1]))
    {
      assert i == 4 || i == 5 || i == 6 || i == 7;
    }
  }

  /** The arrows of the last four legs: Up x2, Left x2. */
  lemma RouteArrowsLastLegs()
    ensures forall i :: 8 <= i < 12 ==> RouteArrows[i] == Arrow(DirectionTo(Route[i], Route[i + 1]))
  {
    assert DirectionTo(12, 7) == Up;
    assert DirectionTo(7, 2) == Up;
    assert DirectionTo(2, 1) == Left;
    assert DirectionTo(1, 0) == Left;
    forall i | 8 <= i < 12
      ensures RouteArrows[i] == Arrow(DirectionTo(Route[i], Route[i + 1]))
    {
      assert i == 8 || i == 9 || i == 10 || i == 11;
    }
  }

  /** Right x4, Up x2, Left x2, Up x2, Left x2 are the arrows that walk the route. */
  lemma RouteArrowsWalkRoute()
    ensures WalksAlong(RouteArrows, Route)
  {
    RouteArrowsFirstLegs();
    RouteArrowsMiddleLegs();
    RouteArrowsLastLegs();
  }

  /** The route arrows lay exactly the route, and Enter then starts the train. */
  lemma RouteIsLaidAndCommitted()
    ensures Run(Initial(), RouteArrows + [Enter]).path == Route
    ensures Run(Initial(), RouteArrows + [Enter]).driving
  {
    RouteIsValid();
    RouteArrowsWalkRoute();
    LayAndCommit(Route, RouteArrows);
  }

  /** Enter before the cursor has reached the goal does not start the train. */
  lemma EnterAwayFromGoalIsRefused()
    ensures !Run(Initial(), [Arrow(Right), Enter]).driving
  {
  }

  /** Up, Up, Up from the start: the third move would enter blocked tile 5 and is ignored. */
  lemma MoveIntoBlockedTileIsIgnored()
    ensures Run(Initial(), [Arrow(Up), Arrow(Up), Arrow(Up)]).path == [20, 15, 10]
    ensures Run(Initial(), [Arrow(Up), Arrow(Up), Arrow(Up)]).current == 10
  {
  }

  /** Left from the start would leave the grid (and wrap to tile 19): refused. */
  lemma MoveOffTheGridIsIgnored()
    ensures Run(Initial(), [Arrow(Left)]) == Initial()
  {
  }

  /** Twelve arrivals take the committed route's train from the start to the goal. */
  lemma RouteIsDriven()
    ensures RunFrames(Run(Initial(), RouteArrows + [Enter]), Arrivals(12)).Rendered?
    ensures RunFrames(Run(Initial(), RouteArrows + [Enter]), Arrivals(12)).state.destination == Goal
  {
    RouteIsLaidAndCommitted();
    ReachableIsValid(RouteArrows + [Enter]);
    ReachesGoalAfterArrivals(Run(Initial(), RouteArrows + [Enter]), 12);
  }
}
