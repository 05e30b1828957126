/**
 The colour each ground tile is tinted with: start and reached goal green,
 blocked tiles red, selected tiles olive, everything else white, and the goal
 black until the path reaches it.
 */
module Tint {
  import opened Grid
  import opened State

  datatype Color = Green | Black | Red | Olive | White

  /**
   The RGB components the tint is drawn with: each a proper colour
   component, and no two colours drawn alike.
   */
  function Rgb(c: Color): (rgb: (real, real, real))
    ensures 0.0 <= rgb.0 <= 1.0 && 0.0 <= rgb.1 <= 1.0 && 0.0 <= rgb.2 <= 1.0
  {
    match c
    case Green => (0.2, 0.9, 0.2)
    case Black => (0.0, 0.0, 0.0)
    case Red => (1.0, 0.2, 0.2)
    case Olive => (0.5, 0.5, 0.2)
    case White => (1.0, 1.0, 1.0)
  }

  /** The five tints are told apart on screen: distinct colours have distinct components. */
  lemma RgbIsInjective(a: Color, b: Color)
    ensures Rgb(a) == Rgb(b) ==> a == b
  {
  }

  /**
   The tint of ground tile `index` given the selected tiles. Each colour is
   characterised by exactly the tiles that receive it; the blocked test comes
   before the selection test.
   */
  function GroundTint(index: int, selected: seq<int>): (c: Color)
    ensures c == Green <==> index == Start || (index == Goal && index in selected)
    ensures c == Black <==> index == Goal && index !in selected
    ensures c == Red <==> index != Goal && index != Start && index in BlockedTiles
    ensures c == Olive <==> index != Goal && index != Start && index !in BlockedTiles && index in selected
    ensures c == White <==> index != Goal && index != Start && index !in BlockedTiles && index !in selected
  {
    if index == Goal then
      if index in selected then Green else Black
    else if index == Start then
      Green
    else if index in BlockedTiles then
      Red
    else if index in selected then
      Olive
    else
      White
  }

  /**
   On the ground of a reachable game, red marks exactly the blocked tiles,
   olive exactly the track laid between start and goal, and the goal turns
   green exactly when the cursor has reached it.
   */
  lemma TintOfValidGame(s: GameState, i: int)
    requires Valid(s) && InGrid(i)
    ensures GroundTint(i, s.path) == Red <==> i in BlockedTiles
    ensures GroundTint(i, s.path) == Olive <==> i in s.path && i != Start && i != Goal
    ensures GroundTint(i, s.path) == White <==> i !in s.path && i !in BlockedTiles && i != Goal
    ensures GroundTint(Goal, s.path) == Green <==> s.current == Goal
  {
  }
}
