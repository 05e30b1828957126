/**
 The static 5x5 tile grid of the level: the row-major table of ground-tile
 centres, the tile-class lists that decide where the cursor may move, and the
 move rule itself (`isAllowedToMove`).

 Tiles are identified by their index into the table. Index `i` lies in row
 `i / 5` (0 = upper row) and column `i % 5` (0 = left column). The start tile
 is 20 (lower-left corner) and the goal tile is 0 (upper-left corner).
 */
module Grid {

  const Width: int := 5
  const Height: int := 5
  const TileCount: int := Width * Height
  /** Distance between the centres of neighbouring tiles in world units. */
  const TileSize: int := 11

  const Start: int := 20
  const Goal: int := 0

  /** World-space centre of a ground tile. Every tile lies at height y = 0, so only x and z are kept. */
  datatype Position = Position(x: int, z: int)

  /** The ground-tile table of the level, row by row, upper row first. */
  const GroundPositions: seq<Position> := [
    Position(-22, -18), Position(-11, -18), Position(0, -18), Position(11, -18), Position(22, -18),
    Position(-22, -7),  Position(-11, -7),  Position(0, -7),  Position(11, -7),  Position(22, -7),
    Position(-22, 4),   Position(-11, 4),   Position(0, 4),   Position(11, 4),   Position(22, 4),
    Position(-22, 15),  Position(-11, 15),  Position(0, 15),  Position(11, 15),  Position(22, 15),
    Position(-22, 26),  Position(-11, 26),  Position(0, 26),  Position(11, 26),  Position(22, 26)
  ]

  predicate InGrid(t: int) {
    0 <= t < TileCount
  }

  function Row(t: int): int
    requires InGrid(t)
  {
    t / Width
  }

  function Col(t: int): int
    requires InGrid(t)
  {
    t % Width
  }

  /** The table lays the tiles out on a regular lattice with spacing `TileSize`. */
  lemma GroundPositionsLattice(t: int)
    requires InGrid(t)
    ensures GroundPositions[t].x == -22 + TileSize * Col(t)
    ensures GroundPositions[t].z == -18 + TileSize * Row(t)
  {
  }

  /** The world position of tile `t`, read from the table. */
  function Pos(t: int): (p: Position)
    requires InGrid(t)
    ensures p.x == -22 + TileSize * Col(t)
    ensures p.z == -18 + TileSize * Row(t)
  {
    GroundPositionsLattice(t);
    GroundPositions[t]
  }

  function Abs(n: int): nat {
    if n < 0 then -n else n
  }

  /**
   Two tiles are neighbours when their centres are exactly one tile apart in
   world space (along x or along z).
   */
  predicate GridAdjacent(a: int, b: int) {
    && InGrid(a) && InGrid(b)
    && Abs(Pos(a).x - Pos(b).x) + Abs(Pos(a).z - Pos(b).z) == TileSize
  }

  datatype Direction = Up | Down | Left | Right

  /** The index offset of a move: one row (5 tiles) up or down, one tile left or right. */
  function Delta(d: Direction): int {
    match d
    case Up => -Width
    case Down => Width
    case Left => -1
    case Right => 1
  }

  function Target(t: int, d: Direction): int {
    t + Delta(d)
  }

  function Opposite(d: Direction): Direction {
    match d
    case Up => Down
    case Down => Up
    case Left => Right
    case Right => Left
  }

  /**
   Geometric reference for a legal move: the target lies on the grid, and a
   left/right move stays in the same row (no wrap-around from one row's end to
   the next row's start).
   */
  predicate StaysOnGrid(t: int, d: Direction)
    requires InGrid(t)
  {
    match d
    case Up => Row(t) > 0
    case Down => Row(t) < Height - 1
    case Left => Col(t) > 0
    case Right => Col(t) < Width - 1
  }

  // The tile-class lists of the level.
  const MiddleTiles: seq<int> := [6, 7, 8, 11, 12, 13, 16, 17, 18]
  const UpperRowTiles: seq<int> := [1, 2, 3]
  const LeftRowTiles: seq<int> := [5, 10, 15]
  const RightRowTiles: seq<int> := [9, 14, 19]
  const LowerRowTiles: seq<int> := [21, 22, 23]
  const UpperLeftCorner: seq<int> := [0]
  const UpperRightCorner: seq<int> := [4]
  const LowerLeftCorner: seq<int> := [20]
  const LowerRightCorner: seq<int> := [24]

  datatype TileClass =
    | Middle | UpperEdge | LeftEdge | RightEdge | LowerEdge
    | UpperLeft | UpperRight | LowerLeft | LowerRight
    | Unclassified

  /** The class of a tile, looked up in the lists in the order the move rule consults them. */
  function ClassOf(t: int): (c: TileClass)
    ensures c == Unclassified <==> !InGrid(t)
    ensures InGrid(t) && c == Middle <==> InGrid(t) && 0 < Row(t) < Height - 1 && 0 < Col(t) < Width - 1
  {
    if t in MiddleTiles then Middle
    else if t in UpperRowTiles then UpperEdge
    else if t in LeftRowTiles then LeftEdge
    else if t in RightRowTiles then RightEdge
    else if t in LowerRowTiles then LowerEdge
    else if t in UpperLeftCorner then UpperLeft
    else if t in UpperRightCorner then UpperRight
    else if t in LowerLeftCorner then LowerLeft
    else if t in LowerRightCorner then LowerRight
    else Unclassified
  }

  /** Every grid index is decomposed uniquely into row and column. */
  lemma CoordsUnique(u: int, r: int, c: int)
    requires 0 <= r < Height && 0 <= c < Width && u == Width * r + c
    ensures InGrid(u) && Row(u) == r && Col(u) == c
  {
  }

  /** What each class says about the row and column of its tiles. */
  lemma ClassCoords(t: int)
    ensures ClassOf(t) == UpperEdge ==> InGrid(t) && Row(t) == 0 && 0 < Col(t) < Width - 1
    ensures ClassOf(t) == LowerEdge ==> InGrid(t) && Row(t) == Height - 1 && 0 < Col(t) < Width - 1
    ensures ClassOf(t) == LeftEdge ==> InGrid(t) && Col(t) == 0 && 0 < Row(t) < Height - 1
    ensures ClassOf(t) == RightEdge ==> InGrid(t) && Col(t) == Width - 1 && 0 < Row(t) < Height - 1
    ensures ClassOf(t) == UpperLeft ==> t == Goal
    ensures ClassOf(t) == UpperRight ==> InGrid(t) && Row(t) == 0 && Col(t) == Width - 1
    ensures ClassOf(t) == LowerLeft ==> InGrid(t) && Row(t) == Height - 1 && Col(t) == 0
    ensures ClassOf(t) == LowerRight ==> InGrid(t) && Row(t) == Height - 1 && Col(t) == Width - 1
  {
  }

  /** A move that stays on the grid lands on a neighbouring tile. */
  lemma MoveCoords(t: int, d: Direction)
    ensures InGrid(t) && StaysOnGrid(t, d) ==> InGrid(Target(t, d)) && GridAdjacent(t, Target(t, d))
    ensures InGrid(t) && StaysOnGrid(t, d) && (d == Left || d == Right) ==> Row(Target(t, d)) == Row(t)
    ensures InGrid(t) && StaysOnGrid(t, d) && (d == Up || d == Down) ==> Col(Target(t, d)) == Col(t)
  {
    if InGrid(t) && StaysOnGrid(t, d) {
      var r, c := Row(t), Col(t);
      var u := Target(t, d);
      match d
      case Up => CoordsUnique(u, r - 1, c);
      case Down => CoordsUnique(u, r + 1, c);
      case Left => CoordsUnique(u, r, c - 1);
      case Right => CoordsUnique(u, r, c + 1);
    }
  }

  /**
   The move rule of the level: may the cursor leave tile `t` in direction `d`?
   The upper-left corner is the goal and refuses every direction.
   */
  function Allowed(t: int, d: Direction): (ok: bool)
    ensures ok ==> InGrid(t) && InGrid(Target(t, d)) && GridAdjacent(t, Target(t, d))
    ensures ok && (d == Left || d == Right) ==> Row(Target(t, d)) == Row(t)
    ensures ok && (d == Up || d == Down) ==> Col(Target(t, d)) == Col(t)
    ensures InGrid(t) && t != Goal ==> (ok <==> StaysOnGrid(t, d))
    ensures t == Goal ==> !ok
  {
    ClassCoords(t);
    MoveCoords(t, d);
    match ClassOf(t)
    case Middle => true
    case UpperEdge => d == Down || d == Left || d == Right
    case LeftEdge => d == Up || d == Down || d == Right
    case RightEdge => d == Up || d == Down || d == Left
    case LowerEdge => d == Up || d == Left || d == Right
    case UpperLeft => false
    case UpperRight => d == Down || d == Left
    case LowerLeft => d == Up || d == Right
    case LowerRight => d == Up || d == Left
    case Unclassified => false
  }

  /** The set of directions the move rule accepts on tile `t`. */
  function AllowedDirections(t: int): (ds: set<Direction>)
    ensures forall d :: d in ds <==> Allowed(t, d)
  {
    set d: Direction | d in {Up, Down, Left, Right} && Allowed(t, d)
  }

  /**
   On every tile but the goal the accepted directions are exactly those that
   stay on the grid; the goal and non-tiles accept none. How many that makes
   per tile class is `AllowedDirectionsCount`.
   */
  lemma AllowedDirectionsByClass(t: int)
    ensures InGrid(t) && t != Goal ==> forall d :: d in AllowedDirections(t) <==> StaysOnGrid(t, d)
    ensures t == Goal || !InGrid(t) ==> AllowedDirections(t) == {}
  {
    if t == Goal || !InGrid(t) {
      assert forall d :: d !in AllowedDirections(t);
    }
  }

  function Flag(b: bool): nat {
    if b then 1 else 0
  }

  /** A set of directions has one element per direction it contains. */
  lemma {:induction false} DirectionCount(ds: set<Direction>)
    ensures |ds| == Flag(Up in ds) + Flag(Down in ds) + Flag(Left in ds) + Flag(Right in ds)
    decreases |ds|
  {
    if ds != {} {
      var d :| d in ds;
      var rest := ds - {d};
      DirectionCount(rest);
      assert ds == rest + {d} && d !in rest;
      assert |ds| == |rest| + 1;
      match d
      case Up => assert (Down in ds) == (Down in rest) && (Left in ds) == (Left in rest) && (Right in ds) == (Right in rest);
      case Down => assert (Up in ds) == (Up in rest) && (Left in ds) == (Left in rest) && (Right in ds) == (Right in rest);
      case Left => assert (Up in ds) == (Up in rest) && (Down in ds) == (Down in rest) && (Right in ds) == (Right in rest);
      case Right => assert (Up in ds) == (Up in rest) && (Down in ds) == (Down in rest) && (Left in ds) == (Left in rest);
    }
  }

  /**
   The number of accepted directions per tile class, counted from the rows and
   columns the class lies in: all four on middle tiles, three on edge tiles and
   two on the corners 4, 20 and 24.
   */
  lemma AllowedDirectionsCount(t: int)
    ensures ClassOf(t) == Middle ==> |AllowedDirections(t)| == 4
    ensures ClassOf(t) == UpperEdge || ClassOf(t) == LeftEdge || ClassOf(t) == RightEdge || ClassOf(t) == LowerEdge
      ==> |AllowedDirections(t)| == 3
    ensures ClassOf(t) == UpperRight || ClassOf(t) == LowerLeft || ClassOf(t) == LowerRight
      ==> |AllowedDirections(t)| == 2
  {
    ClassCoords(t);
    if InGrid(t) && t != Goal {
      var ds := AllowedDirections(t);
      DirectionCount(ds);
      assert (Up in ds) == (Row(t) > 0) && (Down in ds) == (Row(t) < Height - 1);
      assert (Left in ds) == (Col(t) > 0) && (Right in ds) == (Col(t) < Width - 1);
    }
  }

  /**
   The move rule is symmetric with grid adjacency: a legal move can be undone
   by the opposite move, unless it lands on the goal, which permits nothing.
   */
  lemma AllowedIsSymmetric(t: int, d: Direction)
    requires Allowed(t, d) && Target(t, d) != Goal
    ensures Allowed(Target(t, d), Opposite(d))
    ensures Target(Target(t, d), Opposite(d)) == t
  {
  }

  /** Neighbours differ by one row in the same column, or by one column in the same row. */
  lemma AdjacentCases(a: int, b: int)
    ensures GridAdjacent(a, b) ==>
            || (Col(a) == Col(b) && (b == a - Width || b == a + Width))
            || (Row(a) == Row(b) && (b == a - 1 || b == a + 1))
  {
  }

  /**
   The direction that leads from tile `a` to a neighbour `b`: from any tile
   but the goal, the move rule accepts it and it lands on `b`.
   */
  function DirectionTo(a: int, b: int): (d: Direction)
    ensures GridAdjacent(a, b) && a != Goal ==> Allowed(a, d) && Target(a, d) == b
  {
    AdjacentCases(a, b);
    if b == a - Width then Up
    else if b == a + Width then Down
    else if b == a - 1 then Left
    else Right
  }
}
