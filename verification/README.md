# Track-laying puzzle: grid rules, key handler and train traversal in Dafny

The level is a 5×5 grid of ground tiles. The player starts on tile 20 (lower-left corner). With the arrow keys they lay track, one neighbouring tile at a time, towards the goal on tile 0 (upper-left corner). The track avoids the blocked tiles 5, 17, 3, 8, 11 and 18 and never revisits a tile. Enter on the goal starts the train. Backspace resets the game. Each rendered frame, the train heads for the next waypoint of the committed track and turns to face along it.

This project models the discrete part of that game in `Prototype/script.js` as pure functions over an immutable `GameState`. It then proves the invariants the game relies on.

Files and modules:

- `grid.dfy`, module `Grid`. The ground-tile table (`groundPosArr`) and the tile-class lists. Also `isAllowedToMove` as `Allowed`, and geometric adjacency.
- `state.dfy`, module `State`. The game variables as one `GameState` value, the initial/reset state, and the invariant `Valid` that every reachable state satisfies.
- `keys.dfy`, module `Keys`. The key-release handler as `Step(state, key)` and its fold `Run` over key sequences. Also the converse of the invariant: every well-formed path can be laid with its arrow keys (`LayPath`, `PathIsReachable`).
- `tint.dfy`, module `Tint`. The ground-tile colour selector (`u_color`).
- `traversal.dfy`, module `Traversal`. The destination-advance block of the render loop as `Advance(state, arrived)`, composed of its departure block (`Depart`) and arrival block (`FollowLeg`), and its fold `RunFrames`. A run may hold any number of frames without an arrival; the train reaches the goal once it has arrived as often as legs remain (`ReachesGoal`).
- `session.dfy`, module `Session`. Any interleaving of key releases and frames (`Play`).
- `scenarios.dfy`, module `Scenarios`. Concrete plays: an open route from 20 to 0, refused moves, and the train driving the route.

Modelling choices:

- Tile indices, the table and the lists are exact integers. The table keeps only x and z, because every tile lies at y = 0.
- A refused move leaves the state unchanged. The source handles refusals silently.
- The floating-point train position is not part of the state. Each frame takes a boolean `arrived`. It stands for the source's test that the rounded train position equals the centre of the destination tile. The train stands on the start tile when it is committed. On the first driving frame the source sends it on from tile 20 without any arrival test (`Prototype/script.js:573-575`), while it still stands on tile 20. After that it changes waypoint only on arrival. So at every yaw decision, its rounded position is the centre of the destination it is leaving. The yaw rule therefore compares that centre with the next destination's centre.
- Yaw is `Yaw0` (rotation 0) or `YawHalfPi` (rotation π/2), the only two values the source assigns.
- In JavaScript, reading `tilesSelected` past its end, or `groundPosArr` at a non-tile, makes the frame throw. The model returns `LookupFault` in those cases. `Session.NeverFaults` proves that no play from the initial state reaches one.

Enter starts the train only when the cursor is on tile 0 (`Prototype/script.js:211`).

## Model

| member | source | states |
|---|---|---|
| Grid.Pos | Prototype/script.js:71-102 | tile `i` of the table lies at x = -22 + 11·(i mod 5), z = -18 + 11·(i div 5): a row-major 5×5 lattice with spacing 11 |
| Grid.GroundPositionsLattice | Prototype/script.js:71-102 | every entry of the literal ground table agrees with the lattice formula |
| Grid.ClassOf | Prototype/script.js:104-112 | the class lists cover exactly the 25 tiles, and a tile is in the middle list iff it is neither in the outer row nor the outer column |
| Grid.Allowed | Prototype/script.js:114-143 | an accepted direction lands on a grid tile that is one tile away in world space, in the same row for left/right (no wrap-around) and the same column for up/down; on every tile but the goal a direction is accepted iff it stays on the grid; the goal accepts none |
| Grid.AllowedDirections | Prototype/script.js:114-143 | the set of accepted directions contains exactly the directions the move rule accepts |
| Grid.AllowedDirectionsByClass | Prototype/script.js:104-143 | on every tile but 0 the accepted directions are exactly the directions that stay on the grid, with no wrap-around; tile 0 and every non-tile accept none |
| Grid.AllowedDirectionsCount | Prototype/script.js:104-143 | counted from the row and column each class lies in: four accepted directions on middle tiles, three on edge tiles, two on the corners 4, 20 and 24 |
| Grid.AllowedIsSymmetric | Prototype/script.js:114-143 | a move that does not land on the goal can be undone by the opposite move |
| Grid.AdjacentCases | Prototype/script.js:71-102 | world-space neighbours differ by ±5 in the same column or by ±1 in the same row |
| Grid.DirectionTo | Prototype/script.js:114-143 | from any tile but the goal, every world-space neighbour is reached by an accepted direction, and the direction returned leads exactly there |
| State.Initial | Prototype/script.js:149-175 | the level starts with cursor 20, path [20], not driving, destination 20 at index 0, rotation 0, pan 0, zoom 70 |
| State.SamePathKeepsValid | Prototype/script.js:572-596 | a state with the same path, cursor and driving flag as a valid one, whose destination is the path entry at its index and whose yaw matches the leg ending there, is valid |
| State.InitialIsValid | Prototype/script.js:167-175 | the initial state satisfies the game invariant |
| State.GoalSelectedIffCurrent | Prototype/script.js:177-226 | in a reachable state the goal is on the path exactly when the cursor is on it |
| State.DrivingPathShape | Prototype/script.js:210-214 | a committed path runs from 20 to 0 and has at least two tiles |
| Keys.Step | Prototype/script.js:177-227 | an arrow key changes the state iff the direction is allowed and the target is neither selected nor blocked; then it moves the cursor to that neighbour and appends exactly it, changing nothing else; Enter changes only the driving flag, which becomes set iff it was set or the cursor is on 0; Backspace yields the initial state; every key keeps the game invariant |
| Keys.Run | Prototype/script.js:49-53 | any sequence of key releases from a valid state ends in a valid state |
| Keys.AppendKeepsPathValid | Prototype/script.js:180-207 | appending a free, unblocked neighbour of the cursor to a well-formed path keeps it well formed |
| Keys.AppendToValidPath | Prototype/script.js:180-207 | the appended tile is on the grid, new, unblocked and a neighbour of the old last tile (which was not 0), so the longer path is well formed |
| Keys.RunConcat | Prototype/script.js:49-53 | handling two key sequences one after the other is handling their concatenation |
| Keys.RunSnoc | Prototype/script.js:49-53 | handling a key sequence and then one more key is one step after the sequence |
| Keys.KeysFor | Prototype/script.js:177-209 | every path of at least one tile has an arrow sequence with one key per leg, each pointing from a tile to the next |
| Keys.LayLastLeg | Prototype/script.js:177-209 | on a well-formed path, the arrow of the last leg is accepted after its prefix and appends exactly the last tile |
| Keys.LayPath | Prototype/script.js:173-209 | every well-formed path can be laid: its arrows, from the initial state, are all accepted and select exactly that path with the cursor at its end |
| Keys.PathIsReachable | Prototype/script.js:177-209 | every well-formed path is reachable from the initial state: its own arrows, one per leg, lay exactly that path with the cursor on its last tile |
| Keys.LayAndCommit | Prototype/script.js:173-214 | a well-formed path to tile 0, laid by its arrows and followed by Enter, is selected and committed |
| Keys.ReachableIsValid | Prototype/script.js:173-226 | after any key sequence the path starts at 20, ends at the cursor, has no duplicates and no blocked tile, and moves between neighbours |
| Keys.ResetIsIdempotent | Prototype/script.js:215-226 | Backspace twice equals Backspace once, and restores the path [20] and not driving |
| Keys.DrivingFreezesState | Prototype/script.js:210-214 | while driving, every key except Backspace leaves the state unchanged (the cursor is on 0, which allows no move) |
| Keys.DrivingFreezesRun | Prototype/script.js:177-226 | while driving, no key sequence without Backspace changes the state |
| Keys.RunExtendsPath | Prototype/script.js:177-209 | without Backspace the path only grows: the old path is a prefix of the new one |
| Tint.GroundTint | Prototype/script.js:541-557 | green exactly for tile 20 and for tile 0 once selected; black exactly for tile 0 unselected; red exactly for other blocked tiles whether selected or not; olive for the other selected tiles; white for the rest |
| Tint.Rgb | Prototype/script.js:543-556 | every tint component the ground is drawn with lies between 0 and 1 |
| Tint.RgbIsInjective | Prototype/script.js:543-556 | the five tints have pairwise different RGB triples, so each tile category is visible on screen |
| Tint.TintOfValidGame | Prototype/script.js:541-557 | in a reachable game red marks exactly the blocked tiles, olive exactly the laid track between start and goal, and the goal is green exactly when the cursor reaches it |
| Traversal.ChooseYaw | Prototype/script.js:576-582 | for neighbouring tiles the rotation is π/2 for an up/down leg and 0 for a left/right leg |
| Traversal.NextWaypoint | Prototype/script.js:586-594 | advancing moves the index up by one and the destination to the path entry at the new index; it faults exactly when there is no such entry or it is not a tile |
| Traversal.NextWaypointKeepsValid | Prototype/script.js:576-594 | in a valid driving state away from tile 0 the next entry exists, so advancing never faults, and the new yaw matches the new leg |
| Traversal.Depart | Prototype/script.js:573-583 | while the destination is 20, a committed train is sent to path entry 1 without an arrival test and the state stays valid; otherwise the frame leaves the state alone |
| Traversal.FollowLeg | Prototype/script.js:584-594 | on a valid committed game the index rises by exactly one when the train arrived away from 0, the state stays valid and nothing faults; with no arrival, or at 0, the state is unchanged |
| Traversal.Advance | Prototype/script.js:572-596 | a frame changes only destination, index and yaw, and nothing happens when not driving or once the destination is 0; on a valid committed game, after the first frame the index rises by exactly one if the train arrived away from 0 and stays put otherwise; the first frame sets the index to 1, or to 2 if the train also arrived and entry 1 is not 0; valid states stay valid and never fault |
| Traversal.RunFrames | Prototype/script.js:572-596 | any run of frames from a valid state stays valid, never faults, keeps the path, cursor and driving flag, and never decreases the index |
| Traversal.DestinationIsGoalIffLast | Prototype/script.js:585-587 | while driving, the destination is 0 exactly at the last path index, and 20 exactly at index 0 |
| Traversal.StaysAtGoal | Prototype/script.js:585-587 | once the destination is 0, further frames change nothing |
| Traversal.FrameOnce | Prototype/script.js:572-596 | in a valid committed game away from 0, one frame renders a valid state on the same path whose index is at least one larger when the train arrives and never smaller otherwise, and the remaining frames continue from it |
| Traversal.ReachesGoal | Prototype/script.js:572-596 | in any run of frames, with any number of non-arrival frames in between, that holds at least as many arrivals as legs remain, the train never faults and its destination becomes 0 at the last path index |
| Traversal.ReachesGoalAfterArrivals | Prototype/script.js:572-596 | the special case of a run made only of arrival frames, one per remaining leg |
| Traversal.IdleFramesChangeNothing | Prototype/script.js:573-594 | once the train has left tile 20, frames in which it does not arrive leave the whole state unchanged |
| Session.Play | Prototype/script.js:10-17 | any interleaving of key releases and frames from a valid state stays valid and never faults |
| Session.NeverFaults | Prototype/script.js:572-596 | from the initial state, no interleaving of keys and frames reads past the end of the path or outside the tile table |
| Session.CommittedPathIsFrozen | Prototype/script.js:177-227 | once committed, and until Backspace, the path and cursor stay fixed, the train keeps driving and the index never decreases |
| Scenarios.RouteIsFree | Prototype/script.js:173-175 | the route 20-21-22-23-24-19-14-13-12-7-2-1-0 stays on the grid, avoids the blocked tiles and meets tile 0 only at its end |
| Scenarios.RouteIsDistinct | Prototype/script.js:177-209 | the route never revisits a tile |
| Scenarios.RouteIsConnected | Prototype/script.js:71-102 | consecutive route tiles are world-space neighbours |
| Scenarios.RouteIsValid | Prototype/script.js:173-209 | the route is a well-formed path from 20 to 0 |
| Scenarios.RouteArrowsFirstLegs | Prototype/script.js:177-209 | the first four legs of the route are walked by Right×4 |
| Scenarios.RouteArrowsMiddleLegs | Prototype/script.js:177-209 | the middle four legs of the route are walked by Up×2, Left×2 |
| Scenarios.RouteArrowsLastLegs | Prototype/script.js:177-209 | the last four legs of the route are walked by Up×2, Left×2 |
| Scenarios.RouteArrowsWalkRoute | Prototype/script.js:177-209 | Right×4, Up×2, Left×2, Up×2, Left×2 walk the route leg by leg |
| Scenarios.RouteIsLaidAndCommitted | Prototype/script.js:173-214 | Right×4, Up×2, Left×2, Up×2, Left×2, Enter selects exactly the route and starts the train |
| Scenarios.MoveIntoBlockedTileIsIgnored | Prototype/script.js:175-185 | Up, Up, Up from the start stops at tile 10, because tile 5 is blocked |
| Scenarios.MoveOffTheGridIsIgnored | Prototype/script.js:194-201 | Left from tile 20 is refused rather than wrapping to tile 19 |
| Scenarios.EnterAwayFromGoalIsRefused | Prototype/script.js:210-214 | Enter away from tile 0 does not start the train |
| Scenarios.RouteIsDriven | Prototype/script.js:572-596 | after the route is committed, twelve arrivals never fault and bring the train's destination to tile 0 |

## Left out

- `Prototype/shaders.js`: GLSL source text for lighting, shadows and blur. It is floating-point GPU code with no game logic.
- Every graphics-library call: shader, VAO, texture and cubemap creation, `createDrawCall` and `performDrawCall`. These are foreign WebGL calls.
- The DOM event wiring (`Prototype/script.js:11-53`), and the render loop's timing and `deltaTime` (`Prototype/script.js:524-528`). These are I/O. Key releases and frames are inputs to `Step`, `Advance` and `Play` instead.
- The floating-point train position: `trainPos.lerp` and the `Math.round` arrival test (`Prototype/script.js:584-585`) become the abstract `arrived` input of each frame. The model does not say how many frames an arrival takes.
- The train's reset to its spawn position (`Prototype/script.js:219`): the position is not part of the state. The abstraction above relies on the train standing on tile 20 whenever the destination is still 20.
- The camera: mouse-drag pan and wheel zoom updates (`Prototype/script.js:152-163`), the projection matrix, and `viewPos`/`lookAt` (`Prototype/script.js:598-603`). These are floating-point. Pan and zoom are in the state only so that a reset can restore them to 0 and 70.
- Keys other than the arrows, Enter and Backspace are one `Other` key, which the handler ignores.
- What happens after a frame throws: the exception leaves `renderLoop` before it reschedules itself (`Prototype/script.js:12-15`), so rendering stops. `Play` ends the session with `LookupFault` instead. From the initial state this never happens (`Session.NeverFaults`).
