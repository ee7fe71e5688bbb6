# Voxel world and block interaction

This project models the core of a small voxel sandbox program. The world is
a dense 16 x 8 x 16 grid of block kinds (air, dirt, cobblestone, sand, wood
and glass). It starts empty, and the start-up code lays a dirt floor on the
layer y = 0. The camera picks blocks with a DDA grid traversal: the
Amanatides-Woo walk from the cell holding the camera, along the view
direction, up to a reach of 8. A left click removes the block the ray hits.
A right click places the selected block in the cell in front of the face
the ray entered. Each frame draws every opaque block and then every glass
block, visiting cells with x outermost, then y, then z. The model also
covers:
- the atlas lookup that textures each face;
- the status-line block names;
- block selection with the number keys;
- the once-per-press Enter toggle for wireframe drawing.

Modules follow the program's parts:
- `Blocks` holds the block kinds and their names.
- `WorldGrid` holds the grid, cell reads and writes, and the start-up world.
- `Raycast` holds the traversal.
- `Interaction` holds the mouse handler.
- `Atlas` holds the face UV table.
- `RenderOrder` holds the two draw passes.
- `Input` holds the keyboard selection and the Enter latch.
- `Scenarios` holds concrete casts over the start-up world.

The traversal is modelled twice:
- `Raycast.CastFrom` is a recursive function with the loop's branch
  structure.
- `Raycast.CastRay` is a method written as the source's loop. It is proved
  to compute the same result.

A separate reference walk, `Raycast.Trace`, lists the states the loop passes
through. The hit/miss characterisation and the geometric facts are proved
against that walk.

Behaviour of the code worth noting:
- **Tie-break.** When side distances tie, the later axis is advanced: z
  beats y and x, and y beats x. This follows from the nested strict `<`
  comparisons in `main.cpp:151-175`.
- **Atlas rows.** Only dirt's rectangles run from `v0 = ts` down to
  `v1 = 0`. Cobblestone, sand, wood and glass run upward, one row per kind.
  Anything else, including air, gets `(0, ts, 0, ts)`.
- **Start-up view.** From the start position (4, 5, 4), a ray down the main
  diagonal does not hit the floor. It passes exactly through the corner
  (0, 1, 0), and because z goes first on every three-way tie it leaves the
  world at z = -1 (`Scenarios.DiagonalThroughCornerMisses`). This holds for
  the program's initial front vector (-0.5, -0.5, -0.5) and for its
  normalised form.
- **Reach.** The reach test sits only at the loop head. A ray can therefore
  test, and hit, a cell entered beyond `maxDist`
  (`Scenarios.ReachOvershoot`).

## Model

| member | source | states |
|---|---|---|
| Blocks.BlockName | main.cpp:75-84 | the displayed name has at least three letters and starts with 'A' exactly for air, the fall-through case |
| Blocks.BlockNameInjective | main.cpp:75-84 | distinct block kinds are shown under distinct names |
| WorldGrid.EmptyWorld | main.cpp:53-59 | the grid as allocated holds air in every cell |
| WorldGrid.Set | main.cpp:206-212 | a write inside the world stores the kind at that cell and changes no other cell; a write outside leaves the grid as it was |
| WorldGrid.Platform | main.cpp:612-617 | every cell (x, 0, z) becomes dirt and every cell with y other than 0 is unchanged |
| WorldGrid.InitializePlatform | main.cpp:613-617 | the nested start-up loop over x and z produces exactly the dirt-floor grid |
| WorldGrid.InitialWorldLayout | main.cpp:612-617 | after the floor loop runs on the grid as allocated (all air), a cell is dirt exactly when it is on the floor layer and air otherwise |
| Raycast.FloorVec | main.cpp:125 | the start cell contains the start point: each coordinate lies in [cell, cell + 1) |
| Raycast.DeltaDist | main.cpp:126-130 | the ray length to cross one cell is positive on every axis for a direction with no zero component |
| Raycast.StepOf | main.cpp:132-136 | each step is +1 or -1, and +1 exactly when the direction component is positive |
| Raycast.DeltaDistCrossesOneCell | main.cpp:126-130 | on every axis the cell-crossing length times the absolute direction component is exactly 1, so moving that far along the ray changes the coordinate by one cell |
| Raycast.FirstBoundaryReachesBoundary | main.cpp:138-142 | on one axis, the start coordinate plus the initial side distance times the direction component is the boundary of the start cell that lies ahead: its upper face when moving up, its lower face when moving down |
| Raycast.BeginAimsAhead | main.cpp:125-142 | before the first iteration every side distance is the ray length from the start point to the boundary ahead of the start cell on that axis |
| Raycast.StepReachesNextBoundary | main.cpp:151-178 | pushing one axis's side distance one cell further reaches the boundary ahead of the next cell on that axis, and the old side distance is where the ray crosses into that cell through its near face |
| Raycast.AdvanceAimsAhead | main.cpp:151-178 | one iteration keeps every side distance equal to the ray length to the boundary ahead of the current cell on its axis, and at the recorded travelled length the ray lies on the near face of the new cell on the stepped axis |
| Raycast.BeginInSlabs | main.cpp:138-147 | at length 0 the ray is inside every initial slab: each side distance is at least 0 and at most one cell crossing ahead |
| Raycast.AdvanceInSlabs | main.cpp:151-178 | crossing the nearest boundary keeps the travelled length between each axis's near boundary (side distance minus one cell crossing) and its far boundary (the side distance); this holds because the smallest side distance is stepped |
| Raycast.SlabsPutRayInCell | main.cpp:138-178 | when the side distances aim at the boundaries ahead and the travelled length is inside every slab, the ray point at that length lies in the current cell on all three axes |
| Raycast.TraceFollowsRay | main.cpp:125-178 | for every cell the cast tests, the ray point at the recorded travelled length lies inside that cell on all three axes, the ray enters it there through the face on the stepped axis, and every side distance is the ray length to the boundary ahead of it |
| Raycast.InitialSideDistWithinOneCell | main.cpp:138-142 | the initial ray length to the first boundary on each axis lies between 0 and one whole cell crossing |
| Raycast.Begin | main.cpp:125-147 | the traversal starts in the floor cell of the start point with nothing travelled |
| Raycast.ChooseAxis | main.cpp:151-175 | the chosen axis has the smallest side distance, with x chosen exactly when it is strictly smallest, y when it is at most x and strictly below z, and z otherwise |
| Raycast.AdvanceStepsOneAxis | main.cpp:151-178 | one iteration moves the cell by the step on the chosen axis only, sets the travelled length to that axis's side distance from before the step, and advances only that side distance by one cell crossing |
| Raycast.AdvanceProgress | main.cpp:151-178 | each iteration moves one cell further along the ray; the recorded face normal points back into the previous cell; inside the world the remaining-cells measure drops |
| Raycast.CastFrom | main.cpp:150-197 | a hit is an in-bounds non-air cell with a unit face normal along one axis |
| Raycast.RayCast | main.cpp:120-198 | a hit is an in-bounds non-air cell with a unit face normal along one axis |
| Raycast.CastRay | main.cpp:120-198 | the loop with its nested comparisons, bounds break and normal selection returns exactly the result of the recursive model |
| Raycast.Trace | main.cpp:150-196 | the walk is empty exactly when the reach is already used up; each state is one iteration after the previous, taken only below the reach; every state but the last is in-bounds air; the last is outside, solid or at or beyond the reach |
| Raycast.CastFromFollowsTrace | main.cpp:180-195 | the cast hits exactly when the walk ends on an in-bounds solid cell, and then reports that cell with the normal of the axis that reached it |
| Raycast.WalkMovesForward | main.cpp:151-178 | the i-th tested cell lies exactly i + 1 steps along the ray from the start cell |
| Raycast.StartCellNeverTested | main.cpp:150-185 | the camera's own cell is never tested and no cell is tested twice |
| Raycast.HitFaceFacesVisitedCell | main.cpp:150-193 | a hit is never the camera's cell; the cell in front of the struck face (hit position plus normal) is the cell the walk tested just before the hit, or the camera's cell when the hit is the first cell tested, so it is the camera's cell or an in-bounds cell already found to be air |
| Raycast.MissCases | main.cpp:150-197 | the cast misses exactly when no step is taken, the walk leaves the world, or it stops on air because the reach ran out |
| Raycast.CastFromAhead | main.cpp:150-197 | any hit lies strictly further along the ray than the cell the cast started from |
| Interaction.HandleBlockInteraction | main.cpp:201-217 | with the cursor shown or for a non-press action nothing changes, whatever the direction; a captured press casts the ray, and nothing changes on a miss or for other buttons; a left press clears exactly the hit cell; a right press writes the selected kind exactly in front of the struck face when that cell is inside the world and otherwise changes nothing |
| Interaction.PlaceOverwritesOnlyCameraCell | main.cpp:207-213 | a placement never targets the hit block, and it overwrites a solid block only when that is the camera's own cell |
| Interaction.RecastAfterBreak | main.cpp:203-206 | after clearing the block a cast hit, the same cast misses or hits strictly further along the ray |
| Interaction.BreakTwice | main.cpp:201-217 | two left presses from the same view never remove the same block; the second removes one further away or none |
| Atlas.GetFaceUVs | main.cpp:92-110 | each rectangle is one atlas cell wide and tall and lies within the atlas; V runs downward exactly for dirt |
| Atlas.AtlasCells | main.cpp:92-110 | dirt uses cells 2, 1 and 0 of row 0 for top, bottom and sides; cobblestone, sand, wood and glass use column 0 of rows 1 to 4; air uses cell 0 |
| Atlas.OnlyDirtDependsOnFace | main.cpp:99-108 | every kind but dirt gets the same rectangle on all faces |
| Atlas.SolidKindsHaveDistinctCells | main.cpp:92-110 | distinct solid kinds are textured from distinct atlas cells, whichever faces are drawn |
| RenderOrder.PassUpToSound | main.cpp:697-721 | every draw of a pass prefix is an in-bounds cell earlier in loop order, drawn with its own kind, of a kind the pass accepts |
| RenderOrder.PassUpToAscending | main.cpp:697-721 | the draws of a pass prefix are strictly increasing in loop order |
| RenderOrder.PassUpToComplete | main.cpp:697-721 | every accepted cell earlier in loop order is drawn exactly once by the pass prefix |
| RenderOrder.PassIsLexAscending | main.cpp:697-699 | within a pass, cells are drawn in strictly ascending lexicographic (x, y, z) order |
| RenderOrder.FrameOrder | main.cpp:696-721 | a frame draws only non-air cells with their own kind, draws every non-air cell exactly once, and draws no opaque block after a glass block |
| RenderOrder.DrawPass | main.cpp:697-707 | the triple loop of one pass emits exactly the reference pass |
| RenderOrder.DrawSlice | main.cpp:698-706 | the y loop for one x extends the pass to the start of the next x slice |
| RenderOrder.DrawRow | main.cpp:699-705 | the z loop for one (x, y) row extends the pass to the start of the next row |
| RenderOrder.DrawCell | main.cpp:700-704 | one loop body extends the pass by the cell's draw, if the pass accepts it |
| RenderOrder.DrawFrame | main.cpp:696-721 | the two passes run in sequence produce exactly the reference frame |
| Input.SelectBlock | main.cpp:286-290 | with no number key held the selection stays; otherwise it becomes the block of the highest-numbered key held |
| Input.StepEnter | main.cpp:275-283 | the latch records whether Enter is down, and the flag flips exactly when Enter is down and was not latched |
| Input.WireframeTogglesOncePerPress | main.cpp:275-283 | over any run of frames the flag ends flipped exactly when the number of presses is odd, and the latch ends equal to the last frame's key state |
| Scenarios.ReachOvershoot | main.cpp:150-195 | with reach 0.25, a ray from the centre of a dirt cell still hits the next dirt cell, entered at 0.5, through its -x face; the camera's own solid cell is not reported |
| Scenarios.DiagonalThroughCornerMisses | main.cpp:150-197 | from (4, 5, 4), any ray along (-a, -a, -a) with a > 3/8 (including the initial front vector) misses the start-up world at reach 8 |

## Left out

- Window, OpenGL and GLFW setup, shaders, texture loading, the crosshair and the GL calls of `drawCube` are left out: they are I/O with no logic over the world. The draw passes are modelled as the list of `(cell, kind)` draws they issue.
- Mouse look, WASD movement and the frame timer are left out. The camera position and view direction are parameters of the handler.
- `printStats` is left out: it only formats output.
- The ESC cursor toggle and its busy-wait on key release are left out. Whether the cursor is visible is a parameter of the handler.
- Single-precision floating point is left out: positions, directions and distances are exact reals. `abs` is taken to be the floating-point absolute value.
- A cast along a direction with a zero component is left out. Its inverse would be an IEEE infinity, so the cast requires every component to be non-zero. The mouse handler asks this only for the events on which it casts; with the cursor shown or for a non-press event any direction is accepted.
- The face name passed to `getFaceUVs` as a C string is modelled as a six-value enumeration. Strings other than the six the program passes are not modelled.
- Raw grid reads outside the world are left out. The source reads only after its own bounds test, so `WorldGrid.Get` requires the cell to be inside the world.
- Blocks.BlockName: states the shape of the names (length and the initial letter of "Air") rather than each string, because the strings themselves are the function's table.
