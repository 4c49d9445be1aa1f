# Tile-world mining game: a Dafny model of its simulation core

The repository holds one side-scrolling mining game written twice: `game.py` for pygame
and `game.go` for ebiten. Both run the same small simulation over a 64 x 128 grid of
optional blocks (`world[row][col]`, where an empty cell is `None` or `nil`). The
simulation has four parts:

- **Block table.** Each block kind has a hardness. The Go table also gives each kind the
  number drawn on it (`Value`).
- **World generation.** A clamped random walk of surface heights comes first. Then each
  column is filled with dirt, stone and ore below its surface, and some columns get a tree
  made of a trunk and a `[1, 3, 5, 3, 1]` canopy. Last comes a bottom row of unbreakable
  blocks.
- **Collision and motion.** A collision test checks the four corners of the player's box
  against the grid. For a two-tile-tall box whose top is not on a row boundary, the box spans
  three rows and the middle one is never probed. Each frame, gravity is applied (capped at a maximum fall speed), then a
  horizontal step and a vertical step are each taken only when the collision test at the
  new position is negative.
- **Mining.** Clicking a block within five tiles adds to a progress counter. The block is
  removed, and counted in the inventory, after `hardness * 20` accepted hits. `game.py`
  keeps one count per target cell and restarts it when the target changes. `game.go`
  keeps one shared count.

Module layout:

- `Blocks` holds the block kinds, the shared constants, both block tables and the reach
  test.
- `Terrain` describes the world generation must build. It is stated as a function of the
  random draws, with the promised invariants proved about it. It covers heights, ground
  layers, tree footprints and the generated grid.
- `PyPlayer` models game.py's `Player` class: the collision test, the physics of `update`
  and `mine_block`. `PyGame` models game.py's `Game`: `generate_world`, `create_player`,
  the command part of `handle_input`, and one frame of `run`.
- `GoWorld` models game.go's `Block`, the `max`/`min` helpers and `generateWorld`.
  `GoGame` models game.go's `Player` and `Game`: `createPlayer`, `NewGame`,
  `checkCollision`, `updatePlayer`, `handleMining`, `handleInput` and `Update`.
- `Variants` proves where the two ports differ on the same input.

Stateful code is imperative Dafny:

- the grid is an `array2`;
- the players and games are classes whose methods state their whole new state and frame;
- the generation loops carry invariants that tie each partly built grid to `Terrain`'s
  description of it.

Each stateful computation is also given as a pure function (`Mine`, `Strike`, `PhysicsStep`,
`Generated`), and the methods are proved to agree with it. The lemmas about sequences of
hits and about the generated world are proved over those functions.

## Model

| member | source | states |
|---|---|---|
| Blocks.FirstOccupied | game.py:272-275 | the first occupied row at or below y in a column: it is occupied and every row above it is empty; None means the whole rest of the column is empty |
| Blocks.PyHardnessOf | game.py:56-66 | game.py's hardness table: exactly wood and leaves have no entry, exactly unbreakable is infinite, dirt and sand have 1, and every finite hardness lies in 1..4 |
| Blocks.GoBlockType | game.go:34-43 | game.go's table: only sand, which is not a key, gives the zero BlockType; unbreakable alone has MaxInt32; dirt, wood and leaves have hardness 1; values lie in 1..9 |
| Blocks.GoValuesDistinct | game.go:34-43 | distinct kinds in game.go's table show distinct Values |
| Blocks.WithinReach | game.py:300-308 | the mining reach of both ports (also game.go:236-243): a cell in reach has its centre less than 5 tiles (160 pixels) from the player's centre on each axis, and a cell whose centre is less than 3 tiles away on each axis is in reach |
| Blocks.ClickedCell | game.go:216-222 | the content of the cell under the mouse, as both ports index it: a cell is reported only for a click inside the grid; outside the grid or without a click there is none |
| Terrain.Clamp | game.py:178 | the clamped height lies in [ROWS/4, ROWS*3/4], is the input when that is in range, and the nearer bound otherwise |
| Terrain.HeightAt | game.py:171-178 | every surface height of the random walk lies in [ROWS/4, ROWS*3/4] |
| Terrain.HeightStep | game.py:176-178 | neighbouring columns' surfaces differ by at most 2 |
| Terrain.HeightLipschitz | game.py:174-178 | surfaces b - a columns apart differ by at most 2(b - a) |
| Terrain.GroundKind | game.py:186-204 | a cell at or below the surface is dirt exactly in the top five rows; below that it is ore or stone; diamond only above ROWS-10, gold and iron only above ROWS-5; a roll below 0.01 gives diamond and a roll of 0.08 or more gives stone |
| Terrain.TrunkCanopyDisjoint | game.py:207-227 | a tree's trunk and canopy never share a cell |
| Terrain.TreeStaysAboveGround | game.py:207-227 | a tree never reaches a cell at or below any column's surface, except its own trunk base |
| Terrain.ColumnCell | game.py:186-234 | a cell at or below the surface is wood exactly at the surface of a column with a tree, and is never unbreakable, leaves or sand |
| Terrain.AboveCell | game.py:207-227 | above the surface there is only air, wood or leaves, and a non-empty cell comes from some column's tree |
| Terrain.PartialStep | game.py:181-234 | filling column x and stamping its tree sets that column at and below its surface, the tree's canopy and trunk, and changes no other cell |
| Terrain.PassStep | game.py:186-204 | a row of the column pass other than the surface changes nothing above the surface and gives cell (y, x) its ground kind below it |
| Terrain.SurfaceStep | game.py:206-234 | the surface row of the column pass stamps the tree over what was there and fills the surface cell |
| Terrain.Generated | game.py:167-240 | the finished world: bedrock exactly on row ROWS-1; every cell at or below the surface occupied; only air, wood and leaves above it; ores at least five rows under the surface within their depth limits; no sand |
| Terrain.AboveCellSky | game.py:207-227 | no tree reaches rows 0..ROWS/4-11 |
| Terrain.GeneratedSky | game.py:167-240 | the top rows of every generated world are empty |
| PyPlayer.CellFloor | game.py:127-128 | floor division places a pixel coordinate in the cell that holds it, negative coordinates included |
| PyPlayer.CellFloorOf | game.py:127-128 | every pixel coordinate inside cell g maps back to g |
| PyPlayer.Advance | game.py:141-145 | an accepted hit makes pos the target; progress rises by 1 on the same target and is 1 on a new one |
| PyPlayer.Mine | game.py:134-152 | an empty, out-of-grid or unbreakable cell changes nothing and returns False; KeyError exactly for wood and leaves, after the hit was counted; True exactly when the advanced progress reaches 20 times the hardness, which clears progress and target; otherwise the advanced state is kept |
| PyPlayer.Step | game.py:146-151 | a call empties the cell exactly when it returns True, and otherwise leaves it |
| PyPlayer.HitsCount | game.py:141-146 | before the threshold, n consecutive hits on a new target leave progress n and the block in place |
| PyPlayer.MinedAtThreshold | game.py:141-151 | a block of hardness h is removed by exactly the 20h-th consecutive hit (40 for stone), which clears the mining state |
| PyPlayer.UnbreakableStays | game.py:139-140 | any number of hits leave an unbreakable block and the mining state untouched |
| PyPlayer.PhysicsStep | game.py:88-108 | after a physics step vel_y is at most MAX_FALL_SPEED and vel_x is scaled by 0.8; x becomes x + vel_x exactly when the horizontal probe at the old row is negative, and stays otherwise; y becomes y + vy, keeping vy, exactly when the vertical probe is negative; a refused vertical step, up or down, keeps y and sets vel_y to 0 |
| PyPlayer.StepKeepsClear | game.py:96-108 | a box whose collision test is negative keeps a negative test after the step |
| PyPlayer.StepGrounded | game.py:101-108 | on_ground is set exactly when a downward step was refused, and the player then keeps its row with vel_y 0 |
| PyPlayer.CornersMissMiddleRow | game.py:119-124 | the four corners miss the middle row: a player box at (26, 10) covers the cell in row 1, column 1, yet the test is negative when only that cell of its rows 0..2 is occupied |
| PyPlayer.AlignedCornersCover | game.py:117-132 | for a player box whose top is on a row boundary, a negative test means every cell the box covers is empty |
| PyPlayer.Player.constructor | game.py:69-86 | a new player is at the given point, at rest, airborne, with no mining target, an empty inventory and a 1 x 2 tile box |
| PyPlayer.Player.CheckCollision | game.py:117-132 | the early-exit corner scan answers true exactly when one of the four corners lies in an occupied in-grid cell |
| PyPlayer.Player.Move | game.py:88-108 | the step's computation gives the motion PhysicsStep describes |
| PyPlayer.Player.Update | game.py:88-108 | position, speeds and ground flag become those of PhysicsStep; nothing else changes |
| PyPlayer.Player.MineBlock | game.py:134-152 | outcome and mining state follow Mine; on True the cell is emptied and that kind's count rises by exactly 1; otherwise the inventory is unchanged; no other cell changes |
| PyGame.StampTree | game.py:207-227 | the tree loops set the canopy cells to leaves, the trunk cells to wood and change nothing else |
| PyGame.BaseHeights | game.py:171-178 | base_heights[x] is the clamped random walk HeightAt |
| PyGame.FillColumn | game.py:181-234 | one column pass turns the grid after x columns into the grid after x + 1 |
| PyGame.SurfaceCell | game.py:206-234 | the surface row: tree first, then dirt only where the trunk base did not fill the cell |
| PyGame.TreeSurfaceFilled | game.py:206-234 | after stamping a tree and keeping the trunk base, the grid is the column pass at the surface row |
| PyGame.BareSurfaceFilled | game.py:229-234 | without a tree, surface dirt gives the column pass at the surface row |
| PyGame.GenerateWorld | game.py:167-240 | the generated grid is, cell by cell, the world Generated describes |
| PyGame.AddBedrock | game.py:236-238 | row ROWS-1 becomes unbreakable in every column and nothing else changes |
| PyGame.ColumnSpawnsExact | game.py:261-268 | the spawns of a column are exactly its dirt cells under wood, each once, top to bottom |
| PyGame.TreeSpawnsExact | game.py:259-268 | the spawn list holds exactly the dirt-under-wood cells, each once, in column-then-row scan order |
| PyGame.SpawnLocations | game.py:259-268 | the nested scan builds exactly the ordered spawn list |
| PyGame.TopOfColumn | game.py:272-275 | the downward scan finds the first occupied row of the column |
| PyGame.ClearAboveTop | game.py:272-275 | the collision test is negative for a box placed two rows above a column's first block |
| PyGame.CreatePlayer | game.py:257-279 | as written: on a tree spawn (x, y) the player's top-left is (x, y-1) in tiles, and the new player's collision test is true at once; without spawns it stands two rows above the middle column's first block; with neither it fails (IndexError) |
| PyGame.TreeSpawnInsideTrunk | game.py:278-279 | the tree spawn as written puts the player's box inside the trunk: the collision test is true at spawn |
| PyGame.GeneratedTreeIsSpawn | game.py:207-215 | every tree of a generated world gives a spawn: its trunk base sits on dirt |
| PyGame.GeneratedColumnOccupied | game.py:236-238 | every column of a generated world has a first block, so the fallback always finds one |
| PyGame.CreatePlayerOnTreeTop | game.py:257-279 | corrected spawn: the chosen tree's column, or the middle column without trees, two rows above its first block; the collision test is negative at the spawn |
| PyGame.Setup | game.py:160-161 | a new game holds the generated world and a spawned player at the corrected spawn: two rows above the first block of the chosen tree's column, or of the middle column without trees; the collision test is negative there |
| PyGame.ClickEffect | game.py:294-309 | the mining part of handle_input on the mining state: no click, or a click out of reach, changes nothing and mines nothing; a completed hit needs an occupied in-grid cell and clears progress and target |
| PyGame.Game.constructor | game.py:155-161 | same as Setup, stored in the game |
| PyGame.Game.Steer | game.py:284-292 | left sets vel_x to -6, otherwise right sets it to 6, otherwise it is unchanged; a jump sets vel_y to -10 only on the ground |
| PyGame.Game.Click | game.py:294-309 | a click out of reach changes nothing; one within reach is one mine_block call with Mine's effect, reporting its KeyError; on True the cell is emptied and its kind credited once; no other cell or inventory entry changes |
| PyGame.Game.HandleInput | game.py:281-309 | the steering rule, then the click's effect on the mining state, inventory and grid as Click states it; a KeyError is raised exactly on a within-reach click on wood or leaves; cells only ever become empty, so a negative collision test stays negative |
| PyGame.Game.Tick | game.py:409-410 | one frame: the click's effect on the mining state, inventory and grid; stopped exactly on the click's KeyError, and then the steered speeds with position and ground flag kept; otherwise the motion is PhysicsStep from the steered speeds; a negative collision test stays negative |
| GoWorld.Placed | game.go:130-157 | a placed block carries its kind and that kind's Value, which lies in 1..9 |
| GoWorld.Lift | game.go:153-157 | game.go stores an empty cell as nil and a kind as a block with its Value |
| GoWorld.Max | game.go:378-383 | max is an upper bound and one of its arguments |
| GoWorld.Min | game.go:385-390 | min over ints is a lower bound and one of its arguments |
| GoWorld.MinReal | game.go:385-390 | min over float64 is a lower bound and one of its arguments |
| GoWorld.StampTree | game.go:126-150 | the tree loops set the canopy to leaves blocks, the trunk to wood blocks and change nothing else |
| GoWorld.BaseHeights | game.go:86-98 | baseHeights[i] is the clamped random walk HeightAt |
| GoWorld.FillColumn | game.go:101-160 | one terrain iteration turns the grid after x columns into the grid after x + 1 |
| GoWorld.SurfaceCell | game.go:125-158 | the surface row: tree first, then dirt only where the trunk base did not fill the cell |
| GoWorld.TreeSurfaceFilled | game.go:125-158 | after stamping a tree, the grid is the column pass at the surface row |
| GoWorld.BareSurfaceFilled | game.go:153-158 | without a tree, surface dirt gives the column pass at the surface row |
| GoWorld.AddBedrock | game.go:163-169 | row ROWS-1 becomes unbreakable in every column and nothing else changes |
| GoWorld.GenerateWorld | game.go:79-170 | the generated grid is, cell by cell, the world Generated describes with each kind placed as a block |
| GoWorld.GeneratedValues | game.go:130-169 | every block of a generated world shows its kind's Value, in 1..9, and none is sand |
| GoGame.CellTrunc | game.go:286-287 | truncating division places a non-negative coordinate in the cell that holds it and rounds a negative one up, to the cell boundary at or above it |
| GoGame.CellTruncOf | game.go:286-287 | every non-negative pixel coordinate inside cell g maps back to g |
| GoGame.ClearAboveTop | game.go:174-179 | the collision test is negative for a box placed two rows above a column's first block, below the top two rows |
| GoGame.Strike | game.go:226-250 | an empty or unbreakable cell, or one out of reach, changes nothing; otherwise progress rises by exactly 1, and the block is extracted exactly when it reaches Hardness*20, which resets progress to 0 |
| GoGame.StrikesCount | game.go:243-248 | before the threshold each hit adds exactly 1 to whatever progress was there |
| GoGame.ExtractedAfter | game.go:243-248 | starting from carried-over progress p, the block comes out on the first hit that brings p up to Hardness*20 |
| GoGame.PhysicsStep | game.go:252-275 | after updatePlayer VelY is at most MAX_FALL_SPEED; there is no friction; X becomes X + VelX exactly when the horizontal probe at the old row is negative, and stays otherwise; Y becomes Y + vy, keeping vy, exactly when the vertical probe is negative; a refused vertical step, up or down, keeps Y and sets VelY to 0 |
| GoGame.StepKeepsClear | game.go:260-274 | a box whose collision test is negative keeps a negative test after the step |
| GoGame.StepGrounded | game.go:265-274 | OnGround is set exactly when a downward step was refused, and the player then keeps its row with VelY 0 |
| GoGame.Player.constructor | game.go:181-189 | the player literal: at the given point, at rest, no progress, an empty inventory and a 1 x 2 tile box |
| GoGame.CreatePlayer | game.go:172-190 | the player stands at the middle column, two rows above its first block, or at row 0 when the column is empty |
| GoGame.Setup | game.go:70-77 | a new game holds the generated world and a player at the middle column, two rows above its first block, which lies below the top two rows; the collision test is negative there |
| GoGame.ClickEffect | game.go:214-250 | the mining part of handleInput on the progress counter: no click, a click outside the grid or out of reach changes nothing; an extraction needs an occupied in-grid cell and resets progress to 0 |
| GoGame.Game.constructor | game.go:70-77 | same as Setup, stored in the game |
| GoGame.Game.CheckCollision | game.go:277-295 | the early-exit corner scan answers true exactly when one corner, mapped by truncation, lies in an occupied in-grid cell |
| GoGame.Game.Move | game.go:252-275 | the step's computation gives the motion PhysicsStep describes |
| GoGame.Game.UpdatePlayer | game.go:252-275 | position, VelY and OnGround become those of PhysicsStep; nothing else changes |
| GoGame.Game.HandleMining | game.go:226-250 | progress follows Strike with the reach test; on extraction the cell is emptied and that kind's count rises by exactly 1; otherwise the inventory is unchanged; no other cell changes |
| GoGame.Game.Steer | game.go:199-212 | left sets VelX to -6, otherwise right sets it to 6, otherwise friction scales it by 0.8; a jump sets VelY to -10 only on the ground |
| GoGame.Game.Click | game.go:214-223 | a click outside the grid changes nothing; one inside is a handleMining call with Strike's effect; on extraction the cell is emptied and its kind credited once; no other cell or inventory entry changes |
| GoGame.Game.HandleInput | game.go:199-224 | the steering rule, then the click's effect on progress, inventory and grid as Click states it; cells only ever become empty, so a negative collision test stays negative |
| GoGame.Game.Tick | game.go:192-197 | one Update: the click's effect on progress, inventory and grid; VelX is the steered speed and the rest of the motion is PhysicsStep from the steered speeds; a negative collision test stays negative |
| Variants.TargetSwitchRestarts | game.py:141-146 | in game.py, 19 to 39 hits on stone followed by a hit on dirt leave the dirt in place with progress 1 |
| Variants.TargetSwitchCarriesOver | game.go:243-248 | in game.go, the same hits carry over, so the dirt comes out on the first hit |
| Variants.WoodDiverges | game.py:145-146 | wood raises KeyError on the first hit in game.py, but takes 20 hits in game.go, with progress n after n < 20 |
| Variants.CellMapping | game.go:286-287 | floor and truncation agree on non-negative coordinates; on (-32, 0) game.py gives column -1 and game.go column 0 |
| Variants.SameSolid | game.go:285-293 | on grids holding the same kinds, a non-negative point is solid in one port exactly when it is in the other |
| Variants.SameCollisionOnGrid | game.go:277-295 | on grids holding the same kinds, a box at non-negative coordinates collides in one port exactly when it does in the other |
| Variants.LeftEdgeDiverges | game.go:285-293 | a box just left of the grid beside an occupied top-left cell is clear in game.py but collides in game.go |

## Left out

- Rendering is not modelled: textures (`generate_block_texture`), parallax, `draw`, the UI, the camera and the day/night clock only feed the display.
- Input polling is not modelled. The commands (left, right, jump, and the cell under the mouse) are parameters, and the cursor-plus-camera conversion to a cell is left out.
- Random draws are a `Draws` record indexed by the column (and row) that uses them. The order in which the generator consumes draws is not modelled; game.py also spends draws on textures. `random.choice` is an index `pick` taken modulo the number of spawns.
- Floating point is modelled with exact reals. `sqrt(d) < 160` is compared as `d < 160 * 160`. No claim is made about friction converging to 0.
- Animation, health, `max_health`, `selected_slot`, `mining_cooldown` and `direction` are left out; they never affect the simulation.
- game.go's `MiningTarget` field is left out because no code reads or writes it.
- game.go's `int` is taken as 64-bit, so `Hardness * 20` cannot overflow. The MaxInt32 hardness of unbreakable is never used, because that cell is rejected first.
- PyGame.Setup uses the corrected spawn `CreatePlayerOnTreeTop`, not `create_player` as written (see Findings).
- PyGame.Game.constructor uses the corrected spawn through `Setup`, not `create_player` as written (see Findings).
- PyGame.Game.Tick: the KeyError that game.py raises out of `run` is modelled as `stopped`, and the physics step of that frame is skipped. The exception itself and the end of the program are not modelled.
- Sand never appears in a generated world. game.go's missing sand entry (the zero BlockType) is modelled but never reached.
- The event loop, window setup and `main` are not modelled.

## Findings

| source | as written | input that shows it | evidently intended | confidence | as-written member | corrected member |
|---|---|---|---|---|---|---|
| game.py:278-279 | a tree spawn (x, y) is a dirt cell under wood, and the player's top-left goes to tile (x, y - 1): the wood cell of the trunk base, so the new player's box overlaps the tree | any generated world with a tree in some column x (tree roll below 0.2): it offers spawn (x, height + 1), and the player created there collides at once | the player stands on top of the chosen column, with a negative collision test, as the fallback branch does for the middle column | not executed | PyGame.CreatePlayer, PyGame.TreeSpawnInsideTrunk, PyGame.GeneratedTreeIsSpawn | PyGame.CreatePlayerOnTreeTop |
