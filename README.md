# 3D Game of Life: the simulation engine

A Dafny model of the simulation engine of a cubic three-dimensional Game of
Life (`Main.java`). The world is a cube of cells on a torus. Each cell holds
two integers:

- a committed value: 1 alive, 0 dead;
- a pending flag: 1 means the cell is born at the next commit, -1 means it
  dies, 0 means no change.

One tick of the game loop runs two loops over the cube in i-j-k order:

- The commit loop applies every pending flag to its cell and clears the flag.
- The rule loop counts each cell's live neighbours in the committed layer and
  sets a fresh flag. The count wraps around on every axis. The rule takes four
  thresholds (slider defaults 4, 10, 10, 4; slider range 0..26).

Setting up a game allocates an all-zero cube. A preset then flags its cells to
be born, and they come alive at the first commit.

Modules, one file each:

- `Torus` (`torus.dfy`): the per-axis wraparound steps.
- `Grid` (`grid.dfy`): a layer, the 24-term neighbour count, and a reference
  definition of that count on the tiled grid.
- `Rules` (`rules.dfy`): the per-cell commit step and rule step, and the
  thresholds.
- `Changes` (`changes.dfy`): the list of births and deaths a commit reports,
  in scan order.
- `Presets` (`presets.dfy`): the deterministic presets, their seeding loops,
  and how many cells each one seeds.
- `RandomDraws` (`draws.dfy`): the random generator's values, taken as an
  input stream.
- `RandomPreset` (`random.dfy`): the random preset. Each iteration flags the
  position it draws.
- `WeirdCorners` (`corners.dfy`): the weird-corners preset. Each loop test
  draws a fresh bound for its loop.
- `Life` (`life.dfy`): the class `World`, which holds the two layers as
  `array3<int>` fields, plus setup, the commit loop, the rule loop and a tick.

Four facts of the code are easy to miss:

- The neighbour count has 24 terms, not the 26 of a Moore neighbourhood. It
  leaves out the cells directly above and below, (x, y, z ± 1). See
  `Grid.NeighborsIsBlockMinusColumn`.
- The code never validates the rule thresholds. No threshold combination is
  rejected: a tick accepts any four integers.
- Presets write the pending layer, not the committed one. Seeded cells are
  alive only after the next commit (`Life.World.FirstTick`).
- The weird-corners preset draws a new bound at every test of each of its
  three loops, not once per loop. Its rows can differ in length, so the
  cells it seeds are in general not one box (`WeirdCorners.SampleIsNotBox`).

## Model

| member | source | states |
|---|---|---|
| Torus.Succ | Main.java:414-437 | the index `(c + 1) % m` stays in [0, m); the last cell wraps to 0, every other cell steps to c + 1 |
| Torus.Pred | Main.java:414-437 | the index `(c + m - 1) % m` stays in [0, m); cell 0 wraps to m - 1, every other cell steps to c - 1 |
| Torus.SuccPredInverse | Main.java:414-437 | the forward and backward steps undo each other |
| Torus.StepsAreTiling | Main.java:414-437 | both steps are c + 1 and c - 1 taken modulo m, so each axis wraps on its own |
| Torus.StepsAreDistinct | Main.java:414-437 | on an axis of length at least 2 a step reaches another cell; from length 3 on, the two steps reach different cells |
| Torus.StepInjective | Main.java:414-437 | on an axis of length at least 3 the offsets -1, 0 and +1 reach three different cells |
| Grid.Neighbors | Main.java:412-437 | the sum of the 24 committed entries the game loop reads; when every entry is 0 or 1 the count lies in [0, 24] |
| Grid.NeighborsAtOffsets | Main.java:412-437 | the count is the sum of the entries at the 24 offsets (dx, dy, dz) in [-1, 1]^3 with (dx, dy) != (0, 0), each axis wrapping on its own, in the game loop's order |
| Grid.NeighborCellsDistinct | Main.java:412-437 | with every side at least 3, two offsets in [-1, 1]^3 name the same cell iff they are equal; with Grid.NeighborsAtOffsets, the 24 cells the count reads are distinct and none is the cell or the cells directly above and below it |
| Grid.NeighborsIsBlockMinusColumn | Main.java:414-437 | the count equals the toroidal 3 x 3 x 3 block around the cell minus the cell and the two cells directly above and below it |
| Rules.NextFlag | Main.java:388-398 | a dead cell with birthLow <= count <= birthHigh is flagged 1; a live cell with count > deathAbove or count < deathBelow is flagged -1; otherwise the flag is kept; a valid flag that agrees with its cell stays so |
| Rules.FreshFlag | Main.java:388-398 | starting from flag 0, the new flag is 1 iff the birth test passes, -1 iff the death test passes, and 0 iff neither passes |
| Rules.DefaultRulesInRange | Main.java:35 | the default thresholds 4, 10, 10, 4 lie in the slider range [0, 26], and their birthLow is positive, which is what Life.World.QuietTick requires |
| Rules.Applied | Main.java:358-377 | flag 1 makes the cell 1, flag -1 makes it 0, flag 0 keeps it; 0/1 cells stay 0/1; a consistent flag changes the cell iff it is nonzero |
| Changes.ChangeList | Main.java:352-380 | the records of a commit: exactly one per cell flagged 1 (Born) or -1 (Died) and no other, in strictly increasing i-j-k scan order |
| Changes.NoFlagsNoChanges | Main.java:358-374 | with no flag pending, a commit reports nothing |
| Changes.ChangeListCell | Main.java:358-374 | cell (x, y, z) is reported Born iff its flag is 1, and Died iff its flag is -1 |
| Presets.SeedTwoWalls | Main.java:174-185 | on an all-zero cube the loop flags exactly the cells with i = 0 or i = N - 1, and leaves every other cell 0 |
| Presets.SeedHalfsies | Main.java:200-213 | on an all-zero cube the loop flags exactly the cells with i, j, k < N / 2 |
| Presets.SeedTriangular | Main.java:214-225 | on an all-zero cube the loop flags exactly the cells with k < j < i |
| Presets.SeedSingleBeam | Main.java:226-231 | on an all-zero cube the loop flags exactly the diagonal cells (i, i, i) |
| Presets.TwoWallsChangeCount | Main.java:174-185 | the two-walls flags on a cube of side n >= 2 make a commit report 2 * n * n records |
| Presets.SingleBeamChangeCount | Main.java:226-231 | the single-beam flags on a cube of side n make a commit report n records |
| Presets.SeedsAreBorn | Main.java:352-380 | committing a preset's flags reports a birth for every seeded cell and nothing else, and gives the two counts above |
| RandomPreset.Targets | Main.java:168-171 | the positions of the first `count` iterations, one per iteration, iteration m's being the draws 3m, 3m + 1 and 3m + 2 in the order i, j, k |
| RandomPreset.TargetIffDrawn | Main.java:168-171 | a cell is a target iff one of the `count` iterations drew it |
| RandomPreset.TargetsInCube | Main.java:170 | with every draw in [0, n), every drawn position lies in the cube |
| RandomPreset.SeededAtMost | Main.java:168-171 | `count` iterations seed at most `count` distinct cells; a position drawn twice seeds nothing new |
| RandomPreset.SeedRandom | Main.java:168-171 | on an all-zero cube the loop flags exactly the drawn positions and leaves every other cell 0; it draws three rolls per iteration |
| WeirdCorners.RowRun | Main.java:192-195 | a row's loop writes between 0 and n cells and draws one roll per test: one per written cell plus the failing test |
| WeirdCorners.PlaneRun | Main.java:190-196 | the j loop of one plane, one fresh draw per test: it runs at most n - j rows, each row's loop starting at the draw after the passing test, and ends after its start |
| WeirdCorners.CubeRun | Main.java:188-197 | the i loop, one fresh draw per test: it runs at most n - i planes, each plane's loop starting at the draw after the passing test, and ends after its start |
| WeirdCorners.RowRunTests | Main.java:192-195 | the k loop goes on while each fresh draw exceeds the counter and stops at the first draw that does not |
| WeirdCorners.CornersInCube | Main.java:188-197 | every cell the preset seeds lies in the cube, so none of its writes is out of bounds |
| WeirdCorners.OriginSeeded | Main.java:188-197 | the corner cell (0, 0, 0) is seeded iff the first draws of the i, j and k loops are all positive |
| WeirdCorners.CubeDraws | Main.java:188-197 | the three loops draw exactly one roll per test, whichever loop makes it, so the stream advances at every test |
| WeirdCorners.SampleIsNotBox | Main.java:188-197 | for the draws 1, 2, 1, 0, 2, 2, 2, 0, 0, 0 on the 3-cube the run seeds rows of lengths 1 and 2, so (0, 1, 1) is seeded and (0, 0, 1) is not: the seeded cells are not a box |
| WeirdCorners.CornerRow | Main.java:192-195 | the k loop of row (i, j) writes exactly the row's RowRun length of first cells and leaves the rest of the cube as it was |
| WeirdCorners.CornerPlanes | Main.java:188-197 | the i loop with a fresh bound drawn at every test: it writes exactly the planes CubeRun gives and draws exactly CubeRun's rolls |
| WeirdCorners.CornerPlane | Main.java:190-196 | the j loop of plane i writes exactly the rows PlaneRun gives and nothing else |
| WeirdCorners.SeedWeirdCorners | Main.java:188-197 | on an all-zero cube the loops flag exactly the cells Corners(rolls, n) describes and leave every other cell 0; the number of rolls drawn is that of CubeRun |
| Life.World.SetupGame | Main.java:154-233 | a fresh cube of the given side with every committed value 0 and pending 1 exactly on the preset's cells; the world invariant holds |
| Life.World.SetupRandom | Main.java:154-173 | a fresh all-zero cube of the given side whose pending layer is 1 exactly on the drawn positions; the world invariant holds |
| Life.World.SetupWeirdCorners | Main.java:154-199 | a fresh all-zero cube of the given side whose pending layer is 1 exactly on the weird-corners cells; the world invariant holds |
| Life.World.Commit | Main.java:352-380 | every cell becomes Applied(old value, old flag), every flag becomes 0, the invariant is kept, and the records are the change list of the old flags |
| Life.World.CommitPlanes | Main.java:352-380 | the i loop of the commit: every plane ends committed with its flags cleared, and the records are the change list of the flags it started from |
| Life.World.CommitPlane | Main.java:354-379 | the j loop for plane i: the plane ends committed with its flags cleared, the planes after it untouched, and its records are the plane's entries in the change list |
| Life.World.CommitRow | Main.java:356-378 | the k loop for row (i, j): the row ends committed with its flags cleared, later cells untouched, and its records are the row's entries in the change list |
| Life.World.CommitCell | Main.java:358-377 | one commit step on cell (i, j, k): it takes the snapshot's value with the flag applied and its flag is cleared; its record is the cell's entry in the change list |
| Life.World.ComputeFlags | Main.java:383-401 | writes only the pending layer; every flag becomes NextFlag of the cell, its count in the unchanged committed layer, and its old flag; the invariant is kept |
| Life.World.FlagPlanes | Main.java:383-401 | the i loop of the rule loop: every flag ends as NextFlag over the committed layer, which it does not write |
| Life.World.FlagPlane | Main.java:385-400 | the j loop for plane i: the plane's flags are recomputed, the flags of later planes keep their old values |
| Life.World.FlagRow | Main.java:387-399 | the k loop for row (i, j): the row's flags are recomputed, the flags of later cells keep their old values |
| Life.World.FlagCell | Main.java:388-398 | the birth test and then the death test on cell (i, j, k); no other flag changes |
| Life.World.Tick | Main.java:352-401 | a commit followed by the rule loop. Every cell holds its old value with its old flag applied. Every flag is the fresh rule flag of the new generation. Born is reported exactly for the cells that went 0 to 1 and Died exactly for those that went 1 to 0, in scan order |
| Life.World.FirstTick | Main.java:352-401 | the tick right after a preset leaves alive exactly the preset's cells and reports only births of seeded cells of the cube, one per seeded cell (2 * n * n for two walls when n >= 2, n for the beam); every flag is then the rule flag of the new generation |
| Life.World.FirstSeededTick | Main.java:352-401 | the tick right after any setup that flagged a set of cells on an all-zero world leaves exactly those cells alive; the records are exactly their births, all inside the cube, one per seeded cell, in scan order; every flag is then the rule flag of the new generation |
| Life.World.QuietTick | Main.java:352-401 | a dead world with nothing pending and a positive birthLow stays dead with nothing pending, and the tick reports no record |
| Life.NewRandomGame | Main.java:154-173 | a random game on the 30-cube ticked once has exactly the positions drawn by its 1350 iterations alive; the records are exactly their births, all inside the cube, in scan order; the world and both layers are freshly allocated, so the caller can go on ticking it, and every flag is the rule flag of the new generation |
| Life.NewCornersGame | Main.java:154-199 | a weird-corners game on the 30-cube ticked once has exactly the Corners cells alive; the records are exactly their births, all inside the cube, in scan order; the world and both layers are freshly allocated, so the caller can go on ticking it, and every flag is the rule flag of the new generation |
| Life.NewGame | Main.java:154-233 | a game set up on the 30-cube and ticked once has exactly the preset's cells alive and reports only births of seeded cells inside the cube; the two walls report 1800 births and the single beam 30; the world and both layers are freshly allocated, so the caller can go on ticking it, and every flag is the rule flag of the new generation |

## Left out

- Cell nodes, materials and the spawn and death animations (Cell.java and the node calls inside the commit loop). They are rendering only. The commit loop instead returns the list of (i, j, k, Born or Died) records, in the order the node calls happen.
- The camera, mouse and scroll handlers, the toolbar, the buttons, and the construction of the sliders and the scene: user-interface code.
- The one-second timing gate and the cube rotation at the start of each frame. These depend on the wall clock, so a tick is a direct call.
- The generator `java.util.Random` itself. Its successive values are an input stream `rolls`; every value lies in [0, N), as `nextInt(N)` promises (`RandomDraws.Draws`).
- RandomPreset.SeedRandom: the loop bound is an input `count`, not the float product `0.05f * w * h * depth`. The program's 30-cube uses `RandomPreset.RandomCount` = 1350, the value that product has there.
- Preset numbers other than 0..5, which seed nothing. The `Preset` type holds the four deterministic presets; the random and weird-corners presets have their own setup methods, `Life.World.SetupRandom` and `Life.World.SetupWeirdCorners`.
- Reading the thresholds from the sliders, including the `(int)` cast of the slider's double value. The rule loop takes the four integer thresholds as a `RuleSet`; the slider range [0, 26] is `Rules.InSliderRange`, and a tick does not depend on it.
- The Java `int` width. Every count lies in [0, 24] and every index in [0, N), so nothing can overflow.
- The grid side is a parameter of `Life.World.SetupGame`; the program always uses 30 (`Life.GridSize`, used by `Life.NewGame`). The side lengths w, h and depth are the array's dimensions.
- The step size BOX_SIZE is fixed at 1 in the program and is written as 1.
- Life.World.Commit, Life.World.ComputeFlags, WeirdCorners.SeedWeirdCorners: each triple loop is split into one method per loop level (planes, plane, row, cell), so the cell-by-cell updates and their order are the source's.
