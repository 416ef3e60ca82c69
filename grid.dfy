/**
 * One layer of the world: a w x h x depth block of integers, and the
 * neighbour count the game loop takes over the committed layer.
 */
module Grid {
  import opened Torus

  /** (x, y, z) addresses a cell of `world`. */
  predicate InBounds(world: array3<int>, x: int, y: int, z: int)
  {
    0 <= x < world.Length0 && 0 <= y < world.Length1 && 0 <= z < world.Length2
  }

  /** A layer's contents as a value: Snapshot(world)[x][y][z] is world[x, y, z]. */
  type Layer = seq<seq<seq<int>>>

  /** The layer value is a block of side lengths n0 x n1 x n2. */
  ghost predicate IsBlock(f: Layer, n0: int, n1: int, n2: int)
  {
    |f| == n0 && forall x :: 0 <= x < n0 ==> |f[x]| == n1 && forall y :: 0 <= y < n1 ==> |f[x][y]| == n2
  }

  /** The current contents of `world`. */
  ghost function Snapshot(world: array3<int>): (f: Layer)
    reads world
    ensures IsBlock(f, world.Length0, world.Length1, world.Length2)
    ensures forall x, y, z :: InBounds(world, x, y, z) ==> f[x][y][z] == world[x, y, z]
  {
    seq(world.Length0, x requires 0 <= x < world.Length0 reads world =>
      seq(world.Length1, y requires 0 <= y < world.Length1 reads world =>
        seq(world.Length2, z requires 0 <= z < world.Length2 reads world => world[x, y, z])))
  }

  /** Every cell holds 0 (dead) or 1 (alive). */
  ghost predicate Binary(world: array3<int>)
    reads world
  {
    forall x, y, z :: InBounds(world, x, y, z) ==> 0 <= world[x, y, z] <= 1
  }

  /**
   * The number of live cells among the 24 cells the game loop counts as
   * neighbours of (x, y, z): the eight cells around it in its own z-plane
   * and the same eight positions in the planes z + 1 and z - 1. The cells
   * (x, y, z + 1) and (x, y, z - 1) directly above and below are not among
   * them. Every axis wraps around on its own.
   */
  function Neighbors(world: array3<int>, x: int, y: int, z: int): (r: int)
    reads world
    requires InBounds(world, x, y, z)
    ensures Binary(world) ==> 0 <= r <= 24
  {
    var w, h, depth := world.Length0, world.Length1, world.Length2;
    world[Succ(x, w), y, z] +
    world[x, Succ(y, h), z] +
    world[Pred(x, w), y, z] +
    world[x, Pred(y, h), z] +
    world[Succ(x, w), Succ(y, h), z] +
    world[Pred(x, w), Succ(y, h), z] +
    world[Succ(x, w), Pred(y, h), z] +
    world[Pred(x, w), Pred(y, h), z] +
    world[Succ(x, w), y, Succ(z, depth)] +
    world[x, Succ(y, h), Succ(z, depth)] +
    world[Pred(x, w), y, Succ(z, depth)] +
    world[x, Pred(y, h), Succ(z, depth)] +
    world[Succ(x, w), Succ(y, h), Succ(z, depth)] +
    world[Pred(x, w), Succ(y, h), Succ(z, depth)] +
    world[Succ(x, w), Pred(y, h), Succ(z, depth)] +
    world[Pred(x, w), Pred(y, h), Succ(z, depth)] +
    world[Succ(x, w), y, Pred(z, depth)] +
    world[x, Succ(y, h), Pred(z, depth)] +
    world[Pred(x, w), y, Pred(z, depth)] +
    world[x, Pred(y, h), Pred(z, depth)] +
    world[Succ(x, w), Succ(y, h), Pred(z, depth)] +
    world[Pred(x, w), Succ(y, h), Pred(z, depth)] +
    world[Succ(x, w), Pred(y, h), Pred(z, depth)] +
    world[Pred(x, w), Pred(y, h), Pred(z, depth)]
  }

  /** The cell at offset (dx, dy, dz), each in [-1, 1], from (x, y, z); each axis wraps on its own. */
  function NeighborCell(world: array3<int>, x: int, y: int, z: int, dx: int, dy: int, dz: int): (r: (int, int, int))
    requires InBounds(world, x, y, z) && -1 <= dx <= 1 && -1 <= dy <= 1 && -1 <= dz <= 1
    ensures InBounds(world, r.0, r.1, r.2)
  {
    (Step(x, dx, world.Length0), Step(y, dy, world.Length1), Step(z, dz, world.Length2))
  }

  /** The entry at offset (dx, dy, dz) from (x, y, z). */
  function Offset(world: array3<int>, x: int, y: int, z: int, dx: int, dy: int, dz: int): int
    reads world
    requires InBounds(world, x, y, z) && -1 <= dx <= 1 && -1 <= dy <= 1 && -1 <= dz <= 1
  {
    var c := NeighborCell(world, x, y, z, dx, dy, dz);
    world[c.0, c.1, c.2]
  }

  /** Term by term, Neighbors reads the cells at the 24 offsets with (dx, dy) != (0, 0). */
  lemma NeighborsAtOffsets(world: array3<int>, x: int, y: int, z: int)
    requires InBounds(world, x, y, z)
    ensures Neighbors(world, x, y, z)
         == Offset(world, x, y, z, 1, 0, 0) +
         Offset(world, x, y, z, 0, 1, 0) +
         Offset(world, x, y, z, -1, 0, 0) +
         Offset(world, x, y, z, 0, -1, 0) +
         Offset(world, x, y, z, 1, 1, 0) +
         Offset(world, x, y, z, -1, 1, 0) +
         Offset(world, x, y, z, 1, -1, 0) +
         Offset(world, x, y, z, -1, -1, 0) +
         Offset(world, x, y, z, 1, 0, 1) +
         Offset(world, x, y, z, 0, 1, 1) +
         Offset(world, x, y, z, -1, 0, 1) +
         Offset(world, x, y, z, 0, -1, 1) +
         Offset(world, x, y, z, 1, 1, 1) +
         Offset(world, x, y, z, -1, 1, 1) +
         Offset(world, x, y, z, 1, -1, 1) +
         Offset(world, x, y, z, -1, -1, 1) +
         Offset(world, x, y, z, 1, 0, -1) +
         Offset(world, x, y, z, 0, 1, -1) +
         Offset(world, x, y, z, -1, 0, -1) +
         Offset(world, x, y, z, 0, -1, -1) +
         Offset(world, x, y, z, 1, 1, -1) +
         Offset(world, x, y, z, -1, 1, -1) +
         Offset(world, x, y, z, 1, -1, -1) +
         Offset(world, x, y, z, -1, -1, -1)
  {
  }

  /**
   * The 24 terms of Neighbors read the cells at the offsets with (dx, dy)
   * != (0, 0). When every side is at least 3, different offsets name
   * different cells, so the terms count 24 distinct cells, none of them
   * the cell itself or the cells directly above and below it.
   */
  lemma NeighborCellsDistinct(world: array3<int>, x: int, y: int, z: int,
                              dx: int, dy: int, dz: int, ex: int, ey: int, ez: int)
    requires InBounds(world, x, y, z)
    requires world.Length0 >= 3 && world.Length1 >= 3 && world.Length2 >= 3
    requires -1 <= dx <= 1 && -1 <= dy <= 1 && -1 <= dz <= 1
    requires -1 <= ex <= 1 && -1 <= ey <= 1 && -1 <= ez <= 1
    ensures NeighborCell(world, x, y, z, dx, dy, dz) == NeighborCell(world, x, y, z, ex, ey, ez)
        <==> dx == ex && dy == ey && dz == ez
  {
    StepInjective(x, world.Length0, dx, ex);
    StepInjective(y, world.Length1, dy, ey);
    StepInjective(z, world.Length2, dz, ez);
  }

  // A reference definition of the count, on the endless tiling of the grid.

  /** The cell at unbounded coordinates (x, y, z) of the tiled grid. */
  function At(world: array3<int>, x: int, y: int, z: int): int
    reads world
    requires world.Length0 > 0 && world.Length1 > 0 && world.Length2 > 0
  {
    world[Wrap(x, world.Length0), Wrap(y, world.Length1), Wrap(z, world.Length2)]
  }

  /** The three cells x - 1, x, x + 1 of the tiled grid's row (y, z). */
  function Row(world: array3<int>, x: int, y: int, z: int): int
    reads world
    requires world.Length0 > 0 && world.Length1 > 0 && world.Length2 > 0
  {
    At(world, x - 1, y, z) + At(world, x, y, z) + At(world, x + 1, y, z)
  }

  /** The 3 x 3 square centred on (x, y) in the tiled grid's plane z. */
  function Square(world: array3<int>, x: int, y: int, z: int): int
    reads world
    requires world.Length0 > 0 && world.Length1 > 0 && world.Length2 > 0
  {
    Row(world, x, y - 1, z) + Row(world, x, y, z) + Row(world, x, y + 1, z)
  }

  /** The 3 x 3 x 3 block centred on (x, y, z): the cell and its 26 Moore neighbours. */
  function Block(world: array3<int>, x: int, y: int, z: int): int
    reads world
    requires world.Length0 > 0 && world.Length1 > 0 && world.Length2 > 0
  {
    Square(world, x, y, z - 1) + Square(world, x, y, z) + Square(world, x, y, z + 1)
  }

  /**
   * The game loop's count is the 3 x 3 x 3 toroidal block around the cell
   * minus its vertical column: the cell itself and the two cells directly
   * above and below it (a 24-cell neighbourhood, not the 26-cell Moore one).
   */
  lemma NeighborsIsBlockMinusColumn(world: array3<int>, x: int, y: int, z: int)
    requires InBounds(world, x, y, z)
    ensures Neighbors(world, x, y, z)
         == Block(world, x, y, z) - At(world, x, y, z - 1) - At(world, x, y, z) - At(world, x, y, z + 1)
  {
    var w, h, depth := world.Length0, world.Length1, world.Length2;
    StepsAreTiling(x, w);
    StepsAreTiling(y, h);
    StepsAreTiling(z, depth);
    assert Wrap(x, w) == x && Wrap(y, h) == y && Wrap(z, depth) == z;
  }
}
