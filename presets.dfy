/**
 * The deterministic presets of the game setup, and the loops that write
 * them into a freshly zeroed pending layer. A preset only flags cells to be
 * born; they come alive at the next commit.
 */
module Presets {
  import opened Grid
  import opened Changes

  /** The deterministic presets, with their toolbar button index. */
  datatype Preset =
    | TwoWalls     // button 1: the walls x = 0 and x = N - 1
    | Halfsies     // button 3: the corner cube [0, N/2)^3
    | Triangular   // button 4: the cells with k < j < i
    | SingleBeam   // button 5: the main diagonal (i, i, i)

  /** Cell (i, j, k) of a grid of side n belongs to the preset's pattern. */
  predicate Seeded(preset: Preset, n: int, i: int, j: int, k: int)
  {
    match preset
    case TwoWalls => i == 0 || i == n - 1
    case Halfsies => i < n / 2 && j < n / 2 && k < n / 2
    case Triangular => k < j && j < i
    case SingleBeam => i == j && j == k
  }

  /** The layer is a cube of side n. */
  predicate IsCube(world: array3<int>, n: int)
  {
    world.Length0 == n && world.Length1 == n && world.Length2 == n
  }

  /** Every cell of the layer holds 0. */
  ghost predicate AllZero(world: array3<int>)
    reads world
  {
    forall x, y, z :: InBounds(world, x, y, z) ==> world[x, y, z] == 0
  }

  /** The layer flags exactly the preset's pattern with 1 and holds 0 elsewhere. */
  ghost predicate HoldsPattern(world: array3<int>, preset: Preset, n: int)
    reads world
  {
    forall x, y, z :: InBounds(world, x, y, z) ==>
      world[x, y, z] == if Seeded(preset, n, x, y, z) then 1 else 0
  }

  /** The cells of the pattern the loops have reached so far hold 1, all others 0. */
  ghost predicate SeededUpTo(world: array3<int>, preset: Preset, n: int, i: int, j: int, k: int)
    reads world
  {
    forall x, y, z :: InBounds(world, x, y, z) ==>
      world[x, y, z] == if Seeded(preset, n, x, y, z) && ScannedBefore(x, y, z, i, j, k) then 1 else 0
  }

  /** Two walls: for every (j, k), flag (0, j, k) and (N - 1, j, k). */
  method SeedTwoWalls(world: array3<int>, n: int)
    requires IsCube(world, n) && AllZero(world)
    modifies world
    ensures HoldsPattern(world, TwoWalls, n)
  {
    var j := 0;
    while j < n
      invariant 0 <= j <= n
      invariant forall x, y, z :: InBounds(world, x, y, z) ==>
        world[x, y, z] == if Seeded(TwoWalls, n, x, y, z) && y < j then 1 else 0
    {
      var k := 0;
      while k < n
        invariant 0 <= k <= n
        invariant forall x, y, z :: InBounds(world, x, y, z) ==>
          world[x, y, z] == if Seeded(TwoWalls, n, x, y, z) && (y < j || (y == j && z < k)) then 1 else 0
      {
        world[0, j, k] := 1;
        world[n - 1, j, k] := 1;
        k := k + 1;
      }
      j := j + 1;
    }
  }

  /** Halfsies: flag every (i, j, k) with i, j, k < N / 2. */
  method SeedHalfsies(world: array3<int>, n: int)
    requires IsCube(world, n) && AllZero(world)
    modifies world
    ensures HoldsPattern(world, Halfsies, n)
  {
    var i := 0;
    while i < n / 2
      invariant 0 <= i <= n / 2
      invariant SeededUpTo(world, Halfsies, n, i, 0, 0)
    {
      var j := 0;
      while j < n / 2
        invariant 0 <= j <= n / 2
        invariant SeededUpTo(world, Halfsies, n, i, j, 0)
      {
        var k := 0;
        while k < n / 2
          invariant 0 <= k <= n / 2
          invariant SeededUpTo(world, Halfsies, n, i, j, k)
        {
          world[i, j, k] := 1;
          k := k + 1;
        }
        j := j + 1;
      }
      i := i + 1;
    }
  }

  /** Triangular: flag every (i, j, k) with k < j < i < N. */
  method SeedTriangular(world: array3<int>, n: int)
    requires IsCube(world, n) && AllZero(world)
    modifies world
    ensures HoldsPattern(world, Triangular, n)
  {
    var i := 0;
    while i < n
      invariant 0 <= i <= n
      invariant SeededUpTo(world, Triangular, n, i, 0, 0)
    {
      var j := 0;
      while j < i
        invariant 0 <= j <= i
        invariant SeededUpTo(world, Triangular, n, i, j, 0)
      {
        var k := 0;
        while k < j
          invariant 0 <= k <= j
          invariant SeededUpTo(world, Triangular, n, i, j, k)
        {
          world[i, j, k] := 1;
          k := k + 1;
        }
        j := j + 1;
      }
      i := i + 1;
    }
  }

  /** Single beam: flag every (i, i, i). */
  method SeedSingleBeam(world: array3<int>, n: int)
    requires IsCube(world, n) && AllZero(world)
    modifies world
    ensures HoldsPattern(world, SingleBeam, n)
  {
    var i := 0;
    while i < n
      invariant 0 <= i <= n
      invariant forall x, y, z :: InBounds(world, x, y, z) ==>
        world[x, y, z] == if Seeded(SingleBeam, n, x, y, z) && x < i then 1 else 0
    {
      world[i, i, i] := 1;
      i := i + 1;
    }
  }

  // How many cells a preset seeds: the length of the first commit's change list.

  /** The flags `p` mark exactly the preset's pattern on a cube of side n. */
  ghost predicate Pattern(p: Layer, preset: Preset, n: int)
  {
    && IsBlock(p, n, n, n)
    && forall x, y, z :: 0 <= x < n && 0 <= y < n && 0 <= z < n ==>
         p[x][y][z] == if Seeded(preset, n, x, y, z) then 1 else 0
  }

  /** A row prefix of k cells all flagged 1 yields k records. */
  lemma {:induction false} FullRowCount(p: Layer, i: int, j: int, k: int)
    requires 0 <= i < |p| && 0 <= j < |p[i]| && 0 <= k <= |p[i][j]|
    requires forall c :: 0 <= c < k ==> p[i][j][c] == 1
    ensures |RowChanges(p, i, j, k)| == k
    decreases k
  {
    if k > 0 {
      FullRowCount(p, i, j, k - 1);
    }
  }

  /** A row prefix with no flag yields no record. */
  lemma {:induction false} EmptyRowCount(p: Layer, i: int, j: int, k: int)
    requires 0 <= i < |p| && 0 <= j < |p[i]| && 0 <= k <= |p[i][j]|
    requires forall c :: 0 <= c < k ==> p[i][j][c] == 0
    ensures |RowChanges(p, i, j, k)| == 0
    decreases k
  {
    if k > 0 {
      EmptyRowCount(p, i, j, k - 1);
    }
  }

  /** j rows of m cells, all flagged 1, yield j * m records. */
  lemma {:induction false} FullPlaneCount(p: Layer, i: int, j: int, m: int)
    requires 0 <= i < |p| && 0 <= j <= |p[i]|
    requires forall b :: 0 <= b < j ==> |p[i][b]| == m
    requires forall b, c :: 0 <= b < j && 0 <= c < m ==> p[i][b][c] == 1
    ensures |PlaneChanges(p, i, j)| == j * m
    decreases j
  {
    if j > 0 {
      FullPlaneCount(p, i, j - 1, m);
      var row := p[i][j - 1];
      assert forall c :: 0 <= c < m ==> row[c] == 1;
      FullRowCount(p, i, j - 1, m);
      assert (j - 1) * m + m == j * m;
    }
  }

  /** Rows with no flag yield no record. */
  lemma {:induction false} EmptyPlaneCount(p: Layer, i: int, j: int)
    requires 0 <= i < |p| && 0 <= j <= |p[i]|
    requires forall b, c :: 0 <= b < j && 0 <= c < |p[i][b]| ==> p[i][b][c] == 0
    ensures |PlaneChanges(p, i, j)| == 0
    decreases j
  {
    if j > 0 {
      EmptyPlaneCount(p, i, j - 1);
      EmptyRowCount(p, i, j - 1, |p[i][j - 1]|);
    }
  }

  /** A plane of the two-walls pattern yields n * n records on a wall and none elsewhere. */
  lemma WallPlane(p: Layer, n: int, i: int)
    requires Pattern(p, TwoWalls, n)
    requires 0 <= i < n
    ensures |PlaneChanges(p, i, |p[i]|)| == if i == 0 || i == n - 1 then n * n else 0
  {
    var plane := p[i];
    assert |plane| == n && forall b :: 0 <= b < n ==> |plane[b]| == n;
    if i == 0 || i == n - 1 {
      assert forall b, c :: 0 <= b < n && 0 <= c < n ==> plane[b][c] == 1;
      FullPlaneCount(p, i, n, n);
    } else {
      assert forall b, c :: 0 <= b < n && 0 <= c < n ==> plane[b][c] == 0;
      EmptyPlaneCount(p, i, n);
    }
  }

  /** Planes 0 .. i - 1 of the two-walls pattern, given their plane counts. */
  lemma {:induction false} TwoWallsLayerCount(p: Layer, n: int, area: int, i: int)
    requires n >= 2 && |p| == n && 0 <= i <= n
    requires forall a :: 0 <= a < n ==> |PlaneChanges(p, a, |p[a]|)| == if a == 0 || a == n - 1 then area else 0
    ensures |LayerChanges(p, i)| == if i == 0 then 0 else if i < n then area else 2 * area
    decreases i
  {
    if i > 0 {
      TwoWallsLayerCount(p, n, area, i - 1);
    }
  }

  /** The two-walls pattern on a grid of side n >= 2 flags 2 * n * n cells. */
  lemma TwoWallsChangeCount(p: Layer, n: int)
    requires n >= 2 && Pattern(p, TwoWalls, n)
    ensures |ChangeList(p)| == 2 * (n * n)
  {
    forall a | 0 <= a < n
      ensures |PlaneChanges(p, a, |p[a]|)| == if a == 0 || a == n - 1 then n * n else 0
    {
      WallPlane(p, n, a);
    }
    TwoWallsLayerCount(p, n, n * n, n);
  }

  /** A row of the single-beam pattern yields a record only at its diagonal cell. */
  lemma {:induction false} BeamRowCount(p: Layer, i: int, j: int, k: int)
    requires 0 <= i < |p| && 0 <= j < |p[i]| && 0 <= k <= |p[i][j]|
    requires forall c :: 0 <= c < k ==> p[i][j][c] == if i == j && j == c then 1 else 0
    ensures |RowChanges(p, i, j, k)| == if i == j && i < k then 1 else 0
    decreases k
  {
    if k > 0 {
      BeamRowCount(p, i, j, k - 1);
    }
  }

  /** Rows 0 .. j - 1 of plane i, of which only row i holds a beam cell. */
  lemma {:induction false} BeamPlaneCount(p: Layer, i: int, j: int)
    requires 0 <= i < |p| && 0 <= j <= |p[i]|
    requires forall b :: 0 <= b < j ==> |RowChanges(p, i, b, |p[i][b]|)| == if b == i then 1 else 0
    ensures |PlaneChanges(p, i, j)| == if i < j then 1 else 0
    decreases j
  {
    if j > 0 {
      BeamPlaneCount(p, i, j - 1);
    }
  }

  /** Every plane of the single-beam pattern yields exactly one record. */
  lemma BeamPlane(p: Layer, n: int, i: int)
    requires Pattern(p, SingleBeam, n)
    requires 0 <= i < n
    ensures |PlaneChanges(p, i, |p[i]|)| == 1
  {
    forall b | 0 <= b < n
      ensures |RowChanges(p, i, b, |p[i][b]|)| == if b == i then 1 else 0
    {
      var row := p[i][b];
      assert |row| == n && forall c :: 0 <= c < n ==> row[c] == if i == b && b == c then 1 else 0;
      BeamRowCount(p, i, b, n);
    }
    BeamPlaneCount(p, i, n);
  }

  /** Planes 0 .. i - 1, one record each. */
  lemma {:induction false} BeamLayerCount(p: Layer, i: int)
    requires 0 <= i <= |p|
    requires forall a :: 0 <= a < i ==> |PlaneChanges(p, a, |p[a]|)| == 1
    ensures |LayerChanges(p, i)| == i
    decreases i
  {
    if i > 0 {
      BeamLayerCount(p, i - 1);
    }
  }

  /** The single-beam pattern on a grid of side n flags n cells. */
  lemma SingleBeamChangeCount(p: Layer, n: int)
    requires Pattern(p, SingleBeam, n)
    ensures |ChangeList(p)| == n
  {
    forall a | 0 <= a < n
      ensures |PlaneChanges(p, a, |p[a]|)| == 1
    {
      BeamPlane(p, n, a);
    }
    BeamLayerCount(p, n);
  }

  /**
   * The first commit after seeding reports a birth for every seeded cell
   * and nothing else: 2 * n * n births for the two walls, n for the beam.
   */
  lemma SeedsAreBorn(p: Layer, preset: Preset, n: int)
    requires Pattern(p, preset, n)
    ensures forall c :: c in ChangeList(p) ==> c.transition == Born && Seeded(preset, n, c.x, c.y, c.z)
    ensures forall x, y, z :: 0 <= x < n && 0 <= y < n && 0 <= z < n && Seeded(preset, n, x, y, z) ==>
      Change(x, y, z, Born) in ChangeList(p)
    ensures preset == TwoWalls && n >= 2 ==> |ChangeList(p)| == 2 * (n * n)
    ensures preset == SingleBeam ==> |ChangeList(p)| == n
  {
    if preset == TwoWalls && n >= 2 {
      TwoWallsChangeCount(p, n);
    } else if preset == SingleBeam {
      SingleBeamChangeCount(p, n);
    }
    forall c | c in ChangeList(p)
      ensures c.transition == Born && Seeded(preset, n, c.x, c.y, c.z)
    {
      assert Reports(p, c);
    }
    forall x, y, z | 0 <= x < n && 0 <= y < n && 0 <= z < n && Seeded(preset, n, x, y, z)
      ensures Change(x, y, z, Born) in ChangeList(p)
    {
      ChangeListCell(p, x, y, z);
    }
  }
}
