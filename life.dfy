/**
 * The simulation state and its two operations: setting up a game from a
 * preset, and one tick of the game loop (commit the pending flags, then
 * compute fresh flags from the committed generation).
 */
module Life {
  import opened Grid
  import opened Rules
  import opened Changes
  import opened Presets
  import opened RandomDraws
  import opened RandomPreset
  import opened WeirdCorners

  /** The side of the cube the game is set up with. */
  const GridSize := 30

  /** The commit loop has reached (i, j, k): the cells scanned before it hold
      the committed values `c0` with the flags `p0` applied and have no flag
      left; the others still hold `c0` and `p0`. */
  ghost predicate CommittedUpTo(c: array3<int>, p: array3<int>, c0: Layer, p0: Layer, i: int, j: int, k: int)
    reads c, p
  {
    && c.Length0 == p.Length0 && c.Length1 == p.Length1 && c.Length2 == p.Length2
    && IsBlock(c0, c.Length0, c.Length1, c.Length2) && IsBlock(p0, c.Length0, c.Length1, c.Length2)
    && forall x, y, z :: InBounds(c, x, y, z) ==>
         if ScannedBefore(x, y, z, i, j, k) then
           c[x, y, z] == Applied(c0[x][y][z], p0[x][y][z]) && p[x, y, z] == 0
         else
           c[x, y, z] == c0[x][y][z] && p[x, y, z] == p0[x][y][z]
  }

  /** The rule loop has reached (i, j, k): the flags of the cells scanned
      before it are recomputed from the committed layer `c`, the others
      still hold `p0`. */
  ghost predicate FlaggedUpTo(c: array3<int>, p: array3<int>, p0: Layer, rules: RuleSet, i: int, j: int, k: int)
    reads c, p
  {
    && c.Length0 == p.Length0 && c.Length1 == p.Length1 && c.Length2 == p.Length2
    && IsBlock(p0, c.Length0, c.Length1, c.Length2)
    && forall x, y, z :: InBounds(p, x, y, z) ==>
         p[x, y, z] ==
           if ScannedBefore(x, y, z, i, j, k) then NextFlag(c[x, y, z], Neighbors(c, x, y, z), rules, p0[x][y][z])
           else p0[x][y][z]
  }

  /** On a dead layer every neighbour count is 0. */
  lemma NeighborsZero(world: array3<int>)
    requires AllZero(world)
    ensures forall x, y, z :: InBounds(world, x, y, z) ==> Neighbors(world, x, y, z) == 0
  {
  }

  /**
   * The world of the game: for every cell (i, j, k) a committed value
   * (0 dead, 1 alive) and a pending flag (1 born, -1 dies, 0 no change)
   * that the next commit applies.
   */
  class World {
    var committed: array3<int>
    var pending: array3<int>

    /** Both layers cover the same cells, committed values are 0 or 1,
        pending values are flags, and every flag agrees with its cell. */
    ghost predicate Valid()
      reads this, committed, pending
    {
      && committed != pending
      && committed.Length0 == pending.Length0
      && committed.Length1 == pending.Length1
      && committed.Length2 == pending.Length2
      && Binary(committed)
      && forall x, y, z :: InBounds(pending, x, y, z) ==>
           IsFlag(pending[x, y, z]) && Consistent(committed[x, y, z], pending[x, y, z])
    }

    /** Before any game is set up the world holds no cells. */
    constructor ()
      ensures Valid()
      ensures committed.Length0 == 0 && pending.Length0 == 0
    {
      committed := new int[0, 0, 0];
      pending := new int[0, 0, 0];
    }

    /**
     * Start a new game on a fresh, all-zero cube of side `size`: nothing is
     * alive, and the preset's cells are flagged to be born at the next commit.
     */
    method SetupGame(size: nat, preset: Preset)
      modifies this
      ensures Valid() && fresh(committed) && fresh(pending)
      ensures IsCube(committed, size) && IsCube(pending, size)
      ensures AllZero(committed)
      ensures HoldsPattern(pending, preset, size)
    {
      committed := new int[size, size, size]((i, j, k) => 0);
      pending := new int[size, size, size]((i, j, k) => 0);
      match preset {
        case TwoWalls => SeedTwoWalls(pending, size);
        case Halfsies => SeedHalfsies(pending, size);
        case Triangular => SeedTriangular(pending, size);
        case SingleBeam => SeedSingleBeam(pending, size);
      }
    }

    /**
     * Start a new game with the random preset on a fresh, all-zero cube of
     * side `size`: nothing is alive, and the positions the `count`
     * iterations draw from `rolls` are flagged to be born at the next commit.
     */
    method SetupRandom(size: nat, rolls: Rolls, count: nat)
      requires Draws(rolls, size)
      modifies this
      ensures Valid() && fresh(committed) && fresh(pending)
      ensures IsCube(committed, size) && IsCube(pending, size)
      ensures AllZero(committed)
      ensures forall x, y, z :: InBounds(pending, x, y, z) ==>
        pending[x, y, z] == if (x, y, z) in Targets(rolls, count) then 1 else 0
    {
      committed := new int[size, size, size]((i, j, k) => 0);
      pending := new int[size, size, size]((i, j, k) => 0);
      var _ := SeedRandom(pending, size, rolls, count);
    }

    /**
     * Start a new game with the weird-corners preset on a fresh, all-zero
     * cube of side `size`: nothing is alive, and the cells the draws `rolls`
     * select are flagged to be born at the next commit.
     */
    method SetupWeirdCorners(size: nat, rolls: Rolls)
      requires Draws(rolls, size)
      modifies this
      ensures Valid() && fresh(committed) && fresh(pending)
      ensures IsCube(committed, size) && IsCube(pending, size)
      ensures AllZero(committed)
      ensures forall x, y, z :: InBounds(pending, x, y, z) ==>
        pending[x, y, z] == if InCorners(Corners(rolls, size), x, y, z) then 1 else 0
    {
      committed := new int[size, size, size]((i, j, k) => 0);
      pending := new int[size, size, size]((i, j, k) => 0);
      var _ := SeedWeirdCorners(pending, size, rolls);
    }

    /**
     * The commit loop: in scan order, a cell flagged 1 becomes alive and is
     * reported Born, a cell flagged -1 becomes dead and is reported Died,
     * and every flag is cleared.
     */
    method Commit() returns (changes: seq<Change>)
      requires Valid()
      modifies committed, pending
      ensures Valid()
      ensures forall x, y, z :: InBounds(committed, x, y, z) ==>
        committed[x, y, z] == Applied(old(committed[x, y, z]), old(pending[x, y, z]))
      ensures forall x, y, z :: InBounds(pending, x, y, z) ==> pending[x, y, z] == 0
      ensures changes == ChangeList(old(Snapshot(pending)))
    {
      ghost var c0, p0 := Snapshot(committed), Snapshot(pending);
      changes := CommitPlanes(c0, p0);
    }

    /** The commit loop over the planes 0 .. Length0 - 1. */
    method CommitPlanes(ghost c0: Layer, ghost p0: Layer) returns (changes: seq<Change>)
      requires committed != pending
      requires CommittedUpTo(committed, pending, c0, p0, 0, 0, 0)
      modifies committed, pending
      ensures CommittedUpTo(committed, pending, c0, p0, committed.Length0, 0, 0)
      ensures changes == ChangeList(p0)
    {
      changes := [];
      var i := 0;
      while i < committed.Length0
        invariant 0 <= i <= committed.Length0
        invariant CommittedUpTo(committed, pending, c0, p0, i, 0, 0)
        invariant changes == LayerChanges(p0, i)
      {
        var plane := CommitPlane(i, c0, p0);
        changes := changes + plane;
        i := i + 1;
      }
    }

    /** The commit loop over the plane (i, _, _). */
    method CommitPlane(i: int, ghost c0: Layer, ghost p0: Layer) returns (records: seq<Change>)
      requires committed != pending && 0 <= i < committed.Length0
      requires CommittedUpTo(committed, pending, c0, p0, i, 0, 0)
      modifies committed, pending
      ensures CommittedUpTo(committed, pending, c0, p0, i + 1, 0, 0)
      ensures records == PlaneChanges(p0, i, committed.Length1)
    {
      records := [];
      var j := 0;
      while j < committed.Length1
        invariant 0 <= j <= committed.Length1
        invariant CommittedUpTo(committed, pending, c0, p0, i, j, 0)
        invariant records == PlaneChanges(p0, i, j)
      {
        var row := CommitRow(i, j, c0, p0);
        records := records + row;
        j := j + 1;
      }
    }

    /** The commit loop over the row (i, j, _). */
    method CommitRow(i: int, j: int, ghost c0: Layer, ghost p0: Layer) returns (records: seq<Change>)
      requires committed != pending && 0 <= i < committed.Length0 && 0 <= j < committed.Length1
      requires CommittedUpTo(committed, pending, c0, p0, i, j, 0)
      modifies committed, pending
      ensures CommittedUpTo(committed, pending, c0, p0, i, j + 1, 0)
      ensures records == RowChanges(p0, i, j, committed.Length2)
    {
      records := [];
      var k := 0;
      while k < committed.Length2
        invariant 0 <= k <= committed.Length2
        invariant CommittedUpTo(committed, pending, c0, p0, i, j, k)
        invariant records == RowChanges(p0, i, j, k)
      {
        var record := CommitCell(i, j, k, c0, p0);
        records := records + record;
        k := k + 1;
      }
    }

    /** The commit loop's body for cell (i, j, k). */
    method CommitCell(i: int, j: int, k: int, ghost c0: Layer, ghost p0: Layer) returns (record: seq<Change>)
      requires committed != pending && InBounds(committed, i, j, k)
      requires CommittedUpTo(committed, pending, c0, p0, i, j, k)
      modifies committed, pending
      ensures CommittedUpTo(committed, pending, c0, p0, i, j, k + 1)
      ensures record == CellChange(p0[i][j][k], i, j, k)
    {
      record := [];
      if pending[i, j, k] == 1 {
        committed[i, j, k] := 1;
        record := [Change(i, j, k, Born)];
      }
      if pending[i, j, k] == -1 {
        committed[i, j, k] := 0;
        record := [Change(i, j, k, Died)];
      }
      pending[i, j, k] := 0;
    }

    /**
     * The rule loop: every cell's flag is recomputed from its committed
     * value and its neighbour count in the committed layer, which the loop
     * never writes, so every count sees the same generation.
     */
    method ComputeFlags(rules: RuleSet)
      requires Valid()
      modifies pending
      ensures Valid()
      ensures forall x, y, z :: InBounds(pending, x, y, z) ==>
        pending[x, y, z] == NextFlag(committed[x, y, z], Neighbors(committed, x, y, z), rules, old(pending[x, y, z]))
    {
      ghost var p0 := Snapshot(pending);
      FlagPlanes(rules, p0);
    }

    /** The rule loop over the planes 0 .. Length0 - 1. */
    method FlagPlanes(rules: RuleSet, ghost p0: Layer)
      requires committed != pending
      requires FlaggedUpTo(committed, pending, p0, rules, 0, 0, 0)
      modifies pending
      ensures FlaggedUpTo(committed, pending, p0, rules, committed.Length0, 0, 0)
    {
      var i := 0;
      while i < committed.Length0
        invariant 0 <= i <= committed.Length0
        invariant FlaggedUpTo(committed, pending, p0, rules, i, 0, 0)
      {
        FlagPlane(rules, i, p0);
        i := i + 1;
      }
    }

    /** The rule loop over the plane (i, _, _). */
    method FlagPlane(rules: RuleSet, i: int, ghost p0: Layer)
      requires committed != pending && 0 <= i < committed.Length0
      requires FlaggedUpTo(committed, pending, p0, rules, i, 0, 0)
      modifies pending
      ensures FlaggedUpTo(committed, pending, p0, rules, i + 1, 0, 0)
    {
      var j := 0;
      while j < committed.Length1
        invariant 0 <= j <= committed.Length1
        invariant FlaggedUpTo(committed, pending, p0, rules, i, j, 0)
      {
        FlagRow(rules, i, j, p0);
        j := j + 1;
      }
    }

    /** The rule loop over the row (i, j, _). */
    method FlagRow(rules: RuleSet, i: int, j: int, ghost p0: Layer)
      requires committed != pending && 0 <= i < committed.Length0 && 0 <= j < committed.Length1
      requires FlaggedUpTo(committed, pending, p0, rules, i, j, 0)
      modifies pending
      ensures FlaggedUpTo(committed, pending, p0, rules, i, j + 1, 0)
    {
      var k := 0;
      while k < committed.Length2
        invariant 0 <= k <= committed.Length2
        invariant FlaggedUpTo(committed, pending, p0, rules, i, j, k)
      {
        FlagCell(rules, i, j, k);
        k := k + 1;
      }
    }

    /** The rule loop's body for cell (i, j, k): the birth test, then the death test. */
    method FlagCell(rules: RuleSet, i: int, j: int, k: int)
      requires committed != pending && InBounds(committed, i, j, k)
      requires committed.Length0 == pending.Length0 && committed.Length1 == pending.Length1
      requires committed.Length2 == pending.Length2
      modifies pending
      ensures pending[i, j, k] == NextFlag(committed[i, j, k], Neighbors(committed, i, j, k), rules, old(pending[i, j, k]))
      ensures forall x, y, z :: InBounds(pending, x, y, z) && (x != i || y != j || z != k) ==>
        pending[x, y, z] == old(pending[x, y, z])
    {
      var count := Neighbors(committed, i, j, k);
      if count >= rules.birthLow && count <= rules.birthHigh && committed[i, j, k] == 0 {
        pending[i, j, k] := 1;
      }
      if (count > rules.deathAbove || count < rules.deathBelow) && committed[i, j, k] == 1 {
        pending[i, j, k] := -1;
      }
    }

    /**
     * The first tick after setting up a preset on a cube of side n: the
     * commit brings exactly the seeded cells to life, reporting each as
     * born, before the rule loop looks at any cell.
     */
    method FirstTick(ghost preset: Preset, ghost n: int, rules: RuleSet) returns (changes: seq<Change>)
      requires Valid() && IsCube(committed, n) && AllZero(committed) && HoldsPattern(pending, preset, n)
      modifies committed, pending
      ensures Valid()
      ensures forall x, y, z :: InBounds(committed, x, y, z) ==>
        committed[x, y, z] == if Seeded(preset, n, x, y, z) then 1 else 0
      ensures forall c :: c in changes ==> c.transition == Born && Seeded(preset, n, c.x, c.y, c.z) && InBounds(committed, c.x, c.y, c.z)
      ensures forall x, y, z :: InBounds(committed, x, y, z) && Seeded(preset, n, x, y, z) ==>
        Change(x, y, z, Born) in changes
      ensures InScanOrder(changes)
      ensures forall x, y, z :: InBounds(pending, x, y, z) ==>
        pending[x, y, z] == NextFlag(committed[x, y, z], Neighbors(committed, x, y, z), rules, 0)
      ensures preset == TwoWalls && n >= 2 ==> |changes| == 2 * (n * n)
      ensures preset == SingleBeam ==> |changes| == n
    {
      ghost var seeds := Snapshot(pending);
      assert Pattern(seeds, preset, n);
      SeedsAreBorn(seeds, preset, n);
      changes := Tick(rules);
    }

    /**
     * The tick right after a setup that flagged exactly the cells `seeded`
     * holds for: exactly those cells come alive, and the records are their
     * births, one per cell, in scan order.
     */
    method FirstSeededTick(ghost seeded: (int, int, int) -> bool, rules: RuleSet) returns (changes: seq<Change>)
      requires Valid() && AllZero(committed)
      requires forall x, y, z :: InBounds(pending, x, y, z) ==>
        pending[x, y, z] == if seeded(x, y, z) then 1 else 0
      modifies committed, pending
      ensures Valid()
      ensures forall x, y, z :: InBounds(committed, x, y, z) ==>
        committed[x, y, z] == if seeded(x, y, z) then 1 else 0
      ensures forall ch :: ch in changes ==> ch.transition == Born && seeded(ch.x, ch.y, ch.z) && InBounds(committed, ch.x, ch.y, ch.z)
      ensures forall x, y, z :: InBounds(committed, x, y, z) && seeded(x, y, z) ==>
        Change(x, y, z, Born) in changes
      ensures InScanOrder(changes)
      ensures forall x, y, z :: InBounds(pending, x, y, z) ==>
        pending[x, y, z] == NextFlag(committed[x, y, z], Neighbors(committed, x, y, z), rules, 0)
    {
      changes := Tick(rules);
      forall ch | ch in changes
        ensures ch.transition == Born && seeded(ch.x, ch.y, ch.z)
      {
        assert ch == Change(ch.x, ch.y, ch.z, ch.transition);
      }
    }

    /**
     * A dead world with nothing pending stays dead: no cell has a live
     * neighbour, so when births need at least one (as with the default
     * thresholds) the tick flags nothing, changes nothing and reports nothing.
     */
    method QuietTick(rules: RuleSet) returns (changes: seq<Change>)
      requires Valid() && AllZero(committed) && AllZero(pending) && rules.birthLow > 0
      modifies committed, pending
      ensures Valid() && AllZero(committed) && AllZero(pending)
      ensures changes == []
    {
      NoFlagsNoChanges(Snapshot(pending));
      changes := Tick(rules);
      assert AllZero(committed);
      NeighborsZero(committed);
      forall x, y, z | InBounds(pending, x, y, z)
        ensures pending[x, y, z] == 0
      {
        assert !Birth(0, 0, rules);
      }
    }

    /**
     * One tick of the game loop: commit, then the rule loop. The reported
     * changes are exactly the cells that flipped, in scan order, and the new
     * flags are decided on the new generation alone.
     */
    method Tick(rules: RuleSet) returns (changes: seq<Change>)
      requires Valid()
      modifies committed, pending
      ensures Valid()
      ensures forall x, y, z :: InBounds(committed, x, y, z) ==>
        committed[x, y, z] == Applied(old(committed[x, y, z]), old(pending[x, y, z]))
      ensures forall x, y, z :: InBounds(pending, x, y, z) ==>
        pending[x, y, z] == NextFlag(committed[x, y, z], Neighbors(committed, x, y, z), rules, 0)
      ensures changes == ChangeList(old(Snapshot(pending)))
      ensures InScanOrder(changes)
      ensures forall c :: c in changes ==> InBounds(committed, c.x, c.y, c.z)
      ensures forall x, y, z :: InBounds(committed, x, y, z) ==>
        (Change(x, y, z, Born) in changes <==> old(committed[x, y, z]) == 0 && committed[x, y, z] == 1)
      ensures forall x, y, z :: InBounds(committed, x, y, z) ==>
        (Change(x, y, z, Died) in changes <==> old(committed[x, y, z]) == 1 && committed[x, y, z] == 0)
    {
      ghost var flags := Snapshot(pending);
      changes := Commit();
      ComputeFlags(rules);
      forall x, y, z | InBounds(committed, x, y, z)
        ensures Change(x, y, z, Born) in changes <==> old(committed[x, y, z]) == 0 && committed[x, y, z] == 1
        ensures Change(x, y, z, Died) in changes <==> old(committed[x, y, z]) == 1 && committed[x, y, z] == 0
      {
        ChangeListCell(flags, x, y, z);
      }
    }
  }

  /**
   * A new game on the 30-cube: set up the preset and tick once. Exactly the
   * preset's cells are alive afterwards and each was reported as a birth:
   * 1800 for the two walls, 30 for the single beam.
   */
  method NewGame(preset: Preset, rules: RuleSet) returns (world: World, changes: seq<Change>)
    ensures fresh(world) && fresh(world.committed) && fresh(world.pending)
    ensures world.Valid() && IsCube(world.committed, GridSize)
    ensures forall x, y, z :: InBounds(world.committed, x, y, z) ==>
      world.committed[x, y, z] == if Seeded(preset, GridSize, x, y, z) then 1 else 0
    ensures forall c :: c in changes ==>
      c.transition == Born && Seeded(preset, GridSize, c.x, c.y, c.z) && InBounds(world.committed, c.x, c.y, c.z)
    ensures forall x, y, z :: InBounds(world.committed, x, y, z) && Seeded(preset, GridSize, x, y, z) ==>
      Change(x, y, z, Born) in changes
    ensures InScanOrder(changes)
    ensures forall x, y, z :: InBounds(world.pending, x, y, z) ==>
      world.pending[x, y, z] == NextFlag(world.committed[x, y, z], Neighbors(world.committed, x, y, z), rules, 0)
    ensures preset == TwoWalls ==> |changes| == 1800
    ensures preset == SingleBeam ==> |changes| == GridSize
  {
    world := new World();
    world.SetupGame(GridSize, preset);
    changes := world.FirstTick(preset, GridSize, rules);
  }

  /**
   * A random game on the 30-cube, ticked once: exactly the positions the
   * 1350 iterations draw are alive, and the records are their births, one
   * per cell, in scan order.
   */
  method NewRandomGame(rolls: Rolls, rules: RuleSet) returns (world: World, changes: seq<Change>)
    requires Draws(rolls, GridSize)
    ensures fresh(world) && fresh(world.committed) && fresh(world.pending)
    ensures world.Valid() && IsCube(world.committed, GridSize)
    ensures forall x, y, z :: InBounds(world.committed, x, y, z) ==>
      world.committed[x, y, z] == if (x, y, z) in Targets(rolls, RandomCount) then 1 else 0
    ensures forall c :: c in changes ==>
      c.transition == Born && (c.x, c.y, c.z) in Targets(rolls, RandomCount) && InBounds(world.committed, c.x, c.y, c.z)
    ensures forall x, y, z :: InBounds(world.committed, x, y, z) && (x, y, z) in Targets(rolls, RandomCount) ==>
      Change(x, y, z, Born) in changes
    ensures InScanOrder(changes)
    ensures forall x, y, z :: InBounds(world.pending, x, y, z) ==>
      world.pending[x, y, z] == NextFlag(world.committed[x, y, z], Neighbors(world.committed, x, y, z), rules, 0)
  {
    world := new World();
    world.SetupRandom(GridSize, rolls, RandomCount);
    changes := world.FirstSeededTick((x, y, z) => (x, y, z) in Targets(rolls, RandomCount), rules);
  }

  /**
   * A weird-corners game on the 30-cube, ticked once: exactly the cells the
   * draws select are alive, and the records are their births, one per
   * cell, in scan order.
   */
  method NewCornersGame(rolls: Rolls, rules: RuleSet) returns (world: World, changes: seq<Change>)
    requires Draws(rolls, GridSize)
    ensures fresh(world) && fresh(world.committed) && fresh(world.pending)
    ensures world.Valid() && IsCube(world.committed, GridSize)
    ensures forall x, y, z :: InBounds(world.committed, x, y, z) ==>
      world.committed[x, y, z] == if InCorners(Corners(rolls, GridSize), x, y, z) then 1 else 0
    ensures forall c :: c in changes ==>
      c.transition == Born && InCorners(Corners(rolls, GridSize), c.x, c.y, c.z) && InBounds(world.committed, c.x, c.y, c.z)
    ensures forall x, y, z :: InBounds(world.committed, x, y, z) && InCorners(Corners(rolls, GridSize), x, y, z) ==>
      Change(x, y, z, Born) in changes
    ensures InScanOrder(changes)
    ensures forall x, y, z :: InBounds(world.pending, x, y, z) ==>
      world.pending[x, y, z] == NextFlag(world.committed[x, y, z], Neighbors(world.committed, x, y, z), rules, 0)
  {
    world := new World();
    world.SetupWeirdCorners(GridSize, rolls);
    ghost var c := Corners(rolls, GridSize);
    changes := world.FirstSeededTick((x, y, z) => InCorners(c, x, y, z), rules);
  }
}
