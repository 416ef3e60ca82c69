/**
 * The random preset. Each iteration of its loop draws a cell position, one
 * coordinate after the other in the order i, j, k, and flags that cell to
 * be born; a position drawn twice is simply flagged again. The number of
 * iterations is an input, `count`: the program runs the loop while the
 * counter is below the float product 0.05 * w * h * depth.
 */
module RandomPreset {
  import opened Grid
  import opened Presets
  import opened RandomDraws

  /**
   * The loop bound on the program's 30-cube: 0.05f * 30 rounds to 1.5f,
   * the next two products give 45.0f and 1350.0f exactly, and the loop runs
   * while i < 1350.0f.
   */
  const RandomCount := 1350

  /** The position iteration m draws: the rolls 3m, 3m + 1 and 3m + 2. */
  function Drawn(rolls: Rolls, m: nat): (int, int, int)
  {
    (rolls(3 * m), rolls(3 * m + 1), rolls(3 * m + 2))
  }

  /** The positions the first `count` iterations draw, in loop order. */
  function Targets(rolls: Rolls, count: nat): (s: seq<(int, int, int)>)
    ensures |s| == count
    ensures forall m :: 0 <= m < count ==> s[m] == Drawn(rolls, m)
  {
    if count == 0 then [] else Targets(rolls, count - 1) + [Drawn(rolls, count - 1)]
  }

  /** A cell is a target exactly when one of the `count` iterations drew it. */
  lemma TargetIffDrawn(rolls: Rolls, count: nat, x: int, y: int, z: int)
    ensures (x, y, z) in Targets(rolls, count) <==> exists m :: 0 <= m < count && Drawn(rolls, m) == (x, y, z)
  {
  }

  /** Every drawn position lies in the cube, so no write is out of bounds. */
  lemma TargetsInCube(rolls: Rolls, n: int, count: nat, x: int, y: int, z: int)
    requires Draws(rolls, n)
    requires (x, y, z) in Targets(rolls, count)
    ensures 0 <= x < n && 0 <= y < n && 0 <= z < n
  {
  }

  /** The distinct cells among `count` draws are at most `count`: repeated draws seed nothing new. */
  lemma {:induction false} SeededAtMost(rolls: Rolls, count: nat)
    ensures |set p | p in Targets(rolls, count)| <= count
  {
    if count > 0 {
      var s := Targets(rolls, count - 1);
      SeededAtMost(rolls, count - 1);
      assert (set p | p in Targets(rolls, count)) == (set p | p in s) + {Drawn(rolls, count - 1)};
    }
  }

  /**
   * The random preset's loop on an all-zero cube of side n: the cube ends up
   * 1 exactly on the positions the `count` iterations draw and 0 elsewhere.
   * The result is how many rolls were drawn, three per iteration.
   */
  method SeedRandom(world: array3<int>, n: int, rolls: Rolls, count: nat) returns (drawn: nat)
    requires IsCube(world, n) && AllZero(world) && Draws(rolls, n)
    modifies world
    ensures forall x, y, z :: InBounds(world, x, y, z) ==>
      world[x, y, z] == if (x, y, z) in Targets(rolls, count) then 1 else 0
    ensures drawn == 3 * count
  {
    var i := 0;
    drawn := 0;
    while i < count
      invariant 0 <= i <= count && drawn == 3 * i
      invariant forall x, y, z :: InBounds(world, x, y, z) ==>
        world[x, y, z] == if (x, y, z) in Targets(rolls, i) then 1 else 0
    {
      world[rolls(drawn), rolls(drawn + 1), rolls(drawn + 2)] := 1;
      assert Targets(rolls, i + 1) == Targets(rolls, i) + [(rolls(drawn), rolls(drawn + 1), rolls(drawn + 2))];
      drawn := drawn + 3;
      i := i + 1;
    }
  }
}
