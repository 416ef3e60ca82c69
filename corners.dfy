/**
 * The "weird corners" preset. Each test of its three nested loops asks the
 * random generator for a fresh bound in [0, N), so a loop keeps running only
 * while its counter is below the value drawn for that very test. The draws
 * are an input here: `rolls(t)` is the t-th value drawn, in the order the
 * loop tests ask for them.
 *
 * The cells a run seeds are described by the row lengths it produces:
 * `c[i][j]` is how many cells the k loop wrote in row (i, j), `|c[i]|` how
 * many rows the j loop ran in plane i, and `|c|` how many planes the i loop ran.
 */
module WeirdCorners {
  import opened Grid
  import opened Presets
  import opened RandomDraws

  /**
   * The k loop of one row, from counter k with its next test drawing roll t:
   * the row's final length and the index of the first roll after the loop.
   */
  function RowRun(rolls: Rolls, n: int, t: nat, k: int): (r: (int, nat))
    requires Draws(rolls, n) && 0 <= k <= n
    ensures k <= r.0 <= n
    ensures r.1 == t + (r.0 - k) + 1
    decreases n - k
  {
    if k < rolls(t) then RowRun(rolls, n, t + 1, k + 1) else (k, t + 1)
  }

  /** The rows' lengths are all in [0, n]. */
  predicate RowsIn(rows: seq<int>, n: int)
  {
    forall y :: 0 <= y < |rows| ==> 0 <= rows[y] <= n
  }

  /**
   * The j loop of one plane, from counter j with its next test drawing roll
   * t: the lengths of the rows j, j + 1, ... it runs, and the index of the
   * first roll after the loop.
   */
  function PlaneRun(rolls: Rolls, n: int, t: nat, j: int): (r: (seq<int>, nat))
    requires Draws(rolls, n) && 0 <= j <= n
    ensures |r.0| <= n - j
    ensures r.1 > t
    decreases n - j
  {
    if j < rolls(t) then
      var row := RowRun(rolls, n, t + 1, 0);
      var rest := PlaneRun(rolls, n, row.1, j + 1);
      ([row.0] + rest.0, rest.1)
    else
      ([], t + 1)
  }

  /** Every plane has at most n rows, each of length in [0, n]. */
  predicate PlanesIn(c: seq<seq<int>>, n: int)
  {
    forall x :: 0 <= x < |c| ==> |c[x]| <= n && RowsIn(c[x], n)
  }

  /**
   * The i loop, from counter i with its next test drawing roll t: the rows
   * of the planes i, i + 1, ... it runs, and the index of the first roll
   * after the loop.
   */
  function CubeRun(rolls: Rolls, n: int, t: nat, i: int): (r: (seq<seq<int>>, nat))
    requires Draws(rolls, n) && 0 <= i <= n
    ensures |r.0| <= n - i
    ensures r.1 > t
    decreases n - i
  {
    if i < rolls(t) then
      var plane := PlaneRun(rolls, n, t + 1, 0);
      var rest := CubeRun(rolls, n, plane.1, i + 1);
      ([plane.0] + rest.0, rest.1)
    else
      ([], t + 1)
  }

  /** The row lengths of a whole run of the preset, from the first draw on. */
  function Corners(rolls: Rolls, n: int): (c: seq<seq<int>>)
    requires Draws(rolls, n)
    ensures |c| <= n
  {
    CubeRun(rolls, n, 0, 0).0
  }

  /** Cell (x, y, z) is among the cells the row lengths `c` describe. */
  predicate InCorners(c: seq<seq<int>>, x: int, y: int, z: int)
  {
    0 <= x < |c| && 0 <= y < |c[x]| && 0 <= z < c[x][y]
  }

  /** Every row a plane's loop runs has a length in [0, n]. */
  lemma {:induction false} PlaneRowsIn(rolls: Rolls, n: int, t: nat, j: int)
    requires Draws(rolls, n) && 0 <= j <= n
    ensures RowsIn(PlaneRun(rolls, n, t, j).0, n)
    decreases n - j
  {
    if j < rolls(t) {
      var row := RowRun(rolls, n, t + 1, 0);
      PlaneRowsIn(rolls, n, row.1, j + 1);
    }
  }

  /** Every plane the cube's loop runs has at most n rows, each of length in [0, n]. */
  lemma {:induction false} CubePlanesIn(rolls: Rolls, n: int, t: nat, i: int)
    requires Draws(rolls, n) && 0 <= i <= n
    ensures PlanesIn(CubeRun(rolls, n, t, i).0, n)
    decreases n - i
  {
    if i < rolls(t) {
      var plane := PlaneRun(rolls, n, t + 1, 0);
      PlaneRowsIn(rolls, n, t + 1, 0);
      CubePlanesIn(rolls, n, plane.1, i + 1);
    }
  }

  /** Every cell the preset seeds lies inside the cube, so no write is out of bounds. */
  lemma CornersInCube(rolls: Rolls, n: int, x: int, y: int, z: int)
    requires Draws(rolls, n)
    requires InCorners(Corners(rolls, n), x, y, z)
    ensures 0 <= x < n && 0 <= y < n && 0 <= z < n
  {
    var c := Corners(rolls, n);
    CubePlanesIn(rolls, n, 0, 0);
    assert |c[x]| <= n && RowsIn(c[x], n);
  }

  /**
   * The k loop, read test by test: the u-th draw of the loop is compared with
   * the counter after u writes; the loop goes on while each draw exceeds the
   * counter and stops at the first draw that does not.
   */
  lemma {:induction false} RowRunTests(rolls: Rolls, n: int, t: nat, k: int)
    requires Draws(rolls, n) && 0 <= k <= n
    ensures forall u: nat :: t <= u < RowRun(rolls, n, t, k).1 - 1 ==> k + (u - t) < rolls(u)
    ensures RowRun(rolls, n, t, k).0 >= rolls(RowRun(rolls, n, t, k).1 - 1)
    decreases n - k
  {
    if k < rolls(t) {
      RowRunTests(rolls, n, t + 1, k + 1);
    }
  }

  /**
   * How many loop tests a plane with these row lengths performs: for each
   * row one passing j test and the row's length + 1 k tests, then the
   * failing j test.
   */
  function PlaneTests(rows: seq<int>): int
  {
    if rows == [] then 1 else rows[0] + 2 + PlaneTests(rows[1..])
  }

  /**
   * How many loop tests a run with these planes performs: for each plane one
   * passing i test and the plane's own tests, then the failing i test.
   */
  function CubeTests(c: seq<seq<int>>): int
  {
    if c == [] then 1 else 1 + PlaneTests(c[0]) + CubeTests(c[1..])
  }

  /** A plane's loops draw exactly one roll per test. */
  lemma {:induction false} PlaneDraws(rolls: Rolls, n: int, t: nat, j: int)
    requires Draws(rolls, n) && 0 <= j <= n
    ensures PlaneRun(rolls, n, t, j).1 == t + PlaneTests(PlaneRun(rolls, n, t, j).0)
    decreases n - j
  {
    if j < rolls(t) {
      var row := RowRun(rolls, n, t + 1, 0);
      var rest := PlaneRun(rolls, n, row.1, j + 1);
      PlaneDraws(rolls, n, row.1, j + 1);
      assert PlaneRun(rolls, n, t, j).0 == [row.0] + rest.0;
      assert ([row.0] + rest.0)[1..] == rest.0;
    }
  }

  /** The preset's loops draw exactly one roll per test, whichever loop makes it. */
  lemma {:induction false} CubeDraws(rolls: Rolls, n: int, t: nat, i: int)
    requires Draws(rolls, n) && 0 <= i <= n
    ensures CubeRun(rolls, n, t, i).1 == t + CubeTests(CubeRun(rolls, n, t, i).0)
    decreases n - i
  {
    if i < rolls(t) {
      var plane := PlaneRun(rolls, n, t + 1, 0);
      var rest := CubeRun(rolls, n, plane.1, i + 1);
      PlaneDraws(rolls, n, t + 1, 0);
      CubeDraws(rolls, n, plane.1, i + 1);
      assert CubeRun(rolls, n, t, i).0 == [plane.0] + rest.0;
      assert ([plane.0] + rest.0)[1..] == rest.0;
    }
  }

  /**
   * The corner cell (0, 0, 0) is seeded exactly when the first three draws,
   * one for each loop's first test, are all positive.
   */
  lemma OriginSeeded(rolls: Rolls, n: int)
    requires Draws(rolls, n)
    ensures InCorners(Corners(rolls, n), 0, 0, 0) <==> rolls(0) > 0 && rolls(1) > 0 && rolls(2) > 0
  {
  }

  /**
   * A run on the 3-cube whose draws are 1, 2, 1, 0, 2, 2, 2, 0, 0, 0 (then 0):
   * one plane, whose first row gets one cell and whose second row gets two.
   */
  function SampleRolls(): Rolls
  {
    (t: nat) => if t < 10 then [1, 2, 1, 0, 2, 2, 2, 0, 0, 0][t] else 0
  }

  /**
   * Because every loop test draws a new bound, the seeded cells are in
   * general not a box: in the sample run (0, 1, 1) is seeded while
   * (0, 0, 1), which every box holding (0, 1, 1) and the origin contains, is not.
   */
  lemma SampleIsNotBox()
    ensures Draws(SampleRolls(), 3)
    ensures Corners(SampleRolls(), 3) == [[1, 2]]
    ensures InCorners(Corners(SampleRolls(), 3), 0, 0, 0) && InCorners(Corners(SampleRolls(), 3), 0, 1, 1)
    ensures !InCorners(Corners(SampleRolls(), 3), 0, 0, 1)
  {
    var rolls := SampleRolls();
    assert Draws(rolls, 3);
    assert RowRun(rolls, 3, 3, 1) == (1, 4);
    assert RowRun(rolls, 3, 2, 0) == (1, 4);
    assert RowRun(rolls, 3, 7, 2) == (2, 8);
    assert RowRun(rolls, 3, 6, 1) == (2, 8);
    assert RowRun(rolls, 3, 5, 0) == (2, 8);
    assert PlaneRun(rolls, 3, 8, 2) == ([], 9);
    assert [2] + [] == [2] && [1] + [2] == [1, 2];
    assert PlaneRun(rolls, 3, 4, 1) == ([2], 9);
    assert PlaneRun(rolls, 3, 1, 0) == ([1, 2], 9);
    assert CubeRun(rolls, 3, 9, 1) == ([], 10);
    assert [[1, 2]] + [] == [[1, 2]];
    assert CubeRun(rolls, 3, 0, 0) == ([[1, 2]], 10);
  }

  /**
   * Cell (x, y, z) has been written once the loops have run the planes whose
   * rows are `done`, then in the current plane the rows `rows`, then k cells
   * of the current row.
   */
  predicate Written(done: seq<seq<int>>, rows: seq<int>, k: int, x: int, y: int, z: int)
  {
    InCorners(done, x, y, z) ||
    (x == |done| && ((0 <= y < |rows| && 0 <= z < rows[y]) || (y == |rows| && 0 <= z < k)))
  }

  /** The cube holds 1 exactly on the written cells and 0 elsewhere. */
  ghost predicate HoldsWritten(world: array3<int>, done: seq<seq<int>>, rows: seq<int>, k: int)
    reads world
  {
    forall x, y, z :: InBounds(world, x, y, z) ==>
      world[x, y, z] == if Written(done, rows, k, x, y, z) then 1 else 0
  }

  /** Finishing a row of length k moves it from the current row into the finished rows. */
  lemma RowFinished(done: seq<seq<int>>, rows: seq<int>, k: int, x: int, y: int, z: int)
    ensures Written(done, rows, k, x, y, z) <==> Written(done, rows + [k], 0, x, y, z)
  {
  }

  /** Finishing a plane moves its rows into the finished planes. */
  lemma PlaneFinished(done: seq<seq<int>>, rows: seq<int>, x: int, y: int, z: int)
    ensures Written(done, rows, 0, x, y, z) <==> Written(done + [rows], [], 0, x, y, z)
  {
  }

  /** A cube holding a finished plane's rows holds them as a finished plane. */
  lemma PlaneHeld(world: array3<int>, done: seq<seq<int>>, rows: seq<int>)
    requires HoldsWritten(world, done, rows, 0)
    ensures HoldsWritten(world, done + [rows], [], 0)
  {
  }

  /** One more test of a plane's j loop that passes runs one more row, whose loop starts at the next draw. */
  lemma PlaneStep(rolls: Rolls, n: int, t: nat, j: int, rows: seq<int>)
    requires Draws(rolls, n) && 0 <= j <= n && j < rolls(t)
    ensures rows + PlaneRun(rolls, n, t, j).0 ==
      (rows + [RowRun(rolls, n, t + 1, 0).0]) + PlaneRun(rolls, n, RowRun(rolls, n, t + 1, 0).1, j + 1).0
    ensures PlaneRun(rolls, n, t, j).1 == PlaneRun(rolls, n, RowRun(rolls, n, t + 1, 0).1, j + 1).1
  {
  }

  /** A test of a plane's j loop that fails ends the plane, and the next draw follows it. */
  lemma PlaneStop(rolls: Rolls, n: int, t: nat, j: int, rows: seq<int>)
    requires Draws(rolls, n) && 0 <= j <= n && rolls(t) <= j
    ensures rows + PlaneRun(rolls, n, t, j).0 == rows
    ensures PlaneRun(rolls, n, t, j).1 == t + 1
  {
  }

  /** One more test of the i loop that passes runs one more plane, whose loop starts at the next draw. */
  lemma CubeStep(rolls: Rolls, n: int, t: nat, i: int, done: seq<seq<int>>)
    requires Draws(rolls, n) && 0 <= i <= n && i < rolls(t)
    ensures done + CubeRun(rolls, n, t, i).0 ==
      (done + [PlaneRun(rolls, n, t + 1, 0).0]) + CubeRun(rolls, n, PlaneRun(rolls, n, t + 1, 0).1, i + 1).0
    ensures CubeRun(rolls, n, t, i).1 == CubeRun(rolls, n, PlaneRun(rolls, n, t + 1, 0).1, i + 1).1
  {
  }

  /** A test of the i loop that fails ends the run, and the next draw follows it. */
  lemma CubeStop(rolls: Rolls, n: int, t: nat, i: int, done: seq<seq<int>>)
    requires Draws(rolls, n) && 0 <= i <= n && rolls(t) <= i
    ensures done + CubeRun(rolls, n, t, i).0 == done
    ensures CubeRun(rolls, n, t, i).1 == t + 1
  {
  }

  /** An all-zero cube holds the state before the first write. */
  lemma NothingWritten(world: array3<int>)
    requires AllZero(world)
    ensures HoldsWritten(world, [], [], 0)
  {
  }

  /** Once every plane is finished, the written cells are exactly the cells the rows describe. */
  lemma CubeHeld(world: array3<int>, done: seq<seq<int>>)
    requires HoldsWritten(world, done, [], 0)
    ensures forall x, y, z :: InBounds(world, x, y, z) ==>
      world[x, y, z] == if InCorners(done, x, y, z) then 1 else 0
  {
  }

  /**
   * The k loop of row (i, j), whose first test draws roll t: it writes the
   * row's RowRun(rolls, n, t, 0).0 first cells and returns that length with
   * the index of the first roll after the loop.
   */
  method CornerRow(world: array3<int>, n: int, rolls: Rolls, i: int, j: int, t: nat,
                   ghost done: seq<seq<int>>, ghost rows: seq<int>)
    returns (len: int, next: nat)
    requires IsCube(world, n) && Draws(rolls, n)
    requires 0 <= i < n && 0 <= j < n && |done| == i && |rows| == j
    requires HoldsWritten(world, done, rows, 0)
    modifies world
    ensures (len, next) == RowRun(rolls, n, t, 0)
    ensures HoldsWritten(world, done, rows + [len], 0)
  {
    var k := 0;
    next := t;
    while k < rolls(next)
      invariant 0 <= k <= n
      invariant RowRun(rolls, n, t, 0) == RowRun(rolls, n, next, k)
      invariant HoldsWritten(world, done, rows, k)
      decreases n - k
    {
      world[i, j, k] := 1;
      next := next + 1;
      k := k + 1;
    }
    next := next + 1;
    len := k;
    forall x, y, z | InBounds(world, x, y, z)
      ensures world[x, y, z] == if Written(done, rows + [len], 0, x, y, z) then 1 else 0
    {
      RowFinished(done, rows, len, x, y, z);
    }
  }

  /**
   * The j loop of plane i, whose first test draws roll t: it writes the rows
   * of PlaneRun(rolls, n, t, 0) and returns them with the index of the first
   * roll after the loop.
   */
  method CornerPlane(world: array3<int>, n: int, rolls: Rolls, i: int, t: nat, ghost done: seq<seq<int>>)
    returns (ghost rows: seq<int>, next: nat)
    requires IsCube(world, n) && Draws(rolls, n)
    requires 0 <= i < n && |done| == i
    requires HoldsWritten(world, done, [], 0)
    modifies world
    ensures rows == PlaneRun(rolls, n, t, 0).0 && next == PlaneRun(rolls, n, t, 0).1
    ensures HoldsWritten(world, done + [rows], [], 0)
  {
    var j := 0;
    rows := [];
    next := t;
    while j < rolls(next)
      invariant 0 <= j <= n && |rows| == j
      invariant PlaneRun(rolls, n, t, 0).0 == rows + PlaneRun(rolls, n, next, j).0
      invariant PlaneRun(rolls, n, t, 0).1 == PlaneRun(rolls, n, next, j).1
      invariant HoldsWritten(world, done, rows, 0)
      decreases n - j
    {
      PlaneStep(rolls, n, next, j, rows);
      var len;
      len, next := CornerRow(world, n, rolls, i, j, next + 1, done, rows);
      rows := rows + [len];
      j := j + 1;
    }
    PlaneStop(rolls, n, next, j, rows);
    next := next + 1;
    PlaneHeld(world, done, rows);
  }

  /**
   * The weird-corners loops on an all-zero cube of side n, each loop test
   * drawing the next roll: the cube ends up 1 exactly on the cells of
   * Corners(rolls, n) and 0 elsewhere. The result is how many rolls were drawn.
   */
  method SeedWeirdCorners(world: array3<int>, n: int, rolls: Rolls) returns (drawn: nat)
    requires IsCube(world, n) && AllZero(world) && Draws(rolls, n)
    modifies world
    ensures forall x, y, z :: InBounds(world, x, y, z) ==>
      world[x, y, z] == if InCorners(Corners(rolls, n), x, y, z) then 1 else 0
    ensures drawn == CubeRun(rolls, n, 0, 0).1
  {
    NothingWritten(world);
    ghost var done;
    done, drawn := CornerPlanes(world, n, rolls);
    CubeHeld(world, done);
  }

  /**
   * The i loop, from the first draw: it writes the planes of
   * CubeRun(rolls, n, 0, 0) and returns them with the number of rolls drawn.
   */
  method CornerPlanes(world: array3<int>, n: int, rolls: Rolls) returns (ghost done: seq<seq<int>>, drawn: nat)
    requires IsCube(world, n) && Draws(rolls, n)
    requires HoldsWritten(world, [], [], 0)
    modifies world
    ensures done == CubeRun(rolls, n, 0, 0).0 && drawn == CubeRun(rolls, n, 0, 0).1
    ensures HoldsWritten(world, done, [], 0)
  {
    ghost var goal := CubeRun(rolls, n, 0, 0);
    var i := 0;
    done := [];
    drawn := 0;
    while i < rolls(drawn)
      invariant 0 <= i <= n && |done| == i
      invariant goal.0 == done + CubeRun(rolls, n, drawn, i).0
      invariant goal.1 == CubeRun(rolls, n, drawn, i).1
      invariant HoldsWritten(world, done, [], 0)
      decreases n - i
    {
      CubeStep(rolls, n, drawn, i, done);
      ghost var rows;
      rows, drawn := CornerPlane(world, n, rolls, i, drawn + 1, done);
      done := done + [rows];
      i := i + 1;
    }
    CubeStop(rolls, n, drawn, i, done);
    drawn := drawn + 1;
  }
}
