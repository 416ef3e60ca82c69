/**
 * Per-axis wraparound of the toroidal grid.
 *
 * The game loop steps one cell along an axis of length `m` with
 * `(c + 1) % m` and `(c + m - 1) % m` (the step size BOX_SIZE is 1).
 * For a coordinate already in [0, m) both operands are non-negative, so
 * Java's truncating `%` and Dafny's Euclidean `%` agree on them.
 */
module Torus {

  /** The next cell along an axis of length `m`; the last cell wraps to 0. */
  function Succ(c: int, m: int): (r: int)
    requires 0 <= c < m
    ensures 0 <= r < m
    ensures r == if c == m - 1 then 0 else c + 1
  {
    (c + 1) % m
  }

  /** The previous cell along an axis of length `m`; cell 0 wraps to m - 1. */
  function Pred(c: int, m: int): (r: int)
    requires 0 <= c < m
    ensures 0 <= r < m
    ensures r == if c == 0 then m - 1 else c - 1
  {
    (c + m - 1) % m
  }

  /**
   * The cell that an unbounded coordinate `c` denotes when the axis of
   * length `m` is tiled without end: the representative of `c` modulo `m`.
   */
  function Wrap(c: int, m: int): (r: int)
    requires m > 0
    ensures 0 <= r < m
    ensures 0 <= c < m ==> r == c
  {
    c % m
  }

  /** Succ and Pred undo each other. */
  lemma SuccPredInverse(c: int, m: int)
    requires 0 <= c < m
    ensures Pred(Succ(c, m), m) == c
    ensures Succ(Pred(c, m), m) == c
  {
  }

  /** Succ and Pred are the tiling's steps c + 1 and c - 1, taken modulo m. */
  lemma StepsAreTiling(c: int, m: int)
    requires 0 <= c < m
    ensures Succ(c, m) == Wrap(c + 1, m)
    ensures Pred(c, m) == Wrap(c - 1, m)
  {
  }

  /** On an axis of length at least 2 a step always reaches another cell, and
      on an axis of length at least 3 the two steps reach different cells. */
  lemma StepsAreDistinct(c: int, m: int)
    requires 0 <= c < m
    ensures m >= 2 ==> Succ(c, m) != c && Pred(c, m) != c
    ensures m >= 3 ==> Succ(c, m) != Pred(c, m)
  {
  }

  /** The cell one step of `d` (-1, 0 or +1) away from c along the axis. */
  function Step(c: int, d: int, m: int): (r: int)
    requires 0 <= c < m && -1 <= d <= 1
    ensures 0 <= r < m
  {
    if d == 1 then Succ(c, m) else if d == -1 then Pred(c, m) else c
  }

  /** On an axis of length at least 3 the offsets -1, 0 and +1 reach three different cells. */
  lemma StepInjective(c: int, m: int, d: int, e: int)
    requires 0 <= c < m && m >= 3 && -1 <= d <= 1 && -1 <= e <= 1
    ensures Step(c, d, m) == Step(c, e, m) <==> d == e
  {
    StepsAreDistinct(c, m);
  }
}
