/**
 * The random generator the presets draw from. Each call rand.nextInt(n)
 * yields a value in [0, n); the model takes the successive values as an
 * input stream instead of a generator.
 */
module RandomDraws {
  /** The successive values drawn by the random generator: `rolls(t)` is the t-th. */
  type Rolls = nat -> int

  /**
   * Every draw lies in [0, n), the range of a bound drawn for an axis of
   * length n; the generator only draws for a positive n.
   */
  ghost predicate Draws(rolls: Rolls, n: int)
  {
    0 < n && forall t: nat :: 0 <= rolls(t) < n
  }
}
