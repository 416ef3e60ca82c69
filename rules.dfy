/**
 * The per-cell decisions of one tick: how a pending flag is applied to a
 * committed cell, and how a fresh flag is chosen from a cell's state and
 * neighbour count under the four rule thresholds.
 *
 * Committed cells hold 0 (dead) or 1 (alive). Pending flags hold 1 (the
 * cell is born at the next commit), -1 (it dies) or 0 (no change).
 */
module Rules {

  /**
   * The four thresholds the rule sliders r1..r4 supply, in slider order:
   * a dead cell is born when birthLow <= count <= birthHigh, and a live
   * cell dies when count > deathAbove or count < deathBelow.
   */
  datatype RuleSet = RuleSet(birthLow: int, birthHigh: int, deathAbove: int, deathBelow: int)

  /** The thresholds the sliders start at. */
  const DefaultRules := RuleSet(4, 10, 10, 4)

  /** The largest value the sliders offer. */
  const MaxThreshold := 26

  /** Every threshold lies in the sliders' range [0, 26]. */
  predicate InSliderRange(rules: RuleSet)
  {
    && 0 <= rules.birthLow <= MaxThreshold && 0 <= rules.birthHigh <= MaxThreshold
    && 0 <= rules.deathAbove <= MaxThreshold && 0 <= rules.deathBelow <= MaxThreshold
  }

  /** The default thresholds are slider values, and a birth needs at least one live neighbour. */
  lemma DefaultRulesInRange()
    ensures InSliderRange(DefaultRules) && DefaultRules.birthLow > 0
  {
  }

  /** A dead cell with this count is born. */
  predicate Birth(alive: int, count: int, rules: RuleSet)
  {
    alive == 0 && rules.birthLow <= count <= rules.birthHigh
  }

  /** A live cell with this count dies. */
  predicate Death(alive: int, count: int, rules: RuleSet)
  {
    alive == 1 && (count > rules.deathAbove || count < rules.deathBelow)
  }

  /** A pending flag is one of -1, 0, 1. */
  predicate IsFlag(flag: int)
  {
    -1 <= flag <= 1
  }

  /** A flag agrees with the cell it is pending on: only dead cells are
      flagged to be born and only live cells to die. */
  predicate Consistent(alive: int, flag: int)
  {
    (flag == 1 ==> alive == 0) && (flag == -1 ==> alive == 1)
  }

  /**
   * The rule step for one cell: first the birth test may set the flag to 1,
   * then the death test may set it to -1; a cell passing neither keeps the
   * flag it had. The two tests look at opposite committed values, so at
   * most one of them passes and their order does not matter.
   */
  function NextFlag(alive: int, count: int, rules: RuleSet, flag: int): (r: int)
    ensures Birth(alive, count, rules) ==> r == 1
    ensures Death(alive, count, rules) ==> r == -1
    ensures !Birth(alive, count, rules) && !Death(alive, count, rules) ==> r == flag
    ensures 0 <= alive <= 1 && IsFlag(flag) && Consistent(alive, flag) ==> IsFlag(r) && Consistent(alive, r)
  {
    var born := if count >= rules.birthLow && count <= rules.birthHigh && alive == 0 then 1 else flag;
    if (count > rules.deathAbove || count < rules.deathBelow) && alive == 1 then -1 else born
  }

  /**
   * With no flag pending (as after a commit), the rule step flags exactly
   * the births with 1, exactly the deaths with -1, and every other cell 0.
   */
  lemma FreshFlag(alive: int, count: int, rules: RuleSet)
    ensures NextFlag(alive, count, rules, 0) == 1 <==> Birth(alive, count, rules)
    ensures NextFlag(alive, count, rules, 0) == -1 <==> Death(alive, count, rules)
    ensures NextFlag(alive, count, rules, 0) == 0 <==> !Birth(alive, count, rules) && !Death(alive, count, rules)
  {
  }

  /**
   * The commit step for one cell: a flag of 1 makes the cell alive, a flag
   * of -1 makes it dead, and no flag leaves it as it was.
   */
  function Applied(alive: int, flag: int): (r: int)
    ensures flag == 1 ==> r == 1
    ensures flag == -1 ==> r == 0
    ensures flag == 0 ==> r == alive
    ensures 0 <= alive <= 1 ==> 0 <= r <= 1
    ensures Consistent(alive, flag) && IsFlag(flag) ==> (r != alive <==> flag != 0)
  {
    var set1 := if flag == 1 then 1 else alive;
    if flag == -1 then 0 else set1
  }
}
