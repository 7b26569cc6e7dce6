/** Player levels: cumulative experience thresholds and the lookups over them. */
module Levels {
  import opened Common

  const MaxLevel: nat := 20

  /** `LEVELS[i]` is the experience needed to reach level i + 1. */
  const LEVELS: seq<int> := [
    0, 100, 250, 450, 700, 1000, 1350, 1750, 2200, 2700,
    3250, 3850, 4500, 5200, 5950, 6750, 7600, 8500, 9450, 10450
  ]

  /** A threshold table: non-empty, starting at 0, strictly increasing. */
  ghost predicate ThresholdTable(t: seq<int>) {
    && |t| > 0
    && t[0] == 0
    && forall i, j :: 0 <= i < j < |t| ==> t[i] < t[j]
  }

  lemma LevelsTable()
    ensures |LEVELS| == MaxLevel
    ensures ThresholdTable(LEVELS)
  {
    assert forall i :: 0 <= i < |LEVELS| - 1 ==> LEVELS[i] < LEVELS[i + 1];
    StrictlyIncreasing(LEVELS);
  }

  /** Adjacent increase gives increase between any two positions. */
  lemma StrictlyIncreasing(t: seq<int>)
    requires forall i :: 0 <= i < |t| - 1 ==> t[i] < t[i + 1]
    ensures forall i, j :: 0 <= i < j < |t| ==> t[i] < t[j]
  {
    forall i, j | 0 <= i < j < |t|
      ensures t[i] < t[j]
    {
      var k := i;
      while k < j
        invariant i <= k <= j
        invariant t[i] <= t[k]
        invariant k > i ==> t[i] < t[k]
      {
        k := k + 1;
      }
    }
  }

  /**
   The downward scan `for (i = top; i >= 0; i--) if (exp >= t[i]) return i + 1;`
   started at `top`, falling back to level 1.
   */
  function ScanDown(t: seq<int>, exp: int, top: int): (r: nat)
    requires -1 <= top < |t|
    ensures top < 0 ==> r == 1
    ensures top >= 0 ==> 1 <= r <= top + 1
    ensures r >= 2 ==> exp >= t[r - 1]
    ensures forall j :: r <= j <= top ==> exp < t[j]
    decreases top + 1
  {
    if top < 0 then 1
    else if exp >= t[top] then top + 1
    else ScanDown(t, exp, top - 1)
  }

  /** Level for an experience total: the last threshold `exp` has reached, counted from 1. */
  function GetLevel(exp: int): (r: nat)
    ensures 1 <= r <= MaxLevel
    ensures exp >= 0 || r >= 2 ==> LEVELS[r - 1] <= exp
    ensures r < MaxLevel ==> exp < LEVELS[r]
  {
    var r := ScanDown(LEVELS, exp, |LEVELS| - 1);
    LevelsTable();
    r
  }

  /** More experience never means a lower level. */
  lemma GetLevelMonotone(exp1: int, exp2: int)
    requires exp1 <= exp2
    ensures GetLevel(exp1) <= GetLevel(exp2)
  {
    LevelsTable();
  }

  /** Reaching a threshold exactly gives the level it names. */
  lemma GetLevelAtThreshold(i: nat)
    requires i < MaxLevel
    ensures GetLevel(LEVELS[i]) == i + 1
  {
    LevelsTable();
  }

  /** `LEVELS[level]`, or None at the top level (JavaScript's `undefined` for a negative level is also None). */
  function GetExpForNextLevel(level: int): (r: Option<int>)
    ensures r.None? <==> level >= MaxLevel || level < 0
    ensures r.Some? ==> r.value == LEVELS[level]
  {
    if level >= |LEVELS| || level < 0 then None else Some(LEVELS[level])
  }

  /** Below the top level, the next threshold is still ahead of the player. */
  lemma NextLevelAhead(exp: int)
    requires GetExpForNextLevel(GetLevel(exp)).Some?
    ensures exp < GetExpForNextLevel(GetLevel(exp)).value
  {
  }
}
