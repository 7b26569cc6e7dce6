/** The fertilizer effect table and the grow-time adjustment it implies. */
module Fertilizer {
  import opened Common
  import opened Text

  datatype FertilizerEffect = FertilizerEffect(reductionPercent: real, description: string)

  /** The effect every crop uses. */
  const DefaultEffect := FertilizerEffect(0.2, "20% shorter growth")
  /** Optional per-tier effects, looked up by `GetRecommendedFertilizerEffect`. */
  const LowTier := FertilizerEffect(0.15, "15% shorter growth")
  const MidTier := FertilizerEffect(0.2, "20% shorter growth")
  const HighTier := FertilizerEffect(0.25, "25% shorter growth")

  datatype FertilizerConfig = FertilizerConfig(price: nat, stackable: bool, applyBeforePlant: bool)

  /** Shop configuration: one unit costs 50 coins and applies once per plot. */
  const Config := FertilizerConfig(50, false, true)

  /** The growth-time multiplier; the seed id is accepted but does not matter. */
  function GetFertilizerMultiplier(seedId: Option<string>): (m: real)
    ensures m == 0.8
  {
    1.0 - DefaultEffect.reductionPercent
  }

  /**
   `Math.floor(t * multiplier)` when fertilized, `t` otherwise. The double
   product `t * 0.8` is idealised as the exact rational `4t/5`.
   */
  function GetAdjustedGrowTime(t: int, fertilized: bool): (r: int)
    ensures !fertilized ==> r == t
    ensures fertilized ==> r as real <= t as real * GetFertilizerMultiplier(None) < r as real + 1.0
  {
    if !fertilized then t else (4 * t) / 5
  }

  /** Fertilizing never lengthens a non-negative duration. */
  lemma AdjustedNotLonger(t: int, fertilized: bool)
    requires t >= 0
    ensures 0 <= GetAdjustedGrowTime(t, fertilized) <= t
  {
  }

  /** For a fixed fertilized flag, a longer duration stays at least as long after adjustment. */
  lemma AdjustedMonotone(t1: int, t2: int, fertilized: bool)
    requires t1 <= t2
    ensures GetAdjustedGrowTime(t1, fertilized) <= GetAdjustedGrowTime(t2, fertilized)
  {
  }

  /** Two durations at least two seconds apart stay strictly ordered, and a duration of two or more stays positive. */
  lemma AdjustedStrict(t1: int, t2: int, fertilized: bool)
    requires 2 <= t1 && t1 + 2 <= t2
    ensures 0 < GetAdjustedGrowTime(t1, fertilized) < GetAdjustedGrowTime(t2, fertilized)
  {
  }

  /**
   The tier a seed id falls into: the number after the first `_` is at most 1
   (low), at most 5 (mid), anything else -- including no number -- high.
   */
  function GetRecommendedFertilizerEffect(seedId: string): (e: FertilizerEffect)
    ensures var n := match SecondField(seedId) case None => None case Some(f) => ParseInt(f);
            && (e == LowTier <==> n.Some? && n.value <= 1)
            && (e == MidTier <==> n.Some? && 1 < n.value <= 5)
            && (e == HighTier <==> n.None? || 5 < n.value)
  {
    var n := match SecondField(seedId) case None => None case Some(f) => ParseInt(f);
    if n.Some? && n.value <= 1 then LowTier
    else if n.Some? && n.value <= 5 then MidTier
    else HighTier
  }
}
