/** The seed catalogue, keyed by `seed_0` .. `seed_9`, and the lookups over it. */
module Seeds {
  import opened Common
  import opened Text
  import Fertilizer

  /**
   One crop. `stage0`, `stage1`, `stage2` are the three `stages` values; the
   plot calculator reads them as cumulative boundaries (seconds from planting
   at which the seed, sprout and growing stages end).
   */
  datatype SeedConfig = SeedConfig(
    name: string,
    cost: nat,
    price: nat,
    exp: nat,
    stage0: nat,
    stage1: nat,
    stage2: nat,
    witherTime: nat,
    waterReqs: nat,
    weedReqs: nat)

  const SeedCount: nat := 10

  /** `SEEDS[k]` is the entry stored under the key `SeedKey(k)`. Display names are given in English. */
  const SEEDS: seq<SeedConfig> := [
    SeedConfig("wheat", 10, 25, 5, 30, 60, 90, 180, 1, 1),
    SeedConfig("carrot", 20, 50, 8, 60, 120, 180, 300, 2, 1),
    SeedConfig("corn", 50, 120, 15, 180, 300, 420, 600, 2, 2),
    SeedConfig("tomato", 80, 200, 25, 300, 600, 900, 900, 3, 2),
    SeedConfig("watermelon", 150, 400, 40, 600, 1200, 1800, 1800, 3, 3),
    SeedConfig("strawberry", 250, 700, 60, 900, 1800, 2700, 3600, 4, 3),
    SeedConfig("pumpkin", 400, 1100, 90, 1800, 3600, 5400, 7200, 4, 4),
    SeedConfig("grape", 600, 1700, 130, 3600, 7200, 10800, 10800, 5, 4),
    SeedConfig("dragon fruit", 1000, 3000, 200, 7200, 14400, 21600, 21600, 6, 5),
    SeedConfig("golden corn", 1500, 5000, 300, 14400, 28800, 43200, 43200, 7, 6)
  ]

  /** `seed_${n}` */
  function SeedKey(n: nat): string {
    "seed_" + DecimalString(n)
  }

  /** `fruit_${n}`: the harvested good of seed n. */
  function FruitKey(n: nat): string {
    "fruit_" + DecimalString(n)
  }

  lemma SeedKeyInjective(m: nat, n: nat)
    requires SeedKey(m) == SeedKey(n)
    ensures m == n
  {
    assert SeedKey(m)[5..] == DecimalString(m);
    assert SeedKey(n)[5..] == DecimalString(n);
    DecimalStringInjective(m, n);
  }

  /** The second `_`-separated field of a seed key is the decimal index. */
  lemma SeedKeyField(n: nat)
    ensures SecondField(SeedKey(n)) == Some(DecimalString(n))
  {
    var d := DecimalString(n);
    assert forall i :: 0 <= i < |d| ==> IsDigit(d[i]);
    assert "seed_" + d == "seed" + "_" + d;
    SecondFieldOfJoin("seed", d);
  }

  lemma FruitKeyField(n: nat)
    ensures SecondField(FruitKey(n)) == Some(DecimalString(n))
  {
    var d := DecimalString(n);
    assert forall i :: 0 <= i < |d| ==> IsDigit(d[i]);
    assert "fruit_" + d == "fruit" + "_" + d;
    SecondFieldOfJoin("fruit", d);
  }

  function FindSeed(id: string, k: nat): (r: Option<nat>)
    requires k <= SeedCount
    ensures r.Some? ==> k <= r.value < SeedCount && SeedKey(r.value) == id
    ensures r.None? ==> forall j :: k <= j < SeedCount ==> SeedKey(j) != id
    decreases SeedCount - k
  {
    if k == SeedCount then None
    else if SeedKey(k) == id then Some(k)
    else FindSeed(id, k + 1)
  }

  /** The catalogue index stored under `id`, if `id` is one of the ten keys. */
  function SeedIndex(id: string): (r: Option<nat>)
    ensures r.Some? ==> r.value < SeedCount && SeedKey(r.value) == id
    ensures r.None? ==> forall j :: 0 <= j < SeedCount ==> SeedKey(j) != id
  {
    FindSeed(id, 0)
  }

  /** `SEEDS[id] || null` */
  function GetSeedConfig(id: string): (r: Option<SeedConfig>)
    ensures r.Some? <==> SeedIndex(id).Some?
    ensures r.Some? ==> r.value == SEEDS[SeedIndex(id).value]
  {
    match SeedIndex(id)
    case None => None
    case Some(k) => Some(SEEDS[k])
  }

  /** Exactly the keys `seed_0` .. `seed_9` are known; every other rendered index is not. */
  lemma KnownSeedKeys(n: nat)
    ensures GetSeedConfig(SeedKey(n)).Some? <==> n < SeedCount
    ensures n < SeedCount ==> SeedIndex(SeedKey(n)) == Some(n)
  {
    var r := SeedIndex(SeedKey(n));
    if r.Some? {
      SeedKeyInjective(r.value, n);
    } else {
      assert n >= SeedCount;
    }
  }

  /** The entry is a real crop: strictly increasing boundaries and at least one water and weed checkpoint. */
  predicate WellFormedSeed(s: SeedConfig) {
    && 0 < s.stage0 < s.stage1 < s.stage2
    && s.waterReqs > 0
    && s.weedReqs > 0
  }

  lemma SeedTableWellFormed()
    ensures |SEEDS| == SeedCount
    ensures forall k :: 0 <= k < SeedCount ==> WellFormedSeed(SEEDS[k])
  {
  }

  /** The alternate "sum of durations" reading of the stages; 0 for an unknown seed. */
  function GetTotalGrowTime(id: string): (t: nat)
    ensures GetSeedConfig(id).None? ==> t == 0
    ensures GetSeedConfig(id).Some? ==>
      var s := GetSeedConfig(id).value; t == s.stage0 + s.stage1 + s.stage2
  {
    match GetSeedConfig(id)
    case None => 0
    case Some(s) => s.stage0 + s.stage1 + s.stage2
  }

  /** For a known seed the sum reading is always longer than the cumulative reading `stage2`. */
  lemma TotalGrowTimeExceedsMaturity(n: nat)
    requires n < SeedCount
    ensures GetTotalGrowTime(SeedKey(n)) > SEEDS[n].stage2
  {
    KnownSeedKeys(n);
    SeedTableWellFormed();
  }

  /**
   The older stage reading: the (scaled) stage values are summed into
   boundaries c0 = s0, c1 = s0+s1, c2 = s0+s1+s2 and c2 + witherTime.
   Returns -1 for an unknown seed, 0 before c0, 1 before c1, 2 before the
   wither start (growing and ripe alike) and 3 after it.
   */
  function GetGrowthStage(id: string, plantedAt: int, pausedDuration: int, fertilized: bool, now: int): (r: int)
    ensures r == -1 <==> GetSeedConfig(id).None?
    ensures -1 <= r <= 3
    ensures r >= 0 ==>
      var s := GetSeedConfig(id).value;
      var e := now - plantedAt - pausedDuration;
      var c0 := Fertilizer.GetAdjustedGrowTime(s.stage0, fertilized);
      var c1 := c0 + Fertilizer.GetAdjustedGrowTime(s.stage1, fertilized);
      var c2 := c1 + Fertilizer.GetAdjustedGrowTime(s.stage2, fertilized);
      && (r == 0 <==> e < c0)
      && (r == 1 <==> c0 <= e < c1)
      && (r == 2 <==> c1 <= e < c2 + s.witherTime)
      && (r == 3 <==> c2 + s.witherTime <= e)
  {
    match GetSeedConfig(id)
    case None => -1
    case Some(s) =>
      var elapsed := now - plantedAt - pausedDuration;
      var c0 := Fertilizer.GetAdjustedGrowTime(s.stage0, fertilized);
      var c1 := c0 + Fertilizer.GetAdjustedGrowTime(s.stage1, fertilized);
      var c2 := c1 + Fertilizer.GetAdjustedGrowTime(s.stage2, fertilized);
      var witherStart := c2 + s.witherTime;
      if elapsed < c0 then 0
      else if elapsed < c1 then 1
      else if elapsed < c2 then 2
      else if elapsed < witherStart then 2
      else 3
  }

  /** Waiting longer never moves a crop back to an earlier stage. */
  lemma GrowthStageMonotone(id: string, plantedAt: int, pausedDuration: int, fertilized: bool, now1: int, now2: int)
    requires now1 <= now2
    ensures GetGrowthStage(id, plantedAt, pausedDuration, fertilized, now1)
         <= GetGrowthStage(id, plantedAt, pausedDuration, fertilized, now2)
  {
    if GetSeedConfig(id).Some? {
      var s := GetSeedConfig(id).value;
      assert s in SEEDS;
      SeedTableWellFormed();
      Fertilizer.AdjustedNotLonger(s.stage0, fertilized);
      Fertilizer.AdjustedNotLonger(s.stage1, fertilized);
      Fertilizer.AdjustedNotLonger(s.stage2, fertilized);
    }
  }

  /** Every catalogue entry keeps positive, strictly increasing stage boundaries after scaling, fertilized or not. */
  lemma ScaledStagesIncreasing(s: SeedConfig, fertilized: bool)
    requires s in SEEDS
    ensures 0 < Fertilizer.GetAdjustedGrowTime(s.stage0, fertilized)
        < Fertilizer.GetAdjustedGrowTime(s.stage1, fertilized)
        < Fertilizer.GetAdjustedGrowTime(s.stage2, fertilized)
  {
    var k :| 0 <= k < |SEEDS| && SEEDS[k] == s;
    assert 2 <= s.stage0 && s.stage0 + 2 <= s.stage1 && s.stage1 + 2 <= s.stage2;
    Fertilizer.AdjustedStrict(s.stage0, s.stage1, fertilized);
    Fertilizer.AdjustedStrict(s.stage1, s.stage2, fertilized);
  }

  /** The recommended fertilizer tier of each seed key follows its index: 0-1 low, 2-5 mid, the rest high. */
  lemma RecommendedTierOfSeed(n: nat)
    ensures var e := Fertilizer.GetRecommendedFertilizerEffect(SeedKey(n));
      && (e == Fertilizer.LowTier <==> n <= 1)
      && (e == Fertilizer.MidTier <==> 2 <= n <= 5)
      && (e == Fertilizer.HighTier <==> 5 < n)
  {
    SeedKeyField(n);
    ParseIntDecimal(n);
  }
}
