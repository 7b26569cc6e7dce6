/** The daily check-in reward: a weighted choice of coin bands, and the once-a-day test. */
module Checkin {
  import opened Common
  import opened Weighted

  /** One band; `weight` is its probability in percent. */
  datatype CheckinReward = CheckinReward(weight: nat, minCoins: int, maxCoins: int)

  const CheckinScale: nat := 100

  const CHECKIN_REWARDS: seq<CheckinReward> := [
    CheckinReward(50, 50, 100),
    CheckinReward(30, 100, 200),
    CheckinReward(15, 200, 400),
    CheckinReward(5, 400, 800)
  ]

  /** The band weights, in percent, in table order. */
  const CheckinWeights: seq<nat> := Weights(CHECKIN_REWARDS, (e: CheckinReward) => e.weight)

  /** The four bands are 50/30/15/5 percent and together cover every roll. */
  lemma CheckinWeightsSumToScale()
    ensures Total(CheckinWeights) == CheckinScale
  {
    var ws := CheckinWeights;
    assert Cumulative(ws, 1) == 50;
    assert Cumulative(ws, 2) == 80;
    assert Cumulative(ws, 3) == 95;
  }

  /**
   The coins awarded for a check-in: the first band whose running probability
   reaches `pick`, then a value in that band drawn with `amount`; the lowest
   band's minimum if `pick` passes every band.
   */
  function PerformDailyCheckin(pick: Unit, amount: Unit): (coins: int)
    ensures 50 <= coins <= 800
    ensures Pick(CheckinWeights, CheckinScale, pick).None? ==> coins == CHECKIN_REWARDS[0].minCoins
    ensures Pick(CheckinWeights, CheckinScale, pick).Some? ==>
      var band := CHECKIN_REWARDS[Pick(CheckinWeights, CheckinScale, pick).value];
      band.minCoins <= coins <= band.maxCoins
  {
    match Pick(CheckinWeights, CheckinScale, pick)
    case None => CHECKIN_REWARDS[0].minCoins
    case Some(i) =>
      var band := CHECKIN_REWARDS[i];
      RollBetween(band.minCoins, band.maxCoins, amount)
  }

  /** The fallback is never needed: every roll in [0, 1) lands in a band. */
  lemma CheckinAlwaysBanded(pick: Unit)
    ensures Pick(CheckinWeights, CheckinScale, pick).Some?
  {
    CheckinWeightsSumToScale();
    PickTotal(CheckinWeights, CheckinScale, pick);
  }

  /** A low roll always lands in the first (most likely) band. */
  lemma LowRollFirstBand(pick: Unit, amount: Unit)
    requires pick <= 0.5
    ensures 50 <= PerformDailyCheckin(pick, amount) <= 100
  {
    var ws := CheckinWeights;
    assert Cumulative(ws, 1) == 50;
    assert Pick(ws, CheckinScale, pick) == Some(0);
  }

  /**
   A stored date string that is missing or empty never counts; otherwise the
   user has checked in today exactly when it equals today's date string.
   */
  function HasCheckedInToday(lastCheckinDate: Option<string>, today: string): (r: bool)
    ensures r ==> lastCheckinDate == Some(today)
    ensures today != "" && lastCheckinDate == Some(today) ==> r
    ensures lastCheckinDate.None? ==> !r
  {
    match lastCheckinDate
    case None => false
    case Some(d) => d != "" && d == today
  }
}
