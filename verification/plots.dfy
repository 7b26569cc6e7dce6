/** Plot unlock prices and level requirements, and the checks over them. */
module PlotPrices {
  import opened Common

  datatype PlotPrice = PlotPrice(unlockCost: nat, levelReq: nat)

  const PlotCount: nat := 18

  const PLOT_PRICES: seq<PlotPrice> := [
    PlotPrice(0, 1),
    PlotPrice(100, 1),
    PlotPrice(150, 2),
    PlotPrice(250, 3),
    PlotPrice(400, 4),
    PlotPrice(600, 5),
    PlotPrice(900, 6),
    PlotPrice(1300, 7),
    PlotPrice(1800, 8),
    PlotPrice(2500, 9),
    PlotPrice(3300, 10),
    PlotPrice(4200, 11),
    PlotPrice(5500, 12),
    PlotPrice(7000, 13),
    PlotPrice(9000, 14),
    PlotPrice(11500, 15),
    PlotPrice(14500, 16),
    PlotPrice(18000, 17)
  ]

  /** 18 entries, the first free at level 1, costs and level requirements non-decreasing. */
  ghost predicate PriceTable(t: seq<PlotPrice>) {
    && |t| == PlotCount
    && t[0] == PlotPrice(0, 1)
    && forall i, j :: 0 <= i <= j < |t| ==> t[i].levelReq <= t[j].levelReq && t[i].unlockCost <= t[j].unlockCost
  }

  lemma PlotPricesTable()
    ensures PriceTable(PLOT_PRICES)
  {
    var t := PLOT_PRICES;
    assert forall i :: 0 <= i < |t| - 1 ==> t[i].levelReq <= t[i + 1].levelReq && t[i].unlockCost <= t[i + 1].unlockCost;
    forall i, j | 0 <= i <= j < |t|
      ensures t[i].levelReq <= t[j].levelReq && t[i].unlockCost <= t[j].unlockCost
    {
      var k := i;
      while k < j
        invariant i <= k <= j
        invariant t[i].levelReq <= t[k].levelReq && t[i].unlockCost <= t[k].unlockCost
      {
        k := k + 1;
      }
    }
  }

  function GetPlotPrice(plotIndex: int): (r: Option<PlotPrice>)
    ensures r.None? <==> plotIndex < 0 || plotIndex >= PlotCount
    ensures r.Some? ==> r.value == PLOT_PRICES[plotIndex]
  {
    if plotIndex < 0 || plotIndex >= |PLOT_PRICES| then None else Some(PLOT_PRICES[plotIndex])
  }

  datatype UnlockRefusal = InvalidPlotIndex | LevelTooLow(required: nat, current: int) | NotEnoughCoins(required: nat, current: int)

  /** The index is checked first, then the level, then the coins. */
  function CanUnlockPlot(plotIndex: int, coins: int, level: int): (r: Result<(), UnlockRefusal>)
    ensures r.Ok? <==> GetPlotPrice(plotIndex).Some?
                       && level >= PLOT_PRICES[plotIndex].levelReq
                       && coins >= PLOT_PRICES[plotIndex].unlockCost
    ensures r == Err(InvalidPlotIndex) <==> GetPlotPrice(plotIndex).None?
    ensures r.Err? && r.error.NotEnoughCoins? ==> level >= PLOT_PRICES[plotIndex].levelReq
  {
    match GetPlotPrice(plotIndex)
    case None => Err(InvalidPlotIndex)
    case Some(p) =>
      if level < p.levelReq then Err(LevelTooLow(p.levelReq, level))
      else if coins < p.unlockCost then Err(NotEnoughCoins(p.unlockCost, coins))
      else Ok(())
  }

  /** The loop over the table counting entries until the first one above `level`. */
  function PrefixCount(t: seq<PlotPrice>, level: int): (n: nat)
    ensures n <= |t|
    ensures forall i :: 0 <= i < n ==> t[i].levelReq <= level
    ensures n < |t| ==> t[n].levelReq > level
  {
    if |t| == 0 || level < t[0].levelReq then 0 else 1 + PrefixCount(t[1..], level)
  }

  /** How many plots a player of this level may unlock. */
  function GetMaxUnlockablePlots(level: int): (n: nat)
    ensures n <= PlotCount
    ensures forall i :: 0 <= i < n ==> PLOT_PRICES[i].levelReq <= level
    ensures n < PlotCount ==> PLOT_PRICES[n].levelReq > level
  {
    PrefixCount(PLOT_PRICES, level)
  }

  lemma MaxUnlockableMonotone(level1: int, level2: int)
    requires level1 <= level2
    ensures GetMaxUnlockablePlots(level1) <= GetMaxUnlockablePlots(level2)
  {
  }

  /** The number of table entries whose level requirement is met, wherever they sit. */
  function CountMet(t: seq<PlotPrice>, level: int): nat {
    if |t| == 0 then 0 else (if t[0].levelReq <= level then 1 else 0) + CountMet(t[1..], level)
  }

  /** With non-decreasing requirements, an entry above `level` is followed only by entries above it. */
  lemma {:induction false} CountMetOnSorted(t: seq<PlotPrice>, level: int)
    requires forall i, j :: 0 <= i <= j < |t| ==> t[i].levelReq <= t[j].levelReq
    ensures CountMet(t, level) == PrefixCount(t, level)
    decreases |t|
  {
    if |t| > 0 {
      CountMetOnSorted(t[1..], level);
      if level < t[0].levelReq {
        NoneMetAbove(t[1..], level);
      }
    }
  }

  lemma {:induction false} NoneMetAbove(t: seq<PlotPrice>, level: int)
    requires forall i :: 0 <= i < |t| ==> t[i].levelReq > level
    ensures CountMet(t, level) == 0
    decreases |t|
  {
    if |t| > 0 {
      NoneMetAbove(t[1..], level);
    }
  }

  /** The prefix count is the total count of affordable-by-level plots. */
  lemma MaxUnlockableCountsAll(level: int)
    ensures GetMaxUnlockablePlots(level) == CountMet(PLOT_PRICES, level)
  {
    PlotPricesTable();
    CountMetOnSorted(PLOT_PRICES, level);
  }
}
