/**
 The off-chain plot unlock request: a plot of the player's list is unlocked
 for the coins and level the price table asks, after the index, the table
 entry, the player's plot and its lock state are checked, in that order.
 */
module PlotUnlock {
  import opened Common
  import opened Farm
  import opened Requests
  import PlotPrices
  import EventHandlers

  datatype UnlockError =
    | InvalidRequest
    | PlotConfigNotFound
    | PlotNotInUser
    | AlreadyUnlocked
    | LevelTooLow(required: nat, current: int)
    | InsufficientCoins(required: nat, current: int)

  /** The response on success: the updated user, the price paid and the level it needed. */
  datatype Unlocked = Unlocked(user: User, cost: nat, levelRequired: nat)

  /**
   `plots_list.find(p => p.plot_index === plotIndex)`: the position of the
   first plot carrying that index, which need not be its position.
   */
  function FindPlot(plots: seq<Plot>, index: int): (r: Option<nat>)
    ensures r.Some? ==> r.value < |plots| && plots[r.value].plotIndex == index
    ensures r.Some? ==> forall j :: 0 <= j < r.value ==> plots[j].plotIndex != index
    ensures r.None? ==> forall j :: 0 <= j < |plots| ==> plots[j].plotIndex != index
  {
    if |plots| == 0 then None
    else if plots[0].plotIndex == index then Some(0)
    else match FindPlot(plots[1..], index)
      case None => None
      case Some(j) => Some(j + 1)
  }

  /** The plot a valid index designates in the player's list, found by its stored index. */
  ghost predicate Unlockable(u: User, n: int) {
    && 0 <= n < PlotPrices.PlotCount
    && FindPlot(u.plots, n).Some?
    && !u.plots[FindPlot(u.plots, n).value].unlocked
  }

  /**
   The handler body. A NaN index passes both range comparisons (each is
   false) and then finds no table entry.
   */
  function Unlock(u: User, plotIndex: Value): (r: Result<Unlocked, UnlockError>)
    ensures r == Err(InvalidRequest) <==>
      !IsNumber(plotIndex) || (plotIndex.Num? && !(0 <= plotIndex.n < PlotPrices.PlotCount))
    ensures r == Err(PlotConfigNotFound) <==> plotIndex.NaN?
    ensures r.Ok? <==>
      && plotIndex.Num?
      && Unlockable(u, plotIndex.n)
      && u.level >= PlotPrices.PLOT_PRICES[plotIndex.n].levelReq
      && u.coins >= PlotPrices.PLOT_PRICES[plotIndex.n].unlockCost
    ensures r.Ok? ==>
      var n := plotIndex.n;
      var pos := FindPlot(u.plots, n).value;
      var v := r.value.user;
      && r.value.cost == PlotPrices.PLOT_PRICES[n].unlockCost
      && r.value.levelRequired == PlotPrices.PLOT_PRICES[n].levelReq
      && v.coins == u.coins - r.value.cost && v.coins >= 0
      && v.plots == u.plots[pos := u.plots[pos].(unlocked := true)]
      && v == u.(coins := v.coins, plots := v.plots)
    ensures r == Err(PlotNotInUser) <==>
      plotIndex.Num? && 0 <= plotIndex.n < PlotPrices.PlotCount && FindPlot(u.plots, plotIndex.n).None?
    ensures r == Err(AlreadyUnlocked) <==>
      && plotIndex.Num? && 0 <= plotIndex.n < PlotPrices.PlotCount && FindPlot(u.plots, plotIndex.n).Some?
      && u.plots[FindPlot(u.plots, plotIndex.n).value].unlocked
    ensures (r.Err? && r.error.LevelTooLow?) <==>
      plotIndex.Num? && Unlockable(u, plotIndex.n) && u.level < PlotPrices.PLOT_PRICES[plotIndex.n].levelReq
    ensures r.Err? && r.error.LevelTooLow? ==>
      r.error == LevelTooLow(PlotPrices.PLOT_PRICES[plotIndex.n].levelReq, u.level)
    ensures (r.Err? && r.error.InsufficientCoins?) <==>
      && plotIndex.Num? && Unlockable(u, plotIndex.n)
      && u.level >= PlotPrices.PLOT_PRICES[plotIndex.n].levelReq
      && u.coins < PlotPrices.PLOT_PRICES[plotIndex.n].unlockCost
    ensures r.Err? && r.error.InsufficientCoins? ==>
      r.error == InsufficientCoins(PlotPrices.PLOT_PRICES[plotIndex.n].unlockCost, u.coins)
  {
    if !IsNumber(plotIndex) || (plotIndex.Num? && (plotIndex.n < 0 || plotIndex.n >= 18)) then Err(InvalidRequest)
    else if plotIndex.NaN? then Err(PlotConfigNotFound)
    else
      var n := plotIndex.n;
      match PlotPrices.GetPlotPrice(n)
      case None => Err(PlotConfigNotFound)
      case Some(config) =>
        match FindPlot(u.plots, n)
        case None => Err(PlotNotInUser)
        case Some(pos) =>
          var plot := u.plots[pos];
          if plot.unlocked then Err(AlreadyUnlocked)
          else if u.level < config.levelReq then Err(LevelTooLow(config.levelReq, u.level))
          else if u.coins < config.unlockCost then Err(InsufficientCoins(config.unlockCost, u.coins))
          else
            Ok(Unlocked(
              u.(coins := u.coins - config.unlockCost, plots := u.plots[pos := plot.(unlocked := true)]),
              config.unlockCost, config.levelReq))
  }

  /**
   Once the plot is found and locked, the request succeeds exactly when the
   table's own check does, and fails for the same reason: level before coins.
   */
  lemma UnlockAgreesWithCanUnlock(u: User, n: int)
    requires Unlockable(u, n)
    ensures Unlock(u, Num(n)).Ok? <==> PlotPrices.CanUnlockPlot(n, u.coins, u.level).Ok?
    ensures Unlock(u, Num(n)).Err? && Unlock(u, Num(n)).error.LevelTooLow? <==>
      PlotPrices.CanUnlockPlot(n, u.coins, u.level).Err? && PlotPrices.CanUnlockPlot(n, u.coins, u.level).error.LevelTooLow?
  {
  }

  /** A plot once unlocked cannot be bought again: a second request is refused and charges nothing. */
  lemma {:induction false} UnlockOnce(u: User, n: int)
    requires Unlock(u, Num(n)).Ok?
    ensures Unlock(Unlock(u, Num(n)).value.user, Num(n)) == Err(AlreadyUnlocked)
  {
    var v := Unlock(u, Num(n)).value.user;
    var pos := FindPlot(u.plots, n).value;
    FindPlotSameIndices(u.plots, v.plots, n);
    assert FindPlot(v.plots, n) == Some(pos);
  }

  /** Lists with the same stored indices find the same position. */
  lemma {:induction false} FindPlotSameIndices(a: seq<Plot>, b: seq<Plot>, n: int)
    requires |a| == |b|
    requires forall i :: 0 <= i < |a| ==> a[i].plotIndex == b[i].plotIndex
    ensures FindPlot(a, n) == FindPlot(b, n)
    decreases |a|
  {
    if |a| > 0 {
      FindPlotSameIndices(a[1..], b[1..], n);
    }
  }

  /**
   On a new player's list, index and position coincide: plot 0 is already
   open, and plot 1 costs 100 of the starting 1000 coins.
   */
  lemma UnlockNewPlayer(walletAddress: string, clock: int)
    ensures var u := PreSave(NewUser(walletAddress, clock), true);
      && (forall n :: 0 <= n < InitialPlotCount ==> FindPlot(u.plots, n) == Some(n))
      && Unlock(u, Num(0)) == Err(AlreadyUnlocked)
      && Unlock(u, Num(1)).Ok? && Unlock(u, Num(1)).value.user.coins == 900
      && Unlock(u, Num(2)) == Err(LevelTooLow(2, 1))
  {
    var u := PreSave(NewUser(walletAddress, clock), true);
    forall n | 0 <= n < InitialPlotCount
      ensures FindPlot(u.plots, n) == Some(n)
    {
      FindPlotIdentity(u.plots, n);
    }
    NewPlayerUnlocks(u);
  }

  /** The three unlock outcomes on a new player's list, once each index is found at its position. */
  lemma NewPlayerUnlocks(u: User)
    requires u.coins == 1000 && u.level == 1 && |u.plots| == InitialPlotCount
    requires forall i :: 0 <= i < |u.plots| ==> u.plots[i] == FreshPlot(i)
    ensures Unlock(u, Num(0)) == Err(AlreadyUnlocked)
    ensures Unlock(u, Num(1)).Ok? && Unlock(u, Num(1)).value.user.coins == 900
    ensures Unlock(u, Num(2)) == Err(LevelTooLow(2, 1))
  {
    FindPlotIdentity(u.plots, 0);
    FindPlotIdentity(u.plots, 1);
    FindPlotIdentity(u.plots, 2);
    assert u.plots[0].unlocked && !u.plots[1].unlocked && !u.plots[2].unlocked;
  }

  /** When every plot carries its position as index, each index is found at its position. */
  lemma FindPlotIdentity(plots: seq<Plot>, n: nat)
    requires forall i :: 0 <= i < |plots| ==> plots[i].plotIndex == i
    requires n < |plots|
    ensures FindPlot(plots, n) == Some(n)
  {
    assert plots[n].plotIndex == n;
    var r := FindPlot(plots, n).value;
    assert plots[r].plotIndex == r;
  }

  /**
   The chain's unlock event and this request unlock the same plot when the
   plot sits at its own position, and they leave the same player exactly
   when the table price equals the handler's flat charge, which happens at
   plot 1 alone; otherwise the coins differ by the price gap.
   */
  lemma UnlockPathsAgree(u: User, n: nat)
    requires Unlock(u, Num(n)).Ok?
    requires FindPlot(u.plots, n) == Some(n)
    ensures EventHandlers.UnlockPlot(u, n).Ok?
    ensures
      var chain := EventHandlers.UnlockPlot(u, n).value;
      var offChain := Unlock(u, Num(n)).value.user;
      && chain.plots == offChain.plots
      && chain.coins - offChain.coins == PlotPrices.PLOT_PRICES[n].unlockCost - EventHandlers.HandlerUnlockCost
      && (chain == offChain <==> n == 1)
  {
    var offChain := Unlock(u, Num(n)).value.user;
    var cost := PlotPrices.PLOT_PRICES[n].unlockCost;
    assert offChain == u.(coins := u.coins - cost, plots := u.plots[n := u.plots[n].(unlocked := true)]);
    var chain := EventHandlers.UnlockPlot(u, n).value;
    assert chain == u.(coins := u.coins - EventHandlers.HandlerUnlockCost, plots := offChain.plots);
    OnlyPlotOneCostsHundred(n);
  }

  /** Plot 1 is the only table entry priced at the handler's flat 100 coins. */
  lemma OnlyPlotOneCostsHundred(n: nat)
    requires n < PlotPrices.PlotCount
    ensures PlotPrices.PLOT_PRICES[n].unlockCost == 100 <==> n == 1
  {
  }
}
