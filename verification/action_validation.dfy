/**
 The checks run before an on-chain action voucher is issued. Each validator
 either refuses with a reason or returns the action's payload, an unsigned
 integer packed for the contract. The crop state is read through the plot
 calculator at the current time `now`, which the caller supplies; the pest
 roll plays no part in any check (`GameLogic.StatusIgnoresPestRoll`), so the
 calculator runs without one.
 */
module ActionValidation {
  import opened Common
  import opened Text
  import opened Bits
  import opened Farm
  import Seeds
  import GameLogic

  datatype ValidationError =
    | InvalidPlotIndex
    | PlotLocked
    | PlotOccupied
    | InvalidSeed
    | NoSeedInBackpack
    | NoCrop
    | NotRipe(stage: Stage)
    | NoWaterNeeded
    | NoWeeds
    | NoFertilizer
    | AlreadyFertilized
    | InvalidDrawCount
    | NotEnoughTickets(needed: int, have: int)
    | UnknownAction(actionType: string)

  /** The request's arguments; each validator reads the fields its action uses. */
  datatype ActionArgs = ActionArgs(plotId: int, seedId: string, count: int)

  /** `plotId < 0 || plotId >= plots_list.length` rejects the index. */
  predicate ValidIndex(u: User, plotId: int) {
    0 <= plotId < |u.plots|
  }

  /** The crop state the validators read: the calculator's status at `now`. */
  function StatusAt(plot: Plot, now: int): GameLogic.PlotStatus {
    GameLogic.CalculatePlotStatus(plot, now, None).status
  }

  /**
   `parseInt(seedId.split('_')[1] || '0')`: the number after the first
   underscore, where a missing or empty field reads as 0. For a catalogue key
   it is the key's index.
   */
  function PlantSeedIndex(seedId: string): (n: Option<int>)
    ensures Seeds.SeedIndex(seedId).Some? ==> n == Some(Seeds.SeedIndex(seedId).value)
  {
    var field := match SecondField(seedId)
      case None => "0"
      case Some(f) => if f == "" then "0" else f;
    if Seeds.SeedIndex(seedId).Some? then
      var k := Seeds.SeedIndex(seedId).value;
      Seeds.SeedKeyField(k);
      ParseIntDecimal(k);
      ParseInt(field)
    else ParseInt(field)
  }

  /** `BigInt(plotId) | (BigInt(seedIndex) << 16n)` */
  function PackPlant(plotId: nat, seedIndex: nat): nat {
    BitOr(plotId, seedIndex * FieldSize)
  }

  /** Below 2^16 the plot index occupies the low field alone, so the OR is an addition. */
  lemma PackPlantFields(plotId: nat, seedIndex: nat)
    requires plotId < FieldSize
    ensures PackPlant(plotId, seedIndex) == plotId + seedIndex * FieldSize
    ensures PackPlant(plotId, seedIndex) % FieldSize == plotId
    ensures PackPlant(plotId, seedIndex) / FieldSize == seedIndex
  {
    FieldSizeIsPow2();
    BitOrDisjoint(plotId, seedIndex, FieldBits);
  }

  /**
   Planting: index, unlocked, empty (any stored seed id, even an empty one,
   counts as occupied), catalogue seed, at least one in the backpack, checked
   in that order.
   */
  function ValidatePlant(u: User, plotId: int, seedId: string): (r: Result<nat, ValidationError>)
    ensures r.Ok? <==>
      && ValidIndex(u, plotId)
      && u.plots[plotId].unlocked
      && u.plots[plotId].seedId.None?
      && Seeds.GetSeedConfig(seedId).Some?
      && Count(u.backpack, seedId) > 0
    ensures r.Ok? ==> r.value == PackPlant(plotId, Seeds.SeedIndex(seedId).value)
    ensures r == Err(InvalidPlotIndex) <==> !ValidIndex(u, plotId)
    ensures r == Err(NoSeedInBackpack) ==> Count(u.backpack, seedId) <= 0
    ensures r == Err(PlotLocked) <==> ValidIndex(u, plotId) && !u.plots[plotId].unlocked
    ensures r == Err(PlotOccupied) <==>
      ValidIndex(u, plotId) && u.plots[plotId].unlocked && u.plots[plotId].seedId.Some?
    ensures r == Err(InvalidSeed) <==>
      && ValidIndex(u, plotId) && u.plots[plotId].unlocked && u.plots[plotId].seedId.None?
      && Seeds.GetSeedConfig(seedId).None?
    ensures r == Err(NoSeedInBackpack) <==>
      && ValidIndex(u, plotId) && u.plots[plotId].unlocked && u.plots[plotId].seedId.None?
      && Seeds.GetSeedConfig(seedId).Some? && Count(u.backpack, seedId) <= 0
  {
    if plotId < 0 || plotId >= |u.plots| then Err(InvalidPlotIndex)
    else
      var plot := u.plots[plotId];
      if !plot.unlocked then Err(PlotLocked)
      else if plot.seedId.Some? then Err(PlotOccupied)
      else if Seeds.GetSeedConfig(seedId).None? then Err(InvalidSeed)
      else if Count(u.backpack, seedId) <= 0 then Err(NoSeedInBackpack)
      else
        var seedIndex := PlantSeedIndex(seedId).value;
        Ok(PackPlant(plotId, seedIndex))
  }

  /** Index, then a crop (seed id and planting time both set), then ripeness. */
  function ValidateHarvest(u: User, plotId: int, now: int): (r: Result<nat, ValidationError>)
    ensures r.Ok? <==>
      ValidIndex(u, plotId) && HasCrop(u.plots[plotId]) && StatusAt(u.plots[plotId], now).stage == Ripe
    ensures r.Ok? ==> r.value == plotId
    ensures r.Err? && r.error.NotRipe? ==> r.error.stage != Ripe
  {
    if plotId < 0 || plotId >= |u.plots| then Err(InvalidPlotIndex)
    else
      var plot := u.plots[plotId];
      if !HasCrop(plot) then Err(NoCrop)
      else
        var status := StatusAt(plot, now);
        if status.stage != Ripe then Err(NotRipe(status.stage))
        else Ok(plotId)
  }

  /** Index, then a crop, then an overdue watering checkpoint. */
  function ValidateWater(u: User, plotId: int, now: int): (r: Result<nat, ValidationError>)
    ensures r.Ok? <==>
      ValidIndex(u, plotId) && HasCrop(u.plots[plotId]) && StatusAt(u.plots[plotId], now).needsWater
    ensures r.Ok? ==> r.value == plotId
  {
    if plotId < 0 || plotId >= |u.plots| then Err(InvalidPlotIndex)
    else
      var plot := u.plots[plotId];
      if !HasCrop(plot) then Err(NoCrop)
      else if !StatusAt(plot, now).needsWater then Err(NoWaterNeeded)
      else Ok(plotId)
  }

  /** Index, then a crop, then an overdue weeding checkpoint. */
  function ValidateWeed(u: User, plotId: int, now: int): (r: Result<nat, ValidationError>)
    ensures r.Ok? <==>
      ValidIndex(u, plotId) && HasCrop(u.plots[plotId]) && StatusAt(u.plots[plotId], now).hasWeeds
    ensures r.Ok? ==> r.value == plotId
  {
    if plotId < 0 || plotId >= |u.plots| then Err(InvalidPlotIndex)
    else
      var plot := u.plots[plotId];
      if !HasCrop(plot) then Err(NoCrop)
      else if !StatusAt(plot, now).hasWeeds then Err(NoWeeds)
      else Ok(plotId)
  }

  /** Fertilizer in the backpack is checked first, then the index, the crop and a previous application. */
  function ValidateFertilize(u: User, plotId: int): (r: Result<nat, ValidationError>)
    ensures r.Ok? <==>
      Count(u.backpack, FertilizerKey) > 0 && ValidIndex(u, plotId)
      && HasCrop(u.plots[plotId]) && !u.plots[plotId].fertilized
    ensures r.Ok? ==> r.value == plotId
    ensures r == Err(NoFertilizer) <==> Count(u.backpack, FertilizerKey) <= 0
  {
    if Count(u.backpack, FertilizerKey) <= 0 then Err(NoFertilizer)
    else if plotId < 0 || plotId >= |u.plots| then Err(InvalidPlotIndex)
    else
      var plot := u.plots[plotId];
      if !HasCrop(plot) then Err(NoCrop)
      else if plot.fertilized then Err(AlreadyFertilized)
      else Ok(plotId)
  }

  /** Clearing a plot needs only a crop on it, in whatever stage. */
  function ValidateShovel(u: User, plotId: int): (r: Result<nat, ValidationError>)
    ensures r.Ok? <==> ValidIndex(u, plotId) && HasCrop(u.plots[plotId])
    ensures r.Ok? ==> r.value == plotId
  {
    if plotId < 0 || plotId >= |u.plots| then Err(InvalidPlotIndex)
    else if !HasCrop(u.plots[plotId]) then Err(NoCrop)
    else Ok(plotId)
  }

  /** One to ten draws, paid with as many tickets. */
  function ValidateGluckDraw(u: User, count: int): (r: Result<nat, ValidationError>)
    ensures r.Ok? <==> 1 <= count <= 10 && count <= u.tickets
    ensures r.Ok? ==> r.value == count
    ensures r == Err(InvalidDrawCount) <==> count <= 0 || count > 10
  {
    if count <= 0 || count > 10 then Err(InvalidDrawCount)
    else if u.tickets < count then Err(NotEnoughTickets(count, u.tickets))
    else Ok(count)
  }

  /** The dispatch on the action type: seven types are known, any other is refused. */
  function ValidateAction(u: User, actionType: string, args: ActionArgs, now: int): (r: Result<nat, ValidationError>)
    ensures actionType !in {"plant", "harvest", "water", "weed", "fertilize", "shovel", "gluck_draw"} ==>
      r == Err(UnknownAction(actionType))
    ensures r.Ok? && actionType == "gluck_draw" ==> 1 <= r.value <= 10 && r.value <= u.tickets
    ensures r.Ok? && actionType in {"harvest", "water", "weed", "fertilize", "shovel"} ==>
      r.value < |u.plots| && HasCrop(u.plots[r.value])
    ensures r.Ok? && actionType == "plant" ==>
      ValidIndex(u, args.plotId) && Seeds.GetSeedConfig(args.seedId).Some? && Count(u.backpack, args.seedId) > 0
  {
    if actionType == "plant" then ValidatePlant(u, args.plotId, args.seedId)
    else if actionType == "harvest" then ValidateHarvest(u, args.plotId, now)
    else if actionType == "water" then ValidateWater(u, args.plotId, now)
    else if actionType == "weed" then ValidateWeed(u, args.plotId, now)
    else if actionType == "fertilize" then ValidateFertilize(u, args.plotId)
    else if actionType == "shovel" then ValidateShovel(u, args.plotId)
    else if actionType == "gluck_draw" then ValidateGluckDraw(u, args.count)
    else Err(UnknownAction(actionType))
  }
}
