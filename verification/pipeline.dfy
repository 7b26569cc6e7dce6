/**
 The two halves of an action: the check that issues a voucher and the
 handler that applies the recorded event. The payload a validator packs
 decodes to the arguments it checked, and an action that passed its check
 is applied without the handler throwing, as long as the user document has
 not changed in between.
 */
module ActionPipeline {
  import opened Common
  import opened Bits
  import opened Farm
  import Seeds
  import GameLogic
  import Gluck
  import opened ActionValidation
  import opened EventHandlers

  /** A checkpoint still to do makes the pending count positive. */
  lemma PendingPositive(reqs: seq<Requirement>, i: nat)
    requires i < |reqs| && !reqs[i].done
    ensures PendingCount(reqs) > 0
  {
    PendingCountSplit(reqs, i);
  }

  /** A crop the calculator reports in any stage but Empty is a catalogue crop. */
  lemma NonEmptyIsGrowable(plot: Plot, now: int)
    requires StatusAt(plot, now) != GameLogic.EmptyStatus
    ensures GameLogic.Growable(plot)
  {
  }

  /**
   A validated planting decodes to the plot and seed that were checked; the
   handler then plants without throwing and leaves a non-negative seed count.
   The plot list must fit the 16-bit plot field; a player has 18 plots.
   */
  lemma ValidatedPlantApplies(u: User, plotId: int, seedId: string, timestamp: int)
    requires ValidatePlant(u, plotId, seedId).Ok?
    requires |u.plots| <= FieldSize
    ensures var data := ValidatePlant(u, plotId, seedId).value;
      UnpackData("plant", data) == PlantPayload(plotId, seedId)
    ensures var r := Plant(u, plotId, seedId, timestamp);
      r.Ok? && Count(r.value.backpack, seedId) >= 0 && r.value.plots[plotId].seedId == Some(seedId)
  {
    var k := Seeds.SeedIndex(seedId).value;
    PackPlantFields(plotId, k);
    UnpackInvertsLayout(plotId, k);
  }

  /**
   A validated harvest decodes to the checked plot, and the handler accepts
   it: the crop is a catalogue seed, whose experience the player gains.
   */
  lemma ValidatedHarvestApplies(u: User, plotId: int, now: int, letter: Option<char>)
    requires ValidateHarvest(u, plotId, now).Ok?
    ensures UnpackData("harvest", ValidateHarvest(u, plotId, now).value) == PlotPayload(plotId)
    ensures var r := Harvest(u, plotId, letter);
      && r.Ok?
      && r.value.exp == u.exp + Seeds.GetSeedConfig(u.plots[plotId].seedId.value).value.exp
      && !HasCrop(r.value.plots[plotId])
  {
    NonEmptyIsGrowable(u.plots[plotId], now);
  }

  /** The plot actions carry the bare plot index: their payload decodes to it unchanged. */
  lemma PlotActionUnpacks(actionType: string, data: nat)
    requires actionType in {"harvest", "water", "weed", "fertilize", "shovel"}
    ensures UnpackData(actionType, data) == PlotPayload(data)
  {
  }

  /** A crop the calculator reports as needing water has a watering checkpoint still to do. */
  lemma OverdueWaterIsPending(plot: Plot, now: int)
    requires HasCrop(plot) && StatusAt(plot, now).needsWater
    ensures PendingCount(plot.waterRequirements) > 0
  {
    var reqs := plot.waterRequirements;
    NonEmptyIsGrowable(plot, now);
    var seed := Seeds.GetSeedConfig(plot.seedId.value).value;
    assert GameLogic.CalculatePlotStatus(plot, now, None) == GameLogic.EvaluateCrop(plot, seed, now, None);
    GameLogic.EvaluateCropFlags(plot, seed, now, None);
    var i :| 0 <= i < |reqs| && !reqs[i].done;
    PendingPositive(reqs, i);
  }

  /** A crop the calculator reports as weedy has a weeding checkpoint still to do. */
  lemma OverdueWeedIsPending(plot: Plot, now: int)
    requires HasCrop(plot) && StatusAt(plot, now).hasWeeds
    ensures PendingCount(plot.weedRequirements) > 0
  {
    var reqs := plot.weedRequirements;
    NonEmptyIsGrowable(plot, now);
    var seed := Seeds.GetSeedConfig(plot.seedId.value).value;
    assert GameLogic.CalculatePlotStatus(plot, now, None) == GameLogic.EvaluateCrop(plot, seed, now, None);
    GameLogic.EvaluateCropFlags(plot, seed, now, None);
    var i :| 0 <= i < |reqs| && !reqs[i].done;
    PendingPositive(reqs, i);
  }

  /**
   A validated watering decodes to the checked plot, and the handler
   completes exactly one of that plot's pending watering checkpoints.
   */
  lemma ValidatedWaterCompletesOne(u: User, plotId: int, now: int, timestamp: int)
    requires ValidateWater(u, plotId, now).Ok?
    ensures UnpackData("water", ValidateWater(u, plotId, now).value) == PlotPayload(plotId)
    ensures var r := Water(u, plotId, timestamp);
      && r.Ok?
      && PendingCount(r.value.plots[plotId].waterRequirements)
           == PendingCount(u.plots[plotId].waterRequirements) - 1
  {
    PlotActionUnpacks("water", plotId);
    OverdueWaterIsPending(u.plots[plotId], now);
    MarkFirstPendingCompletesOne(u.plots[plotId].waterRequirements, timestamp);
  }

  /** The same for weeding. */
  lemma ValidatedWeedCompletesOne(u: User, plotId: int, now: int, timestamp: int)
    requires ValidateWeed(u, plotId, now).Ok?
    ensures UnpackData("weed", ValidateWeed(u, plotId, now).value) == PlotPayload(plotId)
    ensures var r := Weed(u, plotId, timestamp);
      && r.Ok?
      && PendingCount(r.value.plots[plotId].weedRequirements)
           == PendingCount(u.plots[plotId].weedRequirements) - 1
  {
    PlotActionUnpacks("weed", plotId);
    OverdueWeedIsPending(u.plots[plotId], now);
    MarkFirstPendingCompletesOne(u.plots[plotId].weedRequirements, timestamp);
  }

  /** A validated fertilizing is applied and never drives the fertilizer stock below zero. */
  lemma ValidatedFertilizeApplies(u: User, plotId: int)
    requires ValidateFertilize(u, plotId).Ok?
    ensures UnpackData("fertilize", ValidateFertilize(u, plotId).value) == PlotPayload(plotId)
    ensures var r := Fertilize(u, plotId);
      r.Ok? && Count(r.value.backpack, FertilizerKey) >= 0 && r.value.plots[plotId].fertilized
  {
  }

  /** A validated shovel is applied and leaves the plot empty, whatever the calculator is asked later. */
  lemma ValidatedShovelEmpties(u: User, plotId: int, later: int)
    requires ValidateShovel(u, plotId).Ok?
    ensures UnpackData("shovel", ValidateShovel(u, plotId).value) == PlotPayload(plotId)
    ensures var r := Shovel(u, plotId);
      r.Ok? && GameLogic.CalculatePlotStatus(r.value.plots[plotId], later, None).status == GameLogic.EmptyStatus
  {
  }

  /** A validated draw decodes to the checked count and never drives the ticket balance below zero. */
  lemma ValidatedDrawKeepsTickets(u: User, count: int, results: seq<Gluck.GluckResult>)
    requires ValidateGluckDraw(u, count).Ok?
    ensures UnpackData("gluck_draw", ValidateGluckDraw(u, count).value) == CountPayload(count)
    ensures GluckDraw(u, count, results).tickets >= 0
  {
  }
}
