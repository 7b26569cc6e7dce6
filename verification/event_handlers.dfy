/**
 The handlers for recorded on-chain actions. Each handler takes the user
 document and returns the updated document, or the error it throws; a thrown
 error aborts the event before anything is saved. Randomness (the letter
 drop, the Gluck draws) and the wall clock arrive as inputs.
 */
module EventHandlers {
  import opened Common
  import opened Text
  import opened Bits
  import opened Farm
  import Seeds
  import Pets
  import Gluck
  import Levels
  import GameLogic
  import Weighted
  import opened Checkin

  datatype EventError =
    | PlotNotFound(plotId: nat)
    | NoCropOnPlot(plotId: nat)
    | InvalidSeed(seedId: string)
    | InvalidPet(petId: string)
    | PetAlreadyOwned(petId: string)
    | InsufficientCoins(needed: int, have: int)
    | InvalidFruit(fruitId: string)

  /** The decoded action payload, one shape per action family. */
  datatype Payload =
    | PlantPayload(plotId: nat, seedId: string)
    | SeedPayload(seedId: string, count: nat)
    | FruitPayload(fruitId: string, count: nat)
    | CountPayload(count: nat)
    | PetPayload(petId: string)
    | PlotPayload(plotId: nat)

  /**
   Plant: plot in the low 16 bits, seed index above. Seed purchase and fruit
   sale: item index low, count high. Fertilizer purchase and draws: the whole
   value is the count. Pet purchase: the low 16 bits index the pet list, an
   index past its end meaning the chick. Anything else: the whole value is a
   plot index.
   */
  function UnpackData(actionType: string, data: nat): (p: Payload)
    ensures p.PlantPayload? <==> actionType == "plant"
    ensures p.SeedPayload? <==> actionType == "buySeed"
    ensures p.FruitPayload? <==> actionType == "sellFruit"
    ensures p.CountPayload? <==> actionType in {"buyFertilizer", "gluck_draw", "draw"}
    ensures p.PetPayload? <==> actionType == "buyPet"
    ensures p.PlantPayload? ==> p.plotId < FieldSize
    ensures p.PetPayload? ==> p.petId in Pets.PetIds
    ensures p.PlotPayload? ==> p.plotId == data
    ensures p.CountPayload? ==> p.count == data
  {
    if actionType == "plant" then PlantPayload(data % FieldSize, Seeds.SeedKey(data / FieldSize))
    else if actionType == "buySeed" then SeedPayload(Seeds.SeedKey(data % FieldSize), data / FieldSize)
    else if actionType == "sellFruit" then FruitPayload(Seeds.FruitKey(data % FieldSize), data / FieldSize)
    else if actionType == "buyFertilizer" then CountPayload(data)
    else if actionType == "gluck_draw" || actionType == "draw" then CountPayload(data)
    else if actionType == "buyPet" then
      var index := data % FieldSize;
      PetPayload(if index < |Pets.PetIds| then Pets.PetIds[index] else "chick")
    else PlotPayload(data)
  }

  /** Unpacking reads back the fields of the documented layouts. */
  lemma UnpackInvertsLayout(index: nat, count: nat)
    requires index < FieldSize
    ensures UnpackData("plant", index + count * FieldSize) == PlantPayload(index, Seeds.SeedKey(count))
    ensures UnpackData("buySeed", index + count * FieldSize) == SeedPayload(Seeds.SeedKey(index), count)
    ensures UnpackData("sellFruit", index + count * FieldSize) == FruitPayload(Seeds.FruitKey(index), count)
    ensures index < |Pets.PetIds| ==> UnpackData("buyPet", index) == PetPayload(Pets.PetIds[index])
  {
    var data := index + count * FieldSize;
    assert data % FieldSize == index && data / FieldSize == count;
  }

  /** `calculateLevel`: the handlers' own copy of the level thresholds, scanned from the top. */
  const HandlerLevels: seq<int> := [
    0, 100, 250, 450, 700, 1000, 1350, 1750, 2200, 2700,
    3250, 3850, 4500, 5200, 5950, 6750, 7600, 8500, 9450, 10450
  ]

  function CalculateLevel(exp: int): (level: nat)
    ensures 1 <= level <= |HandlerLevels|
  {
    Levels.ScanDown(HandlerLevels, exp, |HandlerLevels| - 1)
  }

  /** The handlers' copy of the table agrees with the level constants, so both compute the same level. */
  lemma CalculateLevelAgrees(exp: int)
    ensures CalculateLevel(exp) == Levels.GetLevel(exp)
  {
    assert HandlerLevels == Levels.LEVELS;
  }

  /** `'ABCDEFGHIJKLMNOPQRSTUVWXYZ'` */
  const Alphabet: string := "ABCDEFGHIJKLMNOPQRSTUVWXYZ"

  /**
   With probability `probability` (the first roll below it) one letter,
   chosen by the second roll; otherwise nothing.
   */
  function RandomLetterDrop(probability: real, chance: Unit, choice: Unit): (letter: Option<char>)
    ensures letter.Some? <==> chance < probability
    ensures letter.Some? ==> 'A' <= letter.value <= 'Z'
  {
    if chance < probability then
      var i := (choice * |Alphabet| as real).Floor;
      Weighted.MulBelow(choice, |Alphabet| as real);
      Some(Alphabet[i])
    else None
  }

  /** The 50% letter drop of a harvest. */
  const LetterDropProbability: real := 0.5

  /** The crop-related fields reset, as after a harvest or a shovel; index, lock state and outbreak flag stay. */
  function ClearPlot(p: Plot): (r: Plot)
    ensures r.plotIndex == p.plotIndex && r.unlocked == p.unlocked && r.pestsOccurred == p.pestsOccurred
    ensures !HasCrop(r) && r.waterRequirements == [] && r.weedRequirements == []
    ensures !r.fertilized && !r.pests && r.pausedDuration == 0 && r.stage == Some(Empty)
    ensures GameLogic.CalculatePlotStatus(r, 0, None).status == GameLogic.EmptyStatus
  {
    p.(seedId := None, plantedAt := None, pausedDuration := 0, pausedAt := None,
       waterRequirements := [], weedRequirements := [], fertilized := false,
       protectedUntil := None, pests := false, lastPestCheckAt := None,
       matureAt := None, witheredAt := None, stage := Some(Empty))
  }

  /**
   What no handler touches: the wallet address, the token balance string, the
   redeemed rewards, and the number and stored indices of the plots.
   */
  predicate Preserves(u: User, v: User) {
    && v.walletAddress == u.walletAddress && v.zeta == u.zeta && v.redeemedRewards == u.redeemedRewards
    && |v.plots| == |u.plots|
    && forall i :: 0 <= i < |u.plots| ==> v.plots[i].plotIndex == u.plots[i].plotIndex
  }

  /**
   Planting: one seed leaves the backpack (even if that makes the count
   negative), then the plot must exist; it gets the seed, the planting time,
   fresh checkpoints for an unfertilized crop and cleared state.
   */
  function Plant(u: User, plotId: nat, seedId: string, timestamp: int): (r: Result<User, EventError>)
    ensures r.Ok? ==> Preserves(u, r.value)
    ensures r.Err? <==> plotId >= |u.plots|
    ensures r.Ok? ==>
      var v := r.value;
      && |v.plots| == |u.plots|
      && (forall i :: 0 <= i < |u.plots| && i != plotId ==> v.plots[i] == u.plots[i])
      && Count(v.backpack, seedId) == Count(u.backpack, seedId) - 1
      && SameExcept(v.backpack, u.backpack, seedId)
      && var plot := v.plots[plotId];
      && plot.seedId == Some(seedId) && plot.plantedAt == Some(timestamp)
      && plot.plotIndex == u.plots[plotId].plotIndex && plot.unlocked == u.plots[plotId].unlocked
      && !plot.fertilized && !plot.pests && plot.pausedDuration == 0 && plot.stage == Some(Seed)
      && plot.pausedAt.None? && plot.protectedUntil.None? && plot.matureAt.None? && plot.witheredAt.None?
      && plot.lastPestCheckAt == Some(timestamp) && plot.pestsOccurred == u.plots[plotId].pestsOccurred
      && GameLogic.Schedules(plot.waterRequirements, plot.weedRequirements) == GameLogic.GeneratePlotRequirements(seedId, false)
    ensures r.Ok? ==> r.value == u.(backpack := r.value.backpack, plots := r.value.plots)
  {
    var backpack := Bump(u.backpack, seedId, -1);
    if plotId >= |u.plots| then Err(PlotNotFound(plotId))
    else
      var plot := u.plots[plotId];
      var reqs := GameLogic.GeneratePlotRequirements(seedId, false);
      var planted := plot.(seedId := Some(seedId), plantedAt := Some(timestamp), pausedDuration := 0,
                           pausedAt := None, fertilized := false, protectedUntil := None, pests := false,
                           lastPestCheckAt := Some(timestamp), matureAt := None, witheredAt := None,
                           stage := Some(Seed), waterRequirements := reqs.water, weedRequirements := reqs.weed);
      Ok(u.(backpack := backpack, plots := u.plots[plotId := planted]))
  }

  /**
   As written, planting keeps the outbreak record of earlier crops: a plot
   that once had pests never gets them again under a new crop, however its
   checkpoints are tended and whatever the roll.
   */
  lemma ReplantKeepsPestsAway(u: User, plotId: nat, seedId: string, timestamp: int, q: Plot, now: int, firstHit: Option<nat>)
    requires Plant(u, plotId, seedId, timestamp).Ok?
    requires u.plots[plotId].pestsOccurred
    requires var planted := Plant(u, plotId, seedId, timestamp).value.plots[plotId];
      q == planted.(waterRequirements := q.waterRequirements, weedRequirements := q.weedRequirements)
    ensures !GameLogic.CalculatePlotStatus(q, now, firstHit).status.hasPests
  {
    GameLogic.NoSecondOutbreak(q, now, firstHit);
  }

  /**
   Planting as the calculator's comment on the outbreak flag intends: the
   flag belongs to one planting cycle, so a new crop starts without it.
   Otherwise identical to `Plant`.
   */
  function PlantNewCycle(u: User, plotId: nat, seedId: string, timestamp: int): (r: Result<User, EventError>)
    ensures r.Err? <==> Plant(u, plotId, seedId, timestamp).Err?
    ensures r.Ok? ==>
      var v := Plant(u, plotId, seedId, timestamp).value;
      && |r.value.plots| == |v.plots| && plotId < |v.plots|
      && !r.value.plots[plotId].pestsOccurred
      && r.value.plots[plotId] == v.plots[plotId].(pestsOccurred := false)
      && (forall i :: 0 <= i < |v.plots| && i != plotId ==> r.value.plots[i] == v.plots[i])
      && r.value == v.(plots := r.value.plots)
  {
    match Plant(u, plotId, seedId, timestamp)
    case Err(e) => Err(e)
    case Ok(v) => Ok(v.(plots := v.plots[plotId := v.plots[plotId].(pestsOccurred := false)]))
  }

  /**
   With the flag cleared on planting, a new crop can have its own outbreak:
   once it is growing or ripe, a roll succeeding within the seconds since
   planting brings pests, whatever happened under earlier crops.
   */
  lemma NewCycleCanHaveOutbreak(u: User, plotId: nat, seedId: string, timestamp: int, q: Plot, now: int, hit: nat)
    requires PlantNewCycle(u, plotId, seedId, timestamp).Ok?
    requires var planted := PlantNewCycle(u, plotId, seedId, timestamp).value.plots[plotId];
      q == planted.(waterRequirements := q.waterRequirements, weedRequirements := q.weedRequirements)
    requires timestamp != 0 && hit < now - timestamp
    requires GameLogic.CalculatePlotStatus(q, now, None).status.stage in {Growing, Ripe}
    ensures GameLogic.CalculatePlotStatus(q, now, Some(hit)).status.hasPests
  {
    GameLogic.StatusIgnoresPestRoll(q, now, None, Some(hit));
    assert GameLogic.Growable(q);
    var seed := Seeds.GetSeedConfig(q.seedId.value).value;
    var paused := GameLogic.CalculatePausedDuration(q, now);
    assert paused.lastPestCheckAt == Some(timestamp);
  }

  /** `fruit_${seedId.split('_')[1]}`, where a missing field prints as `undefined`. */
  function FruitOf(seedId: string): (fruitId: string)
    ensures Seeds.SeedIndex(seedId).Some? ==> fruitId == Seeds.FruitKey(Seeds.SeedIndex(seedId).value)
  {
    var field := match SecondField(seedId) case None => "undefined" case Some(f) => f;
    if Seeds.SeedIndex(seedId).Some? then
      Seeds.SeedKeyField(Seeds.SeedIndex(seedId).value);
      "fruit_" + field
    else "fruit_" + field
  }

  /** `seed_${fruitId.split('_')[1]}`: the seed a fruit is sold as. */
  function SeedOf(fruitId: string): string {
    var field := match SecondField(fruitId) case None => "undefined" case Some(f) => f;
    "seed_" + field
  }

  /** The fruit of seed n is sold as seed n. */
  lemma SeedOfFruitKey(n: nat)
    ensures SeedOf(Seeds.FruitKey(n)) == Seeds.SeedKey(n)
  {
    Seeds.FruitKeyField(n);
  }

  /**
   Harvest: the plot must hold a (non-empty) seed id of the catalogue. The
   player gains the seed's experience and one fruit, maybe a letter, and a
   higher level if the new experience reaches one; the plot is cleared.
   */
  function Harvest(u: User, plotId: nat, letter: Option<char>): (r: Result<User, EventError>)
    ensures r.Ok? ==> Preserves(u, r.value)
    ensures r.Ok? <==> plotId < |u.plots| && Present(u.plots[plotId].seedId)
                       && Seeds.GetSeedConfig(u.plots[plotId].seedId.value).Some?
    ensures r.Ok? ==>
      var seedId := u.plots[plotId].seedId.value;
      var k := Seeds.SeedIndex(seedId).value;
      var v := r.value;
      && v.exp == u.exp + Seeds.SEEDS[k].exp
      && Count(v.backpack, Seeds.FruitKey(k)) == Count(u.backpack, Seeds.FruitKey(k)) + 1
      && SameExcept(v.backpack, u.backpack, Seeds.FruitKey(k))
      && v.level == Max(u.level, CalculateLevel(v.exp))
      && (letter.None? ==> v.phraseLetters == u.phraseLetters)
      && (letter.Some? ==> Count(v.phraseLetters, letter.value) == Count(u.phraseLetters, letter.value) + 1)
      && (letter.Some? ==> SameExcept(v.phraseLetters, u.phraseLetters, letter.value))
      && |v.plots| == |u.plots| && v.plots[plotId] == ClearPlot(u.plots[plotId])
      && (forall i :: 0 <= i < |u.plots| && i != plotId ==> v.plots[i] == u.plots[i])
    ensures r.Ok? ==>
      var v := r.value;
      v == u.(exp := v.exp, level := v.level, backpack := v.backpack, phraseLetters := v.phraseLetters, plots := v.plots)
  {
    if plotId >= |u.plots| || !Present(u.plots[plotId].seedId) then Err(NoCropOnPlot(plotId))
    else
      var plot := u.plots[plotId];
      var seedId := plot.seedId.value;
      match Seeds.GetSeedConfig(seedId)
      case None => Err(InvalidSeed(seedId))
      case Some(seed) =>
        var exp := u.exp + seed.exp;
        var backpack := Bump(u.backpack, FruitOf(seedId), 1);
        var letters := if letter.Some? then Bump(u.phraseLetters, letter.value, 1) else u.phraseLetters;
        var newLevel := CalculateLevel(exp);
        var level := if newLevel > u.level then newLevel else u.level;
        Ok(u.(exp := exp, backpack := backpack, phraseLetters := letters, level := level,
              plots := u.plots[plotId := ClearPlot(plot)]))
  }

  /** `reqs.find(req => !req.done)`, as an index. */
  function FirstPending(reqs: seq<Requirement>): (i: Option<nat>)
    ensures i.Some? ==> i.value < |reqs| && !reqs[i.value].done
    ensures i.Some? ==> forall j :: 0 <= j < i.value ==> reqs[j].done
    ensures i.None? ==> forall j :: 0 <= j < |reqs| ==> reqs[j].done
  {
    if |reqs| == 0 then None
    else if !reqs[0].done then Some(0)
    else match FirstPending(reqs[1..])
      case None => None
      case Some(j) => Some(j + 1)
  }

  /** The first pending checkpoint becomes done at `timestamp`; with none pending the list is unchanged. */
  function MarkFirstPending(reqs: seq<Requirement>, timestamp: int): (r: seq<Requirement>)
    ensures |r| == |reqs|
    ensures FirstPending(reqs).None? ==> r == reqs
    ensures FirstPending(reqs).Some? ==>
      var i := FirstPending(reqs).value;
      && r[i] == Requirement(reqs[i].time, true, Some(timestamp))
      && forall j :: 0 <= j < |reqs| && j != i ==> r[j] == reqs[j]
  {
    match FirstPending(reqs)
    case None => reqs
    case Some(i) => reqs[i := reqs[i].(done := true, doneAt := Some(timestamp))]
  }

  /** How many checkpoints are still to do. */
  function PendingCount(reqs: seq<Requirement>): nat {
    if |reqs| == 0 then 0 else (if reqs[0].done then 0 else 1) + PendingCount(reqs[1..])
  }

  /** Each watering or weeding completes exactly one pending checkpoint, while there is one. */
  lemma MarkFirstPendingCompletesOne(reqs: seq<Requirement>, timestamp: int)
    ensures PendingCount(MarkFirstPending(reqs, timestamp)) == Max(PendingCount(reqs) - 1, 0)
  {
    var r := MarkFirstPending(reqs, timestamp);
    match FirstPending(reqs)
    case None =>
      NoPendingCount(reqs);
    case Some(i) =>
      PendingCountSplit(reqs, i);
      PendingCountSplit(r, i);
      assert reqs[..i] == r[..i];
      assert reqs[i + 1..] == r[i + 1..];
  }

  lemma {:induction false} NoPendingCount(reqs: seq<Requirement>)
    requires forall j :: 0 <= j < |reqs| ==> reqs[j].done
    ensures PendingCount(reqs) == 0
    decreases |reqs|
  {
    if |reqs| > 0 {
      NoPendingCount(reqs[1..]);
    }
  }

  /** The count splits around position `i`. */
  lemma {:induction false} PendingCountSplit(reqs: seq<Requirement>, i: nat)
    requires i < |reqs|
    ensures PendingCount(reqs) == PendingCount(reqs[..i]) + (if reqs[i].done then 0 else 1) + PendingCount(reqs[i + 1..])
    decreases i
  {
    if i > 0 {
      PendingCountSplit(reqs[1..], i - 1);
      assert reqs[1..][..i - 1] == reqs[1..i];
      assert reqs[1..][i - 1 + 1..] == reqs[i + 1..];
      assert reqs[..i][1..] == reqs[1..i];
    } else {
      assert reqs[1..] == reqs[i + 1..];
    }
  }

  /** Watering and weeding: the plot must hold a seed id; the first pending checkpoint of that kind is completed. */
  function Water(u: User, plotId: nat, timestamp: int): (r: Result<User, EventError>)
    ensures r.Ok? ==> Preserves(u, r.value)
    ensures r.Err? <==> plotId >= |u.plots| || !Present(u.plots[plotId].seedId)
    ensures r.Ok? ==> r.value == u.(plots := u.plots[plotId := u.plots[plotId].(
      waterRequirements := MarkFirstPending(u.plots[plotId].waterRequirements, timestamp))])
  {
    if plotId >= |u.plots| || !Present(u.plots[plotId].seedId) then Err(NoCropOnPlot(plotId))
    else
      var plot := u.plots[plotId];
      Ok(u.(plots := u.plots[plotId := plot.(waterRequirements := MarkFirstPending(plot.waterRequirements, timestamp))]))
  }

  function Weed(u: User, plotId: nat, timestamp: int): (r: Result<User, EventError>)
    ensures r.Ok? ==> Preserves(u, r.value)
    ensures r.Err? <==> plotId >= |u.plots| || !Present(u.plots[plotId].seedId)
    ensures r.Ok? ==> r.value == u.(plots := u.plots[plotId := u.plots[plotId].(
      weedRequirements := MarkFirstPending(u.plots[plotId].weedRequirements, timestamp))])
  {
    if plotId >= |u.plots| || !Present(u.plots[plotId].seedId) then Err(NoCropOnPlot(plotId))
    else
      var plot := u.plots[plotId];
      Ok(u.(plots := u.plots[plotId := plot.(weedRequirements := MarkFirstPending(plot.weedRequirements, timestamp))]))
  }

  /**
   Fertilizing: one fertilizer leaves the backpack, then the plot must hold a
   seed id; it is marked fertilized and, when it has a planting time, gets
   fresh checkpoints on the shortened schedule (completed ones included).
   */
  function Fertilize(u: User, plotId: nat): (r: Result<User, EventError>)
    ensures r.Ok? ==> Preserves(u, r.value)
    ensures r.Err? <==> plotId >= |u.plots| || !Present(u.plots[plotId].seedId)
    ensures r.Ok? ==>
      var plot := u.plots[plotId];
      var v := r.value;
      && Count(v.backpack, FertilizerKey) == Count(u.backpack, FertilizerKey) - 1
      && SameExcept(v.backpack, u.backpack, FertilizerKey)
      && |v.plots| == |u.plots| && v.plots[plotId].fertilized
      && (forall i :: 0 <= i < |u.plots| && i != plotId ==> v.plots[i] == u.plots[i])
      && (NonZero(plot.plantedAt) ==>
            GameLogic.Schedules(v.plots[plotId].waterRequirements, v.plots[plotId].weedRequirements)
              == GameLogic.GeneratePlotRequirements(plot.seedId.value, true))
      && (NonZero(plot.plantedAt) ==>
            v.plots[plotId] == plot.(fertilized := true, waterRequirements := v.plots[plotId].waterRequirements,
                                     weedRequirements := v.plots[plotId].weedRequirements))
      && (!NonZero(plot.plantedAt) ==> v.plots[plotId] == plot.(fertilized := true))
    ensures r.Ok? ==> r.value == u.(backpack := r.value.backpack, plots := r.value.plots)
  {
    var backpack := Bump(u.backpack, FertilizerKey, -1);
    if plotId >= |u.plots| || !Present(u.plots[plotId].seedId) then Err(NoCropOnPlot(plotId))
    else
      var plot := u.plots[plotId].(fertilized := true);
      var updated :=
        if NonZero(plot.plantedAt) then
          var reqs := GameLogic.GeneratePlotRequirements(plot.seedId.value, true);
          plot.(waterRequirements := reqs.water, weedRequirements := reqs.weed)
        else plot;
      Ok(u.(backpack := backpack, plots := u.plots[plotId := updated]))
  }

  /** Pesticide: the plot must hold a seed id; current pests are cleared and the check time reset. */
  function Pesticide(u: User, plotId: nat, timestamp: int): (r: Result<User, EventError>)
    ensures r.Ok? ==> Preserves(u, r.value)
    ensures r.Err? <==> plotId >= |u.plots| || !Present(u.plots[plotId].seedId)
    ensures r.Ok? ==>
      && |r.value.plots| == |u.plots| && !r.value.plots[plotId].pests
      && r.value.plots[plotId] == u.plots[plotId].(pests := false, lastPestCheckAt := Some(timestamp))
      && (forall i :: 0 <= i < |u.plots| && i != plotId ==> r.value.plots[i] == u.plots[i])
      && r.value == u.(plots := r.value.plots)
  {
    if plotId >= |u.plots| || !Present(u.plots[plotId].seedId) then Err(NoCropOnPlot(plotId))
    else
      var plot := u.plots[plotId];
      Ok(u.(plots := u.plots[plotId := plot.(pests := false, lastPestCheckAt := Some(timestamp))]))
  }

  /**
   Once a plot has had its outbreak, treating it ends pests for good: no
   later status evaluation reports them again, on this crop or a later one.
   */
  lemma PesticideEndsPests(u: User, plotId: nat, timestamp: int, now: int, firstHit: Option<nat>)
    requires Pesticide(u, plotId, timestamp).Ok?
    requires u.plots[plotId].pestsOccurred
    ensures !GameLogic.CalculatePlotStatus(Pesticide(u, plotId, timestamp).value.plots[plotId], now, firstHit).status.hasPests
  {
    GameLogic.NoSecondOutbreak(Pesticide(u, plotId, timestamp).value.plots[plotId], now, firstHit);
  }

  /** The protection period: 24 hours. */
  const ProtectDuration: int := 24 * 60 * 60

  /** Protection: the plot must hold a seed id; it records protection until a day after the event. */
  function Protect(u: User, plotId: nat, timestamp: int): (r: Result<User, EventError>)
    ensures r.Ok? ==> Preserves(u, r.value)
    ensures r.Err? <==> plotId >= |u.plots| || !Present(u.plots[plotId].seedId)
    ensures r.Ok? ==>
      && |r.value.plots| == |u.plots|
      && r.value.plots[plotId] == u.plots[plotId].(protectedUntil := Some(timestamp + 86400))
      && (forall i :: 0 <= i < |u.plots| && i != plotId ==> r.value.plots[i] == u.plots[i])
      && r.value == u.(plots := r.value.plots)
  {
    if plotId >= |u.plots| || !Present(u.plots[plotId].seedId) then Err(NoCropOnPlot(plotId))
    else
      var plot := u.plots[plotId];
      Ok(u.(plots := u.plots[plotId := plot.(protectedUntil := Some(timestamp + ProtectDuration))]))
  }

  /**
   Buying a pet: it must exist, not be owned yet and be affordable. The
   first pet starts the offline-income clock at `clock`.
   */
  function BuyPet(u: User, petId: string, clock: int): (r: Result<User, EventError>)
    ensures r.Ok? ==> Preserves(u, r.value)
    ensures r.Ok? <==> Pets.GetPetConfig(petId).Some? && petId !in u.petList
                       && u.coins >= Pets.GetPetConfig(petId).value.price
    ensures r.Ok? ==>
      var v := r.value;
      && v.coins == u.coins - Pets.GetPetConfig(petId).value.price && v.coins >= 0
      && v.petList == u.petList + [petId]
      && v.lastOfflineClaimAt == (if u.petList == [] then clock else u.lastOfflineClaimAt)
      && v == u.(coins := v.coins, petList := v.petList, lastOfflineClaimAt := v.lastOfflineClaimAt)
  {
    match Pets.GetPetConfig(petId)
    case None => Err(InvalidPet(petId))
    case Some(pet) =>
      if petId in u.petList then Err(PetAlreadyOwned(petId))
      else if u.coins < pet.price then Err(InsufficientCoins(pet.price, u.coins))
      else
        var petList := u.petList + [petId];
        Ok(u.(coins := u.coins - pet.price, petList := petList,
              lastOfflineClaimAt := if |petList| == 1 then clock else u.lastOfflineClaimAt))
  }

  /** No list element twice. */
  predicate Distinct<T(==)>(s: seq<T>) {
    forall i, j :: 0 <= i < j < |s| ==> s[i] != s[j]
  }

  /** Buying pets never makes the player own the same pet twice. */
  lemma BuyPetKeepsDistinct(u: User, petId: string, clock: int)
    requires Distinct(u.petList)
    requires BuyPet(u, petId, clock).Ok?
    ensures Distinct(BuyPet(u, petId, clock).value.petList)
  {
    var l := BuyPet(u, petId, clock).value.petList;
    assert l == u.petList + [petId];
    forall i, j | 0 <= i < j < |l| ensures l[i] != l[j] {
      if j == |l| - 1 {
        assert l[i] == u.petList[i];
      } else {
        assert l[i] == u.petList[i] && l[j] == u.petList[j];
      }
    }
  }

  /** Shovel: the plot must exist; it is cleared whatever it holds. */
  function Shovel(u: User, plotId: nat): (r: Result<User, EventError>)
    ensures r.Ok? ==> Preserves(u, r.value)
    ensures r.Err? <==> plotId >= |u.plots|
    ensures r.Ok? ==> r.value == u.(plots := u.plots[plotId := ClearPlot(u.plots[plotId])])
    ensures r.Ok? ==> !HasCrop(r.value.plots[plotId]) && r.value.plots[plotId].unlocked == u.plots[plotId].unlocked
  {
    if plotId >= |u.plots| then Err(PlotNotFound(plotId))
    else Ok(u.(plots := u.plots[plotId := ClearPlot(u.plots[plotId])]))
  }

  /** `for (const [k, v] of Object.entries(gains)) bag[k] = (bag[k] || 0) + v` */
  function AddAll(bag: map<string, int>, gains: map<string, int>): (r: map<string, int>)
    ensures r.Keys == bag.Keys + gains.Keys
    ensures forall k :: Count(r, k) == Count(bag, k) + Count(gains, k)
  {
    map k | k in bag.Keys + gains.Keys :: Count(bag, k) + Count(gains, k)
  }

  /**
   A draw: the tickets are spent (without a balance check) and the merged
   rewards of the individual draws are added to the backpack.
   */
  function GluckDraw(u: User, count: nat, results: seq<Gluck.GluckResult>): (r: User)
    ensures Preserves(u, r)
    ensures r.tickets == u.tickets - count
    ensures forall id :: Count(r.backpack, id) == Count(u.backpack, id) + Gluck.Tally(results, id)
    ensures r == u.(tickets := r.tickets, backpack := r.backpack)
  {
    u.(tickets := u.tickets - count,
       backpack := AddAll(u.backpack, Gluck.MergeGluckResults(results)))
  }

  /** Buying seeds: the seed must exist; coins go down by cost times count (without a balance check). */
  function BuySeed(u: User, seedId: string, count: nat): (r: Result<User, EventError>)
    ensures r.Ok? ==> Preserves(u, r.value)
    ensures r.Ok? <==> Seeds.GetSeedConfig(seedId).Some?
    ensures r.Ok? ==>
      && r.value.coins == u.coins - Seeds.GetSeedConfig(seedId).value.cost * count
      && Count(r.value.backpack, seedId) == Count(u.backpack, seedId) + count
      && SameExcept(r.value.backpack, u.backpack, seedId)
      && r.value == u.(coins := r.value.coins, backpack := r.value.backpack)
  {
    match Seeds.GetSeedConfig(seedId)
    case None => Err(InvalidSeed(seedId))
    case Some(seed) =>
      Ok(u.(coins := u.coins - seed.cost * count, backpack := Bump(u.backpack, seedId, count)))
  }

  /** The fertilizer price the handler charges. */
  const FertilizerPrice: int := 50

  function BuyFertilizer(u: User, count: nat): (r: User)
    ensures Preserves(u, r)
    ensures r.coins == u.coins - 50 * count
    ensures Count(r.backpack, FertilizerKey) == Count(u.backpack, FertilizerKey) + count
    ensures SameExcept(r.backpack, u.backpack, FertilizerKey)
    ensures r == u.(coins := r.coins, backpack := r.backpack)
  {
    u.(coins := u.coins - FertilizerPrice * count, backpack := Bump(u.backpack, FertilizerKey, count))
  }

  /**
   Selling fruit: the fruit's seed must exist; the fruit count goes down by
   `count` (possibly below zero) and the coins up by the sale price times count.
   */
  function SellFruit(u: User, fruitId: string, count: nat): (r: Result<User, EventError>)
    ensures r.Ok? ==> Preserves(u, r.value)
    ensures r.Ok? <==> Seeds.GetSeedConfig(SeedOf(fruitId)).Some?
    ensures r.Ok? ==>
      && r.value.coins == u.coins + Seeds.GetSeedConfig(SeedOf(fruitId)).value.price * count
      && Count(r.value.backpack, fruitId) == Count(u.backpack, fruitId) - count
      && SameExcept(r.value.backpack, u.backpack, fruitId)
      && r.value == u.(coins := r.value.coins, backpack := r.value.backpack)
  {
    var seedId := SeedOf(fruitId);
    match Seeds.GetSeedConfig(seedId)
    case None => Err(InvalidFruit(fruitId))
    case Some(seed) =>
      Ok(u.(backpack := Bump(u.backpack, fruitId, -(count as int)), coins := u.coins + seed.price * count))
  }

  /** Selling the fruit of catalogue seed n pays that seed's sale price per unit. */
  lemma SellFruitPaysSeedPrice(u: User, n: nat, count: nat)
    requires n < Seeds.SeedCount
    ensures SellFruit(u, Seeds.FruitKey(n), count).Ok?
    ensures SellFruit(u, Seeds.FruitKey(n), count).value.coins == u.coins + Seeds.SEEDS[n].price * count
  {
    Seeds.KnownSeedKeys(n);
    SeedOfFruitKey(n);
  }

  /** The unlock price the handler charges, whatever the plot. */
  const HandlerUnlockCost: int := 100

  /** Unlocking: the plot must exist; it is unlocked and 100 coins are charged. */
  function UnlockPlot(u: User, plotId: nat): (r: Result<User, EventError>)
    ensures r.Ok? ==> Preserves(u, r.value)
    ensures r.Err? <==> plotId >= |u.plots|
    ensures r.Ok? ==>
      && r.value.coins == u.coins - 100
      && |r.value.plots| == |u.plots|
      && r.value.plots[plotId] == u.plots[plotId].(unlocked := true)
      && (forall i :: 0 <= i < |u.plots| && i != plotId ==> r.value.plots[i] == u.plots[i])
    ensures r.Ok? ==> r.value == u.(coins := r.value.coins, plots := r.value.plots)
  {
    if plotId >= |u.plots| then Err(PlotNotFound(plotId))
    else Ok(u.(plots := u.plots[plotId := u.plots[plotId].(unlocked := true)], coins := u.coins - HandlerUnlockCost))
  }

  /**
   Check-in: 50 coins and one ticket; the event's date is recorded. That is
   the UTC calendar date (`YYYY-MM-DD`) of the event's timestamp, not of the
   wall clock, so a replayed old event records its own day.
   */
  function CheckIn(u: User, eventDate: string): (r: User)
    ensures Preserves(u, r)
    ensures r.coins == u.coins + 50 && r.tickets == u.tickets + 1
    ensures eventDate != "" ==> HasCheckedInToday(r.lastCheckinDate, eventDate)
    ensures r == u.(coins := r.coins, tickets := r.tickets, lastCheckinDate := r.lastCheckinDate)
  {
    u.(coins := u.coins + 50, tickets := u.tickets + 1, lastCheckinDate := Some(eventDate))
  }

  lemma {:induction false} TallyNonNegative(results: seq<Gluck.GluckResult>, id: string)
    requires forall i :: 0 <= i < |results| ==> results[i].count >= 0
    ensures Gluck.Tally(results, id) >= 0
    decreases |results|
  {
    if |results| > 0 {
      TallyNonNegative(results[1..], id);
    }
  }

  /**
   What an event needs besides the user and the event itself: the wall
   clock, the UTC date string of the event's timestamp and the random rolls.
   */
  datatype Environment = Environment(
    clock: int,
    eventDate: string,
    letterChance: Unit,
    letterChoice: Unit,
    gluckRolls: nat -> Gluck.GluckRoll)

  /** The action types whose handler can throw. */
  const ThrowingActions: set<string> := {
    "plant", "harvest", "water", "weed", "fertilize", "shovel", "buySeed", "sellFruit",
    "unlockPlot", "pesticide", "protect", "buyPet"
  }

  /** The action types with a handler; three more are accepted and ignored. */
  const HandledActions: set<string> := ThrowingActions + {"buyFertilizer", "checkin", "draw", "gluck_draw"}

  /**
   The save after an event: coins, experience, level, tickets, backpack,
   letters, plots, check-in date, pets and the offline-income clock are
   written back; the rest of the stored document stays. Nothing is lost
   exactly when the update kept the other fields.
   */
  function Persist(stored: User, updated: User): (r: User)
    ensures r == updated <==>
      updated.walletAddress == stored.walletAddress && updated.zeta == stored.zeta
      && updated.redeemedRewards == stored.redeemedRewards
  {
    stored.(coins := updated.coins, exp := updated.exp, level := updated.level,
            tickets := updated.tickets, backpack := updated.backpack,
            phraseLetters := updated.phraseLetters, plots := updated.plots,
            lastCheckinDate := updated.lastCheckinDate, petList := updated.petList,
            lastOfflineClaimAt := updated.lastOfflineClaimAt)
  }

  /** The stored document after an event: unchanged when the handler threw. */
  function SavedDocument(stored: User, outcome: Result<User, EventError>): (r: User)
    ensures outcome.Err? ==> r == stored
    ensures outcome.Ok? ==>
      (r == outcome.value <==>
        && outcome.value.walletAddress == stored.walletAddress && outcome.value.zeta == stored.zeta
        && outcome.value.redeemedRewards == stored.redeemedRewards)
  {
    match outcome
    case Err(_) => stored
    case Ok(updated) => Persist(stored, updated)
  }

  /** The handler an action type selects; `Ignored` stands for the types without one. */
  datatype ActionKind =
    | PlantAction | HarvestAction | WaterAction | WeedAction | FertilizeAction | ShovelAction
    | BuySeedAction | BuyFertilizerAction | SellFruitAction | UnlockPlotAction | CheckinAction
    | DrawAction | PesticideAction | ProtectAction | BuyPetAction | Ignored
  {
    /** The handlers that can throw. */
    predicate Throws() {
      !(this.Ignored? || this.BuyFertilizerAction? || this.CheckinAction? || this.DrawAction?)
    }
  }

  /** The dispatch on the action type, by name. */
  function KindOf(actionType: string): (k: ActionKind)
    ensures k.Ignored? <==> actionType !in HandledActions
    ensures k.Throws() <==> actionType in ThrowingActions
    ensures k.PlantAction? <==> actionType == "plant"
    ensures k.BuySeedAction? <==> actionType == "buySeed"
    ensures k.SellFruitAction? <==> actionType == "sellFruit"
    ensures k.BuyFertilizerAction? <==> actionType == "buyFertilizer"
    ensures k.CheckinAction? <==> actionType == "checkin"
    ensures k.DrawAction? <==> actionType in {"gluck_draw", "draw"}
    ensures k.BuyPetAction? <==> actionType == "buyPet"
  {
    if actionType == "plant" then PlantAction
    else if actionType == "harvest" then HarvestAction
    else if actionType == "water" then WaterAction
    else if actionType == "weed" then WeedAction
    else if actionType == "fertilize" then FertilizeAction
    else if actionType == "shovel" then ShovelAction
    else if actionType == "buySeed" then BuySeedAction
    else if actionType == "buyFertilizer" then BuyFertilizerAction
    else if actionType == "sellFruit" then SellFruitAction
    else if actionType == "unlockPlot" then UnlockPlotAction
    else if actionType == "checkin" then CheckinAction
    else if actionType == "draw" || actionType == "gluck_draw" then DrawAction
    else if actionType == "pesticide" then PesticideAction
    else if actionType == "protect" then ProtectAction
    else if actionType == "buyPet" then BuyPetAction
    else Ignored
  }

  /**
   `onActionRecorded`: unpack the payload, run the handler for the action
   type, and report the document to save or the error that aborts the save.
   Unknown and not yet implemented types change nothing.
   */
  method OnActionRecorded(u: User, actionType: string, data: nat, timestamp: int, env: Environment)
    returns (r: Result<User, EventError>)
    ensures actionType !in HandledActions ==> r == Ok(u)
    ensures r.Err? ==> actionType in ThrowingActions
    ensures r.Ok? ==> SavedDocument(u, r) == r.value
    ensures r.Ok? ==> Preserves(u, r.value)
    ensures actionType in {"gluck_draw", "draw"} ==>
      && r.Ok? && r.value.tickets == u.tickets - data
      && forall id :: Count(r.value.backpack, id) >= Count(u.backpack, id)
    ensures actionType == "checkin" ==> r == Ok(CheckIn(u, env.eventDate))
  {
    var payload := UnpackData(actionType, data);
    match KindOf(actionType)
    case PlantAction =>
      r := Plant(u, payload.plotId, payload.seedId, timestamp);
    case HarvestAction =>
      var letter := RandomLetterDrop(LetterDropProbability, env.letterChance, env.letterChoice);
      r := Harvest(u, payload.plotId, letter);
    case WaterAction =>
      r := Water(u, payload.plotId, timestamp);
    case WeedAction =>
      r := Weed(u, payload.plotId, timestamp);
    case FertilizeAction =>
      r := Fertilize(u, payload.plotId);
    case ShovelAction =>
      r := Shovel(u, payload.plotId);
    case BuySeedAction =>
      r := BuySeed(u, payload.seedId, payload.count);
    case BuyFertilizerAction =>
      r := Ok(BuyFertilizer(u, payload.count));
    case SellFruitAction =>
      r := SellFruit(u, payload.fruitId, payload.count);
    case UnlockPlotAction =>
      r := UnlockPlot(u, payload.plotId);
    case CheckinAction =>
      r := Ok(CheckIn(u, env.eventDate));
    case DrawAction =>
      var results := Gluck.PerformGluck(payload.count, env.gluckRolls);
      forall id ensures Gluck.Tally(results, id) >= 0 {
        TallyNonNegative(results, id);
      }
      r := Ok(GluckDraw(u, payload.count, results));
    case PesticideAction =>
      r := Pesticide(u, payload.plotId, timestamp);
    case ProtectAction =>
      r := Protect(u, payload.plotId, timestamp);
    case BuyPetAction =>
      r := BuyPet(u, payload.petId, env.clock);
    case Ignored =>
      r := Ok(u);
  }
}
