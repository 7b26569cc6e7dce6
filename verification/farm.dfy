/**
 The stored player record: plots with their watering and weeding checkpoints,
 the user document, its schema defaults and the first-save initialisation of
 the plot list.
 */
module Farm {
  import opened Common
  import Seeds

  /** A watering or weeding checkpoint, `time` seconds of growth after planting. */
  datatype Requirement = Requirement(time: int, done: bool, doneAt: Option<int>)

  /** The plot stages; `Paused` takes priority while a checkpoint is overdue. */
  datatype Stage = Empty | Seed | Sprout | Growing | Ripe | Wither | Paused

  /**
   One plot. Besides the schema fields, the record carries the fields the
   game logic reads and writes: completion times of checkpoints, the pest
   flags, the cached maturity and wither timestamps and the last stage.
   Timestamps are Unix seconds.
   */
  datatype Plot = Plot(
    plotIndex: int,
    unlocked: bool,
    seedId: Option<string>,
    plantedAt: Option<int>,
    pausedDuration: int,
    pausedAt: Option<int>,
    waterRequirements: seq<Requirement>,
    weedRequirements: seq<Requirement>,
    fertilized: bool,
    protectedUntil: Option<int>,
    pests: bool,
    pestsOccurred: bool,
    lastPestCheckAt: Option<int>,
    matureAt: Option<int>,
    witheredAt: Option<int>,
    stage: Option<Stage>)

  /**
   The user document. `lastOfflineClaimAt` is a wall-clock reading, kept as
   a plain number; `phraseLetters` counts collected letters.
   */
  datatype User = User(
    walletAddress: string,
    zeta: string,
    tickets: int,
    coins: int,
    exp: int,
    level: int,
    petList: seq<string>,
    lastOfflineClaimAt: int,
    lastCheckinDate: Option<string>,
    backpack: map<string, int>,
    phraseLetters: map<char, int>,
    redeemedRewards: seq<string>,
    plots: seq<Plot>)

  /** Key of the fertilizer stock in the backpack. */
  const FertilizerKey: string := "fertilizer"

  /** The number of plots a new player gets. */
  const InitialPlotCount: nat := 18

  /** JavaScript truthiness of a nullable string: present and non-empty. */
  predicate Present(s: Option<string>) {
    s.Some? && s.value != ""
  }

  /** JavaScript truthiness of a nullable number: present and non-zero. */
  predicate NonZero(t: Option<int>) {
    t.Some? && t.value != 0
  }

  /** `plot.seedId && plot.plantedAt`: the plot holds a crop. */
  predicate HasCrop(p: Plot) {
    Present(p.seedId) && NonZero(p.plantedAt)
  }

  /** The plot written by the first save for position `index`: empty, and unlocked only at index 0. */
  function FreshPlot(index: nat): (p: Plot)
    ensures p.plotIndex == index && (p.unlocked <==> index == 0)
    ensures p.seedId.None? && p.plantedAt.None? && p.pausedAt.None? && p.pausedDuration == 0
    ensures p.waterRequirements == [] && p.weedRequirements == [] && !p.fertilized
    ensures !HasCrop(p)
  {
    Plot(index, index == 0, None, None, 0, None, [], [], false, None, false, false, None, None, None, None)
  }

  /** A user created with only a wallet address, before the first save: the schema defaults. */
  function NewUser(walletAddress: string, clock: int): (u: User)
    ensures u.coins == 1000 && u.tickets == 0 && u.exp == 0 && u.level == 1
    ensures u.petList == [] && u.plots == [] && u.lastCheckinDate.None?
    ensures u.backpack.Keys == {Seeds.SeedKey(0)} && Count(u.backpack, Seeds.SeedKey(0)) == 1
  {
    User(walletAddress, "0.00", 0, 1000, 0, 1, [], clock, None, map[Seeds.SeedKey(0) := 1], map[], [], [])
  }

  /**
   The save hook: a new document whose plot list is empty gets one fresh
   plot per position; any other document is saved as it is.
   */
  function PreSave(u: User, isNew: bool): (r: User)
    ensures isNew && u.plots == [] ==>
      && |r.plots| == InitialPlotCount
      && (forall i :: 0 <= i < |r.plots| ==> r.plots[i] == FreshPlot(i))
    ensures !(isNew && u.plots == []) ==> r == u
    ensures r.(plots := u.plots) == u
  {
    if isNew && |u.plots| == 0 then
      u.(plots := seq(InitialPlotCount, i requires 0 <= i => FreshPlot(i)))
    else u
  }

  /** A new player can plant on exactly one plot, the first, and owns exactly one seed. */
  lemma NewPlayerStart(walletAddress: string, clock: int)
    ensures var u := PreSave(NewUser(walletAddress, clock), true);
      && (forall i :: 0 <= i < |u.plots| ==> (u.plots[i].unlocked <==> i == 0))
      && (forall i :: 0 <= i < |u.plots| ==> u.plots[i].plotIndex == i && !HasCrop(u.plots[i]))
      && Count(u.backpack, Seeds.SeedKey(0)) == 1
  {
  }
}
