# Zeta farm game rules in Dafny

This project models the rules engine of the Zeta farm backend. The backend is
a Next.js and MongoDB service for an on-chain farming game. Players plant seeds
on up to 18 plots. Crops grow through timed stages and pause while a watering
or weeding checkpoint is overdue. Pests strike a plot at most once, ever. Players
harvest fruit, gain experience and levels, and spend coins in a shop, on pets,
on plot unlocks, on daily check-ins and on a weighted lottery ("gluck").

The model consists of pure functions over integer timestamps (seconds), and
every function states what it computes in its contract:

- **Static tables and their lookups.**
  - `Seeds`: the seed table, growth stages and total grow time.
  - `Fertilizer`: the 0.8 factor, the adjusted grow time and the recommended tier.
  - `Levels`: the level thresholds.
  - `PlotPrices`: the unlock price table and prefix counting.
  - `Pets`: the pet table.
  - `Gluck` and `Checkin`: the weighted tables, with the selection shared in `Weighted`.
- **Plot lifecycle calculator (`GameLogic`).**
  - Pause intervals come from water and weed checkpoints and are merged into a union measure (`Intervals`).
  - Effective elapsed time, cached maturity and wither timestamps, stage bucketing and the sticky pest flag follow from it.
  - The evenly spaced checkpoint schedule is also built here.
- **Action validation (`ActionValidation`).** The precondition chains return either the packed payload `plotId | seedIndex << 16` or an error.
- **Event reconciler (`EventHandlers`).** It decodes the same bit layout (`Bits`) and applies each on-chain action's state transition to the user record. `ActionPipeline` connects a successful validation to the effect of the matching handler.
- **Initial user state (`Farm`).** Schema defaults and the 18-plot initialisation on first save.
- **Off-chain endpoints.**
  - `PlotUnlock`: plot unlock.
  - `ShopBuy`: shop purchase.
  - `PetBuy`: pet purchase.
  - `Auth`: Authorization-header parsing.
  - The request body values they inspect are modelled in `Requests`, with JavaScript truthiness and `NaN`.

Conventions:
- Item ids are strings. A seed is `"seed_" + n` and a fruit is `"fruit_" + n`.
- A backpack or letter bag is a `map<string, int>`, and an absent key counts as 0 (`Common.Count`).
- Event handlers that throw in the source return `Err`. The dispatcher then saves nothing.
- `EventHandlers.SavedDocument` models which fields the final save writes back.

Everything the source takes from outside is a parameter:
- the clock (`now`, `timestamp`, `clock`);
- today's date string, and for a check-in event the UTC date of the event's timestamp;
- every `Math.random()` outcome. A roll in [0, 1) is `Common.Unit`. The per-second pest loop is given as the first second whose roll succeeds (`firstHit`).
- the pet owner's accrued offline earnings.

The `pestsOccurred` flag is never cleared by planting, harvesting or shovelling in
`utils/eventHandlers.ts`. The model keeps this as written. As a result, a plot
that has had one outbreak never gets another (`GameLogic.NoSecondOutbreak`),
not even under a later crop (`EventHandlers.ReplantKeepsPestsAway`). The
comment in `utils/gameLogic.ts` describes the flag as once per planting
cycle; see "## Findings". This is the in-memory behaviour; whether the flag
survives a save is a persistence question (first line of "## Left out").

The pause calculator follows `utils/gameLogic.ts` as written. A checkpoint
marked done without a completion time still pauses the crop until `now`
(`GameLogic.DoneWithoutTimeFreezesPlot`); see "## Findings". The corrected
reading is available as the `Corrected` pause rule
(`GameLogic.RequirementIntervals`), and `GameLogic.CorrectedPauseSettles`
proves the intended property about it.

The files form one program and are verified together, for example with
`dafny verify --resource-limit 2000000 --verification-time-limit 0 *.dfy`.

## Model

| member | source | states |
|---|---|---|
| Common.Bump | utils/eventHandlers.ts:84-88 | adding to a bag entry changes that entry by exactly the delta (absent counts as 0) and no other entry |
| Text.DecimalStringValue | utils/actionValidation.ts:58 | the decimal rendering of an index reads back as the same number |
| Text.ParseInt | utils/actionValidation.ts:58 | parseInt reads the optional sign and the leading decimal digits, and yields nothing when there are none |
| Text.ParseIntDecimal | constants/fertilizer.ts:79 | parseInt of a rendered index is that index (round trip) |
| Text.SecondFieldOfJoin | utils/eventHandlers.ts:140 | splitting `head_tail` on `_` yields `tail` as the second field |
| Text.ToLower | middleware/withAuth.ts:49 | lower-casing maps each character on its own: ASCII capitals to small letters, every other character unchanged |
| Text.ToLowerIdempotent | middleware/withAuth.ts:99 | lower-casing twice is lower-casing once |
| Bits.FieldSizeIsPow2 | utils/eventHandlers.ts:29-30 | the 16-bit field mask size is 2^16 |
| Bits.BitOrDisjoint | utils/actionValidation.ts:59 | OR-ing a value below 2^k with a multiple of 2^k is addition, so the packing is `plotId + seedIndex * 2^16` |
| Fertilizer.GetFertilizerMultiplier | constants/fertilizer.ts:53-57 | the multiplier is 0.8 for every seed id |
| Fertilizer.GetAdjustedGrowTime | constants/fertilizer.ts:65-71 | unfertilized is the identity; fertilized is the floor of t * 0.8 |
| Fertilizer.AdjustedNotLonger | constants/fertilizer.ts:65-71 | fertilizing never lengthens a non-negative time and keeps it non-negative |
| Fertilizer.AdjustedMonotone | constants/fertilizer.ts:65-71 | the adjusted time is monotone in t |
| Fertilizer.AdjustedStrict | constants/fertilizer.ts:65-71 | times at least 2 apart stay strictly ordered and positive after adjustment |
| Fertilizer.GetRecommendedFertilizerEffect | constants/fertilizer.ts:78-88 | suffix at most 1 gives the low tier, at most 5 the mid tier, anything else (including a non-number) the high tier |
| Seeds.SeedIndex | constants/seeds.ts:137-139 | a key is found exactly when it is `seed_n` for a table position n |
| Seeds.GetSeedConfig | constants/seeds.ts:137-139 | a config exists exactly for the table keys and is that table entry |
| Seeds.KnownSeedKeys | constants/seeds.ts:17-132 | `seed_n` is known iff n < 10, and looks up entry n |
| Seeds.SeedTableWellFormed | constants/seeds.ts:17-132 | every seed has strictly increasing stage boundaries and positive checkpoint counts |
| Seeds.GetTotalGrowTime | constants/seeds.ts:144-148 | the sum of the three stage values, 0 for an unknown seed |
| Seeds.TotalGrowTimeExceedsMaturity | constants/seeds.ts:144-148 | the summed reading is longer than the maturity boundary `stages[2]` |
| Seeds.GetGrowthStage | constants/seeds.ts:153-179 | -1 exactly for an unknown seed; otherwise 0 before the first boundary, 1 up to the second, 2 from there until withering begins (growing and ripe alike) and 3 once withered |
| Seeds.GrowthStageMonotone | constants/seeds.ts:153-179 | the stage number never decreases as time advances |
| Seeds.ScaledStagesIncreasing | utils/gameLogic.ts:214-220 | the fertilizer-scaled boundaries of every seed stay positive and strictly increasing |
| Seeds.RecommendedTierOfSeed | constants/fertilizer.ts:78-88 | seeds 0-1 get the low tier, 2-5 the mid tier, 6-9 the high tier |
| Levels.LevelsTable | constants/levels.ts:5-26 | 20 thresholds, starting at 0 and strictly increasing |
| Levels.GetLevel | constants/levels.ts:31-38 | the level is in 1..20 and is the last threshold reached |
| Levels.GetLevelMonotone | constants/levels.ts:31-38 | more experience never lowers the level |
| Levels.GetLevelAtThreshold | constants/levels.ts:31-38 | experience exactly at threshold i gives level i+1 |
| Levels.GetExpForNextLevel | constants/levels.ts:43-48 | none iff the level is 20 or more, or negative (where the source reads an undefined entry); otherwise the next threshold |
| Levels.NextLevelAhead | constants/levels.ts:43-48 | the next level's threshold is always above the current experience |
| PlotPrices.PlotPricesTable | constants/plots.ts:11-43 | 18 entries, the first free at level 1, level and cost requirements non-decreasing |
| PlotPrices.GetPlotPrice | constants/plots.ts:48-53 | null iff the index is outside [0, 18) |
| PlotPrices.CanUnlockPlot | constants/plots.ts:58-84 | succeeds iff the index is valid, the level suffices and the coins suffice; checks level before coins |
| PlotPrices.GetMaxUnlockablePlots | constants/plots.ts:89-99 | the longest prefix of entries whose level requirement is met |
| PlotPrices.MaxUnlockableMonotone | constants/plots.ts:89-99 | a higher level never unlocks fewer plots |
| PlotPrices.MaxUnlockableCountsAll | constants/plots.ts:89-99 | the prefix length equals the number of entries whose requirement is met |
| Pets.GetPetConfig | constants/pets.ts:48-50 | a config exists exactly for the five pet ids |
| Weighted.Pick | constants/gluck.ts:106-111 | selects the first entry whose running total reaches the scaled roll |
| Weighted.PickIsBand | constants/checkin.ts:50-58 | the selected entry is the band containing the scaled roll |
| Weighted.PickTotal | constants/gluck.ts:105-122 | when the weights fill the scale every roll selects an entry |
| Weighted.RollBetween | constants/gluck.ts:112-118 | the drawn amount lies in [min, max] |
| Gluck.GluckTable | constants/gluck.ts:17-95 | ten entries, one per seed, with valid count ranges |
| Gluck.GluckWeightsSumToScale | constants/gluck.ts:17-95 | the weights sum to the whole scale (probability 1) |
| Gluck.DrawOne | constants/gluck.ts:106-118 | a draw selects the first entry reaching the roll and a count within its range |
| Gluck.DrawAlwaysSelects | constants/gluck.ts:106-118 | every roll selects an entry naming a known seed |
| Gluck.PerformGluck | constants/gluck.ts:102-125 | exactly `count` results (none for a non-positive count), each a draw of a known seed with count at least 1 |
| Gluck.TallyAppend | constants/gluck.ts:130-142 | the per-seed total of two result lists is the sum of their totals |
| Gluck.MergeGluckResults | constants/gluck.ts:130-142 | keys are exactly the result seed ids and each value is that seed's summed count |
| Gluck.MergeOrderIrrelevant | constants/gluck.ts:130-142 | merging does not depend on the order of the results |
| Checkin.CheckinWeightsSumToScale | constants/checkin.ts:12-40 | the band weights 50/30/15/5 sum to 100 percent |
| Checkin.PerformDailyCheckin | constants/checkin.ts:46-62 | the reward lies in the selected band, is 50 in the fallback, and is always in [50, 800] |
| Checkin.CheckinAlwaysBanded | constants/checkin.ts:46-62 | every roll selects a band, so the fallback is unreachable |
| Checkin.LowRollFirstBand | constants/checkin.ts:50-58 | a roll up to 0.5 gives 50..100 coins |
| Checkin.HasCheckedInToday | constants/checkin.ts:69-74 | false for no date; otherwise true iff the stored date equals today |
| Intervals.UnionAtMostSum | utils/gameLogic.ts:71-90 | the union of the intervals is no longer than the sum of their lengths |
| Intervals.UnionAtLeastEach | utils/gameLogic.ts:71-90 | the union is at least as long as each interval |
| Intervals.SortCorrect | utils/gameLogic.ts:71 | the sorted list is a permutation of the input ordered by start |
| Intervals.MergeCorrect | utils/gameLogic.ts:71-87 | merging overlapping or touching intervals covers the same seconds and leaves disjoint, separated intervals |
| Intervals.SeparatedMeasure | utils/gameLogic.ts:90 | for separated intervals the sum of lengths is the measure of the union |
| Intervals.Summarise | utils/gameLogic.ts:64-96 | the paused duration is the union measure (0 with no pause); `pausedAt` starts the paused run that stops exactly at `now`, and it is set exactly when `now` is uncovered and some interval ends at `now`, an empty one included |
| Intervals.MergeAbsorbs | utils/gameLogic.ts:70-87 | every input interval lies inside one merged interval |
| Intervals.MergeEnd | utils/gameLogic.ts:70-87 | every merged interval ends where some input interval ends |
| Intervals.OngoingIffEnding | utils/gameLogic.ts:90-94 | a merged interval ends at `now` exactly when `now` is uncovered and some input interval ends at `now` |
| Farm.FreshPlot | models/User.ts:164-173 | a fresh plot is empty, unfertilized, has no checkpoints, and only plot 0 is unlocked |
| Farm.NewUser | models/User.ts:94-156 | 1000 coins, 0 tickets and exp, level 1, no pets or plots, one `seed_0` |
| Farm.PreSave | models/User.ts:159-176 | a new document without plots gets 18 fresh plots; otherwise nothing changes |
| Farm.NewPlayerStart | models/User.ts:159-176 | a new player has 18 empty plots indexed by position with only plot 0 unlocked |
| GameLogic.RequirementIntervalAsWritten | utils/gameLogic.ts:49-62 | the checkpoint pause as the source computes it: open until now unless done with a later completion time |
| GameLogic.DoneWithoutTimeFreezesGrowth | utils/gameLogic.ts:55 | a done checkpoint without completion time pauses until now, freezing growth at the checkpoint |
| GameLogic.RequirementInterval | utils/gameLogic.ts:49-62 | corrected pause: none before the checkpoint, open until now while undone, up to completion once done |
| GameLogic.IntervalCorrectionAgrees | utils/gameLogic.ts:49-62 | the correction agrees with the source whenever a done checkpoint records its completion time |
| GameLogic.RequirementIntervals | utils/gameLogic.ts:49-62 | exactly the pauses of the individual checkpoints under the chosen reading (as written or corrected), all well formed |
| GameLogic.CalculatePausedDuration | utils/gameLogic.ts:41-97 | over the as-written checkpoint pauses: the duration is the number of seconds some pause covers, `pausedAt` starts the run stopping at `now` and is set exactly when `now` is uncovered and some pause (even an empty one, for a checkpoint due right now) ends there, only the pause fields change, and without pauses it is 0 with no pausedAt |
| GameLogic.PausedDurationIsUnion | utils/gameLogic.ts:64-96 | over the as-written pauses, the duration is their union measure, between the longest pause and their sum; pausedAt starts the run stopping at now, and is set exactly when now is uncovered and some pause ends there |
| GameLogic.CheckpointDueNowStartsPause | utils/gameLogic.ts:53-60 | a checkpoint falling due exactly now gives no paused seconds yet but sets pausedAt to now |
| GameLogic.DoneIntervalsStable | utils/gameLogic.ts:49-62 | once every checkpoint is reached and done, the pauses no longer depend on the clock: always under the corrected reading, and as written when every done checkpoint records its completion time |
| GameLogic.CorrectedPauseSettles | utils/gameLogic.ts:49-62 | under the corrected reading, the paused time of checkpoints all reached and done stays the same as the clock advances |
| GameLogic.GrowthResumesWhenAllDone | utils/gameLogic.ts:199-203 | with every checkpoint done at a recorded time, paused time is settled and elapsed growth advances one-for-one with the clock |
| GameLogic.DoneWithoutTimeFreezesPlot | utils/gameLogic.ts:55 | as written, a crop whose only checkpoint is done without a completion time reports the checkpoint's time as its growth at every later moment |
| GameLogic.SomeOverdue | utils/gameLogic.ts:206-211 | true iff some undone checkpoint is due at the elapsed time |
| GameLogic.StageBounds | utils/gameLogic.ts:214-226 | the wither boundary is maturity plus wither time, and boundaries increase for every catalogue seed |
| GameLogic.ClassifyStage | utils/gameLogic.ts:232-263 | Paused iff a checkpoint is due, otherwise the bucket Seed/Sprout/Growing/Ripe/Wither of the elapsed time |
| GameLogic.ClassifyMonotone | utils/gameLogic.ts:232-263 | outside a pause the stage never goes back as elapsed time grows |
| GameLogic.StageProgress | utils/gameLogic.ts:232-263 | progress is the share of the current stage already grown, `(e - start) / (end - start) * 100` for each of the three growing stages; it is in [0, 100] and 100 from maturity on |
| GameLogic.Clamp | utils/gameLogic.ts:277 | the reported progress is in [0, 100] and unchanged when already there |
| GameLogic.CalculatePests | utils/gameLogic.ts:105-148 | only growing or ripe crops are checked; existing flags stay and only the check time moves; a new outbreak raises both flags |
| GameLogic.PestsImplyOccurred | utils/gameLogic.ts:138-143 | a plot with pests has always had its outbreak recorded |
| GameLogic.EvaluateCrop | utils/gameLogic.ts:199-279 | the evaluated crop's stage is stored, progress is clamped, and hasPests reports the flag |
| GameLogic.EvaluateCropPause | utils/gameLogic.ts:199-203 | elapsed growth is wall time minus the refreshed pause duration |
| GameLogic.EvaluateCropTimestamps | utils/gameLogic.ts:225-226 | maturity is planting plus scaled maturity plus pause, and withering follows by the wither time |
| GameLogic.EvaluateCropFlags | utils/gameLogic.ts:206-211 | needsWater and hasWeeds hold iff an undone checkpoint of that kind is due |
| GameLogic.EvaluateCropStage | utils/gameLogic.ts:232-263 | the stage is the classification of the elapsed time given the flags |
| GameLogic.CalculatePlotStatus | utils/gameLogic.ts:162-279 | no seed, no planting time or an unknown seed gives Empty with cleared timestamps; otherwise the crop evaluation |
| GameLogic.CalculateKeepsCrop | utils/gameLogic.ts:162-279 | the calculator never changes the seed, planting time, checkpoints, fertilizer, lock or protection |
| GameLogic.RipeBetweenCachedTimestamps | utils/gameLogic.ts:225-263 | outside a pause, Ripe iff now is between the cached maturity and wither times, Wither from the wither time on |
| GameLogic.StatusIgnoresPestRoll | utils/gameLogic.ts:266 | stage, flags and progress do not depend on the pest roll |
| GameLogic.NoSecondOutbreak | utils/gameLogic.ts:114-123 | a plot whose outbreak flag is set never reports pests again, whatever the roll |
| GameLogic.Schedule | utils/gameLogic.ts:360-370 | k undone checkpoints, the i-th at floor(total * i / (k + 1)) |
| GameLogic.ScheduleSorted | utils/gameLogic.ts:360-370 | checkpoint times are non-negative and non-decreasing |
| GameLogic.ScheduleBeforeMaturity | utils/gameLogic.ts:360-370 | every checkpoint falls before maturity |
| GameLogic.GeneratePlotRequirements | utils/gameLogic.ts:345-390 | waterReqs and weedReqs undone checkpoints; none for an unknown seed |
| GameLogic.MaturityFraction | utils/gameLogic.ts:215 | the maturity time as an exact fraction, times 0.8 when fertilized |
| GameLogic.RequirementTimes | utils/gameLogic.ts:353-387 | both schedules of a catalogue seed are evenly spread, sorted, and inside [0, maturity) |
| GameLogic.ScheduleSpread | utils/gameLogic.ts:360-370 | a schedule over a positive maturity time is evenly spread over it |
| ActionValidation.PlantSeedIndex | utils/actionValidation.ts:58 | the seed index parsed from a catalogue key is its table position |
| ActionValidation.PackPlantFields | utils/actionValidation.ts:59 | the packed plant payload has plotId in the low 16 bits and the seed index above |
| ActionValidation.ValidatePlant | utils/actionValidation.ts:22-62 | accepts iff the plot exists, is unlocked and empty, the seed is known and in the backpack, and then returns the packed payload; each rejection (bad index, locked, occupied, unknown seed, no seed) happens exactly when the earlier checks pass and its own fails |
| ActionValidation.ValidateHarvest | utils/actionValidation.ts:67-101 | accepts iff the plot exists, holds a crop and is ripe now; returns the plot id |
| ActionValidation.ValidateWater | utils/actionValidation.ts:106-135 | accepts iff the plot holds a crop that needs water now; returns the plot id |
| ActionValidation.ValidateWeed | utils/actionValidation.ts:140-169 | accepts iff the plot holds a crop that has weeds now; returns the plot id |
| ActionValidation.ValidateFertilize | utils/actionValidation.ts:174-205 | accepts iff fertilizer is in stock, the plot holds a crop and is not yet fertilized; stock is checked first |
| ActionValidation.ValidateShovel | utils/actionValidation.ts:210-230 | accepts iff the plot exists and holds a crop; returns the plot id |
| ActionValidation.ValidateGluckDraw | utils/actionValidation.ts:235-256 | accepts iff 1 <= count <= 10 and the player has that many tickets; returns the count |
| ActionValidation.ValidateAction | utils/actionValidation.ts:261-291 | rejects every action type other than the seven it dispatches; accepted payloads meet each validator's conditions |
| EventHandlers.UnpackData | utils/eventHandlers.ts:18-57 | the payload shape per action type; a plant payload's plot id is below 2^16, other plot payloads carry the whole number, and a pet index maps to a known pet |
| EventHandlers.UnpackInvertsLayout | utils/eventHandlers.ts:28-55 | decoding `index + count * 2^16` recovers the index and the count |
| EventHandlers.CalculateLevel | utils/eventHandlers.ts:566-578 | the level is in 1..20 |
| EventHandlers.CalculateLevelAgrees | utils/eventHandlers.ts:566-578 | the handler's own level table gives the same level as the shared lookup |
| EventHandlers.RandomLetterDrop | utils/eventHandlers.ts:64-71 | a letter drops iff the roll is below the probability, and it is an upper-case letter |
| EventHandlers.ClearPlot | utils/eventHandlers.ts:165-181 | a cleared plot has no crop, no checkpoints and reports Empty, keeping its index and lock state |
| EventHandlers.Plant | utils/eventHandlers.ts:76-114 | takes one seed, sets the planting time and stage, clears fertilizer, pests, protection, the pause and the maturity and wither caches, sets the pest check time, keeps `pestsOccurred` and installs a fresh schedule; only the backpack and that plot change; fails only for a missing plot |
| EventHandlers.ReplantKeepsPestsAway | utils/eventHandlers.ts:96-104 | as written, a plot that once had pests never reports them under a new crop, however its checkpoints are tended and whatever the roll |
| EventHandlers.PlantNewCycle | utils/gameLogic.ts:113-114 | planting as the comment on the outbreak flag intends: the same as planting, except that the new crop starts with the flag cleared |
| EventHandlers.NewCycleCanHaveOutbreak | utils/gameLogic.ts:113-141 | with the flag cleared on planting, a growing or ripe new crop gets pests when a roll succeeds within the seconds since planting |
| EventHandlers.FruitOf | utils/eventHandlers.ts:140 | the fruit of `seed_n` is `fruit_n` |
| EventHandlers.SeedOfFruitKey | utils/eventHandlers.ts:491 | the seed of `fruit_n` is `seed_n` |
| EventHandlers.Harvest | utils/eventHandlers.ts:119-184 | adds the seed's experience and one fruit, raises the level, records a dropped letter and clears the plot; coins, tickets, pets and every other field stay as they were |
| EventHandlers.FirstPending | utils/eventHandlers.ts:202-209 | the first undone checkpoint in list order, or none |
| EventHandlers.MarkFirstPending | utils/eventHandlers.ts:202-209 | only the first undone checkpoint becomes done at the timestamp; no change when none is pending |
| EventHandlers.MarkFirstPendingCompletesOne | utils/eventHandlers.ts:202-209 | marking completes exactly one pending checkpoint when there is one |
| EventHandlers.PendingCountSplit | utils/eventHandlers.ts:202-209 | the pending count splits around any position |
| EventHandlers.Water | utils/eventHandlers.ts:189-210 | marks the first pending water checkpoint; nothing else changes |
| EventHandlers.Weed | utils/eventHandlers.ts:215-236 | marks the first pending weed checkpoint; nothing else changes |
| EventHandlers.Fertilize | utils/eventHandlers.ts:241-274 | takes one fertilizer, marks the plot fertilized and regenerates its schedule for a planted crop; no other plot field and nothing else in the user changes |
| EventHandlers.Pesticide | utils/eventHandlers.ts:279-296 | clears pests and records the check time; nothing else changes |
| EventHandlers.PesticideEndsPests | utils/eventHandlers.ts:279-296 | on a plot that has had its outbreak, no status evaluation after the treatment reports pests |
| EventHandlers.Protect | utils/eventHandlers.ts:301-318 | protects the plot until a day after the event; nothing else changes |
| EventHandlers.BuyPet | utils/eventHandlers.ts:323-360 | succeeds iff the pet is known, not owned and affordable; charges the price and appends the pet |
| EventHandlers.BuyPetKeepsDistinct | utils/eventHandlers.ts:333-350 | the pet list stays duplicate-free |
| EventHandlers.Shovel | utils/eventHandlers.ts:365-393 | clears the plot and changes nothing else |
| EventHandlers.AddAll | utils/eventHandlers.ts:415-420 | adding a tally adds each entry's count |
| EventHandlers.GluckDraw | utils/eventHandlers.ts:398-422 | spends the tickets and adds every drawn seed count to the backpack |
| EventHandlers.BuySeed | utils/eventHandlers.ts:427-451 | charges cost times count without a balance check and adds the seeds |
| EventHandlers.BuyFertilizer | utils/eventHandlers.ts:456-477 | charges 50 per unit and adds the fertilizer |
| EventHandlers.SellFruit | utils/eventHandlers.ts:482-513 | removes the fruit and pays the seed's price per unit |
| EventHandlers.SellFruitPaysSeedPrice | utils/eventHandlers.ts:482-513 | selling `fruit_n` always succeeds and pays seed n's price |
| EventHandlers.UnlockPlot | utils/eventHandlers.ts:518-538 | unlocks the plot for 100 coins; only the coins and that plot change |
| EventHandlers.CheckIn | utils/eventHandlers.ts:543-561 | adds 50 coins and a ticket and records the event's date (the UTC date of its timestamp), so a check-in on that day is then seen as done |
| EventHandlers.Persist | utils/eventHandlers.ts:699-715 | the save keeps the update exactly when it did not touch the fields it does not write |
| EventHandlers.SavedDocument | utils/eventHandlers.ts:699-715 | a failed event saves nothing; a successful one saves the update unchanged |
| EventHandlers.KindOf | utils/eventHandlers.ts:593-697 | each handled action type maps to its handler; the others are ignored |
| EventHandlers.OnActionRecorded | utils/eventHandlers.ts:583-717 | unknown actions change nothing, only throwing handlers fail, the wallet and plot indices are kept, and draws and check-ins apply their effects |
| ActionPipeline.ValidatedPlantApplies | utils/actionValidation.ts:59 | for any plot list that fits the 16-bit plot field (a player has 18 plots), a validated plant payload decodes to the same plot and seed, and the handler then plants it |
| ActionPipeline.ValidatedHarvestApplies | utils/actionValidation.ts:67-101 | a validated harvest succeeds, adds the seed's experience and empties the plot |
| ActionPipeline.ValidatedWaterCompletesOne | utils/actionValidation.ts:106-135 | a validated watering completes exactly one pending water checkpoint |
| ActionPipeline.ValidatedWeedCompletesOne | utils/actionValidation.ts:140-169 | a validated weeding completes exactly one pending weed checkpoint |
| ActionPipeline.ValidatedFertilizeApplies | utils/actionValidation.ts:174-205 | a validated fertilizing succeeds without driving the stock negative |
| ActionPipeline.ValidatedShovelEmpties | utils/actionValidation.ts:210-230 | a validated shovel leaves a plot that reports Empty at any later time |
| ActionPipeline.ValidatedDrawKeepsTickets | utils/actionValidation.ts:235-256 | a validated draw never drives the ticket count negative |
| PlotUnlock.FindPlot | pages/api/plot/unlock.ts:56-62 | the first plot whose plot_index matches, or none |
| PlotUnlock.Unlock | pages/api/plot/unlock.ts:39-93 | rejects bad index, missing plot, already unlocked, low level, low coins, each exactly when the earlier checks pass and its own fails; on success charges the cost, coins stay non-negative and only that plot is unlocked |
| PlotUnlock.UnlockAgreesWithCanUnlock | pages/api/plot/unlock.ts:72-89 | the endpoint's level and coin checks agree with the shared unlock check |
| PlotUnlock.UnlockOnce | pages/api/plot/unlock.ts:64-69 | unlocking the same plot twice fails the second time |
| PlotUnlock.UnlockNewPlayer | pages/api/plot/unlock.ts:39-93 | a new player owns plot 0, can buy plot 1 for 100 coins, and needs level 2 for plot 2 |
| PlotUnlock.UnlockPathsAgree | utils/eventHandlers.ts:518-538 | where the request succeeds on a plot at its own position, the on-chain unlock event also succeeds and unlocks the same plot; the coins differ by the table price minus the flat 100, so the two paths leave the same player only at plot 1 |
| Requests.NonEmptyStringIff | pages/api/shop/buy.ts:41 | the guard `!v \|\| typeof v !== 'string'` lets a value through exactly when it is a non-empty string; the pet purchase uses the same guard |
| ShopBuy.ItemPrice | pages/api/shop/buy.ts:59-77 | fertilizer costs its configured price, a known seed its cost, anything else is rejected |
| ShopBuy.Buy | pages/api/shop/buy.ts:41-97 | rejects a missing item, a non-positive amount, an unknown item and an unaffordable total; on success coins stay non-negative and only that item grows by the amount |
| ShopBuy.ShopSeedMatchesChain | pages/api/shop/buy.ts:91-97 | a successful seed purchase has the same effect as the on-chain seed purchase |
| ShopBuy.ShopFertilizerMatchesChain | pages/api/shop/buy.ts:91-97 | a successful fertilizer purchase has the same effect as the on-chain fertilizer purchase |
| ShopBuy.BuyAdditive | pages/api/shop/buy.ts:91-97 | two purchases of a and b units equal one purchase of a + b |
| PetBuy.BuyPet | pages/api/pet/buy.ts:41-94 | rejects a missing, unknown or owned pet, credits offline earnings before the affordability check, charges the price and appends the pet |
| PetBuy.PetBuyMatchesChain | pages/api/pet/buy.ts:41-94 | without earnings the endpoint agrees with the on-chain pet purchase |
| PetBuy.EarningsOnlyHelp | pages/api/pet/buy.ts:65-85 | a purchase affordable without earnings stays affordable with them |
| PetBuy.BuyPetKeepsDistinct | pages/api/pet/buy.ts:57-62 | the pet list stays duplicate-free |
| Auth.StripBearer | middleware/withAuth.ts:36-38 | a leading `Bearer ` is removed, otherwise the header is kept |
| Auth.Authenticate | middleware/withAuth.ts:24-49 | missing or empty header is rejected, a short address is rejected, otherwise the key is the lower-cased address |
| Auth.GetWalletAddress | middleware/withAuth.ts:91-100 | null iff the header is absent or empty |
| Auth.WalletAddressAgrees | middleware/withAuth.ts:91-100 | the helper yields the same key as the middleware whenever the middleware accepts |
| Auth.KeyIsLowerCase | middleware/withAuth.ts:49 | the key is already lower case |
| Auth.SameUserAnyForm | middleware/withAuth.ts:36-49 | headers differing only in case or the `Bearer ` prefix resolve to the same user |

## Left out

- Persistence: MongoDB, `User.updateOne` and `user.save` are I/O. The mongoose schema does not declare the plot fields the logic writes (`doneAt`, `pests`, `pestsOccurred`, `lastPestCheckAt`, `matureAt`, `witheredAt`, `stage`), and strict mode would strip them on save. The model keeps these fields as the in-memory logic sees them.
- Find-or-create of the user in the auth middleware and the event listener is database I/O.
- Blockchain access is network and signing code. This covers `utils/blockchain.ts`, `constants/contract.ts`, `scripts/listener.ts` and `pages/api/actions/request-action-voucher.ts`. Its exchange branch cannot be reached because `validateAction` has no `exchange` case.
- `pages/api/user/state.ts` orchestrates requests. `autoHandlePlotPause` in `utils/gameLogic.ts` does nothing.
- Pet income: `calculateOfflineEarnings`, `getTotalCoinsPerHour` and `calculatePetOfflineEarnings` are floating-point. The pet purchase takes the accrued earnings as a natural-number input.
- Randomness: every `Math.random()` value is an input. Probabilities and distributions are not modelled. Weights are integers per mille or per cent instead of float sums.
- Floating point: the 0.8 fertilizer factor is exact, `floor(4t/5)`. Checkpoint times are `floor(4·stages[2]·i / (5(k+1)))`. This idealises the double-precision arithmetic. Progress percentages are Dafny reals.
- Request-body numbers are integers or `NaN` where the body is read as a `Value`: the unlock request and the shop and pet purchases. Fractional numbers, numbers beyond 2^53 and non-JSON values are not modelled. The action validators take integer arguments (next line).
- Event payloads: `Number(data)` of a plot payload is the exact natural number. The rounding of values above 2^53 to the nearest double is not modelled.
- Text.ToLower: lower-cases ASCII letters only, and lengths are counted in code points. JavaScript's `toLowerCase` is full Unicode and can change the length (for example 'İ' becomes two code units), and `.length` counts UTF-16 code units.
- `parseInt` reads an optional sign and decimal digits. Leading whitespace, hexadecimal prefixes and precision loss are not modelled.
- JavaScript prototype keys (for example `PETS["constructor"]` or `SEEDS["toString"]`) are not modelled. The lookups recognise only the table's own keys.
- Dates: `new Date()`, ISO strings and `getTodayDateString` are replaced by integer timestamps and a given "today" string. `lastOfflineClaimAt` always has a value (the schema default is the current time).
- HTTP plumbing is not modelled: the 405 method check, response bodies, logging, and the 500 error catch.
- EventHandlers.OnActionRecorded: its contract states the dispatch only for unknown actions, draws and check-ins, plus the common frame. Each other action's effect is stated on its own handler, and the dispatch calls that handler.
- ActionValidation.ValidateAction: states the rejected action types and the key facts of an accepted payload. The full condition for each action is on the individual validator.
- ActionValidation.ValidateAction: arguments are integers; a missing plotId makes the plot validators throw reading the plot, and a missing count passes both draw checks and throws at `BigInt(count)`. Both comparisons against `undefined` are false, so a missing or null plotId passes the range check at utils/actionValidation.ts:29 and `plots_list[plotId].unlocked` then throws; the endpoint's catch turns either throw into a 500. The model has no missing-argument case.
- GameLogic.CalculatePests: does not spell out which first-hit values trigger a new outbreak. It states the gating by stage, the sticky flags, the check time, and that no hit means no change.
- ActionPipeline.ValidatedFertilizeApplies: states success, non-negative stock and the fertilized flag. The rest of the effect is on `EventHandlers.Fertilize`.

## Findings

| source | as written | input that shows it | evidently intended | confidence | as-written member | corrected member |
|---|---|---|---|---|---|---|
| utils/gameLogic.ts:55 | a done checkpoint contributes a closed pause only when `doneAt` is set; a done checkpoint without `doneAt` is treated like an undone one and pauses the crop until `now` | plantedAt 1000, water checkpoint {time 10, done true, doneAt missing}, now 5000: the pause is [1010, 5000], so elapsed growth stays at 10 seconds whatever `now` is | a completed checkpoint adds no open-ended pause | medium, not executed | GameLogic.DoneWithoutTimeFreezesPlot | GameLogic.CorrectedPauseSettles |
| utils/eventHandlers.ts:96-104 | planting resets `pests` but never `pestsOccurred`, and no other handler clears it, so a plot that had one outbreak never gets another on any later crop | a plot gets pests under one crop, is treated, harvested and replanted: the new crop never reports pests, whatever the rolls | the flag covers one planting cycle, as the comment at utils/gameLogic.ts:113 says, so a new crop can have its own outbreak | medium, not executed | EventHandlers.ReplantKeepsPestsAway | EventHandlers.NewCycleCanHaveOutbreak |
