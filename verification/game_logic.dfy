/**
 The plot calculator. Everything is derived on demand from stored
 timestamps: pause time from the watering and weeding checkpoints, the
 effective growth time, the cached maturity and wither timestamps, the
 stage, and the pest outbreak (as written, at most one per plot). Each in-place update of the plot
 becomes a function returning the updated plot.
 */
module GameLogic {
  import opened Common
  import opened Farm
  import opened Intervals
  import Seeds
  import Fertilizer

  /**
   The pause one checkpoint causes, measured from `base` (the planting time,
   or 0), as written: None before the checkpoint is reached and for a
   completion that does not come after it; a checkpoint that is not done,
   or done without a (non-zero) completion time, is still open at `now`.
   */
  function RequirementIntervalAsWritten(base: int, req: Requirement, now: int): (r: Option<Interval>)
    ensures r.Some? ==> WellFormed(r.value) && r.value.0 == base + req.time
    ensures r.None? <==> now < base + req.time || (req.done && NonZero(req.doneAt) && req.doneAt.value <= base + req.time)
    ensures r.Some? && req.done && NonZero(req.doneAt) ==> r.value.1 == req.doneAt.value
    ensures r.Some? && !(req.done && NonZero(req.doneAt)) ==> r.value.1 == now
  {
    var start := base + req.time;
    if now < start then None
    else if req.done && NonZero(req.doneAt) then
      if req.doneAt.value > start then Some((start, req.doneAt.value)) else None
    else Some((start, now))
  }

  /**
   As written, a checkpoint marked done but lacking its completion time
   pauses the crop from the moment it is reached until `now`, whatever
   `now` is: growth measured against it stays at the checkpoint's time.
   */
  lemma DoneWithoutTimeFreezesGrowth(base: int, time: int, now: int)
    requires base + time <= now
    ensures var iv := RequirementIntervalAsWritten(base, Requirement(time, true, None), now);
      && iv == Some((base + time, now))
      && now - base - Len(iv.value) == time
  {
  }

  /**
   The pause one checkpoint causes, measured from `base` (the planting time,
   or 0). None before the checkpoint is reached; a checkpoint still to do is
   open until `now`; a done one paused the crop from the checkpoint until
   its completion time, and not at all when it does not record a later one.
   */
  function RequirementInterval(base: int, req: Requirement, now: int): (r: Option<Interval>)
    ensures r.Some? ==> WellFormed(r.value) && r.value.0 == base + req.time
    ensures r.None? <==> now < base + req.time || (req.done && !(NonZero(req.doneAt) && req.doneAt.value > base + req.time))
    ensures r.Some? && req.done ==> r.value.1 == req.doneAt.value
    ensures r.Some? && !req.done ==> r.value.1 == now
  {
    var start := base + req.time;
    if now < start then None
    else if req.done then
      if NonZero(req.doneAt) && req.doneAt.value > start then Some((start, req.doneAt.value)) else None
    else Some((start, now))
  }

  /** Both readings agree on every checkpoint that is open or records its completion time. */
  lemma IntervalCorrectionAgrees(base: int, req: Requirement, now: int)
    requires !req.done || NonZero(req.doneAt)
    ensures RequirementInterval(base, req, now) == RequirementIntervalAsWritten(base, req, now)
  {
  }

  /**
   Which reading of a done checkpoint to apply: the one the calculator
   uses, or the corrected one under which every done checkpoint is closed.
   */
  datatype PauseRule = AsWritten | Corrected

  function CheckpointPause(rule: PauseRule, base: int, req: Requirement, now: int): Option<Interval> {
    match rule
    case AsWritten => RequirementIntervalAsWritten(base, req, now)
    case Corrected => RequirementInterval(base, req, now)
  }

  /** The intervals of a list of checkpoints under one reading, in list order. */
  function RequirementIntervals(rule: PauseRule, base: int, reqs: seq<Requirement>, now: int): (ivs: seq<Interval>)
    ensures AllWellFormed(ivs)
    ensures |ivs| <= |reqs|
    ensures forall iv :: iv in ivs <==> exists i :: 0 <= i < |reqs| && CheckpointPause(rule, base, reqs[i], now) == Some(iv)
  {
    if |reqs| == 0 then []
    else
      var tail := RequirementIntervals(rule, base, reqs[1..], now);
      assert forall i :: 0 < i < |reqs| ==> reqs[i] == reqs[1..][i - 1];
      match CheckpointPause(rule, base, reqs[0], now)
      case None => tail
      case Some(iv) => [iv] + tail
  }

  /**
   The calculator's intervals, as written: water checkpoints first, then
   weed checkpoints, measured from `plantedAt || 0`.
   */
  function PauseIntervals(plot: Plot, now: int): (ivs: seq<Interval>)
    ensures AllWellFormed(ivs)
  {
    RequirementIntervals(AsWritten, plot.plantedAt.GetOr(0), plot.waterRequirements + plot.weedRequirements, now)
  }

  /**
   The cached pause fields brought up to date from the checkpoint intervals:
   the duration counts the seconds some interval covers, and `pausedAt`
   starts the paused run that stops exactly at `now` (set exactly when some
   interval, possibly an empty one, ends at an uncovered `now`); nothing
   else changes, and without intervals there is no pause at all.
   */
  function CalculatePausedDuration(plot: Plot, now: int): (r: Plot)
    ensures r == plot.(pausedDuration := r.pausedDuration, pausedAt := r.pausedAt)
    ensures r.pausedDuration >= 0
    ensures |PauseIntervals(plot, now)| == 0 ==> r.pausedDuration == 0 && r.pausedAt.None?
    ensures r.pausedDuration == |Points(PauseIntervals(plot, now))|
    ensures r.pausedAt.Some? ==>
      && r.pausedAt.value <= now
      && (forall t :: r.pausedAt.value <= t < now ==> t in Points(PauseIntervals(plot, now)))
      && now !in Points(PauseIntervals(plot, now))
    ensures r.pausedAt.None? ==>
      !(now - 1 in Points(PauseIntervals(plot, now)) && now !in Points(PauseIntervals(plot, now)))
    ensures r.pausedAt.Some? <==>
      && now !in Points(PauseIntervals(plot, now))
      && exists i :: 0 <= i < |PauseIntervals(plot, now)| && PauseIntervals(plot, now)[i].1 == now
  {
    var ivs := PauseIntervals(plot, now);
    var summary := Summarise(ivs, now);
    plot.(pausedDuration := summary.duration, pausedAt := summary.pausedAt)
  }

  /**
   `pausedDuration` is the number of seconds some checkpoint interval
   covers: at most the sum of the interval lengths, at least the longest
   one. `pausedAt`, when set, starts the unbroken paused run that ends at
   `now`; it is set exactly when `now` is uncovered and some interval,
   possibly an empty one, ends there.
   */
  lemma PausedDurationIsUnion(plot: Plot, now: int)
    ensures var r := CalculatePausedDuration(plot, now);
      var ivs := PauseIntervals(plot, now);
      && r.pausedDuration == |Points(ivs)|
      && r.pausedDuration <= SumLen(ivs)
      && (forall iv :: iv in ivs ==> Len(iv) <= r.pausedDuration)
      && (r.pausedAt.Some? ==>
            && r.pausedAt.value <= now
            && (forall t :: r.pausedAt.value <= t < now ==> t in Points(ivs))
            && r.pausedAt.value - 1 !in Points(ivs)
            && now !in Points(ivs))
      && (r.pausedAt.None? ==> !(now - 1 in Points(ivs) && now !in Points(ivs)))
      && (r.pausedAt.Some? <==> now !in Points(ivs) && exists i :: 0 <= i < |ivs| && ivs[i].1 == now)
  {
    var ivs := PauseIntervals(plot, now);
    var summary := Summarise(ivs, now);
    assert CalculatePausedDuration(plot, now) == plot.(pausedDuration := summary.duration, pausedAt := summary.pausedAt);
    forall iv | iv in ivs
      ensures Len(iv) <= summary.duration
    {
      var i :| 0 <= i < |ivs| && ivs[i] == iv;
    }
  }

  /**
   A checkpoint falling due exactly now opens an empty pause: no second is
   paused yet, but the pause has started, at `now`.
   */
  lemma CheckpointDueNowStartsPause(plot: Plot, time: int, now: int)
    requires plot.waterRequirements == [Requirement(time, false, None)] && plot.weedRequirements == []
    requires plot.plantedAt.GetOr(0) + time == now
    ensures CalculatePausedDuration(plot, now).pausedDuration == 0
    ensures CalculatePausedDuration(plot, now).pausedAt == Some(now)
  {
    assert plot.waterRequirements + plot.weedRequirements == [Requirement(time, false, None)];
    assert PauseIntervals(plot, now) == [(now, now)];
    assert Points([(now, now)]) == {} by {
      assert Span((now, now)) == {};
    }
  }

  /**
   Once every checkpoint is reached and done, the intervals no longer depend
   on the clock: under the corrected reading always, as written only when
   each done checkpoint records its completion time.
   */
  lemma {:induction false} DoneIntervalsStable(rule: PauseRule, base: int, reqs: seq<Requirement>, now1: int, now2: int)
    requires forall i :: 0 <= i < |reqs| ==> reqs[i].done && base + reqs[i].time <= now1
    requires rule == AsWritten ==> forall i :: 0 <= i < |reqs| ==> NonZero(reqs[i].doneAt)
    requires now1 <= now2
    ensures RequirementIntervals(rule, base, reqs, now1) == RequirementIntervals(rule, base, reqs, now2)
    decreases |reqs|
  {
    if |reqs| > 0 {
      assert forall i :: 0 < i < |reqs| ==> reqs[i] == reqs[1..][i - 1];
      DoneIntervalsStable(rule, base, reqs[1..], now1, now2);
    }
  }

  /**
   The intended property, under the corrected reading: once every
   checkpoint is reached and done, the paused time is settled, whether or
   not completion times were recorded.
   */
  lemma CorrectedPauseSettles(base: int, reqs: seq<Requirement>, now1: int, now2: int)
    requires forall i :: 0 <= i < |reqs| ==> reqs[i].done && base + reqs[i].time <= now1
    requires now1 <= now2
    ensures Summarise(RequirementIntervals(Corrected, base, reqs, now2), now2).duration
         == Summarise(RequirementIntervals(Corrected, base, reqs, now1), now1).duration
  {
    DoneIntervalsStable(Corrected, base, reqs, now1, now2);
  }

  /**
   With every checkpoint reached and done at a recorded time, the paused
   time is settled: it stays the same as the clock advances, so a crop's
   growth time advances one-for-one with the clock.
   */
  lemma GrowthResumesWhenAllDone(plot: Plot, now1: int, now2: int)
    requires var reqs := plot.waterRequirements + plot.weedRequirements;
      forall i :: 0 <= i < |reqs| ==>
        reqs[i].done && NonZero(reqs[i].doneAt) && plot.plantedAt.GetOr(0) + reqs[i].time <= now1
    requires now1 <= now2
    ensures CalculatePausedDuration(plot, now2).pausedDuration == CalculatePausedDuration(plot, now1).pausedDuration
    ensures Growable(plot) ==>
      CalculatePlotStatus(plot, now2, None).status.effectiveElapsedTime
        == CalculatePlotStatus(plot, now1, None).status.effectiveElapsedTime + (now2 - now1)
  {
    DoneIntervalsStable(AsWritten, plot.plantedAt.GetOr(0), plot.waterRequirements + plot.weedRequirements, now1, now2);
    if Growable(plot) {
      var seed := Seeds.GetSeedConfig(plot.seedId.value).value;
      EvaluateCropPause(plot, seed, now1, None);
      EvaluateCropPause(plot, seed, now2, None);
    }
  }

  /**
   The calculator as written: a crop whose one checkpoint is marked done
   without a completion time reports the checkpoint's time as its growth
   time at every later moment.
   */
  lemma DoneWithoutTimeFreezesPlot(plot: Plot, time: int, now: int, firstHit: Option<nat>)
    requires Growable(plot)
    requires plot.waterRequirements == [Requirement(time, true, None)] && plot.weedRequirements == []
    requires plot.plantedAt.value + time <= now
    ensures CalculatePlotStatus(plot, now, firstHit).status.effectiveElapsedTime == time
  {
    var iv := (plot.plantedAt.value + time, now);
    assert plot.waterRequirements + plot.weedRequirements == [Requirement(time, true, None)];
    assert PauseIntervals(plot, now) == [iv];
    assert Points([iv]) == Span(iv);
    SpanSize(iv);
    EvaluateCropPause(plot, Seeds.GetSeedConfig(plot.seedId.value).value, now, firstHit);
  }

  /** `reqs.some(req => elapsed >= req.time && !req.done)` */
  function SomeOverdue(reqs: seq<Requirement>, elapsed: int): (b: bool)
    ensures b <==> exists i :: 0 <= i < |reqs| && reqs[i].time <= elapsed && !reqs[i].done
  {
    if |reqs| == 0 then false
    else if elapsed >= reqs[0].time && !reqs[0].done then true
    else
      assert forall i :: 0 < i < |reqs| ==> reqs[i] == reqs[1..][i - 1];
      SomeOverdue(reqs[1..], elapsed)
  }

  /** Stage boundaries in seconds of growth: end of seed, end of sprout, maturity, start of withering. */
  datatype Bounds = Bounds(b0: int, b1: int, b2: int, witherStart: int)

  predicate Increasing(b: Bounds) {
    0 < b.b0 < b.b1 < b.b2 <= b.witherStart
  }

  /** Boundaries in order, none negative. */
  predicate Ordered(b: Bounds) {
    0 <= b.b0 <= b.b1 <= b.b2 <= b.witherStart
  }

  /** The three stage values scaled by the fertilizer factor and floored, plus the wither time. */
  function StageBounds(seed: Seeds.SeedConfig, fertilized: bool): (b: Bounds)
    ensures b.witherStart == b.b2 + seed.witherTime
    ensures seed in Seeds.SEEDS ==> Increasing(b)
  {
    var b2 := Fertilizer.GetAdjustedGrowTime(seed.stage2, fertilized);
    var b := Bounds(Fertilizer.GetAdjustedGrowTime(seed.stage0, fertilized),
                    Fertilizer.GetAdjustedGrowTime(seed.stage1, fertilized),
                    b2, b2 + seed.witherTime);
    if seed in Seeds.SEEDS then
      Seeds.ScaledStagesIncreasing(seed, fertilized);
      b
    else b
  }

  /**
   The stage for `elapsed` seconds of growth: Paused when a checkpoint is
   overdue, otherwise the bucket of `elapsed` among the boundaries (a
   negative elapsed time counts as Seed).
   */
  function ClassifyStage(b: Bounds, paused: bool, elapsed: int): (s: Stage)
    requires Ordered(b)
    ensures s != Empty
    ensures s == Paused <==> paused
    ensures !paused ==>
      && (s == Seed <==> elapsed < b.b0)
      && (s == Sprout <==> b.b0 <= elapsed < b.b1)
      && (s == Growing <==> b.b1 <= elapsed < b.b2)
      && (s == Ripe <==> b.b2 <= elapsed < b.witherStart)
      && (s == Wither <==> b.witherStart <= elapsed)
  {
    if paused then Paused
    else if elapsed < 0 then Seed
    else if elapsed < b.b0 then Seed
    else if elapsed < b.b1 then Sprout
    else if elapsed < b.b2 then Growing
    else if elapsed < b.witherStart then Ripe
    else Wither
  }

  /** Position of a stage in the growth order. */
  function Rank(s: Stage): nat {
    match s
    case Empty => 0
    case Seed => 1
    case Sprout => 2
    case Growing => 3
    case Ripe => 4
    case Wither => 5
    case Paused => 6
  }

  /** Without a pause, more growth never means an earlier stage. */
  lemma ClassifyMonotone(b: Bounds, e1: int, e2: int)
    requires Ordered(b)
    requires e1 <= e2
    ensures Rank(ClassifyStage(b, false, e1)) <= Rank(ClassifyStage(b, false, e2))
  {
  }

  /**
   Progress within the current stage, in percent, before clamping; 100 once
   mature. While paused it is the progress reached before the pause.
   */
  function StageProgress(b: Bounds, elapsed: int): (p: real)
    requires Increasing(b)
    ensures elapsed >= b.b2 ==> p == 100.0
    ensures 0 <= elapsed ==> 0.0 <= p <= 100.0
    ensures elapsed < b.b0 ==> p * b.b0 as real == (elapsed * 100) as real
    ensures b.b0 <= elapsed < b.b1 ==> p * (b.b1 - b.b0) as real == ((elapsed - b.b0) * 100) as real
    ensures b.b1 <= elapsed < b.b2 ==> p * (b.b2 - b.b1) as real == ((elapsed - b.b1) * 100) as real
  {
    if elapsed < b.b0 then Percent(elapsed, b.b0)
    else if elapsed < b.b1 then Percent(elapsed - b.b0, b.b1 - b.b0)
    else if elapsed < b.b2 then Percent(elapsed - b.b1, b.b2 - b.b1)
    else 100.0
  }

  /** `(part / whole) * 100` */
  function Percent(part: int, whole: int): (p: real)
    requires whole > 0
    ensures 0 <= part <= whole ==> 0.0 <= p <= 100.0
    ensures p * whole as real == (part * 100) as real
  {
    var q := part as real / whole as real;
    if 0 <= part <= whole then
      RatioUnit(part as real, whole as real);
      q * 100.0
    else q * 100.0
  }

  lemma RatioUnit(x: real, c: real)
    requires 0.0 <= x <= c && c > 0.0
    ensures 0.0 <= x / c <= 1.0
  {
    assert (x / c) * c == x;
  }

  /** `Math.min(100, Math.max(0, p))` */
  function Clamp(p: real): (r: real)
    ensures 0.0 <= r <= 100.0
    ensures 0.0 <= p <= 100.0 ==> r == p
  {
    if p < 0.0 then 0.0 else if p > 100.0 then 100.0 else p
  }

  datatype PlotStatus = PlotStatus(
    stage: Stage,
    needsWater: bool,
    hasWeeds: bool,
    hasPests: bool,
    effectiveElapsedTime: int,
    progress: real)

  const EmptyStatus := PlotStatus(Empty, false, false, false, 0, 0.0)

  /** The updated plot and the status reported for it. */
  datatype Evaluation = Evaluation(plot: Plot, status: PlotStatus)

  /** The plot has a crop of a catalogue seed, so the calculator does more than report Empty. */
  predicate Growable(p: Plot) {
    HasCrop(p) && Seeds.GetSeedConfig(p.seedId.value).Some?
  }

  /**
   The pest outbreak check. `firstHit` is the first second (counted from
   the last check) whose per-second roll succeeds, if any. Only a growing
   or ripe crop is checked; a plot whose outbreak flag is set (nothing ever
   clears it), or that has pests now, only records the check time. Otherwise
   an outbreak happens when the first successful roll falls within the seconds
   elapsed since the last check (or planting, or now), and then both flags
   are raised.
   */
  function CalculatePests(plot: Plot, now: int, stage: Stage, firstHit: Option<nat>): (r: Plot)
    ensures stage != Growing && stage != Ripe ==> r == plot
    ensures r == plot.(pests := r.pests, pestsOccurred := r.pestsOccurred, lastPestCheckAt := r.lastPestCheckAt)
    ensures (stage == Growing || stage == Ripe) ==> r.lastPestCheckAt == Some(now)
    ensures (stage == Growing || stage == Ripe) && (plot.pests || plot.pestsOccurred) ==>
      r == plot.(lastPestCheckAt := Some(now))
    ensures plot.pests ==> r.pests
    ensures plot.pestsOccurred ==> r.pestsOccurred
    ensures r.pests && !plot.pests ==> r.pestsOccurred
    ensures firstHit.None? ==> r.pests == plot.pests && r.pestsOccurred == plot.pestsOccurred
  {
    if stage != Growing && stage != Ripe then plot
    else if plot.pestsOccurred || plot.pests then plot.(lastPestCheckAt := Some(now))
    else
      var lastCheck :=
        if NonZero(plot.lastPestCheckAt) then plot.lastPestCheckAt.value
        else if NonZero(plot.plantedAt) then plot.plantedAt.value
        else now;
      var deltaSeconds := Max(0, now - lastCheck);
      var hasPest := firstHit.Some? && firstHit.value < deltaSeconds;
      plot.(pests := hasPest,
            pestsOccurred := if hasPest then true else plot.pestsOccurred,
            lastPestCheckAt := Some(now))
  }

  /** Checking for pests keeps the invariant that a plot with pests has had an outbreak. */
  lemma PestsImplyOccurred(plot: Plot, now: int, stage: Stage, firstHit: Option<nat>)
    requires plot.pests ==> plot.pestsOccurred
    ensures var r := CalculatePests(plot, now, stage, firstHit); r.pests ==> r.pestsOccurred
  {
  }

  /** Progress before clamping: held at the pre-pause value while paused, 0 before planting time and once withered. */
  function RawProgress(b: Bounds, paused: bool, stage: Stage, elapsed: int): real
    requires Increasing(b)
  {
    if paused then StageProgress(b, elapsed)
    else if elapsed < 0 then 0.0
    else if stage == Wither then 0.0
    else StageProgress(b, elapsed)
  }

  /**
   The calculation for a plot holding a catalogue seed: refresh the pause
   fields, cache the maturity and wither timestamps, classify the stage,
   check for pests and store the stage.
   */
  function EvaluateCrop(plot: Plot, seed: Seeds.SeedConfig, now: int, firstHit: Option<nat>): (r: Evaluation)
    requires HasCrop(plot) && seed in Seeds.SEEDS
    ensures 0.0 <= r.status.progress <= 100.0
    ensures r.plot.stage == Some(r.status.stage)
    ensures r.status.hasPests == r.plot.pests
  {
    var p1 := CalculatePausedDuration(plot, now);
    var plantedAt := plot.plantedAt.value;
    var elapsed := now - plantedAt - p1.pausedDuration;
    var needsWater := SomeOverdue(plot.waterRequirements, elapsed);
    var hasWeeds := SomeOverdue(plot.weedRequirements, elapsed);
    var b := StageBounds(seed, plot.fertilized);
    var p2 := p1.(matureAt := Some(plantedAt + b.b2 + p1.pausedDuration),
                  witheredAt := Some(plantedAt + b.witherStart + p1.pausedDuration));
    var stage := ClassifyStage(b, needsWater || hasWeeds, elapsed);
    var progress := RawProgress(b, needsWater || hasWeeds, stage, elapsed);
    var p3 := CalculatePests(p2, now, stage, firstHit);
    var p4 := p3.(stage := Some(stage));
    Evaluation(p4, PlotStatus(stage, needsWater, hasWeeds, p4.pests, elapsed, Clamp(progress)))
  }

  /** An evaluated crop carries the refreshed pause fields, and its elapsed growth time is wall time minus pause time. */
  lemma EvaluateCropPause(plot: Plot, seed: Seeds.SeedConfig, now: int, firstHit: Option<nat>)
    requires HasCrop(plot) && seed in Seeds.SEEDS
    ensures var r := EvaluateCrop(plot, seed, now, firstHit);
      var paused := CalculatePausedDuration(plot, now);
      && r.plot.pausedDuration == paused.pausedDuration
      && r.plot.pausedAt == paused.pausedAt
      && r.status.effectiveElapsedTime == now - plot.plantedAt.value - paused.pausedDuration
  {
  }

  /** Maturity and withering are cached as absolute timestamps, shifted by the pause time. */
  lemma EvaluateCropTimestamps(plot: Plot, seed: Seeds.SeedConfig, now: int, firstHit: Option<nat>)
    requires HasCrop(plot) && seed in Seeds.SEEDS
    ensures var r := EvaluateCrop(plot, seed, now, firstHit);
      && r.plot.matureAt.Some? && r.plot.witheredAt.Some?
      && r.plot.matureAt.value - r.plot.pausedDuration - plot.plantedAt.value == StageBounds(seed, plot.fertilized).b2
      && r.plot.witheredAt.value - r.plot.matureAt.value == seed.witherTime
  {
  }

  /** The checkpoint flags report whether some undone checkpoint of that kind is due at the elapsed time. */
  lemma EvaluateCropFlags(plot: Plot, seed: Seeds.SeedConfig, now: int, firstHit: Option<nat>)
    requires HasCrop(plot) && seed in Seeds.SEEDS
    ensures var r := EvaluateCrop(plot, seed, now, firstHit);
      var elapsed := r.status.effectiveElapsedTime;
      && (r.status.needsWater <==>
            exists i :: 0 <= i < |plot.waterRequirements| && plot.waterRequirements[i].time <= elapsed && !plot.waterRequirements[i].done)
      && (r.status.hasWeeds <==>
            exists i :: 0 <= i < |plot.weedRequirements| && plot.weedRequirements[i].time <= elapsed && !plot.weedRequirements[i].done)
  {
    var r := EvaluateCrop(plot, seed, now, firstHit);
    var elapsed := r.status.effectiveElapsedTime;
    assert r.status.needsWater == SomeOverdue(plot.waterRequirements, elapsed);
    assert r.status.hasWeeds == SomeOverdue(plot.weedRequirements, elapsed);
  }

  /** The stage is Paused exactly when a checkpoint is due, and otherwise the bucket of the elapsed time. */
  lemma EvaluateCropStage(plot: Plot, seed: Seeds.SeedConfig, now: int, firstHit: Option<nat>)
    requires HasCrop(plot) && seed in Seeds.SEEDS
    ensures var r := EvaluateCrop(plot, seed, now, firstHit);
      r.status.stage == ClassifyStage(StageBounds(seed, plot.fertilized), r.status.needsWater || r.status.hasWeeds, r.status.effectiveElapsedTime)
  {
  }

  /**
   The full calculation: empty plots (no seed, no planting time, or an
   unknown seed) report Empty and clear the cached timestamps; any other
   plot is evaluated as a growing crop.
   */
  function CalculatePlotStatus(plot: Plot, now: int, firstHit: Option<nat>): (r: Evaluation)
    ensures !Growable(plot) ==>
      r == Evaluation(plot.(stage := Some(Empty), matureAt := None, witheredAt := None), EmptyStatus)
    ensures Growable(plot) ==>
      var seed := Seeds.GetSeedConfig(plot.seedId.value).value;
      seed in Seeds.SEEDS && r == EvaluateCrop(plot, seed, now, firstHit)
    ensures 0.0 <= r.status.progress <= 100.0
    ensures r.plot.stage == Some(r.status.stage)
  {
    if !Growable(plot) then
      Evaluation(plot.(stage := Some(Empty), matureAt := None, witheredAt := None), EmptyStatus)
    else
      var seed := Seeds.GetSeedConfig(plot.seedId.value).value;
      EvaluateCrop(plot, seed, now, firstHit)
  }

  /** The calculator touches only the pause, pest, cache and stage fields of a plot. */
  lemma CalculateKeepsCrop(plot: Plot, now: int, firstHit: Option<nat>)
    ensures var r := CalculatePlotStatus(plot, now, firstHit).plot;
      && r.plotIndex == plot.plotIndex && r.unlocked == plot.unlocked
      && r.seedId == plot.seedId && r.plantedAt == plot.plantedAt
      && r.waterRequirements == plot.waterRequirements && r.weedRequirements == plot.weedRequirements
      && r.fertilized == plot.fertilized && r.protectedUntil == plot.protectedUntil
  {
  }

  /**
   Outside a pause, the crop is ripe exactly between the cached maturity
   timestamp (inclusive) and the cached wither timestamp (exclusive), and
   withered from the wither timestamp on.
   */
  lemma RipeBetweenCachedTimestamps(plot: Plot, now: int, firstHit: Option<nat>)
    requires Growable(plot)
    requires CalculatePlotStatus(plot, now, firstHit).status.stage != Paused
    ensures var r := CalculatePlotStatus(plot, now, firstHit);
      && (r.status.stage == Ripe <==> r.plot.matureAt.value <= now < r.plot.witheredAt.value)
      && (r.status.stage == Wither <==> r.plot.witheredAt.value <= now)
  {
  }

  /** The stage, the checkpoint flags and the progress do not depend on the pest roll. */
  lemma StatusIgnoresPestRoll(plot: Plot, now: int, hit1: Option<nat>, hit2: Option<nat>)
    ensures var s1 := CalculatePlotStatus(plot, now, hit1).status;
      var s2 := CalculatePlotStatus(plot, now, hit2).status;
      s1.(hasPests := false) == s2.(hasPests := false)
  {
  }

  /**
   A plot whose outbreak flag is set never gets a new outbreak, whatever the
   roll. Nothing clears the flag, so this holds across later crops too.
   */
  lemma NoSecondOutbreak(plot: Plot, now: int, firstHit: Option<nat>)
    requires plot.pestsOccurred && !plot.pests
    ensures !CalculatePlotStatus(plot, now, firstHit).status.hasPests
  {
  }

  /**
   Checkpoints for a crop whose maturity is `num / den` seconds: `k` of
   them, evenly spaced, the i-th (from 1) at `floor(num * i / (den * (k + 1)))`,
   none of them done.
   */
  function Schedule(num: nat, den: nat, k: nat): (reqs: seq<Requirement>)
    requires den > 0
    ensures |reqs| == k
    ensures forall i :: 0 <= i < k ==> !reqs[i].done && reqs[i].doneAt.None?
    ensures forall i :: 0 <= i < k ==>
      reqs[i].time * (den * (k + 1)) <= num * (i + 1) < (reqs[i].time + 1) * (den * (k + 1))
  {
    var d := den * (k + 1);
    var reqs := seq(k, i requires 0 <= i => Requirement((num * (i + 1)) / d, false, None));
    forall i | 0 <= i < k
      ensures reqs[i].time * d <= num * (i + 1) < (reqs[i].time + 1) * d
    {
      FloorDiv(num * (i + 1), d);
    }
    reqs
  }

  lemma FloorDiv(a: int, d: int)
    requires d > 0
    ensures (a / d) * d <= a < (a / d + 1) * d
  {
  }

  /** Checkpoint times are non-negative and non-decreasing. */
  lemma ScheduleSorted(num: nat, den: nat, k: nat)
    requires den > 0
    ensures var reqs := Schedule(num, den, k);
      && (forall i :: 0 <= i < k ==> 0 <= reqs[i].time)
      && (forall i, j :: 0 <= i <= j < k ==> reqs[i].time <= reqs[j].time)
  {
    var reqs := Schedule(num, den, k);
    var d := den * (k + 1);
    forall i | 0 <= i < k ensures 0 <= reqs[i].time {
      var t := reqs[i].time;
      assert 0 * d <= num * (i + 1) < (t + 1) * d;
      MulCancel(0, t + 1, d);
    }
    forall i, j | 0 <= i <= j < k ensures reqs[i].time <= reqs[j].time {
      var ti, tj := reqs[i].time, reqs[j].time;
      MulMonotone(num, i + 1, j + 1);
      assert ti * d <= num * (i + 1) <= num * (j + 1) < (tj + 1) * d;
      MulCancel(ti, tj + 1, d);
    }
  }

  /** Every checkpoint falls before maturity: time * den < num. */
  lemma ScheduleBeforeMaturity(num: nat, den: nat, k: nat)
    requires den > 0 && num > 0
    ensures var reqs := Schedule(num, den, k);
      forall i :: 0 <= i < k ==> reqs[i].time * den < num
  {
    var reqs := Schedule(num, den, k);
    forall i | 0 <= i < k ensures reqs[i].time * den < num {
      var t := reqs[i].time;
      assert t * (den * (k + 1)) <= num * (i + 1);
      MulMonotone(num, i + 1, k);
      assert (t * den) * (k + 1) == t * (den * (k + 1));
      assert num * k < num * (k + 1);
      MulCancel(t * den, num, k + 1);
    }
  }

  lemma MulMonotone(a: nat, x: int, y: int)
    requires x <= y
    ensures a * x <= a * y
  {
  }

  lemma MulCancel(x: int, y: int, c: int)
    requires c > 0 && x * c < y * c
    ensures x < y
  {
  }

  /** The watering and weeding schedules of a newly planted (or newly fertilized) crop. */
  datatype Schedules = Schedules(water: seq<Requirement>, weed: seq<Requirement>)

  /**
   Evenly spaced checkpoints over the crop's maturity time `stages[2]`
   scaled by the fertilizer factor (not floored). An unknown seed gets none.
   The planting time the source also receives plays no part.
   */
  function GeneratePlotRequirements(seedId: string, fertilized: bool): (r: Schedules)
    ensures Seeds.GetSeedConfig(seedId).None? ==> r == Schedules([], [])
    ensures Seeds.GetSeedConfig(seedId).Some? ==>
      var seed := Seeds.GetSeedConfig(seedId).value;
      && |r.water| == seed.waterReqs && |r.weed| == seed.weedReqs
    ensures forall i :: 0 <= i < |r.water| ==> !r.water[i].done && r.water[i].doneAt.None?
    ensures forall i :: 0 <= i < |r.weed| ==> !r.weed[i].done && r.weed[i].doneAt.None?
  {
    match Seeds.GetSeedConfig(seedId)
    case None => Schedules([], [])
    case Some(seed) =>
      var (num, den) := MaturityFraction(seed, fertilized);
      Schedules(Schedule(num, den, seed.waterReqs), Schedule(num, den, seed.weedReqs))
  }

  /** The crop's maturity time `stages[2]` (times 0.8 when fertilized) as the fraction num / den. */
  function MaturityFraction(seed: Seeds.SeedConfig, fertilized: bool): (f: (nat, nat))
    ensures f.1 > 0
    ensures f.0 as real / f.1 as real == seed.stage2 as real * (if fertilized then Fertilizer.GetFertilizerMultiplier(None) else 1.0)
  {
    if fertilized then (4 * seed.stage2, 5) else (seed.stage2, 1)
  }

  /**
   For a catalogue seed, the k-th checkpoint (from 1) of a list of n lies at
   `floor(total * k / (n + 1))` for the maturity time total = num / den:
   spread evenly, non-decreasing, and inside [0, total).
   */
  lemma RequirementTimes(seedId: string, fertilized: bool)
    requires Seeds.GetSeedConfig(seedId).Some?
    ensures var seed := Seeds.GetSeedConfig(seedId).value;
      var (num, den) := MaturityFraction(seed, fertilized);
      var r := GeneratePlotRequirements(seedId, fertilized);
      && Spread(r.water, num, den) && Spread(r.weed, num, den)
  {
    var seed := Seeds.GetSeedConfig(seedId).value;
    var (num, den) := MaturityFraction(seed, fertilized);
    assert seed in Seeds.SEEDS;
    Seeds.SeedTableWellFormed();
    ScheduleSpread(num, den, seed.waterReqs);
    ScheduleSpread(num, den, seed.weedReqs);
  }

  /** A schedule over a positive maturity time is spread over it. */
  lemma ScheduleSpread(num: nat, den: nat, k: nat)
    requires den > 0 && num > 0
    ensures Spread(Schedule(num, den, k), num, den)
  {
    ScheduleSorted(num, den, k);
    ScheduleBeforeMaturity(num, den, k);
  }

  /** A checkpoint list evenly spread over the maturity time num / den. */
  ghost predicate Spread(reqs: seq<Requirement>, num: nat, den: nat)
    requires den > 0
  {
    var d := den * (|reqs| + 1);
    && (forall i :: 0 <= i < |reqs| ==> reqs[i].time * d <= num * (i + 1) < (reqs[i].time + 1) * d)
    && (forall i, j :: 0 <= i <= j < |reqs| ==> reqs[i].time <= reqs[j].time)
    && (forall i :: 0 <= i < |reqs| ==> 0 <= reqs[i].time && reqs[i].time * den < num)
  }
}
