/**
 The lottery ("gluck") reward pool: a weighted table of seed rewards, the
 draw loop that spends one roll pair per draw, and the merge of draw results
 into per-seed totals.
 */
module Gluck {
  import opened Common
  import opened Weighted
  import Seeds

  /** One pool entry; `weight` is the probability in thousandths. */
  datatype GluckRewardItem = GluckRewardItem(seedId: string, weight: nat, minCount: nat, maxCount: nat)

  datatype GluckResult = GluckResult(seedId: string, count: int)

  /** The two `Math.random()` values one draw consumes: the entry pick and the count. */
  datatype GluckRoll = GluckRoll(pick: Unit, amount: Unit)

  /** Probabilities are written in thousandths: 0.25 is 250. */
  const GluckScale: nat := 1000

  const GLUCK_REWARDS: seq<GluckRewardItem> := [
    GluckRewardItem(Seeds.SeedKey(0), 250, 3, 5),
    GluckRewardItem(Seeds.SeedKey(1), 150, 2, 4),
    GluckRewardItem(Seeds.SeedKey(2), 200, 2, 3),
    GluckRewardItem(Seeds.SeedKey(3), 100, 1, 2),
    GluckRewardItem(Seeds.SeedKey(4), 120, 1, 2),
    GluckRewardItem(Seeds.SeedKey(5), 80, 1, 1),
    GluckRewardItem(Seeds.SeedKey(6), 50, 1, 1),
    GluckRewardItem(Seeds.SeedKey(7), 30, 1, 1),
    GluckRewardItem(Seeds.SeedKey(8), 15, 1, 1),
    GluckRewardItem(Seeds.SeedKey(9), 5, 1, 1)
  ]

  /** Tickets spent by one draw and by a ten-draw. */
  const GluckTicketCost: nat := 1
  const GluckTicketCost10x: nat := 10

  /** The draw weights, per mille, in table order. */
  const GluckWeights: seq<nat> := Weights(GLUCK_REWARDS, (e: GluckRewardItem) => e.weight)

  /** Entry i rewards seed i, with a non-empty count range. */
  lemma GluckTable()
    ensures |GLUCK_REWARDS| == Seeds.SeedCount
    ensures forall i :: 0 <= i < |GLUCK_REWARDS| ==>
      GLUCK_REWARDS[i].seedId == Seeds.SeedKey(i) && 1 <= GLUCK_REWARDS[i].minCount <= GLUCK_REWARDS[i].maxCount
  {
  }

  /** The probabilities add up to exactly one. */
  lemma GluckWeightsSumToScale()
    ensures Total(GluckWeights) == GluckScale
  {
    var ws := GluckWeights;
    assert Cumulative(ws, 1) == 250;
    assert Cumulative(ws, 2) == 400;
    assert Cumulative(ws, 3) == 600;
    assert Cumulative(ws, 4) == 700;
    assert Cumulative(ws, 5) == 820;
    assert Cumulative(ws, 6) == 900;
    assert Cumulative(ws, 7) == 950;
    assert Cumulative(ws, 8) == 980;
    assert Cumulative(ws, 9) == 995;
  }

  /**
   One pass of the inner loop: the first entry whose running probability
   reaches the pick roll, and a count drawn from that entry's range. None when
   the roll passes every entry.
   */
  function DrawOne(roll: GluckRoll): (r: Option<GluckResult>)
    ensures r.Some? <==> Pick(GluckWeights, GluckScale, roll.pick).Some?
    ensures r.Some? ==>
      var item := GLUCK_REWARDS[Pick(GluckWeights, GluckScale, roll.pick).value];
      r.value.seedId == item.seedId && item.minCount <= r.value.count <= item.maxCount
  {
    match Pick(GluckWeights, GluckScale, roll.pick)
    case None => None
    case Some(i) =>
      var item := GLUCK_REWARDS[i];
      Some(GluckResult(item.seedId, RollBetween(item.minCount, item.maxCount, roll.amount)))
  }

  /** Because the weights fill the scale, every roll selects an entry, and that entry names a known seed. */
  lemma DrawAlwaysSelects(roll: GluckRoll)
    ensures DrawOne(roll).Some?
    ensures Seeds.GetSeedConfig(DrawOne(roll).value.seedId).Some?
  {
    GluckWeightsSumToScale();
    PickTotal(GluckWeights, GluckScale, roll.pick);
    var i := Pick(GluckWeights, GluckScale, roll.pick).value;
    GluckTable();
    Seeds.KnownSeedKeys(i);
  }

  /**
   `count` draws, draw i consuming `rolls(i)`; a draw whose pick passes every
   entry adds nothing. A count of zero or less draws nothing.
   */
  method PerformGluck(count: int, rolls: nat -> GluckRoll) returns (results: seq<GluckResult>)
    ensures |results| == Max(count, 0)
    ensures forall i :: 0 <= i < |results| ==> DrawOne(rolls(i)) == Some(results[i])
    ensures forall i :: 0 <= i < |results| ==> Seeds.GetSeedConfig(results[i].seedId).Some? && results[i].count >= 1
  {
    results := [];
    var i := 0;
    while i < count
      invariant 0 <= i <= Max(count, 0)
      invariant |results| == i
      invariant forall j :: 0 <= j < |results| ==> DrawOne(rolls(j)) == Some(results[j])
      invariant forall j :: 0 <= j < |results| ==> Seeds.GetSeedConfig(results[j].seedId).Some? && results[j].count >= 1
    {
      var r := DrawOne(rolls(i));
      DrawAlwaysSelects(rolls(i));
      GluckTable();
      if r.Some? {
        results := results + [r.value];
      }
      i := i + 1;
    }
  }

  /** Reference total: the counts of the results carrying `id`, added up front to back. */
  function Tally(results: seq<GluckResult>, id: string): int {
    if |results| == 0 then 0
    else (if results[0].seedId == id then results[0].count else 0) + Tally(results[1..], id)
  }

  function SeedIds(results: seq<GluckResult>): set<string> {
    set i | 0 <= i < |results| :: results[i].seedId
  }

  lemma {:induction false} TallyAppend(a: seq<GluckResult>, b: seq<GluckResult>, id: string)
    ensures Tally(a + b, id) == Tally(a, id) + Tally(b, id)
    decreases |a|
  {
    if |a| == 0 {
      assert a + b == b;
    } else {
      assert (a + b)[1..] == a[1..] + b;
      TallyAppend(a[1..], b, id);
    }
  }

  /**
   The loop over results: a seed id already holding a (non-zero) total is
   increased, any other id is set to the result's count.
   */
  function MergeGluckResults(results: seq<GluckResult>): (merged: map<string, int>)
    ensures merged.Keys == SeedIds(results)
    ensures forall id :: Count(merged, id) == Tally(results, id)
    decreases |results|
  {
    if |results| == 0 then map[]
    else
      var init := results[..|results| - 1];
      var last := results[|results| - 1];
      var m := MergeGluckResults(init);
      var r := if Count(m, last.seedId) != 0 then m[last.seedId := m[last.seedId] + last.count]
               else m[last.seedId := last.count];
      assert results == init + [last];
      forall id ensures Count(r, id) == Tally(results, id) {
        TallyAppend(init, [last], id);
        assert [last][1..] == [];
      }
      assert SeedIds(results) == SeedIds(init) + {last.seedId} by {
        forall x | x in SeedIds(results) ensures x in SeedIds(init) + {last.seedId} {
          var i :| 0 <= i < |results| && results[i].seedId == x;
          if i < |init| { assert init[i] == results[i]; }
        }
        forall x | x in SeedIds(init) ensures x in SeedIds(results) {
          var i :| 0 <= i < |init| && init[i].seedId == x;
          assert results[i] == init[i];
        }
        assert results[|results| - 1] == last;
      }
      r
  }

  /** The merged totals do not depend on the order in which two batches of results arrive. */
  lemma MergeOrderIrrelevant(a: seq<GluckResult>, b: seq<GluckResult>)
    ensures MergeGluckResults(a + b) == MergeGluckResults(b + a)
  {
    var m1 := MergeGluckResults(a + b);
    var m2 := MergeGluckResults(b + a);
    forall id ensures Count(m1, id) == Count(m2, id) {
      TallyAppend(a, b, id);
      TallyAppend(b, a, id);
    }
    assert SeedIds(a + b) == SeedIds(a) + SeedIds(b) by {
      SeedIdsAppend(a, b);
    }
    assert SeedIds(b + a) == SeedIds(b) + SeedIds(a) by {
      SeedIdsAppend(b, a);
    }
    assert m1.Keys == m2.Keys;
    forall id | id in m1 ensures m1[id] == m2[id] {
      assert Count(m1, id) == Count(m2, id);
    }
  }

  lemma SeedIdsAppend(a: seq<GluckResult>, b: seq<GluckResult>)
    ensures SeedIds(a + b) == SeedIds(a) + SeedIds(b)
  {
    forall x | x in SeedIds(a + b) ensures x in SeedIds(a) + SeedIds(b) {
      var i :| 0 <= i < |a + b| && (a + b)[i].seedId == x;
      if i >= |a| { assert b[i - |a|] == (a + b)[i]; }
    }
    forall x | x in SeedIds(a) ensures x in SeedIds(a + b) {
      var i :| 0 <= i < |a| && a[i].seedId == x;
      assert (a + b)[i] == a[i];
    }
    forall x | x in SeedIds(b) ensures x in SeedIds(a + b) {
      var i :| 0 <= i < |b| && b[i].seedId == x;
      assert (a + b)[|a| + i] == b[i];
    }
  }
}
