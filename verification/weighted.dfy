/**
 Weighted selection as the reward tables use it: walk the table adding each
 weight to a running total and take the first entry whose running total
 reaches the roll. Weights are integers on a fixed scale (per-mille,
 percent); the roll is `Math.random()` supplied as an input.
 */
module Weighted {
  import opened Common

  /** The weight column of a reward table. */
  function Weights<T>(table: seq<T>, weight: T -> nat): (ws: seq<nat>)
    ensures |ws| == |table|
    ensures forall i :: 0 <= i < |table| ==> ws[i] == weight(table[i])
  {
    seq(|table|, i requires 0 <= i < |table| => weight(table[i]))
  }

  /** Sum of the first `n` weights. */
  function Cumulative(ws: seq<nat>, n: nat): nat
    requires n <= |ws|
  {
    if n == 0 then 0 else Cumulative(ws, n - 1) + ws[n - 1]
  }

  /** The running total once entry `j` has been added. */
  function RunningTotal(ws: seq<nat>, j: nat): nat
    requires j < |ws|
  {
    Cumulative(ws, j + 1)
  }

  function Total(ws: seq<nat>): nat {
    Cumulative(ws, |ws|)
  }

  /** The roll placed on the weights' scale. */
  function Scaled(roll: Unit, scale: nat): real {
    roll * scale as real
  }

  function PickFrom(ws: seq<nat>, scale: nat, roll: Unit, i: nat): (r: Option<nat>)
    requires i <= |ws|
    ensures r.Some? ==> i <= r.value < |ws| && Scaled(roll, scale) <= RunningTotal(ws, r.value) as real
    ensures r.Some? ==> forall j :: i <= j < r.value ==> Scaled(roll, scale) > RunningTotal(ws, j) as real
    ensures r.None? ==> forall j :: i <= j < |ws| ==> Scaled(roll, scale) > RunningTotal(ws, j) as real
    decreases |ws| - i
  {
    if i == |ws| then None
    else if Scaled(roll, scale) <= RunningTotal(ws, i) as real then Some(i)
    else PickFrom(ws, scale, roll, i + 1)
  }

  /** `for (entry of table) { cumulative += entry.p; if (random <= cumulative) return entry; }` */
  function Pick(ws: seq<nat>, scale: nat, roll: Unit): (r: Option<nat>)
    ensures r.Some? ==> r.value < |ws| && Scaled(roll, scale) <= RunningTotal(ws, r.value) as real
    ensures r.Some? ==> forall j :: 0 <= j < r.value ==> Scaled(roll, scale) > RunningTotal(ws, j) as real
    ensures r.None? ==> forall j :: 0 <= j < |ws| ==> Scaled(roll, scale) > RunningTotal(ws, j) as real
  {
    PickFrom(ws, scale, roll, 0)
  }

  /** The picked entry is the band the roll falls in: (Cumulative(i), Cumulative(i + 1)]. */
  lemma PickIsBand(ws: seq<nat>, scale: nat, roll: Unit)
    requires Pick(ws, scale, roll).Some?
    ensures var i := Pick(ws, scale, roll).value;
            (i > 0 ==> Cumulative(ws, i) as real < Scaled(roll, scale))
            && Scaled(roll, scale) <= RunningTotal(ws, i) as real
  {
    var i := Pick(ws, scale, roll).value;
    if i > 0 {
      assert Scaled(roll, scale) > RunningTotal(ws, i - 1) as real;
    }
  }

  /** When the weights fill the scale, every roll in [0, 1) selects an entry. */
  lemma PickTotal(ws: seq<nat>, scale: nat, roll: Unit)
    requires scale > 0 && Total(ws) == scale
    ensures Pick(ws, scale, roll).Some?
  {
    var last := |ws| - 1;
    assert |ws| > 0 && RunningTotal(ws, last) == scale;
    var k := scale as real;
    assert RunningTotal(ws, last) as real == k;
    MulBelow(roll, k);
    assert Scaled(roll, scale) == roll * k;
  }

  lemma MulBelow(u: Unit, k: real)
    requires k > 0.0
    ensures 0.0 <= u * k < k
  {
    assert (1.0 - u) * k > 0.0;
  }

  /** `Math.floor(random * (hi - lo + 1) + lo)`: an integer in [lo, hi]. */
  function RollBetween(lo: int, hi: int, roll: Unit): (r: int)
    requires lo <= hi
    ensures lo <= r <= hi
  {
    var span := (hi - lo + 1) as real;
    MulBelow(roll, span);
    (roll * span + lo as real).Floor
  }
}
