/** `calculateHistogram`: how often each resource-dice sum 2..12 occurs in a
    list of rolls. */
module Histogram {
  import opened GameTypes
  import DiceRules

  /** One bin per sum 2..12. */
  const Bins := 11

  /** The two resource dice are present and show faces 1..6; every roll the
      dice roller produces is of this shape. */
  predicate ResourceDiceValid(roll: DiceRoll) {
    |roll.values| >= 2 && 1 <= roll.values[0] <= 6 && 1 <= roll.values[1] <= 6
  }

  predicate AllValid(rolls: seq<DiceRoll>) {
    forall i :: 0 <= i < |rolls| ==> ResourceDiceValid(rolls[i])
  }

  function ResourceSum(roll: DiceRoll): (sum: int)
    requires ResourceDiceValid(roll)
    ensures 2 <= sum <= 12
  {
    roll.values[0] + roll.values[1]
  }

  /** The resource sums of the rolls, in order: the reference the histogram
      is measured against. */
  function Sums(rolls: seq<DiceRoll>): (sums: seq<int>)
    requires AllValid(rolls)
    ensures |sums| == |rolls|
    ensures forall i :: 0 <= i < |rolls| ==> sums[i] == rolls[i].values[0] + rolls[i].values[1]
  {
    seq(|rolls|, i requires 0 <= i < |rolls| => ResourceSum(rolls[i]))
  }

  lemma SumsSnoc(rolls: seq<DiceRoll>)
    requires |rolls| > 0 && AllValid(rolls)
    ensures Sums(rolls) == Sums(rolls[..|rolls| - 1]) + [ResourceSum(rolls[|rolls| - 1])]
  {
  }

  /** The histogram, filled roll by roll in list order as the source's
      `forEach` does. Bin `k` holds how many rolls have resource sum `k + 2`. */
  function CalculateHistogram(rolls: seq<DiceRoll>): (histogram: seq<nat>)
    requires AllValid(rolls)
    ensures |histogram| == Bins
    ensures forall k :: 0 <= k < Bins ==> histogram[k] == multiset(Sums(rolls))[k + 2]
    decreases |rolls|
  {
    if |rolls| == 0 then seq(Bins, _ => 0)
    else
      var earlier := CalculateHistogram(rolls[..|rolls| - 1]);
      var bin := ResourceSum(rolls[|rolls| - 1]) - 2;
      SumsSnoc(rolls);
      earlier[bin := earlier[bin] + 1]
  }

  function Total(counts: seq<nat>): nat {
    if |counts| == 0 then 0 else counts[0] + Total(counts[1..])
  }

  lemma {:induction false} TotalIncrement(counts: seq<nat>, k: nat)
    requires k < |counts|
    ensures Total(counts[k := counts[k] + 1]) == Total(counts) + 1
    decreases |counts|
  {
    if k > 0 {
      assert counts[k := counts[k] + 1][1..] == counts[1..][k - 1 := counts[k] + 1];
      TotalIncrement(counts[1..], k - 1);
    }
  }

  lemma {:induction false} TotalOfZeros(counts: seq<nat>)
    requires forall k :: 0 <= k < |counts| ==> counts[k] == 0
    ensures Total(counts) == 0
    decreases |counts|
  {
    if |counts| > 0 {
      TotalOfZeros(counts[1..]);
    }
  }

  /** Every roll lands in exactly one bin. */
  lemma {:induction false} HistogramTotal(rolls: seq<DiceRoll>)
    requires AllValid(rolls)
    ensures Total(CalculateHistogram(rolls)) == |rolls|
    decreases |rolls|
  {
    if |rolls| == 0 {
      TotalOfZeros(CalculateHistogram(rolls));
    } else {
      var earlier := CalculateHistogram(rolls[..|rolls| - 1]);
      var bin := ResourceSum(rolls[|rolls| - 1]) - 2;
      var histogram: seq<nat> := earlier[bin := earlier[bin] + 1];
      assert CalculateHistogram(rolls) == histogram;
      HistogramTotal(rolls[..|rolls| - 1]);
      TotalIncrement(earlier, bin);
    }
  }

  /** The number of robber rolls in a list. */
  function RobberCount(rolls: seq<DiceRoll>): nat {
    if |rolls| == 0 then 0
    else RobberCount(rolls[..|rolls| - 1]) + (if DiceRules.IsRobberEvent(rolls[|rolls| - 1].values) then 1 else 0)
  }

  /** The robber rolls are exactly the rolls counted in bin 5 (sum 7). */
  lemma {:induction false} RobberBin(rolls: seq<DiceRoll>)
    requires AllValid(rolls)
    ensures CalculateHistogram(rolls)[5] == RobberCount(rolls)
    decreases |rolls|
  {
    if |rolls| > 0 {
      RobberBin(rolls[..|rolls| - 1]);
    }
  }

  /** The event die plays no part: lists whose resource dice agree have the
      same histogram. */
  lemma HistogramIgnoresEventDie(rolls: seq<DiceRoll>, others: seq<DiceRoll>)
    requires AllValid(rolls) && AllValid(others) && |rolls| == |others|
    requires forall i :: 0 <= i < |rolls| ==> rolls[i].values[..2] == others[i].values[..2]
    ensures CalculateHistogram(rolls) == CalculateHistogram(others)
  {
    forall i | 0 <= i < |rolls|
      ensures Sums(rolls)[i] == Sums(others)[i]
    {
      assert rolls[i].values[0] == rolls[i].values[..2][0];
      assert rolls[i].values[1] == rolls[i].values[..2][1];
    }
    assert Sums(rolls) == Sums(others);
  }

  /** A roll put in front of a list adds one to the bin of its sum and
      leaves the other bins alone. */
  lemma HistogramPrepend(roll: DiceRoll, rolls: seq<DiceRoll>)
    requires ResourceDiceValid(roll) && AllValid(rolls)
    ensures AllValid([roll] + rolls)
    ensures var before := CalculateHistogram(rolls);
      var after := CalculateHistogram([roll] + rolls);
      var bin := ResourceSum(roll) - 2;
      && after[bin] == before[bin] + 1
      && forall k :: 0 <= k < Bins && k != bin ==> after[k] == before[k]
  {
    assert Sums([roll] + rolls) == [ResourceSum(roll)] + Sums(rolls);
  }

  /** The worked example: rolls 3+4, 1+1 and 6+6 fill bins 5, 0 and 10. */
  lemma HistogramExample(a: DiceRoll, b: DiceRoll, c: DiceRoll)
    requires a.values == [3, 4] && b.values == [1, 1] && c.values == [6, 6]
    ensures CalculateHistogram([a, b, c]) == [1, 0, 0, 0, 0, 1, 0, 0, 0, 0, 1]
  {
    var zeros: seq<nat> := seq(Bins, _ => 0);
    assert [a, b, c][..2] == [a, b] && [a, b][..1] == [a] && [a][..0] == [];
    assert CalculateHistogram([a]) == zeros[5 := 1];
    assert CalculateHistogram([a, b]) == zeros[5 := 1][0 := 1];
    assert CalculateHistogram([a, b, c]) == zeros[5 := 1][0 := 1][10 := 1];
  }
}
