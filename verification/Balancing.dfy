/** The weighted choice of an upstream: prefix sums and a search that narrows two bounds. */
module Balancing {
  import opened Text

  /** Sum of the weights up to and including index `i`. */
  function Prefix(w: seq<int>, i: nat): int
    requires i < |w|
  {
    if i == 0 then w[0] else Prefix(w, i - 1) + w[i]
  }

  predicate PositiveWeights(w: seq<int>) {
    forall i :: 1 <= i < |w| ==> w[i] > 0
  }

  /** `i` is the first index whose prefix sum reaches `draw`. */
  ghost predicate IsLeast(w: seq<int>, draw: int, i: int) {
    && 0 <= i < |w|
    && Prefix(w, i) >= draw
    && forall k | 0 <= k < i :: Prefix(w, k) < draw
  }

  lemma {:induction false} PrefixIncreases(w: seq<int>, i: nat, j: nat)
    requires PositiveWeights(w) && i < j < |w|
    ensures Prefix(w, i) < Prefix(w, j)
    decreases j
  {
    if i < j - 1 {
      PrefixIncreases(w, i, j - 1);
    }
  }

  /** For any weights with a positive sum the search stays in bounds and ends; with positive weights it
      finds the least index whose prefix sum is at least the draw. */
  method StartBalancing(upstream: seq<int>, random: nat) returns (choice: int)
    requires |upstream| > 0 && Prefix(upstream, |upstream| - 1) > 0
    requires forall i | 0 <= i < |upstream| :: INT_MIN <= Prefix(upstream, i) <= INT_MAX
    ensures 0 <= choice < |upstream|
    ensures PositiveWeights(upstream) ==>
              IsLeast(upstream, random % Prefix(upstream, |upstream| - 1), choice)
  {
    var sums := PrefixSums(upstream);
    var sum := sums[sums.Length - 1];
    var draw := random % sum;
    var left, right := 0, sums.Length;
    while right >= left
      invariant 0 <= left < sums.Length && left - 1 <= right <= sums.Length
      invariant ArePrefixSums(upstream, sums[..])
      invariant PositiveWeights(upstream) ==> Bracketed(sums[..], draw, left, right)
      decreases right - left + 1
    {
      var middle := (left + right) / 2;
      assert left <= middle <= right && middle < sums.Length;
      Narrow(upstream, sums[..], draw, left, right, middle);
      if sums[middle] > draw {
        right := right - 1;
      } else if sums[middle] < draw {
        left := left + 1;
      } else {
        return middle;
      }
    }
    Closed(upstream, sums[..], draw, left, right);
    return left;
  }

  ghost predicate ArePrefixSums(w: seq<int>, sums: seq<int>) {
    |sums| == |w| && forall k | 0 <= k < |w| :: sums[k] == Prefix(w, k)
  }

  /** Every index below `left` falls short of the draw and every index above `right` exceeds it. */
  ghost predicate Bracketed(sums: seq<int>, draw: int, left: int, right: int) {
    && (forall k | 0 <= k < |sums| && k < left :: sums[k] < draw)
    && (forall k | 0 <= k < |sums| && k > right :: sums[k] > draw)
  }

  /** Moving a bound by one keeps the bracket, and meeting the draw ends the search. */
  lemma Narrow(w: seq<int>, sums: seq<int>, draw: int, left: int, right: int, middle: int)
    requires ArePrefixSums(w, sums) && PositiveWeights(w) ==> Bracketed(sums, draw, left, right)
    requires ArePrefixSums(w, sums) && left <= middle <= right && 0 <= middle < |w|
    ensures PositiveWeights(w) && sums[middle] > draw ==> Bracketed(sums, draw, left, right - 1)
    ensures PositiveWeights(w) && sums[middle] < draw ==> Bracketed(sums, draw, left + 1, right)
    ensures PositiveWeights(w) && sums[middle] == draw ==> IsLeast(w, draw, middle)
  {
    if PositiveWeights(w) {
      SumsIncrease(w, sums);
    }
  }

  lemma Closed(w: seq<int>, sums: seq<int>, draw: int, left: int, right: int)
    requires ArePrefixSums(w, sums) && 0 <= left < |w| && right == left - 1
    ensures PositiveWeights(w) && Bracketed(sums, draw, left, right) ==> IsLeast(w, draw, left)
  {
  }

  /** The in-place summation of the first loop, on the by-value copy of the argument. */
  method PrefixSums(upstream: seq<int>) returns (sums: array<int>)
    requires |upstream| > 0
    ensures fresh(sums) && sums.Length == |upstream|
    ensures forall k | 0 <= k < |upstream| :: sums[k] == Prefix(upstream, k)
  {
    sums := new int[|upstream|](i requires 0 <= i < |upstream| => upstream[i]);
    for i := 1 to sums.Length
      invariant forall k | 0 <= k < i :: sums[k] == Prefix(upstream, k)
      invariant forall k | i <= k < sums.Length :: sums[k] == upstream[k]
    {
      assert Prefix(upstream, i) == sums[i - 1] + sums[i];
      sums[i] := sums[i] + sums[i - 1];
    }
  }

  lemma SumsIncrease(w: seq<int>, sums: seq<int>)
    requires PositiveWeights(w) && ArePrefixSums(w, sums)
    ensures forall i, j | 0 <= i < j < |w| :: sums[i] < sums[j]
  {
    forall i, j | 0 <= i < j < |w| ensures sums[i] < sums[j] {
      PrefixIncreases(w, i, j);
    }
  }

  // ---------- how often each index is drawn ----------

  /** The draws below `n` for which the search answers `i`. */
  ghost function Draws(w: seq<int>, i: nat, n: nat): set<nat> {
    set draw: nat | draw < n && IsLeast(w, draw, i)
  }

  lemma LeastIsBetween(w: seq<int>, draw: int, i: nat)
    requires PositiveWeights(w) && i < |w|
    ensures IsLeast(w, draw, i) <==> draw <= Prefix(w, i) && (i > 0 ==> Prefix(w, i - 1) < draw)
  {
    if draw <= Prefix(w, i) && (i > 0 ==> Prefix(w, i - 1) < draw) {
      forall k | 0 <= k < i ensures Prefix(w, k) < draw {
        if k < i - 1 {
          PrefixIncreases(w, k, i - 1);
        }
      }
    }
  }

  function Interval(a: nat, b: nat): (s: set<nat>)
    requires a <= b
    ensures |s| == b - a
    ensures forall x: nat :: x in s <==> a <= x < b
    decreases b - a
  {
    if a == b then {} else {a} + Interval(a + 1, b)
  }

  /** Over all draws a middle index is chosen as often as its weight says; the sentinel entry 0 is
      chosen once, and the last index pays for that. */
  lemma ChosenByWeight(w: seq<int>, i: nat)
    requires |w| >= 2 && w[0] == 0 && PositiveWeights(w) && i < |w|
    ensures Prefix(w, |w| - 1) > 0
    ensures |Draws(w, i, Prefix(w, |w| - 1))| ==
            if i == 0 then 1 else if i == |w| - 1 then w[i] - 1 else w[i]
  {
    var n := Prefix(w, |w| - 1);
    PrefixIncreases(w, 0, |w| - 1);
    if i > 1 {
      PrefixIncreases(w, 0, i - 1);
    }
    if i < |w| - 1 {
      PrefixIncreases(w, i, |w| - 1);
    }
    var low := if i == 0 then 0 else Prefix(w, i - 1) + 1;
    var high := if i == |w| - 1 then n else Prefix(w, i) + 1;
    if i > 0 {
      PrefixIncreases(w, i - 1, i);
    }
    forall draw: nat ensures draw in Draws(w, i, n) <==> draw in Interval(low, high) {
      LeastIsBetween(w, draw, i);
    }
    assert Draws(w, i, n) == Interval(low, high);
  }
}
