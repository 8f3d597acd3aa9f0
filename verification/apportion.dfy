/** The largest-remainder apportionment of `SimpleFundModel._adjust`
    (model/model.py): floor every fraction, then hand the deficit between the rounded
    total and the floored total out as `+1`s to the entries with the largest
    fractional parts. */
module Apportion {
  import opened Sums

  /** Python's `round` on a float: the nearest integer, halves go to the even neighbour. */
  function RoundHalfEven(x: real): (r: int)
    ensures x - 0.5 <= r as real <= x + 0.5
    ensures (r as real - x == 0.5 || x - r as real == 0.5) ==> r % 2 == 0
  {
    var fl := x.Floor;
    var d := x - fl as real;
    if d < 0.5 then fl
    else if d > 0.5 then fl + 1
    else if fl % 2 == 0 then fl else fl + 1
  }

  /** The fractional part `x - floor(x)`, in `[0, 1)`. */
  function Frac(x: real): real
  {
    x - x.Floor as real
  }

  function Floors(f: seq<real>): (r: seq<int>)
    ensures |r| == |f|
    ensures forall i :: 0 <= i < |f| ==> r[i] == f[i].Floor
  {
    seq(|f|, i requires 0 <= i < |f| => f[i].Floor)
  }

  /** `remaining` of the source: the rounded total minus the floored total. */
  function Remaining(f: seq<real>): int
  {
    RoundHalfEven(SumR(f)) - SumI(Floors(f))
  }

  /** Entry `i` of `r` received one of the `+1`s. */
  predicate Bumped(f: seq<real>, r: seq<int>, i: nat)
    requires i < |f| == |r|
  {
    r[i] == f[i].Floor + 1
  }

  /** Every entry is its fraction rounded down or up. */
  ghost predicate Rounded(f: seq<real>, r: seq<int>)
  {
    && |r| == |f|
    && forall i :: 0 <= i < |f| ==> r[i] == f[i].Floor || r[i] == f[i].Floor + 1
  }

  /** Rounded, and no un-bumped entry has a larger fractional part than a bumped one. */
  ghost predicate LargestFirst(f: seq<real>, r: seq<int>)
  {
    && Rounded(f, r)
    && forall i, j :: 0 <= i < |f| && 0 <= j < |f| && Bumped(f, r, i) && !Bumped(f, r, j) ==>
         Frac(f[i]) >= Frac(f[j])
  }

  /** What `_adjust` promises, with the order among equal fractional parts left free:
      each entry is rounded down or up, the total is the rounded total, and the `+1`s
      went to some entries with maximal fractional parts. */
  ghost predicate IsLargestRemainder(f: seq<real>, r: seq<int>)
  {
    LargestFirst(f, r) && SumI(r) == RoundHalfEven(SumR(f))
  }

  /** The total of the fractional parts lies in `[0, |f|]`. */
  lemma {:induction false} FloorsBelowSum(f: seq<real>)
    ensures SumI(Floors(f)) as real <= SumR(f) <= SumI(Floors(f)) as real + |f| as real
  {
    if |f| > 0 {
      assert Floors(f)[1..] == Floors(f[1..]);
      FloorsBelowSum(f[1..]);
    }
  }

  /** `0 <= remaining <= n`: the deficit never exceeds the number of entries, so the
      slice `indices[:remaining]` of the source never runs short. */
  lemma RemainingBounds(f: seq<real>)
    ensures 0 <= Remaining(f) <= |f|
  {
    FloorsBelowSum(f);
  }

  /** The position `k >= i` of an un-bumped entry with the largest fractional part
      among the un-bumped entries at or after `i`; `-1` when there is none. Ties go
      to the lowest position. */
  function PickMax(f: seq<real>, cur: seq<int>, i: nat): (k: int)
    requires Rounded(f, cur) && i <= |f|
    ensures k == -1 <==> forall m :: i <= m < |f| ==> Bumped(f, cur, m)
    ensures k != -1 ==> i <= k < |f| && !Bumped(f, cur, k)
    ensures k != -1 ==> forall m :: i <= m < |f| && !Bumped(f, cur, m) ==> Frac(f[k]) >= Frac(f[m])
    decreases |f| - i
  {
    if i == |f| then -1
    else
      var k := PickMax(f, cur, i + 1);
      if Bumped(f, cur, i) then k
      else if k == -1 || Frac(f[i]) >= Frac(f[k]) then i
      else k
  }

  /** While `cur` is below `Floors(f) + 1` somewhere, an un-bumped entry exists. */
  lemma UnbumpedExists(f: seq<real>, cur: seq<int>)
    requires Rounded(f, cur)
    requires SumI(cur) < SumI(Floors(f)) + |f|
    ensures PickMax(f, cur, 0) != -1
  {
    if PickMax(f, cur, 0) == -1 {
      var fl := Floors(f);
      forall m | 0 <= m < |f|
        ensures cur[m] == fl[m] + 1
      {
        assert Bumped(f, cur, m);
      }
      SumIShift(cur, Floors(f));
    }
  }

  /** Hands out `k` more `+1`s, each to an un-bumped entry with maximal fractional part. */
  function BumpLargest(f: seq<real>, cur: seq<int>, k: nat): (r: seq<int>)
    requires LargestFirst(f, cur)
    requires SumI(cur) + k <= SumI(Floors(f)) + |f|
    ensures LargestFirst(f, r)
    ensures SumI(r) == SumI(cur) + k
    decreases k
  {
    if k == 0 then cur
    else
      UnbumpedExists(f, cur);
      var i := PickMax(f, cur, 0);
      var next := cur[i := cur[i] + 1];
      SumIUpdate(cur, i, cur[i] + 1);
      assert forall m :: 0 <= m < |f| && m != i ==> (Bumped(f, next, m) <==> Bumped(f, cur, m));
      BumpLargest(f, next, k - 1)
  }

  /** `_adjust`: floor every fraction, then bump `remaining` entries with the largest
      fractional parts. What it achieves is stated by `AdjustIsLargestRemainder`. */
  function Adjust(f: seq<real>): (r: seq<int>)
    ensures |r| == |f|
  {
    RemainingBounds(f);
    BumpLargest(f, Floors(f), Remaining(f))
  }

  /** `_adjust` meets its promise: every entry rounded down or up, the total rounded
      half to even, and the `+1`s on entries with maximal fractional parts. */
  lemma AdjustIsLargestRemainder(f: seq<real>)
    ensures IsLargestRemainder(f, Adjust(f))
  {
    RemainingBounds(f);
  }

  /** An entry that is already an integer is never bumped, whichever of the tied
      entries the sort put first. */
  lemma IntegerNeverBumped(f: seq<real>, r: seq<int>, i: nat)
    requires IsLargestRemainder(f, r)
    requires i < |f| && f[i] == f[i].Floor as real
    ensures r[i] == f[i].Floor
  {
    if r[i] != f[i].Floor {
      // Every un-bumped entry then has fractional part 0, so the rounding excess
      // `sum(r) - sum(f)` collects at least the full unit of entry `i`.
      var d := Diff(r, f);
      forall m | 0 <= m < |f|
        ensures d[m] >= 0.0
      {
        if !Bumped(f, r, m) {
          assert Frac(f[i]) >= Frac(f[m]);
        }
      }
      SumRDominates(d, i);
      SumDiff(r, f);
      assert false;
    }
  }

  /** Each entry lies strictly within one unit of its fraction. */
  lemma WithinOneUnit(f: seq<real>, r: seq<int>)
    requires IsLargestRemainder(f, r)
    ensures forall i :: 0 <= i < |f| ==> f[i] - 1.0 < r[i] as real < f[i] + 1.0
  {
    forall i | 0 <= i < |f|
      ensures f[i] - 1.0 < r[i] as real < f[i] + 1.0
    {
      if f[i] == f[i].Floor as real {
        IntegerNeverBumped(f, r, i);
      }
    }
  }

  /** Integer-valued fractions come back unchanged. */
  lemma IntegersUnchanged(f: seq<real>, r: seq<int>)
    requires IsLargestRemainder(f, r)
    requires forall i :: 0 <= i < |f| ==> f[i] == f[i].Floor as real
    ensures r == Floors(f)
  {
    forall i | 0 <= i < |f|
      ensures r[i] == f[i].Floor
    {
      IntegerNeverBumped(f, r, i);
    }
  }

  /** Entry `i` of `_adjust`'s result lies strictly within one of its fraction and
      is never below the fraction rounded down. */
  lemma AdjustWithinOne(f: seq<real>, i: nat)
    requires i < |f|
    ensures f[i].Floor <= Adjust(f)[i]
    ensures f[i] >= 0.0 ==> Adjust(f)[i] >= 0
    ensures f[i] - 1.0 < Adjust(f)[i] as real
    ensures Adjust(f)[i] as real < f[i] + 1.0
  {
    AdjustIsLargestRemainder(f);
    WithinOneUnit(f, Adjust(f));
  }

  /** On integer-valued fractions `_adjust` changes nothing. */
  lemma AdjustIntegers(f: seq<real>)
    requires forall i :: 0 <= i < |f| ==> f[i] == f[i].Floor as real
    ensures Adjust(f) == Floors(f)
  {
    AdjustIsLargestRemainder(f);
    IntegersUnchanged(f, Adjust(f));
  }
}
