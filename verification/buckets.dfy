/** Return bucketing of `FundRateSummary` (fundrate/summary.py): the profit/loss
    counts of `_statistics` and the per-interval counts of `_count_bucket`. A return
    is a percentage; the rows whose rate is missing are dropped before any count, so
    the model receives only the remaining rates. */
module Buckets {
  import opened Sums

  /** A bucket boundary: a finite percentage or `math.inf`. */
  datatype Edge = At(x: real) | Infinity

  /** `v >= e`. */
  predicate AtLeast(v: real, e: Edge)
  {
    e.At? && v >= e.x
  }

  /** `v < e`. */
  predicate Below(v: real, e: Edge)
  {
    e.Infinity? || v < e.x
  }

  /** The half-open bucket `[lo, hi)`. */
  predicate InBucket(v: real, lo: Edge, hi: Edge)
  {
    AtLeast(v, lo) && Below(v, hi)
  }

  /** `a <= b` on boundaries. */
  predicate NoLater(a: Edge, b: Edge)
  {
    b.Infinity? || (a.At? && a.x <= b.x)
  }

  predicate Ascending(e: seq<Edge>)
  {
    forall i, j :: 0 <= i < j < |e| ==> NoLater(e[i], e[j])
  }

  /** Boundaries the buckets can be built from: sorted, none below zero. */
  predicate Boundaries(b: seq<real>)
  {
    (forall i :: 0 <= i < |b| ==> 0.0 <= b[i])
    && (forall i, j :: 0 <= i < j < |b| ==> b[i] <= b[j])
  }

  /** `[0, *buckets, math.inf]`. */
  function Edges(buckets: seq<real>): (e: seq<Edge>)
    ensures |e| == |buckets| + 2
    ensures e[0] == At(0.0) && e[|e| - 1] == Infinity
    ensures forall i :: 0 <= i < |buckets| ==> e[i + 1] == At(buckets[i])
  {
    [At(0.0)] + seq(|buckets|, i requires 0 <= i < |buckets| => At(buckets[i])) + [Infinity]
  }

  /** The number of values in `[lo, hi)`. */
  function CountIn(vs: seq<real>, lo: Edge, hi: Edge): (n: int)
    ensures 0 <= n <= |vs|
  {
    if |vs| == 0 then 0
    else (if InBucket(vs[0], lo, hi) then 1 else 0) + CountIn(vs[1..], lo, hi)
  }

  /** The number of values at or above `lo`. */
  function CountFrom(vs: seq<real>, lo: Edge): (n: int)
    ensures 0 <= n <= |vs|
  {
    if |vs| == 0 then 0
    else (if AtLeast(vs[0], lo) then 1 else 0) + CountFrom(vs[1..], lo)
  }

  /** `-df[df < 0]`: the magnitudes of the losses, in order. */
  function Losses(vals: seq<real>): (m: seq<real>)
    ensures |m| <= |vals|
    ensures forall i :: 0 <= i < |m| ==> m[i] > 0.0
  {
    if |vals| == 0 then []
    else (if vals[0] < 0.0 then [-vals[0]] else []) + Losses(vals[1..])
  }

  /** One count per pair of consecutive boundaries. */
  function Counts(vs: seq<real>, e: seq<Edge>): (r: seq<int>)
    ensures |r| == if |e| == 0 then 0 else |e| - 1
    ensures forall i :: 0 <= i < |r| ==> r[i] == CountIn(vs, e[i], e[i + 1])
  {
    if |e| < 2 then [] else [CountIn(vs, e[0], e[1])] + Counts(vs, e[1..])
  }

  /** `_count_bucket(buckets, positive)`: the number of gains (or of loss magnitudes)
      in each bucket; one bucket more than there are boundaries. */
  function CountBucket(vals: seq<real>, buckets: seq<real>, positive: bool): (r: seq<int>)
    ensures |r| == |buckets| + 1
  {
    Counts(if positive then vals else Losses(vals), Edges(buckets))
  }

  /** `profit_num`: the returns of at least zero. */
  function ProfitNum(vals: seq<real>): (n: int)
    ensures 0 <= n <= |vals|
  {
    if |vals| == 0 then 0 else (if vals[0] >= 0.0 then 1 else 0) + ProfitNum(vals[1..])
  }

  /** `loss_num`: the returns below zero. */
  function LossNum(vals: seq<real>): (n: int)
    ensures 0 <= n <= |vals|
  {
    if |vals| == 0 then 0 else (if vals[0] < 0.0 then 1 else 0) + LossNum(vals[1..])
  }

  // ---------------------------------------------------------------------------
  // The buckets partition the values.

  /** Every return is a gain or a loss, never both. */
  lemma {:induction false} ProfitLossSum(vals: seq<real>)
    ensures ProfitNum(vals) + LossNum(vals) == |vals|
  {
    if |vals| > 0 {
      ProfitLossSum(vals[1..]);
    }
  }

  lemma EdgesAscend(buckets: seq<real>)
    requires Boundaries(buckets)
    ensures Ascending(Edges(buckets))
  {
    var e := Edges(buckets);
    forall i, j | 0 <= i < j < |e|
      ensures NoLater(e[i], e[j])
    {
      if j < |e| - 1 && i > 0 {
        assert e[i] == At(buckets[i - 1]) && e[j] == At(buckets[j - 1]);
      } else if j < |e| - 1 {
        assert e[j] == At(buckets[j - 1]);
      }
    }
  }

  /** The values at or above `lo` are those in `[lo, hi)` and those at or above `hi`. */
  lemma {:induction false} SplitAt(vs: seq<real>, lo: Edge, hi: Edge)
    requires NoLater(lo, hi)
    ensures CountIn(vs, lo, hi) + CountFrom(vs, hi) == CountFrom(vs, lo)
  {
    if |vs| > 0 {
      SplitAt(vs[1..], lo, hi);
    }
  }

  lemma {:induction false} NothingFromInfinity(vs: seq<real>)
    ensures CountFrom(vs, Infinity) == 0
  {
    if |vs| > 0 {
      NothingFromInfinity(vs[1..]);
    }
  }

  /** The buckets of an ascending boundary list that ends at infinity count every
      value at or above the first boundary exactly once. */
  lemma {:induction false} CountsTotal(vs: seq<real>, e: seq<Edge>)
    requires |e| > 0 && Ascending(e) && e[|e| - 1] == Infinity
    ensures SumI(Counts(vs, e)) == CountFrom(vs, e[0])
  {
    if |e| == 1 {
      NothingFromInfinity(vs);
    } else {
      CountsTotal(vs, e[1..]);
      SplitAt(vs, e[0], e[1]);
    }
  }

  lemma {:induction false} ProfitIsFromZero(vals: seq<real>)
    ensures CountFrom(vals, At(0.0)) == ProfitNum(vals)
  {
    if |vals| > 0 {
      ProfitIsFromZero(vals[1..]);
    }
  }

  lemma {:induction false} LossesAllPositive(vals: seq<real>)
    ensures CountFrom(Losses(vals), At(0.0)) == |Losses(vals)| == LossNum(vals)
  {
    if |vals| > 0 {
      LossesAllPositive(vals[1..]);
      var head := if vals[0] < 0.0 then [-vals[0]] else [];
      assert Losses(vals) == head + Losses(vals[1..]);
      if vals[0] < 0.0 {
        assert Losses(vals)[0] == -vals[0];
        assert Losses(vals)[1..] == Losses(vals[1..]);
      } else {
        assert Losses(vals) == Losses(vals[1..]);
      }
    }
  }

  /** The gain buckets together hold `profit_num` returns. */
  lemma ProfitBucketsSum(vals: seq<real>, buckets: seq<real>)
    requires Boundaries(buckets)
    ensures SumI(CountBucket(vals, buckets, true)) == ProfitNum(vals)
  {
    EdgesAscend(buckets);
    CountsTotal(vals, Edges(buckets));
    ProfitIsFromZero(vals);
  }

  /** The loss buckets together hold `loss_num` returns. */
  lemma LossBucketsSum(vals: seq<real>, buckets: seq<real>)
    requires Boundaries(buckets)
    ensures SumI(CountBucket(vals, buckets, false)) == LossNum(vals)
  {
    EdgesAscend(buckets);
    CountsTotal(Losses(vals), Edges(buckets));
    LossesAllPositive(vals);
  }

  /** A value at or above the first boundary lies in some bucket ... */
  lemma {:induction false} SomeBucket(v: real, e: seq<Edge>) returns (i: nat)
    requires |e| > 0 && Ascending(e) && e[|e| - 1] == Infinity && AtLeast(v, e[0])
    ensures i < |e| - 1 && InBucket(v, e[i], e[i + 1])
  {
    if Below(v, e[1]) {
      i := 0;
    } else {
      var k := SomeBucket(v, e[1..]);
      i := k + 1;
    }
  }

  /** ... and in no other. */
  lemma OnlyBucket(v: real, e: seq<Edge>, i: nat)
    requires Ascending(e) && i < |e| - 1 && InBucket(v, e[i], e[i + 1])
    ensures forall j :: 0 <= j < |e| - 1 && j != i ==> !InBucket(v, e[j], e[j + 1])
  {
    forall j | 0 <= j < |e| - 1 && j != i
      ensures !InBucket(v, e[j], e[j + 1])
    {
      if i < j {
        assert NoLater(e[i + 1], e[j]);
      } else {
        assert NoLater(e[j + 1], e[i]);
      }
    }
  }

  /** On the loss side the bucket `[lo, hi)` of magnitudes is the interval
      `(-hi, -lo]` of returns: closed at the end nearer zero. */
  lemma LossInterval(v: real, lo: Edge, hi: Edge)
    requires v < 0.0
    ensures InBucket(-v, lo, hi) <==> (lo.At? && v <= -lo.x) && (hi.Infinity? || -hi.x < v)
  {
  }

  // ---------------------------------------------------------------------------
  // `_statistics`, counts only.

  /** The boundaries `_statistics` uses, in percent. */
  const StatBuckets: seq<real> := [3.0, 5.0, 10.0, 20.0]

  datatype Statistics = Statistics(num: int, profitNum: int, lossNum: int,
                                   bucketsProfit: seq<int>, bucketsLoss: seq<int>)

  function Statistic(vals: seq<real>): (st: Statistics)
    ensures st.num == st.profitNum + st.lossNum
    ensures |st.bucketsProfit| == |st.bucketsLoss| == |StatBuckets| + 1
    ensures SumI(st.bucketsProfit) == st.profitNum && SumI(st.bucketsLoss) == st.lossNum
  {
    ProfitLossSum(vals);
    ProfitBucketsSum(vals, StatBuckets);
    LossBucketsSum(vals, StatBuckets);
    Statistics(|vals|, ProfitNum(vals), LossNum(vals),
               CountBucket(vals, StatBuckets, true), CountBucket(vals, StatBuckets, false))
  }

  lemma StatEdges()
    ensures Edges(StatBuckets) == [At(0.0), At(3.0), At(5.0), At(10.0), At(20.0), Infinity]
  {
    var e := Edges(StatBuckets);
    assert |e| == 6;
    assert e[1] == At(3.0) && e[2] == At(5.0) && e[3] == At(10.0) && e[4] == At(20.0);
  }

  /** A loss of exactly 3% falls in the second loss bucket, the magnitudes `[3, 5)`. */
  lemma LossOfThree()
    ensures CountBucket([-3.0], StatBuckets, false) == [0, 1, 0, 0, 0]
  {
    var m := [-3.0];
    assert Losses(m[1..]) == [];
    assert Losses(m) == [3.0];
    var e := Edges(StatBuckets);
    StatEdges();
    var r := CountBucket(m, StatBuckets, false);
    assert r[0] == CountIn([3.0], e[0], e[1]) == 0;
    assert r[1] == CountIn([3.0], e[1], e[2]) == 1;
    assert r[2] == CountIn([3.0], e[2], e[3]) == 0;
    assert r[3] == CountIn([3.0], e[3], e[4]) == 0;
    assert r[4] == CountIn([3.0], e[4], e[5]) == 0;
  }

  // ---------------------------------------------------------------------------
  // The loss intervals as the docstring of `_count_bucket` names them:
  // `[-3%, 0), [-5%, -3%), ..., (-inf, -20%)`, closed at the end farther from zero.

  /** The return `v` lies in `[-hi, -lo)`. */
  predicate InLossBucket(v: real, lo: Edge, hi: Edge)
  {
    lo.At? && v < -lo.x && (hi.Infinity? || -hi.x <= v)
  }

  /** The number of returns in `[-hi, -lo)`. */
  function LossCountIn(vals: seq<real>, lo: Edge, hi: Edge): (n: int)
    ensures 0 <= n <= |vals|
  {
    if |vals| == 0 then 0
    else (if InLossBucket(vals[0], lo, hi) then 1 else 0) + LossCountIn(vals[1..], lo, hi)
  }

  /** The number of returns below `-lo`. */
  function LossCountBelow(vals: seq<real>, lo: Edge): (n: int)
    ensures 0 <= n <= |vals|
  {
    if |vals| == 0 then 0
    else (if lo.At? && vals[0] < -lo.x then 1 else 0) + LossCountBelow(vals[1..], lo)
  }

  function LossCounts(vals: seq<real>, e: seq<Edge>): (r: seq<int>)
    ensures |r| == if |e| == 0 then 0 else |e| - 1
    ensures forall i :: 0 <= i < |r| ==> r[i] == LossCountIn(vals, e[i], e[i + 1])
  {
    if |e| < 2 then [] else [LossCountIn(vals, e[0], e[1])] + LossCounts(vals, e[1..])
  }

  /** The loss side of `_count_bucket` as documented: the number of returns in each
      interval `[-hi, -lo)`. */
  function DocumentedLossBuckets(vals: seq<real>, buckets: seq<real>): (r: seq<int>)
    ensures |r| == |buckets| + 1
  {
    LossCounts(vals, Edges(buckets))
  }

  lemma {:induction false} LossSplitAt(vals: seq<real>, lo: Edge, hi: Edge)
    requires NoLater(lo, hi)
    ensures LossCountIn(vals, lo, hi) + LossCountBelow(vals, hi) == LossCountBelow(vals, lo)
  {
    if |vals| > 0 {
      LossSplitAt(vals[1..], lo, hi);
    }
  }

  lemma {:induction false} NoLossBelowInfinity(vals: seq<real>)
    ensures LossCountBelow(vals, Infinity) == 0
  {
    if |vals| > 0 {
      NoLossBelowInfinity(vals[1..]);
    }
  }

  lemma {:induction false} LossCountsTotal(vals: seq<real>, e: seq<Edge>)
    requires |e| > 0 && Ascending(e) && e[|e| - 1] == Infinity
    ensures SumI(LossCounts(vals, e)) == LossCountBelow(vals, e[0])
  {
    if |e| == 1 {
      NoLossBelowInfinity(vals);
    } else {
      LossCountsTotal(vals, e[1..]);
      LossSplitAt(vals, e[0], e[1]);
    }
  }

  lemma {:induction false} LossIsBelowZero(vals: seq<real>)
    ensures LossCountBelow(vals, At(0.0)) == LossNum(vals)
  {
    if |vals| > 0 {
      LossIsBelowZero(vals[1..]);
    }
  }

  /** The documented loss buckets together hold `loss_num` returns. */
  lemma DocumentedLossBucketsSum(vals: seq<real>, buckets: seq<real>)
    requires Boundaries(buckets)
    ensures SumI(DocumentedLossBuckets(vals, buckets)) == LossNum(vals)
  {
    EdgesAscend(buckets);
    LossCountsTotal(vals, Edges(buckets));
    LossIsBelowZero(vals);
  }

  /** As documented, a loss of exactly 3% falls in the first loss bucket `[-3%, 0)`. */
  lemma DocumentedLossOfThree()
    ensures DocumentedLossBuckets([-3.0], StatBuckets) == [1, 0, 0, 0, 0]
  {
    var e := Edges(StatBuckets);
    StatEdges();
    var r := DocumentedLossBuckets([-3.0], StatBuckets);
    assert r[0] == LossCountIn([-3.0], e[0], e[1]) == 1;
    assert r[1] == LossCountIn([-3.0], e[1], e[2]) == 0;
    assert r[2] == LossCountIn([-3.0], e[2], e[3]) == 0;
    assert r[3] == LossCountIn([-3.0], e[3], e[4]) == 0;
    assert r[4] == LossCountIn([-3.0], e[4], e[5]) == 0;
  }

  /** A return off every boundary: its magnitude equals none of them. */
  predicate OffBoundaries(vals: seq<real>, buckets: seq<real>)
  {
    forall k, j :: 0 <= k < |vals| && 0 <= j < |buckets| ==> vals[k] != -buckets[j]
  }

  /** Only a loss exactly on a boundary tells the code from its documentation: for a
      return `v < 0` off both ends, the bucket `[lo, hi)` of magnitudes and the
      interval `[-hi, -lo)` of returns agree. */
  lemma {:induction false} CountsAgreeOff(vals: seq<real>, lo: Edge, hi: Edge)
    requires lo.At? && lo.x >= 0.0
    requires forall k :: 0 <= k < |vals| && vals[k] < 0.0 ==> vals[k] != -lo.x && (hi.At? ==> vals[k] != -hi.x)
    ensures CountIn(Losses(vals), lo, hi) == LossCountIn(vals, lo, hi)
  {
    if |vals| > 0 {
      CountsAgreeOff(vals[1..], lo, hi);
      CountInAppend(if vals[0] < 0.0 then [-vals[0]] else [], Losses(vals[1..]), lo, hi);
      assert Losses(vals) == (if vals[0] < 0.0 then [-vals[0]] else []) + Losses(vals[1..]);
    }
  }

  lemma {:induction false} CountInAppend(a: seq<real>, b: seq<real>, lo: Edge, hi: Edge)
    ensures CountIn(a + b, lo, hi) == CountIn(a, lo, hi) + CountIn(b, lo, hi)
  {
    if |a| == 0 {
      assert a + b == b;
    } else {
      assert (a + b)[1..] == a[1..] + b;
      CountInAppend(a[1..], b, lo, hi);
    }
  }

  /** Off the boundaries the loss side as written and as documented give the same
      counts. */
  lemma LossBucketsAgreeOff(vals: seq<real>, buckets: seq<real>)
    requires Boundaries(buckets) && OffBoundaries(vals, buckets)
    ensures CountBucket(vals, buckets, false) == DocumentedLossBuckets(vals, buckets)
  {
    var e := Edges(buckets);
    forall i | 0 <= i < |e| - 1
      ensures CountIn(Losses(vals), e[i], e[i + 1]) == LossCountIn(vals, e[i], e[i + 1])
    {
      forall k | 0 <= k < |vals| && vals[k] < 0.0
        ensures vals[k] != -e[i].x && (e[i + 1].At? ==> vals[k] != -e[i + 1].x)
      {
        if i > 0 {
          assert e[i] == At(buckets[i - 1]);
        }
        if i + 1 < |e| - 1 {
          assert e[i + 1] == At(buckets[i]);
        }
      }
      CountsAgreeOff(vals, e[i], e[i + 1]);
    }
    var written := Counts(Losses(vals), e);
    var documented := LossCounts(vals, e);
    assert |written| == |documented| == |e| - 1;
    forall i | 0 <= i < |written|
      ensures written[i] == documented[i]
    {
      assert written[i] == CountIn(Losses(vals), e[i], e[i + 1]);
      assert documented[i] == LossCountIn(vals, e[i], e[i + 1]);
    }
  }
}
