/** The column arithmetic of `FundParamDF.get` and `FundTypeParamDF.get`
    (model/df.py), applied to an in-memory table: per-fund rate and profit, per-type
    sums, the value share WEIGHT of each type and the softmax RATE_WEIGHT. */
module Params {
  import opened Sums

  /** A candidate as the filtering stage hands it over: the columns `FundParamDF`
      reads. Rates are in percent. */
  datatype PoolFund = PoolFund(
    code: string, ftype: string, fundValue: real,
    rate1y: real, rate2y: real, rate3y: real, commission: real)

  /** A row of `FundParamDF`: CODE, TYPE, VALUE, RATE (percent), PROFIT, COMMISSION. */
  datatype Fund = Fund(code: string, ftype: string, value: real, rate: real, profit: real, commission: real)

  /** A row of `FundTypeParamDF`. */
  datatype TypeParam = TypeParam(ftype: string, value: real, profit: real, rate: real, weight: real, rateWeight: real)

  /** One group of `groupby("TYPE").agg({VALUE: sum, PROFIT: sum})`. */
  datatype TypeSum = TypeSum(ftype: string, value: real, profit: real)

  function Min3(a: real, b: real, c: real): real
  {
    if a <= b && a <= c then a else if b <= c then b else c
  }

  function Max3(a: real, b: real, c: real): real
  {
    if a >= b && a >= c then a else if b >= c then b else c
  }

  /** `FundParamDF.get` on one row: RATE is the mean of the 1-, 2- and 3-year rates,
      PROFIT the yearly profit that rate earns on the fund's value. */
  function FundParam(p: PoolFund): (f: Fund)
    ensures f.code == p.code && f.ftype == p.ftype && f.commission == p.commission
    ensures f.value == p.fundValue
    ensures Min3(p.rate1y, p.rate2y, p.rate3y) <= f.rate <= Max3(p.rate1y, p.rate2y, p.rate3y)
    ensures (p.rate1y - f.rate) + (p.rate2y - f.rate) + (p.rate3y - f.rate) == 0.0
    ensures f.value != 0.0 ==> f.profit / f.value * 100.0 == f.rate
  {
    var rate := (p.rate1y + p.rate2y + p.rate3y) / 3.0;
    Fund(p.code, p.ftype, p.fundValue, rate, p.fundValue * rate / 100.0, p.commission)
  }

  function FundParams(pool: seq<PoolFund>): (funds: seq<Fund>)
    ensures |funds| == |pool|
    ensures forall i :: 0 <= i < |pool| ==> funds[i] == FundParam(pool[i])
  {
    seq(|pool|, i requires 0 <= i < |pool| => FundParam(pool[i]))
  }

  // ---------------------------------------------------------------------------
  // Grouping by type. pandas orders the groups by key, and Python compares strings
  // by code point, lexicographically.

  /** Python's `a < b` on strings. */
  predicate LexLess(a: string, b: string)
  {
    if |a| == 0 then |b| > 0
    else if |b| == 0 then false
    else if a[0] == b[0] then LexLess(a[1..], b[1..])
    else a[0] < b[0]
  }

  lemma LexIrreflexive(a: string)
    ensures !LexLess(a, a)
  {
  }

  lemma {:induction false} LexTransitive(a: string, b: string, c: string)
    requires LexLess(a, b) && LexLess(b, c)
    ensures LexLess(a, c)
  {
    if |a| > 0 && |b| > 0 && |c| > 0 && a[0] == b[0] && b[0] == c[0] {
      LexTransitive(a[1..], b[1..], c[1..]);
    }
  }

  lemma {:induction false} LexTotal(a: string, b: string)
    requires a != b
    ensures LexLess(a, b) || LexLess(b, a)
  {
    if |a| > 0 && |b| > 0 && a[0] == b[0] {
      assert a == [a[0]] + a[1..] && b == [b[0]] + b[1..];
      LexTotal(a[1..], b[1..]);
    }
  }

  lemma {:induction false} LexAsymmetric(a: string, b: string)
    requires LexLess(a, b)
    ensures !LexLess(b, a)
  {
    if |a| > 0 && |b| > 0 && a[0] == b[0] {
      LexAsymmetric(a[1..], b[1..]);
    }
  }

  /** The distinct types of a list of funds. */
  function TypesOf(funds: seq<Fund>): set<string>
  {
    set f | f in funds :: f.ftype
  }

  /** The total VALUE of the funds of type `t`. */
  function TypeValue(funds: seq<Fund>, t: string): real
  {
    if |funds| == 0 then 0.0
    else (if funds[0].ftype == t then funds[0].value else 0.0) + TypeValue(funds[1..], t)
  }

  /** The total PROFIT of the funds of type `t`. */
  function TypeProfit(funds: seq<Fund>, t: string): real
  {
    if |funds| == 0 then 0.0
    else (if funds[0].ftype == t then funds[0].profit else 0.0) + TypeProfit(funds[1..], t)
  }

  /** The total of `VALUE * RATE` over the funds of type `t`. */
  function TypeValueRate(funds: seq<Fund>, t: string): real
  {
    if |funds| == 0 then 0.0
    else (if funds[0].ftype == t then funds[0].value * funds[0].rate else 0.0) + TypeValueRate(funds[1..], t)
  }

  function Values(funds: seq<Fund>): (v: seq<real>)
    ensures |v| == |funds| && forall i :: 0 <= i < |funds| ==> v[i] == funds[i].value
  {
    seq(|funds|, i requires 0 <= i < |funds| => funds[i].value)
  }

  function Profits(funds: seq<Fund>): (v: seq<real>)
    ensures |v| == |funds| && forall i :: 0 <= i < |funds| ==> v[i] == funds[i].profit
  {
    seq(|funds|, i requires 0 <= i < |funds| => funds[i].profit)
  }

  function SumTypes(rows: seq<TypeSum>): set<string>
  {
    set r | r in rows :: r.ftype
  }

  ghost predicate StrictlyOrdered(rows: seq<TypeSum>)
  {
    forall i, j :: 0 <= i < j < |rows| ==> LexLess(rows[i].ftype, rows[j].ftype)
  }

  /** The VALUE of the group for `t`, or 0 when there is none. */
  function ValueOf(rows: seq<TypeSum>, t: string): real
  {
    if |rows| == 0 then 0.0 else if rows[0].ftype == t then rows[0].value else ValueOf(rows[1..], t)
  }

  /** The PROFIT of the group for `t`, or 0 when there is none. */
  function ProfitOf(rows: seq<TypeSum>, t: string): real
  {
    if |rows| == 0 then 0.0 else if rows[0].ftype == t then rows[0].profit else ProfitOf(rows[1..], t)
  }

  function SumValues(rows: seq<TypeSum>): real
  {
    if |rows| == 0 then 0.0 else rows[0].value + SumValues(rows[1..])
  }

  function SumProfits(rows: seq<TypeSum>): real
  {
    if |rows| == 0 then 0.0 else rows[0].profit + SumProfits(rows[1..])
  }

  lemma {:induction false} AbsentIsZero(rows: seq<TypeSum>, t: string)
    requires t !in SumTypes(rows)
    ensures ValueOf(rows, t) == 0.0 && ProfitOf(rows, t) == 0.0
  {
    if |rows| > 0 {
      assert rows[0] in rows;
      assert SumTypes(rows[1..]) <= SumTypes(rows) by {
        forall r | r in rows[1..] ensures r in rows { }
      }
      AbsentIsZero(rows[1..], t);
    }
  }

  /** Adds one fund to the ordered groups: into its type's group, or as a new group at
      its place in key order. */
  function AddFund(rows: seq<TypeSum>, f: Fund): (r: seq<TypeSum>)
    requires StrictlyOrdered(rows)
    ensures StrictlyOrdered(r)
    ensures SumTypes(r) == SumTypes(rows) + {f.ftype}
  {
    assert SumTypes(rows) == if |rows| == 0 then {} else {rows[0].ftype} + SumTypes(rows[1..]) by {
      if |rows| > 0 {
        assert rows == [rows[0]] + rows[1..];
      }
    }
    if |rows| == 0 then
      [TypeSum(f.ftype, f.value, f.profit)]
    else if rows[0].ftype == f.ftype then
      [TypeSum(f.ftype, rows[0].value + f.value, rows[0].profit + f.profit)] + rows[1..]
    else if LexLess(f.ftype, rows[0].ftype) then
      BelowHead(rows, f.ftype);
      [TypeSum(f.ftype, f.value, f.profit)] + rows
    else
      LexTotal(f.ftype, rows[0].ftype);
      var tail := AddFund(rows[1..], f);
      HeadBelow(rows, tail, f.ftype);
      SumTypesCons(rows[0], tail);
      [rows[0]] + tail
  }

  lemma SumTypesCons(x: TypeSum, s: seq<TypeSum>)
    ensures SumTypes([x] + s) == {x.ftype} + SumTypes(s)
  {
    assert forall r :: r in [x] + s <==> r == x || r in s;
  }

  /** A key below the first group is below every group, hence not among them. */
  lemma BelowHead(rows: seq<TypeSum>, t: string)
    requires StrictlyOrdered(rows) && |rows| > 0 && LexLess(t, rows[0].ftype)
    ensures forall j :: 0 <= j < |rows| ==> LexLess(t, rows[j].ftype)
    ensures t !in SumTypes(rows)
  {
    forall j | 0 < j < |rows| ensures LexLess(t, rows[j].ftype) {
      LexTransitive(t, rows[0].ftype, rows[j].ftype);
    }
    forall r | r in rows ensures r.ftype != t {
      LexIrreflexive(t);
    }
  }

  /** The first group stays below everything the rest becomes after an insertion above it. */
  lemma HeadBelow(rows: seq<TypeSum>, tail: seq<TypeSum>, t: string)
    requires StrictlyOrdered(rows) && |rows| > 0 && LexLess(rows[0].ftype, t)
    requires SumTypes(tail) == SumTypes(rows[1..]) + {t}
    ensures forall k :: 0 <= k < |tail| ==> LexLess(rows[0].ftype, tail[k].ftype)
  {
    forall k | 0 <= k < |tail| ensures LexLess(rows[0].ftype, tail[k].ftype) {
      assert tail[k] in tail;
      assert tail[k].ftype in SumTypes(tail);
      if tail[k].ftype != t {
        var m :| m in rows[1..] && m.ftype == tail[k].ftype;
        var j :| 0 <= j < |rows[1..]| && rows[1..][j] == m;
        assert rows[j + 1] == m;
      }
    }
  }

  /** Adding a fund adds its VALUE and PROFIT to its own type's group and to the totals,
      and changes no other group. */
  lemma {:induction false} AddFundSums(rows: seq<TypeSum>, f: Fund, t: string)
    requires StrictlyOrdered(rows)
    ensures ValueOf(AddFund(rows, f), t) == ValueOf(rows, t) + (if t == f.ftype then f.value else 0.0)
    ensures ProfitOf(AddFund(rows, f), t) == ProfitOf(rows, t) + (if t == f.ftype then f.profit else 0.0)
    ensures SumValues(AddFund(rows, f)) == SumValues(rows) + f.value
    ensures SumProfits(AddFund(rows, f)) == SumProfits(rows) + f.profit
  {
    if |rows| == 0 {
    } else if rows[0].ftype == f.ftype {
      assert ([TypeSum(f.ftype, rows[0].value + f.value, rows[0].profit + f.profit)] + rows[1..])[1..] == rows[1..];
    } else if LexLess(f.ftype, rows[0].ftype) {
      BelowHead(rows, f.ftype);
      AbsentIsZero(rows, f.ftype);
      assert ([TypeSum(f.ftype, f.value, f.profit)] + rows)[1..] == rows;
    } else {
      LexTotal(f.ftype, rows[0].ftype);
      AddFundSums(rows[1..], f, t);
      assert ([rows[0]] + AddFund(rows[1..], f))[1..] == AddFund(rows[1..], f);
    }
  }

  /** `groupby("TYPE").agg(sum)`: one group per distinct type, in key order, holding
      the pool's totals between them. */
  function GroupByType(funds: seq<Fund>): (r: seq<TypeSum>)
    ensures StrictlyOrdered(r)
    ensures SumTypes(r) == TypesOf(funds)
    ensures SumValues(r) == SumR(Values(funds))
    ensures SumProfits(r) == SumR(Profits(funds))
  {
    if |funds| == 0 then []
    else
      assert funds == [funds[0]] + funds[1..];
      assert TypesOf(funds) == TypesOf(funds[1..]) + {funds[0].ftype};
      assert Values(funds)[1..] == Values(funds[1..]);
      assert Profits(funds)[1..] == Profits(funds[1..]);
      AddFundSums(GroupByType(funds[1..]), funds[0], funds[0].ftype);
      AddFund(GroupByType(funds[1..]), funds[0])
  }

  /** The group of type `t` holds the sums of VALUE and PROFIT over the funds of that type. */
  lemma {:induction false} GroupSums(funds: seq<Fund>, t: string)
    ensures ValueOf(GroupByType(funds), t) == TypeValue(funds, t)
    ensures ProfitOf(GroupByType(funds), t) == TypeProfit(funds, t)
  {
    if |funds| > 0 {
      GroupSums(funds[1..], t);
      AddFundSums(GroupByType(funds[1..]), funds[0], t);
    }
  }

  /** With the groups in strict key order, the lookup of a group's own key finds it. */
  lemma {:induction false} LookupFindsRow(rows: seq<TypeSum>, i: nat)
    requires StrictlyOrdered(rows) && i < |rows|
    ensures ValueOf(rows, rows[i].ftype) == rows[i].value
    ensures ProfitOf(rows, rows[i].ftype) == rows[i].profit
  {
    if i > 0 {
      assert LexLess(rows[0].ftype, rows[i].ftype);
      LexIrreflexive(rows[0].ftype);
      LookupFindsRow(rows[1..], i - 1);
    }
  }

  lemma {:induction false} TypeValuePositive(funds: seq<Fund>, t: string)
    requires forall i :: 0 <= i < |funds| ==> funds[i].value > 0.0
    requires t in TypesOf(funds)
    ensures TypeValue(funds, t) > 0.0
  {
    TypeValueNonNegative(funds[1..], t);
    if funds[0].ftype != t {
      assert TypesOf(funds) == TypesOf(funds[1..]) + {funds[0].ftype} by {
        assert funds == [funds[0]] + funds[1..];
      }
      TypeValuePositive(funds[1..], t);
    }
  }

  lemma {:induction false} TypeValueNonNegative(funds: seq<Fund>, t: string)
    requires forall i :: 0 <= i < |funds| ==> funds[i].value > 0.0
    ensures TypeValue(funds, t) >= 0.0
  {
    if |funds| > 0 {
      TypeValueNonNegative(funds[1..], t);
    }
  }

  function GroupValues(rows: seq<TypeSum>): (v: seq<real>)
    ensures |v| == |rows| && forall i :: 0 <= i < |rows| ==> v[i] == rows[i].value
  {
    seq(|rows|, i requires 0 <= i < |rows| => rows[i].value)
  }

  lemma {:induction false} SumValuesIsSum(rows: seq<TypeSum>)
    ensures SumValues(rows) == SumR(GroupValues(rows))
  {
    if |rows| > 0 {
      assert GroupValues(rows)[1..] == GroupValues(rows[1..]);
      SumValuesIsSum(rows[1..]);
    }
  }

  /** The groups of a table of positive-valued funds, each with positive VALUE. */
  function PositiveGroups(funds: seq<Fund>): (g: seq<TypeSum>)
    requires forall i :: 0 <= i < |funds| ==> funds[i].value > 0.0
    ensures g == GroupByType(funds)
    ensures forall i :: 0 <= i < |g| ==> 0.0 < g[i].value <= SumValues(g)
  {
    var g := GroupByType(funds);
    forall i | 0 <= i < |g|
      ensures 0.0 < g[i].value
    {
      LookupFindsRow(g, i);
      GroupSums(funds, g[i].ftype);
      assert g[i] in g;
      TypeValuePositive(funds, g[i].ftype);
    }
    SumValuesIsSum(g);
    forall i | 0 <= i < |g|
      ensures g[i].value <= SumValues(g)
    {
      SumRDominates(GroupValues(g), i);
    }
    g
  }

  /** `exp` abstracted: a positive, strictly increasing function. */
  ghost predicate PositiveIncreasing(exp: real -> real)
  {
    && (forall x :: exp(x) > 0.0)
    && (forall x, y :: x < y ==> exp(x) < exp(y))
  }

  function Exps(x: seq<real>, exp: real -> real): (e: seq<real>)
    ensures |e| == |x| && forall i :: 0 <= i < |x| ==> e[i] == exp(x[i])
  {
    seq(|x|, i requires 0 <= i < |x| => exp(x[i]))
  }

  /** `exp_rate / exp_rate.sum()` */
  function Softmax(x: seq<real>, exp: real -> real): (w: seq<real>)
    requires forall y :: exp(y) > 0.0
    ensures |w| == |x|
  {
    var e := Exps(x, exp);
    if |e| == 0 then []
    else
      ExpsPositive(x, exp);
      SumRDominates(e, 0);
      seq(|e|, i requires 0 <= i < |e| => e[i] / SumR(e))
  }

  /** Each softmax weight is its exponential over the sum of all exponentials. */
  lemma {:induction false} SoftmaxEntries(x: seq<real>, exp: real -> real)
    requires forall y :: exp(y) > 0.0
    ensures |x| > 0 ==> SumR(Exps(x, exp)) > 0.0
    ensures forall i :: 0 <= i < |x| ==> Softmax(x, exp)[i] == Exps(x, exp)[i] / SumR(Exps(x, exp))
  {
    if |x| > 0 {
      ExpsPositive(x, exp);
      SumRDominates(Exps(x, exp), 0);
    }
  }

  lemma {:induction false} ExpsPositive(x: seq<real>, exp: real -> real)
    requires forall y :: exp(y) > 0.0
    ensures forall i :: 0 <= i < |x| ==> Exps(x, exp)[i] > 0.0
  {
    var e := Exps(x, exp);
    forall i | 0 <= i < |x| ensures e[i] > 0.0 {
      PositiveAt(exp, x[i]);
    }
  }

  lemma PositiveAt(exp: real -> real, y: real)
    requires forall z :: exp(z) > 0.0
    ensures exp(y) > 0.0
  {
  }

  lemma IncreasingAt(exp: real -> real, a: real, b: real)
    requires PositiveIncreasing(exp)
    requires a < b
    ensures exp(a) < exp(b)
  {
  }

  /** With `exp` positive, the softmax weights are positive and add up to 1. */
  lemma {:induction false} SoftmaxNormalised(x: seq<real>, exp: real -> real)
    requires forall y :: exp(y) > 0.0
    ensures forall i :: 0 <= i < |x| ==> Softmax(x, exp)[i] > 0.0
    ensures |x| > 0 ==> SumR(Softmax(x, exp)) == 1.0
  {
    var e := Exps(x, exp);
    ExpsPositive(x, exp);
    SoftmaxEntries(x, exp);
    forall i | 0 <= i < |x|
      ensures Softmax(x, exp)[i] > 0.0
    {
      QuotientOfPositives(e[i], SumR(e));
    }
    if |x| > 0 {
      SumRDivide(e, Softmax(x, exp), SumR(e));
      SelfQuotient(SumR(e), SumR(e));
    }
  }

  /** With `exp` strictly increasing, the softmax weights are ordered exactly as their
      arguments. */
  lemma {:induction false} SoftmaxOrder(x: seq<real>, exp: real -> real)
    requires PositiveIncreasing(exp)
    ensures forall i, j :: 0 <= i < |x| && 0 <= j < |x| ==>
              (Softmax(x, exp)[i] < Softmax(x, exp)[j] <==> x[i] < x[j])
  {
    var e := Exps(x, exp);
    var w := Softmax(x, exp);
    SoftmaxEntries(x, exp);
    forall i, j | 0 <= i < |x| && 0 <= j < |x|
      ensures w[i] < w[j] <==> x[i] < x[j]
    {
      DivideKeepsOrder(e[i], e[j], SumR(e));
      if x[i] < x[j] {
        IncreasingAt(exp, x[i], x[j]);
      } else if x[j] < x[i] {
        IncreasingAt(exp, x[j], x[i]);
      }
    }
  }

  lemma DivideKeepsOrder(a: real, b: real, c: real)
    requires c > 0.0
    ensures a / c < b / c <==> a < b
  {
  }

  /** `FundTypeParamDF.get`: per type, the summed VALUE and PROFIT, RATE = PROFIT /
      VALUE, WEIGHT = VALUE / total VALUE and RATE_WEIGHT = softmax of RATE * WEIGHT. */
  function TypeParams(funds: seq<Fund>, exp: real -> real): (rows: seq<TypeParam>)
    requires forall i :: 0 <= i < |funds| ==> funds[i].value > 0.0
    requires forall y :: exp(y) > 0.0
    ensures forall i :: 0 <= i < |rows| ==>
              0.0 < rows[i].value && rows[i].rate == rows[i].profit / rows[i].value
              && 0.0 < rows[i].weight <= 1.0
  {
    var g := PositiveGroups(funds);
    TypeRowsColumns(g, exp);
    TypeRows(g, exp)
  }

  /** Every type row has a positive VALUE, RATE = PROFIT / VALUE and a WEIGHT in
      `(0, 1]`. */
  lemma TypeRowsColumns(g: seq<TypeSum>, exp: real -> real)
    requires forall i :: 0 <= i < |g| ==> 0.0 < g[i].value <= SumValues(g)
    requires forall y :: exp(y) > 0.0
    ensures var rows := TypeRows(g, exp);
      forall i :: 0 <= i < |rows| ==>
        0.0 < rows[i].value && rows[i].rate == rows[i].profit / rows[i].value
        && 0.0 < rows[i].weight <= 1.0
  {
    var rows := TypeRows(g, exp);
    forall i | 0 <= i < |rows|
      ensures 0.0 < rows[i].value && rows[i].rate == rows[i].profit / rows[i].value
      ensures 0.0 < rows[i].weight <= 1.0
    {
      assert rows[i].weight == g[i].value / SumValues(g);
      ShareBounds(g[i].value, SumValues(g));
    }
  }

  /** The RATE and WEIGHT columns over the groups, and the RATE_WEIGHT softmax of
      their products. */
  function TypeRows(g: seq<TypeSum>, exp: real -> real): (rows: seq<TypeParam>)
    requires forall i :: 0 <= i < |g| ==> 0.0 < g[i].value <= SumValues(g)
    requires forall y :: exp(y) > 0.0
    ensures |rows| == |g|
    ensures forall i :: 0 <= i < |g| ==>
              && rows[i].ftype == g[i].ftype && rows[i].value == g[i].value && rows[i].profit == g[i].profit
              && rows[i].rate == GroupRates(g)[i]
              && rows[i].weight == GroupShares(g)[i]
    ensures RateWeights(rows) == Softmax(WeightedRates(rows), exp)
  {
    var rates := GroupRates(g);
    var shares := GroupShares(g);
    var x := Products(rates, shares);
    var rw := Softmax(x, exp);
    var rows := seq(|g|, i requires 0 <= i < |g| =>
      TypeParam(g[i].ftype, g[i].value, g[i].profit, rates[i], shares[i], rw[i]));
    assert Rates(rows) == rates;
    assert Weights(rows) == shares;
    rows
  }

  /** RATE = PROFIT / VALUE of every group. */
  function GroupRates(g: seq<TypeSum>): (r: seq<real>)
    requires forall i :: 0 <= i < |g| ==> 0.0 < g[i].value
    ensures |r| == |g| && forall i :: 0 <= i < |g| ==> r[i] == g[i].profit / g[i].value
  {
    seq(|g|, i requires 0 <= i < |g| => g[i].profit / g[i].value)
  }

  /** WEIGHT = VALUE / total VALUE of every group. */
  function GroupShares(g: seq<TypeSum>): (r: seq<real>)
    requires forall i :: 0 <= i < |g| ==> 0.0 < g[i].value <= SumValues(g)
    ensures |r| == |g| && forall i :: 0 <= i < |g| ==> r[i] == g[i].value / SumValues(g)
  {
    seq(|g|, i requires 0 <= i < |g| => g[i].value / SumValues(g))
  }

  function Products(a: seq<real>, b: seq<real>): (r: seq<real>)
    requires |a| == |b|
    ensures |r| == |a| && forall i :: 0 <= i < |a| ==> r[i] == a[i] * b[i]
  {
    seq(|a|, i requires 0 <= i < |a| => a[i] * b[i])
  }

  /** The softmax argument `RATE * WEIGHT` of every row. */
  function WeightedRates(rows: seq<TypeParam>): (x: seq<real>)
    ensures |x| == |rows| && forall i :: 0 <= i < |rows| ==> x[i] == rows[i].rate * rows[i].weight
  {
    Products(Rates(rows), Weights(rows))
  }

  function Rates(rows: seq<TypeParam>): (r: seq<real>)
    ensures |r| == |rows| && forall i :: 0 <= i < |rows| ==> r[i] == rows[i].rate
  {
    seq(|rows|, i requires 0 <= i < |rows| => rows[i].rate)
  }

  function Weights(rows: seq<TypeParam>): (w: seq<real>)
    ensures |w| == |rows| && forall i :: 0 <= i < |rows| ==> w[i] == rows[i].weight
  {
    seq(|rows|, i requires 0 <= i < |rows| => rows[i].weight)
  }

  function RateWeights(rows: seq<TypeParam>): (w: seq<real>)
    ensures |w| == |rows| && forall i :: 0 <= i < |rows| ==> w[i] == rows[i].rateWeight
  {
    seq(|rows|, i requires 0 <= i < |rows| => rows[i].rateWeight)
  }

  function TypeValues(rows: seq<TypeParam>): (w: seq<real>)
    ensures |w| == |rows| && forall i :: 0 <= i < |rows| ==> w[i] == rows[i].value
  {
    seq(|rows|, i requires 0 <= i < |rows| => rows[i].value)
  }

  function TypeProfits(rows: seq<TypeParam>): (w: seq<real>)
    ensures |w| == |rows| && forall i :: 0 <= i < |rows| ==> w[i] == rows[i].profit
  {
    seq(|rows|, i requires 0 <= i < |rows| => rows[i].profit)
  }

  // ---------------------------------------------------------------------------
  // What `FundTypeParamDF.get` promises about its table.

  /** One row per distinct TYPE, in key order, holding the sums of VALUE and PROFIT
      over that type's funds. */
  lemma {:induction false} TypeParamsOnePerType(funds: seq<Fund>, exp: real -> real)
    requires forall i :: 0 <= i < |funds| ==> funds[i].value > 0.0
    requires forall y :: exp(y) > 0.0
    ensures var rows := TypeParams(funds, exp);
      forall i, j :: 0 <= i < j < |rows| ==> LexLess(rows[i].ftype, rows[j].ftype)
    ensures (set r | r in TypeParams(funds, exp) :: r.ftype) == TypesOf(funds)
    ensures var rows := TypeParams(funds, exp);
      forall i :: 0 <= i < |rows| ==>
        rows[i].value == TypeValue(funds, rows[i].ftype) &&
        rows[i].profit == TypeProfit(funds, rows[i].ftype)
  {
    TypeParamsTypes(funds, exp);
    var rows := TypeParams(funds, exp);
    forall i | 0 <= i < |rows|
      ensures rows[i].value == TypeValue(funds, rows[i].ftype)
      ensures rows[i].profit == TypeProfit(funds, rows[i].ftype)
    {
      TypeRowOfFunds(funds, exp, i);
    }
  }

  /** The TYPE column of the table holds exactly the pool's types. */
  lemma {:induction false} TypeParamsTypes(funds: seq<Fund>, exp: real -> real)
    requires forall i :: 0 <= i < |funds| ==> funds[i].value > 0.0
    requires forall y :: exp(y) > 0.0
    ensures (set r | r in TypeParams(funds, exp) :: r.ftype) == TypesOf(funds)
  {
    RowTypes(PositiveGroups(funds), exp);
  }

  /** The TYPE column of the rows built from the groups holds the groups' types. */
  lemma {:induction false} RowTypes(g: seq<TypeSum>, exp: real -> real)
    requires forall i :: 0 <= i < |g| ==> 0.0 < g[i].value <= SumValues(g)
    requires forall y :: exp(y) > 0.0
    ensures (set r | r in TypeRows(g, exp) :: r.ftype) == SumTypes(g)
  {
    var rows := TypeRows(g, exp);
    var types := set r | r in rows :: r.ftype;
    forall t | t in types ensures t in SumTypes(g) {
      var r :| r in rows && r.ftype == t;
      var i :| 0 <= i < |rows| && rows[i] == r;
      assert g[i] in g;
    }
    forall t | t in SumTypes(g) ensures t in types {
      var m :| m in g && m.ftype == t;
      var i :| 0 <= i < |g| && g[i] == m;
      assert rows[i] in rows;
    }
    assert types == SumTypes(g);
  }

  /** The type totals add up to the pool totals. */
  lemma {:induction false} TypeTotals(funds: seq<Fund>, exp: real -> real)
    requires forall i :: 0 <= i < |funds| ==> funds[i].value > 0.0
    requires forall y :: exp(y) > 0.0
    ensures SumR(TypeValues(TypeParams(funds, exp))) == SumR(Values(funds))
    ensures SumR(TypeProfits(TypeParams(funds, exp))) == SumR(Profits(funds))
  {
    var g := GroupByType(funds);
    var rows := TypeParams(funds, exp);
    assert TypeValues(rows) == GroupValues(g);
    SumValuesIsSum(g);
    SumProfitsIsSum(g, TypeProfits(rows));
  }

  lemma {:induction false} SumProfitsIsSum(rows: seq<TypeSum>, p: seq<real>)
    requires |p| == |rows| && forall i :: 0 <= i < |rows| ==> p[i] == rows[i].profit
    ensures SumProfits(rows) == SumR(p)
  {
    if |rows| > 0 {
      SumProfitsIsSum(rows[1..], p[1..]);
    }
  }

  /** Every WEIGHT lies in (0, 1] and, for a non-empty pool, the weights add up to 1:
      the precondition under which the type budgets conserve the budget. */
  lemma {:induction false} WeightsNormalised(funds: seq<Fund>, exp: real -> real)
    requires forall i :: 0 <= i < |funds| ==> funds[i].value > 0.0
    requires forall y :: exp(y) > 0.0
    ensures var rows := TypeParams(funds, exp);
      && (forall i :: 0 <= i < |rows| ==> 0.0 < rows[i].weight <= 1.0)
      && (|rows| > 0 <==> |funds| > 0)
      && (|funds| > 0 ==> SumR(Weights(rows)) == 1.0)
  {
    var g := PositiveGroups(funds);
    if |funds| > 0 {
      assert funds[0] in funds;
      assert funds[0].ftype in SumTypes(g);
    } else {
      assert SumTypes(g) == {};
    }
    RowWeights(g, exp);
  }

  lemma {:induction false} RowWeights(g: seq<TypeSum>, exp: real -> real)
    requires forall i :: 0 <= i < |g| ==> 0.0 < g[i].value <= SumValues(g)
    requires forall y :: exp(y) > 0.0
    ensures var rows := TypeRows(g, exp);
      && (forall i :: 0 <= i < |rows| ==> 0.0 < rows[i].weight <= 1.0)
      && (|g| > 0 ==> SumR(Weights(rows)) == 1.0)
  {
    var rows := TypeRows(g, exp);
    var s := GroupShares(g);
    forall i | 0 <= i < |g|
      ensures Weights(rows)[i] == s[i]
    {
    }
    assert Weights(rows) == s;
    SharesNormalised(g);
  }

  /** The value shares of the groups lie in (0, 1] and add up to 1. */
  lemma {:induction false} SharesNormalised(g: seq<TypeSum>)
    requires forall i :: 0 <= i < |g| ==> 0.0 < g[i].value <= SumValues(g)
    ensures forall i :: 0 <= i < |g| ==> 0.0 < GroupShares(g)[i] <= 1.0
    ensures |g| > 0 ==> SumR(GroupShares(g)) == 1.0
  {
    forall i | 0 <= i < |g|
      ensures 0.0 < GroupShares(g)[i] <= 1.0
    {
      ShareAt(g, i);
    }
    if |g| > 0 {
      SharesSum(g);
    }
  }

  lemma {:induction false} ShareAt(g: seq<TypeSum>, i: nat)
    requires forall i :: 0 <= i < |g| ==> 0.0 < g[i].value <= SumValues(g)
    requires i < |g|
    ensures 0.0 < GroupShares(g)[i] <= 1.0
  {
    ShareBounds(g[i].value, SumValues(g));
  }

  lemma {:induction false} SharesSum(g: seq<TypeSum>)
    requires forall i :: 0 <= i < |g| ==> 0.0 < g[i].value <= SumValues(g)
    requires |g| > 0
    ensures SumR(GroupShares(g)) == 1.0
  {
    assert 0.0 < g[0].value <= SumValues(g);
    SumValuesIsSum(g);
    SumRDivide(GroupValues(g), GroupShares(g), SumValues(g));
    SelfQuotient(SumR(GroupValues(g)), SumValues(g));
  }

  lemma SelfQuotient(x: real, t: real)
    requires t > 0.0 && x == t
    ensures x / t == 1.0
  {
  }

  lemma QuotientOfPositives(a: real, b: real)
    requires a > 0.0 && b > 0.0
    ensures a / b > 0.0
  {
  }

  lemma ShareBounds(a: real, b: real)
    requires 0.0 < a <= b
    ensures 0.0 < a / b <= 1.0
  {
  }

  /** Row `i` of the table carries its type's VALUE and PROFIT sums, and its RATE
      divides the one by the other. */
  lemma {:induction false} TypeRowOfFunds(funds: seq<Fund>, exp: real -> real, i: nat)
    requires forall k :: 0 <= k < |funds| ==> funds[k].value > 0.0
    requires forall y :: exp(y) > 0.0
    requires i < |TypeParams(funds, exp)|
    ensures var row := TypeParams(funds, exp)[i];
      && row.value == TypeValue(funds, row.ftype) > 0.0
      && row.profit == TypeProfit(funds, row.ftype)
      && row.rate == row.profit / row.value
  {
    var g := PositiveGroups(funds);
    var row := TypeParams(funds, exp)[i];
    assert row.ftype == g[i].ftype && row.value == g[i].value && row.profit == g[i].profit;
    LookupFindsRow(g, i);
    GroupSums(funds, g[i].ftype);
  }

  /** With PROFIT = VALUE * RATE / 100 for every fund, as `FundParamDF` computes it, a
      type's RATE is the VALUE-weighted mean of its funds' RATE, divided by 100. */
  lemma {:induction false} TypeRateIsWeightedMean(funds: seq<Fund>, exp: real -> real, i: nat)
    requires forall k :: 0 <= k < |funds| ==> funds[k].value > 0.0
    requires forall k :: 0 <= k < |funds| ==> funds[k].profit == funds[k].value * funds[k].rate / 100.0
    requires forall y :: exp(y) > 0.0
    requires i < |TypeParams(funds, exp)|
    ensures var row := TypeParams(funds, exp)[i];
      && TypeValue(funds, row.ftype) > 0.0
      && row.rate == TypeValueRate(funds, row.ftype) / TypeValue(funds, row.ftype) / 100.0
  {
    var row := TypeParams(funds, exp)[i];
    TypeRowOfFunds(funds, exp, i);
    ProfitIsValueRate(funds, row.ftype);
    QuotientScale(TypeValueRate(funds, row.ftype), row.value);
  }

  lemma QuotientScale(a: real, v: real)
    requires v > 0.0
    ensures (a / 100.0) / v == a / v / 100.0
  {
  }

  lemma {:induction false} ProfitIsValueRate(funds: seq<Fund>, t: string)
    requires forall i :: 0 <= i < |funds| ==> funds[i].profit == funds[i].value * funds[i].rate / 100.0
    ensures TypeProfit(funds, t) == TypeValueRate(funds, t) / 100.0
  {
    if |funds| > 0 {
      ProfitIsValueRate(funds[1..], t);
    }
  }

  /** With `exp` positive and strictly increasing, every RATE_WEIGHT is positive, they
      add up to 1, and they are ordered exactly as RATE * WEIGHT. */
  lemma {:induction false} RateWeightProperties(funds: seq<Fund>, exp: real -> real)
    requires forall i :: 0 <= i < |funds| ==> funds[i].value > 0.0
    requires PositiveIncreasing(exp)
    ensures var rows := TypeParams(funds, exp);
      && (forall i :: 0 <= i < |rows| ==> rows[i].rateWeight > 0.0)
      && (|rows| > 0 ==> SumR(RateWeights(rows)) == 1.0)
      && forall i, j :: 0 <= i < |rows| && 0 <= j < |rows| ==>
           (rows[i].rateWeight < rows[j].rateWeight <==>
            rows[i].rate * rows[i].weight < rows[j].rate * rows[j].weight)
  {
    var rows := TypeParams(funds, exp);
    var x := WeightedRates(rows);
    SoftmaxNormalised(x, exp);
    SoftmaxOrder(x, exp);
    assert forall i :: 0 <= i < |rows| ==> rows[i].rateWeight == Softmax(x, exp)[i];
  }
}
