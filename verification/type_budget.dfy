/** `SimpleFundModel.get_type_budget` (model/model.py): how many units of the budget
    each fund type receives. The number of funds `budget / unit` is spread over the
    types in proportion to their WEIGHT, the targets are sorted in descending order,
    apportioned by `_adjust`, and scaled back by `unit`. */
module TypeBudget {
  import opened Sums
  import opened Sorting
  import opened Apportion
  import opened Params
  import opened Outcomes
  import opened Arith

  /** A row of the frame `get_type_budget` returns: TYPE and BUDGET. */
  datatype TypeBudgetRow = TypeBudgetRow(ftype: string, budget: int)

  /** `invest_type_num = budget / unit * WEIGHT`, in the rows' own order. */
  function Targets(rows: seq<TypeParam>, fundNum: real): (t: seq<real>)
    ensures |t| == |rows|
    ensures forall i :: 0 <= i < |rows| ==> t[i] == fundNum * rows[i].weight
  {
    seq(|rows|, i requires 0 <= i < |rows| => fundNum * rows[i].weight)
  }

  /** A real sequence, largest first. */
  function Descending(t: seq<real>): (s: seq<real>)
    ensures multiset(s) == multiset(t) && |s| == |t|
    ensures forall i, j :: 0 <= i < j < |s| ==> s[i] >= s[j]
  {
    SortDescBy(t, (x: real) => x)
  }

  /** The fund number `budget / unit` of line 43, a true division. */
  function FundNumber(budget: int, unit: int): real
    requires unit != 0
  {
    budget as real / unit as real
  }

  /** The apportionment of the targets for `n` funds, taken in descending order of
      target and written positionally onto the rows, each count times `unit`. */
  function Allot(rows: seq<TypeParam>, n: real, unit: int): (r: seq<TypeBudgetRow>)
    ensures |r| == |rows|
    ensures forall i :: 0 <= i < |rows| ==> r[i].ftype == rows[i].ftype
  {
    var c := Adjust(Descending(Targets(rows, n)));
    seq(|rows|, i requires 0 <= i < |rows| => TypeBudgetRow(rows[i].ftype, unit * c[i]))
  }

  /** `get_type_budget` as written: the apportionment comes back in descending-target
      order, and the column assignment at line 47 puts it positionally onto the
      table's rows, which are in TYPE order. Dividing by a zero `unit` fails. */
  function Budgets(rows: seq<TypeParam>, budget: int, unit: int): (r: Result<seq<TypeBudgetRow>>)
    ensures r.Err? <==> unit == 0
    ensures r.Err? ==> r.failure == DivisionByZero
    ensures r.Ok? ==> |r.value| == |rows|
    ensures r.Ok? ==> forall i :: 0 <= i < |rows| ==> r.value[i].ftype == rows[i].ftype
  {
    if unit == 0 then Err(DivisionByZero) else Ok(Allot(rows, FundNumber(budget, unit), unit))
  }

  function BudgetValues(r: seq<TypeBudgetRow>): (b: seq<int>)
    ensures |b| == |r| && forall i :: 0 <= i < |r| ==> b[i] == r[i].budget
  {
    seq(|r|, i requires 0 <= i < |r| => r[i].budget)
  }

  // ---------------------------------------------------------------------------
  // Properties of the allotment for a given fund number.

  /** Row `i` of the allotment is `unit` times the count of the `i`-th largest target. */
  lemma {:induction false} AllotAt(rows: seq<TypeParam>, n: real, unit: int, i: nat)
    requires i < |rows|
    ensures Allot(rows, n, unit)[i].budget == unit * Adjust(Descending(Targets(rows, n)))[i]
  {
  }

  /** Row `i`'s BUDGET is a whole number of units. */
  lemma {:induction false} AllotUnits(rows: seq<TypeParam>, n: real, unit: int, i: nat)
    requires unit != 0 && i < |rows|
    ensures Allot(rows, n, unit)[i].budget % unit == 0
  {
    AllotAt(rows, n, unit, i);
    MultipleOfUnit(Adjust(Descending(Targets(rows, n)))[i], unit);
  }

  /** With a non-negative fund number, unit and weights, row `i`'s BUDGET is
      non-negative. */
  lemma {:induction false} AllotNonNegative(rows: seq<TypeParam>, n: real, unit: int, i: nat)
    requires n >= 0.0 && unit > 0 && i < |rows|
    requires forall k :: 0 <= k < |rows| ==> rows[k].weight >= 0.0
    ensures Allot(rows, n, unit)[i].budget >= 0
  {
    CountNonNegative(rows, n, i);
    MulMonotone(0, Adjust(Descending(Targets(rows, n)))[i], unit);
    AllotAt(rows, n, unit, i);
  }

  /** With a non-negative fund number and weights, every count is non-negative. */
  lemma {:induction false} CountNonNegative(rows: seq<TypeParam>, n: real, i: nat)
    requires n >= 0.0 && i < |rows|
    requires forall k :: 0 <= k < |rows| ==> rows[k].weight >= 0.0
    ensures Adjust(Descending(Targets(rows, n)))[i] >= 0
  {
    var t := Targets(rows, n);
    var s := Descending(t);
    assert s[i] in multiset(t);
    var j :| 0 <= j < |t| && t[j] == s[i];
    TargetNonNegative(rows, n, j);
    AdjustWithinOne(s, i);
  }

  lemma {:induction false} TargetNonNegative(rows: seq<TypeParam>, n: real, j: nat)
    requires n >= 0.0 && j < |rows| && rows[j].weight >= 0.0
    ensures Targets(rows, n)[j] >= 0.0
  {
    RealProductNonNegative(n, rows[j].weight);
  }

  /** The allotment adds up to `unit` times the rounded total of the targets. */
  lemma {:induction false} AllotTotal(rows: seq<TypeParam>, n: real, unit: int)
    ensures SumI(BudgetValues(Allot(rows, n, unit))) == unit * RoundHalfEven(SumR(Targets(rows, n)))
  {
    AllotCountTotal(rows, n);
    AllotScales(rows, n, unit);
  }

  /** The counts of the allotment add up to the rounded total of the targets. */
  lemma {:induction false} AllotCountTotal(rows: seq<TypeParam>, n: real)
    ensures SumI(Adjust(Descending(Targets(rows, n)))) == RoundHalfEven(SumR(Targets(rows, n)))
  {
    var t := Targets(rows, n);
    AdjustIsLargestRemainder(Descending(t));
    SumRPermutation(Descending(t), t);
  }

  /** The targets add up to the fund number times the total weight. */
  lemma {:induction false} TargetsSum(rows: seq<TypeParam>, n: real)
    ensures SumR(Targets(rows, n)) == n * SumR(Weights(rows))
  {
    SumRScale(Weights(rows), Targets(rows, n), n);
  }

  lemma {:induction false} AllotScales(rows: seq<TypeParam>, n: real, unit: int)
    ensures SumI(BudgetValues(Allot(rows, n, unit))) == unit * SumI(Adjust(Descending(Targets(rows, n))))
  {
    var b := BudgetValues(Allot(rows, n, unit));
    var c := Adjust(Descending(Targets(rows, n)));
    forall i | 0 <= i < |c|
      ensures b[i] == unit * c[i]
    {
    }
    SumIScale(c, b, unit);
  }

  /** Row `i` receives, within one unit, the `i`-th largest target. */
  lemma {:induction false} AllotFollowsRank(rows: seq<TypeParam>, n: real, unit: int, i: nat)
    requires unit > 0 && i < |rows|
    ensures Amount(Descending(Targets(rows, n))[i], unit) - unit as real < Allot(rows, n, unit)[i].budget as real
    ensures Allot(rows, n, unit)[i].budget as real < Amount(Descending(Targets(rows, n))[i], unit) + unit as real
  {
    AllotCount(rows, n, unit, i);
    RowWithinUnit(Descending(Targets(rows, n)), Adjust(Descending(Targets(rows, n))), Allot(rows, n, unit), unit, i);
  }

  /** Row `i` of the allotment is `unit` times a count within one of the `i`-th
      largest target. */
  lemma {:induction false} AllotCount(rows: seq<TypeParam>, n: real, unit: int, i: nat)
    requires i < |rows|
    ensures var s := Descending(Targets(rows, n));
      s[i] - 1.0 < Adjust(s)[i] as real < s[i] + 1.0
    ensures Allot(rows, n, unit)[i].budget == unit * Adjust(Descending(Targets(rows, n)))[i]
  {
    AdjustWithinOne(Descending(Targets(rows, n)), i);
  }

  lemma RowWithinUnit(s: seq<real>, c: seq<int>, r: seq<TypeBudgetRow>, unit: int, i: nat)
    requires i < |s| && i < |c| && i < |r| && unit > 0
    requires s[i] - 1.0 < c[i] as real < s[i] + 1.0
    requires r[i].budget == unit * c[i]
    ensures Amount(s[i], unit) - unit as real < r[i].budget as real
    ensures r[i].budget as real < Amount(s[i], unit) + unit as real
  {
    ScaledWithinOne(s[i], c[i], unit, r[i].budget);
  }

  /** Down the table the allotment never increases, unless two sorted targets tie. */
  lemma {:induction false} AllotDescends(rows: seq<TypeParam>, n: real, unit: int, i: nat, j: nat)
    requires unit > 0 && i < j < |rows|
    ensures var s := Descending(Targets(rows, n));
      var r := Allot(rows, n, unit);
      r[i].budget >= r[j].budget || s[i] == s[j]
  {
    var s := Descending(Targets(rows, n));
    var c := Adjust(s);
    AdjustIsLargestRemainder(s);
    assert s[i] >= s[j];
    if c[i] < c[j] {
      // Only a bumped `j` beside an un-bumped `i` with the same floor can do this,
      // and then the fractional parts, hence the targets, coincide.
      assert Bumped(s, c, j) && !Bumped(s, c, i);
      assert Frac(s[j]) >= Frac(s[i]);
    } else {
      MulMonotone(c[j], c[i], unit);
    }
  }

  // ---------------------------------------------------------------------------
  // Properties of `get_type_budget`.

  /** Every BUDGET is a whole number of units, and a non-negative one when the
      budget, the unit and the weights are. */
  lemma {:induction false} BudgetsAreUnits(rows: seq<TypeParam>, budget: int, unit: int)
    requires unit != 0
    ensures var r := Budgets(rows, budget, unit).value;
      forall i :: 0 <= i < |r| ==> r[i].budget % unit == 0
    ensures var r := Budgets(rows, budget, unit).value;
      (budget >= 0 && unit > 0 && forall i :: 0 <= i < |rows| ==> rows[i].weight >= 0.0) ==>
        forall i :: 0 <= i < |r| ==> r[i].budget >= 0
  {
    var n := FundNumber(budget, unit);
    var nonNegative := budget >= 0 && unit > 0 && forall k :: 0 <= k < |rows| ==> rows[k].weight >= 0.0;
    if nonNegative {
      assert n >= 0.0;
    }
    forall i | 0 <= i < |rows|
      ensures Allot(rows, n, unit)[i].budget % unit == 0
      ensures nonNegative ==> Allot(rows, n, unit)[i].budget >= 0
    {
      AllotUnits(rows, n, unit, i);
      if nonNegative {
        AllotNonNegative(rows, n, unit, i);
      }
    }
  }

  /** With weights that add up to 1 — as `FundTypeParamDF` produces them — the total
      is `unit * round(budget / unit)`: the budget rounded to the nearest unit, halves
      to an even number of units. */
  lemma {:induction false} BudgetsConserve(rows: seq<TypeParam>, budget: int, unit: int)
    requires unit != 0
    requires SumR(Weights(rows)) == 1.0
    ensures SumI(BudgetValues(Budgets(rows, budget, unit).value)) == unit * RoundHalfEven(FundNumber(budget, unit))
  {
    AllotTotalOfUnitWeight(rows, FundNumber(budget, unit), unit);
  }

  /** With weights adding up to one, the allotment adds up to `unit * round(n)`. */
  lemma {:induction false} AllotTotalOfUnitWeight(rows: seq<TypeParam>, n: real, unit: int)
    requires SumR(Weights(rows)) == 1.0
    ensures SumI(BudgetValues(Allot(rows, n, unit))) == unit * RoundHalfEven(n)
  {
    AllotTotal(rows, n, unit);
    TargetsSumToFundNumber(rows, n);
  }

  /** With weights adding up to one, the targets add up to the fund number. */
  lemma {:induction false} TargetsSumToFundNumber(rows: seq<TypeParam>, n: real)
    requires SumR(Weights(rows)) == 1.0
    ensures SumR(Targets(rows, n)) == n
  {
    TargetsSum(rows, n);
  }

  /** The rounded total can exceed the budget: 27 in units of 10 hands out 30. */
  lemma {:induction false} TotalCanExceedBudget(rows: seq<TypeParam>)
    requires SumR(Weights(rows)) == 1.0
    ensures SumI(BudgetValues(Budgets(rows, 27, 10).value)) == 30
  {
    BudgetsConserve(rows, 27, 10);
    assert FundNumber(27, 10) == 2.7;
    assert RoundHalfEven(2.7) == 3;
  }

  /** Row `i` receives, within one unit, the `i`-th largest target — whichever type
      that target belongs to — and not its own. */
  lemma {:induction false} BudgetFollowsRank(rows: seq<TypeParam>, budget: int, unit: int, i: nat)
    requires unit > 0 && i < |rows|
    ensures Amount(Descending(Targets(rows, FundNumber(budget, unit)))[i], unit) - unit as real <
            Budgets(rows, budget, unit).value[i].budget as real
    ensures Budgets(rows, budget, unit).value[i].budget as real <
            Amount(Descending(Targets(rows, FundNumber(budget, unit)))[i], unit) + unit as real
  {
    AllotFollowsRank(rows, FundNumber(budget, unit), unit, i);
  }

  /** Down the table the budgets never increase, whatever the weights of the rows,
      unless two of the sorted targets are equal. */
  lemma {:induction false} BudgetsDescend(rows: seq<TypeParam>, budget: int, unit: int, i: nat, j: nat)
    requires unit > 0 && i < j < |rows|
    ensures var s := Descending(Targets(rows, FundNumber(budget, unit)));
      var r := Budgets(rows, budget, unit).value;
      r[i].budget >= r[j].budget || s[i] == s[j]
  {
    AllotDescends(rows, FundNumber(budget, unit), unit, i, j);
  }

  /** A concrete table: TYPE "A" with WEIGHT 0.25 before TYPE "B" with WEIGHT 0.75, a
      budget of 4 and a unit of 1. The targets are 1 for "A" and 3 for "B", but "A"
      receives 3 and "B" receives 1. */
  lemma SwappedBudgets()
    ensures Budgets(ExampleRows(), 4, 1) == Ok([TypeBudgetRow("A", 3), TypeBudgetRow("B", 1)])
  {
    var rows := ExampleRows();
    var n := FundNumber(4, 1);
    assert n == 4.0;
    ExampleCounts();
    AllotAt(rows, n, 1, 0);
    AllotAt(rows, n, 1, 1);
    assert Allot(rows, n, 1) == [TypeBudgetRow("A", 3), TypeBudgetRow("B", 1)];
  }

  /** The example's targets are `[1, 3]`; in descending order they apportion to `[3, 1]`. */
  lemma ExampleCounts()
    ensures Adjust(Descending(Targets(ExampleRows(), 4.0))) == [3, 1]
  {
    ExampleTargets();
    ExampleDescending();
    ExampleAdjust();
  }

  lemma ExampleTargets()
    ensures Targets(ExampleRows(), 4.0) == [1.0, 3.0]
  {
    var t := Targets(ExampleRows(), 4.0);
    assert t[0] == 1.0 && t[1] == 3.0;
  }

  lemma ExampleDescending()
    ensures Descending([1.0, 3.0]) == [3.0, 1.0]
  {
    SortedPair([1.0, 3.0], Descending([1.0, 3.0]));
  }

  lemma ExampleAdjust()
    ensures Adjust([3.0, 1.0]) == [3, 1]
  {
    AdjustIntegers([3.0, 1.0]);
    assert Floors([3.0, 1.0]) == [3, 1];
  }

  function ExampleRows(): seq<TypeParam>
  {
    [TypeParam("A", 1.0, 0.0, 0.0, 0.25, 0.5), TypeParam("B", 3.0, 0.0, 0.0, 0.75, 0.5)]
  }

  /** The descending sort of `[x, y]` with `x < y` is `[y, x]`. */
  lemma SortedPair(t: seq<real>, s: seq<real>)
    requires |t| == 2 && t[0] < t[1]
    requires multiset(s) == multiset(t) && |s| == 2
    requires s[0] >= s[1]
    ensures s == [t[1], t[0]]
  {
    assert s[0] in multiset(t) && s[1] in multiset(t);
    assert t[0] in multiset(s) && t[1] in multiset(s);
  }

  // ---------------------------------------------------------------------------
  // The evidently intended computation: apportion the targets in the rows' own order.

  /** The apportionment of the targets for `n` funds, in the rows' own order. */
  function AllotByTarget(rows: seq<TypeParam>, n: real, unit: int): (r: seq<TypeBudgetRow>)
    ensures |r| == |rows|
    ensures forall i :: 0 <= i < |rows| ==> r[i].ftype == rows[i].ftype
  {
    var c := Adjust(Targets(rows, n));
    seq(|rows|, i requires 0 <= i < |rows| => TypeBudgetRow(rows[i].ftype, unit * c[i]))
  }

  /** Each type's BUDGET from its own target. */
  function BudgetsByTarget(rows: seq<TypeParam>, budget: int, unit: int): (r: Result<seq<TypeBudgetRow>>)
    ensures r.Err? <==> unit == 0
    ensures r.Err? ==> r.failure == DivisionByZero
    ensures r.Ok? ==> |r.value| == |rows|
    ensures r.Ok? ==> forall i :: 0 <= i < |rows| ==> r.value[i].ftype == rows[i].ftype
  {
    if unit == 0 then Err(DivisionByZero) else Ok(AllotByTarget(rows, FundNumber(budget, unit), unit))
  }

  /** Row `i` of the corrected allotment is `unit` times a count within one of row
      `i`'s own target. */
  lemma {:induction false} ByTargetCount(rows: seq<TypeParam>, n: real, unit: int, i: nat)
    requires i < |rows|
    ensures var t := Targets(rows, n);
      t[i] - 1.0 < Adjust(t)[i] as real < t[i] + 1.0
    ensures AllotByTarget(rows, n, unit)[i].budget == unit * Adjust(Targets(rows, n))[i]
  {
    AdjustWithinOne(Targets(rows, n), i);
  }

  /** A type's own share `budget * WEIGHT` of the budget. */
  function Share(budget: int, weight: real): real
  {
    budget as real * weight
  }

  /** Every type receives its own share `budget * WEIGHT`, within one unit. */
  lemma {:induction false} ByTargetWithinUnit(rows: seq<TypeParam>, budget: int, unit: int, i: nat)
    requires unit > 0 && i < |rows|
    ensures Share(budget, rows[i].weight) - unit as real < BudgetsByTarget(rows, budget, unit).value[i].budget as real
    ensures BudgetsByTarget(rows, budget, unit).value[i].budget as real < Share(budget, rows[i].weight) + unit as real
  {
    var n := FundNumber(budget, unit);
    ByTargetCount(rows, n, unit, i);
    RowWithinUnit(Targets(rows, n), Adjust(Targets(rows, n)), AllotByTarget(rows, n, unit), unit, i);
    TargetShare(rows, budget, unit, i);
  }

  /** Row `i`'s target, in money, is its share of the budget. */
  lemma {:induction false} TargetShare(rows: seq<TypeParam>, budget: int, unit: int, i: nat)
    requires unit > 0 && i < |rows|
    ensures Amount(Targets(rows, FundNumber(budget, unit))[i], unit) == Share(budget, rows[i].weight)
  {
    TargetTimesUnit(Targets(rows, FundNumber(budget, unit))[i], budget, unit, rows[i].weight);
  }

  /** The target `t` of `b / u` funds at weight `w`, in money, is the share `b * w`. */
  lemma TargetTimesUnit(t: real, b: int, u: int, w: real)
    requires u > 0 && t == b as real / u as real * w
    ensures Amount(t, u) == Share(b, w)
  {
  }

  lemma {:induction false} ByTargetScales(rows: seq<TypeParam>, n: real, unit: int)
    ensures SumI(BudgetValues(AllotByTarget(rows, n, unit))) == unit * SumI(Adjust(Targets(rows, n)))
  {
    var b := BudgetValues(AllotByTarget(rows, n, unit));
    var c := Adjust(Targets(rows, n));
    forall i | 0 <= i < |c|
      ensures b[i] == unit * c[i]
    {
    }
    SumIScale(c, b, unit);
  }

  /** The corrected budgets hand out the same total as the ones as written. */
  lemma {:induction false} ByTargetTotal(rows: seq<TypeParam>, budget: int, unit: int)
    requires unit != 0
    ensures SumI(BudgetValues(BudgetsByTarget(rows, budget, unit).value)) ==
            SumI(BudgetValues(Budgets(rows, budget, unit).value))
  {
    var n := FundNumber(budget, unit);
    AdjustIsLargestRemainder(Targets(rows, n));
    ByTargetScales(rows, n, unit);
    AllotTotal(rows, n, unit);
  }

  /** Every corrected BUDGET is a whole number of units, and a non-negative one when
      the budget, the unit and the weights are. */
  lemma {:induction false} ByTargetUnits(rows: seq<TypeParam>, budget: int, unit: int)
    requires unit != 0
    ensures var r := BudgetsByTarget(rows, budget, unit).value;
      forall i :: 0 <= i < |r| ==> r[i].budget % unit == 0
    ensures var r := BudgetsByTarget(rows, budget, unit).value;
      (budget >= 0 && unit > 0 && forall i :: 0 <= i < |rows| ==> rows[i].weight >= 0.0) ==>
        forall i :: 0 <= i < |r| ==> r[i].budget >= 0
  {
    var n := FundNumber(budget, unit);
    var nonNegative := budget >= 0 && unit > 0 && forall k :: 0 <= k < |rows| ==> rows[k].weight >= 0.0;
    if nonNegative {
      assert n >= 0.0;
    }
    forall i | 0 <= i < |rows|
      ensures AllotByTarget(rows, n, unit)[i].budget % unit == 0
      ensures nonNegative ==> AllotByTarget(rows, n, unit)[i].budget >= 0
    {
      ByTargetCount(rows, n, unit, i);
      MultipleOfUnit(Adjust(Targets(rows, n))[i], unit);
      if nonNegative {
        TargetNonNegative(rows, n, i);
        AdjustWithinOne(Targets(rows, n), i);
        MulMonotone(0, Adjust(Targets(rows, n))[i], unit);
      }
    }
  }

  /** On the table of the swapped example, the corrected budgets follow the weights. */
  lemma ByTargetExample()
    ensures BudgetsByTarget(ExampleRows(), 4, 1) == Ok([TypeBudgetRow("A", 1), TypeBudgetRow("B", 3)])
  {
    var rows := ExampleRows();
    var n := FundNumber(4, 1);
    var t := Targets(rows, n);
    assert t == [1.0, 3.0];
    AdjustIntegers(t);
    assert Adjust(t) == [1, 3];
    var r := AllotByTarget(rows, n, 1);
    ByTargetCount(rows, n, 1, 0);
    ByTargetCount(rows, n, 1, 1);
    assert r == [TypeBudgetRow("A", 1), TypeBudgetRow("B", 3)];
  }
}
