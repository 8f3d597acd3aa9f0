/** `SimpleFundModel.get_fund_by_type` and `SimpleFundModel.select` (model/model.py):
    how the budget of one fund type is spread over the candidate funds of that type,
    and how the choices of all types are gathered. */
module Selection {
  import opened Sums
  import opened Sorting
  import opened Apportion
  import opened Params
  import opened Outcomes
  import opened Arith
  import opened Grouping
  import TypeBudget

  /** A row of the frame `get_fund_by_type` returns: CODE and BUDGET. */
  datatype Pick = Pick(code: string, budget: int)

  /** What `get_fund_by_type` returns: `None` for a zero budget, else a frame. */
  datatype Choice = NoBudget | Chosen(picks: seq<Pick>)

  /** Python's `int(x)` on a float: the integer part, truncated toward zero. */
  function Truncate(x: real): (r: int)
    ensures x >= 0.0 ==> r >= 0 && r as real <= x < r as real + 1.0
    ensures x < 0.0 ==> r <= 0 && r as real - 1.0 < x <= r as real
  {
    if x >= 0.0 then x.Floor else -((-x).Floor)
  }

  /** `num = int(budget / self.unit)`: how many whole units the budget buys. */
  function Units(budget: int, unit: int): (num: int)
    requires unit != 0
    ensures budget >= 0 && unit > 0 ==> num >= 0 && unit * num <= budget < unit * (num + 1)
  {
    var num := Truncate(budget as real / unit as real);
    if budget >= 0 && unit > 0 then
      UnitsBracket(budget, unit, num);
      num
    else
      num
  }

  /** `num <= budget / unit < num + 1`, multiplied out. */
  lemma UnitsBracket(budget: int, unit: int, num: int)
    requires unit > 0 && num as real <= budget as real / unit as real < num as real + 1.0
    ensures unit * num <= budget < unit * (num + 1)
  {
    var q := budget as real / unit as real;
    assert Amount(q, unit) == budget as real;
    if num as real < q {
      AmountStrict(num as real, q, unit);
    }
    AmountStrict(q, num as real + 1.0, unit);
    AmountOfCount(num, unit);
    AmountOfCount(num + 1, unit);
  }

  /** The funds of type `t`, in pool order: `pool[pool.TYPE == t]`. */
  function OfType(pool: seq<Fund>, t: string): (r: seq<Fund>)
    ensures multiset(r) <= multiset(pool)
    ensures forall f :: f in r ==> f.ftype == t
    ensures forall f :: f in pool && f.ftype == t ==> f in r
  {
    if |pool| == 0 then []
    else
      assert pool == [pool[0]] + pool[1..];
      (if pool[0].ftype == t then [pool[0]] else []) + OfType(pool[1..], t)
  }

  /** Highest RATE first. */
  ghost predicate RateDescending(s: seq<Fund>)
  {
    forall i, j :: 0 <= i < j < |s| ==> s[i].rate >= s[j].rate
  }

  /** The candidates of type `t`, highest RATE first:
      `sort_values(by="RATE", ascending=False)` of line 54. */
  function Ranked(pool: seq<Fund>, t: string): (r: seq<Fund>)
    ensures multiset(r) == multiset(OfType(pool, t))
    ensures |r| == |OfType(pool, t)|
    ensures RateDescending(r)
  {
    var key := (f: Fund) => f.rate;
    var r := SortDescBy(OfType(pool, t), key);
    assert forall i, j :: 0 <= i < j < |r| ==> key(r[i]) >= key(r[j]);
    r
  }

  /** Every fund of `s` at the same BUDGET. */
  function Priced(s: seq<Fund>, budget: int): (p: seq<Pick>)
    ensures |p| == |s|
    ensures forall i :: 0 <= i < |s| ==> p[i] == Pick(s[i].code, budget)
  {
    seq(|s|, i requires 0 <= i < |s| => Pick(s[i].code, budget))
  }

  function PickBudgets(p: seq<Pick>): (b: seq<int>)
    ensures |b| == |p|
    ensures forall i :: 0 <= i < |p| ==> b[i] == p[i].budget
  {
    seq(|p|, i requires 0 <= i < |p| => p[i].budget)
  }

  function Codes(s: seq<Fund>): (c: seq<string>)
    ensures |c| == |s|
    ensures forall i :: 0 <= i < |s| ==> c[i] == s[i].code
  {
    seq(|s|, i requires 0 <= i < |s| => s[i].code)
  }

  function PickCodes(p: seq<Pick>): (c: seq<string>)
    ensures |c| == |p|
    ensures forall i :: 0 <= i < |p| ==> c[i] == p[i].code
  {
    seq(|p|, i requires 0 <= i < |p| => p[i].code)
  }

  // ---------------------------------------------------------------------------
  // Case A, `num >= len(df)`: every candidate gets `k` units, the first `s` one more.

  /** The unit counts of the even split of `num` over `n` ranked candidates:
      `k = num // n` each, one more for the first `s = num % n`. */
  function EvenCounts(n: nat, num: int): (c: seq<int>)
    requires n > 0
    ensures |c| == n
    ensures forall i :: 0 <= i < n ==> c[i] == num / n || c[i] == num / n + 1
  {
    seq(n, i requires 0 <= i < n => if i < num % n then num / n + 1 else num / n)
  }

  /** Lines 57-63: the frame of the even split, in rank order. */
  function EvenSplit(ranked: seq<Fund>, num: int, unit: int): (p: seq<Pick>)
    requires |ranked| > 0
    ensures |p| == |ranked|
    ensures PickCodes(p) == Codes(ranked)
  {
    var c := EvenCounts(|ranked|, num);
    var p := seq(|ranked|, i requires 0 <= i < |ranked| => Pick(ranked[i].code, unit * c[i]));
    assert PickCodes(p) == Codes(ranked);
    p
  }

  /** The first `m` counts of a run whose first `s` entries are `k + 1` and the rest `k`. */
  lemma {:induction false} EvenCountsPrefix(n: nat, num: int, m: nat)
    requires n > 0 && m <= n
    ensures SumI(EvenCounts(n, num)[..m]) == m * (num / n) + (if m < num % n then m else num % n)
  {
    var c := EvenCounts(n, num);
    if m > 0 {
      EvenCountsPrefix(n, num, m - 1);
      assert c[..m] == c[..m - 1] + [c[m - 1]];
      SumIAppend(c[..m - 1], [c[m - 1]]);
      assert (m - 1) * (num / n) + num / n == m * (num / n);
    }
  }

  /** The even split hands out exactly `num` units. */
  lemma EvenCountsSum(n: nat, num: int)
    requires n > 0
    ensures SumI(EvenCounts(n, num)) == num
  {
    EvenCountsPrefix(n, num, n);
    assert EvenCounts(n, num)[..n] == EvenCounts(n, num);
  }

  /** Case A spends `num * unit`: the budget, when it is a whole number of units. */
  lemma EvenSplitTotal(ranked: seq<Fund>, num: int, unit: int)
    requires |ranked| > 0
    ensures SumI(PickBudgets(EvenSplit(ranked, num, unit))) == unit * num
  {
    var c := EvenCounts(|ranked|, num);
    var b := PickBudgets(EvenSplit(ranked, num, unit));
    assert forall i :: 0 <= i < |c| ==> b[i] == unit * c[i];
    SumIScale(c, b, unit);
    EvenCountsSum(|ranked|, num);
  }

  // ---------------------------------------------------------------------------
  // Case B, `num < len(df)`: apportion `num` slots over the rate groups.

  /** `PROPORTION * num` of lines 70-72: each group's share of the candidates, times
      the number of slots. */
  function SlotTargets(sizes: seq<int>, num: int): (w: seq<real>)
    requires SumI(sizes) != 0
    ensures |w| == |sizes|
  {
    seq(|sizes|, j requires 0 <= j < |sizes| => Target(sizes[j], SumI(sizes), num))
  }

  function Proportion(count: int, total: int): real
    requires total != 0
  {
    count as real / total as real
  }

  /** The slot target of a group of `count` among `total` candidates. */
  function Target(count: int, total: int, num: int): real
    requires total != 0
  {
    Proportion(count, total) * num as real
  }

  /** Line 73: the slots of each group, apportioned by `_adjust`. */
  function Slots(sizes: seq<int>, num: int): (n: seq<int>)
    requires SumI(sizes) != 0
    ensures |n| == |sizes|
  {
    Adjust(SlotTargets(sizes, num))
  }

  /** Python's `s[:n]` (and `iloc[:n]`): at most the first `n` elements; a negative
      `n` drops that many from the end. */
  function Head(s: seq<Fund>, n: int): (h: seq<Fund>)
    ensures 0 <= n <= |s| ==> h == s[..n]
  {
    if n >= |s| then s
    else if n >= 0 then s[..n]
    else if |s| + n >= 0 then s[..|s| + n]
    else []
  }

  /** Lines 77-83: the first `slots[j]` candidates of group `j`, groups in order. */
  function TakeTop(gs: seq<seq<Fund>>, slots: seq<int>): seq<Fund>
    requires |slots| == |gs|
  {
    if |gs| == 0 then [] else Head(gs[0], slots[0]) + TakeTop(gs[1..], slots[1..])
  }

  /** Lines 65-84 on the ranked candidates: group them with `bin`, apportion the `num`
      slots by group size and give each chosen fund one unit. */
  function BinSelect(ranked: seq<Fund>, num: int, unit: int, bin: Fund -> nat): (p: seq<Pick>)
    requires |ranked| > 0
    ensures forall i :: 0 <= i < |p| ==> p[i].budget == unit
    ensures 0 <= num < |ranked| ==> |p| == num
    ensures 0 <= num < |ranked| ==> forall i :: 0 <= i < |p| ==> p[i].code in Codes(ranked)
  {
    if 0 <= num < |ranked| then
      ChosenAreCandidates(ranked, num, bin);
      Priced(BinChoice(ranked, num, bin), unit)
    else
      Priced(BinChoice(ranked, num, bin), unit)
  }

  /** Case B chooses `num` funds, each a candidate. */
  lemma ChosenAreCandidates(ranked: seq<Fund>, num: int, bin: Fund -> nat)
    requires 0 <= num < |ranked|
    ensures |BinChoice(ranked, num, bin)| == num
    ensures forall i :: 0 <= i < num ==> BinChoice(ranked, num, bin)[i].code in Codes(ranked)
  {
    var chosen := BinChoice(ranked, num, bin);
    BinChoiceProperties(ranked, num, bin);
    forall i | 0 <= i < num
      ensures chosen[i].code in Codes(ranked)
    {
      assert chosen[i] in multiset(ranked);
      var k :| 0 <= k < |ranked| && ranked[k] == chosen[i];
      assert Codes(ranked)[k] == chosen[i].code;
    }
  }

  /** The funds Case B chooses: the top `NUM` of every group, lowest group first. */
  function BinChoice(ranked: seq<Fund>, num: int, bin: Fund -> nat): (c: seq<Fund>)
    requires |ranked| > 0
    ensures multiset(c) <= multiset(ranked)
  {
    var gs := Bins(ranked, bin);
    GroupsNotEmpty(ranked, bin);
    TakeTopWithin(gs, Slots(Sizes(gs), num));
    BinsPartition(ranked, bin);
    TakeTop(gs, Slots(Sizes(gs), num))
  }

  /** Grouping a non-empty candidate list gives a positive COUNT total. */
  lemma GroupsNotEmpty(ranked: seq<Fund>, bin: Fund -> nat)
    ensures SumI(Sizes(Bins(ranked, bin))) == |ranked|
  {
    BinsPartition(ranked, bin);
    SizesSum(Bins(ranked, bin));
    assert |multiset(Flatten(Bins(ranked, bin)))| == |multiset(ranked)|;
  }

  /** The proportions `COUNT / COUNT.sum()` of line 70. */
  function Proportions(sizes: seq<int>): (p: seq<real>)
    requires SumI(sizes) != 0
    ensures |p| == |sizes|
    ensures forall j :: 0 <= j < |sizes| ==> p[j] == Proportion(sizes[j], SumI(sizes))
  {
    seq(|sizes|, j requires 0 <= j < |sizes| => Proportion(sizes[j], SumI(sizes)))
  }

  /** The proportions add up to one. */
  lemma ProportionsSum(sizes: seq<int>)
    requires SumI(sizes) > 0
    ensures SumR(Proportions(sizes)) == 1.0
  {
    var t := SumI(sizes) as real;
    SumRDivide(ToReals(sizes), Proportions(sizes), t);
    SumToReals(sizes);
    assert SumR(ToReals(sizes)) / t == 1.0;
  }

  /** The slot targets add up to `num`: the apportionment has `num` slots to hand out. */
  lemma SlotTargetsSum(sizes: seq<int>, num: int)
    requires SumI(sizes) > 0
    ensures SumR(SlotTargets(sizes, num)) == num as real
  {
    var p := Proportions(sizes);
    var w := SlotTargets(sizes, num);
    forall j | 0 <= j < |sizes|
      ensures w[j] == num as real * p[j]
    {
      TargetIsScaledShare(sizes[j], SumI(sizes), num);
    }
    SumRScale(p, w, num as real);
    ProportionsSum(sizes);
    TimesOne(num as real, SumR(p));
  }

  lemma TargetIsScaledShare(c: int, total: int, num: int)
    requires total != 0
    ensures Target(c, total, num) == num as real * Proportion(c, total)
  {
  }

  lemma TimesOne(n: real, x: real)
    requires x == 1.0
    ensures n * x == n
  {
  }

  /** Lines 72-73: the slot counts add up to `num`. */
  lemma SlotsSum(sizes: seq<int>, num: int)
    requires SumI(sizes) > 0
    ensures SumI(Slots(sizes, num)) == num
  {
    AdjustIsLargestRemainder(SlotTargets(sizes, num));
    SlotTargetsSum(sizes, num);
  }

  /** With fewer slots than candidates, a group's target stays below its size. */
  lemma TargetBelowSize(c: int, total: int, num: int)
    requires 0 < c && 0 < total && 0 <= num < total
    ensures 0.0 <= Target(c, total, num) < c as real
  {
    var p := c as real / total as real;
    assert p > 0.0;
    assert p * num as real < p * total as real;
    assert p * total as real == c as real;
  }

  /** The central fact of Case B: with `num` below the number of candidates, no group
      gets more slots than it has candidates, so the slice `iloc[:NUM]` never runs
      short. */
  lemma SlotFits(sizes: seq<int>, num: int, j: nat)
    requires SumI(sizes) > 0 && 0 <= num < SumI(sizes)
    requires j < |sizes| && sizes[j] > 0
    ensures 0 <= Slots(sizes, num)[j] <= sizes[j]
  {
    var w := SlotTargets(sizes, num);
    assert w[j] == Target(sizes[j], SumI(sizes), num);
    TargetBelowSize(sizes[j], SumI(sizes), num);
    AdjustWithinOne(w, j);
  }

  /** `s[:n]` is a prefix of `s`. */
  lemma HeadIsPrefix(s: seq<Fund>, n: int)
    ensures multiset(Head(s, n)) <= multiset(s)
  {
    var h := Head(s, n);
    assert s == h + s[|h|..];
  }

  /** When every group has room for its slots, `num` funds come back in all. */
  lemma {:induction false} TakeTopSize(gs: seq<seq<Fund>>, slots: seq<int>)
    requires |slots| == |gs|
    requires forall j :: 0 <= j < |gs| ==> 0 <= slots[j] <= |gs[j]|
    ensures |TakeTop(gs, slots)| == SumI(slots)
  {
    if |gs| > 0 {
      TakeTopSize(gs[1..], slots[1..]);
    }
  }

  /** The funds taken are among the grouped funds, each at most as often. */
  lemma {:induction false} TakeTopWithin(gs: seq<seq<Fund>>, slots: seq<int>)
    requires |slots| == |gs|
    ensures multiset(TakeTop(gs, slots)) <= multiset(Flatten(gs))
  {
    if |gs| > 0 {
      TakeTopWithin(gs[1..], slots[1..]);
      HeadIsPrefix(gs[0], slots[0]);
    }
  }

  /** Case B chooses exactly `num` funds, all among the candidates and none twice more
      often than it is a candidate. */
  lemma BinChoiceProperties(ranked: seq<Fund>, num: int, bin: Fund -> nat)
    requires 0 <= num < |ranked|
    ensures |BinChoice(ranked, num, bin)| == num
    ensures multiset(BinChoice(ranked, num, bin)) <= multiset(ranked)
  {
    var gs := Bins(ranked, bin);
    GroupsNotEmpty(ranked, bin);
    var sizes := Sizes(gs);
    var slots := Slots(sizes, num);
    forall j | 0 <= j < |gs|
      ensures 0 <= slots[j] <= |gs[j]|
    {
      SlotFits(sizes, num, j);
    }
    TakeTopSize(gs, slots);
    SlotsSum(sizes, num);
    TakeTopWithin(gs, slots);
    BinsPartition(ranked, bin);
  }

  /** Case B spends `num * unit`: one unit for each of the `num` chosen funds. */
  lemma BinSelectTotal(ranked: seq<Fund>, num: int, unit: int, bin: Fund -> nat)
    requires 0 <= num < |ranked|
    ensures |BinSelect(ranked, num, unit, bin)| == num
    ensures forall i :: 0 <= i < num ==> BinSelect(ranked, num, unit, bin)[i].budget == unit
    ensures SumI(PickBudgets(BinSelect(ranked, num, unit, bin))) == unit * num
  {
    BinChoiceProperties(ranked, num, bin);
    var p := BinSelect(ranked, num, unit, bin);
    var ones := seq(num, i => 1);
    SumIScale(ones, PickBudgets(p), unit);
    OnesSum(num);
  }

  lemma {:induction false} OnesSum(n: nat)
    ensures SumI(seq(n, i => 1)) == n
  {
    if n > 0 {
      assert seq(n, i => 1)[1..] == seq(n - 1, i => 1);
      OnesSum(n - 1);
    }
  }

  /** Within a group, the candidates keep their ranked order. */
  lemma {:induction false} GroupDescending(s: seq<Fund>, bin: Fund -> nat, b: nat)
    requires RateDescending(s)
    ensures RateDescending(Group(s, bin, b))
  {
    if |s| > 0 {
      GroupDescending(s[1..], bin, b);
      var rest := Group(s[1..], bin, b);
      forall k | 0 <= k < |rest|
        ensures s[0].rate >= rest[k].rate
      {
        assert rest[k] in s[1..];
      }
    }
  }

  lemma {:induction false} GroupsFromDescending(s: seq<Fund>, bin: Fund -> nat, lo: nat, hi: nat)
    requires RateDescending(s)
    ensures forall j :: 0 <= j < |GroupsFrom(s, bin, lo, hi)| ==> RateDescending(GroupsFrom(s, bin, lo, hi)[j])
    decreases hi - lo
  {
    if lo < hi {
      GroupDescending(s, bin, lo);
      GroupsFromDescending(s, bin, lo + 1, hi);
    }
  }

  /** Line 79 takes the best of each group: a fund chosen from a group has a RATE at
      least that of every fund of the group left out. */
  lemma ChosenOutrankRest(ranked: seq<Fund>, num: int, bin: Fund -> nat, j: nat, x: nat, y: nat)
    requires RateDescending(ranked) && |ranked| > 0
    requires j < |Bins(ranked, bin)|
    requires x < |Head(Bins(ranked, bin)[j], SlotsOf(ranked, num, bin)[j])|
    requires |Head(Bins(ranked, bin)[j], SlotsOf(ranked, num, bin)[j])| <= y < |Bins(ranked, bin)[j]|
    ensures Bins(ranked, bin)[j][x].rate >= Bins(ranked, bin)[j][y].rate
  {
    GroupsFromDescending(ranked, bin, 0, LabelBound(ranked, bin));
  }

  /** The slot count `NUM` of every group of the ranked candidates. */
  function SlotsOf(ranked: seq<Fund>, num: int, bin: Fund -> nat): (n: seq<int>)
    requires |ranked| > 0
    ensures |n| == |Bins(ranked, bin)|
  {
    GroupsNotEmpty(ranked, bin);
    Slots(Sizes(Bins(ranked, bin)), num)
  }

  /** In Case A a candidate ranked higher never gets less than one ranked lower. */
  lemma EvenSplitFavoursRate(ranked: seq<Fund>, num: int, unit: int, i: nat, j: nat)
    requires |ranked| > 0 && i < j < |ranked| && unit > 0
    ensures EvenSplit(ranked, num, unit)[i].budget >= EvenSplit(ranked, num, unit)[j].budget
    ensures EvenSplit(ranked, num, unit)[i].budget - EvenSplit(ranked, num, unit)[j].budget <= unit
  {
    var c := EvenCounts(|ranked|, num);
    assert 0 <= c[i] - c[j] <= 1;
    assert EvenSplit(ranked, num, unit)[i].budget - EvenSplit(ranked, num, unit)[j].budget == unit * (c[i] - c[j]);
  }

  // ---------------------------------------------------------------------------
  // `get_fund_by_type` and `select`.

  /** The labelling `pd.cut(df.RATE, bins=num)` gives the candidates: `cut(num, f)` is
      the interval of fund `f` when the candidates are cut into `num` intervals. */
  function CutAt(cut: (int, Fund) -> nat, num: int): Fund -> nat
  {
    (f: Fund) => cut(num, f)
  }

  /** When `get_fund_by_type` succeeds for a non-zero budget: the unit is not zero,
      the type has candidates, and the budget buys at least one unit. */
  predicate Feasible(pool: seq<Fund>, t: string, budget: int, unit: int)
  {
    unit != 0 && |OfType(pool, t)| > 0 && Units(budget, unit) >= 1
  }

  /** `get_fund_by_type(fund_type, budget)` over the candidate pool `pool`. */
  function FundsByType(pool: seq<Fund>, t: string, budget: int, unit: int, cut: (int, Fund) -> nat): (r: Result<Choice>)
    ensures r == Ok(NoBudget) <==> budget == 0
    ensures budget != 0 ==> (r.Ok? <==> Feasible(pool, t, budget, unit))
    ensures budget != 0 && unit == 0 ==> r == Err(DivisionByZero)
    ensures budget != 0 && unit != 0 && |OfType(pool, t)| == 0 && Units(budget, unit) >= 0 ==> r == Err(DivisionByZero)
    ensures budget != 0 && unit != 0 && Units(budget, unit) < 1 && Units(budget, unit) < |OfType(pool, t)| ==> r == Err(NonPositiveBins)
  {
    if budget == 0 then Ok(NoBudget)
    else if unit == 0 then Err(DivisionByZero)
    else
      var ranked := Ranked(pool, t);
      var num := Units(budget, unit);
      if num >= |ranked| then
        if |ranked| == 0 then Err(DivisionByZero)
        else Ok(Chosen(EvenSplit(ranked, num, unit)))
      else if num < 1 then Err(NonPositiveBins)
      else Ok(Chosen(BinSelect(ranked, num, unit, CutAt(cut, num))))
  }

  /** A successful choice for a non-zero budget spends `num * unit`, and every fund
      gets at least one unit. */
  lemma FundsByTypeTotal(pool: seq<Fund>, t: string, budget: int, unit: int, cut: (int, Fund) -> nat)
    requires budget != 0 && Feasible(pool, t, budget, unit)
    ensures FundsByType(pool, t, budget, unit, cut).Ok? && FundsByType(pool, t, budget, unit, cut).value.Chosen?
    ensures SumI(PickBudgets(FundsByType(pool, t, budget, unit, cut).value.picks)) == Cost(budget, unit)
  {
    var ranked := Ranked(pool, t);
    var num := Units(budget, unit);
    if num >= |ranked| {
      EvenSplitTotal(ranked, num, unit);
    } else {
      BinSelectTotal(ranked, num, unit, CutAt(cut, num));
    }
  }

  /** The funds chosen are candidates of the type: their codes are among the codes of
      the pool's funds of type `t`. */
  lemma FundsByTypeCodes(pool: seq<Fund>, t: string, budget: int, unit: int, cut: (int, Fund) -> nat)
    requires budget != 0 && Feasible(pool, t, budget, unit)
    ensures FundsByType(pool, t, budget, unit, cut).Ok?
    ensures var p := FundsByType(pool, t, budget, unit, cut).value.picks;
      forall i :: 0 <= i < |p| ==> p[i].code in Codes(OfType(pool, t))
  {
    var p := FundsByType(pool, t, budget, unit, cut).value.picks;
    forall i | 0 <= i < |p|
      ensures p[i].code in Codes(OfType(pool, t))
    {
      var f := ChosenFund(pool, t, budget, unit, cut, i);
      CandidateCode(pool, t, f);
    }
  }

  /** The candidate behind pick `i`. */
  lemma ChosenFund(pool: seq<Fund>, t: string, budget: int, unit: int, cut: (int, Fund) -> nat, i: nat) returns (f: Fund)
    requires budget != 0 && Feasible(pool, t, budget, unit)
    requires i < |FundsByType(pool, t, budget, unit, cut).value.picks|
    ensures f in multiset(Ranked(pool, t))
    ensures f.code == FundsByType(pool, t, budget, unit, cut).value.picks[i].code
  {
    var ranked := Ranked(pool, t);
    var num := Units(budget, unit);
    if num >= |ranked| {
      var p := EvenSplit(ranked, num, unit);
      assert PickCodes(p)[i] == Codes(ranked)[i];
      f := ranked[i];
    } else {
      BinChoiceProperties(ranked, num, CutAt(cut, num));
      var chosen := BinChoice(ranked, num, CutAt(cut, num));
      f := chosen[i];
      assert f in multiset(chosen);
    }
  }

  lemma CandidateCode(pool: seq<Fund>, t: string, f: Fund)
    requires f in multiset(Ranked(pool, t))
    ensures f.code in Codes(OfType(pool, t))
  {
    assert f in OfType(pool, t);
    var k :| 0 <= k < |OfType(pool, t)| && OfType(pool, t)[k] == f;
    assert Codes(OfType(pool, t))[k] == f.code;
  }

  /** The type-budget rows in descending order of BUDGET: line 89. */
  function ByBudget(rows: seq<TypeBudget.TypeBudgetRow>): (r: seq<TypeBudget.TypeBudgetRow>)
    ensures multiset(r) == multiset(rows)
    ensures forall i, j :: 0 <= i < j < |r| ==> r[i].budget >= r[j].budget
  {
    var key := (row: TypeBudget.TypeBudgetRow) => row.budget as real;
    var r := SortDescBy(rows, key);
    assert forall i, j :: 0 <= i < j < |r| ==> key(r[i]) >= key(r[j]);
    r
  }

  /** The rows the loop of lines 91-95 does not skip, in order. */
  function NonZero(rows: seq<TypeBudget.TypeBudgetRow>): (r: seq<TypeBudget.TypeBudgetRow>)
    ensures forall x :: x in r <==> x in rows && x.budget != 0
  {
    if |rows| == 0 then []
    else
      assert rows == [rows[0]] + rows[1..];
      (if rows[0].budget != 0 then [rows[0]] else []) + NonZero(rows[1..])
  }

  /** The rows a choice adds to the result; `None` adds none. */
  function PicksOf(c: Choice): seq<Pick>
  {
    if c.Chosen? then c.picks else []
  }

  /** A type row the loop can handle: it is skipped, or its choice succeeds. */
  predicate Serves(pool: seq<Fund>, row: TypeBudget.TypeBudgetRow, unit: int)
  {
    row.budget == 0 || Feasible(pool, row.ftype, row.budget, unit)
  }

  /** The loop of lines 91-95: each row's choice in turn, the first failure
      propagating; `pd.concat` drops a `None`. */
  function Gather(pool: seq<Fund>, rows: seq<TypeBudget.TypeBudgetRow>, unit: int, cut: (int, Fund) -> nat): (r: Result<seq<Pick>>)
    ensures r.Err? ==> exists i :: 0 <= i < |rows| && FundsByType(pool, rows[i].ftype, rows[i].budget, unit, cut) == Err(r.failure)
  {
    if |rows| == 0 then Ok([])
    else
      var rest := Gather(pool, rows[1..], unit, cut);
      match FundsByType(pool, rows[0].ftype, rows[0].budget, unit, cut)
      case Err(e) => Err(e)
      case Ok(c) =>
        if rest.Err? then rest
        else Ok(PicksOf(c) + rest.value)
  }

  /** The loop succeeds exactly when every row can be served. */
  lemma {:induction false} GatherOk(pool: seq<Fund>, rows: seq<TypeBudget.TypeBudgetRow>, unit: int, cut: (int, Fund) -> nat)
    ensures Gather(pool, rows, unit, cut).Ok? <==> forall i :: 0 <= i < |rows| ==> Serves(pool, rows[i], unit)
  {
    if |rows| > 0 {
      GatherOk(pool, rows[1..], unit, cut);
      assert forall i :: 1 <= i < |rows| ==> rows[i] == rows[1..][i - 1];
      var r := FundsByType(pool, rows[0].ftype, rows[0].budget, unit, cut);
      assert r.Ok? <==> Serves(pool, rows[0], unit);
    }
  }

  /** `select(df)`: the choices of the non-zero types, largest budget first, put
      together; with no such type `pd.concat` has nothing to concatenate. */
  function Select(pool: seq<Fund>, rows: seq<TypeBudget.TypeBudgetRow>, unit: int, cut: (int, Fund) -> nat): (r: Result<seq<Pick>>)
    ensures (forall i :: 0 <= i < |rows| ==> rows[i].budget == 0) ==> r == Err(NothingToConcatenate)
    ensures r.Err? && r.failure != NothingToConcatenate ==>
      exists i :: 0 <= i < |rows| && rows[i].budget != 0 &&
        FundsByType(pool, rows[i].ftype, rows[i].budget, unit, cut) == Err(r.failure)
  {
    var live := NonZero(ByBudget(rows));
    LiveFailure(pool, rows, unit, cut);
    if |live| == 0 then Err(NothingToConcatenate) else Gather(pool, live, unit, cut)
  }

  /** The rows `select` visits are there exactly when some BUDGET is not zero, and a
      failure among them is the failure of one of the non-zero rows. */
  lemma LiveFailure(pool: seq<Fund>, rows: seq<TypeBudget.TypeBudgetRow>, unit: int, cut: (int, Fund) -> nat)
    ensures |NonZero(ByBudget(rows))| == 0 <==> forall i :: 0 <= i < |rows| ==> rows[i].budget == 0
    ensures var g := Gather(pool, NonZero(ByBudget(rows)), unit, cut);
      g.Err? ==>
        exists i :: 0 <= i < |rows| && rows[i].budget != 0 &&
                    FundsByType(pool, rows[i].ftype, rows[i].budget, unit, cut) == Err(g.failure)
  {
    var live := NonZero(ByBudget(rows));
    LiveRows(rows);
    if |live| > 0 {
      assert live[0] in live;
    }
    if exists i :: 0 <= i < |rows| && rows[i].budget != 0 {
      var i :| 0 <= i < |rows| && rows[i].budget != 0;
      assert rows[i] in live;
    }
    var g := Gather(pool, live, unit, cut);
    if g.Err? {
      var k :| 0 <= k < |live| && FundsByType(pool, live[k].ftype, live[k].budget, unit, cut) == Err(g.failure);
      assert live[k] in live;
      var i :| 0 <= i < |rows| && rows[i] == live[k];
    }
  }

  /** What a type row spends: `num * unit` for a non-zero budget. */
  function RowSpend(row: TypeBudget.TypeBudgetRow, unit: int): int
  {
    if row.budget == 0 || unit == 0 then 0 else Cost(row.budget, unit)
  }

  /** `num * unit`: the money the whole units of a budget amount to. */
  function Cost(budget: int, unit: int): int
    requires unit != 0
  {
    unit * Units(budget, unit)
  }

  function Spend(rows: seq<TypeBudget.TypeBudgetRow>, unit: int): int
  {
    if |rows| == 0 then 0 else RowSpend(rows[0], unit) + Spend(rows[1..], unit)
  }

  /** The gathered choices spend what the rows spend. */
  lemma {:induction false} GatherTotal(pool: seq<Fund>, rows: seq<TypeBudget.TypeBudgetRow>, unit: int, cut: (int, Fund) -> nat)
    requires Gather(pool, rows, unit, cut).Ok?
    ensures SumI(PickBudgets(Gather(pool, rows, unit, cut).value)) == Spend(rows, unit)
  {
    if |rows| > 0 {
      var c := FundsByType(pool, rows[0].ftype, rows[0].budget, unit, cut).value;
      var rest := Gather(pool, rows[1..], unit, cut).value;
      assert Gather(pool, rows, unit, cut).value == PicksOf(c) + rest;
      GatherTotal(pool, rows[1..], unit, cut);
      ChoiceSpend(pool, rows[0], unit, cut);
      PickBudgetsAppend(PicksOf(c), rest);
    }
  }

  /** One row's choice spends what the row spends. */
  lemma ChoiceSpend(pool: seq<Fund>, row: TypeBudget.TypeBudgetRow, unit: int, cut: (int, Fund) -> nat)
    requires FundsByType(pool, row.ftype, row.budget, unit, cut).Ok?
    ensures SumI(PickBudgets(PicksOf(FundsByType(pool, row.ftype, row.budget, unit, cut).value))) == RowSpend(row, unit)
  {
    if row.budget != 0 {
      FundsByTypeTotal(pool, row.ftype, row.budget, unit, cut);
    }
  }

  lemma PickBudgetsAppend(a: seq<Pick>, b: seq<Pick>)
    ensures SumI(PickBudgets(a + b)) == SumI(PickBudgets(a)) + SumI(PickBudgets(b))
  {
    assert PickBudgets(a + b) == PickBudgets(a) + PickBudgets(b);
    SumIAppend(PickBudgets(a), PickBudgets(b));
  }

  lemma {:induction false} SpendAppend(a: seq<TypeBudget.TypeBudgetRow>, b: seq<TypeBudget.TypeBudgetRow>, unit: int)
    ensures Spend(a + b, unit) == Spend(a, unit) + Spend(b, unit)
  {
    if |a| == 0 {
      assert a + b == b;
    } else {
      assert (a + b)[1..] == a[1..] + b;
      SpendAppend(a[1..], b, unit);
    }
  }

  /** Skipping the zero rows changes nothing in what the rows spend. */
  lemma {:induction false} SpendNonZero(rows: seq<TypeBudget.TypeBudgetRow>, unit: int)
    ensures Spend(NonZero(rows), unit) == Spend(rows, unit)
  {
    if |rows| > 0 {
      SpendNonZero(rows[1..], unit);
      var head: seq<TypeBudget.TypeBudgetRow> := if rows[0].budget != 0 then [rows[0]] else [];
      SpendAppend(head, NonZero(rows[1..]), unit);
      assert Spend(head, unit) == RowSpend(rows[0], unit) by {
        if |head| > 0 {
          assert head[1..] == [];
        }
      }
    }
  }

  /** Reordering the rows changes nothing in what they spend. */
  lemma {:induction false} SpendPermutation(a: seq<TypeBudget.TypeBudgetRow>, b: seq<TypeBudget.TypeBudgetRow>, unit: int)
    requires multiset(a) == multiset(b)
    ensures Spend(a, unit) == Spend(b, unit)
    decreases |a|
  {
    if |a| == 0 {
      assert |b| == |multiset(b)| == 0;
    } else {
      var j := MatchHead(a, b);
      SpendPermutation(a[1..], b[..j] + b[j + 1..], unit);
      SpendRemove(b, j, unit);
    }
  }

  /** Taking out row `j` takes its spending off the total. */
  lemma SpendRemove(b: seq<TypeBudget.TypeBudgetRow>, j: nat, unit: int)
    requires j < |b|
    ensures Spend(b, unit) == RowSpend(b[j], unit) + Spend(b[..j] + b[j + 1..], unit)
  {
    assert b == b[..j] + [b[j]] + b[j + 1..];
    SpendAppend(b[..j] + [b[j]], b[j + 1..], unit);
    SpendAppend(b[..j], [b[j]], unit);
    SpendAppend(b[..j], b[j + 1..], unit);
  }

  /** The rows `select` visits are the non-zero rows. */
  lemma LiveRows(rows: seq<TypeBudget.TypeBudgetRow>)
    ensures forall x :: x in NonZero(ByBudget(rows)) <==> x in rows && x.budget != 0
  {
    assert forall x :: x in ByBudget(rows) <==> x in multiset(rows);
  }

  /** `select` succeeds exactly when some type has a non-zero budget and every such
      type can be served. */
  lemma SelectOk(pool: seq<Fund>, rows: seq<TypeBudget.TypeBudgetRow>, unit: int, cut: (int, Fund) -> nat)
    ensures Select(pool, rows, unit, cut).Ok? <==>
      (exists i :: 0 <= i < |rows| && rows[i].budget != 0) &&
      (forall i :: 0 <= i < |rows| ==> Serves(pool, rows[i], unit))
  {
    var live := NonZero(ByBudget(rows));
    GatherOk(pool, live, unit, cut);
    LiveRows(rows);
    if exists i :: 0 <= i < |rows| && rows[i].budget != 0 {
      var i :| 0 <= i < |rows| && rows[i].budget != 0;
      assert rows[i] in live;
    }
    if |live| > 0 {
      assert live[0] in live;
    }
    if forall i :: 0 <= i < |rows| ==> Serves(pool, rows[i], unit) {
      forall k | 0 <= k < |live|
        ensures Serves(pool, live[k], unit)
      {
        assert live[k] in live;
      }
    }
    if forall k :: 0 <= k < |live| ==> Serves(pool, live[k], unit) {
      forall i | 0 <= i < |rows|
        ensures Serves(pool, rows[i], unit)
      {
        if rows[i].budget != 0 {
          assert rows[i] in live;
        }
      }
    }
  }

  /** What `select` hands out: for every non-zero type `num * unit`, in total. */
  lemma SelectTotal(pool: seq<Fund>, rows: seq<TypeBudget.TypeBudgetRow>, unit: int, cut: (int, Fund) -> nat)
    requires exists i :: 0 <= i < |rows| && rows[i].budget != 0
    requires forall i :: 0 <= i < |rows| ==> Serves(pool, rows[i], unit)
    ensures Select(pool, rows, unit, cut).Ok?
    ensures SumI(PickBudgets(Select(pool, rows, unit, cut).value)) == Spend(rows, unit)
  {
    var live := NonZero(ByBudget(rows));
    SelectOk(pool, rows, unit, cut);
    GatherTotal(pool, live, unit, cut);
    SpendNonZero(ByBudget(rows), unit);
    SpendPermutation(ByBudget(rows), rows, unit);
  }

  /** A budget that is a whole number of units costs exactly itself. */
  lemma CostOfMultiple(budget: int, unit: int)
    requires unit != 0 && budget % unit == 0
    ensures Cost(budget, unit) == budget
  {
    var q := budget / unit;
    assert budget == unit * q;
    ExactQuotient(q, unit);
  }

  lemma ExactQuotient(q: int, unit: int)
    requires unit != 0
    ensures (unit * q) as real / unit as real == q as real
  {
    AmountOfCount(q, unit);
  }

  /** Rows whose budgets are whole numbers of units spend exactly their budgets. */
  lemma {:induction false} SpendOfMultiples(rows: seq<TypeBudget.TypeBudgetRow>, unit: int)
    requires unit != 0
    requires forall i :: 0 <= i < |rows| ==> rows[i].budget % unit == 0
    ensures Spend(rows, unit) == SumI(TypeBudget.BudgetValues(rows))
  {
    if |rows| > 0 {
      assert TypeBudget.BudgetValues(rows)[1..] == TypeBudget.BudgetValues(rows[1..]);
      SpendOfMultiples(rows[1..], unit);
      if rows[0].budget != 0 {
        CostOfMultiple(rows[0].budget, unit);
      }
    }
  }

  /** A type with a fund in the pool has candidates. */
  lemma Offered(pool: seq<Fund>, t: string)
    requires t in TypesOf(pool)
    ensures |OfType(pool, t)| > 0
  {
    var f :| f in pool && f.ftype == t;
    assert f in OfType(pool, t);
  }

  /** A positive whole number of a positive unit buys at least one unit. */
  lemma UnitsOfMultiple(budget: int, unit: int)
    requires unit > 0 && budget > 0 && budget % unit == 0
    ensures Units(budget, unit) >= 1
  {
    CostOfMultiple(budget, unit);
    if Units(budget, unit) <= 0 {
      MulMonotone(Units(budget, unit), 0, unit);
    }
  }

  /** Type rows whose budgets are non-negative whole numbers of a positive unit, and
      whose types all have funds in the pool, can every one be served. */
  lemma RowsServed(pool: seq<Fund>, rows: seq<TypeBudget.TypeBudgetRow>, unit: int)
    requires unit > 0
    requires forall i :: 0 <= i < |rows| ==> rows[i].budget >= 0 && rows[i].budget % unit == 0
    requires forall i :: 0 <= i < |rows| ==> rows[i].ftype in TypesOf(pool)
    ensures forall i :: 0 <= i < |rows| ==> Serves(pool, rows[i], unit)
  {
    forall i | 0 <= i < |rows|
      ensures Serves(pool, rows[i], unit)
    {
      if rows[i].budget != 0 {
        Offered(pool, rows[i].ftype);
        UnitsOfMultiple(rows[i].budget, unit);
      }
    }
  }

  /** Rows with a non-zero total have a non-zero row. */
  lemma {:induction false} SomeRowNonZero(rows: seq<TypeBudget.TypeBudgetRow>)
    requires SumI(TypeBudget.BudgetValues(rows)) != 0
    ensures exists i :: 0 <= i < |rows| && rows[i].budget != 0
  {
    assert |rows| > 0;
    if rows[0].budget == 0 {
      assert TypeBudget.BudgetValues(rows)[1..] == TypeBudget.BudgetValues(rows[1..]);
      SomeRowNonZero(rows[1..]);
      var i :| 0 <= i < |rows[1..]| && rows[1..][i].budget != 0;
      assert rows[i + 1].budget != 0;
    }
  }

  /** A positive unit count `round(budget / unit)` means a positive budget. */
  lemma PositiveBudget(budget: int, unit: int)
    requires unit > 0 && RoundHalfEven(TypeBudget.FundNumber(budget, unit)) >= 1
    ensures budget > 0
  {
    var n := TypeBudget.FundNumber(budget, unit);
    assert n > 0.0;
    assert n * unit as real == budget as real;
  }

  /** The conditions under which the whole pipeline succeeds, on the type table and
      the pool: a positive unit, non-negative WEIGHTs that add up to one, every TYPE
      present in the pool, and a budget worth at least one unit once rounded. */
  predicate Plannable(pool: seq<Fund>, types: seq<TypeParam>, budget: int, unit: int)
  {
    && unit > 0
    && SumR(Weights(types)) == 1.0
    && (forall i :: 0 <= i < |types| ==> types[i].weight >= 0.0 && types[i].ftype in TypesOf(pool))
    && RoundHalfEven(TypeBudget.FundNumber(budget, unit)) >= 1
  }

  /** Type rows from the table, with non-negative whole-unit budgets adding up to
      `unit * round(budget / unit)`, make `select` succeed and spend that total. */
  lemma SelectOfPlan(pool: seq<Fund>, types: seq<TypeParam>, budget: int, unit: int,
                     rows: seq<TypeBudget.TypeBudgetRow>, cut: (int, Fund) -> nat)
    requires Plannable(pool, types, budget, unit)
    requires |rows| == |types| && forall i :: 0 <= i < |rows| ==> rows[i].ftype == types[i].ftype
    requires forall i :: 0 <= i < |rows| ==> rows[i].budget >= 0 && rows[i].budget % unit == 0
    requires SumI(TypeBudget.BudgetValues(rows)) == unit * RoundHalfEven(TypeBudget.FundNumber(budget, unit))
    ensures Select(pool, rows, unit, cut).Ok?
    ensures SumI(PickBudgets(Select(pool, rows, unit, cut).value)) == unit * RoundHalfEven(TypeBudget.FundNumber(budget, unit))
  {
    MulAtLeast(RoundHalfEven(TypeBudget.FundNumber(budget, unit)), unit);
    SomeRowNonZero(rows);
    RowsServed(pool, rows, unit);
    SelectTotal(pool, rows, unit, cut);
    SpendOfMultiples(rows, unit);
  }

  /** The whole pipeline `select(get_type_budget())`: on a plannable table it succeeds,
      and the chosen funds' budgets add up to `unit * round(budget / unit)`. */
  lemma PipelineTotal(pool: seq<Fund>, types: seq<TypeParam>, budget: int, unit: int, cut: (int, Fund) -> nat)
    requires Plannable(pool, types, budget, unit)
    ensures TypeBudget.Budgets(types, budget, unit).Ok?
    ensures Select(pool, TypeBudget.Budgets(types, budget, unit).value, unit, cut).Ok?
    ensures SumI(PickBudgets(Select(pool, TypeBudget.Budgets(types, budget, unit).value, unit, cut).value)) ==
            unit * RoundHalfEven(TypeBudget.FundNumber(budget, unit))
  {
    var rows := TypeBudget.Budgets(types, budget, unit).value;
    PositiveBudget(budget, unit);
    TypeBudget.BudgetsAreUnits(types, budget, unit);
    TypeBudget.BudgetsConserve(types, budget, unit);
    SelectOfPlan(pool, types, budget, unit, rows, cut);
  }

  /** The same pipeline on the corrected type budgets succeeds under the same
      conditions and spends the same total. */
  lemma PipelineTotalByTarget(pool: seq<Fund>, types: seq<TypeParam>, budget: int, unit: int, cut: (int, Fund) -> nat)
    requires Plannable(pool, types, budget, unit)
    ensures TypeBudget.BudgetsByTarget(types, budget, unit).Ok?
    ensures Select(pool, TypeBudget.BudgetsByTarget(types, budget, unit).value, unit, cut).Ok?
    ensures SumI(PickBudgets(Select(pool, TypeBudget.BudgetsByTarget(types, budget, unit).value, unit, cut).value)) ==
            unit * RoundHalfEven(TypeBudget.FundNumber(budget, unit))
  {
    var rows := TypeBudget.BudgetsByTarget(types, budget, unit).value;
    PositiveBudget(budget, unit);
    TypeBudget.ByTargetUnits(types, budget, unit);
    TypeBudget.ByTargetTotal(types, budget, unit);
    TypeBudget.BudgetsConserve(types, budget, unit);
    SelectOfPlan(pool, types, budget, unit, rows, cut);
  }

  /** The pipeline on the pool's own type table: any pool of funds with positive
      VALUEs, a positive unit and a budget worth at least one unit once rounded. */
  lemma PipelineOfPool(pool: seq<Fund>, exp: real -> real, budget: int, unit: int, cut: (int, Fund) -> nat)
    requires forall i :: 0 <= i < |pool| ==> pool[i].value > 0.0
    requires forall y :: exp(y) > 0.0
    requires |pool| > 0 && unit > 0 && RoundHalfEven(TypeBudget.FundNumber(budget, unit)) >= 1
    ensures Plannable(pool, TypeParams(pool, exp), budget, unit)
  {
    var types := TypeParams(pool, exp);
    WeightsNormalised(pool, exp);
    TypeParamsOnePerType(pool, exp);
    forall i | 0 <= i < |types|
      ensures types[i].ftype in TypesOf(pool)
    {
      assert types[i] in types;
    }
  }

  /** Three candidates and five units: the two best get two units each, the third one. */
  lemma EvenSplitExample()
    ensures EvenCounts(3, 5) == [2, 2, 1]
  {
  }
}
