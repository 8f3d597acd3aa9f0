# which-fund budget allocation, modelled in Dafny

`which-fund` spreads a monetary budget over a pool of candidate investment funds.
It works in whole units of `unit` and proceeds in two tiers.

- `SimpleFundModel.get_type_budget` splits the budget over fund types in proportion to each
  type's share of the pool's value. The fractional unit counts are turned into integers by the
  largest-remainder routine `_adjust`.
- `get_fund_by_type` spreads each type's budget over the funds of that type.
  - When there are more units than funds, every fund gets an even split, and the best-rated funds
    get one unit more.
  - Otherwise the funds are binned by rate, the units are apportioned over the bins by population,
    and the top funds of each bin get one unit each.
- `select` visits the types with the highest budget first and concatenates the choices.

Around this engine sit a few pure table transformations that the project also models:

- the per-fund and per-type parameters of `model/df.py`: mean rate, profit, value sums, the
  value share WEIGHT and the softmax RATE_WEIGHT;
- the short company names of `pool/df.py`: drop parenthesised remarks, trim, and cut off the
  first matching legal-form suffix;
- the return bucketing of `fundrate/summary.py`: gain and loss counts, and counts per half-open
  interval.

Modules, one per concern:

| file | module | models |
|---|---|---|
| outcomes.dfy | Outcomes | the exceptions the source raises, as `Result` failures |
| sums.dfy, arith.dfy | Sums, Arith | sums of sequences and small arithmetic facts |
| sorting.dfy | Sorting | `sort_values(ascending=False)` as a key-descending permutation |
| apportion.dfy | Apportion | `_adjust` |
| type_budget.dfy | TypeBudget | `get_type_budget`, as written and as evidently intended |
| grouping.dfy | Grouping | the `pd.cut` + `groupby(observed=True)` partition |
| selection.dfy | Selection | `get_fund_by_type` and `select` |
| params.dfy | Params | `FundParamDF.get`, `FundTypeParamDF.get` |
| company_name.dfy | CompanyName | `CompanyFundValueDF._add_comp` |
| buckets.dfy | Buckets | `FundRateSummary._count_bucket` and the counts of `_statistics` |

Floats are modelled as exact reals.

- Python's `round` is `Apportion.RoundHalfEven`.
- `int()` on a float truncates toward zero (`Selection.Truncate`).
- `np.floor` is `.Floor`.
- `exp` is a parameter, known only to be positive and strictly increasing.
- The `pd.cut` labelling is a parameter `cut(num, fund)`. Every property of `get_fund_by_type`
  holds for every labelling.
- Where Python raises, the model returns `Err`:
  - `ZeroDivisionError` from `budget / unit` or `num // len(df)`;
  - `ValueError` from `pd.cut` with fewer than one bin;
  - `ValueError` from `pd.concat([])`.

Three behaviours of the code are worth stating up front; the model follows the code in each.

- **Total of the type budgets.** The only promise the source states for `_adjust` is its
  docstring (model/model.py:22-26): the integers add up to the sum of the fractions. The code
  takes that sum as `round(fractions.sum())` (model/model.py:28), Python's round half to even.
  The type budgets can therefore add up to more than the budget
  (`TypeBudget.TotalCanExceedBudget`: 27 in units of 10 gives 30).
- **Tie order.** `np.argsort` (model/model.py:36) and `sort_values` (model/model.py:46, 54, 78
  and 89) use their default, non-stable algorithms. `_adjust` is therefore specified
  relationally: `Apportion.IsLargestRemainder` allows any choice among equal remainders, and
  every sort is specified as a key-descending permutation.
- **Which type receives which budget.** `get_type_budget` sorts the per-type targets
  (model/model.py:46) and then assigns the apportioned array positionally to the unsorted rows
  (model/model.py:47); see Findings.
- **Grouping order.** TYPE is a string column, and `groupby("TYPE")` (model/df.py:52) sorts its
  keys by Python's string comparison, code point by code point. `Params.LexLess` models that
  order.

## Model

| member | source | states |
|---|---|---|
| Apportion.RoundHalfEven | model/model.py:28 | `round` of the total: within one half of it, and an exact half goes to the even integer |
| Apportion.Floors | model/model.py:30 | `np.floor(...).astype(int)`: one integer per fraction, the largest integer not above it |
| Apportion.FloorsBelowSum | model/model.py:28-32 | the floored total lies between the sum minus the entry count and the sum |
| Apportion.RemainingBounds | model/model.py:32-37 | `remaining` lies in `[0, len(fractions)]`, so `indices[:remaining]` never wraps or overflows |
| Apportion.PickMax | model/model.py:34-36 | the next index to bump is an un-bumped index whose fractional part is at least every other un-bumped one; none exists exactly when all are bumped |
| Apportion.UnbumpedExists | model/model.py:36-37 | while the total is below the floors plus the count, an un-bumped index remains |
| Apportion.BumpLargest | model/model.py:36-37 | handing out `k` more `+1`s by largest remainder keeps every bumped remainder at least every un-bumped one and raises the total by `k` |
| Apportion.Adjust | model/model.py:21-38 | one integer per fraction |
| Apportion.AdjustIsLargestRemainder | model/model.py:27-37 | each result is the floor or the floor plus one, the total is `round(sum)`, and the `+1`s went to maximal fractional parts |
| Apportion.IntegerNeverBumped | model/model.py:34-37 | an entry that is already an integer is never bumped, whatever the tie order |
| Apportion.WithinOneUnit | model/model.py:30-37 | every result is strictly within one of its fraction |
| Apportion.IntegersUnchanged | model/model.py:30-37 | on integer inputs the apportionment is the identity |
| Apportion.AdjustWithinOne | model/model.py:30-37 | each entry is at least the floor, within one of its fraction, and non-negative for a non-negative fraction |
| Apportion.AdjustIntegers | model/model.py:21-38 | `_adjust` returns integer inputs unchanged |
| TypeBudget.Targets | model/model.py:43-45 | `invest_fund_num * WEIGHT`, one target per type row |
| TypeBudget.Descending | model/model.py:46 | `sort_values(ascending=False)`: a permutation of the targets, largest first |
| TypeBudget.Budgets | model/model.py:40-48 | one BUDGET row per type row with its TYPE kept; `unit == 0` is a division by zero |
| TypeBudget.AllotUnits | model/model.py:47 | every BUDGET is a multiple of `unit` |
| TypeBudget.AllotNonNegative | model/model.py:45-47 | with non-negative weights and fund number, every BUDGET is non-negative |
| TypeBudget.AllotTotal | model/model.py:45-47 | the BUDGETs add up to `unit * round(sum of targets)` |
| TypeBudget.AllotCountTotal | model/model.py:45-47 | the apportioned unit counts add up to `round(sum of targets)` |
| TypeBudget.AllotFollowsRank | model/model.py:46-47 | row `i`'s BUDGET is within one `unit` of the `i`-th largest target times `unit`, not of its own target |
| TypeBudget.AllotDescends | model/model.py:46-47 | the BUDGET column is non-increasing down the rows, whatever order the rows are in, except between rows whose ranked targets tie |
| TypeBudget.BudgetsAreUnits | model/model.py:43-47 | every BUDGET is a multiple of `unit`, and non-negative for a non-negative budget, unit and weights |
| TypeBudget.BudgetsConserve | model/model.py:43-47 | with WEIGHTs summing to 1 the BUDGETs add up to `unit * round(budget / unit)` |
| TypeBudget.TargetsSumToFundNumber | model/model.py:43-45 | with WEIGHTs summing to 1 the targets add up to `budget / unit` |
| TypeBudget.TotalCanExceedBudget | model/model.py:43-47 | budget 27 in units of 10 allocates 30 |
| TypeBudget.BudgetFollowsRank | model/model.py:43-47 | row `i` gets the `i`-th largest share within one unit |
| TypeBudget.BudgetsDescend | model/model.py:43-47 | the BUDGET column is non-increasing in row order, up to ties of the ranked targets |
| TypeBudget.SwappedBudgets | model/model.py:45-47 | rows A (weight 1/4) and B (weight 3/4) with budget 4 and unit 1 get 3 and 1: the larger budget goes to the smaller type |
| TypeBudget.BudgetsByTarget | model/model.py:40-48 | corrected: one BUDGET row per type row with its TYPE kept; `unit == 0` is a division by zero |
| TypeBudget.ByTargetWithinUnit | model/model.py:43-47 | corrected: each type's BUDGET is within one unit of its own share `budget * WEIGHT` |
| TypeBudget.ByTargetTotal | model/model.py:43-47 | corrected: the total is the same as the code's total |
| TypeBudget.ByTargetUnits | model/model.py:47 | corrected: every BUDGET is a multiple of `unit`, and non-negative for a non-negative budget, unit and weights |
| TypeBudget.ByTargetExample | model/model.py:45-47 | corrected: rows A and B of the example get 1 and 3 |
| Grouping.BinsPartition | model/model.py:66-68 | the non-empty groups together hold every candidate exactly as often as the candidate list does |
| Grouping.SizesSum | model/model.py:68-70 | the COUNT column adds up to the number of candidates grouped |
| Grouping.Bins | model/model.py:68 | `groupby(observed=True)` yields no empty group |
| Selection.Truncate | model/model.py:55 | `int()` on a float: for a non-negative value the floor, for a negative value the ceiling |
| Selection.Units | model/model.py:55 | for a non-negative budget and positive unit, `num` is the number of whole units the budget buys: `unit * num <= budget < unit * (num + 1)` |
| Selection.OfType | model/model.py:53 | `pool[pool.TYPE == t]`: a sub-multiset of the pool containing exactly the funds of type `t` |
| Selection.Ranked | model/model.py:53-54 | the funds of type `t`, highest RATE first, each exactly once |
| Selection.EvenSplit | model/model.py:57-63 | Case A: one row per candidate, CODEs in rank order |
| Selection.EvenCounts | model/model.py:58-63 | each candidate gets `num // n` or `num // n + 1` units |
| Selection.EvenCountsSum | model/model.py:58-63 | the Case A unit counts `k` and `k+1` add up to `num` |
| Selection.EvenSplitTotal | model/model.py:57-63 | the Case A BUDGETs add up to `unit * num` |
| Selection.EvenSplitFavoursRate | model/model.py:57-63 | in Case A a better-ranked fund never gets less, and at most one unit more |
| Selection.EvenSplitExample | model/model.py:58-63 | 5 units over 3 funds are 2, 2, 1 |
| Selection.ProportionsSum | model/model.py:70 | the PROPORTION column adds up to 1 |
| Selection.SlotTargetsSum | model/model.py:70-72 | the bin targets `PROPORTION * num` add up to `num` |
| Selection.SlotsSum | model/model.py:72-73 | the apportioned NUM column adds up to `num` |
| Selection.TargetBelowSize | model/model.py:70-72 | with `num < n`, each bin's target is below its COUNT |
| Selection.SlotFits | model/model.py:72-79 | each NUM lies in `[0, COUNT]`, so `iloc[:NUM]` never runs short |
| Selection.HeadIsPrefix | model/model.py:79 | `iloc[:k]` takes only funds of its group |
| Selection.TakeTopSize | model/model.py:77-83 | when every slot count fits its group, the concatenation has as many funds as the slots add up to |
| Selection.BinChoiceProperties | model/model.py:64-83 | Case B chooses exactly `num` funds, each from the candidates and none more often than it occurs there |
| Selection.BinChoice | model/model.py:64-83 | the funds Case B chooses are among the candidates, none more often than it occurs there |
| Selection.BinSelect | model/model.py:64-84 | every Case B row has BUDGET `unit`; with `0 <= num < len(df)` there are `num` rows, each with the CODE of a candidate |
| Selection.ChosenAreCandidates | model/model.py:64-83 | Case B chooses `num` funds, each with the CODE of a candidate |
| Selection.BinSelectTotal | model/model.py:64-84 | Case B gives `num` rows of BUDGET `unit`, `unit * num` in total |
| Selection.GroupsFromDescending | model/model.py:78 | each group lists its funds highest RATE first |
| Selection.ChosenOutrankRest | model/model.py:78-79 | a fund chosen from a bin has a RATE at least that of any fund of the bin left out |
| Selection.FundsByType | model/model.py:50-86 | `None` exactly for budget 0; otherwise a result exactly when `unit != 0`, there are candidates and `num >= 1`; division by zero for `unit == 0` or an empty type; `pd.cut` rejects fewer than one bin |
| Selection.FundsByTypeTotal | model/model.py:55-84 | for a non-zero budget, a non-zero unit, a type with candidates and `num >= 1`, a frame is returned and its BUDGETs add up to `unit * int(budget / unit)` |
| Selection.FundsByTypeCodes | model/model.py:53-86 | under the same conditions a frame is returned, and every chosen CODE belongs to a fund of the requested type |
| Selection.ByBudget | model/model.py:89 | the type rows, permuted, highest BUDGET first |
| Selection.NonZero | model/model.py:92-93 | a row is kept exactly when its BUDGET is not zero |
| Selection.GatherOk | model/model.py:91-95 | the loop finishes exactly when every row's `get_fund_by_type` call succeeds |
| Selection.SelectOk | model/model.py:88-96 | `select` succeeds exactly when some type has a non-zero budget and every type's call succeeds |
| Selection.SelectTotal | model/model.py:88-96 | when some type has a non-zero budget and every type can be served, `select` succeeds and the concatenated BUDGETs add up to the sum over non-zero types of `unit * int(budget / unit)` |
| Selection.SpendOfMultiples | model/model.py:88-96 | for budgets that are multiples of `unit` that sum is the sum of the type budgets |
| Selection.PipelineTotal | model/model.py:40-96 | on a plannable table (positive unit, non-negative WEIGHTs adding up to 1, every TYPE present in the pool, `round(budget / unit) >= 1`) `select(get_type_budget())` succeeds and spends exactly `unit * round(budget / unit)` |
| Selection.PipelineTotalByTarget | model/model.py:40-96 | corrected: under the same conditions the pipeline on the corrected type budgets succeeds and spends the same `unit * round(budget / unit)` |
| Selection.RowsServed | model/model.py:91-95 | type rows whose budgets are non-negative multiples of a positive unit, with every TYPE present in the pool, can each be served by `get_fund_by_type` |
| Selection.SelectOfPlan | model/model.py:88-96 | type rows from a plannable table with non-negative whole-unit budgets adding up to `unit * round(budget / unit)` make `select` succeed and spend that total |
| Selection.PipelineOfPool | model/df.py:49-64 | the pool's own type table is plannable: any non-empty pool with positive VALUEs, a positive unit and `round(budget / unit) >= 1` |
| Selection.Select | model/model.py:88-96 | with every BUDGET zero `pd.concat([])` fails; any other failure is the failure of `get_fund_by_type` on some non-zero row |
| Selection.Gather | model/model.py:91-95 | a failure of the loop is the failure of `get_fund_by_type` on one of its rows |
| Params.FundParam | model/df.py:26-28 | RATE is the mean of the three rates (between their min and max, deviations cancelling), PROFIT / VALUE * 100 is RATE, VALUE is FUND_VALUE, other columns kept |
| Params.FundParams | model/df.py:24-29 | one parameter row per pool row, in order |
| Params.LexTransitive | model/df.py:52 | Python's string order, by which the groups are sorted, is transitive |
| Params.LexTotal | model/df.py:52 | and total on distinct strings |
| Params.AddFund | model/df.py:52 | adding a fund keeps the groups sorted by TYPE and adds its TYPE to their set |
| Params.AddFundSums | model/df.py:52 | adding a fund raises its own type's VALUE and PROFIT by the fund's and the totals likewise, no other type changes |
| Params.GroupByType | model/df.py:52 | the groups are strictly sorted by TYPE, one per distinct TYPE, and their VALUE and PROFIT totals are the pool's |
| Params.GroupSums | model/df.py:52 | each type's group holds the sums of VALUE and PROFIT over that type's funds |
| Params.TypeParamsOnePerType | model/df.py:49-64 | one row per distinct TYPE, sorted, holding that type's sums |
| Params.TypeTotals | model/df.py:52 | the type VALUEs and PROFITs add up to the pool totals |
| Params.TypeRowOfFunds | model/df.py:52-54 | a type row's RATE is its PROFIT over its positive VALUE |
| Params.TypeRateIsWeightedMean | model/df.py:26-54 | a type's RATE is the VALUE-weighted mean of its funds' RATEs, divided by 100 |
| Params.TypeParams | model/df.py:49-64 | every type row has a positive VALUE, RATE = PROFIT / VALUE and a WEIGHT in `(0, 1]` |
| Params.Softmax | model/df.py:61-62 | one RATE_WEIGHT per type; `SoftmaxNormalised` and `SoftmaxOrder` state its values |
| Params.WeightsNormalised | model/df.py:56 | each WEIGHT lies in `(0, 1]`, there are rows exactly when there are funds, and the WEIGHTs add up to 1 |
| Params.SoftmaxNormalised | model/df.py:61-62 | softmax entries are positive and add up to 1 |
| Params.SoftmaxOrder | model/df.py:59-62 | softmax preserves and reflects order: `w[i] < w[j]` exactly when `x[i] < x[j]` |
| Params.RateWeightProperties | model/df.py:59-62 | RATE_WEIGHT entries are positive, add up to 1, and are ordered exactly as `RATE * WEIGHT` |
| CompanyName.Strip | pool/df.py:96 | `str.strip()` leaves no whitespace at either end |
| CompanyName.StripKeepsPiece | pool/df.py:96 | what `strip` keeps is one contiguous piece of the text, after the leading whitespace |
| CompanyName.StripCutsSpace | pool/df.py:96 | what `strip` removes on either side is whitespace |
| CompanyName.Close | pool/df.py:96 | the `)` that ends a lazy `\(.*?\)` match: the nearest `)` with no newline before it; -1 exactly when every `)` from there on has a newline before it |
| CompanyName.StripParens | pool/df.py:96 | the substitution never lengthens the name and introduces no character |
| CompanyName.NoParenUnchanged | pool/df.py:96 | a name without an ASCII `(` is unchanged |
| CompanyName.StripParensLeavesNoGroup | pool/df.py:96 | on a single line, no `(` that a `)` follows survives |
| CompanyName.RemoveSuffixNoMatch | pool/df.py:85-91 | without a matching suffix the text comes back unchanged |
| CompanyName.RemoveSuffix | pool/df.py:85-91 | `remove_suffix` over the listed suffixes `Suffixes`, in source order: the text comes back unchanged or stripped at both ends |
| CompanyName.SuffixesLongestFirst | pool/df.py:73-83 | in the listed order, a suffix that ends another listed suffix comes after it |
| CompanyName.RemoveSuffixFirstMatch | pool/df.py:85-90 | when the first matching suffix is `x`, the text is `p + x` and the result is `p.strip()` |
| CompanyName.LongestMatchWins | pool/df.py:73-90 | with the listed order, the suffix removed is the longest listed suffix the name ends with |
| CompanyName.ShortName | pool/df.py:96-98 | a short name has no whitespace at either end |
| CompanyName.ShortNames | pool/df.py:93-101 | one short name per company name, in the same order |
| CompanyName.ShortNameExample | pool/df.py:73-98 | "南方基金管理股份有限公司" becomes "南方", not "南方基金管理" |
| CompanyName.ShortNameRemarkExample | pool/df.py:73-98 | "摩根士丹利基金管理(中国)有限公司" becomes "摩根士丹利" |
| Buckets.CountBucket | fundrate/summary.py:35-51 | one count more than there are boundaries (what each count holds is `Counts`, summed by `ProfitBucketsSum` and `LossBucketsSum`) |
| Buckets.ProfitLossSum | fundrate/summary.py:69-74 | `profit_num + loss_num == num` |
| Buckets.ProfitNum | fundrate/summary.py:71 | `len(df[df >= 0])` lies between 0 and the number of returns |
| Buckets.LossNum | fundrate/summary.py:74 | `len(df[df < 0])` lies between 0 and the number of returns |
| Buckets.ProfitBucketsSum | fundrate/summary.py:46-71 | for sorted non-negative boundaries the gain buckets add up to `profit_num` |
| Buckets.LossBucketsSum | fundrate/summary.py:44-74 | for sorted non-negative boundaries the loss buckets add up to `loss_num` |
| Buckets.SomeBucket | fundrate/summary.py:46-49 | a value at or above 0 lies in some bucket `[b_i, b_{i+1})` |
| Buckets.OnlyBucket | fundrate/summary.py:46-49 | and in no other bucket |
| Buckets.LossInterval | fundrate/summary.py:44-48 | on the loss side bucket `[lo, hi)` of magnitudes is the interval `(-hi, -lo]` of returns, not the docstring's `[-hi, -lo)` (see Findings) |
| Buckets.Statistic | fundrate/summary.py:67-88 | gains and losses add up to the count, and each side's buckets add up to that side's count |
| Buckets.LossOfThree | fundrate/summary.py:39-78 | a return of exactly -3 counts in the second loss bucket, magnitudes `[3, 5)` |
| Buckets.DocumentedLossBuckets | fundrate/summary.py:39-40 | corrected: one count more than there are boundaries, counting returns in `[-hi, -lo)` |
| Buckets.DocumentedLossBucketsSum | fundrate/summary.py:39-40 | corrected: for sorted non-negative boundaries the documented loss buckets add up to `loss_num` |
| Buckets.DocumentedLossOfThree | fundrate/summary.py:39-40 | corrected: a return of exactly -3 counts in the first loss bucket `[-3%, 0)` |
| Buckets.LossBucketsAgreeOff | fundrate/summary.py:39-48 | when no loss lies exactly on a boundary, the code's loss buckets and the documented ones are equal |

## Left out

- Fetching, CSV caching with expiry, request pacing, plotting, the filtering pipeline, and the
  entry points: these are I/O and are not part of this model.
- `format`, the printing of `summarize`, and its expected-profit figures: these are reporting.
- In `_statistics`: the ratios, median, mean, standard deviation, quantiles and
  `_get_percentile_ci`. These are floating-point statistics; only the counts are modelled.
- NaN and infinity. The rates reach `_count_bucket` after `dropna()`, so the model receives
  only the remaining rates.
- `_count_bucket` copies `self.df` before filtering it. The model is purely functional, so there
  is nothing it could mutate.
- `pd.cut`'s edge arithmetic: `num` equal-width right-closed bins over the rate range, with the
  lowest edge extended by 0.1%. The model takes any labelling of the candidates instead. The
  groups are then the labelled sets in ascending label order, which is the order
  `groupby(observed=True)` keeps.
- Tie order of `argsort` and `sort_values`.
  - Sorting is modelled by a stable insertion sort.
  - The concrete `Apportion.Adjust` bumps the first of equal remainders.
  - Every property about callers uses only "key-descending permutation" and
    `IsLargestRemainder`.
- `Apportion.Adjust`: only one of the admissible tie orders is computed. The properties are stated
  for every result satisfying `IsLargestRemainder`, and `Adjust` is shown to be one of them.
- `Params.TypeParams`: requires every fund VALUE to be positive. With a zero total pandas
  produces infinity or NaN, which reals cannot represent.
- `CompanyName.IsSpace`: covers the characters Python's `str.isspace` accepts. Full-width
  brackets `（ ）` are not ASCII parentheses, so the substitution leaves them, as the source does.
- `CompanyName.StripParens`: models `re.sub` with the lazy pattern on one string. The regular
  expression engine itself is not modelled.
- Buckets: the boundaries are reals, and `math.inf` is the `Infinity` edge. The source passes
  integers, which compare like reals.

## Findings

| source | as written | input that shows it | evidently intended | confidence | as-written member | corrected member |
|---|---|---|---|---|---|---|
| model/model.py:45-47 | The targets are sorted descending and apportioned. The resulting array is then assigned positionally to `df`, whose rows are in TYPE order. Row `i` therefore gets the budget of the `i`-th largest target, not its own. | Types A (WEIGHT 0.25) and B (WEIGHT 0.75), budget 4, unit 1: the code gives A 3 and B 1. | Each type gets the apportionment of its own target: A 1 and B 3. | not executed | TypeBudget.SwappedBudgets | TypeBudget.ByTargetExample |
| fundrate/summary.py:39-48 | The docstring of `_count_bucket` gives the loss intervals as `[-3%, 0), [-5%, -3%), ..., (-inf, -20%)`, closed at the end farther from zero. The code negates the losses (`-df[df < 0]`) and counts the magnitudes in `[lo, hi)`, so it counts returns in `(-hi, -lo]`, closed at the end nearer zero. | One return of -3 with the boundaries `[3, 5, 10, 20]`: the code counts it in the second loss bucket, `[0, 1, 0, 0, 0]`. | As documented, -3 lies in `[-3%, 0)`, the first loss bucket: `[1, 0, 0, 0, 0]`. | not executed | Buckets.LossOfThree | Buckets.DocumentedLossOfThree |

The corrected definition is `TypeBudget.BudgetsByTarget`. It apportions the targets in row order.

- `TypeBudget.ByTargetWithinUnit` proves that each type's budget lies within one unit of
  its own share.
- `TypeBudget.ByTargetTotal` proves that the total is unchanged.
- `Selection.PipelineTotalByTarget` proves that the whole pipeline then spends the same total.
- `TypeBudget.BudgetFollowsRank` states what the code as written guarantees instead.

For the loss buckets, `Buckets.DocumentedLossBuckets` counts the returns in `[-hi, -lo)` directly.

- `Buckets.DocumentedLossBucketsSum` proves that these buckets, too, add up to `loss_num`.
- `Buckets.LossBucketsAgreeOff` proves that the two versions differ only for losses exactly on a
  boundary.
- `Buckets.Statistic` keeps the counts the code computes. Which of the two the authors meant is
  open, since the docstring is the only statement of intent.
