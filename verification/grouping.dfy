/** The grouping step of `get_fund_by_type` (model/model.py): `pd.cut` labels every
    candidate with an interval, `groupby("RATE_BIN", observed=True)` keeps the
    non-empty intervals in ascending order, and each group lists its candidates in
    their ranked order. The labelling itself is a parameter `bin`; the groups it
    induces always partition the candidates. */
module Grouping {
  import opened Sums
  import opened Params

  /** The candidates of `s` that carry label `b`, in their order in `s`. */
  function Group(s: seq<Fund>, bin: Fund -> nat, b: nat): (g: seq<Fund>)
    ensures forall f :: f in g ==> f in s && bin(f) == b
  {
    if |s| == 0 then []
    else (if bin(s[0]) == b then [s[0]] else []) + Group(s[1..], bin, b)
  }

  /** The candidates of `s` whose label lies in `[lo, hi)`, in their order in `s`. */
  function Within(s: seq<Fund>, bin: Fund -> nat, lo: nat, hi: nat): seq<Fund>
  {
    if |s| == 0 then []
    else (if lo <= bin(s[0]) < hi then [s[0]] else []) + Within(s[1..], bin, lo, hi)
  }

  /** One more than the largest label in `s`: every label lies below it. */
  function LabelBound(s: seq<Fund>, bin: Fund -> nat): (m: nat)
    ensures forall i :: 0 <= i < |s| ==> bin(s[i]) < m
  {
    if |s| == 0 then 0
    else
      var rest := LabelBound(s[1..], bin);
      assert forall i :: 1 <= i < |s| ==> s[i] == s[1..][i - 1];
      if bin(s[0]) + 1 > rest then bin(s[0]) + 1 else rest
  }

  /** The non-empty groups with labels in `[lo, hi)`, in ascending label order. */
  function GroupsFrom(s: seq<Fund>, bin: Fund -> nat, lo: nat, hi: nat): (gs: seq<seq<Fund>>)
    ensures forall j :: 0 <= j < |gs| ==> |gs[j]| > 0
    decreases hi - lo
  {
    if lo >= hi then []
    else
      var g := Group(s, bin, lo);
      (if |g| > 0 then [g] else []) + GroupsFrom(s, bin, lo + 1, hi)
  }

  /** `groupby("RATE_BIN", observed=True)`: every non-empty group, lowest label first. */
  function Bins(s: seq<Fund>, bin: Fund -> nat): (gs: seq<seq<Fund>>)
    ensures forall j :: 0 <= j < |gs| ==> |gs[j]| > 0
  {
    GroupsFrom(s, bin, 0, LabelBound(s, bin))
  }

  function Flatten(gs: seq<seq<Fund>>): seq<Fund>
  {
    if |gs| == 0 then [] else gs[0] + Flatten(gs[1..])
  }

  /** The sizes of the groups, the COUNT column of `df_bin`. */
  function Sizes(gs: seq<seq<Fund>>): (c: seq<int>)
    ensures |c| == |gs|
    ensures forall j :: 0 <= j < |gs| ==> c[j] == |gs[j]|
  {
    seq(|gs|, j requires 0 <= j < |gs| => |gs[j]|)
  }

  lemma {:induction false} FlattenAppend(a: seq<seq<Fund>>, b: seq<seq<Fund>>)
    ensures Flatten(a + b) == Flatten(a) + Flatten(b)
  {
    if |a| == 0 {
      assert a + b == b;
    } else {
      assert (a + b)[1..] == a[1..] + b;
      FlattenAppend(a[1..], b);
    }
  }

  /** The label-`lo` group splits off the front of the range `[lo, hi)`. */
  lemma {:induction false} WithinSplit(s: seq<Fund>, bin: Fund -> nat, lo: nat, hi: nat)
    requires lo < hi
    ensures multiset(Within(s, bin, lo, hi)) == multiset(Group(s, bin, lo)) + multiset(Within(s, bin, lo + 1, hi))
  {
    if |s| > 0 {
      WithinSplit(s[1..], bin, lo, hi);
    }
  }

  /** With every label below `hi`, the range `[0, hi)` keeps every candidate. */
  lemma {:induction false} WithinAll(s: seq<Fund>, bin: Fund -> nat, hi: nat)
    requires forall i :: 0 <= i < |s| ==> bin(s[i]) < hi
    ensures Within(s, bin, 0, hi) == s
  {
    if |s| > 0 {
      assert forall i :: 1 <= i < |s| ==> s[i] == s[1..][i - 1];
      WithinAll(s[1..], bin, hi);
    }
  }

  /** The groups of the range `[lo, hi)` hold exactly the candidates labelled in it. */
  lemma {:induction false} GroupsCover(s: seq<Fund>, bin: Fund -> nat, lo: nat, hi: nat)
    ensures multiset(Flatten(GroupsFrom(s, bin, lo, hi))) == multiset(Within(s, bin, lo, hi))
    decreases hi - lo
  {
    if lo >= hi {
      EmptyRange(s, bin, lo, hi);
    } else {
      var g := Group(s, bin, lo);
      var head: seq<seq<Fund>> := if |g| > 0 then [g] else [];
      GroupsCover(s, bin, lo + 1, hi);
      FlattenAppend(head, GroupsFrom(s, bin, lo + 1, hi));
      assert Flatten(head) == g by {
        if |g| > 0 {
          assert head[1..] == [];
        }
      }
      WithinSplit(s, bin, lo, hi);
    }
  }

  lemma {:induction false} EmptyRange(s: seq<Fund>, bin: Fund -> nat, lo: nat, hi: nat)
    requires lo >= hi
    ensures Within(s, bin, lo, hi) == []
  {
    if |s| > 0 {
      EmptyRange(s[1..], bin, lo, hi);
    }
  }

  /** The groups partition the candidates: together they hold each candidate exactly
      as often as `s` does. */
  lemma BinsPartition(s: seq<Fund>, bin: Fund -> nat)
    ensures multiset(Flatten(Bins(s, bin))) == multiset(s)
  {
    GroupsCover(s, bin, 0, LabelBound(s, bin));
    WithinAll(s, bin, LabelBound(s, bin));
  }

  /** The group sizes add up to the number of candidates grouped. */
  lemma {:induction false} SizesSum(gs: seq<seq<Fund>>)
    ensures SumI(Sizes(gs)) == |Flatten(gs)|
  {
    if |gs| > 0 {
      assert Sizes(gs)[1..] == Sizes(gs[1..]);
      SizesSum(gs[1..]);
    }
  }
}
