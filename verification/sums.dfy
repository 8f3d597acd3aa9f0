/** Sums over sequences of reals and integers, and the facts about them that the
    allocation proofs share: sums split over concatenation, respect pointwise order,
    are unchanged by permutation, and scale. */
module Sums {

  function SumR(s: seq<real>): real
  {
    if |s| == 0 then 0.0 else s[0] + SumR(s[1..])
  }

  function SumI(s: seq<int>): int
  {
    if |s| == 0 then 0 else s[0] + SumI(s[1..])
  }

  lemma {:induction false} SumRAppend(a: seq<real>, b: seq<real>)
    ensures SumR(a + b) == SumR(a) + SumR(b)
  {
    if |a| == 0 {
      assert a + b == b;
    } else {
      assert (a + b)[1..] == a[1..] + b;
      SumRAppend(a[1..], b);
    }
  }

  lemma {:induction false} SumIAppend(a: seq<int>, b: seq<int>)
    ensures SumI(a + b) == SumI(a) + SumI(b)
  {
    if |a| == 0 {
      assert a + b == b;
    } else {
      assert (a + b)[1..] == a[1..] + b;
      SumIAppend(a[1..], b);
    }
  }

  /** Raising one entry by `d` raises the sum by `d`. */
  lemma {:induction false} SumIUpdate(s: seq<int>, i: nat, v: int)
    requires i < |s|
    ensures SumI(s[i := v]) == SumI(s) - s[i] + v
  {
    if i > 0 {
      assert s[i := v][1..] == s[1..][i - 1 := v];
      SumIUpdate(s[1..], i - 1, v);
    }
  }

  /** Pointwise `a <= b` gives `SumR(a) <= SumR(b)`. */
  lemma {:induction false} SumRMonotone(a: seq<real>, b: seq<real>)
    requires |a| == |b|
    requires forall i :: 0 <= i < |a| ==> a[i] <= b[i]
    ensures SumR(a) <= SumR(b)
  {
    if |a| > 0 {
      SumRMonotone(a[1..], b[1..]);
    }
  }

  /** A sum of reals that all lie in `[lo, hi]` lies in `[|s| * lo, |s| * hi]`. */
  lemma {:induction false} SumRBounds(s: seq<real>, lo: real, hi: real)
    requires forall i :: 0 <= i < |s| ==> lo <= s[i] <= hi
    ensures |s| as real * lo <= SumR(s) <= |s| as real * hi
  {
    if |s| > 0 {
      SumRBounds(s[1..], lo, hi);
    }
  }

  /** Every entry of a sequence of non-negative reals is at most its sum. */
  lemma {:induction false} SumRDominates(s: seq<real>, i: nat)
    requires i < |s|
    requires forall k :: 0 <= k < |s| ==> s[k] >= 0.0
    ensures s[i] <= SumR(s)
  {
    SumRNonNegative(s[1..]);
    if i > 0 {
      SumRDominates(s[1..], i - 1);
    }
  }

  lemma {:induction false} SumRNonNegative(s: seq<real>)
    requires forall k :: 0 <= k < |s| ==> s[k] >= 0.0
    ensures SumR(s) >= 0.0
  {
    if |s| > 0 {
      SumRNonNegative(s[1..]);
    }
  }

  /** Two sequences with the same elements have the same sum. */
  lemma {:induction false} SumRPermutation(a: seq<real>, b: seq<real>)
    requires multiset(a) == multiset(b)
    ensures SumR(a) == SumR(b)
    decreases |a|
  {
    if |a| == 0 {
      assert |b| == |multiset(b)| == 0;
    } else {
      var j := MatchHead(a, b);
      SumRPermutation(a[1..], b[..j] + b[j + 1..]);
      SumRRemove(b, j);
    }
  }

  /** The first element of `a` sits at some position `j` of its permutation `b`, and
      the rest of `a` is a permutation of `b` without position `j`. */
  lemma MatchHead<T>(a: seq<T>, b: seq<T>) returns (j: nat)
    requires multiset(a) == multiset(b) && |a| > 0
    ensures j < |b| && b[j] == a[0]
    ensures multiset(a[1..]) == multiset(b[..j] + b[j + 1..])
  {
    assert a[0] in multiset(b);
    j :| 0 <= j < |b| && b[j] == a[0];
    assert a == [a[0]] + a[1..];
    assert b == b[..j] + [b[j]] + b[j + 1..];
    calc {
      multiset(a[1..]);
      multiset(a) - multiset{a[0]};
      multiset(b) - multiset{b[j]};
      { assert multiset(b) == multiset(b[..j]) + multiset{b[j]} + multiset(b[j + 1..]); }
      multiset(b[..j]) + multiset(b[j + 1..]);
      multiset(b[..j] + b[j + 1..]);
    }
  }

  /** Taking out position `j` takes `b[j]` off the sum. */
  lemma SumRRemove(b: seq<real>, j: nat)
    requires j < |b|
    ensures SumR(b) == b[j] + SumR(b[..j] + b[j + 1..])
  {
    assert b == b[..j] + [b[j]] + b[j + 1..];
    SumRAppend(b[..j] + [b[j]], b[j + 1..]);
    SumRAppend(b[..j], [b[j]]);
    SumRAppend(b[..j], b[j + 1..]);
  }

  /** A sum of non-negative integers is non-negative. */
  lemma {:induction false} SumINonNegative(s: seq<int>)
    requires forall i :: 0 <= i < |s| ==> s[i] >= 0
    ensures SumI(s) >= 0
  {
    if |s| > 0 {
      SumINonNegative(s[1..]);
    }
  }

  /** Pointwise `a[i] == b[i] + 1` gives `SumI(a) == SumI(b) + |a|`. */
  lemma {:induction false} SumIShift(a: seq<int>, b: seq<int>)
    requires |a| == |b|
    requires forall i :: 0 <= i < |a| ==> a[i] == b[i] + 1
    ensures SumI(a) == SumI(b) + |a|
  {
    if |a| > 0 {
      SumIShift(a[1..], b[1..]);
    }
  }

  /** The entrywise difference of an integer and a real sequence. */
  function Diff(a: seq<int>, b: seq<real>): (d: seq<real>)
    requires |a| == |b|
    ensures |d| == |a|
    ensures forall i :: 0 <= i < |a| ==> d[i] == a[i] as real - b[i]
  {
    seq(|a|, i requires 0 <= i < |a| => a[i] as real - b[i])
  }

  lemma {:induction false} SumDiff(a: seq<int>, b: seq<real>)
    requires |a| == |b|
    ensures SumR(Diff(a, b)) == SumI(a) as real - SumR(b)
  {
    if |a| > 0 {
      assert Diff(a, b)[1..] == Diff(a[1..], b[1..]);
      SumDiff(a[1..], b[1..]);
    }
  }

  /** Scaling every entry by `c` scales the sum by `c`. */
  lemma {:induction false} SumRScale(s: seq<real>, d: seq<real>, c: real)
    requires |d| == |s|
    requires forall i :: 0 <= i < |s| ==> d[i] == c * s[i]
    ensures SumR(d) == c * SumR(s)
  {
    if |s| > 0 {
      SumRScale(s[1..], d[1..], c);
    }
  }

  /** Scaling every entry by `c` scales the sum by `c`. */
  lemma {:induction false} SumIScale(s: seq<int>, d: seq<int>, c: int)
    requires |d| == |s|
    requires forall i :: 0 <= i < |s| ==> d[i] == c * s[i]
    ensures SumI(d) == c * SumI(s)
  {
    if |s| > 0 {
      SumIScale(s[1..], d[1..], c);
    }
  }

  /** Dividing every entry by `c` divides the sum by `c`. */
  lemma {:induction false} SumRDivide(s: seq<real>, d: seq<real>, c: real)
    requires c != 0.0 && |d| == |s|
    requires forall i :: 0 <= i < |s| ==> d[i] == s[i] / c
    ensures SumR(d) == SumR(s) / c
  {
    if |s| > 0 {
      SumRDivide(s[1..], d[1..], c);
      AddQuotients(s[0], SumR(s[1..]), c);
    }
  }

  lemma AddQuotients(a: real, b: real, c: real)
    requires c != 0.0
    ensures a / c + b / c == (a + b) / c
  {
  }

  function ToReals(s: seq<int>): (r: seq<real>)
    ensures |r| == |s|
    ensures forall i :: 0 <= i < |s| ==> r[i] == s[i] as real
  {
    seq(|s|, i requires 0 <= i < |s| => s[i] as real)
  }

  lemma {:induction false} SumToReals(s: seq<int>)
    ensures SumR(ToReals(s)) == SumI(s) as real
  {
    if |s| > 0 {
      assert ToReals(s)[1..] == ToReals(s[1..]);
      SumToReals(s[1..]);
    }
  }
}
