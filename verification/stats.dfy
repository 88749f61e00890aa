/**
 * The column statistics the cleaner and the feature deriver call on:
 * `Series.median()`, `Series.quantile(0.99)` (numpy's linear
 * interpolation) and `Series.mode()[0]`, each over the non-missing values
 * of a column, computed exactly over the reals.
 */
module Stats {
  import opened Wrappers
  import opened Text

  predicate Sorted(s: seq<real>)
  {
    forall i, j :: 0 <= i < j < |s| ==> s[i] <= s[j]
  }

  function Insert(x: real, s: seq<real>): (r: seq<real>)
    requires Sorted(s)
    ensures |r| == |s| + 1 && Sorted(r) && multiset(r) == multiset(s) + multiset{x}
    ensures r[0] == x || (s != [] && r[0] == s[0])
  {
    if s == [] then [x]
    else if x <= s[0] then
      SortedCons(x, s);
      [x] + s
    else
      var rest := Insert(x, s[1..]);
      assert s == [s[0]] + s[1..];
      SortedCons(s[0], rest);
      [s[0]] + rest
  }

  /** A value no greater than the head of a sorted sequence can go in front of it. */
  lemma SortedCons(a: real, t: seq<real>)
    requires Sorted(t) && (t == [] || a <= t[0])
    ensures Sorted([a] + t)
  {
  }

  /** The values in ascending order, as numpy sorts them before taking an order statistic. */
  function Sort(s: seq<real>): (r: seq<real>)
    ensures |r| == |s| && Sorted(r) && multiset(r) == multiset(s)
  {
    if s == [] then []
    else
      assert s == s[..|s| - 1] + [s[|s| - 1]];
      Insert(s[|s| - 1], Sort(s[..|s| - 1]))
  }

  /** Two ascending arrangements of the same values are the same sequence. */
  lemma {:induction false} SortedUnique(a: seq<real>, b: seq<real>)
    requires Sorted(a) && Sorted(b) && multiset(a) == multiset(b)
    ensures a == b
  {
    if a != [] {
      assert |b| == |multiset(b)| == |multiset(a)| == |a|;
      SortedHeads(a, b);
      assert a == [a[0]] + a[1..];
      assert b == [b[0]] + b[1..];
      assert multiset(a) == multiset(a[1..]) + multiset{a[0]};
      assert multiset(b) == multiset(b[1..]) + multiset{a[0]};
      MultisetCancel(multiset(a[1..]), multiset(b[1..]), a[0]);
      SortedUnique(a[1..], b[1..]);
    }
  }

  lemma SortedHeads(a: seq<real>, b: seq<real>)
    requires Sorted(a) && Sorted(b) && multiset(a) == multiset(b) && a != [] && b != []
    ensures a[0] == b[0]
  {
    assert a[0] in multiset(b);
    var j :| 0 <= j < |b| && b[j] == a[0];
    assert b[0] in multiset(a);
    var i :| 0 <= i < |a| && a[i] == b[0];
  }

  lemma MultisetCancel<T>(m: multiset<T>, n: multiset<T>, x: T)
    requires m + multiset{x} == n + multiset{x}
    ensures m == n
  {
    assert forall y :: m[y] == (m + multiset{x})[y] - multiset{x}[y];
    assert forall y :: n[y] == (n + multiset{x})[y] - multiset{x}[y];
  }

  /** How many values are at most x, and how many at least x. */
  function CountAtMost(s: seq<real>, x: real): (k: nat)
    ensures k <= |s|
  {
    if s == [] then 0 else CountAtMost(s[..|s| - 1], x) + (if s[|s| - 1] <= x then 1 else 0)
  }

  function CountAtLeast(s: seq<real>, x: real): (k: nat)
    ensures k <= |s|
  {
    if s == [] then 0 else CountAtLeast(s[..|s| - 1], x) + (if s[|s| - 1] >= x then 1 else 0)
  }

  lemma {:induction false} CountsAppend(a: seq<real>, b: seq<real>, x: real)
    ensures CountAtMost(a + b, x) == CountAtMost(a, x) + CountAtMost(b, x)
    ensures CountAtLeast(a + b, x) == CountAtLeast(a, x) + CountAtLeast(b, x)
  {
    if b != [] {
      assert (a + b)[..|a + b| - 1] == a + b[..|b| - 1];
      CountsAppend(a, b[..|b| - 1], x);
    } else {
      assert a + b == a;
    }
  }

  /** The counts depend on the values only, not on their order. */
  lemma {:induction false} CountsPermutation(a: seq<real>, b: seq<real>, x: real)
    requires multiset(a) == multiset(b)
    ensures CountAtMost(a, x) == CountAtMost(b, x) && CountAtLeast(a, x) == CountAtLeast(b, x)
  {
    if a != [] {
      var last := a[|a| - 1];
      assert a == a[..|a| - 1] + [last];
      assert last in multiset(b);
      var j :| 0 <= j < |b| && b[j] == last;
      assert b == b[..j] + [b[j]] + b[j + 1..];
      var rest := b[..j] + b[j + 1..];
      assert multiset(b) == multiset(rest) + multiset{last};
      assert multiset(a) == multiset(a[..|a| - 1]) + multiset{last};
      MultisetCancel(multiset(a[..|a| - 1]), multiset(rest), last);
      CountsPermutation(a[..|a| - 1], rest, x);
      CountsAppend(b[..j] + [b[j]], b[j + 1..], x);
      CountsAppend(b[..j], [b[j]], x);
      CountsAppend(b[..j], b[j + 1..], x);
    }
  }

  /** In ascending order, every value before position p is at most s[p - 1] ... */
  lemma SortedPrefixAtMost(s: seq<real>, p: nat, x: real)
    requires Sorted(s) && 0 < p <= |s| && s[p - 1] <= x
    ensures CountAtMost(s, x) >= p
  {
    assert s == s[..p] + s[p..];
    CountsAppend(s[..p], s[p..], x);
    AllAtMost(s[..p], x);
  }

  /** ... and every value from position p on is at least s[p]. */
  lemma SortedSuffixAtLeast(s: seq<real>, p: nat, x: real)
    requires Sorted(s) && p < |s| && x <= s[p]
    ensures CountAtLeast(s, x) >= |s| - p
  {
    assert s == s[..p] + s[p..];
    CountsAppend(s[..p], s[p..], x);
    AllAtLeast(s[p..], x);
  }

  lemma {:induction false} AllAtMost(s: seq<real>, x: real)
    requires forall i :: 0 <= i < |s| ==> s[i] <= x
    ensures CountAtMost(s, x) == |s|
  {
    if s != [] {
      AllAtMost(s[..|s| - 1], x);
    }
  }

  lemma {:induction false} AllAtLeast(s: seq<real>, x: real)
    requires forall i :: 0 <= i < |s| ==> x <= s[i]
    ensures CountAtLeast(s, x) == |s|
  {
    if s != [] {
      AllAtLeast(s[..|s| - 1], x);
    }
  }

  /** The middle of an ascending sequence: the middle value, or the mean of the two middle values. */
  function Middle(t: seq<real>): real
    requires t != []
  {
    var n := |t|;
    if n % 2 == 1 then t[n / 2] else (t[n / 2 - 1] + t[n / 2]) / 2.0
  }

  /**
   * `Series.median()` over the non-missing values: the middle of the values
   * in ascending order; None (NaN) when there is no value.
   */
  function Median(values: seq<real>): (m: Option<real>)
    ensures m == None <==> values == []
  {
    if values == [] then None else Some(Middle(Sort(values)))
  }

  lemma MiddleHalves(t: seq<real>)
    requires Sorted(t) && t != []
    ensures 2 * CountAtMost(t, Middle(t)) >= |t| && 2 * CountAtLeast(t, Middle(t)) >= |t|
    ensures t[0] <= Middle(t) <= t[|t| - 1]
  {
    var n := |t|;
    var m := Middle(t);
    if n % 2 == 1 {
      SortedPrefixAtMost(t, n / 2 + 1, m);
      SortedSuffixAtLeast(t, n / 2, m);
    } else {
      assert t[n / 2 - 1] <= t[n / 2];
      SortedPrefixAtMost(t, n / 2, m);
      SortedSuffixAtLeast(t, n / 2, m);
    }
  }

  /** The median splits the values in halves: at least half are at most it and at least half at least it. */
  lemma MedianHalves(values: seq<real>)
    requires values != []
    ensures 2 * CountAtMost(values, Median(values).value) >= |values|
    ensures 2 * CountAtLeast(values, Median(values).value) >= |values|
  {
    var t := Sort(values);
    MiddleHalves(t);
    CountsPermutation(values, t, Middle(t));
  }

  /** The median lies between the smallest and the largest value. */
  lemma MedianWithin(values: seq<real>)
    requires values != []
    ensures exists i :: 0 <= i < |values| && values[i] <= Median(values).value
    ensures exists j :: 0 <= j < |values| && Median(values).value <= values[j]
  {
    var t := Sort(values);
    MiddleHalves(t);
    assert t[0] in multiset(values);
    assert t[|t| - 1] in multiset(values);
  }

  /** The median depends on the values only, not on the order of the rows. */
  lemma MedianOrderFree(a: seq<real>, b: seq<real>)
    requires multiset(a) == multiset(b)
    ensures Median(a) == Median(b)
  {
    SortedUnique(Sort(a), Sort(b));
  }

  /**
   * numpy's linear interpolation on an ascending sequence at position
   * (n - 1) * 0.99: the order statistic below that position plus the
   * fractional part of the way to the one above.
   */
  function Interpolate99(t: seq<real>): real
    requires t != []
  {
    var n := |t|;
    var lo := (n - 1) * 99 / 100;
    var frac := ((n - 1) * 99 % 100) as real / 100.0;
    if lo + 1 < n then t[lo] + (t[lo + 1] - t[lo]) * frac else t[lo]
  }

  /**
   * `Series.quantile(0.99)` over the non-missing values; None (NaN) when
   * there is no value.
   */
  function Quantile99(values: seq<real>): (q: Option<real>)
    ensures q == None <==> values == []
  {
    if values == [] then None else Some(Interpolate99(Sort(values)))
  }

  lemma Interpolate99Within(t: seq<real>)
    requires Sorted(t) && t != []
    ensures t[0] <= Interpolate99(t) <= t[|t| - 1]
  {
    var n := |t|;
    InterpolationIndex(n);
    var lo := (n - 1) * 99 / 100;
    var frac := ((n - 1) * 99 % 100) as real / 100.0;
    assert 0.0 <= frac < 1.0;
    if lo + 1 < n {
      var a, b := t[lo], t[lo + 1];
      assert t[0] <= a && b <= t[n - 1];
      InterpolateBetween(a, b, frac);
      var v := a + (b - a) * frac;
      assert Interpolate99(t) == v;
      assert t[0] <= a <= v;
      assert v <= b <= t[n - 1];
    } else {
      assert t[0] <= t[lo] <= t[n - 1];
    }
  }

  /** The position (n - 1) * 0.99 splits into an index inside the list and a fraction below one. */
  lemma InterpolationIndex(n: int)
    requires n >= 1
    ensures 0 <= (n - 1) * 99 / 100 <= n - 1
    ensures 0 <= (n - 1) * 99 % 100 < 100
  {
    assert (n - 1) * 99 <= (n - 1) * 100;
  }

  /** The 99th percentile lies between the smallest and the largest value; in particular some value is not below it. */
  lemma QuantileWithin(values: seq<real>)
    requires values != []
    ensures exists i :: 0 <= i < |values| && values[i] <= Quantile99(values).value
    ensures exists j :: 0 <= j < |values| && Quantile99(values).value <= values[j]
  {
    var t := Sort(values);
    Interpolate99Within(t);
    assert t[0] in multiset(values);
    assert t[|t| - 1] in multiset(values);
  }

  lemma InterpolateBetween(a: real, b: real, f: real)
    requires a <= b && 0.0 <= f <= 1.0
    ensures a <= a + (b - a) * f <= b
  {
    assert (b - a) * f <= (b - a) * 1.0;
  }

  /** How often a text occurs. */
  function Occurrences(s: seq<string>, x: string): (k: nat)
    ensures k <= |s|
    ensures k > 0 <==> x in s
  {
    if s == [] then 0 else Occurrences(s[..|s| - 1], x) + (if s[|s| - 1] == x then 1 else 0)
  }

  /** x occurs and no text occurs more often. */
  predicate IsMostFrequent(s: seq<string>, x: string)
  {
    x in s && forall i :: 0 <= i < |s| ==> Occurrences(s, s[i]) <= Occurrences(s, x)
  }

  /** `better` beats `other` as a mode: it occurs more often, or as often and sorts first. */
  predicate Beats(s: seq<string>, better: string, other: string)
  {
    Occurrences(s, other) < Occurrences(s, better)
    || (Occurrences(s, other) == Occurrences(s, better) && LexLess(better, other))
  }

  /** The best candidate among c by occurrence count in s, ties going to the text that sorts first. */
  function Best(s: seq<string>, c: seq<string>): (b: string)
    requires c != []
    ensures b in c
    ensures forall i :: 0 <= i < |c| ==> c[i] == b || Beats(s, b, c[i])
  {
    if |c| == 1 then c[0]
    else
      var prev := Best(s, c[..|c| - 1]);
      var x := c[|c| - 1];
      if Beats(s, x, prev) then
        BeatsTransitive(s, x, prev, c[..|c| - 1]);
        x
      else
        LexLessTotal(x, prev);
        prev
  }

  lemma BeatsTransitive(s: seq<string>, x: string, prev: string, c: seq<string>)
    requires Beats(s, x, prev)
    requires forall i :: 0 <= i < |c| ==> c[i] == prev || Beats(s, prev, c[i])
    ensures forall i :: 0 <= i < |c| ==> c[i] == x || Beats(s, x, c[i])
  {
    forall i | 0 <= i < |c|
      ensures c[i] == x || Beats(s, x, c[i])
    {
      if c[i] != prev && Occurrences(s, c[i]) == Occurrences(s, prev) && Occurrences(s, prev) == Occurrences(s, x) {
        LexLessTransitive(x, prev, c[i]);
      }
    }
  }

  /**
   * `Series.mode()[0]` over the non-missing texts: pandas returns the most
   * frequent values in sorted order, so ties go to the text that Python's
   * `<` puts first; None when there is no text.
   */
  function Mode(s: seq<string>): (m: Option<string>)
    ensures m == None <==> s == []
    ensures m.Some? ==> IsMostFrequent(s, m.value)
    ensures m.Some? ==> forall i :: 0 <= i < |s| && IsMostFrequent(s, s[i]) ==> m.value == s[i] || LexLess(m.value, s[i])
  {
    if s == [] then None else Some(Best(s, s))
  }

  /** The mode depends on the multiset of texts only: any order of the same rows picks the same value. */
  lemma ModeOrderFree(a: seq<string>, b: seq<string>)
    requires multiset(a) == multiset(b)
    ensures Mode(a) == Mode(b)
  {
    if a != [] {
      assert b != [] by {
        assert a[0] in multiset(b);
      }
      var x, y := Mode(a).value, Mode(b).value;
      forall z ensures Occurrences(a, z) == Occurrences(b, z) {
        OccurrencesMultiset(a, z);
        OccurrencesMultiset(b, z);
      }
      assert x in multiset(b) && y in multiset(a);
      var i :| 0 <= i < |b| && b[i] == x;
      var j :| 0 <= j < |a| && a[j] == y;
      assert IsMostFrequent(b, x) by {
        forall k | 0 <= k < |b| ensures Occurrences(b, b[k]) <= Occurrences(b, x) {
          assert b[k] in multiset(a);
        }
      }
      assert IsMostFrequent(a, y) by {
        forall k | 0 <= k < |a| ensures Occurrences(a, a[k]) <= Occurrences(a, y) {
          assert a[k] in multiset(b);
        }
      }
      if x != y {
        LexLessAsymmetric(x, y);
      }
    }
  }

  lemma {:induction false} OccurrencesMultiset(s: seq<string>, x: string)
    ensures Occurrences(s, x) == multiset(s)[x]
  {
    if s != [] {
      assert s == s[..|s| - 1] + [s[|s| - 1]];
      OccurrencesMultiset(s[..|s| - 1], x);
    }
  }
}
