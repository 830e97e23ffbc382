// Python's `collections.Counter` as the NLP code uses it: tallying a token sequence in
// first-occurrence order and `most_common(n)`, whose ties keep that order.
module Counter {

  /** Occurrences of `x` in `s`. */
  function Count<T(==,!new)>(s: seq<T>, x: T): (n: nat)
    ensures n <= |s|
    ensures n == 0 <==> x !in s
  {
    if s == [] then 0
    else
      assert s == s[..|s| - 1] + [s[|s| - 1]];
      Count(s[..|s| - 1], x) + (if s[|s| - 1] == x then 1 else 0)
  }

  /** Counting in a sequence extended by one element. */
  lemma CountAppend<T(!new)>(s: seq<T>, y: T, x: T)
    ensures Count(s + [y], x) == Count(s, x) + (if y == x then 1 else 0)
  {
    assert (s + [y])[..|s|] == s;
  }

  /** `[x for x in s if keep(x)]`. */
  function Filter<T(==,!new)>(s: seq<T>, keep: T -> bool): (r: seq<T>)
    ensures |r| <= |s|
    ensures forall i :: 0 <= i < |r| ==> keep(r[i]) && r[i] in s
  {
    if s == [] then []
    else
      assert s == s[..|s| - 1] + [s[|s| - 1]];
      Filter(s[..|s| - 1], keep) + (if keep(s[|s| - 1]) then [s[|s| - 1]] else [])
  }

  /** A kept element is kept as often as it occurs; nothing else is kept. */
  lemma {:induction false} FilterCount<T(!new)>(s: seq<T>, keep: T -> bool, x: T)
    ensures Count(Filter(s, keep), x) == if keep(x) then Count(s, x) else 0
  {
    if s != [] {
      var init := s[..|s| - 1];
      var y := s[|s| - 1];
      assert s == init + [y];
      assert Filter(s, keep) == Filter(init, keep) + (if keep(y) then [y] else []);
      FilterCount(init, keep, x);
      CountAppend(init, y, x);
      if keep(y) {
        CountAppend(Filter(init, keep), y, x);
      } else {
        assert Filter(s, keep) == Filter(init, keep);
      }
    }
  }

  /** The distinct elements of `s`, each where it first occurs. */
  function Distinct<T(==,!new)>(s: seq<T>): (d: seq<T>)
    ensures forall x :: x in d <==> x in s
    ensures forall i, j :: 0 <= i < j < |d| ==> d[i] != d[j]
  {
    if s == [] then []
    else
      var d := Distinct(s[..|s| - 1]);
      assert s == s[..|s| - 1] + [s[|s| - 1]];
      if s[|s| - 1] in d then d else d + [s[|s| - 1]]
  }

  /** `len(set(s))`: the number of distinct elements. */
  lemma {:induction false} SetSizeIsDistinct<T(!new)>(s: seq<T>)
    ensures |set x | x in s| == |Distinct(s)|
    ensures |Distinct(s)| <= |s|
  {
    if s != [] {
      var init := s[..|s| - 1];
      var y := s[|s| - 1];
      assert s == init + [y];
      SetSizeIsDistinct(init);
      if y in init {
        assert (set x | x in s) == (set x | x in init);
      } else {
        assert (set x | x in s) == (set x | x in init) + {y};
        assert y !in (set x | x in init);
      }
    }
  }

  /** `len(set(s)) == len(s)` exactly when no element repeats. */
  lemma {:induction false} DistinctFull<T(!new)>(s: seq<T>)
    ensures |Distinct(s)| == |s| <==> Distinct(s) == s
  {
    if s != [] {
      var init := s[..|s| - 1];
      var y := s[|s| - 1];
      assert s == init + [y];
      SetSizeIsDistinct(init);
      DistinctFull(init);
      if |Distinct(s)| == |s| {
        assert y !in Distinct(init);
        assert Distinct(init) == init;
      }
    }
  }

  /** The keys of a tally, in order. */
  function Keys<T(!new)>(es: seq<(T, nat)>): (ks: seq<T>)
    ensures |ks| == |es| && forall i :: 0 <= i < |es| ==> ks[i] == es[i].0
  {
    if es == [] then [] else [es[0].0] + Keys(es[1..])
  }

  predicate DistinctKeys<T(==,!new)>(es: seq<(T, nat)>)
  {
    forall i, j :: 0 <= i < j < |es| ==> es[i].0 != es[j].0
  }

  /** `counter[x] += 1` on the tally `es`: a known key is incremented in place, a new one appended. */
  function Bump<T(==,!new)>(es: seq<(T, nat)>, x: T): (b: seq<(T, nat)>)
    ensures |b| == if x in Keys(es) then |es| else |es| + 1
  {
    if es == [] then [(x, 1)]
    else if es[0].0 == x then [(x, es[0].1 + 1)] + es[1..]
    else
      assert Keys(es) == [es[0].0] + Keys(es[1..]);
      [es[0]] + Bump(es[1..], x)
  }

  /** `Counter(s)`: each distinct element with its count, in first-occurrence order. */
  function Tally<T(==,!new)>(s: seq<T>): seq<(T, nat)>
  {
    if s == [] then [] else Bump(Tally(s[..|s| - 1]), s[|s| - 1])
  }

  lemma {:induction false} BumpKeys<T(!new)>(es: seq<(T, nat)>, x: T)
    ensures Keys(Bump(es, x)) == if x in Keys(es) then Keys(es) else Keys(es) + [x]
  {
    if es != [] && es[0].0 != x {
      BumpKeys(es[1..], x);
      assert Keys(es) == [es[0].0] + Keys(es[1..]);
      assert Keys(Bump(es, x)) == [es[0].0] + Keys(Bump(es[1..], x));
    }
  }

  /** Bumping adds one to the count of `x` and to nothing else. */
  lemma {:induction false} BumpCounts<T(!new)>(es: seq<(T, nat)>, x: T)
    requires DistinctKeys(es)
    ensures var b := Bump(es, x);
      forall i :: 0 <= i < |b| ==>
        b[i].1 == (if i < |es| then es[i].1 else 0) + (if b[i].0 == x then 1 else 0)
  {
    if es != [] && es[0].0 != x {
      BumpCounts(es[1..], x);
      var b := Bump(es, x);
      assert b == [es[0]] + Bump(es[1..], x);
      forall i | 0 <= i < |b|
        ensures b[i].1 == (if i < |es| then es[i].1 else 0) + (if b[i].0 == x then 1 else 0)
      {
        if i > 0 { assert b[i] == Bump(es[1..], x)[i - 1]; }
      }
    } else if es != [] {
      var b := Bump(es, x);
      forall i | 1 <= i < |b|
        ensures b[i].0 != x
      {
        assert b[i] == es[i];
      }
    }
  }

  /** A tally lists the distinct elements in first-occurrence order, each with its count. */
  lemma {:induction false} TallyMeans<T(!new)>(s: seq<T>)
    ensures Keys(Tally(s)) == Distinct(s)
    ensures DistinctKeys(Tally(s))
    ensures forall i :: 0 <= i < |Tally(s)| ==> Tally(s)[i].1 == Count(s, Tally(s)[i].0)
  {
    if s != [] {
      var init := s[..|s| - 1];
      var y := s[|s| - 1];
      TallyMeans(init);
      var t := Tally(init);
      var b := Tally(s);
      assert b == Bump(t, y);
      BumpKeys(t, y);
      BumpCounts(t, y);
      assert Keys(b) == Distinct(s);
      forall i, j | 0 <= i < j < |b|
        ensures b[i].0 != b[j].0
      {
        assert Keys(b)[i] == b[i].0 && Keys(b)[j] == b[j].0;
      }
      forall i | 0 <= i < |b|
        ensures b[i].1 == Count(s, b[i].0)
      {
        assert Keys(b)[i] == b[i].0;
        if i >= |t| {
          assert b[i].0 == y && y !in init;
        }
      }
    }
  }

  /** The sum of a tally's counts. */
  function Total<T(!new)>(es: seq<(T, nat)>): nat
  {
    if es == [] then 0 else es[0].1 + Total(es[1..])
  }

  lemma {:induction false} BumpTotal<T(!new)>(es: seq<(T, nat)>, x: T)
    ensures Total(Bump(es, x)) == Total(es) + 1
  {
    if es != [] && es[0].0 != x {
      BumpTotal(es[1..], x);
      assert Bump(es, x)[1..] == Bump(es[1..], x);
    } else if es != [] {
      assert Bump(es, x)[1..] == es[1..];
    }
  }

  /** `sum(Counter(s).values()) == len(s)`. */
  lemma {:induction false} TallyTotal<T(!new)>(s: seq<T>)
    ensures Total(Tally(s)) == |s|
  {
    if s != [] {
      TallyTotal(s[..|s| - 1]);
      BumpTotal(Tally(s[..|s| - 1]), s[|s| - 1]);
    }
  }

  // ------------------------------------------------------------------ most_common

  predicate SortedByCount<T(!new)>(s: seq<(T, nat)>)
  {
    forall i, j :: 0 <= i < j < |s| ==> s[i].1 >= s[j].1
  }

  /** The entries of `s` whose count is `f`, in order. */
  function WithCount<T(!new)>(s: seq<(T, nat)>, f: nat): (r: seq<(T, nat)>)
    ensures |r| <= |s|
  {
    if s == [] then [] else (if s[0].1 == f then [s[0]] else []) + WithCount(s[1..], f)
  }

  lemma {:induction false} WithCountAppend<T(!new)>(a: seq<(T, nat)>, b: seq<(T, nat)>, f: nat)
    ensures WithCount(a + b, f) == WithCount(a, f) + WithCount(b, f)
  {
    if a == [] {
      assert a + b == b;
    } else {
      var head := if a[0].1 == f then [a[0]] else [];
      assert (a + b)[0] == a[0];
      assert (a + b)[1..] == a[1..] + b;
      WithCountAppend(a[1..], b, f);
      calc {
        WithCount(a + b, f);
        head + WithCount(a[1..] + b, f);
        head + (WithCount(a[1..], f) + WithCount(b, f));
        (head + WithCount(a[1..], f)) + WithCount(b, f);
      }
    }
  }

  lemma {:induction false} WithCountNone<T(!new)>(s: seq<(T, nat)>, f: nat)
    requires forall i :: 0 <= i < |s| ==> s[i].1 < f
    ensures WithCount(s, f) == []
  {
    if s != [] {
      WithCountNone(s[1..], f);
    }
  }

  /** Place `x` after every entry counted at least as often: the stable descending insertion. */
  function Insert<T(!new)>(x: (T, nat), s: seq<(T, nat)>): (r: seq<(T, nat)>)
    ensures |r| == |s| + 1
    ensures forall e :: e in r <==> e == x || e in s
  {
    if s == [] then [x]
    else if s[0].1 >= x.1 then [s[0]] + Insert(x, s[1..])
    else [x] + s
  }

  /** `sorted(es, key=count, reverse=True)`, which keeps equal counts in their original order. */
  function SortByCount<T(!new)>(es: seq<(T, nat)>): (r: seq<(T, nat)>)
    ensures |r| == |es|
    ensures forall e :: e in r <==> e in es
  {
    if es == [] then []
    else
      assert es == es[..|es| - 1] + [es[|es| - 1]];
      Insert(es[|es| - 1], SortByCount(es[..|es| - 1]))
  }

  lemma {:induction false} InsertSorted<T(!new)>(x: (T, nat), s: seq<(T, nat)>)
    requires SortedByCount(s)
    ensures SortedByCount(Insert(x, s))
    ensures WithCount(Insert(x, s), x.1) == WithCount(s, x.1) + [x]
    ensures forall f :: f != x.1 ==> WithCount(Insert(x, s), f) == WithCount(s, f)
  {
    if s != [] {
      if s[0].1 >= x.1 {
        InsertSorted(x, s[1..]);
        var r := Insert(x, s);
        assert r == [s[0]] + Insert(x, s[1..]);
        forall i, j | 0 <= i < j < |r|
          ensures r[i].1 >= r[j].1
        {
          if i == 0 {
            assert r[j] in Insert(x, s[1..]);
            assert r[j] == x || r[j] in s[1..];
          }
        }
      } else {
        WithCountNone(s, x.1);
      }
    }
  }

  /** The sort orders by count and, within one count, keeps the original order. */
  lemma {:induction false} SortByCountStable<T(!new)>(es: seq<(T, nat)>)
    ensures SortedByCount(SortByCount(es))
    ensures forall f :: WithCount(SortByCount(es), f) == WithCount(es, f)
  {
    if es != [] {
      var init := es[..|es| - 1];
      var x := es[|es| - 1];
      assert es == init + [x];
      SortByCountStable(init);
      InsertSorted(x, SortByCount(init));
      forall f
        ensures WithCount(SortByCount(es), f) == WithCount(es, f)
      {
        WithCountAppend(init, [x], f);
      }
    }
  }

  lemma {:induction false} InsertKeys<T(!new)>(x: (T, nat), s: seq<(T, nat)>)
    requires DistinctKeys(s) && x.0 !in Keys(s)
    ensures DistinctKeys(Insert(x, s))
  {
    if s != [] && s[0].1 >= x.1 {
      assert Keys(s) == [s[0].0] + Keys(s[1..]);
      InsertKeys(x, s[1..]);
      var r := Insert(x, s);
      forall j | 0 < j < |r|
        ensures r[0].0 != r[j].0
      {
        assert r[j] in Insert(x, s[1..]);
        if r[j] != x {
          var k :| 0 <= k < |s[1..]| && s[1..][k] == r[j];
          assert s[k + 1] == r[j];
        }
      }
    } else if s != [] {
      var r := Insert(x, s);
      forall j | 0 < j < |r|
        ensures r[0].0 != r[j].0
      {
        assert r[j] == s[j - 1] && Keys(s)[j - 1] == r[j].0;
      }
    }
  }

  lemma {:induction false} SortKeepsDistinctKeys<T(!new)>(es: seq<(T, nat)>)
    requires DistinctKeys(es)
    ensures DistinctKeys(SortByCount(es))
  {
    if es != [] {
      var init := es[..|es| - 1];
      var x := es[|es| - 1];
      SortKeepsDistinctKeys(init);
      var sorted := SortByCount(init);
      forall k | 0 <= k < |sorted|
        ensures Keys(sorted)[k] != x.0
      {
        assert sorted[k] in init;
        var m :| 0 <= m < |init| && init[m] == sorted[k];
        assert es[m] == sorted[k];
      }
      InsertKeys(x, SortByCount(init));
    }
  }

  /** `most_common(n)`: the first `n` entries of the stable descending sort. */
  function MostCommon<T(!new)>(es: seq<(T, nat)>, n: nat): (r: seq<(T, nat)>)
    ensures |r| == if n < |es| then n else |es|
    ensures r <= SortByCount(es)
  {
    var sorted := SortByCount(es);
    sorted[..if n < |sorted| then n else |sorted|]
  }

  /** Every entry of a sequence of entries is an element of `s` with its true count. */
  predicate TrueCounts<T(==,!new)>(es: seq<(T, nat)>, s: seq<T>)
  {
    forall i :: 0 <= i < |es| ==> es[i].0 in s && es[i].1 == Count(s, es[i].0)
  }

  /** The sorted tally keeps the true counts of the tally. */
  lemma SortedTallyCounts<T(!new)>(s: seq<T>)
    ensures TrueCounts(SortByCount(Tally(s)), s)
  {
    var t := Tally(s);
    TallyMeans(s);
    var sorted := SortByCount(t);
    forall i | 0 <= i < |sorted|
      ensures sorted[i].0 in s && sorted[i].1 == Count(s, sorted[i].0)
    {
      assert sorted[i] in t;
      var k :| 0 <= k < |t| && t[k] == sorted[i];
      assert Keys(t)[k] == sorted[i].0;
    }
  }

  /** Every element of `s` is a key of the sorted tally. */
  lemma SortedTallyCovers<T(!new)>(s: seq<T>, x: T)
    requires x in s
    ensures x in Keys(SortByCount(Tally(s)))
  {
    var t := Tally(s);
    TallyMeans(s);
    var sorted := SortByCount(t);
    assert x in Keys(t);
    var k :| 0 <= k < |t| && Keys(t)[k] == x;
    assert t[k] in sorted;
    var m :| 0 <= m < |sorted| && sorted[m] == t[k];
    assert Keys(sorted)[m] == x;
  }

  /** The sorted tally is sorted, has distinct keys and one entry per distinct element. */
  lemma SortedTallyShape<T(!new)>(s: seq<T>)
    ensures var sorted := SortByCount(Tally(s));
      DistinctKeys(sorted) && SortedByCount(sorted) && |sorted| == |Distinct(s)|
  {
    TallyMeans(s);
    SortByCountStable(Tally(s));
    SortKeepsDistinctKeys(Tally(s));
    assert |Keys(Tally(s))| == |Tally(s)|;
  }

  /** The first `n` entries of the sorted tally keep its shape and its true counts. */
  lemma MostCommonEntries<T(!new)>(s: seq<T>, n: nat)
    ensures var r := MostCommon(Tally(s), n);
      |r| == (if n < |Distinct(s)| then n else |Distinct(s)|)
      && SortedByCount(r) && DistinctKeys(r) && TrueCounts(r, s)
  {
    SortedTallyShape(s);
    SortedTallyCounts(s);
    var sorted := SortByCount(Tally(s));
    var r := MostCommon(Tally(s), n);
    assert r == sorted[..|r|];
  }

  /** The key of every entry before `k` is a key of the prefix of length `k`. */
  lemma KeyInPrefix<T(!new)>(es: seq<(T, nat)>, k: nat, m: nat)
    requires k <= |es| && m < |es|
    ensures m < k ==> es[m].0 in Keys(es[..k])
  {
    if m < k {
      assert Keys(es[..k])[m] == es[m].0;
    }
  }

  /** An element missing from `most_common(n)` is counted no more often than the last one listed. */
  lemma MostCommonComplete<T(!new)>(s: seq<T>, n: nat, x: T)
    requires x in s && x !in Keys(MostCommon(Tally(s), n))
    ensures |MostCommon(Tally(s), n)| == n
    ensures 0 < n ==> Count(s, x) <= MostCommon(Tally(s), n)[n - 1].1
  {
    var sorted := SortByCount(Tally(s));
    var r := MostCommon(Tally(s), n);
    SortedTallyCovers(s, x);
    var m :| 0 <= m < |sorted| && Keys(sorted)[m] == x;
    assert r == sorted[..|r|];
    KeyInPrefix(sorted, |r|, m);
    assert sorted[m].0 == x;
    if 0 < n {
      assert sorted[m].1 == Count(s, x) by {
        SortedTallyCounts(s);
        assert sorted[m].0 == Keys(sorted)[m];
      }
      assert sorted[n - 1].1 >= sorted[m].1 by {
        SortedTallyShape(s);
        assert SortedByCount(sorted);
        assert 0 <= n - 1 < m < |sorted|;
      }
      assert r[n - 1] == sorted[n - 1];
    }
  }

  /**
   * `Counter(s).most_common(n)`: at most `n` distinct elements with their true counts, in
   * non-increasing count order; an element left out is counted no more often than the last
   * one listed, and then the list is full.
   */
  lemma MostCommonOfTally<T(!new)>(s: seq<T>, n: nat)
    ensures var r := MostCommon(Tally(s), n);
      |r| == (if n < |Distinct(s)| then n else |Distinct(s)|)
      && SortedByCount(r) && DistinctKeys(r)
      && (forall i :: 0 <= i < |r| ==> r[i].0 in s && r[i].1 == Count(s, r[i].0))
      && (forall x :: x in s && x !in Keys(r) ==> |r| == n && (0 < n ==> Count(s, x) <= r[n - 1].1))
  {
    MostCommonEntries(s, n);
    forall x | x in s && x !in Keys(MostCommon(Tally(s), n))
      ensures |MostCommon(Tally(s), n)| == n
      ensures 0 < n ==> Count(s, x) <= MostCommon(Tally(s), n)[n - 1].1
    {
      MostCommonComplete(s, n, x);
    }
  }

  lemma {:induction false} WithCountPrefix<T(!new)>(a: seq<(T, nat)>, b: seq<(T, nat)>, f: nat)
    requires a <= b
    ensures WithCount(a, f) <= WithCount(b, f)
  {
    assert b == a + b[|a|..];
    WithCountAppend(a, b[|a|..], f);
  }

  /**
   * Ties in `most_common(n)`: the entries listed with any one count are the first entries of
   * the tally with that count, in the tally's (first-occurrence) order.
   */
  lemma MostCommonTies<T(!new)>(es: seq<(T, nat)>, n: nat, f: nat)
    ensures WithCount(MostCommon(es, n), f) <= WithCount(es, f)
  {
    SortByCountStable(es);
    WithCountPrefix(MostCommon(es, n), SortByCount(es), f);
  }
}
