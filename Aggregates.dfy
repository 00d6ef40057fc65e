/**
 * Counting and summing over a filtered sequence: the SQL aggregates COUNT(*) and
 * SUM(...) under a WHERE clause, on which every performance metric is built.
 * Both are defined from the last element backwards so that they line up with
 * set comprehensions over indices.
 */
module Aggregates {

  /** The number of elements of `s` that satisfy `p`. */
  function CountWhere<T>(s: seq<T>, p: T -> bool): (n: nat)
    ensures n <= |s|
  {
    if s == [] then 0
    else CountWhere(s[..|s| - 1], p) + (if p(s[|s| - 1]) then 1 else 0)
  }

  /** The sum of `f` over the elements of `s` that satisfy `p`. */
  function SumWhere<T>(s: seq<T>, p: T -> bool, f: T -> real): real
  {
    if s == [] then 0.0
    else SumWhere(s[..|s| - 1], p, f) + (if p(s[|s| - 1]) then f(s[|s| - 1]) else 0.0)
  }

  /** The indices of `s` whose element satisfies `p`. */
  function IndicesWhere<T>(s: seq<T>, p: T -> bool): set<int>
  {
    set i | 0 <= i < |s| && p(s[i])
  }

  /** The count is the size of the filtered index set: COUNT(*) is |filter|. */
  lemma {:induction false} CountIsCardinality<T>(s: seq<T>, p: T -> bool)
    ensures CountWhere(s, p) == |IndicesWhere(s, p)|
  {
    if s != [] {
      var n := |s| - 1;
      CountIsCardinality(s[..n], p);
      var before := IndicesWhere(s[..n], p);
      if p(s[n]) {
        assert IndicesWhere(s, p) == before + {n};
      } else {
        assert IndicesWhere(s, p) == before;
      }
    }
  }

  lemma {:induction false} CountConcat<T>(a: seq<T>, b: seq<T>, p: T -> bool)
    ensures CountWhere(a + b, p) == CountWhere(a, p) + CountWhere(b, p)
  {
    if b == [] {
      assert a + b == a;
    } else {
      var n := |b| - 1;
      assert (a + b)[..|a + b| - 1] == a + b[..n];
      CountConcat(a, b[..n], p);
    }
  }

  lemma {:induction false} SumConcat<T>(a: seq<T>, b: seq<T>, p: T -> bool, f: T -> real)
    ensures SumWhere(a + b, p, f) == SumWhere(a, p, f) + SumWhere(b, p, f)
  {
    if b == [] {
      assert a + b == a;
    } else {
      var n := |b| - 1;
      assert (a + b)[..|a + b| - 1] == a + b[..n];
      SumConcat(a, b[..n], p, f);
    }
  }

  /** Splitting one element out of a sequence splits its contribution out of the count and the sum. */
  lemma {:induction false} RemoveAt<T>(s: seq<T>, j: int, p: T -> bool, f: T -> real)
    requires 0 <= j < |s|
    ensures CountWhere(s, p) == CountWhere(s[..j] + s[j + 1..], p) + (if p(s[j]) then 1 else 0)
    ensures SumWhere(s, p, f) == SumWhere(s[..j] + s[j + 1..], p, f) + (if p(s[j]) then f(s[j]) else 0.0)
  {
    assert s == s[..j] + [s[j]] + s[j + 1..];
    assert [s[j]][..0] == [];
    CountConcat(s[..j] + [s[j]], s[j + 1..], p);
    CountConcat(s[..j], [s[j]], p);
    CountConcat(s[..j], s[j + 1..], p);
    SumConcat(s[..j] + [s[j]], s[j + 1..], p, f);
    SumConcat(s[..j], [s[j]], p, f);
    SumConcat(s[..j], s[j + 1..], p, f);
  }

  /**
   * A count and a sum depend only on the multiset of elements, not on their
   * order: a query result has no order, and a sequence stands for it.
   */
  lemma {:induction false} PermutationInvariant<T>(a: seq<T>, b: seq<T>, p: T -> bool, f: T -> real)
    requires multiset(a) == multiset(b)
    ensures CountWhere(a, p) == CountWhere(b, p)
    ensures SumWhere(a, p, f) == SumWhere(b, p, f)
  {
    if a == [] {
      assert |b| == |multiset(b)| == 0;
    } else {
      var n := |a| - 1;
      var x := a[n];
      assert a == a[..n] + [x];
      assert x in multiset(b);
      var j :| 0 <= j < |b| && b[j] == x;
      var rest := b[..j] + b[j + 1..];
      assert b == b[..j] + [x] + b[j + 1..];
      assert multiset(rest) == multiset(b) - multiset{x};
      assert multiset(a[..n]) == multiset(a) - multiset{x};
      PermutationInvariant(a[..n], rest, p, f);
      RemoveAt(b, j, p, f);
    }
  }

  /**
   * A count and a sum see only which elements satisfy `p` and the value of `f`
   * on those: everything else about the elements is irrelevant.
   */
  lemma {:induction false} Congruence<T>(a: seq<T>, b: seq<T>, p: T -> bool, f: T -> real)
    requires |a| == |b|
    requires forall i :: 0 <= i < |a| ==> p(a[i]) == p(b[i])
    requires forall i :: 0 <= i < |a| && p(a[i]) ==> f(a[i]) == f(b[i])
    ensures CountWhere(a, p) == CountWhere(b, p)
    ensures SumWhere(a, p, f) == SumWhere(b, p, f)
  {
    if a != [] {
      var n := |a| - 1;
      Congruence(a[..n], b[..n], p, f);
    }
  }

  /** Narrowing the filter can only lower the count; it keeps it iff nothing was dropped. */
  lemma {:induction false} CountSubFilter<T>(s: seq<T>, p: T -> bool, q: T -> bool)
    requires forall i :: 0 <= i < |s| && p(s[i]) ==> q(s[i])
    ensures CountWhere(s, p) <= CountWhere(s, q)
    ensures CountWhere(s, p) == CountWhere(s, q) <==> forall i :: 0 <= i < |s| && q(s[i]) ==> p(s[i])
  {
    if s != [] {
      var n := |s| - 1;
      CountSubFilter(s[..n], p, q);
      assert forall i :: 0 <= i < n ==> s[..n][i] == s[i];
    }
  }

  /** `k` added up `n` times: multiplication kept linear for the solver. */
  function Times(k: real, n: nat): real
  {
    if n == 0 then 0.0 else Times(k, n - 1) + k
  }

  lemma {:induction false} TimesIsProduct(k: real, n: nat)
    ensures Times(k, n) == k * (n as real)
  {
    if n > 0 {
      TimesIsProduct(k, n - 1);
      assert k * (n as real) == k * ((n - 1) as real) + k;
    }
  }

  /** If every counted value lies in [lo, hi], the sum lies in [lo·count, hi·count]. */
  lemma {:induction false} SumBounds<T>(s: seq<T>, p: T -> bool, f: T -> real, lo: real, hi: real)
    requires forall i :: 0 <= i < |s| && p(s[i]) ==> lo <= f(s[i]) <= hi
    ensures Times(lo, CountWhere(s, p)) <= SumWhere(s, p, f) <= Times(hi, CountWhere(s, p))
  {
    if s != [] {
      var n := |s| - 1;
      var init := s[..n];
      assert forall i :: 0 <= i < |init| && p(init[i]) ==> lo <= f(init[i]) <= hi by {
        forall i | 0 <= i < |init| && p(init[i]) ensures lo <= f(init[i]) <= hi {
          assert init[i] == s[i];
        }
      }
      SumBounds(init, p, f, lo, hi);
    }
  }

  /** A mean whose terms lie in [lo, hi] lies in [lo, hi]. */
  lemma MeanBounds(sum: real, count: nat, lo: real, hi: real)
    requires count > 0
    requires Times(lo, count) <= sum <= Times(hi, count)
    ensures lo <= sum / (count as real) <= hi
    ensures sum / (count as real) * (count as real) == sum
  {
    TimesIsProduct(lo, count);
    TimesIsProduct(hi, count);
    var c := count as real;
    var m := sum / c;
    assert m * c == sum;
    assert (m - lo) * c >= 0.0;
    assert (hi - m) * c >= 0.0;
  }

  /**
   * The mean of `f` over the elements that satisfy `p`, when there is one,
   * lies within any bounds that all the averaged values respect.
   */
  lemma MeanWhereBounds<T>(s: seq<T>, p: T -> bool, f: T -> real, lo: real, hi: real)
    requires CountWhere(s, p) > 0
    requires forall i :: 0 <= i < |s| && p(s[i]) ==> lo <= f(s[i]) <= hi
    ensures var mean := SumWhere(s, p, f) / CountWhere(s, p) as real;
      lo <= mean <= hi && mean * CountWhere(s, p) as real == SumWhere(s, p, f)
  {
    SumBounds(s, p, f, lo, hi);
    MeanBounds(SumWhere(s, p, f), CountWhere(s, p), lo, hi);
  }
}
