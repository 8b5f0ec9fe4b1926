/**
 * `Array.prototype.filter` and the facts about it that the handlers below
 * rely on: it keeps exactly the elements that pass, every copy of them, in
 * their original order.
 */
module Seqs {

  /** `a` is obtained from `b` by deleting elements (order is kept). */
  predicate IsSubsequence<T(==)>(a: seq<T>, b: seq<T>)
    decreases |b|
  {
    if a == [] then true
    else if b == [] then false
    else (a[0] == b[0] && IsSubsequence(a[1..], b[1..])) || IsSubsequence(a, b[1..])
  }

  /** `s.filter(keep)` */
  function Filter<T>(s: seq<T>, keep: T -> bool): (r: seq<T>)
    ensures |r| <= |s|
    ensures forall x | x in r :: x in s && keep(x)
    ensures forall x | x in s && keep(x) :: x in r
  {
    if s == [] then []
    else if keep(s[0]) then [s[0]] + Filter(s[1..], keep)
    else Filter(s[1..], keep)
  }

  /** The filter keeps the order of what it keeps. */
  lemma {:induction false} FilterIsSubsequence<T>(s: seq<T>, keep: T -> bool)
    ensures IsSubsequence(Filter(s, keep), s)
  {
    if s != [] {
      FilterIsSubsequence(s[1..], keep);
    }
  }

  lemma {:induction false} FilterConcat<T>(a: seq<T>, b: seq<T>, keep: T -> bool)
    ensures Filter(a + b, keep) == Filter(a, keep) + Filter(b, keep)
  {
    if a == [] {
      assert a + b == b;
    } else {
      assert (a + b)[1..] == a[1..] + b;
      FilterConcat(a[1..], b, keep);
    }
  }

  /** A filter that every element passes changes nothing. */
  lemma {:induction false} FilterKeepsAll<T>(s: seq<T>, keep: T -> bool)
    requires forall x | x in s :: keep(x)
    ensures Filter(s, keep) == s
  {
    if s != [] {
      FilterKeepsAll(s[1..], keep);
    }
  }

  /** A filter that no element passes leaves nothing. */
  lemma FilterDropsAll<T>(s: seq<T>, keep: T -> bool)
    requires forall x | x in s :: !keep(x)
    ensures Filter(s, keep) == []
  {
  }

  /** Filtering twice with the same test is filtering once. */
  lemma FilterIdempotent<T>(s: seq<T>, keep: T -> bool)
    ensures Filter(Filter(s, keep), keep) == Filter(s, keep)
  {
    FilterKeepsAll(Filter(s, keep), keep);
  }

  /** Number of occurrences of `x` in `s`. */
  function Count<T(==)>(s: seq<T>, x: T): (n: nat)
    ensures n <= |s|
    ensures n == 0 <==> x !in s
  {
    if s == [] then 0 else (if s[0] == x then 1 else 0) + Count(s[1..], x)
  }

  /** The filter keeps every copy of a passing value and no copy of a failing one. */
  lemma {:induction false} FilterCount<T>(s: seq<T>, keep: T -> bool, x: T)
    ensures Count(Filter(s, keep), x) == if keep(x) then Count(s, x) else 0
  {
    if s != [] {
      FilterCount(s[1..], keep, x);
    }
  }

  /** `FilterCount` for every value of the list at once. */
  lemma FilterCounts<T>(s: seq<T>, keep: T -> bool)
    ensures forall x | x in s :: Count(Filter(s, keep), x) == if keep(x) then Count(s, x) else 0
  {
    forall x | x in s
      ensures Count(Filter(s, keep), x) == if keep(x) then Count(s, x) else 0
    {
      FilterCount(s, keep, x);
    }
  }

  lemma {:induction false} CountAppend<T>(s: seq<T>, y: T, x: T)
    ensures Count(s + [y], x) == Count(s, x) + (if y == x then 1 else 0)
  {
    if s == [] {
      assert s + [y] == [y];
    } else {
      assert (s + [y])[1..] == s[1..] + [y];
      CountAppend(s[1..], y, x);
    }
  }

  /** The filter keeps the whole list exactly when every element passes. */
  lemma {:induction false} FilterLengthIffAllPass<T>(s: seq<T>, keep: T -> bool)
    ensures |Filter(s, keep)| == |s| <==> forall i | 0 <= i < |s| :: keep(s[i])
  {
    if s != [] {
      FilterLengthIffAllPass(s[1..], keep);
      if forall i | 0 <= i < |s| :: keep(s[i]) {
        assert forall i | 0 <= i < |s| - 1 :: keep(s[1..][i]) by {
          forall i | 0 <= i < |s| - 1 ensures keep(s[1..][i]) {
            assert s[1..][i] == s[i + 1];
          }
        }
      } else {
        var j :| 0 <= j < |s| && !keep(s[j]);
        if j > 0 {
          assert s[1..][j - 1] == s[j];
        }
      }
    }
  }

  /** Two tests that agree on every element filter alike. */
  lemma {:induction false} FilterSameTest<T>(s: seq<T>, keep: T -> bool, keep': T -> bool)
    requires forall x | x in s :: keep(x) == keep'(x)
    ensures Filter(s, keep) == Filter(s, keep')
  {
    if s != [] {
      FilterSameTest(s[1..], keep, keep');
    }
  }

  lemma SubsetCard<T>(a: set<T>, b: set<T>)
    requires a <= b
    ensures |a| <= |b|
  {
    assert b == a + (b - a);
  }

  /** A list has at most as many distinct elements as entries. */
  lemma {:induction false} ElementsAtMost<T>(s: seq<T>)
    ensures |set x | x in s| <= |s|
  {
    if s != [] {
      ElementsAtMost(s[1..]);
      assert (set x | x in s) == (set x | x in s[1..]) + {s[0]};
    }
  }

  /** A list without repeats has exactly as many distinct elements as entries. */
  lemma {:induction false} ElementsOfDistinct<T>(s: seq<T>)
    requires forall i, j | 0 <= i < j < |s| :: s[i] != s[j]
    ensures |set x | x in s| == |s|
  {
    if s != [] {
      var t := s[1..];
      assert forall i, j | 0 <= i < j < |t| :: t[i] != t[j] by {
        forall i, j | 0 <= i < j < |t| ensures t[i] != t[j] {
          assert t[i] == s[i + 1] && t[j] == s[j + 1];
        }
      }
      ElementsOfDistinct(t);
      assert s[0] !in t;
      assert (set x | x in s) == (set x | x in t) + {s[0]};
    }
  }

  /** A list without repeats drawn from `s` is no longer than `s`. */
  lemma DistinctWithin<T>(p: seq<T>, s: seq<T>)
    requires forall i, j | 0 <= i < j < |p| :: p[i] != p[j]
    requires forall i | 0 <= i < |p| :: p[i] in s
    ensures |p| <= |s|
  {
    ElementsOfDistinct(p);
    ElementsAtMost(s);
    SubsetCard(set x | x in p, set x | x in s);
  }

  /** Regrouping a four-part concatenation to the right. */
  lemma Regroup<T>(a: seq<T>, p: seq<T>, q: seq<T>, r: seq<T>)
    ensures a + p + q + r == a + (p + q + r)
  {
  }

  /** Regrouping a three-part concatenation to the right. */
  lemma Regroup3<T>(a: seq<T>, b: seq<T>, c: seq<T>)
    ensures a + b + c == a + (b + c)
  {
  }

  /** A non-empty sequence is its head followed by its tail. */
  lemma SplitHead<T>(x: seq<T>)
    requires x != []
    ensures [x[0]] + x[1..] == x
  {
  }

  /** A non-empty sequence has its head as a member. */
  lemma HeadIsMember<T>(x: seq<T>)
    ensures x != [] ==> x[0] in x
  {
  }
}
