/** Order-preserving filtering of sequences (list comprehensions, boolean masks, `Array.filter`). */
module Seqs {

  /** `r` is `s` with some elements left out: `r`'s elements occur in `s` in the same order. */
  ghost predicate IsSubsequence<T(!new)>(r: seq<T>, s: seq<T>)
    decreases |s|
  {
    if |r| == 0 then true
    else if |s| == 0 then false
    else if r[0] == s[0] then IsSubsequence(r[1..], s[1..])
    else IsSubsequence(r, s[1..])
  }

  /**
   * `r` is what filtering `s` by `p` must give: a subsequence of `s` holding each value that
   * passes `p` exactly as often as `s` does, and no other value.
   */
  ghost predicate IsFilterOf<T(!new)>(r: seq<T>, s: seq<T>, p: T -> bool) {
    && IsSubsequence(r, s)
    && forall x :: multiset(r)[x] == if p(x) then multiset(s)[x] else 0
  }

  /** The elements of `s` satisfying `p`, in their original order. */
  function Filter<T(!new)>(s: seq<T>, p: T -> bool): (r: seq<T>)
    ensures |r| <= |s|
    ensures forall i :: 0 <= i < |r| ==> r[i] in s && p(r[i])
    ensures forall i :: 0 <= i < |s| && p(s[i]) ==> s[i] in r
    decreases |s|
  {
    if |s| == 0 then []
    else if p(s[0]) then [s[0]] + Filter(s[1..], p)
    else Filter(s[1..], p)
  }

  /**
   * `Filter` meets its specification: order and multiplicity are kept. Together with
   * `FilterUnique` this determines `Filter` completely.
   */
  lemma {:induction false} FilterMeetsSpec<T(!new)>(s: seq<T>, p: T -> bool)
    ensures IsFilterOf(Filter(s, p), s, p)
    decreases |s|
  {
    if |s| > 0 {
      assert s == [s[0]] + s[1..];
      var rest := Filter(s[1..], p);
      FilterMeetsSpec(s[1..], p);
      if p(s[0]) {
        assert ([s[0]] + rest)[1..] == rest;
      } else {
        SkipHead(rest, s);
      }
    }
  }

  /** A subsequence of the tail is a subsequence of the whole. */
  lemma SkipHead<T(!new)>(r: seq<T>, s: seq<T>)
    requires |s| > 0 && IsSubsequence(r, s[1..])
    ensures IsSubsequence(r, s)
    decreases |s|, 0
  {
    if |r| > 0 && r[0] == s[0] {
      SubsequenceOfTail(r, s[1..]);
    }
  }

  /** Dropping the first element of a subsequence keeps it a subsequence. */
  lemma {:induction false} SubsequenceOfTail<T(!new)>(r: seq<T>, s: seq<T>)
    requires |r| > 0 && IsSubsequence(r, s)
    ensures IsSubsequence(r[1..], s)
    decreases |s|, 1
  {
    if r[0] == s[0] {
      SkipHead(r[1..], s);
    } else {
      SubsequenceOfTail(r, s[1..]);
      SkipHead(r[1..], s);
    }
  }

  /** A subsequence holds no value more often than the sequence it is taken from. */
  lemma {:induction false} SubsequenceCounts<T(!new)>(r: seq<T>, s: seq<T>)
    requires IsSubsequence(r, s)
    ensures multiset(r) <= multiset(s)
    decreases |s|
  {
    if |r| > 0 {
      assert s == [s[0]] + s[1..];
      if r[0] == s[0] {
        assert r == [r[0]] + r[1..];
        SubsequenceCounts(r[1..], s[1..]);
      } else {
        SubsequenceCounts(r, s[1..]);
      }
    }
  }

  /** The specification determines the filter: whatever satisfies `IsFilterOf` is `Filter`'s result. */
  lemma {:induction false} FilterUnique<T(!new)>(r: seq<T>, s: seq<T>, p: T -> bool)
    requires IsFilterOf(r, s, p)
    ensures r == Filter(s, p)
    decreases |s|
  {
    if |s| > 0 {
      var a := s[0];
      assert s == [a] + s[1..];
      if |r| > 0 && r[0] == a {
        assert r == [a] + r[1..];
        assert p(a) by { assert multiset(r)[a] > 0; }
        forall x ensures multiset(r[1..])[x] == if p(x) then multiset(s[1..])[x] else 0 {
          assert multiset(r)[x] == multiset(r[1..])[x] + (if x == a then 1 else 0);
          assert multiset(s)[x] == multiset(s[1..])[x] + (if x == a then 1 else 0);
        }
        FilterUnique(r[1..], s[1..], p);
      } else {
        SubsequenceCounts(r, s[1..]);
        assert !p(a) by {
          assert multiset(r)[a] <= multiset(s[1..])[a] < multiset(s)[a];
        }
        forall x ensures multiset(r)[x] == if p(x) then multiset(s[1..])[x] else 0 {
          assert multiset(s)[x] == multiset(s[1..])[x] + (if x == a then 1 else 0);
        }
        FilterUnique(r, s[1..], p);
      }
    }
  }

  /** Filtering twice is filtering once by both predicates. */
  lemma {:induction false} FilterTwice<T(!new)>(s: seq<T>, p: T -> bool, q: T -> bool, pq: T -> bool)
    requires forall i :: 0 <= i < |s| ==> pq(s[i]) == (p(s[i]) && q(s[i]))
    ensures Filter(Filter(s, p), q) == Filter(s, pq)
    decreases |s|
  {
    if |s| > 0 {
      FilterTwice(s[1..], p, q, pq);
      if p(s[0]) {
        assert ([s[0]] + Filter(s[1..], p))[1..] == Filter(s[1..], p);
      }
    }
  }

  /** Filtering distributes over concatenation, so relative order is kept. */
  lemma {:induction false} FilterAppend<T(!new)>(a: seq<T>, b: seq<T>, p: T -> bool)
    ensures Filter(a + b, p) == Filter(a, p) + Filter(b, p)
    decreases |a|
  {
    if |a| > 0 {
      assert (a + b)[1..] == a[1..] + b;
      FilterAppend(a[1..], b, p);
    } else {
      assert a + b == b;
    }
  }

  /** Filtering keeps everything when every element passes. */
  lemma {:induction false} FilterKeepsAll<T(!new)>(s: seq<T>, p: T -> bool)
    requires forall i :: 0 <= i < |s| ==> p(s[i])
    ensures Filter(s, p) == s
    decreases |s|
  {
    if |s| > 0 {
      FilterKeepsAll(s[1..], p);
    }
  }

  /** Two predicates that agree on the elements of `s` filter it identically. */
  lemma {:induction false} FilterCongruent<T(!new)>(s: seq<T>, p: T -> bool, q: T -> bool)
    requires forall i :: 0 <= i < |s| ==> p(s[i]) == q(s[i])
    ensures Filter(s, p) == Filter(s, q)
    decreases |s|
  {
    if |s| > 0 {
      FilterCongruent(s[1..], p, q);
    }
  }

  /** A prefix grows by the next element. */
  lemma PrefixSnoc<T>(s: seq<T>, n: nat)
    requires 0 < n <= |s|
    ensures s[..n - 1] + [s[n - 1]] == s[..n]
  {
  }

  /** Applies `f` to every element, keeping order (`map` / `Array.prototype.map`). */
  function Map<T, U>(s: seq<T>, f: T -> U): (r: seq<U>)
    ensures |r| == |s|
    ensures forall i :: 0 <= i < |s| ==> r[i] == f(s[i])
  {
    seq(|s|, i requires 0 <= i < |s| => f(s[i]))
  }

  /** Filtering the images is mapping the elements that `q` picks, when `q` tests the image. */
  lemma {:induction false} FilterMap<T(!new), U(!new)>(s: seq<T>, f: T -> U, p: U -> bool, q: T -> bool)
    requires forall i :: 0 <= i < |s| ==> q(s[i]) == p(f(s[i]))
    ensures Filter(Map(s, f), p) == Map(Filter(s, q), f)
    decreases |s|
  {
    if |s| > 0 {
      assert Map(s, f) == [f(s[0])] + Map(s[1..], f);
      assert Map(s, f)[1..] == Map(s[1..], f);
      FilterMap(s[1..], f, p, q);
      if q(s[0]) {
        assert Map([s[0]] + Filter(s[1..], q), f) == [f(s[0])] + Map(Filter(s[1..], q), f);
      }
    }
  }

}
