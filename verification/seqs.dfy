/**
 * Order-preserving sequence operations that the query service and the planner are built from:
 * filtering, taking a prefix (SQL LIMIT), first-occurrence removal, duplicate-free accumulation
 * and a sort by an integer key (SQL ORDER BY).
 */
module Seqs {

  /** `a` is an order-preserving subsequence of `b`. */
  predicate IsSubsequence<T(==)>(a: seq<T>, b: seq<T>)
    decreases |b|
  {
    |a| == 0 || (|b| > 0 && ((a[0] == b[0] && IsSubsequence(a[1..], b[1..])) || IsSubsequence(a, b[1..])))
  }

  lemma {:induction false} SubsequenceRefl<T>(a: seq<T>)
    ensures IsSubsequence(a, a)
    decreases |a|
  {
    if |a| > 0 {
      SubsequenceRefl(a[1..]);
    }
  }

  /** The elements of `s` satisfying `p`, in their original order (a list comprehension with `if`). */
  function Filter<T>(s: seq<T>, p: T -> bool): (r: seq<T>)
    ensures |r| <= |s|
    ensures forall i :: 0 <= i < |r| ==> r[i] in s && p(r[i])
    ensures forall i :: 0 <= i < |s| && p(s[i]) ==> s[i] in r
  {
    if |s| == 0 then []
    else if p(s[0]) then [s[0]] + Filter(s[1..], p)
    else Filter(s[1..], p)
  }

  lemma {:induction false} FilterIsSubsequence<T>(s: seq<T>, p: T -> bool)
    ensures IsSubsequence(Filter(s, p), s)
    decreases |s|
  {
    if |s| > 0 {
      FilterIsSubsequence(s[1..], p);
      if p(s[0]) {
        assert Filter(s, p)[1..] == Filter(s[1..], p);
      }
    }
  }

  /** Every element of a subsequence is an element of the sequence. */
  lemma {:induction false} SubsequenceMembers<T>(a: seq<T>, b: seq<T>)
    requires IsSubsequence(a, b)
    ensures forall x :: x in a ==> x in b
    decreases |b|
  {
    if |a| > 0 {
      if a[0] == b[0] && IsSubsequence(a[1..], b[1..]) {
        SubsequenceMembers(a[1..], b[1..]);
        assert forall x :: x in a ==> x == a[0] || x in a[1..];
      } else {
        SubsequenceMembers(a, b[1..]);
      }
    }
  }

  /** Filtering twice with the same predicate filters once. */
  lemma {:induction false} FilterIdempotent<T>(s: seq<T>, p: T -> bool)
    ensures Filter(Filter(s, p), p) == Filter(s, p)
    decreases |s|
  {
    if |s| > 0 {
      FilterIdempotent(s[1..], p);
      if p(s[0]) {
        assert Filter(s, p)[0] == s[0];
        assert Filter(s, p)[1..] == Filter(s[1..], p);
      }
    }
  }

  /** A predicate that holds everywhere filters nothing out. */
  lemma {:induction false} FilterKeepsAll<T>(s: seq<T>, p: T -> bool)
    requires forall i :: 0 <= i < |s| ==> p(s[i])
    ensures Filter(s, p) == s
    decreases |s|
  {
    if |s| > 0 {
      FilterKeepsAll(s[1..], p);
    }
  }

  /** Two filters commute: the order in which independent criteria are applied never changes the result. */
  lemma {:induction false} FilterCommutes<T>(s: seq<T>, p: T -> bool, q: T -> bool)
    ensures Filter(Filter(s, p), q) == Filter(Filter(s, q), p)
    decreases |s|
  {
    if |s| > 0 {
      FilterCommutes(s[1..], p, q);
      var a := Filter(Filter(s, p), q);
      var b := Filter(Filter(s, q), p);
      if p(s[0]) && q(s[0]) {
        assert Filter(s, p) == [s[0]] + Filter(s[1..], p);
        assert Filter(s, q) == [s[0]] + Filter(s[1..], q);
      } else if p(s[0]) {
        assert Filter(s, p) == [s[0]] + Filter(s[1..], p);
      } else if q(s[0]) {
        assert Filter(s, q) == [s[0]] + Filter(s[1..], q);
      }
    }
  }

  /** Filtering by `p` and then by `q` is filtering once by their conjunction. */
  lemma {:induction false} FilterFuse<T>(s: seq<T>, p: T -> bool, q: T -> bool, pq: T -> bool)
    requires forall x :: pq(x) == (p(x) && q(x))
    ensures Filter(Filter(s, p), q) == Filter(s, pq)
    decreases |s|
  {
    if |s| > 0 {
      FilterFuse(s[1..], p, q, pq);
      if p(s[0]) {
        assert Filter(s, p) == [s[0]] + Filter(s[1..], p);
      }
    }
  }

  /** Predicates that agree on the elements of `s` filter it alike. */
  lemma {:induction false} FilterAgree<T>(s: seq<T>, p: T -> bool, q: T -> bool)
    requires forall i :: 0 <= i < |s| ==> p(s[i]) == q(s[i])
    ensures Filter(s, p) == Filter(s, q)
    decreases |s|
  {
    if |s| > 0 {
      FilterAgree(s[1..], p, q);
    }
  }

  /** A predicate that fails everywhere filters everything out. */
  lemma {:induction false} FilterDropsAll<T>(s: seq<T>, p: T -> bool)
    requires forall i :: 0 <= i < |s| ==> !p(s[i])
    ensures Filter(s, p) == []
    decreases |s|
  {
    if |s| > 0 {
      FilterDropsAll(s[1..], p);
    }
  }

  /** SQL `LIMIT n` (and Python `s[:n]` for n >= 0): the first `n` elements, or all of them. */
  function Take<T>(s: seq<T>, n: nat): (r: seq<T>)
    ensures |r| == if n < |s| then n else |s|
    ensures forall i :: 0 <= i < |r| ==> r[i] == s[i]
  {
    if n < |s| then s[..n] else s
  }

  /** A prefix is a subsequence. */
  lemma {:induction false} TakeIsSubsequence<T>(s: seq<T>, n: nat)
    ensures IsSubsequence(Take(s, n), s)
    decreases |s|
  {
    var t := Take(s, n);
    if |t| > 0 {
      TakeIsSubsequence(s[1..], n - 1);
      assert t[1..] == Take(s[1..], n - 1);
    }
  }

  /** Being a subsequence is transitive. */
  lemma {:induction false} SubsequenceTrans<T>(a: seq<T>, b: seq<T>, c: seq<T>)
    requires IsSubsequence(a, b) && IsSubsequence(b, c)
    ensures IsSubsequence(a, c)
    decreases |c|
  {
    if |a| > 0 {
      if IsSubsequence(b, c[1..]) {
        SubsequenceTrans(a, b, c[1..]);
      } else if a[0] == b[0] && IsSubsequence(a[1..], b[1..]) {
        SubsequenceTrans(a[1..], b[1..], c[1..]);
      } else {
        SubsequenceTrans(a, b[1..], c[1..]);
      }
    }
  }

  /** Filtering keeps a sub-multiset of the input. */
  lemma {:induction false} FilterSubMultiset<T>(s: seq<T>, p: T -> bool)
    ensures multiset(Filter(s, p)) <= multiset(s)
    decreases |s|
  {
    if |s| > 0 {
      FilterSubMultiset(s[1..], p);
      assert s == [s[0]] + s[1..];
    }
  }

  /** A prefix holds a sub-multiset of the input. */
  lemma TakeSubMultiset<T>(s: seq<T>, n: nat)
    ensures multiset(Take(s, n)) <= multiset(s)
  {
    if n < |s| {
      assert s == s[..n] + s[n..];
    }
  }

  /** No element occurs twice. */
  predicate NoDups<T(==)>(s: seq<T>) {
    forall i, j :: 0 <= i < j < |s| ==> s[i] != s[j]
  }

  /**
   * Adds to `acc` every element of `xs` it does not already hold, keeping first-appearance order
   * (`set.update` followed by `list(...)`, with the order fixed).
   */
  function AddNew<T(==)>(acc: seq<T>, xs: seq<T>): (r: seq<T>)
    requires NoDups(acc)
    ensures NoDups(r)
    ensures forall i :: 0 <= i < |r| ==> r[i] in acc || r[i] in xs
    ensures forall i :: 0 <= i < |xs| ==> xs[i] in r
    ensures |acc| <= |r| && r[..|acc|] == acc
    decreases |xs|
  {
    if |xs| == 0 then acc
    else
      var acc' := if xs[0] in acc then acc else acc + [xs[0]];
      var r := AddNew(acc', xs[1..]);
      assert forall i :: 0 <= i < |xs| ==> xs[i] in r by {
        forall i | 0 <= i < |xs|
          ensures xs[i] in r
        {
          if i == 0 {
            assert xs[0] in acc';
            var j :| 0 <= j < |acc'| && acc'[j] == xs[0];
            assert r[..|acc'|][j] == xs[0];
          } else {
            assert xs[i] == xs[1..][i - 1];
          }
        }
      }
      assert forall i :: 0 <= i < |r| ==> r[i] in acc || r[i] in xs by {
        forall i | 0 <= i < |r|
          ensures r[i] in acc || r[i] in xs
        {
          if r[i] in xs[1..] {
            var j :| 0 <= j < |xs[1..]| && xs[1..][j] == r[i];
            assert xs[j + 1] == r[i];
          }
        }
      }
      r
  }

  /** Python's `list.remove(x)`: drops the first element equal to `x`; `s` is unchanged when none is. */
  function RemoveFirst<T(==)>(s: seq<T>, x: T): (r: seq<T>)
    ensures x in s ==> multiset(r) == multiset(s) - multiset{x} && |r| == |s| - 1
    ensures x !in s ==> r == s
  {
    if |s| == 0 then []
    else if s[0] == x then
      assert s == [s[0]] + s[1..];
      s[1..]
    else
      assert s == [s[0]] + s[1..];
      [s[0]] + RemoveFirst(s[1..], x)
  }

  /** `for x in xs: s.remove(x)`, for elements known to be present. */
  function RemoveEach<T(==)>(s: seq<T>, xs: seq<T>): (r: seq<T>)
    requires multiset(xs) <= multiset(s)
    ensures multiset(r) == multiset(s) - multiset(xs)
    decreases |xs|
  {
    if |xs| == 0 then s
    else
      assert xs == [xs[0]] + xs[1..];
      assert xs[0] in multiset(s);
      RemoveEach(RemoveFirst(s, xs[0]), xs[1..])
  }

  /** The last `n` elements (Python's `s[-n:]` for n >= 1), or all of them when there are fewer. */
  function Last<T>(s: seq<T>, n: nat): (r: seq<T>)
    ensures |r| == if n < |s| then n else |s|
    ensures forall i :: 0 <= i < |r| ==> r[i] == s[|s| - |r| + i]
  {
    if n < |s| then s[|s| - n..] else s
  }

  /** The elements in the opposite order. */
  function Reverse<T>(s: seq<T>): (r: seq<T>)
    ensures |r| == |s|
    ensures forall i :: 0 <= i < |s| ==> r[i] == s[|s| - 1 - i]
  {
    if |s| == 0 then [] else [s[|s| - 1]] + Reverse(s[..|s| - 1])
  }

  /** Every element's key is at most the next one's. */
  predicate SortedByKey<T>(s: seq<T>, key: T -> int) {
    forall i, j :: 0 <= i < j < |s| ==> key(s[i]) <= key(s[j])
  }

  /** Inserts `x` after every element whose key is not greater (keeps insertion order among ties). */
  function InsertByKey<T>(x: T, s: seq<T>, key: T -> int): (r: seq<T>)
    requires SortedByKey(s, key)
    ensures SortedByKey(r, key)
    ensures multiset(r) == multiset(s) + multiset{x}
    decreases |s|
  {
    if |s| == 0 then [x]
    else if key(x) < key(s[0]) then
      ConsSorted(x, s, key);
      [x] + s
    else
      var rest := InsertByKey(x, s[1..], key);
      assert s == [s[0]] + s[1..];
      KeyBoundCarries(rest, s[1..], x, key, key(s[0]));
      ConsSorted(s[0], rest, key);
      [s[0]] + rest
  }

  /** A key no greater than every key of a sorted sequence can go in front of it. */
  lemma ConsSorted<T>(h: T, s: seq<T>, key: T -> int)
    requires SortedByKey(s, key)
    requires |s| == 0 || key(h) <= key(s[0])
    ensures SortedByKey([h] + s, key)
  {
    var r := [h] + s;
    forall i, j | 0 <= i < j < |r|
      ensures key(r[i]) <= key(r[j])
    {
      if i > 0 {
        assert r[i] == s[i - 1] && r[j] == s[j - 1];
      } else if j > 1 {
        assert key(s[0]) <= key(s[j - 1]);
      }
    }
  }

  /** Every element of a sequence holding the elements of `b` plus `x` has a key of at least `lo`. */
  lemma KeyBoundCarries<T>(a: seq<T>, b: seq<T>, x: T, key: T -> int, lo: int)
    requires multiset(a) == multiset(b) + multiset{x}
    requires lo <= key(x)
    requires forall j :: 0 <= j < |b| ==> lo <= key(b[j])
    ensures forall i :: 0 <= i < |a| ==> lo <= key(a[i])
  {
    forall i | 0 <= i < |a|
      ensures lo <= key(a[i])
    {
      assert a[i] in multiset(a);
      if a[i] != x {
        assert a[i] in multiset(b);
        var j :| 0 <= j < |b| && b[j] == a[i];
      }
    }
  }

  /**
   * SQL `ORDER BY key`, as an insertion sort. The contract promises the order of the keys and
   * nothing about equal keys, as SQL promises nothing about them either.
   */
  function SortByKey<T>(s: seq<T>, key: T -> int): (r: seq<T>)
    ensures SortedByKey(r, key)
    ensures multiset(r) == multiset(s)
    decreases |s|
  {
    if |s| == 0 then []
    else
      assert s == s[..|s| - 1] + [s[|s| - 1]];
      InsertByKey(s[|s| - 1], SortByKey(s[..|s| - 1], key), key)
  }
}
