/**
 * Query-set operations modelled on sequences of records: filtering, counting,
 * summing and ordering. A query set is a sequence; `.filter(...)` keeps the
 * records that satisfy a predicate, in order; `.order_by(...)` sorts by a total
 * preorder; `.count()` and `aggregate(Sum(...))` fold the sequence.
 */
module Seqs {
  import opened Wrappers

  /** The records of `s` that satisfy `keep`, in their original order. */
  function Filter<T>(s: seq<T>, keep: T -> bool): (r: seq<T>)
    ensures |r| <= |s|
    ensures forall i :: 0 <= i < |r| ==> keep(r[i])
  {
    if s == [] then []
    else
      var rest := Filter(s[1..], keep);
      assert s == [s[0]] + s[1..];
      if keep(s[0]) then [s[0]] + rest else rest
  }

  /** A filter keeps records of `s` only, and every record of `s` that satisfies `keep`. */
  lemma {:induction false} FilterMembers<T>(s: seq<T>, keep: T -> bool)
    ensures forall x :: x in Filter(s, keep) <==> x in s && keep(x)
  {
    if s != [] {
      FilterMembers(s[1..], keep);
      assert s == [s[0]] + s[1..];
    }
  }

  /** Filtering distributes over concatenation: the order of the input is kept. */
  lemma {:induction false} FilterAppend<T>(a: seq<T>, b: seq<T>, keep: T -> bool)
    ensures Filter(a + b, keep) == Filter(a, keep) + Filter(b, keep)
  {
    if a == [] {
      assert a + b == b;
    } else {
      assert (a + b)[1..] == a[1..] + b;
      FilterAppend(a[1..], b, keep);
    }
  }

  /** Two filters in a row keep exactly what one filter on the conjunction keeps. */
  lemma {:induction false} FilterFilter<T>(s: seq<T>, p: T -> bool, q: T -> bool)
    ensures Filter(Filter(s, p), q) == Filter(s, x => p(x) && q(x))
  {
    if s != [] {
      FilterFilter(s[1..], p, q);
    }
  }

  /** Filters that agree on every record of `s` keep the same records. */
  lemma {:induction false} FilterAgree<T>(s: seq<T>, p: T -> bool, q: T -> bool)
    requires forall i :: 0 <= i < |s| ==> p(s[i]) == q(s[i])
    ensures Filter(s, p) == Filter(s, q)
  {
    if s != [] {
      FilterAgree(s[1..], p, q);
    }
  }

  /** A filter every record passes keeps the whole query set. */
  lemma {:induction false} FilterKeepsAll<T>(s: seq<T>, keep: T -> bool)
    requires forall i :: 0 <= i < |s| ==> keep(s[i])
    ensures Filter(s, keep) == s
  {
    if s != [] {
      FilterKeepsAll(s[1..], keep);
      assert s == [s[0]] + s[1..];
    }
  }

  /** A filter that rejects every record returns nothing. */
  lemma {:induction false} FilterNone<T>(s: seq<T>, keep: T -> bool)
    requires forall i :: 0 <= i < |s| ==> !keep(s[i])
    ensures Filter(s, keep) == []
  {
    if s != [] {
      FilterNone(s[1..], keep);
    }
  }

  /** Records that never satisfy both predicates are counted at most once between the two counts. */
  lemma {:induction false} DisjointCounts<T>(s: seq<T>, p: T -> bool, q: T -> bool)
    requires forall i :: 0 <= i < |s| ==> !(p(s[i]) && q(s[i]))
    ensures Count(s, p) + Count(s, q) <= |s|
  {
    if s != [] {
      DisjointCounts(s[1..], p, q);
    }
  }

  /** A filter that rejects exactly one record removes just that record. */
  lemma FilterRemovesOne<T>(s: seq<T>, i: nat, keep: T -> bool)
    requires i < |s| && !keep(s[i])
    requires forall j :: 0 <= j < |s| && j != i ==> keep(s[j])
    ensures Filter(s, keep) == s[..i] + s[i + 1..]
  {
    assert Filter(s[..i], keep) == s[..i] by {
      var front := s[..i];
      forall j | 0 <= j < |front|
        ensures keep(front[j])
      {
        assert front[j] == s[j];
      }
      FilterKeepsAll(front, keep);
    }
    assert Filter(s[i + 1..], keep) == s[i + 1..] by {
      var rest := s[i + 1..];
      forall j | 0 <= j < |rest|
        ensures keep(rest[j])
      {
        assert rest[j] == s[i + 1 + j];
      }
      FilterKeepsAll(rest, keep);
    }
    assert Filter(s[i..], keep) == Filter(s[i + 1..], keep) by {
      assert s[i..][0] == s[i] && s[i..][1..] == s[i + 1..];
    }
    assert s == s[..i] + s[i..];
    FilterAppend(s[..i], s[i..], keep);
  }

  /** One optional filter step: `if on: qs = qs.filter(keep)`. */
  function Refine<T>(s: seq<T>, on: bool, keep: T -> bool): (r: seq<T>)
    ensures on ==> r == Filter(s, keep)
    ensures !on ==> r == s
  {
    if on then Filter(s, keep) else s
  }

  /** An optional step on a filtered query set is one filter on the conjunction. */
  lemma RefineFilter<T>(s: seq<T>, k: T -> bool, on: bool, c: T -> bool, k': T -> bool)
    requires forall i :: 0 <= i < |s| ==> k'(s[i]) == (k(s[i]) && (on ==> c(s[i])))
    ensures Refine(Filter(s, k), on, c) == Filter(s, k')
  {
    if on {
      FilterFilter(s, k, c);
      FilterAgree(s, x => k(x) && c(x), k');
    } else {
      FilterAgree(s, k, k');
    }
  }

  /** An optional first step is one filter. */
  lemma RefineFirst<T>(s: seq<T>, on: bool, c: T -> bool, k': T -> bool)
    requires forall i :: 0 <= i < |s| ==> k'(s[i]) == (on ==> c(s[i]))
    ensures Refine(s, on, c) == Filter(s, k')
  {
    if on {
      FilterAgree(s, c, k');
    } else {
      FilterKeepsAll(s, k');
    }
  }

  /** The first position at or after `from` whose record satisfies `p`: a linear search that stops at the first hit. */
  function FirstIndex<T>(s: seq<T>, p: T -> bool, from: nat): (r: Option<nat>)
    requires from <= |s|
    ensures r.Some? ==> from <= r.value < |s| && p(s[r.value])
    ensures r.Some? ==> forall j :: from <= j < r.value ==> !p(s[j])
    ensures r.None? ==> forall j :: from <= j < |s| ==> !p(s[j])
    decreases |s| - from
  {
    if from == |s| then None
    else if p(s[from]) then Some(from)
    else FirstIndex(s, p, from + 1)
  }

  /** Number of records of `s` that satisfy `keep` (`.filter(...).count()`). */
  function Count<T>(s: seq<T>, keep: T -> bool): nat {
    |Filter(s, keep)|
  }

  /** Sum of `f` over the records of `s`; 0 for an empty query set. */
  function SumOf<T>(s: seq<T>, f: T -> int): int {
    if s == [] then 0 else f(s[0]) + SumOf(s[1..], f)
  }

  /** Summing is additive over concatenation. */
  lemma {:induction false} SumOfAppend<T>(a: seq<T>, b: seq<T>, f: T -> int)
    ensures SumOf(a + b, f) == SumOf(a, f) + SumOf(b, f)
  {
    if a == [] {
      assert a + b == b;
    } else {
      assert (a + b)[1..] == a[1..] + b;
      SumOfAppend(a[1..], b, f);
    }
  }

  /** `le` is total and transitive: a sort key in the sense of `order_by`. */
  ghost predicate TotalPreorder<T(!new)>(le: (T, T) -> bool) {
    && (forall a, b :: le(a, b) || le(b, a))
    && (forall a, b, c :: le(a, b) && le(b, c) ==> le(a, c))
  }

  predicate SortedBy<T>(s: seq<T>, le: (T, T) -> bool) {
    forall i, j :: 0 <= i < j < |s| ==> le(s[i], s[j])
  }

  /** The first record of a sorted sequence comes no later than any of its records. */
  lemma SortedHeadLeads<T(!new)>(s: seq<T>, le: (T, T) -> bool, x: T)
    requires TotalPreorder(le) && SortedBy(s, le) && x in s
    ensures le(s[0], x)
  {
    var m :| 0 <= m < |s| && s[m] == x;
    if m == 0 {
      assert le(x, x) || le(x, x);
    }
  }

  /** A property of every record survives reordering. */
  lemma PermutationKeeps<T>(a: seq<T>, b: seq<T>, p: T -> bool)
    requires multiset(a) == multiset(b)
    requires forall i :: 0 <= i < |b| ==> p(b[i])
    ensures forall i :: 0 <= i < |a| ==> p(a[i])
  {
    forall i | 0 <= i < |a|
      ensures p(a[i])
    {
      assert a[i] in multiset(b);
      var j :| 0 <= j < |b| && b[j] == a[i];
    }
  }

  /** A record that leads every record of a sorted sequence can be put in front of it. */
  lemma ConsSorted<T>(a: T, s: seq<T>, le: (T, T) -> bool)
    requires SortedBy(s, le)
    requires forall k :: 0 <= k < |s| ==> le(a, s[k])
    ensures SortedBy([a] + s, le)
  {
    var r := [a] + s;
    forall i, j | 0 <= i < j < |r|
      ensures le(r[i], r[j])
    {
      assert r[j] == s[j - 1];
      if i > 0 {
        assert r[i] == s[i - 1];
      }
    }
  }

  /** A record that leads `x` and every record of `s` leads every record of a reordering of `s` plus `x`. */
  lemma LeadsReordering<T>(a: T, s: seq<T>, x: T, r: seq<T>, le: (T, T) -> bool)
    requires multiset(r) == multiset(s) + multiset{x}
    requires le(a, x)
    requires forall k :: 0 <= k < |s| ==> le(a, s[k])
    ensures forall k :: 0 <= k < |r| ==> le(a, r[k])
  {
    forall k | 0 <= k < |r|
      ensures le(a, r[k])
    {
      assert r[k] in multiset(r);
      if r[k] != x {
        assert r[k] in multiset(s);
        var m :| 0 <= m < |s| && s[m] == r[k];
      }
    }
  }

  /** Inserts `x` into the sorted `s` before the first record it does not follow. */
  function Insert<T(!new)>(x: T, s: seq<T>, le: (T, T) -> bool): (r: seq<T>)
    requires TotalPreorder(le) && SortedBy(s, le)
    ensures SortedBy(r, le)
    ensures multiset(r) == multiset(s) + multiset{x}
  {
    if s == [] || le(x, s[0]) then
      ConsSorted(x, s, le);
      [x] + s
    else
      var tail := s[1..];
      assert s == [s[0]] + tail;
      assert SortedBy(tail, le);
      var rest := Insert(x, tail, le);
      assert le(s[0], x);
      LeadsReordering(s[0], tail, x, rest, le);
      ConsSorted(s[0], rest, le);
      [s[0]] + rest
  }

  /** `s` ordered by `le`: a sorted permutation of `s`. */
  function Sort<T(!new)>(s: seq<T>, le: (T, T) -> bool): (r: seq<T>)
    requires TotalPreorder(le)
    ensures SortedBy(r, le)
    ensures multiset(r) == multiset(s)
    ensures |r| == |s|
  {
    if s == [] then []
    else
      assert s == [s[0]] + s[1..];
      Insert(s[0], Sort(s[1..], le), le)
  }
}
