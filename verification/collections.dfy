/** Sequence operations shared by the admin lists: `Array.prototype.filter`,
    `Array.prototype.map` with a per-element update, and the first-occurrence
    de-duplication that `[...new Set(xs)]` performs. */
module Collections {

  /** `a` is an order-preserving subsequence of `b`. */
  predicate IsSubseq<T(==)>(a: seq<T>, b: seq<T>)
    decreases |b|
  {
    if b == [] then a == []
    else (|a| > 0 && a[0] == b[0] && IsSubseq(a[1..], b[1..])) || IsSubseq(a, b[1..])
  }

  /** No element occurs twice. */
  predicate NoDuplicates<T(==)>(s: seq<T>) {
    forall i, j :: 0 <= i < j < |s| ==> s[i] != s[j]
  }

  /** Position of the first occurrence of `x` in `s`. */
  function FirstIndex<T(==)>(s: seq<T>, x: T): (k: nat)
    requires x in s
    ensures k < |s| && s[k] == x
    ensures forall j :: 0 <= j < k ==> s[j] != x
  {
    if s[0] == x then 0 else 1 + FirstIndex(s[1..], x)
  }

  /** `Array.prototype.filter`: the elements satisfying `p`, in order, with
      their multiplicities. */
  function Filter<T(==,!new)>(p: T -> bool, s: seq<T>): (r: seq<T>)
    ensures |r| <= |s|
    ensures forall i :: 0 <= i < |r| ==> p(r[i])
    ensures forall x :: x in r <==> x in s && p(x)
    ensures IsSubseq(r, s)
  {
    if s == [] then []
    else
      assert s == [s[0]] + s[1..];
      if p(s[0]) then [s[0]] + Filter(p, s[1..]) else Filter(p, s[1..])
  }

  /** Filtering keeps every element that satisfies `p` as often as it
      occurs. */
  lemma {:induction false} FilterMultiset<T(!new)>(p: T -> bool, s: seq<T>, x: T)
    requires p(x)
    ensures multiset(Filter(p, s))[x] == multiset(s)[x]
  {
    if s != [] {
      FilterMultiset(p, s[1..], x);
      assert s == [s[0]] + s[1..];
    }
  }

  /** Filtering with a predicate that holds everywhere changes nothing. */
  lemma {:induction false} FilterAll<T(!new)>(p: T -> bool, s: seq<T>)
    requires forall i :: 0 <= i < |s| ==> p(s[i])
    ensures Filter(p, s) == s
  {
    if s != [] {
      FilterAll(p, s[1..]);
    }
  }

  /** Filtering by `p` and by its negation splits the sequence by count. */
  lemma {:induction false} FilterPartition<T(!new)>(p: T -> bool, q: T -> bool, s: seq<T>)
    requires forall x :: q(x) == !p(x)
    ensures |Filter(p, s)| + |Filter(q, s)| == |s|
  {
    if s != [] {
      FilterPartition(p, q, s[1..]);
    }
  }

  /** An element that fails the predicate makes the result shorter. */
  lemma {:induction false} FilterDropsSomething<T(!new)>(p: T -> bool, s: seq<T>, k: nat)
    requires k < |s| && !p(s[k])
    ensures |Filter(p, s)| < |s|
  {
    if k > 0 {
      FilterDropsSomething(p, s[1..], k - 1);
    }
  }

  /** Two predicates that agree on the elements of `s` filter it alike. */
  lemma {:induction false} FilterAgree<T(!new)>(p: T -> bool, q: T -> bool, s: seq<T>)
    requires forall i :: 0 <= i < |s| ==> p(s[i]) == q(s[i])
    ensures Filter(p, s) == Filter(q, s)
  {
    if s != [] {
      FilterAgree(p, q, s[1..]);
    }
  }

  /** Excluding one more value `t` from a sequence without duplicates
      removes exactly one element when `t` was kept before, and none
      otherwise. */
  lemma {:induction false} FilterExcludeOne<T(!new)>(p: T -> bool, q: T -> bool, s: seq<T>, t: T)
    requires NoDuplicates(s)
    requires forall x :: q(x) == (p(x) && x != t)
    ensures t in s && p(t) ==> |Filter(q, s)| == |Filter(p, s)| - 1
    ensures !(t in s && p(t)) ==> |Filter(q, s)| == |Filter(p, s)|
  {
    if s != [] {
      assert NoDuplicates(s[1..]);
      if s[0] == t {
        FilterAgree(p, q, s[1..]);
      } else {
        FilterExcludeOne(p, q, s[1..], t);
      }
    }
  }

  /** Filtering twice is filtering once by the conjunction. */
  lemma {:induction false} FilterFilter<T(!new)>(p: T -> bool, q: T -> bool, pq: T -> bool, s: seq<T>)
    requires forall x :: pq(x) == (p(x) && q(x))
    ensures Filter(q, Filter(p, s)) == Filter(pq, s)
  {
    if s != [] {
      FilterFilter(p, q, pq, s[1..]);
    }
  }

  /** Two predicates that agree everywhere filter alike. */
  lemma {:induction false} FilterSame<T(!new)>(p: T -> bool, q: T -> bool, s: seq<T>)
    requires forall x :: p(x) == q(x)
    ensures Filter(p, s) == Filter(q, s)
  {
    if s != [] {
      FilterSame(p, q, s[1..]);
    }
  }

  /** The empty sequence is a subsequence of everything. */
  lemma {:induction false} EmptySubseq<T>(b: seq<T>)
    ensures IsSubseq([], b)
  {
    if b != [] {
      EmptySubseq(b[1..]);
    }
  }

  /** Every prefix of a subsequence is a subsequence. */
  lemma {:induction false} PrefixSubseq<T>(a: seq<T>, b: seq<T>, k: nat)
    requires IsSubseq(a, b)
    requires k <= |a|
    ensures IsSubseq(a[..k], b)
    decreases |b|
  {
    if k == 0 {
      EmptySubseq(b);
    } else if b != [] {
      if |a| > 0 && a[0] == b[0] && IsSubseq(a[1..], b[1..]) {
        PrefixSubseq(a[1..], b[1..], k - 1);
        assert a[..k][1..] == a[1..][..k - 1];
      } else {
        PrefixSubseq(a, b[1..], k);
      }
    }
  }

  /** `Array.prototype.map(x => hit(x) ? f(x) : x)`. */
  function UpdateWhere<T>(s: seq<T>, hit: T -> bool, f: T -> T): (r: seq<T>)
    ensures |r| == |s|
    ensures forall i :: 0 <= i < |s| && !hit(s[i]) ==> r[i] == s[i]
    ensures forall i :: 0 <= i < |s| && hit(s[i]) ==> r[i] == f(s[i])
  {
    seq(|s|, i requires 0 <= i < |s| => if hit(s[i]) then f(s[i]) else s[i])
  }

  /** The scan behind `[...new Set(s)]` with the elements of `seen` already
      inserted: each element not seen before is kept, at its first occurrence. */
  function DedupFrom<T(==,!new)>(s: seq<T>, seen: set<T>): (r: seq<T>)
    ensures forall x :: x in r <==> x in s && x !in seen
    ensures NoDuplicates(r)
    ensures forall i, j :: 0 <= i < j < |r| ==> FirstIndex(s, r[i]) < FirstIndex(s, r[j])
    ensures IsSubseq(r, s)
  {
    if s == [] then []
    else
      var rest := DedupFrom(s[1..], seen + {s[0]});
      assert forall x :: x in rest ==> x != s[0] && FirstIndex(s, x) == 1 + FirstIndex(s[1..], x);
      if s[0] in seen then
        DedupFrom(s[1..], seen)
      else
        [s[0]] + rest
  }

  /** `[...new Set(s)]`: the distinct elements of `s` in first-occurrence order. */
  function Dedup<T(==,!new)>(s: seq<T>): (r: seq<T>)
    ensures forall x :: x in r <==> x in s
    ensures NoDuplicates(r)
    ensures forall i, j :: 0 <= i < j < |r| ==> FirstIndex(s, r[i]) < FirstIndex(s, r[j])
    ensures IsSubseq(r, s)
  {
    DedupFrom(s, {})
  }
}
