/** `Array.prototype.filter` and the SQL `WHERE` clause on a table held in
    insertion order, with the facts the handlers and pages rely on. */
module Seqs {
  import opened Common

  /** `a` is `b` with some elements left out, the others kept in order.
      Matching each element of `a` against the first equal element of `b`
      is enough to decide it. */
  ghost predicate Subseq<T>(a: seq<T>, b: seq<T>)
    decreases |b|
  {
    a == [] || (b != [] && (if a[0] == b[0] then Subseq(a[1..], b[1..]) else Subseq(a, b[1..])))
  }

  /** The elements of `s` that satisfy `p`, in their original order. */
  function Filter<T(!new)>(s: seq<T>, p: T -> bool): (r: seq<T>)
    ensures |r| <= |s|
    ensures forall x :: x in r <==> x in s && p(x)
    ensures Subseq(r, s)
  {
    if s == [] then []
    else if p(s[0]) then [s[0]] + Filter(s[1..], p)
    else Filter(s[1..], p)
  }

  /** Every sequence is a subsequence of itself. */
  lemma {:induction false} SubseqRefl<T>(s: seq<T>)
    ensures Subseq(s, s)
  {
    if s != [] { SubseqRefl(s[1..]); }
  }

  /** Filtering on two predicates that agree on every element gives the same result. */
  lemma {:induction false} FilterExt<T(!new)>(s: seq<T>, p: T -> bool, q: T -> bool)
    requires forall x :: x in s ==> p(x) == q(x)
    ensures Filter(s, p) == Filter(s, q)
  {
    if s != [] { FilterExt(s[1..], p, q); }
  }

  /** Filtering distributes over concatenation: a row appended to a table is
      appended to the result when it qualifies, and the earlier rows keep their
      places. */
  lemma {:induction false} FilterAppend<T(!new)>(a: seq<T>, b: seq<T>, p: T -> bool)
    ensures Filter(a + b, p) == Filter(a, p) + Filter(b, p)
  {
    if a == [] {
      assert a + b == b;
    } else {
      assert (a + b)[1..] == a[1..] + b;
      FilterAppend(a[1..], b, p);
    }
  }

  /** When every element qualifies the filter returns its input unchanged. */
  lemma {:induction false} FilterKeepsAll<T(!new)>(s: seq<T>, p: T -> bool)
    requires forall x :: x in s ==> p(x)
    ensures Filter(s, p) == s
  {
    if s != [] {
      FilterKeepsAll(s[1..], p);
      assert [s[0]] + s[1..] == s;
    }
  }

  /** Filtering twice by the same predicate is filtering once. */
  lemma FilterIdempotent<T(!new)>(s: seq<T>, p: T -> bool)
    ensures Filter(Filter(s, p), p) == Filter(s, p)
  {
    FilterKeepsAll(Filter(s, p), p);
  }

  /** The number of elements that satisfy `p`, as SQL `COUNT(*)` counts them. */
  function Count<T(!new)>(s: seq<T>, p: T -> bool): (n: nat)
    ensures n <= |s|
    ensures n == 0 <==> forall x :: x in s ==> !p(x)
  {
    var r := Filter(s, p);
    assert r != [] ==> r[0] in r;
    |r|
  }

  /** A row that qualifies makes the count at least one. */
  lemma CountPositive<T(!new)>(s: seq<T>, p: T -> bool, x: T)
    requires x in s && p(x)
    ensures Count(s, p) >= 1
  {
  }

  /** A `SELECT` driven by one table whose joins are on primary keys: each row
      of `s` yields at most one result row, `f(x)`, or none when the `WHERE`
      clause or a join drops it. The results keep the table's order. */
  function FilterMap<A, B>(s: seq<A>, f: A -> Option<B>): (r: seq<B>)
    ensures |r| <= |s|
  {
    if s == [] then []
    else match f(s[0])
      case Some(y) => [y] + FilterMap(s[1..], f)
      case None => FilterMap(s[1..], f)
  }

  /** A result row is exactly the image of some row of the table. */
  lemma {:induction false} FilterMapMember<A, B>(s: seq<A>, f: A -> Option<B>, y: B)
    ensures y in FilterMap(s, f) <==> exists x :: x in s && f(x) == Some(y)
  {
    if s != [] {
      FilterMapMember(s[1..], f, y);
      assert s == [s[0]] + s[1..];
      if exists x :: x in s && f(x) == Some(y) {
        var x :| x in s && f(x) == Some(y);
        if x != s[0] { assert x in s[1..]; }
      }
    }
  }

  /** As many result rows as table rows that the query keeps. */
  lemma {:induction false} FilterMapLength<A(!new), B>(s: seq<A>, f: A -> Option<B>, kept: A -> bool)
    requires forall x :: x in s ==> (kept(x) <==> f(x).Some?)
    ensures |FilterMap(s, f)| == Count(s, kept)
  {
    if s != [] {
      FilterMapLength(s[1..], f, kept);
    }
  }
}
