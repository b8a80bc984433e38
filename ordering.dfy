/** SQL `ORDER BY`. Rows are ordered by an integer key; ties are left in an
    order the database does not promise, so the contracts say only that the
    result is sorted and holds the same rows. Descending orders use the negated
    key. */
module Ordering {
  import opened Seqs

  ghost predicate SortedBy<T>(s: seq<T>, key: T -> int) {
    forall i, j :: 0 <= i < j < |s| ==> key(s[i]) <= key(s[j])
  }

  /** Puts `x` in front of the first element whose key is not smaller. */
  function Insert<T>(x: T, s: seq<T>, key: T -> int): (r: seq<T>)
    requires SortedBy(s, key)
    ensures SortedBy(r, key)
    ensures multiset(r) == multiset(s) + multiset{x}
  {
    if s == [] || key(x) <= key(s[0]) then [x] + s
    else
      var t := Insert(x, s[1..], key);
      InsertBehindHead(s, x, t, key);
      [s[0]] + t
  }

  /** The head of a sorted list may stay in front of the rest with a larger
      element inserted into it. */
  lemma InsertBehindHead<T>(s: seq<T>, x: T, t: seq<T>, key: T -> int)
    requires s != [] && SortedBy(s, key) && key(s[0]) < key(x)
    requires SortedBy(t, key) && multiset(t) == multiset(s[1..]) + multiset{x}
    ensures SortedBy([s[0]] + t, key)
    ensures multiset([s[0]] + t) == multiset(s) + multiset{x}
  {
    assert s == [s[0]] + s[1..];
    forall k | 0 <= k < |t| ensures key(s[0]) <= key(t[k]) {
      assert t[k] in multiset(t);
      if t[k] != x {
        assert t[k] in multiset(s[1..]);
        var i :| 0 <= i < |s[1..]| && s[1..][i] == t[k];
        assert s[i + 1] == t[k];
      }
    }
    var r := [s[0]] + t;
    forall i, j | 0 <= i < j < |r| ensures key(r[i]) <= key(r[j]) {
      if i > 0 { assert r[i] == t[i - 1] && r[j] == t[j - 1]; }
      else { assert r[j] == t[j - 1]; }
    }
  }

  /** The rows of `s`, ordered by ascending key. */
  function SortBy<T>(s: seq<T>, key: T -> int): (r: seq<T>)
    ensures SortedBy(r, key)
    ensures multiset(r) == multiset(s)
  {
    if s == [] then []
    else
      assert s == [s[0]] + s[1..];
      Insert(s[0], SortBy(s[1..], key), key)
  }

  /** Ordering keeps exactly the rows it was given. */
  lemma SortByMember<T>(s: seq<T>, key: T -> int, x: T)
    ensures x in SortBy(s, key) <==> x in s
  {
    assert x in SortBy(s, key) <==> x in multiset(SortBy(s, key));
    assert x in s <==> x in multiset(s);
  }

  /** `SELECT ... WHERE p ORDER BY key`: exactly the qualifying rows, each as
      often as it occurs, sorted by the key. */
  function Select<T(!new)>(s: seq<T>, p: T -> bool, key: T -> int): (r: seq<T>)
    ensures SortedBy(r, key)
    ensures multiset(r) == multiset(Filter(s, p))
    ensures forall x :: x in r <==> x in s && p(x)
  {
    var r := SortBy(Filter(s, p), key);
    assert forall x :: x in r <==> x in multiset(r);
    assert forall x :: x in Filter(s, p) <==> x in multiset(Filter(s, p));
    r
  }
}
