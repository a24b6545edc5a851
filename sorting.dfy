/** Sorting by a string key, as Swift's `sorted { key($0) < key($1) }` does: the result is
    a permutation of the input in non-decreasing key order. Swift's sort is not stable;
    this insertion sort is, which is one of the orders Swift may produce. */
module Sorting {
  import opened Text

  /** No element's key is less than the key of an element before it. */
  ghost predicate SortedBy<T>(key: T -> string, s: seq<T>)
  {
    forall i, j :: 0 <= i < j < |s| ==> !Less(key(s[j]), key(s[i]))
  }

  lemma InsertFront<T>(key: T -> string, x: T, s: seq<T>)
    requires SortedBy(key, s) && s != [] && !Less(key(s[0]), key(x))
    ensures SortedBy(key, [x] + s)
  {
    forall j | 0 <= j < |s|
      ensures !Less(key(s[j]), key(x))
    {
      if j > 0 {
        NotLessTransitive(key(x), key(s[0]), key(s[j]));
      }
    }
  }

  lemma InsertBehind<T>(key: T -> string, x: T, s: seq<T>, r: seq<T>)
    requires SortedBy(key, s) && s != [] && Less(key(s[0]), key(x))
    requires SortedBy(key, r) && multiset(r) == multiset(s[1..]) + multiset{x}
    ensures SortedBy(key, [s[0]] + r)
  {
    LessAsymmetric(key(s[0]), key(x));
    forall j | 0 <= j < |r|
      ensures !Less(key(r[j]), key(s[0]))
    {
      assert r[j] in multiset(r);
      if r[j] != x {
        assert r[j] in s[1..];
        var k :| 0 <= k < |s[1..]| && s[1..][k] == r[j];
        assert s[k + 1] == r[j];
      }
    }
  }

  /** `x` placed before the first element whose key is not less than its own. */
  function InsertBy<T>(key: T -> string, x: T, s: seq<T>): (r: seq<T>)
    requires SortedBy(key, s)
    ensures SortedBy(key, r)
    ensures multiset(r) == multiset(s) + multiset{x}
  {
    if s == [] then [x]
    else if !Less(key(s[0]), key(x)) then
      InsertFront(key, x, s);
      [x] + s
    else
      var rest := InsertBy(key, x, s[1..]);
      InsertBehind(key, x, s, rest);
      assert s == [s[0]] + s[1..];
      [s[0]] + rest
  }

  /** Insertion sort by `key`. */
  function SortBy<T>(key: T -> string, s: seq<T>): (r: seq<T>)
    ensures SortedBy(key, r)
    ensures multiset(r) == multiset(s)
  {
    if s == [] then []
    else
      assert s == [s[0]] + s[1..];
      InsertBy(key, s[0], SortBy(key, s[1..]))
  }

  /** Keeping some elements of a sorted sequence, in their order, leaves it sorted. */
  lemma {:induction false} SortedPrefixExtend<T>(key: T -> string, r: seq<T>, s: seq<T>, x: T)
    requires SortedBy(key, r) && SortedBy(key, s + [x])
    requires forall y :: y in r ==> y in s
    ensures SortedBy(key, r + [x])
  {
    forall y | y in r
      ensures !Less(key(x), key(y))
    {
      var i :| 0 <= i < |s| && s[i] == y;
      assert (s + [x])[i] == y && (s + [x])[|s|] == x;
    }
    forall i, j | 0 <= i < j < |r + [x]|
      ensures !Less(key((r + [x])[j]), key((r + [x])[i]))
    {
      if j == |r| {
        assert (r + [x])[i] in r;
      }
    }
  }
}
