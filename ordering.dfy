/**
 * Ordered reads from the database: `.order(column, { ascending: false })` over
 * a nullable key and `.limit(n)`. Rows whose key is NULL come first in a
 * descending order, as in PostgreSQL; ties may come back in any order, so the
 * sort below is only ever used through its contract.
 */
module Ordering {
  import opened Basics

  /** `a` may come before `b` in a descending order: NULL sorts first. */
  predicate KeyGe(a: Option<int>, b: Option<int>) {
    a.None? || (b.Some? && a.value >= b.value)
  }

  predicate SortedDescBy<T>(s: seq<T>, key: T -> Option<int>) {
    forall i, j :: 0 <= i < j < |s| ==> KeyGe(key(s[i]), key(s[j]))
  }

  function InsertBy<T>(x: T, s: seq<T>, key: T -> Option<int>): (r: seq<T>)
    requires SortedDescBy(s, key)
    ensures SortedDescBy(r, key)
    ensures multiset(r) == multiset(s) + multiset{x}
  {
    if s == [] then [x]
    else if KeyGe(key(x), key(s[0])) then [x] + s
    else
      var rest := InsertBy(x, s[1..], key);
      assert s == [s[0]] + s[1..];
      assert forall j :: 0 <= j < |rest| ==> KeyGe(key(s[0]), key(rest[j])) by {
        forall j | 0 <= j < |rest| ensures KeyGe(key(s[0]), key(rest[j])) {
          assert rest[j] in multiset(rest);
          if rest[j] != x {
            assert rest[j] in multiset(s[1..]);
            var m :| 0 <= m < |s[1..]| && s[1..][m] == rest[j];
            assert s[m + 1] == rest[j];
          }
        }
      }
      [s[0]] + rest
  }

  /** A descending sort by `key`: sorted, and a permutation of its input. */
  function SortDescBy<T>(s: seq<T>, key: T -> Option<int>): (r: seq<T>)
    ensures SortedDescBy(r, key)
    ensures multiset(r) == multiset(s)
  {
    if s == [] then [] else
      assert s == [s[0]] + s[1..];
      InsertBy(s[0], SortDescBy(s[1..], key), key)
  }

  /** `.limit(n)` */
  function Limit<T>(s: seq<T>, n: nat): (r: seq<T>)
    ensures |r| == if |s| < n then |s| else n
    ensures r == s[..|r|]
  {
    if |s| < n then s else s[..n]
  }

  /** A prefix of a sorted sequence is sorted. */
  lemma LimitSorted<T>(s: seq<T>, n: nat, key: T -> Option<int>)
    requires SortedDescBy(s, key)
    ensures SortedDescBy(Limit(s, n), key)
  {
    var r := Limit(s, n);
    assert forall i :: 0 <= i < |r| ==> r[i] == s[i];
  }
}
