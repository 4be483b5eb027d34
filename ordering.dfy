/**
 * Row selection and ordering as the store's queries perform them: a WHERE
 * clause keeps the rows satisfying a condition, ORDER BY puts them in the
 * order given by a comparison.  Rows that compare equal keep their table
 * order (a stable insertion sort); SQL leaves that order unspecified.
 */
module Ordering {

  /** The rows of s that satisfy p, in table order. */
  function Filter<T(!new)>(s: seq<T>, p: T -> bool): (r: seq<T>)
    ensures |r| <= |s|
    ensures forall x :: x in r <==> x in s && p(x)
    ensures forall x :: multiset(r)[x] == if p(x) then multiset(s)[x] else 0
  {
    if s == [] then []
    else
      assert s == [s[0]] + s[1..];
      (if p(s[0]) then [s[0]] else []) + Filter(s[1..], p)
  }

  /** In a sorted sequence the first row comes before every row the WHERE keeps from the rest. */
  lemma HeadBeforeFiltered<T(!new)>(s: seq<T>, p: T -> bool, le: (T, T) -> bool)
    requires s != [] && SortedWith(s, le)
    ensures forall k :: 0 <= k < |Filter(s[1..], p)| ==> le(s[0], Filter(s[1..], p)[k])
  {
    var tail := s[1..];
    var rest := Filter(tail, p);
    forall k | 0 <= k < |rest| ensures le(s[0], rest[k]) {
      assert rest[k] in tail;
      var j :| 0 <= j < |tail| && tail[j] == rest[k];
      assert s[j + 1] == rest[k];
    }
  }

  /** Putting a row that comes before all others in front of a sorted sequence keeps it sorted. */
  lemma SortedCons<T>(x: T, rest: seq<T>, le: (T, T) -> bool)
    requires SortedWith(rest, le)
    requires forall k :: 0 <= k < |rest| ==> le(x, rest[k])
    ensures SortedWith([x] + rest, le)
  {
    var r := [x] + rest;
    forall i, j | 0 <= i < j < |r| ensures le(r[i], r[j]) {
      if i == 0 {
        assert r[j] == rest[j - 1];
      } else {
        assert r[i] == rest[i - 1] && r[j] == rest[j - 1];
      }
    }
  }

  /** The tail of a sorted sequence is sorted. */
  lemma SortedTail<T>(s: seq<T>, le: (T, T) -> bool)
    requires s != [] && SortedWith(s, le)
    ensures SortedWith(s[1..], le)
  {
    var tail := s[1..];
    forall i, j | 0 <= i < j < |tail| ensures le(tail[i], tail[j]) {
      assert tail[i] == s[i + 1] && tail[j] == s[j + 1];
    }
  }

  /** Filtering a sorted sequence leaves it sorted: WHERE after ORDER BY keeps the order. */
  lemma {:induction false} FilterKeepsOrder<T(!new)>(s: seq<T>, p: T -> bool, le: (T, T) -> bool)
    requires SortedWith(s, le)
    ensures SortedWith(Filter(s, p), le)
  {
    if s != [] {
      SortedTail(s, le);
      FilterKeepsOrder(s[1..], p, le);
      if p(s[0]) {
        HeadBeforeFiltered(s, p, le);
        SortedCons(s[0], Filter(s[1..], p), le);
      }
    }
  }

  /** WHERE over two runs of rows is the concatenation of the two selections. */
  lemma {:induction false} FilterAppend<T(!new)>(a: seq<T>, b: seq<T>, p: T -> bool)
    ensures Filter(a + b, p) == Filter(a, p) + Filter(b, p)
  {
    if a == [] {
      assert a + b == b;
    } else {
      assert (a + b)[0] == a[0] && (a + b)[1..] == a[1..] + b;
      FilterAppend(a[1..], b, p);
    }
  }

  /** A WHERE that every row satisfies keeps the table as it is. */
  lemma {:induction false} FilterAll<T(!new)>(s: seq<T>, p: T -> bool)
    requires forall i :: 0 <= i < |s| ==> p(s[i])
    ensures Filter(s, p) == s
  {
    if s != [] {
      assert p(s[0]);
      FilterAll(s[1..], p);
      assert [s[0]] + s[1..] == s;
    }
  }

  /** A WHERE that no row satisfies selects nothing. */
  lemma FilterNone<T(!new)>(s: seq<T>, p: T -> bool)
    requires forall x :: x in s ==> !p(x)
    ensures Filter(s, p) == []
  {
    if Filter(s, p) != [] {
      assert Filter(s, p)[0] in Filter(s, p);
    }
  }

  /** le is a total preorder: every two rows compare, and comparison chains. */
  ghost predicate TotalPreorder<T(!new)>(le: (T, T) -> bool) {
    && (forall x, y :: le(x, y) || le(y, x))
    && (forall x, y, z :: le(x, y) && le(y, z) ==> le(x, z))
  }

  predicate SortedWith<T>(s: seq<T>, le: (T, T) -> bool) {
    forall i, j :: 0 <= i < j < |s| ==> le(s[i], s[j])
  }

  /** Puts x in front of the first row it does not come after. */
  function Insert<T(!new)>(x: T, s: seq<T>, le: (T, T) -> bool): (r: seq<T>)
    requires TotalPreorder(le) && SortedWith(s, le)
    ensures |r| == |s| + 1
    ensures multiset(r) == multiset(s) + multiset{x}
    ensures SortedWith(r, le)
  {
    if s == [] || le(x, s[0]) then
      assert forall j :: 0 < j < |s| ==> le(x, s[j]) by {
        if s != [] {
          forall j | 0 < j < |s| ensures le(x, s[j]) {
            assert le(s[0], s[j]);
          }
        }
      }
      [x] + s
    else
      assert s == [s[0]] + s[1..];
      var rest := Insert(x, s[1..], le);
      assert forall k :: 0 <= k < |rest| ==> le(s[0], rest[k]) by {
        forall k | 0 <= k < |rest| ensures le(s[0], rest[k]) {
          assert rest[k] in multiset(rest);
          if rest[k] != x {
            assert rest[k] in multiset(s[1..]);
            var j :| 0 <= j < |s[1..]| && s[1..][j] == rest[k];
            assert le(s[0], s[j + 1]);
          }
        }
      }
      [s[0]] + rest
  }

  /** ORDER BY with comparison le: a sorted permutation of s. */
  function SortWith<T(!new)>(s: seq<T>, le: (T, T) -> bool): (r: seq<T>)
    requires TotalPreorder(le)
    ensures |r| == |s|
    ensures multiset(r) == multiset(s)
    ensures SortedWith(r, le)
  {
    if s == [] then []
    else
      assert s == [s[0]] + s[1..];
      Insert(s[0], SortWith(s[1..], le), le)
  }

  /** Sorting rows that are already in order leaves them where they are. */
  lemma {:induction false} SortWithOfSorted<T(!new)>(s: seq<T>, le: (T, T) -> bool)
    requires TotalPreorder(le) && SortedWith(s, le)
    ensures SortWith(s, le) == s
  {
    if s != [] {
      var tail := s[1..];
      assert SortedWith(tail, le) by {
        forall i, j | 0 <= i < j < |tail| ensures le(tail[i], tail[j]) {
          assert tail[i] == s[i + 1] && tail[j] == s[j + 1];
        }
      }
      SortWithOfSorted(tail, le);
      assert tail != [] ==> le(s[0], tail[0]);
      assert [s[0]] + tail == s;
    }
  }

  /** The comparison of rows by an integer column, ascending. */
  function ByKey<T>(key: T -> int): (T, T) -> bool {
    (a: T, b: T) => key(a) <= key(b)
  }

  lemma ByKeyIsTotalPreorder<T(!new)>(key: T -> int)
    ensures TotalPreorder(ByKey(key))
  {
  }

  /** ORDER BY an integer column ascending (negate the key for DESC). */
  function SortBy<T(!new)>(s: seq<T>, key: T -> int): (r: seq<T>)
    ensures |r| == |s|
    ensures multiset(r) == multiset(s)
    ensures forall i, j :: 0 <= i < j < |r| ==> key(r[i]) <= key(r[j])
  {
    ByKeyIsTotalPreorder(key);
    var r := SortWith(s, ByKey(key));
    assert forall i, j :: 0 <= i < j < |r| ==> ByKey(key)(r[i], r[j]);
    r
  }

  /** ORDER BY over rows already ascending by the column returns them unchanged. */
  lemma SortByOfSorted<T(!new)>(s: seq<T>, key: T -> int)
    requires forall i, j :: 0 <= i < j < |s| ==> key(s[i]) <= key(s[j])
    ensures SortBy(s, key) == s
  {
    ByKeyIsTotalPreorder(key);
    assert SortedWith(s, ByKey(key));
    SortWithOfSorted(s, ByKey(key));
  }
}
