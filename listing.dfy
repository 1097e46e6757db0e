/** What a `findAll({ where, order: [[column, 'DESC']] })` query returns:
    the rows of a table that pass the filter, ordered by a column, largest
    first. Tables are maps from primary key to row. */
module Listing {

  ghost predicate SortedDesc<T>(xs: seq<T>, key: T -> int)
  {
    forall i, j :: 0 <= i < j < |xs| ==> key(xs[i]) >= key(xs[j])
  }

  /** x placed into a list sorted by key, before the first smaller row. */
  function Insert<T>(x: T, xs: seq<T>, key: T -> int): (r: seq<T>)
    requires SortedDesc(xs, key)
    ensures |r| == |xs| + 1 && (r[0] == x || (xs != [] && r[0] == xs[0]))
    ensures SortedDesc(r, key)
    ensures multiset(r) == multiset(xs) + multiset{x}
  {
    if xs == [] || key(xs[0]) <= key(x) then [x] + xs
    else
      var rest := Insert(x, xs[1..], key);
      var r := [xs[0]] + rest;
      assert key(r[0]) >= key(r[1]);
      assert SortedDesc(r, key) by {
        forall i, j | 0 <= i < j < |r| ensures key(r[i]) >= key(r[j]) {
          if 0 < i { assert r[i] == rest[i - 1] && r[j] == rest[j - 1]; }
          else if 1 < j { assert r[1] == rest[0] && r[j] == rest[j - 1]; }
        }
      }
      assert xs == [xs[0]] + xs[1..];
      r
  }

  /** The rows ordered by key, largest first; the same rows, no row lost or added. */
  function SortDesc<T>(xs: seq<T>, key: T -> int): (r: seq<T>)
    ensures SortedDesc(r, key)
    ensures multiset(r) == multiset(xs)
  {
    if xs == [] then []
    else
      assert xs == [xs[0]] + xs[1..];
      Insert(xs[0], SortDesc(xs[1..], key), key)
  }

  /** The rows that pass the filter, in their order: each passing row as
      often as it occurs, the others not at all. */
  function Filter<T(!new)>(xs: seq<T>, p: T -> bool): (r: seq<T>)
    ensures forall x :: multiset(r)[x] == if p(x) then multiset(xs)[x] else 0
  {
    if xs == [] then []
    else
      assert xs == [xs[0]] + xs[1..];
      (if p(xs[0]) then [xs[0]] else []) + Filter(xs[1..], p)
  }

  /** How many keys in [0, n) hold the row x. */
  ghost function KeyCount<T>(m: map<int, T>, n: int, x: T): nat
    decreases n
  {
    if n <= 0 then 0
    else (if n - 1 in m && m[n - 1] == x then 1 else 0) + KeyCount(m, n - 1, x)
  }

  /** The rows of a table whose keys lie in [0, n), by descending key. */
  function RowsBelow<T(==)>(m: map<int, T>, n: int): (r: seq<T>)
    decreases n
    ensures forall x :: x in r ==> x in m.Values
    ensures forall k :: 0 <= k < n && k in m ==> m[k] in r
  {
    if n <= 0 then []
    else (if n - 1 in m then [m[n - 1]] else []) + RowsBelow(m, n - 1)
  }

  /** RowsBelow lists each row once per key in [0, n) that holds it. */
  lemma {:induction false} RowsBelowCount<T>(m: map<int, T>, n: int, x: T)
    decreases n
    ensures multiset(RowsBelow(m, n))[x] == KeyCount(m, n, x)
  {
    if n > 0 {
      RowsBelowCount(m, n - 1, x);
    }
  }

  /** The answer of the query: the rows that pass the filter, each exactly
      as often as the table holds it, ordered by key, largest first. */
  function Query<T(==,!new)>(m: map<int, T>, n: int, p: T -> bool, key: T -> int): (r: seq<T>)
    requires forall k :: k in m ==> 0 <= k < n
    ensures SortedDesc(r, key)
    ensures forall x :: x in r <==> x in m.Values && p(x)
    ensures forall x :: multiset(r)[x] == if p(x) then KeyCount(m, n, x) else 0
  {
    var rows := RowsBelow(m, n);
    var r := SortDesc(Filter(rows, p), key);
    assert forall x :: multiset(r)[x] == if p(x) then KeyCount(m, n, x) else 0 by {
      forall x ensures multiset(r)[x] == if p(x) then KeyCount(m, n, x) else 0 {
        RowsBelowCount(m, n, x);
      }
    }
    assert forall x :: x in r <==> x in m.Values && p(x) by {
      forall x ensures x in r <==> x in m.Values && p(x) {
        assert x in r <==> x in multiset(r);
        assert x in rows <==> x in multiset(rows);
      }
    }
    r
  }

  /** In a table whose rows carry their own key, a row is held by at most
      one key, its own: once if it is stored there, not at all otherwise. */
  lemma {:induction false} KeyCountOfKeyedRow<T>(m: map<int, T>, n: int, id: T -> int, x: T)
    requires forall k :: k in m ==> id(m[k]) == k
    decreases n
    ensures KeyCount(m, n, x) == if 0 <= id(x) < n && id(x) in m && m[id(x)] == x then 1 else 0
  {
    if n > 0 {
      KeyCountOfKeyedRow(m, n - 1, id, x);
      if n - 1 in m && m[n - 1] == x {
        assert id(x) == n - 1;
      }
    }
  }
}
