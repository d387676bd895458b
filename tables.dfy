/**
  Generic table operations: the equality filter and the descending order that
  every query of the hosted database is built from.
*/
module Tables {

  /** The rows of `s` that satisfy `p`, in their original order (a `WHERE` clause). */
  function Filter<T(==,!new)>(s: seq<T>, p: T -> bool): (r: seq<T>)
    ensures |r| <= |s|
    ensures forall x :: x in r <==> x in s && p(x)
  {
    if s == [] then []
    else
      assert s == [s[0]] + s[1..];
      var rest := Filter(s[1..], p);
      if p(s[0]) then [s[0]] + rest else rest
  }

  /** Selecting from a concatenation selects from each part. */
  lemma {:induction false} FilterAppend<T(!new)>(a: seq<T>, b: seq<T>, p: T -> bool)
    ensures Filter(a + b, p) == Filter(a, p) + Filter(b, p)
  {
    if a == [] {
      assert a + b == b;
    } else {
      assert (a + b)[1..] == a[1..] + b;
      FilterAppend(a[1..], b, p);
    }
  }

  /** A row occurs in the selection as often as in the table when it satisfies the condition, otherwise never. */
  lemma {:induction false} FilterMultiset<T(!new)>(s: seq<T>, p: T -> bool)
    ensures forall x :: multiset(Filter(s, p))[x] == if p(x) then multiset(s)[x] else 0
  {
    if s != [] {
      assert s == [s[0]] + s[1..];
      FilterMultiset(s[1..], p);
    }
  }

  /** Nothing is selected when no row satisfies the condition. */
  lemma FilterNone<T(!new)>(s: seq<T>, p: T -> bool)
    requires forall x :: x in s ==> !p(x)
    ensures Filter(s, p) == []
  {
  }

  /** Keys are pairwise distinct: the table's primary key. */
  predicate KeysUnique<T>(s: seq<T>, key: T -> nat)
  {
    forall i, j :: 0 <= i < j < |s| ==> key(s[i]) != key(s[j])
  }

  /** Under a primary key, the rows after the first are keyed uniquely and none shares the first row's key. */
  lemma KeysUniqueTail<T>(s: seq<T>, key: T -> nat)
    requires KeysUnique(s, key) && s != []
    ensures KeysUnique(s[1..], key)
    ensures forall x :: x in s[1..] ==> key(x) != key(s[0])
  {
    forall i, j | 0 <= i < j < |s[1..]| ensures key(s[1..][i]) != key(s[1..][j]) {
      assert s[1..][i] == s[i + 1] && s[1..][j] == s[j + 1];
    }
    forall x | x in s[1..] ensures key(x) != key(s[0]) {
      var i :| 0 <= i < |s[1..]| && s[1..][i] == x;
      assert s[i + 1] == x;
    }
  }

  /**
    `DELETE ... WHERE key = k` on a table with a primary key removes exactly
    one row when a row with that key exists, and none otherwise.
  */
  lemma {:induction false} DeleteByKey<T(!new)>(s: seq<T>, key: T -> nat, k: nat, p: T -> bool)
    requires KeysUnique(s, key)
    requires forall x :: p(x) <==> key(x) != k
    ensures |Filter(s, p)| == if exists x :: x in s && key(x) == k then |s| - 1 else |s|
  {
    if s != [] {
      KeysUniqueTail(s, key);
      DeleteByKey(s[1..], key, k, p);
      assert s == [s[0]] + s[1..];
      if key(s[0]) != k {
        assert (exists x :: x in s && key(x) == k) <==> (exists x :: x in s[1..] && key(x) == k);
      }
    }
  }

  /** Rewriting rows without changing their keys keeps the keys unique. */
  lemma KeysKept<T>(s: seq<T>, r: seq<T>, key: T -> nat)
    requires KeysUnique(s, key)
    requires |r| == |s| && forall i :: 0 <= i < |s| ==> key(r[i]) == key(s[i])
    ensures KeysUnique(r, key)
  {
  }

  /** A selection from a table with unique keys has unique keys. */
  lemma {:induction false} FilterKeepsKeys<T(!new)>(s: seq<T>, key: T -> nat, p: T -> bool)
    requires KeysUnique(s, key)
    ensures KeysUnique(Filter(s, p), key)
  {
    if s != [] {
      KeysUniqueTail(s, key);
      FilterKeepsKeys(s[1..], key, p);
      var rest := Filter(s[1..], p);
      if p(s[0]) {
        var r := [s[0]] + rest;
        forall i, j | 0 <= i < j < |r| ensures key(r[i]) != key(r[j]) {
          if i == 0 {
            assert r[j] == rest[j - 1] && rest[j - 1] in s[1..];
            var k :| 0 <= k < |s[1..]| && s[1..][k] == r[j];
            assert s[k + 1] == r[j];
          } else {
            assert r[i] == rest[i - 1] && r[j] == rest[j - 1];
          }
        }
      }
    }
  }

  /** Under a primary key, a selection that implies one key value finds at most one row. */
  lemma {:induction false} SelectByKeyAtMostOne<T(!new)>(s: seq<T>, key: T -> nat, p: T -> bool, k: nat)
    requires KeysUnique(s, key)
    requires forall x :: p(x) ==> key(x) == k
    ensures |Filter(s, p)| <= 1
  {
    if s != [] {
      KeysUniqueTail(s, key);
      SelectByKeyAtMostOne(s[1..], key, p, k);
      if p(s[0]) {
        forall y | y in s[1..] ensures !p(y) {
          var i :| 0 <= i < |s[1..]| && s[1..][i] == y;
          assert s[i + 1] == y;
        }
        FilterNone(s[1..], p);
      }
    }
  }

  /** Non-increasing by `key`: the order of `.order(key, { ascending: false })`. */
  predicate SortedDesc<T>(s: seq<T>, key: T -> int)
  {
    forall i, j :: 0 <= i < j < |s| ==> key(s[i]) >= key(s[j])
  }

  /** Dropping the first row of a sorted table leaves it sorted. */
  lemma TailSorted<T>(s: seq<T>, key: T -> int)
    requires s != [] && SortedDesc(s, key)
    ensures SortedDesc(s[1..], key)
  {
    forall i, j | 0 <= i < j < |s[1..]| ensures key(s[1..][i]) >= key(s[1..][j]) {
      assert s[1..][i] == s[i + 1] && s[1..][j] == s[j + 1];
    }
  }

  /** The first row of a sorted table has the largest key. */
  lemma HeadIsMax<T>(s: seq<T>, key: T -> int)
    requires s != [] && SortedDesc(s, key)
    ensures forall z :: z in s[1..] ==> key(z) <= key(s[0])
  {
    forall z | z in s[1..] ensures key(z) <= key(s[0]) {
      var k :| 0 <= k < |s[1..]| && s[1..][k] == z;
      assert s[k + 1] == z;
    }
  }

  /** A row with a key at least every key of a sorted table may go in front of it. */
  lemma ConsSorted<T>(y: T, s: seq<T>, key: T -> int)
    requires SortedDesc(s, key)
    requires forall z :: z in s ==> key(z) <= key(y)
    ensures SortedDesc([y] + s, key)
  {
    var r := [y] + s;
    forall i, j | 0 <= i < j < |r| ensures key(r[i]) >= key(r[j]) {
      assert r[j] == s[j - 1] && s[j - 1] in s;
      if i > 0 {
        assert r[i] == s[i - 1];
      }
    }
  }

  /** Puts `x` in front of the first row whose key is not larger than its own. */
  function InsertDesc<T(==,!new)>(x: T, s: seq<T>, key: T -> int): (r: seq<T>)
    requires SortedDesc(s, key)
    ensures SortedDesc(r, key)
    ensures multiset(r) == multiset(s) + multiset{x}
    ensures forall z :: z in r ==> z == x || z in s
  {
    if s == [] || key(s[0]) <= key(x) then
      ConsSorted(x, s, key);
      [x] + s
    else
      assert s == [s[0]] + s[1..];
      TailSorted(s, key);
      HeadIsMax(s, key);
      var tail := InsertDesc(x, s[1..], key);
      ConsSorted(s[0], tail, key);
      [s[0]] + tail
  }

  /**
    The rows of `s` ordered by `key`, largest first. Rows with equal keys keep
    their original relative order (the database leaves that order unspecified;
    this is one valid choice).
  */
  function SortDesc<T(==,!new)>(s: seq<T>, key: T -> int): (r: seq<T>)
    ensures SortedDesc(r, key)
    ensures multiset(r) == multiset(s)
    ensures |r| == |s|
    ensures forall x :: x in r <==> x in s
  {
    if s == [] then []
    else
      assert s == [s[0]] + s[1..];
      var r := InsertDesc(s[0], SortDesc(s[1..], key), key);
      assert forall x :: x in r <==> x in multiset(r);
      r
  }

  /** `UPDATE ... WHERE p`: every row satisfying `p` is replaced by `f` of itself, in place. */
  function UpdateWhere<T>(s: seq<T>, p: T -> bool, f: T -> T): (r: seq<T>)
    ensures |r| == |s|
    ensures forall i :: 0 <= i < |s| ==> r[i] == if p(s[i]) then f(s[i]) else s[i]
  {
    if s == [] then []
    else [if p(s[0]) then f(s[0]) else s[0]] + UpdateWhere(s[1..], p, f)
  }

  /**
    `UPDATE ... WHERE key = k` on a table with a primary key, followed by
    selecting the updated row: the keys stay unique, and exactly one row comes
    back, the rewrite of the old row, precisely when a row with that key existed.
  */
  lemma {:induction false} UpdateByKey<T(!new)>(s: seq<T>, key: T -> nat, k: nat, p: T -> bool, f: T -> T)
    requires KeysUnique(s, key)
    requires forall x :: p(x) <==> key(x) == k
    requires forall x :: key(f(x)) == key(x)
    ensures KeysUnique(UpdateWhere(s, p, f), key)
    ensures forall y :: y in UpdateWhere(s, p, f) ==> exists x :: x in s && key(x) == key(y)
    ensures |Filter(UpdateWhere(s, p, f), p)| == 1 <==> exists x :: x in s && key(x) == k
    ensures Filter(UpdateWhere(s, p, f), p) == [] <==> !exists x :: x in s && key(x) == k
    ensures |Filter(UpdateWhere(s, p, f), p)| == 1 ==>
              exists x :: x in s && key(x) == k && Filter(UpdateWhere(s, p, f), p)[0] == f(x)
  {
    var r := UpdateWhere(s, p, f);
    KeysKept(s, r, key);
    forall y | y in r ensures exists x :: x in s && key(x) == key(y) {
      var i :| 0 <= i < |r| && r[i] == y;
      assert s[i] in s;
    }
    SelectByKeyAtMostOne(r, key, p, k);
    var rows := Filter(r, p);
    if exists x :: x in s && key(x) == k {
      var x :| x in s && key(x) == k;
      var i :| 0 <= i < |s| && s[i] == x;
      assert r[i] == f(x);
      assert r[i] in rows;
      var y := rows[0];
      assert y in rows;
      var j :| 0 <= j < |r| && r[j] == y;
      assert key(s[j]) == k;
      assert j == i;
    } else {
      forall y | y in r ensures !p(y) {
        var i :| 0 <= i < |r| && r[i] == y;
        assert s[i] in s;
      }
      FilterNone(r, p);
    }
  }
}
