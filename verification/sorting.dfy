/** Sorting a sequence of rows by a key, as pandas' `sort_values` does.

    pandas' default sort is not stable, so the model promises only what the
    source relies on: the result is ordered by the key and holds the same
    rows, each as often as before. */
module Sorting {
  import opened Lex

  /** Every earlier row's key sorts before or equal to every later row's key. */
  ghost predicate SortedBy<T>(s: seq<T>, key: T -> seq<int>)
  {
    forall i, j :: 0 <= i < j < |s| ==> LexLe(key(s[i]), key(s[j]))
  }

  /** Places x in front of the first row whose key sorts strictly after it. */
  function Insert<T>(x: T, s: seq<T>, key: T -> seq<int>): (r: seq<T>)
    requires SortedBy(s, key)
    ensures SortedBy(r, key)
    ensures multiset(r) == multiset(s) + multiset{x}
    ensures |r| == |s| + 1
    ensures forall i :: 0 <= i < |r| ==> r[i] == x || r[i] in s
    decreases |s|
  {
    if |s| == 0 then
      [x]
    else if LexLe(key(x), key(s[0])) then
      InsertFrontSorted(x, s, key);
      [x] + s
    else
      LexLeTotal(key(x), key(s[0]));
      var tail := Insert(x, s[1..], key);
      assert s == [s[0]] + s[1..];
      InsertConsSorted(s[0], tail, x, s[1..], key);
      [s[0]] + tail
  }

  lemma InsertFrontSorted<T>(x: T, s: seq<T>, key: T -> seq<int>)
    requires SortedBy(s, key)
    requires |s| > 0 && LexLe(key(x), key(s[0]))
    ensures SortedBy([x] + s, key)
  {
    var r := [x] + s;
    forall i, j | 0 <= i < j < |r|
      ensures LexLe(key(r[i]), key(r[j]))
    {
      if i == 0 && j > 1 {
        LexLeTransitive(key(x), key(s[0]), key(s[j - 1]));
      }
    }
  }

  lemma InsertConsSorted<T>(h: T, tail: seq<T>, x: T, rest: seq<T>, key: T -> seq<int>)
    requires SortedBy([h] + rest, key)
    requires SortedBy(tail, key)
    requires LexLe(key(h), key(x))
    requires forall i :: 0 <= i < |tail| ==> tail[i] == x || tail[i] in rest
    ensures SortedBy([h] + tail, key)
  {
    var r := [h] + tail;
    forall i, j | 0 <= i < j < |r|
      ensures LexLe(key(r[i]), key(r[j]))
    {
      if i == 0 {
        if tail[j - 1] != x {
          var k :| 0 <= k < |rest| && rest[k] == tail[j - 1];
          assert ([h] + rest)[0] == h && ([h] + rest)[k + 1] == rest[k];
        }
      } else {
        assert r[i] == tail[i - 1] && r[j] == tail[j - 1];
      }
    }
  }

  /** Insertion sort: the rows of s ordered by key. */
  function SortBy<T>(s: seq<T>, key: T -> seq<int>): (r: seq<T>)
    ensures SortedBy(r, key)
    ensures multiset(r) == multiset(s)
    decreases |s|
  {
    if |s| == 0 then
      []
    else
      assert s == [s[0]] + s[1..];
      Insert(s[0], SortBy(s[1..], key), key)
  }
}
