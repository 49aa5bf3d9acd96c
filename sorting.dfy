// Python's `sorted(xs, key=k, reverse=True)` / `list.sort`: a stable sort on a real key.
// Ascending order on a key k is the descending order on -k, so one sort serves both.
module Sorting {

  ghost predicate SortedDesc<T>(s: seq<T>, key: T -> real)
  {
    forall i, j :: 0 <= i < j < |s| ==> key(s[i]) >= key(s[j])
  }

  /** The elements of s whose key equals v, in their original order. */
  function WithKey<T>(s: seq<T>, key: T -> real, v: real): (r: seq<T>)
    ensures |r| <= |s|
    ensures forall i :: 0 <= i < |r| ==> key(r[i]) == v
  {
    if s == [] then []
    else (if key(s[0]) == v then [s[0]] else []) + WithKey(s[1..], key, v)
  }

  /** Insert x after every element whose key is larger and before the rest. */
  function InsertDesc<T>(x: T, s: seq<T>, key: T -> real): (r: seq<T>)
    ensures |r| == |s| + 1
    ensures multiset(r) == multiset(s) + multiset{x}
    ensures r[0] == x || (s != [] && r[0] == s[0])
  {
    if s == [] || key(x) >= key(s[0]) then [x] + s
    else
      assert s == [s[0]] + s[1..];
      [s[0]] + InsertDesc(x, s[1..], key)
  }

  lemma {:induction false} InsertDescSorted<T>(x: T, s: seq<T>, key: T -> real)
    requires SortedDesc(s, key)
    ensures SortedDesc(InsertDesc(x, s, key), key)
  {
    if s != [] && key(x) < key(s[0]) {
      var t := InsertDesc(x, s[1..], key);
      InsertDescSorted(x, s[1..], key);
      assert key(t[0]) <= key(s[0]);
      assert forall j :: 0 <= j < |t| ==> key(t[j]) <= key(t[0]);
    }
  }

  /** Stable sort, largest key first. */
  function SortDesc<T>(s: seq<T>, key: T -> real): (r: seq<T>)
    ensures |r| == |s|
    ensures multiset(r) == multiset(s)
    ensures SortedDesc(r, key)
  {
    if s == [] then []
    else
      assert s == [s[0]] + s[1..];
      InsertDescSorted(s[0], SortDesc(s[1..], key), key);
      InsertDesc(s[0], SortDesc(s[1..], key), key)
  }

  lemma {:induction false} WithKeyInsert<T>(x: T, s: seq<T>, key: T -> real, v: real)
    requires SortedDesc(s, key)
    ensures WithKey(InsertDesc(x, s, key), key, v)
            == (if key(x) == v then [x] else []) + WithKey(s, key, v)
  {
    if s == [] || key(x) >= key(s[0]) {
      assert ([x] + s)[1..] == s;
    } else {
      var t := InsertDesc(x, s[1..], key);
      assert SortedDesc(s[1..], key) by {
        forall i, j | 0 <= i < j < |s[1..]| ensures key(s[1..][i]) >= key(s[1..][j]) {
          assert s[1..][i] == s[i + 1] && s[1..][j] == s[j + 1];
        }
      }
      WithKeyInsert(x, s[1..], key, v);
      var head := if key(s[0]) == v then [s[0]] else [];
      var rest := WithKey(s[1..], key, v);
      assert InsertDesc(x, s, key) == [s[0]] + t;
      assert ([s[0]] + t)[1..] == t;
      assert WithKey([s[0]] + t, key, v) == head + WithKey(t, key, v);
      assert WithKey(s, key, v) == head + rest;
      if key(x) == v {
        assert head == [] && WithKey(t, key, v) == [x] + rest;
      } else {
        assert WithKey(t, key, v) == rest;
      }
    }
  }

  /** Stability: elements with equal keys keep their relative order. */
  lemma {:induction false} SortDescStable<T>(s: seq<T>, key: T -> real, v: real)
    ensures WithKey(SortDesc(s, key), key, v) == WithKey(s, key, v)
  {
    if s != [] {
      SortDescStable(s[1..], key, v);
      WithKeyInsert(s[0], SortDesc(s[1..], key), key, v);
    }
  }

  /** In a descending order, the first n elements dominate the remaining ones. */
  lemma TopDominates<T>(r: seq<T>, key: T -> real, n: nat, x: T, y: T)
    requires SortedDesc(r, key) && n <= |r|
    requires x in r[..n] && y in r[n..]
    ensures key(x) >= key(y)
  {
    var i :| 0 <= i < n && r[..n][i] == x;
    var j :| 0 <= j < |r| - n && r[n..][j] == y;
    assert r[i] == x && r[n + j] == y;
  }

  function Negate<T>(key: T -> real): T -> real
  {
    x => -key(x)
  }

  /** Stable sort, smallest key first. */
  function SortAsc<T>(s: seq<T>, key: T -> real): (r: seq<T>)
    ensures |r| == |s|
    ensures multiset(r) == multiset(s)
    ensures forall i, j :: 0 <= i < j < |r| ==> key(r[i]) <= key(r[j])
  {
    var r := SortDesc(s, Negate(key));
    assert forall i, j :: 0 <= i < j < |r| ==> Negate(key)(r[i]) >= Negate(key)(r[j]);
    r
  }
}
