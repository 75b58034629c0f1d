/** The two order-based builtins the backend relies on: `max(xs, key=k)` and
    `sorted(xs, key=k, reverse=True)`. */
module Ordering {

  /** Index of the element Python's `max(s, key=key)` returns: `max` replaces its candidate
      only on a strictly greater key, so it picks the FIRST element of maximal key. */
  function ArgMax<T>(s: seq<T>, key: T -> real): (i: nat)
    requires |s| > 0
    ensures i < |s|
    ensures forall j :: 0 <= j < |s| ==> key(s[j]) <= key(s[i])
    ensures forall j :: 0 <= j < i ==> key(s[j]) < key(s[i])
  {
    if |s| == 1 then 0
    else
      var m := ArgMax(s[..|s| - 1], key);
      if key(s[|s| - 1]) > key(s[m]) then |s| - 1 else m
  }

  /** Keys never increase from left to right. */
  ghost predicate SortedDesc<T>(s: seq<T>, key: T -> int) {
    forall i, j :: 0 <= i < j < |s| ==> key(s[j]) <= key(s[i])
  }

  /** A head no smaller than every key of a sorted tail keeps the sequence sorted. */
  lemma ConsSorted<T>(h: T, t: seq<T>, key: T -> int)
    requires SortedDesc(t, key)
    requires forall k :: 0 <= k < |t| ==> key(t[k]) <= key(h)
    ensures SortedDesc([h] + t, key)
  {
    var r := [h] + t;
    forall i, j | 0 <= i < j < |r| ensures key(r[j]) <= key(r[i]) {
      assert r[j] == t[j - 1];
      if i > 0 {
        assert r[i] == t[i - 1];
      }
    }
  }

  /** Every element of a sorted sequence's tail has a key no greater than its head's. */
  lemma HeadBounds<T>(s: seq<T>, y: T, key: T -> int)
    requires SortedDesc(s, key) && |s| > 0 && y in multiset(s[1..])
    ensures key(y) <= key(s[0])
  {
    assert y in s[1..];
    var j :| 0 <= j < |s[1..]| && s[1..][j] == y;
    assert s[j + 1] == y;
  }

  /** Places `x` in front of the first element whose key is not greater than its own, so
      that among equal keys `x` comes first. */
  function InsertDesc<T(==)>(x: T, s: seq<T>, key: T -> int): (r: seq<T>)
    requires SortedDesc(s, key)
    ensures SortedDesc(r, key)
    ensures multiset(r) == multiset(s) + multiset{x}
  {
    if |s| == 0 || key(s[0]) <= key(x) then
      ConsSorted(x, s, key);
      [x] + s
    else
      assert SortedDesc(s[1..], key) by {
        forall i, j | 0 <= i < j < |s[1..]| ensures key(s[1..][j]) <= key(s[1..][i]) {
          assert s[1..][i] == s[i + 1] && s[1..][j] == s[j + 1];
        }
      }
      var rest := InsertDesc(x, s[1..], key);
      assert s == [s[0]] + s[1..];
      forall k | 0 <= k < |rest| ensures key(rest[k]) <= key(s[0]) {
        assert rest[k] in multiset(rest);
        if rest[k] != x {
          HeadBounds(s, rest[k], key);
        }
      }
      ConsSorted(s[0], rest, key);
      [s[0]] + rest
  }

  /** Python's stable `sorted(s, key=key, reverse=True)`: keys in non-increasing order,
      the same elements with the same multiplicities. */
  function SortDesc<T(==)>(s: seq<T>, key: T -> int): (r: seq<T>)
    ensures SortedDesc(r, key)
    ensures multiset(r) == multiset(s)
    ensures |r| == |s|
  {
    if |s| == 0 then []
    else
      assert s == [s[0]] + s[1..];
      InsertDesc(s[0], SortDesc(s[1..], key), key)
  }

  /** The first `n` elements, or all of them when there are fewer (`s[:n]`, SQL `LIMIT n`). */
  function Take<T>(s: seq<T>, n: nat): (r: seq<T>)
    ensures |r| == if n < |s| then n else |s|
    ensures forall i :: 0 <= i < |r| ==> r[i] == s[i]
  {
    if n < |s| then s[..n] else s
  }

  /** A prefix keeps the order and takes no element the sequence does not have. */
  lemma TakePrefix<T>(s: seq<T>, n: nat, key: T -> int)
    requires SortedDesc(s, key)
    ensures SortedDesc(Take(s, n), key)
    ensures multiset(Take(s, n)) <= multiset(s)
  {
    if n < |s| {
      assert s == s[..n] + s[n..];
      assert multiset(s) == multiset(s[..n]) + multiset(s[n..]);
    }
  }

  /** Taking the first `n` of a sorted sequence takes the top `n`: anything left behind
      has a key no greater than anything taken. */
  lemma TopN<T>(s: seq<T>, n: nat, key: T -> int)
    requires SortedDesc(s, key)
    ensures forall x, y :: x in s && x !in Take(s, n) && y in Take(s, n) ==> key(x) <= key(y)
  {
    forall x, y | x in s && x !in Take(s, n) && y in Take(s, n) ensures key(x) <= key(y) {
      var i :| 0 <= i < |s| && s[i] == x;
      var j :| 0 <= j < |Take(s, n)| && Take(s, n)[j] == y;
      assert s[j] == y;
    }
  }
  /** Elements of equal key keep the relative order they had in `s`: for any two of them in
      `r`, the earlier one occurs in `s` before the later one. */
  ghost predicate Stable<T>(r: seq<T>, s: seq<T>, key: T -> int) {
    forall i, j :: 0 <= i < j < |r| && key(r[i]) == key(r[j]) ==>
      exists i', j' :: 0 <= i' < j' < |s| && s[i'] == r[i] && s[j'] == r[j]
  }

  /** The tail of a sorted sequence is sorted. */
  lemma SortedTail<T>(u: seq<T>, key: T -> int)
    requires SortedDesc(u, key) && |u| > 0
    ensures SortedDesc(u[1..], key)
  {
    forall i, j | 0 <= i < j < |u[1..]| ensures key(u[1..][j]) <= key(u[1..][i]) {
      assert u[1..][i] == u[i + 1] && u[1..][j] == u[j + 1];
    }
  }

  /** `InsertDesc` puts `x` at position `p`, after exactly the elements of strictly greater
      key. */
  lemma {:induction false} InsertDescSplit<T>(x: T, u: seq<T>, key: T -> int)
    returns (p: nat)
    requires SortedDesc(u, key)
    ensures p <= |u| && InsertDesc(x, u, key) == u[..p] + [x] + u[p..]
    ensures forall k :: 0 <= k < p ==> key(u[k]) > key(x)
    decreases |u|
  {
    if |u| == 0 || key(u[0]) <= key(x) {
      p := 0;
      assert u[..0] + [x] + u[0..] == [x] + u;
    } else {
      SortedTail(u, key);
      var t := u[1..];
      var q := InsertDescSplit(x, t, key);
      p := q + 1;
      assert InsertDesc(x, u, key) == [u[0]] + InsertDesc(x, t, key);
      forall k | 0 <= k < p ensures key(u[k]) > key(x) {
        if k > 0 {
          assert u[k] == t[k - 1];
        }
      }
      assert u[..p] == [u[0]] + t[..q];
      assert u[p..] == t[q..];
    }
  }

  /** Inserting `x` after exactly the elements of greater key, into a sequence stable with
      respect to `tail`, gives a sequence stable with respect to `[x] + tail`. */
  lemma StableInsert<T>(x: T, tail: seq<T>, u: seq<T>, p: nat, key: T -> int)
    requires p <= |u|
    requires forall k :: 0 <= k < p ==> key(u[k]) > key(x)
    requires multiset(u) == multiset(tail)
    requires Stable(u, tail, key)
    ensures Stable(u[..p] + [x] + u[p..], [x] + tail, key)
  {
    var r, s := u[..p] + [x] + u[p..], [x] + tail;
    forall i, j | 0 <= i < j < |r|
      ensures key(r[i]) == key(r[j]) ==>
                exists i', j' :: 0 <= i' < j' < |s| && s[i'] == r[i] && s[j'] == r[j]
    {
      if i == p {
        assert r[j] == u[j - 1];
        assert r[j] in multiset(tail) by { assert r[j] in multiset(u); }
        var k :| 0 <= k < |tail| && tail[k] == r[j];
        assert s[0] == r[i] && s[k + 1] == r[j];
      } else if j == p {
        assert r[i] == u[i] && r[j] == x;
        assert key(r[i]) > key(r[j]);
      } else if key(r[i]) == key(r[j]) {
        var a := if i < p then i else i - 1;
        var b := if j < p then j else j - 1;
        assert r[i] == u[a] && r[j] == u[b] && a < b;
        var a', b' :| 0 <= a' < b' < |tail| && tail[a'] == u[a] && tail[b'] == u[b];
        assert s[a' + 1] == r[i] && s[b' + 1] == r[j];
      }
    }
  }

  /** `SortDesc` is stable, as Python's `sorted` is: equal keys stay in input order. */
  lemma {:induction false} SortDescStable<T>(s: seq<T>, key: T -> int)
    ensures Stable(SortDesc(s, key), s, key)
    decreases |s|
  {
    if |s| > 0 {
      var u := SortDesc(s[1..], key);
      SortDescStable(s[1..], key);
      var p := InsertDescSplit(s[0], u, key);
      StableInsert(s[0], s[1..], u, p, key);
      assert s == [s[0]] + s[1..];
    }
  }
}
