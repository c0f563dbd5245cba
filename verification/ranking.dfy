/** Ordering of query results by an integer key: Python's stable `sorted`
    (with `reverse`), and the bounded top-k selection of
    `heapq.nlargest` / `heapq.nsmallest`, which returns what sorting
    everything and keeping the first k would return. */
module Ranking {

  /** Ascending in `key`. */
  predicate Ascending<T>(s: seq<T>, key: T -> int) {
    forall i, j :: 0 <= i < j < |s| ==> key(s[i]) <= key(s[j])
  }

  /** The elements whose key is `k`, in their order of appearance. */
  function KeyClass<T>(xs: seq<T>, key: T -> int, k: int): seq<T> {
    if |xs| == 0 then []
    else KeyClass(xs[..|xs| - 1], key, k) + (if key(xs[|xs| - 1]) == k then [xs[|xs| - 1]] else [])
  }

  /** A stable reordering keeps, for every key, the same elements in the same order. */
  ghost predicate Stable<T>(xs: seq<T>, ys: seq<T>, key: T -> int) {
    forall k :: KeyClass(ys, key, k) == KeyClass(xs, key, k)
  }

  /** Place `x` after every leading element whose key is at most its own. */
  function Insert<T>(s: seq<T>, x: T, key: T -> int): (r: seq<T>)
    ensures |r| == |s| + 1
  {
    if |s| == 0 then [x]
    else if key(x) < key(s[0]) then [x] + s
    else [s[0]] + Insert(s[1..], x, key)
  }

  /** Inserting adds exactly the one element. */
  lemma {:induction false} InsertPermutes<T>(s: seq<T>, x: T, key: T -> int)
    ensures multiset(Insert(s, x, key)) == multiset(s) + multiset{x}
  {
    if |s| > 0 && key(x) >= key(s[0]) {
      InsertPermutes(s[1..], x, key);
      assert s == [s[0]] + s[1..];
    }
  }

  lemma {:induction false} InsertKeepsOrder<T>(s: seq<T>, x: T, key: T -> int)
    requires Ascending(s, key)
    ensures Ascending(Insert(s, x, key), key)
  {
    if |s| > 0 && key(x) >= key(s[0]) {
      InsertKeepsOrder(s[1..], x, key);
      var t := Insert(s[1..], x, key);
      InsertPermutes(s[1..], x, key);
      forall j | 0 <= j < |t|
        ensures key(s[0]) <= key(t[j])
      {
        assert t[j] in multiset(t);
        assert t[j] == x || t[j] in multiset(s[1..]);
        if t[j] != x {
          var m :| 0 <= m < |s[1..]| && s[1..][m] == t[j];
          assert s[m + 1] == t[j];
        }
      }
    }
  }

  lemma {:induction false} KeyClassAppend<T>(a: seq<T>, b: seq<T>, key: T -> int, k: int)
    ensures KeyClass(a + b, key, k) == KeyClass(a, key, k) + KeyClass(b, key, k)
    decreases |b|
  {
    if |b| > 0 {
      var b0 := b[..|b| - 1];
      assert (a + b)[..|a + b| - 1] == a + b0;
      assert b[..|b| - 1] == b0;
      KeyClassAppend(a, b0, key, k);
    } else {
      assert a + b == a;
    }
  }

  /** When every element of `s` has key above `k`, none is in class `k`. */
  lemma {:induction false} KeyClassAbove<T>(s: seq<T>, key: T -> int, k: int)
    requires forall i :: 0 <= i < |s| ==> key(s[i]) > k
    ensures KeyClass(s, key, k) == []
  {
    if |s| > 0 {
      KeyClassAbove(s[..|s| - 1], key, k);
    }
  }

  lemma KeyClassSingleton<T>(y: T, key: T -> int, k: int)
    ensures KeyClass([y], key, k) == if key(y) == k then [y] else []
  {
    assert [y][..0] == [];
  }

  /** An element that goes in front adds itself to its own class and to no other. */
  lemma InsertFrontKeyClass<T>(s: seq<T>, x: T, key: T -> int, k: int)
    requires Ascending(s, key) && |s| > 0 && key(x) < key(s[0])
    ensures KeyClass([x] + s, key, k) == KeyClass(s, key, k) + (if key(x) == k then [x] else [])
  {
    KeyClassAppend([x], s, key, k);
    KeyClassSingleton(x, key, k);
    if key(x) == k {
      assert forall i :: 0 <= i < |s| ==> key(s[i]) >= key(s[0]);
      KeyClassAbove(s, key, k);
    }
  }

  lemma AscendingTail<T>(s: seq<T>, key: T -> int)
    requires Ascending(s, key) && |s| > 0
    ensures Ascending(s[1..], key)
  {
    assert forall i :: 0 <= i < |s[1..]| ==> s[1..][i] == s[i + 1];
  }

  /** Inserting into a sorted sequence puts the new element last among its equals. */
  lemma {:induction false} InsertKeyClass<T>(s: seq<T>, x: T, key: T -> int, k: int)
    requires Ascending(s, key)
    ensures KeyClass(Insert(s, x, key), key, k) == KeyClass(s, key, k) + (if key(x) == k then [x] else [])
    decreases |s|, 1
  {
    if |s| == 0 {
      KeyClassSingleton(x, key, k);
      assert Insert(s, x, key) == [x];
      assert KeyClass(s, key, k) == [];
    } else if key(x) < key(s[0]) {
      assert Insert(s, x, key) == [x] + s;
      InsertFrontKeyClass(s, x, key, k);
    } else {
      InsertBehindKeyClass(s, x, key, k);
    }
  }

  lemma {:induction false} InsertBehindKeyClass<T>(s: seq<T>, x: T, key: T -> int, k: int)
    requires Ascending(s, key) && |s| > 0 && key(x) >= key(s[0])
    ensures KeyClass(Insert(s, x, key), key, k) == KeyClass(s, key, k) + (if key(x) == k then [x] else [])
    decreases |s|, 0
  {
    var tail := s[1..];
    AscendingTail(s, key);
    var rest := Insert(tail, x, key);
    var extra := if key(x) == k then [x] else [];
    var head := KeyClass([s[0]], key, k);
    assert Insert(s, x, key) == [s[0]] + rest;
    InsertKeyClass(tail, x, key, k);
    KeyClassAppend([s[0]], rest, key, k);
    KeyClassAppend([s[0]], tail, key, k);
    assert [s[0]] + tail == s;
    calc {
      KeyClass(Insert(s, x, key), key, k);
      head + KeyClass(rest, key, k);
      head + (KeyClass(tail, key, k) + extra);
      (head + KeyClass(tail, key, k)) + extra;
      KeyClass(s, key, k) + extra;
    }
  }

  /** Stable ascending insertion sort. */
  function SortAsc<T>(xs: seq<T>, key: T -> int): (r: seq<T>)
    ensures Ascending(r, key)
    ensures multiset(r) == multiset(xs)
    ensures |r| == |xs|
  {
    if |xs| == 0 then []
    else
      var init, x := xs[..|xs| - 1], xs[|xs| - 1];
      var sortedInit := SortAsc(init, key);
      InsertKeepsOrder(sortedInit, x, key);
      InsertPermutes(sortedInit, x, key);
      assert xs == init + [x];
      Insert(sortedInit, x, key)
  }

  lemma {:induction false} SortAscStable<T>(xs: seq<T>, key: T -> int)
    ensures Stable(xs, SortAsc(xs, key), key)
  {
    if |xs| > 0 {
      var init, x := xs[..|xs| - 1], xs[|xs| - 1];
      SortAscStable(init, key);
      forall k
        ensures KeyClass(SortAsc(xs, key), key, k) == KeyClass(xs, key, k)
      {
        InsertKeyClass(SortAsc(init, key), x, key, k);
      }
    }
  }

  /** The key the ascending sort is run on: negated for `reverse=True`, which
      keeps Python's guarantee that equal keys stay in their original order. */
  function Directed<T>(key: T -> int, reverse: bool): T -> int {
    if reverse then (x: T) => -key(x) else key
  }

  lemma {:induction false} DirectedKeyClass<T>(xs: seq<T>, key: T -> int, k: int)
    ensures KeyClass(xs, Directed(key, true), -k) == KeyClass(xs, key, k)
  {
    if |xs| > 0 {
      DirectedKeyClass(xs[..|xs| - 1], key, k);
    }
  }

  /** `sorted(xs, key=key, reverse=reverse)`. */
  function SortBy<T>(xs: seq<T>, key: T -> int, reverse: bool): (r: seq<T>)
    ensures multiset(r) == multiset(xs) && |r| == |xs|
    ensures !reverse ==> forall i, j :: 0 <= i < j < |r| ==> key(r[i]) <= key(r[j])
    ensures reverse ==> forall i, j :: 0 <= i < j < |r| ==> key(r[i]) >= key(r[j])
    ensures Stable(xs, r, key)
  {
    var d := Directed(key, reverse);
    SortAscStable(xs, d);
    if reverse then
      assert forall k :: KeyClass(SortAsc(xs, d), key, k) == KeyClass(xs, key, k) by {
        forall k
          ensures KeyClass(SortAsc(xs, d), key, k) == KeyClass(xs, key, k)
        {
          DirectedKeyClass(SortAsc(xs, d), key, k);
          DirectedKeyClass(xs, key, k);
        }
      }
      SortAsc(xs, d)
    else
      SortAsc(xs, d)
  }

  function Min(a: int, b: int): int {
    if a <= b then a else b
  }

  /** How many results `take(n)` returns out of `total`. */
  function TakeCount(n: int, total: nat): (c: nat)
    ensures c <= total
    ensures n <= 0 ==> c == 0
    ensures 0 <= n <= total ==> c == n
    ensures n >= total ==> c == total
  {
    if n <= 0 then 0 else Min(n, total)
  }

  /** Truncating before inserting does not change the first `n` elements. */
  lemma {:induction false} InsertTruncated<T>(s: seq<T>, x: T, key: T -> int, n: nat)
    requires n <= |s|
    ensures Insert(s[..n], x, key)[..n] == Insert(s, x, key)[..n]
  {
    if n > 0 && key(x) >= key(s[0]) {
      assert s[..n][1..] == s[1..][..n - 1];
      InsertTruncated(s[1..], x, key, n - 1);
    }
  }

  /** Keep at most `n` elements. */
  function Truncate<T>(s: seq<T>, n: nat): seq<T> {
    if |s| > n then s[..n] else s
  }

  lemma SortAscSnoc<T>(xs: seq<T>, i: nat, key: T -> int)
    requires i < |xs|
    ensures SortAsc(xs[..i + 1], key) == Insert(SortAsc(xs[..i], key), xs[i], key)
  {
    assert xs[..i + 1][..i] == xs[..i];
  }

  lemma BufferNotFull<T>(all: seq<T>, x: T, key: T -> int, n: nat)
    requires |all| < n
    ensures Truncate(Insert(all[..|all|], x, key), n) == Insert(all, x, key)[..|all| + 1]
  {
    assert all[..|all|] == all;
    var grown := Insert(all, x, key);
    assert grown[..|all| + 1] == grown;
  }

  /** One step of the bounded selection keeps the buffer equal to the first
      `n` elements of the full sort of what has been seen. */
  lemma TopKStep<T>(xs: seq<T>, i: nat, n: nat, key: T -> int)
    requires i < |xs| && n > 0
    ensures Truncate(Insert(SortAsc(xs[..i], key)[..Min(n, i)], xs[i], key), n)
         == SortAsc(xs[..i + 1], key)[..Min(n, i + 1)]
  {
    var all := SortAsc(xs[..i], key);
    SortAscSnoc(xs, i, key);
    if i < n {
      BufferNotFull(all, xs[i], key, n);
    } else {
      InsertTruncated(all, xs[i], key, n);
    }
  }

  /** `take(n)` without a key: the first `n` elements, pulled one by one
      and stopping early. */
  method TakeFirst<T>(xs: seq<T>, n: int) returns (r: seq<T>)
    ensures r == xs[..TakeCount(n, |xs|)]
  {
    r := [];
    var i := 0;
    while i < |xs| && i < n
      invariant 0 <= i <= |xs|
      invariant i <= TakeCount(n, |xs|)
      invariant r == xs[..i]
    {
      r := r + [xs[i]];
      i := i + 1;
    }
  }

  /** The bounded selection: one pass over the input, keeping a buffer of at
      most `n` best elements so far (ties to the earlier element). */
  method TopK<T>(xs: seq<T>, n: int, key: T -> int, reverse: bool) returns (r: seq<T>)
    ensures |r| == TakeCount(n, |xs|)
    ensures r == SortBy(xs, key, reverse)[..TakeCount(n, |xs|)]
  {
    if n <= 0 {
      return [];
    }
    var d := Directed(key, reverse);
    r := [];
    for i := 0 to |xs|
      invariant r == SortAsc(xs[..i], d)[..Min(n, i)]
    {
      TopKStep(xs, i, n, d);
      r := Truncate(Insert(r, xs[i], d), n);
    }
    assert xs[..|xs|] == xs;
    assert SortBy(xs, key, reverse) == SortAsc(xs, d);
  }
}
