/** The engine sorts in three places with `Array.prototype.sort`, which is
    stable: genres by descending count, scored candidates by descending match
    score, and (through the database's ORDER BY) messages and history rows by
    time. This module gives one stable sort, by a real-valued key in
    non-increasing order, and proves what callers rely on: it is a permutation,
    it is ordered, equal keys keep their input order, and its head is the first
    element of largest key. */
module Sorting {

  /** Places x in front of the first element of s whose key is not greater
      than key(x); if s is ordered, x lands after every strictly larger key and
      before every equal key. */
  function Insert<T>(x: T, s: seq<T>, key: T -> real): seq<T>
  {
    if s == [] || key(s[0]) <= key(x) then [x] + s
    else [s[0]] + Insert(x, s[1..], key)
  }

  /** Stable insertion sort into non-increasing key order. */
  function SortDesc<T>(xs: seq<T>, key: T -> real): seq<T>
  {
    if xs == [] then [] else Insert(xs[0], SortDesc(xs[1..], key), key)
  }

  ghost predicate NonIncreasing<T>(s: seq<T>, key: T -> real)
  {
    forall i, j :: 0 <= i < j < |s| ==> key(s[i]) >= key(s[j])
  }

  /** The subsequence of s whose key equals k, in the order of s. */
  function WithKey<T>(s: seq<T>, key: T -> real, k: real): (r: seq<T>)
    ensures |r| <= |s|
  {
    if s == [] then []
    else (if key(s[0]) == k then [s[0]] else []) + WithKey(s[1..], key, k)
  }

  /** Index of the first element whose key is maximal. */
  function FirstMax<T>(xs: seq<T>, key: T -> real): (i: nat)
    requires |xs| > 0
    ensures i < |xs|
    ensures forall j :: 0 <= j < |xs| ==> key(xs[j]) <= key(xs[i])
    ensures forall j :: 0 <= j < i ==> key(xs[j]) < key(xs[i])
  {
    if |xs| == 1 then 0
    else
      var k := FirstMax(xs[1..], key) + 1;
      if key(xs[0]) >= key(xs[k]) then 0 else k
  }

  /** Insert adds exactly x. */
  lemma {:induction false} InsertPermutes<T>(x: T, s: seq<T>, key: T -> real)
    ensures multiset(Insert(x, s, key)) == multiset(s) + multiset{x}
    ensures |Insert(x, s, key)| == |s| + 1
  {
    if s != [] && key(s[0]) > key(x) {
      InsertPermutes(x, s[1..], key);
      assert s == [s[0]] + s[1..];
    }
  }

  lemma {:induction false} InsertOrdered<T>(x: T, s: seq<T>, key: T -> real)
    requires NonIncreasing(s, key)
    ensures NonIncreasing(Insert(x, s, key), key)
  {
    if s != [] && key(s[0]) > key(x) {
      var rest := Insert(x, s[1..], key);
      assert NonIncreasing(s[1..], key);
      InsertOrdered(x, s[1..], key);
      InsertBounded(x, s[1..], key, key(s[0]));
      var r := [s[0]] + rest;
      assert Insert(x, s, key) == r;
      forall i, j | 0 <= i < j < |r| ensures key(r[i]) >= key(r[j]) {
        assert r[j] == rest[j - 1];
        if i > 0 {
          assert r[i] == rest[i - 1];
        }
      }
    }
  }

  /** Inserting an element no larger than a bound into a sequence bounded by
      it keeps the bound. */
  lemma {:induction false} InsertBounded<T>(x: T, s: seq<T>, key: T -> real, b: real)
    requires key(x) <= b
    requires forall i :: 0 <= i < |s| ==> key(s[i]) <= b
    ensures forall i :: 0 <= i < |Insert(x, s, key)| ==> key(Insert(x, s, key)[i]) <= b
  {
    if s != [] && key(s[0]) > key(x) {
      InsertBounded(x, s[1..], key, b);
      var rest := Insert(x, s[1..], key);
      assert forall i :: 0 < i < |rest| + 1 ==> ([s[0]] + rest)[i] == rest[i - 1];
    }
  }

  /** SortDesc returns a permutation of its input, in non-increasing key order. */
  lemma {:induction false} SortDescOrdered<T>(xs: seq<T>, key: T -> real)
    ensures NonIncreasing(SortDesc(xs, key), key)
    ensures multiset(SortDesc(xs, key)) == multiset(xs)
    ensures |SortDesc(xs, key)| == |xs|
  {
    if xs != [] {
      SortDescOrdered(xs[1..], key);
      InsertOrdered(xs[0], SortDesc(xs[1..], key), key);
      InsertPermutes(xs[0], SortDesc(xs[1..], key), key);
      assert xs == [xs[0]] + xs[1..];
    }
  }

  /** Insert moves x only past elements of strictly larger key, so among
      the elements of any one key the order is that of [x] + s. */
  lemma {:induction false} InsertKeepsTies<T>(x: T, s: seq<T>, key: T -> real, k: real)
    ensures WithKey(Insert(x, s, key), key, k) == WithKey([x] + s, key, k)
  {
    if s != [] && key(s[0]) > key(x) {
      InsertKeepsTies(x, s[1..], key, k);
      assert ([x] + s)[1..] == s;
      assert ([x] + s[1..])[1..] == s[1..];
      assert ([s[0]] + Insert(x, s[1..], key))[1..] == Insert(x, s[1..], key);
    }
  }

  /** Stability: for every key value, the elements carrying it appear in the
      sorted output in exactly the order they had in the input. */
  lemma {:induction false} SortDescStable<T>(xs: seq<T>, key: T -> real, k: real)
    ensures WithKey(SortDesc(xs, key), key, k) == WithKey(xs, key, k)
  {
    if xs != [] {
      SortDescStable(xs[1..], key, k);
      InsertKeepsTies(xs[0], SortDesc(xs[1..], key), key, k);
      assert ([xs[0]] + SortDesc(xs[1..], key))[1..] == SortDesc(xs[1..], key);
    }
  }

  /** The head of the sorted sequence is the first element of largest key,
      which is what taking element 0 after a stable descending sort yields. */
  lemma {:induction false} SortDescHead<T>(xs: seq<T>, key: T -> real)
    requires |xs| > 0
    ensures |SortDesc(xs, key)| == |xs|
    ensures SortDesc(xs, key)[0] == xs[FirstMax(xs, key)]
  {
    SortDescOrdered(xs, key);
    if |xs| > 1 {
      SortDescHead(xs[1..], key);
    }
  }

  lemma {:induction false} WithKeyAppend<T>(a: seq<T>, b: seq<T>, key: T -> real, k: real)
    ensures WithKey(a + b, key, k) == WithKey(a, key, k) + WithKey(b, key, k)
  {
    if a == [] {
      assert a + b == b;
    } else {
      var h := if key(a[0]) == k then [a[0]] else [];
      assert (a + b)[0] == a[0] && (a + b)[1..] == a[1..] + b;
      assert WithKey(a + b, key, k) == h + WithKey(a[1..] + b, key, k);
      WithKeyAppend(a[1..], b, key, k);
      assert WithKey(a, key, k) == h + WithKey(a[1..], key, k);
    }
  }

  /** Element i of s, when its key is k, is element |WithKey(s[..i])| of
      WithKey(s). */
  lemma WithKeyAt<T>(s: seq<T>, key: T -> real, k: real, i: nat)
    requires i < |s| && key(s[i]) == k
    ensures |WithKey(s[..i], key, k)| < |WithKey(s, key, k)|
    ensures WithKey(s, key, k)[|WithKey(s[..i], key, k)|] == s[i]
  {
    assert s == s[..i] + s[i..];
    WithKeyAppend(s[..i], s[i..], key, k);
    assert s[i..][0] == s[i];
  }

  lemma PrefixWithKeyGrows<T>(s: seq<T>, key: T -> real, k: real, i: nat, j: nat)
    requires i <= j <= |s|
    ensures |WithKey(s[..i], key, k)| <= |WithKey(s[..j], key, k)|
    ensures i < j && key(s[i]) == k ==> |WithKey(s[..i], key, k)| < |WithKey(s[..j], key, k)|
  {
    assert s[..j] == s[..i] + s[i..j];
    WithKeyAppend(s[..i], s[i..j], key, k);
    if i < j {
      assert s[i..j][0] == s[i];
    }
  }

  /** Every element of WithKey(xs) comes from a position of xs with that key. */
  lemma {:induction false} WithKeySource<T>(xs: seq<T>, key: T -> real, k: real, a: nat)
    requires a < |WithKey(xs, key, k)|
    ensures exists p :: 0 <= p < |xs| && key(xs[p]) == k && |WithKey(xs[..p], key, k)| == a
  {
    var w := WithKey(xs, key, k);
    if key(xs[0]) == k && a == 0 {
      assert xs[..0] == [];
      assert key(xs[0]) == k && |WithKey(xs[..0], key, k)| == a;
    } else {
      var a' := if key(xs[0]) == k then a - 1 else a;
      WithKeySource(xs[1..], key, k, a');
      var p :| 0 <= p < |xs[1..]| && key(xs[1..][p]) == k && |WithKey(xs[1..][..p], key, k)| == a';
      assert xs[..p + 1] == [xs[0]] + xs[1..][..p];
      assert ([xs[0]] + xs[1..][..p])[1..] == xs[1..][..p];
      assert key(xs[p + 1]) == k && |WithKey(xs[..p + 1], key, k)| == a;
    }
  }

  /** Stability in positional form: two sorted elements with equal keys, i
      before j, come from input positions p before q. */
  lemma SortDescTies<T>(xs: seq<T>, key: T -> real, i: nat, j: nat)
    requires i < j < |SortDesc(xs, key)|
    requires key(SortDesc(xs, key)[i]) == key(SortDesc(xs, key)[j])
    ensures exists p, q :: 0 <= p < q < |xs| && xs[p] == SortDesc(xs, key)[i] && xs[q] == SortDesc(xs, key)[j]
  {
    var s := SortDesc(xs, key);
    var k := key(s[i]);
    SortDescStable(xs, key, k);
    WithKeyAt(s, key, k, i);
    WithKeyAt(s, key, k, j);
    PrefixWithKeyGrows(s, key, k, i, j);
    var a := |WithKey(s[..i], key, k)|;
    var b := |WithKey(s[..j], key, k)|;
    WithKeySource(xs, key, k, a);
    WithKeySource(xs, key, k, b);
    var p :| 0 <= p < |xs| && key(xs[p]) == k && |WithKey(xs[..p], key, k)| == a;
    var q :| 0 <= q < |xs| && key(xs[q]) == k && |WithKey(xs[..q], key, k)| == b;
    WithKeyAt(xs, key, k, p);
    WithKeyAt(xs, key, k, q);
    if q <= p {
      PrefixWithKeyGrows(xs, key, k, q, p);
    }
  }
}
