/** A stable sort of a sequence by a real-valued key, with the three facts
    that pin down what a stable sort returns: the result is a permutation of
    the input, it is ordered by key, and the elements sharing any one key
    value keep their relative order. Those facts determine the result
    uniquely, so any stable sorting algorithm (such as `Array.prototype.sort`
    under a consistent comparator) returns exactly `Sort`'s result. */
module StableSort {

  ghost predicate Sorted<T>(s: seq<T>, key: T -> real) {
    forall i, j :: 0 <= i < j < |s| ==> key(s[i]) <= key(s[j])
  }

  /** The elements of `s` whose key is `v`, in their order in `s`. */
  function WithKey<T>(s: seq<T>, key: T -> real, v: real): (r: seq<T>)
    ensures |r| <= |s|
  {
    if |s| == 0 then []
    else (if key(s[0]) == v then [s[0]] else []) + WithKey(s[1..], key, v)
  }

  /** What `WithKey` selects comes from `s` and carries the key `v`. */
  lemma {:induction false} WithKeyMember<T>(s: seq<T>, key: T -> real, v: real, x: T)
    requires x in WithKey(s, key, v)
    ensures x in s && key(x) == v
    decreases |s|
  {
    if key(s[0]) != v || x != s[0] {
      WithKeyMember(s[1..], key, v, x);
    }
  }

  /** `r` is a stable sort of `s`: ordered by key, and for every key value the
      elements carrying it appear in `r` exactly as they appear in `s`. */
  ghost predicate IsStableSortOf<T>(r: seq<T>, s: seq<T>, key: T -> real) {
    && Sorted(r, key)
    && forall v :: WithKey(r, key, v) == WithKey(s, key, v)
  }

  /** Inserts `x` in front of the first element whose key is not smaller. */
  function Insert<T>(x: T, s: seq<T>, key: T -> real): (r: seq<T>)
    ensures multiset(r) == multiset(s) + multiset{x}
    ensures |r| == |s| + 1
  {
    if |s| == 0 || key(x) <= key(s[0]) then [x] + s
    else
      assert s == [s[0]] + s[1..];
      [s[0]] + Insert(x, s[1..], key)
  }

  /** Insertion sort: each element is inserted ahead of the equal-keyed
      elements that follow it in the input. */
  function Sort<T>(s: seq<T>, key: T -> real): (r: seq<T>)
    ensures multiset(r) == multiset(s)
    ensures Sorted(r, key)
  {
    if |s| == 0 then []
    else
      var rest := Sort(s[1..], key);
      InsertSorted(s[0], rest, key);
      assert s == [s[0]] + s[1..];
      Insert(s[0], rest, key)
  }

  lemma {:induction false} InsertSorted<T>(x: T, s: seq<T>, key: T -> real)
    requires Sorted(s, key)
    ensures Sorted(Insert(x, s, key), key)
    decreases |s|
  {
    if |s| > 0 && key(x) > key(s[0]) {
      var rest := Insert(x, s[1..], key);
      InsertSorted(x, s[1..], key);
      InsertAboveHead(x, s, key);
      ConsSorted(s[0], rest, key);
    }
  }

  /** Inserting a larger key behind the head keeps everything at or above the head's key. */
  lemma InsertAboveHead<T>(x: T, s: seq<T>, key: T -> real)
    requires Sorted(s, key) && |s| > 0 && key(x) > key(s[0])
    ensures forall y :: y in Insert(x, s[1..], key) ==> key(s[0]) <= key(y)
  {
    var rest := Insert(x, s[1..], key);
    forall y | y in rest ensures key(s[0]) <= key(y) {
      assert y in multiset(rest);
      if y != x {
        assert y in multiset(s[1..]);
        var j :| 0 <= j < |s[1..]| && s[1..][j] == y;
        assert s[j + 1] == y;
      }
    }
  }

  /** A head no larger than anything in a sorted tail makes a sorted sequence. */
  lemma ConsSorted<T>(h: T, rest: seq<T>, key: T -> real)
    requires Sorted(rest, key)
    requires forall y :: y in rest ==> key(h) <= key(y)
    ensures Sorted([h] + rest, key)
  {
    var r := [h] + rest;
    forall i, j | 0 <= i < j < |r| ensures key(r[i]) <= key(r[j]) {
      if i == 0 {
        assert r[j] == rest[j - 1] && rest[j - 1] in rest;
      } else {
        assert r[i] == rest[i - 1] && r[j] == rest[j - 1];
      }
    }
  }

  lemma {:induction false} WithKeyInsert<T>(x: T, s: seq<T>, key: T -> real, v: real)
    ensures WithKey(Insert(x, s, key), key, v) == (if key(x) == v then [x] else []) + WithKey(s, key, v)
    decreases |s|
  {
    if |s| == 0 || key(x) <= key(s[0]) {
      WithKeyCons(x, s, key, v);
    } else {
      var rest := Insert(x, s[1..], key);
      WithKeyInsert(x, s[1..], key, v);
      WithKeyCons(s[0], rest, key, v);
      if key(x) == v {
        assert WithKey(s, key, v) == WithKey(s[1..], key, v);
      } else {
        assert WithKey(rest, key, v) == WithKey(s[1..], key, v);
      }
    }
  }

  /** Selecting from `[h] + t` selects `h` when its key matches, then from `t`. */
  lemma WithKeyCons<T>(h: T, t: seq<T>, key: T -> real, v: real)
    ensures WithKey([h] + t, key, v) == (if key(h) == v then [h] else []) + WithKey(t, key, v)
  {
    assert ([h] + t)[1..] == t;
  }

  /** Sort keeps, for every key value, the order of the elements carrying it. */
  lemma {:induction false} SortStable<T>(s: seq<T>, key: T -> real, v: real)
    ensures WithKey(Sort(s, key), key, v) == WithKey(s, key, v)
    decreases |s|
  {
    if |s| > 0 {
      var rest := Sort(s[1..], key);
      SortStable(s[1..], key, v);
      WithKeyInsert(s[0], rest, key, v);
    }
  }

  lemma SortIsStableSort<T>(s: seq<T>, key: T -> real)
    ensures IsStableSortOf(Sort(s, key), s, key)
  {
    forall v ensures WithKey(Sort(s, key), key, v) == WithKey(s, key, v) {
      SortStable(s, key, v);
    }
  }

  lemma SortedTail<T>(s: seq<T>, key: T -> real)
    requires Sorted(s, key) && |s| > 0
    ensures Sorted(s[1..], key)
    ensures forall x :: x in s ==> key(s[0]) <= key(x)
  {
    forall x | x in s ensures key(s[0]) <= key(x) {
      var i :| 0 <= i < |s| && s[i] == x;
    }
  }

  lemma WithKeyHead<T>(s: seq<T>, key: T -> real)
    ensures |s| > 0 ==> |WithKey(s, key, key(s[0]))| > 0
  {
  }

  /** Two sequences ordered by key whose per-key subsequences all agree are equal. */
  lemma {:induction false} SortedAgreeingEqual<T>(a: seq<T>, b: seq<T>, key: T -> real)
    requires Sorted(a, key) && Sorted(b, key)
    requires forall v :: WithKey(a, key, v) == WithKey(b, key, v)
    ensures a == b
    decreases |a| + |b|
  {
    if |a| == 0 && |b| == 0 {
    } else if |a| == 0 {
      WithKeyHead(b, key);
      assert false;
    } else if |b| == 0 {
      WithKeyHead(a, key);
      assert false;
    } else {
      SameHead(a, b, key);
      TailsAgree(a, b, key);
      SortedTail(a, key);
      SortedTail(b, key);
      SortedAgreeingEqual(a[1..], b[1..], key);
      assert a == [a[0]] + a[1..];
      assert b == [b[0]] + b[1..];
    }
  }

  /** Equal heads leave the tails' per-key subsequences agreeing. */
  lemma TailsAgree<T>(a: seq<T>, b: seq<T>, key: T -> real)
    requires |a| > 0 && |b| > 0 && a[0] == b[0]
    requires forall v :: WithKey(a, key, v) == WithKey(b, key, v)
    ensures forall u :: WithKey(a[1..], key, u) == WithKey(b[1..], key, u)
  {
    forall u ensures WithKey(a[1..], key, u) == WithKey(b[1..], key, u) {
      WithKeyTail(a, key, u);
      WithKeyTail(b, key, u);
    }
  }

  /** Dropping the head drops it from its own key's subsequence only. */
  lemma WithKeyTail<T>(s: seq<T>, key: T -> real, u: real)
    requires |s| > 0
    ensures WithKey(s[1..], key, u) == if key(s[0]) == u then WithKey(s, key, u)[1..] else WithKey(s, key, u)
  {
  }

  /** Sorted sequences with agreeing per-key subsequences start alike. */
  lemma SameHead<T>(a: seq<T>, b: seq<T>, key: T -> real)
    requires Sorted(a, key) && Sorted(b, key) && |a| > 0 && |b| > 0
    requires forall v :: WithKey(a, key, v) == WithKey(b, key, v)
    ensures a[0] == b[0]
  {
    var v, w := key(a[0]), key(b[0]);
    assert WithKey(a, key, v) == [a[0]] + WithKey(a[1..], key, v);
    assert WithKey(b, key, w) == [b[0]] + WithKey(b[1..], key, w);
    assert a[0] in WithKey(b, key, v);
    assert b[0] in WithKey(a, key, w);
    WithKeyMember(b, key, v, a[0]);
    WithKeyMember(a, key, w, b[0]);
    SortedTail(a, key);
    SortedTail(b, key);
    assert v == w;
    assert WithKey(a, key, v)[0] == a[0];
    assert WithKey(b, key, v)[0] == b[0];
  }

  /** A stable sort has exactly one possible result. */
  lemma StableSortUnique<T>(r1: seq<T>, r2: seq<T>, s: seq<T>, key: T -> real)
    requires IsStableSortOf(r1, s, key) && IsStableSortOf(r2, s, key)
    ensures r1 == r2
  {
    SortedAgreeingEqual(r1, r2, key);
  }

  /** An input already ordered by key comes back unchanged. */
  lemma SortOfSorted<T>(s: seq<T>, key: T -> real)
    requires Sorted(s, key)
    ensures Sort(s, key) == s
  {
    SortIsStableSort(s, key);
    StableSortUnique(Sort(s, key), s, s, key);
  }

  /** Selecting by one key or by another selects the same elements when the two
      keys single out the same elements. */
  lemma {:induction false} WithKeyRekey<T>(s: seq<T>, k1: T -> real, v1: real, k2: T -> real, v2: real)
    requires forall x :: k1(x) == v1 <==> k2(x) == v2
    ensures WithKey(s, k1, v1) == WithKey(s, k2, v2)
    decreases |s|
  {
    if |s| > 0 {
      WithKeyRekey(s[1..], k1, v1, k2, v2);
    }
  }
}
