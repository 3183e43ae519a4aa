/**
 * A stable sort by an integer key: the behaviour of JavaScript's
 * `Array.prototype.sort` (stable since ES2019) with a comparator of the
 * form `(a, b) => key(a) - key(b)`.
 */
module Sorting {

  /** Keys never decrease from left to right. */
  predicate SortedBy<T>(s: seq<T>, key: T -> int)
  {
    forall i, j :: 0 <= i < j < |s| ==> key(s[i]) <= key(s[j])
  }

  /** The elements of `s` whose key is `v`, in their order in `s`. */
  function WithKey<T>(s: seq<T>, key: T -> int, v: int): (r: seq<T>)
    ensures forall x :: x in r ==> x in s && key(x) == v
  {
    if s == [] then [] else (if key(s[0]) == v then [s[0]] else []) + WithKey(s[1..], key, v)
  }

  lemma {:induction false} WithKeyAppend<T>(s: seq<T>, t: seq<T>, key: T -> int, v: int)
    ensures WithKey(s + t, key, v) == WithKey(s, key, v) + WithKey(t, key, v)
  {
    if s != [] {
      assert (s + t)[0] == s[0];
      assert (s + t)[1..] == s[1..] + t;
      WithKeyAppend(s[1..], t, key, v);
    } else {
      assert s + t == t;
    }
  }

  /**
   * Insert `x` into a sorted list after every element whose key is at most
   * `key(x)`, so that it follows the elements it ties with.
   */
  function InsertBy<T>(s: seq<T>, x: T, key: T -> int): (r: seq<T>)
    ensures |r| == |s| + 1
  {
    if s == [] then [x]
    else if key(x) < key(s[0]) then [x] + s
    else [s[0]] + InsertBy(s[1..], x, key)
  }

  /** Inserting adds exactly `x` to the elements. */
  lemma {:induction false} InsertByPermutes<T>(s: seq<T>, x: T, key: T -> int)
    ensures multiset(InsertBy(s, x, key)) == multiset(s) + multiset{x}
  {
    if s != [] && key(x) >= key(s[0]) {
      var t := InsertBy(s[1..], x, key);
      InsertByPermutes(s[1..], x, key);
      assert InsertBy(s, x, key) == [s[0]] + t;
      assert s == [s[0]] + s[1..];
      assert multiset([s[0]] + t) == multiset{s[0]} + multiset(t);
      assert multiset(s) == multiset{s[0]} + multiset(s[1..]);
    } else if s != [] {
      assert InsertBy(s, x, key) == [x] + s;
    }
  }

  lemma {:induction false} InsertBySorted<T>(s: seq<T>, x: T, key: T -> int)
    requires SortedBy(s, key)
    ensures SortedBy(InsertBy(s, x, key), key)
  {
    if s == [] {
    } else if key(x) < key(s[0]) {
      var r := [x] + s;
      forall i, j | 0 <= i < j < |r| ensures key(r[i]) <= key(r[j]) {
        if i == 0 {
          assert r[j] == s[j - 1] && key(s[0]) <= key(s[j - 1]);
        } else {
          assert r[i] == s[i - 1] && r[j] == s[j - 1];
        }
      }
    } else {
      assert SortedBy(s[1..], key);
      InsertBySorted(s[1..], x, key);
      InsertByBound(s[1..], x, key, key(s[0]));
      var t := InsertBy(s[1..], x, key);
      var r := [s[0]] + t;
      forall i, j | 0 <= i < j < |r| ensures key(r[i]) <= key(r[j]) {
        if i == 0 {
          assert r[j] == t[j - 1];
        } else {
          assert r[i] == t[i - 1] && r[j] == t[j - 1];
        }
      }
    }
  }

  /** A lower bound on the keys of `s` and of `x` bounds the keys after the insertion. */
  lemma {:induction false} InsertByBound<T>(s: seq<T>, x: T, key: T -> int, b: int)
    requires forall k :: 0 <= k < |s| ==> b <= key(s[k])
    requires b <= key(x)
    ensures forall k :: 0 <= k < |InsertBy(s, x, key)| ==> b <= key(InsertBy(s, x, key)[k])
  {
    if s == [] {
    } else if key(x) < key(s[0]) {
      var r := [x] + s;
      assert forall k :: 1 <= k < |r| ==> r[k] == s[k - 1];
    } else {
      assert forall k :: 0 <= k < |s[1..]| ==> s[1..][k] == s[k + 1];
      InsertByBound(s[1..], x, key, b);
      var t := InsertBy(s[1..], x, key);
      var r := [s[0]] + t;
      assert forall k :: 1 <= k < |r| ==> r[k] == t[k - 1];
    }
  }

  /** Ties with `x` that were in `s` stay in front of it; no other key class changes. */
  lemma {:induction false} InsertByStable<T>(s: seq<T>, x: T, key: T -> int, v: int)
    requires SortedBy(s, key)
    ensures WithKey(InsertBy(s, x, key), key, v) == WithKey(s, key, v) + WithKey([x], key, v)
    decreases |s|
  {
    if s == [] {
      assert WithKey(s, key, v) == [];
    } else if key(x) < key(s[0]) {
      InsertInFront(s, x, key, v);
    } else {
      assert SortedBy(s[1..], key);
      InsertByStable(s[1..], x, key, v);
      InsertBehindHead(s, x, key, v);
    }
  }

  /** `x` goes in front of a sorted list whose keys all exceed its own. */
  lemma InsertInFront<T>(s: seq<T>, x: T, key: T -> int, v: int)
    requires SortedBy(s, key) && s != [] && key(x) < key(s[0])
    ensures WithKey(InsertBy(s, x, key), key, v) == WithKey(s, key, v) + WithKey([x], key, v)
  {
    assert InsertBy(s, x, key) == [x] + s;
    WithKeyAppend([x], s, key, v);
    WithKeySingle(x, key, v);
    if key(x) == v {
      NoneWithSmallKey(s, key, v);
      assert WithKey(s, key, v) == [];
    }
  }

  /** A single element is in its own key class and in no other. */
  lemma WithKeySingle<T>(x: T, key: T -> int, v: int)
    ensures WithKey([x], key, v) == if key(x) == v then [x] else []
  {
    assert [x][1..] == [];
  }

  /** `x` goes behind the head of `s`: its key class there is the head's share plus the rest's. */
  lemma InsertBehindHead<T>(s: seq<T>, x: T, key: T -> int, v: int)
    requires s != [] && key(x) >= key(s[0])
    requires WithKey(InsertBy(s[1..], x, key), key, v) == WithKey(s[1..], key, v) + WithKey([x], key, v)
    ensures WithKey(InsertBy(s, x, key), key, v) == WithKey(s, key, v) + WithKey([x], key, v)
  {
    var t := InsertBy(s[1..], x, key);
    assert InsertBy(s, x, key) == [s[0]] + t;
    var h := WithKey([s[0]], key, v);
    WithKeyAppend([s[0]], t, key, v);
    assert s == [s[0]] + s[1..];
    WithKeyAppend([s[0]], s[1..], key, v);
    ConcatAssoc(h, WithKey(s[1..], key, v), WithKey([x], key, v));
  }

  lemma ConcatAssoc<T>(a: seq<T>, b: seq<T>, c: seq<T>)
    ensures a + (b + c) == (a + b) + c
  {
  }

  lemma {:induction false} NoneWithSmallKey<T>(s: seq<T>, key: T -> int, v: int)
    requires SortedBy(s, key) && s != [] && v < key(s[0])
    ensures WithKey(s, key, v) == []
  {
    if |s| > 1 {
      assert SortedBy(s[1..], key);
      NoneWithSmallKey(s[1..], key, v);
    }
  }

  /** Sort by key, taking the elements from left to right into a sorted prefix. */
  function SortBy<T>(s: seq<T>, key: T -> int): (r: seq<T>)
    ensures |r| == |s|
  {
    if s == [] then [] else InsertBy(SortBy(s[..|s| - 1], key), s[|s| - 1], key)
  }

  /** The sort is a permutation. */
  lemma {:induction false} SortByPermutes<T>(s: seq<T>, key: T -> int)
    ensures multiset(SortBy(s, key)) == multiset(s)
    decreases |s|
  {
    if s != [] {
      var init, x := s[..|s| - 1], s[|s| - 1];
      var p := SortBy(init, key);
      SortByPermutes(init, key);
      InsertByPermutes(p, x, key);
      assert SortBy(s, key) == InsertBy(p, x, key);
      assert s == init + [x];
      assert multiset(s) == multiset(init) + multiset{x};
    }
  }

  /** Sorting a list with one more element at the end inserts that element into the sorted rest. */
  lemma SortBySnoc<T>(s: seq<T>, x: T, key: T -> int)
    ensures SortBy(s + [x], key) == InsertBy(SortBy(s, key), x, key)
  {
    assert (s + [x])[..|s|] == s;
  }

  /** The sort orders by key. */
  lemma {:induction false} SortBySorted<T>(s: seq<T>, key: T -> int)
    ensures SortedBy(SortBy(s, key), key)
    decreases |s|
  {
    if s != [] {
      SortBySorted(s[..|s| - 1], key);
      InsertBySorted(SortBy(s[..|s| - 1], key), s[|s| - 1], key);
    }
  }

  /** The sort is stable: elements with equal keys keep their relative order. */
  lemma {:induction false} SortByStable<T>(s: seq<T>, key: T -> int, v: int)
    ensures WithKey(SortBy(s, key), key, v) == WithKey(s, key, v)
    decreases |s|
  {
    if s != [] {
      var p, x := s[..|s| - 1], s[|s| - 1];
      SortByStable(p, key, v);
      SortBySorted(p, key);
      InsertByStable(SortBy(p, key), x, key, v);
      assert s == p + [x];
      WithKeyAppend(p, [x], key, v);
    }
  }

  /**
   * For a sorted list, inserting `x` is placing it at the one position `j`
   * where every earlier key is at most `key(x)` and every later key exceeds it.
   */
  lemma {:induction false} InsertByAt<T>(s: seq<T>, x: T, key: T -> int, j: nat)
    requires j <= |s|
    requires forall k :: 0 <= k < j ==> key(s[k]) <= key(x)
    requires forall k :: j <= k < |s| ==> key(x) < key(s[k])
    ensures InsertBy(s, x, key) == s[..j] + [x] + s[j..]
  {
    if s != [] {
      if j == 0 {
        assert key(x) < key(s[0]);
      } else {
        InsertByAt(s[1..], x, key, j - 1);
        assert s[..j] == [s[0]] + s[1..][..j - 1];
        assert s[j..] == s[1..][j - 1..];
      }
    }
  }
}
