/**
 * Sequence helpers used as membership lists throughout the site: the
 * "toggle" idiom `prev.includes(x) ? prev.filter(y => y !== x) : [...prev, x]`,
 * and the first-occurrence de-duplication of `[...new Set(xs)]`.
 */
module Lists {

  /** No element occurs twice. */
  predicate NoDup<T(==)>(s: seq<T>)
  {
    forall i, j :: 0 <= i < j < |s| ==> s[i] != s[j]
  }

  /** `s.filter(y => y !== x)`: every occurrence of `x` dropped, order kept. */
  function RemoveAll<T(==)>(s: seq<T>, x: T): (r: seq<T>)
    ensures x !in r
    ensures forall y :: y in r ==> y in s
    ensures forall y :: y in s && y != x ==> y in r
    ensures |r| <= |s|
    ensures x !in s ==> r == s
    ensures multiset(r) == multiset(s)[x := 0]
  {
    if s == [] then []
    else
      assert s == [s[0]] + s[1..];
      if s[0] == x then RemoveAll(s[1..], x)
      else [s[0]] + RemoveAll(s[1..], x)
  }

  /** One step of the filter: the head is kept unless it is `x`. */
  lemma RemoveAllCons<T>(s: seq<T>, x: T)
    requires s != []
    ensures s[0] == x ==> RemoveAll(s, x) == RemoveAll(s[1..], x)
    ensures s[0] != x ==> RemoveAll(s, x) == [s[0]] + RemoveAll(s[1..], x)
  {
  }

  /** The filter works piece by piece, so the survivors keep their order. */
  lemma {:induction false} RemoveAllAppend<T>(a: seq<T>, b: seq<T>, x: T)
    ensures RemoveAll(a + b, x) == RemoveAll(a, x) + RemoveAll(b, x)
  {
    if a != [] {
      assert (a + b)[0] == a[0];
      assert (a + b)[1..] == a[1..] + b;
      RemoveAllCons(a + b, x);
      RemoveAllCons(a, x);
      RemoveAllAppend(a[1..], b, x);
      if a[0] != x {
        var h := [a[0]];
        assert h + (RemoveAll(a[1..], x) + RemoveAll(b, x)) == (h + RemoveAll(a[1..], x)) + RemoveAll(b, x);
      }
    } else {
      assert a + b == b;
    }
  }

  /** Removing from a duplicate-free list keeps it duplicate-free. */
  lemma {:induction false} RemoveAllNoDup<T>(s: seq<T>, x: T)
    requires NoDup(s)
    ensures NoDup(RemoveAll(s, x))
  {
    if s != [] {
      assert NoDup(s[1..]) by {
        forall i, j | 0 <= i < j < |s[1..]| ensures s[1..][i] != s[1..][j] {
          assert s[1..][i] == s[i + 1] && s[1..][j] == s[j + 1];
        }
      }
      RemoveAllNoDup(s[1..], x);
      if s[0] != x {
        var t := RemoveAll(s[1..], x);
        assert s[0] !in t by {
          assert s[0] !in s[1..] by {
            forall k | 0 <= k < |s[1..]| ensures s[1..][k] != s[0] {
              assert s[1..][k] == s[k + 1];
            }
          }
        }
        forall i, j | 0 <= i < j < |[s[0]] + t| ensures ([s[0]] + t)[i] != ([s[0]] + t)[j] {
          if i == 0 {
            assert ([s[0]] + t)[j] == t[j - 1];
          } else {
            assert ([s[0]] + t)[i] == t[i - 1] && ([s[0]] + t)[j] == t[j - 1];
          }
        }
      }
    }
  }

  /** Removing an element that occurs exactly once, at the end, undoes appending it. */
  lemma {:induction false} RemoveAllAppended<T>(s: seq<T>, x: T)
    requires x !in s
    ensures RemoveAll(s + [x], x) == s
  {
    if s == [] {
      assert [] + [x] == [x];
      assert RemoveAll([x], x) == RemoveAll([x][1..], x);
    } else {
      assert (s + [x])[0] == s[0];
      assert (s + [x])[1..] == s[1..] + [x];
      RemoveAllAppended(s[1..], x);
      assert [s[0]] + s[1..] == s;
    }
  }

  /**
   * The membership toggle: a present element is removed (all its
   * occurrences), an absent one is appended at the end.
   */
  function Toggle<T(==)>(s: seq<T>, x: T): (r: seq<T>)
    ensures x in r <==> x !in s
    ensures forall y :: y in r && y != x ==> y in s
    ensures forall y :: y in s && y != x ==> y in r
    ensures x !in s ==> r == s + [x]
    ensures x in s ==> r == RemoveAll(s, x)
  {
    if x in s then RemoveAll(s, x) else s + [x]
  }

  /** Toggling never introduces a duplicate. */
  lemma ToggleNoDup<T>(s: seq<T>, x: T)
    requires NoDup(s)
    ensures NoDup(Toggle(s, x))
  {
    if x in s {
      RemoveAllNoDup(s, x);
    } else {
      var r := s + [x];
      forall i, j | 0 <= i < j < |r| ensures r[i] != r[j] {
        if j == |s| {
          assert r[i] == s[i] && r[j] == x;
        } else {
          assert r[i] == s[i] && r[j] == s[j];
        }
      }
    }
  }

  /** Toggling an absent element twice gives back exactly the original list. */
  lemma ToggleTwiceAbsent<T>(s: seq<T>, x: T)
    requires x !in s
    ensures Toggle(Toggle(s, x), x) == s
  {
    RemoveAllAppended(s, x);
  }

  /** Toggling any element twice gives back the original membership. */
  lemma ToggleTwiceMembers<T>(s: seq<T>, x: T)
    ensures forall y :: y in Toggle(Toggle(s, x), x) <==> y in s
  {
  }

  /**
   * Toggling a present element twice moves it to the end: as a list the
   * result differs from the original, although the members are the same.
   */
  lemma ToggleTwiceReorders()
    ensures Toggle(Toggle([1, 2], 1), 1) == [2, 1]
  {
    assert 1 in [1, 2];
    assert RemoveAll([1, 2], 1) == [2] by {
      assert [1, 2][1..] == [2];
      assert RemoveAll([2], 1) == [2] + RemoveAll([2][1..], 1);
    }
    assert 1 !in [2];
  }

  /** `[...new Set(s)]`: the distinct elements, in order of first occurrence. */
  function Distinct<T(==)>(s: seq<T>): (r: seq<T>)
    decreases |s|
  {
    if s == [] then [] else Distinct(s[..|s| - 1]) + (if s[|s| - 1] in s[..|s| - 1] then [] else [s[|s| - 1]])
  }

  /** The de-duplicated list has exactly the original members and no repetition. */
  lemma {:induction false} DistinctSpec<T>(s: seq<T>)
    ensures NoDup(Distinct(s))
    ensures forall y :: y in Distinct(s) <==> y in s
  {
    if s != [] {
      var p := s[..|s| - 1];
      var x := s[|s| - 1];
      DistinctSpec(p);
      assert s == p + [x];
      if x !in p {
        var d := Distinct(p);
        assert x !in d;
        forall i, j | 0 <= i < j < |d + [x]| ensures (d + [x])[i] != (d + [x])[j] {
          if j == |d| {
            assert (d + [x])[i] == d[i];
          } else {
            assert (d + [x])[i] == d[i] && (d + [x])[j] == d[j];
          }
        }
      }
    }
  }

  /** A sequence is its part before position `k`, the element there, and the rest. */
  lemma SplitAround<T>(s: seq<T>, k: nat)
    requires k < |s|
    ensures s == s[..k] + [s[k]] + s[k + 1..]
  {
  }
}
