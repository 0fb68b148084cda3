/** Strict weak orders and the two sorting contracts of Go's sort package that the
    rest of the model builds on: `sort.Stable` has exactly one result, `sort.Sort`
    and `sort.Slice` promise only a sorted permutation. */
module Ordering {

  ghost predicate StrictWeakOrder<T(!new)>(less: (T, T) -> bool)
  {
    && (forall x :: !less(x, x))
    && (forall x, y, z :: less(x, y) && less(y, z) ==> less(x, z))
    && (forall x, y, z :: !less(x, y) && !less(y, z) ==> !less(x, z))
  }

  predicate Equivalent<T>(less: (T, T) -> bool, x: T, y: T)
  {
    !less(x, y) && !less(y, x)
  }

  ghost predicate Sorted<T>(less: (T, T) -> bool, s: seq<T>)
  {
    forall i, j :: 0 <= i < j < |s| ==> !less(s[j], s[i])
  }

  ghost predicate StrictlySorted<T>(less: (T, T) -> bool, s: seq<T>)
  {
    forall i, j :: 0 <= i < j < |s| ==> less(s[i], s[j])
  }

  /** Some element of `s` is order-equivalent to `x`. */
  ghost predicate HasClass<T>(less: (T, T) -> bool, s: seq<T>, x: T)
  {
    exists i :: 0 <= i < |s| && Equivalent(less, s[i], x)
  }

  /** The first element of `s` that is order-equivalent to `x`. */
  ghost function First<T>(less: (T, T) -> bool, s: seq<T>, x: T): (r: T)
    requires HasClass(less, s, x)
    ensures r in s && Equivalent(less, r, x)
  {
    if Equivalent(less, s[0], x) then s[0] else First(less, s[1..], x)
  }

  /** Inserts `x` in front of everything it does not follow. */
  function Insert<T>(less: (T, T) -> bool, x: T, s: seq<T>): (r: seq<T>)
    ensures multiset(r) == multiset(s) + multiset{x}
    ensures |r| == |s| + 1
  {
    if s == [] then [x]
    else if less(s[0], x) then
      assert s == [s[0]] + s[1..];
      [s[0]] + Insert(less, x, s[1..])
    else [x] + s
  }

  function StableSort<T>(less: (T, T) -> bool, s: seq<T>): (r: seq<T>)
    ensures multiset(r) == multiset(s)
    ensures |r| == |s|
  {
    if s == [] then [] else
      assert s == [s[0]] + s[1..];
      Insert(less, s[0], StableSort(less, s[1..]))
  }

  lemma {:induction false} InsertSorted<T(!new)>(less: (T, T) -> bool, x: T, s: seq<T>)
    requires StrictWeakOrder(less) && Sorted(less, s)
    ensures Sorted(less, Insert(less, x, s))
  {
    if s != [] {
      var r := Insert(less, x, s);
      if less(s[0], x) {
        InsertSorted(less, x, s[1..]);
        var t := Insert(less, x, s[1..]);
        forall j | 0 <= j < |t| ensures !less(t[j], s[0]) {
          assert t[j] in multiset(t);
          assert t[j] == x || t[j] in s[1..];
        }
      }
    }
  }

  lemma {:induction false} StableSortSorted<T(!new)>(less: (T, T) -> bool, s: seq<T>)
    requires StrictWeakOrder(less)
    ensures Sorted(less, StableSort(less, s))
  {
    if s != [] {
      StableSortSorted(less, s[1..]);
      InsertSorted(less, s[0], StableSort(less, s[1..]));
    }
  }

  /** Sorting neither adds nor drops an element. */
  lemma StableSortMembers<T>(less: (T, T) -> bool, s: seq<T>, x: T)
    ensures x in StableSort(less, s) <==> x in s
  {
    assert x in multiset(StableSort(less, s)) <==> x in multiset(s);
  }

  /** Stability, the half that Dedupe depends on: the first element of every
      equivalence class stays first in its class. */
  lemma {:induction false} StableSortFirst<T(!new)>(less: (T, T) -> bool, s: seq<T>, x: T)
    requires StrictWeakOrder(less) && HasClass(less, s, x)
    ensures HasClass(less, StableSort(less, s), x)
    ensures First(less, StableSort(less, s), x) == First(less, s, x)
  {
    var t := StableSort(less, s[1..]);
    StableSortSorted(less, s[1..]);
    if Equivalent(less, s[0], x) {
      InsertFirstSame(less, s[0], t, x);
    } else {
      assert HasClass(less, s[1..], x) by {
        var i :| 0 <= i < |s| && Equivalent(less, s[i], x);
        assert s[1..][i - 1] == s[i];
      }
      StableSortFirst(less, s[1..], x);
      InsertFirstOther(less, s[0], t, x);
    }
  }

  lemma {:induction false} InsertFirstSame<T(!new)>(less: (T, T) -> bool, y: T, s: seq<T>, x: T)
    requires StrictWeakOrder(less) && Sorted(less, s) && Equivalent(less, y, x)
    ensures HasClass(less, Insert(less, y, s), x)
    ensures First(less, Insert(less, y, s), x) == y
  {
    var r := Insert(less, y, s);
    if s != [] && less(s[0], y) {
      InsertFirstSame(less, y, s[1..], x);
      assert r[1..] == Insert(less, y, s[1..]);
      var i :| 0 <= i < |r[1..]| && Equivalent(less, r[1..][i], x);
      assert Equivalent(less, r[i + 1], x);
    } else {
      assert Equivalent(less, r[0], x);
    }
  }

  lemma {:induction false} InsertFirstOther<T(!new)>(less: (T, T) -> bool, y: T, s: seq<T>, x: T)
    requires StrictWeakOrder(less) && !Equivalent(less, y, x) && HasClass(less, s, x)
    ensures HasClass(less, Insert(less, y, s), x)
    ensures First(less, Insert(less, y, s), x) == First(less, s, x)
  {
    var r := Insert(less, y, s);
    var k :| 0 <= k < |s| && Equivalent(less, s[k], x);
    if less(s[0], y) {
      assert r[1..] == Insert(less, y, s[1..]);
      if Equivalent(less, s[0], x) {
        assert Equivalent(less, r[0], x);
      } else {
        assert s[1..][k - 1] == s[k];
        InsertFirstOther(less, y, s[1..], x);
        var i :| 0 <= i < |r[1..]| && Equivalent(less, r[1..][i], x);
        assert Equivalent(less, r[i + 1], x);
      }
    } else {
      assert r[1..] == s;
      assert Equivalent(less, r[k + 1], x);
    }
  }

  /** An element that strictly precedes everything in front of it and is preceded by
      nothing behind it comes out first; the rest is sorted as if it were not there. */
  lemma {:induction false} StableSortHead<T(!new)>(less: (T, T) -> bool, s: seq<T>, j: nat)
    requires StrictWeakOrder(less) && j < |s|
    requires forall k :: 0 <= k < j ==> less(s[j], s[k])
    requires forall k :: j < k < |s| ==> !less(s[k], s[j])
    ensures StableSort(less, s) == [s[j]] + StableSort(less, s[..j] + s[j + 1..])
  {
    if j == 0 {
      InsertAtFront(less, s[0], StableSort(less, s[1..]), s[1..]);
      assert s[..0] + s[1..] == s[1..];
    } else {
      var u, rest := s[1..], s[..j] + s[j + 1..];
      StableSortHead(less, u, j - 1);
      assert u[..j - 1] + u[j..] == rest[1..];
      assert less(s[j], s[0]);
      InsertBehind(less, s[0], s[j], StableSort(less, rest[1..]));
    }
  }

  lemma InsertAtFront<T(!new)>(less: (T, T) -> bool, x: T, t: seq<T>, s: seq<T>)
    requires multiset(t) == multiset(s) && forall k :: 0 <= k < |s| ==> !less(s[k], x)
    ensures Insert(less, x, t) == [x] + t
  {
    if t != [] {
      assert t[0] in multiset(s);
    }
  }

  lemma InsertBehind<T>(less: (T, T) -> bool, x: T, y: T, t: seq<T>)
    requires less(y, x)
    ensures Insert(less, x, [y] + t) == [y] + Insert(less, x, t)
  {
    assert ([y] + t)[1..] == t;
  }

  /** A strictly sorted list is determined by its members. */
  lemma {:induction false} StrictlySortedUnique<T(!new)>(less: (T, T) -> bool, s: seq<T>, t: seq<T>)
    requires StrictWeakOrder(less) && StrictlySorted(less, s) && StrictlySorted(less, t)
    requires forall x :: x in s <==> x in t
    ensures s == t
  {
    assert s != [] ==> s[0] in t;
    assert t != [] ==> t[0] in s;
    if s != [] && t != [] {
      assert s[0] == t[0];
      forall x ensures x in s[1..] <==> x in t[1..] {
        if x in s[1..] {
          assert x in t && x != t[0];
        }
        if x in t[1..] {
          assert x in s && x != s[0];
        }
      }
      StrictlySortedUnique(less, s[1..], t[1..]);
      assert s == [s[0]] + s[1..] && t == [t[0]] + t[1..];
    }
  }

  /** `sort.Sort` and `sort.Slice`: callers may rely on a sorted permutation and on
      nothing about the order of equivalent elements. */
  method Sort<T(!new)>(less: (T, T) -> bool, s: seq<T>) returns (r: seq<T>)
    requires StrictWeakOrder(less)
    ensures Sorted(less, r)
    ensures multiset(r) == multiset(s) && |r| == |s|
  {
    r := StableSort(less, s);
    StableSortSorted(less, s);
  }
}
