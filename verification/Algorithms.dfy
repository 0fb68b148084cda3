/** pkg/kf/algorithms: in-place algorithms over any list with a strict weak order. */
module Algorithms {
  import opened Common
  import opened Ordering

  /** The representative of `x`'s equivalence class in `s`: its first element. */
  ghost function Lookup<T>(less: (T, T) -> bool, s: seq<T>, x: T): (r: Option<T>)
  {
    if HasClass(less, s, x) then Some(First(less, s, x)) else None
  }

  /** Keeps every element that is greater than its left neighbour. */
  function Compact<T>(less: (T, T) -> bool, s: seq<T>): (r: seq<T>)
    ensures |r| <= |s|
  {
    if |s| <= 1 then s
    else
      var n := |s| - 1;
      Compact(less, s[..n]) + (if less(s[n - 1], s[n]) then [s[n]] else [])
  }

  function DedupeOf<T>(less: (T, T) -> bool, s: seq<T>): (r: seq<T>)
  {
    Compact(less, StableSort(less, s))
  }

  method SortStable<T(!new)>(less: (T, T) -> bool, a: array<T>)
    requires StrictWeakOrder(less)
    modifies a
    ensures a[..] == StableSort(less, old(a[..]))
  {
    var sorted := StableSort(less, a[..]);
    for i := 0 to a.Length
      invariant a[..i] == sorted[..i]
    {
      a[i] := sorted[i];
    }
    assert a[..] == a[..a.Length] && sorted == sorted[..a.Length];
  }

  method Clone<T>(s: array<T>) returns (c: array<T>)
    ensures fresh(c) && c[..] == s[..]
  {
    c := new T[s.Length](i requires 0 <= i < s.Length reads s => s[i]);
    assert c.Length == s.Length && forall i :: 0 <= i < c.Length ==> c[i] == s[i];
  }

  method Dedupe<T(!new)>(less: (T, T) -> bool, list: array<T>) returns (r: seq<T>)
    requires StrictWeakOrder(less)
    ensures r == DedupeOf(less, list[..])
  {
    var s := Clone(list);
    SortStable(less, s);
    var idx := CompactInPlace(less, s);
    r := s[..idx];
  }

  /** The compaction overwrites the list it is still comparing neighbours in. */
  method CompactInPlace<T>(less: (T, T) -> bool, s: array<T>) returns (idx: nat)
    modifies s
    ensures idx <= s.Length && s[..idx] == Compact(less, old(s[..]))
  {
    ghost var sorted := s[..];
    idx := 0;
    for i := 0 to s.Length
      invariant 0 <= idx <= i
      invariant s[..idx] == Compact(less, sorted[..i])
      invariant forall k :: idx <= k < s.Length ==> s[k] == sorted[k]
      invariant idx == i ==> s[..] == sorted
    {
      CompactNext(less, sorted, i);
      assert s[i] == sorted[i] && (i > 0 ==> s[i - 1] == sorted[i - 1]);
      if i == 0 || less(s[i - 1], s[i]) {
        WriteNext(s[..], idx, s[i]);
        s[idx] := s[i];
        idx := idx + 1;
      }
    }
    assert sorted[..s.Length] == sorted;
  }

  lemma CompactNext<T>(less: (T, T) -> bool, s: seq<T>, i: nat)
    requires i < |s|
    ensures Compact(less, s[..i + 1]) ==
            Compact(less, s[..i]) + (if i == 0 || less(s[i - 1], s[i]) then [s[i]] else [])
  {
    assert s[..i + 1][..i] == s[..i];
  }

  lemma {:induction false} CompactKeeps<T(!new)>(less: (T, T) -> bool, s: seq<T>)
    requires StrictWeakOrder(less) && Sorted(less, s)
    ensures StrictlySorted(less, Compact(less, s))
    ensures forall x :: x in Compact(less, s) ==> x in s
    ensures s != [] ==> Compact(less, s) != [] && Equivalent(less, Compact(less, s)[|Compact(less, s)| - 1], s[|s| - 1])
  {
    if |s| > 1 {
      var n := |s| - 1;
      CompactKeeps(less, s[..n]);
      var c := Compact(less, s[..n]);
      if less(s[n - 1], s[n]) {
        forall k | 0 <= k < |c| ensures less(c[k], s[n]) {
          assert c[k] in s[..n];
        }
      }
    }
  }

  lemma {:induction false} LookupConcat<T(!new)>(less: (T, T) -> bool, a: seq<T>, b: seq<T>, x: T)
    ensures Lookup(less, a + b, x) == if Lookup(less, a, x).Some? then Lookup(less, a, x) else Lookup(less, b, x)
  {
    if a == [] {
      assert a + b == b;
    } else {
      LookupConcat(less, a[1..], b, x);
      LookupCons(less, a, x);
      LookupCons(less, a + b, x);
      assert (a + b)[1..] == a[1..] + b;
    }
  }

  lemma LookupCons<T(!new)>(less: (T, T) -> bool, s: seq<T>, x: T)
    requires s != []
    ensures Lookup(less, s, x) == if Equivalent(less, s[0], x) then Some(s[0]) else Lookup(less, s[1..], x)
  {
    if HasClass(less, s, x) && !Equivalent(less, s[0], x) {
      var i :| 0 <= i < |s| && Equivalent(less, s[i], x);
      assert s[1..][i - 1] == s[i];
    }
    if HasClass(less, s[1..], x) {
      var i :| 0 <= i < |s[1..]| && Equivalent(less, s[1..][i], x);
      assert s[i + 1] == s[1..][i];
    }
  }

  lemma LookupSorted<T(!new)>(less: (T, T) -> bool, s: seq<T>, x: T)
    requires StrictWeakOrder(less)
    ensures Lookup(less, StableSort(less, s), x) == Lookup(less, s, x)
  {
    var t := StableSort(less, s);
    if HasClass(less, s, x) {
      StableSortFirst(less, s, x);
    } else if HasClass(less, t, x) {
      var i :| 0 <= i < |t| && Equivalent(less, t[i], x);
      StableSortMembers(less, s, t[i]);
    }
  }

  lemma SameAsLast<T(!new)>(less: (T, T) -> bool, s: seq<T>, n: nat, x: T)
    requires StrictWeakOrder(less) && Sorted(less, s) && n == |s| - 1 && n > 0 && !less(s[n - 1], s[n])
    ensures Lookup(less, [s[n]], x).Some? ==> Lookup(less, s[..n], x).Some?
  {
    assert !less(s[n], s[n - 1]);
    if HasClass(less, [s[n]], x) {
      assert Equivalent(less, s[n], x) && Equivalent(less, s[..n][n - 1], x);
    }
  }

  lemma {:induction false} LookupCompact<T(!new)>(less: (T, T) -> bool, s: seq<T>, x: T)
    requires StrictWeakOrder(less) && Sorted(less, s)
    ensures Lookup(less, Compact(less, s), x) == Lookup(less, s, x)
  {
    if |s| > 1 {
      var n := |s| - 1;
      var c := Compact(less, s[..n]);
      LookupCompact(less, s[..n], x);
      assert s == s[..n] + [s[n]] && s[..n + 1] == s;
      CompactNext(less, s, n);
      LookupConcat(less, s[..n], [s[n]], x);
      if less(s[n - 1], s[n]) {
        LookupConcat(less, c, [s[n]], x);
      } else {
        assert c + [] == c;
        SameAsLast(less, s, n, x);
      }
    }
  }

  /** Dedupe: strictly ascending, exactly the input's equivalence classes, each represented
      by its first occurrence in the input. */
  lemma DedupeCorrect<T(!new)>(less: (T, T) -> bool, s: seq<T>)
    requires StrictWeakOrder(less)
    ensures StrictlySorted(less, DedupeOf(less, s))
    ensures forall x :: Lookup(less, DedupeOf(less, s), x) == Lookup(less, s, x)
    ensures forall x :: x in DedupeOf(less, s) ==> x in s
  {
    StableSortSorted(less, s);
    CompactKeeps(less, StableSort(less, s));
    forall x ensures Lookup(less, DedupeOf(less, s), x) == Lookup(less, s, x) {
      LookupCompact(less, StableSort(less, s), x);
      LookupSorted(less, s, x);
    }
    forall x | x in DedupeOf(less, s) ensures x in s {
      StableSortMembers(less, s, x);
    }
  }

  lemma LookupMember<T(!new)>(less: (T, T) -> bool, s: seq<T>, x: T)
    requires StrictWeakOrder(less) && StrictlySorted(less, s)
    ensures x in s <==> Lookup(less, s, x) == Some(x)
  {
    if x in s {
      var i :| 0 <= i < |s| && s[i] == x;
      assert Equivalent(less, s[i], x);
      var y := First(less, s, x);
      var j :| 0 <= j < |s| && s[j] == y;
    }
  }

  /** A strictly sorted list is determined by its lookups. */
  lemma SameLookups<T(!new)>(less: (T, T) -> bool, s: seq<T>, t: seq<T>)
    requires StrictWeakOrder(less) && StrictlySorted(less, s) && StrictlySorted(less, t)
    requires forall x :: Lookup(less, s, x) == Lookup(less, t, x)
    ensures s == t
  {
    forall x ensures x in s <==> x in t {
      LookupMember(less, s, x);
      LookupMember(less, t, x);
    }
    StrictlySortedUnique(less, s, t);
  }

  /** The order `Search` uses for its binary search: where `x` would go in `b`. */
  method Index<T(!new)>(less: (T, T) -> bool, x: T, b: seq<T>) returns (idx: nat)
    requires StrictWeakOrder(less) && Sorted(less, b)
    ensures idx <= |b|
    ensures forall k :: 0 <= k < idx ==> less(b[k], x)
    ensures forall k :: idx <= k < |b| ==> !less(b[k], x)
  {
    var i, j := 0, |b|;
    while i < j
      invariant 0 <= i <= j <= |b|
      invariant forall k :: 0 <= k < i ==> less(b[k], x)
      invariant forall k :: j <= k < |b| ==> !less(b[k], x)
    {
      var h := (i + j) / 2;
      if less(x, b[h]) || Equivalent(less, b[h], x) {
        j := h;
      } else {
        i := h + 1;
      }
    }
    idx := i;
  }

  /** Search agrees with linear membership up to equivalence, for every list. */
  method Search<T(!new)>(less: (T, T) -> bool, x: T, list: seq<T>) returns (found: bool)
    requires StrictWeakOrder(less)
    ensures found <==> HasClass(less, list, x)
  {
    var b := Sort(less, list);
    SameClasses(less, list, b, x);
    var idx := Index(less, x, b);
    if idx >= |b| {
      return false;
    }
    found := Equivalent(less, x, b[idx]);
    if HasClass(less, b, x) {
      var k :| 0 <= k < |b| && Equivalent(less, b[k], x);
      assert !less(b[k], b[idx]);
    }
  }

  lemma SameClasses<T(!new)>(less: (T, T) -> bool, s: seq<T>, t: seq<T>, x: T)
    requires multiset(s) == multiset(t)
    ensures HasClass(less, s, x) <==> HasClass(less, t, x)
  {
    if HasClass(less, s, x) {
      var i :| 0 <= i < |s| && Equivalent(less, s[i], x);
      assert s[i] in multiset(t);
    }
    if HasClass(less, t, x) {
      var i :| 0 <= i < |t| && Equivalent(less, t[i], x);
      assert t[i] in multiset(s);
    }
  }

  /** The subsequence of `a` whose elements are equivalent to nothing in `b`. */
  ghost function Without<T>(less: (T, T) -> bool, a: seq<T>, b: seq<T>): (r: seq<T>)
    ensures |r| <= |a|
  {
    if a == [] then []
    else
      var n := |a| - 1;
      Without(less, a[..n], b) + (if HasClass(less, b, a[n]) then [] else [a[n]])
  }

  lemma {:induction false} WithoutMembers<T(!new)>(less: (T, T) -> bool, a: seq<T>, b: seq<T>, x: T)
    ensures x in Without(less, a, b) <==> x in a && !HasClass(less, b, x)
  {
    if a != [] {
      var n := |a| - 1;
      WithoutMembers(less, a[..n], b, x);
      assert a == a[..n] + [a[n]];
    }
  }

  lemma WithoutNext<T(!new)>(less: (T, T) -> bool, a: seq<T>, i: nat, b: seq<T>)
    requires i < |a|
    ensures Without(less, a[..i + 1], b) == Without(less, a[..i], b) + (if HasClass(less, b, a[i]) then [] else [a[i]])
  {
    assert a[..i + 1][..i] == a[..i];
  }

  method Delete<T(!new)>(less: (T, T) -> bool, from: array<T>, list: seq<T>) returns (r: seq<T>)
    requires StrictWeakOrder(less)
    ensures r == Without(less, from[..], list)
  {
    var a := Clone(from);
    var b := Sort(less, list);
    ghost var before := a[..];
    var currentIdx := 0;
    for i := 0 to a.Length
      invariant 0 <= currentIdx <= i
      invariant a[..currentIdx] == Without(less, before[..i], list)
      invariant forall k :: i <= k < a.Length ==> a[k] == before[k]
    {
      SameClasses(less, list, b, a[i]);
      WithoutNext(less, before, i, list);
      var found := Search(less, a[i], b);
      if !found {
        a[currentIdx] := a[i];
        currentIdx := currentIdx + 1;
      }
    }
    assert before[..a.Length] == before;
    r := a[..currentIdx];
  }

  // Merge and its algebra.

  ghost predicate Deduped<T>(less: (T, T) -> bool, s: seq<T>)
  {
    forall i, j :: 0 <= i < j < |s| ==> !Equivalent(less, s[i], s[j])
  }

  function MergeOf<T>(less: (T, T) -> bool, a: seq<T>, b: seq<T>): (r: seq<T>)
  {
    DedupeOf(less, StableSort(less, b) + a)
  }

  /** `sort.Sort` has only one result on a list without equivalent elements. */
  lemma SortDeduped<T(!new)>(less: (T, T) -> bool, s: seq<T>, t: seq<T>)
    requires StrictWeakOrder(less) && Deduped(less, s) && Sorted(less, t) && multiset(t) == multiset(s)
    ensures t == StableSort(less, s)
  {
    var u := StableSort(less, s);
    StableSortSorted(less, s);
    DedupedPermutation(less, s, t);
    DedupedPermutation(less, s, u);
    forall x ensures x in t <==> x in u {
      assert x in multiset(t) <==> x in multiset(u);
    }
    StrictlySortedUnique(less, t, u);
  }

  lemma DedupedPermutation<T(!new)>(less: (T, T) -> bool, s: seq<T>, t: seq<T>)
    requires StrictWeakOrder(less) && Deduped(less, s) && Sorted(less, t) && multiset(t) == multiset(s)
    ensures StrictlySorted(less, t)
  {
    forall i, j | 0 <= i < j < |t| ensures less(t[i], t[j]) {
      if Equivalent(less, t[i], t[j]) {
        assert t[i] in multiset(s) && t[j] in multiset(s);
        var k :| 0 <= k < |s| && s[k] == t[i];
        var l :| 0 <= l < |s| && s[l] == t[j];
        assert k == l;
        TwiceInSequence(t, i, j);
        OnceInDeduped(less, s, k);
        assert false;
      }
    }
  }

  lemma TwiceInSequence<T>(t: seq<T>, i: nat, j: nat)
    requires i < j < |t| && t[i] == t[j]
    ensures multiset(t)[t[i]] >= 2
  {
    assert t == t[..j] + [t[j]] + t[j + 1..];
    assert t[i] in t[..j];
  }

  lemma OnceInDeduped<T(!new)>(less: (T, T) -> bool, s: seq<T>, k: nat)
    requires StrictWeakOrder(less) && Deduped(less, s) && k < |s|
    ensures multiset(s)[s[k]] == 1
  {
    assert s == s[..k] + [s[k]] + s[k + 1..];
    assert s[k] !in s[..k] && s[k] !in s[k + 1..];
  }

  method Merge<T(!new)>(less: (T, T) -> bool, a: array<T>, b: array<T>) returns (r: seq<T>)
    requires StrictWeakOrder(less)
    ensures StrictlySorted(less, r)
    ensures forall x :: HasClass(less, r, x) <==> HasClass(less, a[..], x) || HasClass(less, b[..], x)
    ensures forall x :: x in r ==> x in b[..] || (x in a[..] && !HasClass(less, b[..], x))
    ensures Deduped(less, b[..]) ==> r == MergeOf(less, a[..], b[..])
  {
    var sorted := Sort(less, b[..]);
    var joined := sorted + a[..];
    var n := |joined|;
    var c := new T[n](i requires 0 <= i < n => joined[i]);
    assert c[..] == joined;
    r := Dedupe(less, c);
    MergedClasses(less, a[..], b[..], sorted, r);
    if Deduped(less, b[..]) {
      SortDeduped(less, b[..], sorted);
    }
  }

  lemma MergedClasses<T(!new)>(less: (T, T) -> bool, a: seq<T>, b: seq<T>, sorted: seq<T>, r: seq<T>)
    requires StrictWeakOrder(less) && multiset(sorted) == multiset(b) && r == DedupeOf(less, sorted + a)
    ensures StrictlySorted(less, r)
    ensures forall x :: HasClass(less, r, x) <==> HasClass(less, a, x) || HasClass(less, b, x)
    ensures forall x :: x in r ==> x in b || (x in a && !HasClass(less, b, x))
  {
    DedupeCorrect(less, sorted + a);
    forall x
      ensures HasClass(less, r, x) <==> HasClass(less, a, x) || HasClass(less, b, x)
      ensures x in r ==> x in b || (x in a && !HasClass(less, b, x))
    {
      assert Lookup(less, r, x) == Lookup(less, sorted + a, x);
      LookupConcat(less, sorted, a, x);
      SameClasses(less, sorted, b, x);
      LookupMember(less, r, x);
      if x in r {
        assert x in multiset(sorted) <==> x in multiset(b);
      }
    }
  }

  /** Merge is the right-biased union. */
  lemma LookupMerge<T(!new)>(less: (T, T) -> bool, a: seq<T>, b: seq<T>, x: T)
    requires StrictWeakOrder(less)
    ensures Lookup(less, MergeOf(less, a, b), x) ==
            if Lookup(less, b, x).Some? then Lookup(less, b, x) else Lookup(less, a, x)
  {
    DedupeCorrect(less, StableSort(less, b) + a);
    LookupConcat(less, StableSort(less, b), a, x);
    LookupSorted(less, b, x);
  }

  lemma MergeSorted<T(!new)>(less: (T, T) -> bool, a: seq<T>, b: seq<T>)
    requires StrictWeakOrder(less)
    ensures StrictlySorted(less, MergeOf(less, a, b))
  {
    DedupeCorrect(less, StableSort(less, b) + a);
  }

  lemma MergeAssociative<T(!new)>(less: (T, T) -> bool, a: seq<T>, b: seq<T>, c: seq<T>)
    requires StrictWeakOrder(less)
    ensures MergeOf(less, MergeOf(less, a, b), c) == MergeOf(less, a, MergeOf(less, b, c))
  {
    var l, r := MergeOf(less, MergeOf(less, a, b), c), MergeOf(less, a, MergeOf(less, b, c));
    MergeSorted(less, MergeOf(less, a, b), c);
    MergeSorted(less, a, MergeOf(less, b, c));
    forall x ensures Lookup(less, l, x) == Lookup(less, r, x) {
      LookupMerge(less, MergeOf(less, a, b), c, x);
      LookupMerge(less, a, b, x);
      LookupMerge(less, a, MergeOf(less, b, c), x);
      LookupMerge(less, b, c, x);
    }
    SameLookups(less, l, r);
  }

  /** Merging the same list in again changes nothing. */
  lemma MergeAbsorbs<T(!new)>(less: (T, T) -> bool, d: seq<T>, r: seq<T>)
    requires StrictWeakOrder(less) && StrictlySorted(less, r)
    requires forall x :: x in d ==> HasClass(less, r, x)
    ensures MergeOf(less, d, r) == r
  {
    var m := MergeOf(less, d, r);
    MergeSorted(less, d, r);
    forall x ensures Lookup(less, m, x) == Lookup(less, r, x) {
      LookupMerge(less, d, r, x);
      if HasClass(less, d, x) {
        var y := First(less, d, x);
        var i :| 0 <= i < |r| && Equivalent(less, r[i], y);
        assert Equivalent(less, r[i], x);
      }
    }
    SameLookups(less, m, r);
  }

  lemma MergeTwice<T(!new)>(less: (T, T) -> bool, d: seq<T>, a: seq<T>)
    requires StrictWeakOrder(less)
    ensures MergeOf(less, d, MergeOf(less, d, a)) == MergeOf(less, d, a)
  {
    var r := MergeOf(less, d, a);
    MergeSorted(less, d, a);
    forall x | x in d ensures HasClass(less, r, x) {
      LookupMerge(less, d, a, x);
      var i :| 0 <= i < |d| && d[i] == x;
      assert Equivalent(less, d[i], x);
    }
    MergeAbsorbs(less, d, r);
  }
}
