/** pkg/reconciler/garbagecollector/reconciler.go: which Builds and Tasks of an App are
    deleted. `created` is the creation timestamp, `final` IsStatusFinal. */
module Retention {
  import opened Ordering

  datatype Item = Item(name: string, created: int, final: bool)

  /** Non-final tasks first, then youngest first. */
  predicate TaskBefore(a: Item, b: Item)
  {
    if a.final == b.final then b.created < a.created else !a.final
  }

  predicate Younger(a: Item, b: Item) { b.created < a.created }

  function Max(a: int, b: int): int { if a < b then b else a }

  function Min(a: int, b: int): int { if a < b then a else b }

  /** How many items are final, or are not. */
  function Count(s: seq<Item>, final: bool): (n: nat)
    ensures n <= |s|
  {
    if s == [] then 0 else Count(s[..|s| - 1], final) + (if s[|s| - 1].final == final then 1 else 0)
  }

  lemma {:induction false} CountConcat(a: seq<Item>, b: seq<Item>, final: bool)
    ensures Count(a + b, final) == Count(a, final) + Count(b, final)
  {
    if b == [] {
      assert a + b == a;
    } else {
      CountConcat(a, b[..|b| - 1], final);
      assert (a + b)[..|a + b| - 1] == a + b[..|b| - 1];
    }
  }

  lemma Cancel<T>(a: multiset<T>, b: multiset<T>, c: multiset<T>)
    requires a + c == b + c
    ensures a == b
  {
    assert a == (a + c) - c && b == (b + c) - c;
  }

  lemma {:induction false} CountPermutation(s: seq<Item>, t: seq<Item>, final: bool)
    requires multiset(s) == multiset(t)
    ensures Count(s, final) == Count(t, final)
  {
    if s == [] {
      assert |t| == |multiset(t)| == 0;
    } else {
      var n := |s| - 1;
      assert s == s[..n] + [s[n]];
      assert s[n] in multiset(t);
      var j :| 0 <= j < |t| && t[j] == s[n];
      var rest := t[..j] + t[j + 1..];
      assert t == t[..j] + [t[j]] + t[j + 1..];
      Cancel(multiset(s[..n]), multiset(rest), multiset{s[n]});
      CountPermutation(s[..n], rest, final);
      CountConcat(t[..j], [t[j]], final);
      CountConcat(t[..j] + [t[j]], t[j + 1..], final);
      CountConcat(t[..j], t[j + 1..], final);
      assert [t[j]][..0] == [];
    }
  }

  lemma {:induction false} CountAll(s: seq<Item>, final: bool)
    requires forall i :: 0 <= i < |s| ==> s[i].final == final
    ensures Count(s, final) == |s| && Count(s, !final) == 0
  {
    if s != [] {
      CountAll(s[..|s| - 1], final);
    }
  }

  /** Every deleted item is final and no younger than any final item that is kept. */
  ghost predicate OldestFinalsGo(kept: seq<Item>, deleted: seq<Item>)
  {
    && (forall i :: 0 <= i < |deleted| ==> deleted[i].final)
    && (forall i, j :: 0 <= i < |deleted| && 0 <= j < |kept| && kept[j].final ==> deleted[i].created <= kept[j].created)
  }

  ghost predicate Splits(items: seq<Item>, kept: seq<Item>, deleted: seq<Item>)
  {
    multiset(items) == multiset(kept) + multiset(deleted)
  }

  /** Where the final tasks start in a sorted list. */
  lemma {:induction false} FirstFinal(s: seq<Item>) returns (n: nat)
    requires Sorted(TaskBefore, s)
    ensures n <= |s| && n == Count(s, false)
    ensures forall i :: 0 <= i < n ==> !s[i].final
    ensures forall i :: n <= i < |s| ==> s[i].final
  {
    if s == [] {
      n := 0;
    } else {
      var l := |s| - 1;
      n := FirstFinal(s[..l]);
      if !s[l].final {
        forall i | 0 <= i < l ensures !s[i].final {
          assert !TaskBefore(s[l], s[i]);
        }
        CountAll(s[..l], false);
        n := l + 1;
      }
    }
  }

  datatype Selection = Panic | Selected(items: seq<Item>)

  /** A negative limit slices out of range. `kept` is what the selection leaves. */
  method TasksToGC(tasks: seq<Item>, maxTasks: int) returns (r: Selection, ghost kept: seq<Item>)
    ensures r.Panic? <==> maxTasks < 0
    ensures r.Selected? ==> Splits(tasks, kept, r.items) && OldestFinalsGo(kept, r.items)
    ensures r.Selected? ==> |kept| == if |tasks| <= maxTasks then |tasks| else Max(maxTasks, Count(tasks, false))
    ensures r.Selected? ==> Count(kept, false) == Count(tasks, false)
    ensures r.Selected? ==> forall i :: 0 <= i < |r.items| ==> r.items[i].final && r.items[i] in tasks
  {
    kept := tasks;
    if |tasks| <= maxTasks {
      return Selected([]), kept;
    }
    var sorted := Sort(TaskBefore, tasks);
    if maxTasks < 0 {
      return Panic, kept;
    }
    ghost var n := FirstFinal(sorted);
    CountPermutation(sorted, tasks, false);
    ghost var m := Max(maxTasks, n);
    var over: seq<Item> := [];
    for i := maxTasks to |sorted|
      invariant over == if i < m then [] else sorted[m..i]
    {
      if sorted[i].final {
        SliceNext(sorted, m, i);
        over := over + [sorted[i]];
      }
    }
    kept := sorted[..m];
    SplitAt(tasks, sorted, m);
    assert over == sorted[m..];
    TaskSplit(sorted, n, m);
    SplitMembers(tasks, kept, over);
    r := Selected(over);
  }

  lemma SliceNext<T>(s: seq<T>, m: nat, i: nat)
    requires m <= i < |s|
    ensures s[m..i] + [s[i]] == s[m..i + 1]
    ensures i == m ==> s[m..i] == []
  {
  }

  lemma SplitAt(items: seq<Item>, sorted: seq<Item>, m: nat)
    requires multiset(sorted) == multiset(items) && m <= |sorted|
    ensures Splits(items, sorted[..m], sorted[m..])
  {
    assert sorted == sorted[..m] + sorted[m..];
  }

  lemma TaskSplit(sorted: seq<Item>, n: nat, m: nat)
    requires Sorted(TaskBefore, sorted) && n <= m <= |sorted| && n == Count(sorted, false)
    requires forall i :: n <= i < |sorted| ==> sorted[i].final
    ensures OldestFinalsGo(sorted[..m], sorted[m..])
    ensures Count(sorted[..m], false) == n
  {
    FinalTail(sorted, m);
    var kept, deleted := sorted[..m], sorted[m..];
    forall i, j | 0 <= i < |deleted| && 0 <= j < |kept| && kept[j].final ensures deleted[i].created <= kept[j].created {
      assert !TaskBefore(sorted[m + i], sorted[j]);
    }
  }

  lemma FinalTail(s: seq<Item>, m: nat)
    requires m <= |s| && forall i :: m <= i < |s| ==> s[i].final
    ensures Count(s[..m], false) == Count(s, false)
  {
    assert s == s[..m] + s[m..];
    CountConcat(s[..m], s[m..], false);
    CountAll(s[m..], true);
  }

  /** The final ones of a list, in order. */
  function Finals(s: seq<Item>): (r: seq<Item>)
    ensures |r| == Count(s, true)
    ensures forall i :: 0 <= i < |r| ==> r[i].final
  {
    if s == [] then []
    else Finals(s[..|s| - 1]) + (if s[|s| - 1].final then [s[|s| - 1]] else [])
  }

  function NonFinals(s: seq<Item>): (r: seq<Item>)
    ensures forall i :: 0 <= i < |r| ==> !r[i].final
  {
    if s == [] then []
    else NonFinals(s[..|s| - 1]) + (if s[|s| - 1].final then [] else [s[|s| - 1]])
  }

  lemma {:induction false} FinalsSplit(s: seq<Item>)
    ensures multiset(s) == multiset(Finals(s)) + multiset(NonFinals(s))
  {
    if s != [] {
      var n := |s| - 1;
      FinalsSplit(s[..n]);
      assert s == s[..n] + [s[n]];
      assert multiset(s) == multiset(s[..n]) + multiset{s[n]};
      if s[n].final {
        assert Finals(s) == Finals(s[..n]) + [s[n]] && NonFinals(s) == NonFinals(s[..n]);
      } else {
        assert Finals(s) == Finals(s[..n]) && NonFinals(s) == NonFinals(s[..n]) + [s[n]];
      }
    }
  }

  /** At least one final build is kept, whatever the configured limit. */
  method BuildsToGC(builds: seq<Item>, maxBuilds: int) returns (r: seq<Item>, ghost kept: seq<Item>)
    ensures CollectedBuilds(builds, maxBuilds, kept, r)
    ensures Count(kept, false) == Count(builds, false)
    ensures |r| == Max(0, Count(builds, true) - Max(1, maxBuilds))
    ensures forall i :: 0 <= i < |r| ==> r[i].final && r[i] in builds
  {
    var finalBuilds: seq<Item> := [];
    for i := 0 to |builds|
      invariant finalBuilds == Finals(builds[..i])
    {
      assert builds[..i + 1][..i] == builds[..i];
      if builds[i].final {
        finalBuilds := finalBuilds + [builds[i]];
      }
    }
    assert builds[..|builds|] == builds;
    var limit := Max(1, maxBuilds);
    kept := builds;
    if |finalBuilds| <= limit {
      return [], kept;
    }
    var sorted := Sort(Younger, finalBuilds);
    r := sorted[limit..];
    kept := NonFinals(builds) + sorted[..limit];
    BuildSplit(builds, sorted, limit);
    SplitMembers(builds, kept, r);
  }

  lemma SplitMembers(items: seq<Item>, kept: seq<Item>, deleted: seq<Item>)
    requires Splits(items, kept, deleted)
    ensures forall i :: 0 <= i < |deleted| ==> deleted[i] in items
  {
    forall i | 0 <= i < |deleted| ensures deleted[i] in items {
      assert deleted[i] in multiset(deleted);
      assert deleted[i] in multiset(items);
    }
  }

  lemma BuildSplit(builds: seq<Item>, sorted: seq<Item>, limit: nat)
    requires Sorted(Younger, sorted) && multiset(sorted) == multiset(Finals(builds)) && limit <= |sorted|
    ensures var kept := NonFinals(builds) + sorted[..limit];
      && Splits(builds, kept, sorted[limit..]) && OldestFinalsGo(kept, sorted[limit..])
      && Count(kept, true) == limit && Count(kept, false) == Count(builds, false)
  {
    forall i | 0 <= i < |sorted| ensures sorted[i].final {
      assert sorted[i] in multiset(Finals(builds));
    }
    BuildParts(builds, sorted, limit);
    BuildCounts(builds, sorted[..limit]);
    KeptAreYounger(NonFinals(builds), sorted, limit);
  }

  lemma BuildParts(builds: seq<Item>, sorted: seq<Item>, limit: nat)
    requires multiset(sorted) == multiset(Finals(builds)) && limit <= |sorted|
    ensures Splits(builds, NonFinals(builds) + sorted[..limit], sorted[limit..])
  {
    FinalsSplit(builds);
    assert sorted == sorted[..limit] + sorted[limit..];
    assert multiset(sorted) == multiset(sorted[..limit]) + multiset(sorted[limit..]);
  }

  lemma BuildCounts(builds: seq<Item>, kept: seq<Item>)
    requires forall i :: 0 <= i < |kept| ==> kept[i].final
    ensures Count(NonFinals(builds) + kept, true) == |kept|
    ensures Count(NonFinals(builds) + kept, false) == Count(builds, false)
  {
    var nonFinal := NonFinals(builds);
    CountAll(nonFinal, false);
    CountAll(kept, true);
    CountConcat(nonFinal, kept, true);
    CountConcat(nonFinal, kept, false);
    FinalsSplit(builds);
    CountPermutation(builds, Finals(builds) + nonFinal, false);
    CountAll(Finals(builds), true);
    CountConcat(Finals(builds), nonFinal, false);
  }

  lemma KeptAreYounger(nonFinal: seq<Item>, sorted: seq<Item>, limit: nat)
    requires Sorted(Younger, sorted) && limit <= |sorted|
    requires forall i :: 0 <= i < |sorted| ==> sorted[i].final
    requires forall i :: 0 <= i < |nonFinal| ==> !nonFinal[i].final
    ensures OldestFinalsGo(nonFinal + sorted[..limit], sorted[limit..])
  {
    var kept := nonFinal + sorted[..limit];
    forall i, j | 0 <= i < |sorted[limit..]| && 0 <= j < |kept| && kept[j].final
      ensures sorted[limit..][i].created <= kept[j].created
    {
      assert j >= |nonFinal|;
      assert !Younger(sorted[limit + i], sorted[j - |nonFinal|]);
    }
  }

  // Steady state and runs.

  lemma SplitSizes(items: seq<Item>, kept: seq<Item>, deleted: seq<Item>)
    requires Splits(items, kept, deleted)
    ensures |items| == |kept| + |deleted|
  {
    assert |multiset(items)| == |multiset(kept)| + |multiset(deleted)|;
  }

  /** A second pass over what a first pass kept selects nothing. */
  method TasksSteady(tasks: seq<Item>, maxTasks: nat) returns (first: Selection, second: Selection)
    ensures first.Selected? && second == Selected([])
  {
    ghost var keptFirst, keptSecond;
    first, keptFirst := TasksToGC(tasks, maxTasks);
    var rest := Remaining(tasks, first.items);
    Cancel(multiset(rest), multiset(keptFirst), multiset(first.items));
    CountPermutation(rest, keptFirst, false);
    SameSize(rest, keptFirst);
    second, keptSecond := TasksToGC(rest, maxTasks);
    SplitSizes(rest, keptSecond, second.items);
  }

  method BuildsSteady(builds: seq<Item>, maxBuilds: int) returns (first: seq<Item>, second: seq<Item>)
    ensures second == []
  {
    ghost var keptFirst, keptSecond;
    first, keptFirst := BuildsToGC(builds, maxBuilds);
    var rest := Remaining(builds, first);
    Cancel(multiset(rest), multiset(keptFirst), multiset(first));
    CountPermutation(rest, keptFirst, true);
    second, keptSecond := BuildsToGC(rest, maxBuilds);
    FinalsGone(rest, keptSecond, second);
  }

  lemma SameSize(s: seq<Item>, t: seq<Item>)
    requires multiset(s) == multiset(t)
    ensures |s| == |t|
  {
    assert |multiset(s)| == |s| && |multiset(t)| == |t|;
  }

  lemma FinalsGone(items: seq<Item>, kept: seq<Item>, deleted: seq<Item>)
    requires Splits(items, kept, deleted) && OldestFinalsGo(kept, deleted)
    ensures Count(items, true) == Count(kept, true) + |deleted|
  {
    CountPermutation(items, kept + deleted, true);
    CountConcat(kept, deleted, true);
    CountAll(deleted, true);
  }

  /** The items left in the cluster once `deleted` are gone. */
  method Remaining(items: seq<Item>, deleted: seq<Item>) returns (r: seq<Item>)
    requires multiset(deleted) <= multiset(items)
    ensures multiset(items) == multiset(r) + multiset(deleted)
  {
    r := items;
    for i := 0 to |deleted|
      invariant multiset(items) == multiset(r) + multiset(deleted[..i])
    {
      assert deleted == deleted[..i] + [deleted[i]] + deleted[i + 1..];
      assert multiset(deleted)[deleted[i]] > multiset(deleted[..i])[deleted[i]];
      assert multiset(r)[deleted[i]] == multiset(items)[deleted[i]] - multiset(deleted[..i])[deleted[i]];
      assert deleted[i] in multiset(r);
      var j :| 0 <= j < |r| && r[j] == deleted[i];
      assert r == r[..j] + [r[j]] + r[j + 1..];
      assert deleted[..i + 1] == deleted[..i] + [deleted[i]];
      r := r[..j] + r[j + 1..];
    }
    assert deleted[..|deleted|] == deleted;
  }

  /** A selection that BuildsToGC may return. */
  ghost predicate CollectedBuilds(builds: seq<Item>, limit: int, kept: seq<Item>, selected: seq<Item>)
  {
    && Splits(builds, kept, selected) && OldestFinalsGo(kept, selected)
    && Count(kept, true) == Min(Count(builds, true), Max(1, limit))
  }

  lemma {:induction false} CountSome(s: seq<Item>, final: bool) returns (k: nat)
    requires Count(s, final) > 0
    ensures k < |s| && s[k].final == final
  {
    var n := |s| - 1;
    if s[n].final == final {
      k := n;
    } else {
      k := CountSome(s[..n], final);
    }
  }

  lemma {:induction false} CountMember(s: seq<Item>, k: nat)
    requires k < |s|
    ensures Count(s, s[k].final) > 0
  {
    if k < |s| - 1 {
      CountMember(s[..|s| - 1], k);
    }
  }
}
