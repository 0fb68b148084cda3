/** garbageCollectApp over time: Builds are listed once and then deleted one by one, by name,
    while others are created and complete. */
module RetentionRuns {
  import opened Retention

  /** `pending` is what the collection under way has yet to delete. */
  datatype State = State(builds: seq<Item>, pending: seq<Item>)

  datatype Step =
    | Create(build: Item)
    | Complete(i: nat)
    | List(limit: int, kept: seq<Item>, selected: seq<Item>)
    | Delete(i: nat)
    | Stop

  ghost predicate DistinctNames(s: seq<Item>)
  {
    forall i, j :: 0 <= i < j < |s| ==> s[i].name != s[j].name
  }

  predicate HasName(s: seq<Item>, name: string)
  {
    exists i :: 0 <= i < |s| && s[i].name == name
  }

  function Without(s: seq<Item>, i: nat): (r: seq<Item>)
    requires i < |s|
  {
    s[..i] + s[i + 1..]
  }

  /** A Build is created under a new name and not final; a final one stays final. A collection
      lists the Builds, deletes the Build with the name of the first pending one, and stops at a
      failing delete. */
  ghost predicate Next(s: State, step: Step, t: State)
  {
    match step
    case Create(b) => !b.final && !HasName(s.builds, b.name) && t == s.(builds := s.builds + [b])
    case Complete(i) =>
      && i < |s.builds| && !s.builds[i].final
      && t == s.(builds := s.builds[i := s.builds[i].(final := true)])
    case List(limit, kept, selected) =>
      CollectedBuilds(s.builds, limit, kept, selected) && t == s.(pending := selected)
    case Delete(i) =>
      && s.pending != [] && i < |s.builds| && s.builds[i].name == s.pending[0].name
      && t == State(Without(s.builds, i), s.pending[1..])
    case Stop => t == s.(pending := [])
  }

  ghost predicate Run(trace: seq<State>, steps: seq<Step>)
  {
    && |trace| == |steps| + 1 && DistinctNames(trace[0].builds) && trace[0].pending == []
    && forall i :: 0 <= i < |steps| ==> Next(trace[i], steps[i], trace[i + 1])
  }

  /** Everything pending is a final Build that is still there. */
  ghost predicate PendingOk(s: State)
  {
    DistinctNames(s.pending) && forall p :: p in s.pending ==> p.final && p in s.builds
  }

  /** A final Build that the collection under way will not delete. */
  predicate Safe(s: State, x: Item)
  {
    x in s.builds && x.final && !HasName(s.pending, x.name)
  }

  /** If there is a final Build, there is one that stays. */
  ghost predicate KeepsOne(s: State)
  {
    (forall x :: x in s.builds ==> !x.final) || exists x :: Safe(s, x)
  }

  ghost predicate Inv(s: State)
  {
    DistinctNames(s.builds) && PendingOk(s) && KeepsOne(s)
  }

  lemma WithoutMembers(s: seq<Item>, i: nat, x: Item)
    requires DistinctNames(s) && i < |s|
    ensures x in Without(s, i) <==> x in s && x.name != s[i].name
  {
    var r := Without(s, i);
    if x in s && x.name != s[i].name {
      var k :| 0 <= k < |s| && s[k] == x;
      assert r[if k < i then k else k - 1] == x;
    }
    if x in r {
      var k :| 0 <= k < |r| && r[k] == x;
      assert r[k] == s[if k < i then k else k + 1];
    }
  }

  lemma WithoutDistinct(s: seq<Item>, i: nat)
    requires DistinctNames(s) && i < |s|
    ensures DistinctNames(Without(s, i))
  {
    var r := Without(s, i);
    forall k, l | 0 <= k < l < |r| ensures r[k].name != r[l].name {
      assert r[k] == s[if k < i then k else k + 1] && r[l] == s[if l < i then l else l + 1];
    }
  }

  lemma DistinctOnce(s: seq<Item>, x: Item)
    requires DistinctNames(s)
    ensures multiset(s)[x] <= 1
  {
    if |s| > 0 {
      var n := |s| - 1;
      assert s == s[..n] + [s[n]];
      DistinctOnce(s[..n], x);
      if x == s[n] {
        assert x !in s[..n];
      }
    }
  }

  /** Two items of a list with distinct names that have one name are the same item. */
  lemma SameNameSame(s: seq<Item>, x: Item, y: Item)
    requires DistinctNames(s) && x in s && y in s && x.name == y.name
    ensures x == y
  {
    var i :| 0 <= i < |s| && s[i] == x;
    var j :| 0 <= j < |s| && s[j] == y;
  }

  lemma SplitParts(builds: seq<Item>, kept: seq<Item>, selected: seq<Item>)
    requires DistinctNames(builds) && Splits(builds, kept, selected)
    ensures forall x :: x in kept ==> x in builds && !HasName(selected, x.name)
    ensures DistinctNames(selected)
    ensures forall x :: x in selected ==> x in builds
  {
    forall x | x in selected ensures x in builds {
      assert x in multiset(selected) && x in multiset(builds);
    }
    forall x | x in kept ensures x in builds && !HasName(selected, x.name) {
      assert x in multiset(kept) && x in multiset(builds);
      KeptNotSelected(builds, kept, selected, x);
    }
    forall i, j | 0 <= i < j < |selected| ensures selected[i].name != selected[j].name {
      if selected[i].name == selected[j].name {
        SameNameSame(builds, selected[i], selected[j]);
        TwiceCounted(selected, i, j);
        DistinctOnce(builds, selected[i]);
      }
    }
  }

  lemma KeptNotSelected(builds: seq<Item>, kept: seq<Item>, selected: seq<Item>, x: Item)
    requires DistinctNames(builds) && Splits(builds, kept, selected) && x in kept
    ensures !HasName(selected, x.name)
  {
    DistinctOnce(builds, x);
    assert multiset(kept)[x] >= 1 && multiset(selected)[x] == 0;
    assert x in multiset(builds);
    forall i | 0 <= i < |selected| ensures selected[i].name != x.name {
      var y := selected[i];
      assert y in multiset(selected) && y in multiset(builds) && y != x;
      if y.name == x.name {
        SameNameSame(builds, x, y);
      }
    }
  }

  lemma TwiceCounted(s: seq<Item>, i: nat, j: nat)
    requires i < j < |s| && s[i] == s[j]
    ensures multiset(s)[s[i]] >= 2
  {
    assert s == s[..j] + s[j..];
    assert s[i] in s[..j] && s[j] in s[j..];
  }

  lemma ListKeeps(s: State, limit: int, kept: seq<Item>, selected: seq<Item>)
    requires Inv(s) && CollectedBuilds(s.builds, limit, kept, selected)
    ensures Inv(s.(pending := selected))
  {
    var t := s.(pending := selected);
    SplitParts(s.builds, kept, selected);
    if x :| x in s.builds && x.final {
      var i :| 0 <= i < |s.builds| && s.builds[i] == x;
      CountMember(s.builds, i);
      var k := CountSome(kept, true);
      assert kept[k] in kept && Safe(t, kept[k]);
    }
  }

  lemma DeleteKeeps(s: State, i: nat)
    requires Inv(s) && s.pending != [] && i < |s.builds| && s.builds[i].name == s.pending[0].name
    ensures s.builds[i].final && s.builds[i] == s.pending[0]
    ensures Inv(State(Without(s.builds, i), s.pending[1..]))
  {
    var t := State(Without(s.builds, i), s.pending[1..]);
    SameNameSame(s.builds, s.builds[i], s.pending[0]);
    WithoutDistinct(s.builds, i);
    forall x ensures x in t.builds <==> x in s.builds && x.name != s.builds[i].name {
      WithoutMembers(s.builds, i, x);
    }
    var x :| Safe(s, x);
    assert Safe(t, x);
  }

  lemma CompleteKeeps(s: State, i: nat)
    requires Inv(s) && i < |s.builds| && !s.builds[i].final
    ensures Inv(s.(builds := s.builds[i := s.builds[i].(final := true)]))
  {
    var done := s.builds[i].(final := true);
    var t := s.(builds := s.builds[i := done]);
    forall x | x in s.builds && x.final ensures x in t.builds {
      var k :| 0 <= k < |s.builds| && s.builds[k] == x;
      assert t.builds[k] == x;
    }
    assert s.pending != [] ==> s.pending[0] in s.pending;
    if x :| Safe(s, x) {
      assert Safe(t, x);
    } else {
      assert t.builds[i] == done && Safe(t, done);
    }
  }

  lemma CreateKeeps(s: State, b: Item)
    requires Inv(s) && !b.final && !HasName(s.builds, b.name)
    ensures Inv(s.(builds := s.builds + [b]))
  {
    var t := s.(builds := s.builds + [b]);
    if x :| Safe(s, x) {
      assert Safe(t, x);
    }
  }

  lemma NextKeeps(s: State, step: Step, t: State)
    requires Inv(s) && Next(s, step, t)
    ensures Inv(t)
  {
    match step
    case Create(b) => CreateKeeps(s, b);
    case Complete(i) => CompleteKeeps(s, i);
    case List(limit, kept, selected) => ListKeeps(s, limit, kept, selected);
    case Delete(i) => DeleteKeeps(s, i);
    case Stop =>
      if x :| Safe(s, x) {
        assert Safe(t, x);
      }
  }

  lemma {:induction false} RunKeeps(trace: seq<State>, steps: seq<Step>, i: nat)
    requires Run(trace, steps) && i < |trace|
    ensures Inv(trace[i])
  {
    if i == 0 {
      if x :| x in trace[0].builds && x.final {
        assert Safe(trace[0], x);
      }
    } else {
      RunKeeps(trace, steps, i - 1);
      NextKeeps(trace[i - 1], steps[i - 1], trace[i]);
    }
  }

  predicate HasFinal(s: State)
  {
    exists i :: 0 <= i < |s.builds| && s.builds[i].final
  }

  lemma NextKeepsFinal(s: State, step: Step, t: State)
    requires Inv(s) && Next(s, step, t) && HasFinal(s)
    ensures HasFinal(t)
  {
    var k :| 0 <= k < |s.builds| && s.builds[k].final;
    match step
    case Create(b) => assert t.builds[k] == s.builds[k];
    case Complete(i) => assert t.builds[k] == s.builds[k];
    case List(_, _, _) =>
    case Delete(i) =>
      assert s.builds[k] in s.builds;
      var x :| Safe(s, x);
      WithoutMembers(s.builds, i, x);
    case Stop =>
  }

  /** Over any run in which Builds are created and complete between and during collections that
      list once and delete one by one: an App that once had a final Build keeps one. */
  lemma {:induction false} FinalBuildSurvives(trace: seq<State>, steps: seq<Step>, i: nat, j: nat)
    requires Run(trace, steps) && i <= j < |trace| && HasFinal(trace[i])
    ensures HasFinal(trace[j])
    decreases j - i
  {
    if i < j {
      RunKeeps(trace, steps, i);
      NextKeepsFinal(trace[i], steps[i], trace[i + 1]);
      FinalBuildSurvives(trace, steps, i + 1, j);
    }
  }

  /** No run deletes a Build that is not final, and none is deleted that was not selected as it
      still is when it is deleted. */
  lemma OnlyFinalDeleted(trace: seq<State>, steps: seq<Step>, n: nat)
    requires Run(trace, steps) && n < |steps| && steps[n].Delete?
    ensures var s, i := trace[n], steps[n].i;
      s.pending != [] && i < |s.builds| && s.builds[i].final && s.builds[i] == s.pending[0]
  {
    RunKeeps(trace, steps, n);
    assert Next(trace[n], steps[n], trace[n + 1]);
    DeleteKeeps(trace[n], steps[n].i);
  }

  lemma {:induction false} DeletesToKept(trace: seq<State>, steps: seq<Step>, n: nat, kept: seq<Item>, m: nat)
    requires Run(trace, steps) && n <= m < |trace|
    requires multiset(trace[n].builds) == multiset(kept) + multiset(trace[n].pending)
    requires forall k :: n <= k < m ==> steps[k].Delete?
    ensures multiset(trace[m].builds) == multiset(kept) + multiset(trace[m].pending)
  {
    if n < m {
      DeletesToKept(trace, steps, n, kept, m - 1);
      var s, i := trace[m - 1], steps[m - 1].i;
      OnlyFinalDeleted(trace, steps, m - 1);
      assert Next(s, steps[m - 1], trace[m]);
      DeleteKeepsSplit(s, i, kept);
    }
  }

  lemma DeleteKeepsSplit(s: State, i: nat, kept: seq<Item>)
    requires s.pending != [] && i < |s.builds| && s.builds[i] == s.pending[0]
    requires multiset(s.builds) == multiset(kept) + multiset(s.pending)
    ensures multiset(Without(s.builds, i)) == multiset(kept) + multiset(s.pending[1..])
  {
    var x := s.pending[0];
    assert s.pending == [x] + s.pending[1..];
    WithoutOne(s.builds, i);
    Cancel(multiset(Without(s.builds, i)), multiset(kept) + multiset(s.pending[1..]), multiset{x});
  }

  lemma WithoutOne(s: seq<Item>, i: nat)
    requires i < |s|
    ensures multiset(s) == multiset(Without(s, i)) + multiset{s[i]}
  {
    assert s == s[..i] + [s[i]] + s[i + 1..];
  }

  /** A collection that nobody disturbs does what it is configured for: once everything it selected
      is deleted, the Builds that are left are those it kept, no non-final one is missing, and the
      final ones are as many as the limit says, at least one, or all if there were fewer. */
  lemma CollectionReachesLimit(trace: seq<State>, steps: seq<Step>, n: nat, m: nat)
    requires Run(trace, steps) && n < m < |trace| && steps[n].List? && trace[m].pending == []
    requires forall k :: n < k < m ==> steps[k].Delete?
    ensures var limit := if steps[n].limit < 1 then 1 else steps[n].limit;
      var before, left := trace[n].builds, trace[m].builds;
      && Count(left, false) == Count(before, false)
      && Count(left, true) == if Count(before, true) < limit then Count(before, true) else limit
  {
    var kept := steps[n].kept;
    assert Next(trace[n], steps[n], trace[n + 1]);
    DeletesToKept(trace, steps, n + 1, kept, m);
    CountPermutation(trace[m].builds, kept, true);
    CountPermutation(trace[m].builds, kept, false);
    KeepsNonFinals(trace[n].builds, kept, steps[n].selected);
  }

  lemma KeepsNonFinals(builds: seq<Item>, kept: seq<Item>, selected: seq<Item>)
    requires Splits(builds, kept, selected) && forall i :: 0 <= i < |selected| ==> selected[i].final
    ensures Count(kept, false) == Count(builds, false)
  {
    CountPermutation(builds, kept + selected, false);
    CountConcat(kept, selected, false);
    CountAll(selected, true);
  }
}
