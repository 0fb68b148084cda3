/** pkg/internal/envutil: environment variables as lists and as maps. */
module EnvVars {
  import opened Ordering
  import opened Strings
  import A = Algorithms

  datatype EnvVar = EnvVar(name: string, value: string)

  predicate NameLess(a: EnvVar, b: EnvVar) { StrLess(a.name, b.name) }

  ghost predicate NameSorted(l: seq<EnvVar>)
  {
    forall i, j :: 0 <= i < j < |l| ==> StrLess(l[i].name, l[j].name)
  }

  ghost predicate HasName(envs: seq<EnvVar>, n: string)
  {
    exists i :: 0 <= i < |envs| && envs[i].name == n
  }

  /** A later variable replaces an earlier one of the same name. */
  function ToMap(envs: seq<EnvVar>): (m: map<string, string>)
  {
    if envs == [] then map[]
    else
      var last := envs[|envs| - 1];
      ToMap(envs[..|envs| - 1])[last.name := last.value]
  }

  lemma {:induction false} ToMapKeys(envs: seq<EnvVar>, n: string)
    ensures n in ToMap(envs) <==> HasName(envs, n)
  {
    if envs != [] {
      var init := envs[..|envs| - 1];
      ToMapKeys(init, n);
      if HasName(init, n) {
        var i :| 0 <= i < |init| && init[i].name == n;
        assert envs[i].name == n;
      }
      if HasName(envs, n) && envs[|envs| - 1].name != n {
        var i :| 0 <= i < |envs| && envs[i].name == n;
        assert init[i].name == n;
      }
    }
  }

  lemma {:induction false} ToMapConcat(a: seq<EnvVar>, b: seq<EnvVar>)
    ensures ToMap(a + b) == ToMap(a) + ToMap(b)
  {
    if b == [] {
      assert a + b == a;
    } else {
      var n := |b| - 1;
      ToMapConcat(a, b[..n]);
      assert (a + b)[..|a + b| - 1] == a + b[..n];
    }
  }

  lemma {:induction false} ToMapDistinct(l: seq<EnvVar>, i: nat)
    requires i < |l| && forall j, k :: 0 <= j < k < |l| ==> l[j].name != l[k].name
    ensures l[i].name in ToMap(l) && ToMap(l)[l[i].name] == l[i].value
  {
    if i < |l| - 1 {
      ToMapDistinct(l[..|l| - 1], i);
    }
  }

  method EnvVarsToMap(envs: seq<EnvVar>) returns (out: map<string, string>)
    ensures out == ToMap(envs)
  {
    out := map[];
    for i := 0 to |envs|
      invariant out == ToMap(envs[..i])
    {
      assert envs[..i + 1][..i] == envs[..i];
      out := out[envs[i].name := envs[i].value];
    }
    assert envs[..|envs|] == envs;
  }

  lemma NamesDistinct(l: seq<EnvVar>)
    requires NameSorted(l)
    ensures forall j, k :: 0 <= j < k < |l| ==> l[j].name != l[k].name
  {
    forall j, k | 0 <= j < k < |l| ensures l[j].name != l[k].name {
      StrLessTotal(l[j].name, l[k].name);
    }
  }

  /** There is only one strictly name-sorted list for a map. */
  lemma SortedListUnique(s: seq<EnvVar>, t: seq<EnvVar>)
    requires NameSorted(s) && NameSorted(t) && ToMap(s) == ToMap(t)
    ensures s == t
  {
    NameLessIsOrder();
    forall x ensures x in s <==> x in t {
      if x in s { Transfer(s, t, x); }
      if x in t { Transfer(t, s, x); }
    }
    StrictlySortedUnique(NameLess, s, t);
  }

  lemma Transfer(s: seq<EnvVar>, t: seq<EnvVar>, x: EnvVar)
    requires NameSorted(s) && NameSorted(t) && ToMap(s) == ToMap(t) && x in s
    ensures x in t
  {
    NamesDistinct(s);
    NamesDistinct(t);
    var i :| 0 <= i < |s| && s[i] == x;
    ToMapDistinct(s, i);
    ToMapKeys(t, x.name);
    var j :| 0 <= j < |t| && t[j].name == x.name;
    ToMapDistinct(t, j);
  }

  lemma NameLessIsOrder()
    ensures StrictWeakOrder(NameLess)
  {
    StrLessIsOrder();
    forall x, y, z | NameLess(x, y) && NameLess(y, z) ensures NameLess(x, z) {
      StrLessTransitive(x.name, y.name, z.name);
    }
    forall x, y, z | !NameLess(x, y) && !NameLess(y, z) ensures !NameLess(x, z) {
      assert !StrLess(x.name, y.name) && !StrLess(y.name, z.name);
    }
  }

  /** The map is walked in an arbitrary order and the result sorted with an unstable sort;
      both choices disappear because names are unique. */
  method MapToEnvVars(m: map<string, string>) returns (out: seq<EnvVar>)
    ensures NameSorted(out) && ToMap(out) == m
  {
    var list: seq<EnvVar> := [];
    var todo := m.Keys;
    while todo != {}
      invariant todo <= m.Keys
      invariant forall i, j :: 0 <= i < j < |list| ==> list[i].name != list[j].name
      invariant forall i :: 0 <= i < |list| ==> list[i].name in m && list[i].value == m[list[i].name]
      invariant forall i :: 0 <= i < |list| ==> list[i].name !in todo
      invariant forall n :: n in m && n !in todo ==> HasName(list, n)
      decreases |todo|
    {
      var n :| n in todo;
      var list' := list + [EnvVar(n, m[n])];
      forall x | x in m && x !in todo - {n} ensures HasName(list', x) {
        if x == n {
          assert list'[|list|].name == n;
        } else {
          var i :| 0 <= i < |list| && list[i].name == x;
          assert list'[i].name == x;
        }
      }
      list := list';
      todo := todo - {n};
    }
    NameLessIsOrder();
    out := Sort(NameLess, list);
    SortedFromMap(m, list, out);
  }

  lemma SortedFromMap(m: map<string, string>, list: seq<EnvVar>, out: seq<EnvVar>)
    requires Sorted(NameLess, out) && multiset(out) == multiset(list)
    requires forall i, j :: 0 <= i < j < |list| ==> list[i].name != list[j].name
    requires forall i :: 0 <= i < |list| ==> list[i].name in m && list[i].value == m[list[i].name]
    requires forall n :: n in m ==> HasName(list, n)
    ensures NameSorted(out) && ToMap(out) == m
  {
    SortedDistinct(list, out);
    forall x ensures x in out <==> x in list {
      assert x in multiset(out) <==> x in multiset(list);
    }
    forall n | n in m ensures n in ToMap(out) && ToMap(out)[n] == m[n] {
      var i :| 0 <= i < |list| && list[i].name == n;
      assert list[i] == EnvVar(n, m[n]);
      MapMembers(out, n, m[n]);
    }
    forall n | n in ToMap(out) ensures n in m {
      MapMembers(out, n, ToMap(out)[n]);
    }
  }

  lemma SortedDistinct(list: seq<EnvVar>, out: seq<EnvVar>)
    requires Sorted(NameLess, out) && multiset(out) == multiset(list)
    requires forall i, j :: 0 <= i < j < |list| ==> list[i].name != list[j].name
    ensures NameSorted(out)
  {
    NameLessIsOrder();
    forall i, j | 0 <= i < j < |list| ensures !Equivalent(NameLess, list[i], list[j]) {
      StrLessTotal(list[i].name, list[j].name);
    }
    A.DedupedPermutation(NameLess, list, out);
    forall i, j | 0 <= i < j < |out| ensures StrLess(out[i].name, out[j].name) {
      assert NameLess(out[i], out[j]);
    }
  }

  /** Puts a variable at its place in a name-sorted list, replacing one of the same name. */
  function Put(l: seq<EnvVar>, e: EnvVar): (r: seq<EnvVar>)
  {
    if l == [] || StrLess(e.name, l[0].name) then [e] + l
    else if e.name == l[0].name then [e] + l[1..]
    else [l[0]] + Put(l[1..], e)
  }

  /** The canonical form of an environment. */
  function Canonical(envs: seq<EnvVar>): (r: seq<EnvVar>)
  {
    if envs == [] then [] else Put(Canonical(envs[..|envs| - 1]), envs[|envs| - 1])
  }

  lemma PutBehind(l: seq<EnvVar>, e: EnvVar, t: seq<EnvVar>)
    requires l != [] && NameSorted(l) && NameSorted(t) && StrLess(l[0].name, e.name) && e.name != l[0].name
    requires forall x :: x in t <==> x == e || (x in l[1..] && x.name != e.name)
    ensures NameSorted([l[0]] + t)
    ensures forall x :: x in [l[0]] + t <==> x == e || (x in l && x.name != e.name)
  {
    assert l == [l[0]] + l[1..];
    forall j | 0 <= j < |t| ensures StrLess(l[0].name, t[j].name) {
      assert t[j] in t;
    }
  }

  lemma {:induction false} PutKeeps(l: seq<EnvVar>, e: EnvVar)
    requires NameSorted(l)
    ensures NameSorted(Put(l, e))
    ensures forall x :: x in Put(l, e) <==> x == e || (x in l && x.name != e.name)
  {
    if l != [] {
      StrLessTotal(e.name, l[0].name);
      if StrLess(e.name, l[0].name) {
        forall j | 0 <= j < |l| ensures StrLess(e.name, l[j].name) && l[j].name != e.name {
          if j > 0 { StrLessTransitive(e.name, l[0].name, l[j].name); }
          StrLessTotal(e.name, l[j].name);
        }
      } else if e.name == l[0].name {
        NamesDistinct(l);
      } else {
        PutKeeps(l[1..], e);
        PutBehind(l, e, Put(l[1..], e));
      }
    }
  }

  /** A sorted list's map holds exactly the list's pairs. */
  lemma MapMembers(l: seq<EnvVar>, n: string, v: string)
    requires NameSorted(l)
    ensures EnvVar(n, v) in l <==> n in ToMap(l) && ToMap(l)[n] == v
  {
    NamesDistinct(l);
    if EnvVar(n, v) in l {
      var i :| 0 <= i < |l| && l[i] == EnvVar(n, v);
      ToMapDistinct(l, i);
    }
    ToMapKeys(l, n);
    if n in ToMap(l) {
      var i :| 0 <= i < |l| && l[i].name == n;
      ToMapDistinct(l, i);
    }
  }

  lemma PutMap(l: seq<EnvVar>, e: EnvVar)
    requires NameSorted(l)
    ensures ToMap(Put(l, e)) == ToMap(l)[e.name := e.value]
  {
    PutKeeps(l, e);
    var m, m' := ToMap(l)[e.name := e.value], ToMap(Put(l, e));
    forall n | n in m ensures n in m' && m'[n] == m[n] {
      if n != e.name { MapMembers(l, n, m[n]); }
      assert EnvVar(n, m[n]) in Put(l, e);
      MapMembers(Put(l, e), n, m[n]);
    }
    forall n | n in m' ensures n in m {
      MapMembers(Put(l, e), n, m'[n]);
      MapMembers(l, n, m'[n]);
    }
  }

  lemma {:induction false} CanonicalMap(envs: seq<EnvVar>)
    ensures NameSorted(Canonical(envs)) && ToMap(Canonical(envs)) == ToMap(envs)
  {
    if envs != [] {
      var n := |envs| - 1;
      CanonicalMap(envs[..n]);
      PutKeeps(Canonical(envs[..n]), envs[n]);
      PutMap(Canonical(envs[..n]), envs[n]);
    }
  }

  method DeduplicateEnvVars(envs: seq<EnvVar>) returns (r: seq<EnvVar>)
    ensures r == Canonical(envs)
  {
    var m := EnvVarsToMap(envs);
    r := MapToEnvVars(m);
    CanonicalMap(envs);
    SortedListUnique(r, Canonical(envs));
  }

  /** Canonical environments are equal exactly when they mean the same. */
  lemma CanonicalEqual(a: seq<EnvVar>, b: seq<EnvVar>)
    ensures Canonical(a) == Canonical(b) <==> ToMap(a) == ToMap(b)
  {
    CanonicalMap(a);
    CanonicalMap(b);
    if ToMap(a) == ToMap(b) {
      SortedListUnique(Canonical(a), Canonical(b));
    }
  }
}
