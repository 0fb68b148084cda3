/** unstructured_equality.go: checking a list of fields and bringing them in line. Fields are
    written without copying, so the written object comes to share maps with the desired one. */
module UnstructuredEquality {
  import opened Unstructured

  /** A field to write: a reference into the desired object or, if the field is missing there, nil. */
  datatype Change = Change(path: Path, found: bool)

  /** A missing field reads as nil. */
  function ValueOf(l: Lookup): Json
  {
    if l.Found? then l.value else Nil
  }

  /** What `Append` checks; running into something that is not a map is never equal. */
  predicate AgreeAt(desired: Json, actual: Json, path: Path)
  {
    && !Get(desired, path).NotAMap? && !Get(actual, path).NotAMap?
    && ValueOf(Get(desired, path)) == ValueOf(Get(actual, path))
  }

  /** The object being written and the desired one. At every path in `shared` the two hold the
      same map, so that a write below such a path changes both. */
  datatype Objects = Objects(existing: Json, desired: Json, shared: set<Path>)

  /** `p` is at or below a shared path. */
  ghost predicate UnderShared(shared: set<Path>, p: Path)
  {
    exists s :: s in shared && s <= p
  }

  predicate BelowShared(shared: set<Path>, p: Path)
  {
    exists s :: s in shared && s <= p && s != p
  }

  function Written(o: Objects, c: Change): (x: Json)
  {
    if c.found then ValueOf(Get(o.desired, c.path)) else Nil
  }

  function Apply(o: Objects, c: Change): (r: Objects)
  {
    if c.path == [] || !CanSet(o.existing, c.path) then o
    else
      Objects(Set(o.existing, c.path, Written(o, c)),
              if BelowShared(o.shared, c.path) then Write(o.desired, c.path, Written(o, c)) else o.desired,
              if c.found then o.shared + {c.path} else o.shared)
  }

  function Applied(o: Objects, changes: seq<Change>): (r: Objects)
  {
    if changes == [] then o
    else Apply(Applied(o, changes[..|changes| - 1]), changes[|changes| - 1])
  }

  class Builder {
    var semanticEqual: bool
    var transformers: seq<Change>

    constructor ()
      ensures semanticEqual && transformers == []
    {
      semanticEqual, transformers := true, [];
    }

    /** strings.Split never yields an empty path. */
    method Append(path: Path, desired: Json, actual: Json)
      requires path != []
      modifies this
      ensures semanticEqual <==> old(semanticEqual) && AgreeAt(desired, actual, path)
      ensures transformers == old(transformers) +
                (if Get(desired, path).NotAMap? then [] else [Change(path, Get(desired, path).Found?)])
    {
      var desiredObj := Get(desired, path);
      if desiredObj.NotAMap? {
        semanticEqual := false;
        return;
      }
      transformers := transformers + [Change(path, desiredObj.Found?)];
      var actualObj := Get(actual, path);
      if actualObj.NotAMap? {
        semanticEqual := false;
        return;
      }
      if ValueOf(desiredObj) == ValueOf(actualObj) {
        return;
      }
      semanticEqual := false;
    }

    /** The object it is called on is a copy of the actual one: it shares nothing yet. */
    method Transform(existing: Json, desired: Json) returns (r: Objects)
      ensures r == Applied(Objects(existing, desired, {}), transformers)
    {
      r := Objects(existing, desired, {});
      for i := 0 to |transformers|
        invariant r == Applied(Objects(existing, desired, {}), transformers[..i])
      {
        assert transformers[..i + 1] == transformers[..i] + [transformers[i]];
        AppliedNext(Objects(existing, desired, {}), transformers[..i], transformers[i]);
        r := Apply(r, transformers[i]);
      }
      assert transformers[..|transformers|] == transformers;
    }
  }

  /** The changes that appending `paths` collects. */
  function ChangesFor(desired: Json, paths: seq<Path>): (r: seq<Change>)
  {
    if paths == [] then []
    else
      var p := paths[|paths| - 1];
      ChangesFor(desired, paths[..|paths| - 1]) +
        (if Get(desired, p).NotAMap? then [] else [Change(p, Get(desired, p).Found?)])
  }

  /** The whole use in a reconciler: append every field, and transform. */
  method AppendAll(paths: seq<Path>, desired: Json, actual: Json) returns (equal: bool, r: Objects)
    requires forall i :: 0 <= i < |paths| ==> paths[i] != []
    ensures equal <==> forall i :: 0 <= i < |paths| ==> AgreeAt(desired, actual, paths[i])
    ensures r == After(desired, actual, paths)
  {
    var b := new Builder();
    for i := 0 to |paths|
      invariant b.semanticEqual <==> forall k :: 0 <= k < i ==> AgreeAt(desired, actual, paths[k])
      invariant b.transformers == ChangesFor(desired, paths[..i])
    {
      assert paths[..i + 1] == paths[..i] + [paths[i]];
      ChangesNext(desired, paths[..i], paths[i]);
      b.Append(paths[i], desired, actual);
    }
    assert paths[..|paths|] == paths;
    equal := b.semanticEqual;
    r := b.Transform(actual, desired);
    AppliedIsAfter(desired, actual, paths);
  }

  /** The two objects after the listed fields were written in turn. */
  function After(desired: Json, actual: Json, paths: seq<Path>): (r: Objects)
  {
    if paths == [] then Objects(actual, desired, {})
    else
      var init, p := After(desired, actual, paths[..|paths| - 1]), paths[|paths| - 1];
      if Get(desired, p).NotAMap? then init else Apply(init, Change(p, Get(desired, p).Found?))
  }

  lemma ChangesNext(desired: Json, init: seq<Path>, p: Path)
    ensures ChangesFor(desired, init + [p]) == ChangesFor(desired, init) +
              (if Get(desired, p).NotAMap? then [] else [Change(p, Get(desired, p).Found?)])
  {
    assert (init + [p])[..|init|] == init;
  }

  lemma AfterNext(desired: Json, actual: Json, init: seq<Path>, p: Path)
    ensures var o := After(desired, actual, init);
      After(desired, actual, init + [p]) ==
      if Get(desired, p).NotAMap? then o else Apply(o, Change(p, Get(desired, p).Found?))
  {
    assert (init + [p])[..|init|] == init;
  }

  lemma AppliedNext(o: Objects, changes: seq<Change>, c: Change)
    ensures Applied(o, changes + [c]) == Apply(Applied(o, changes), c)
  {
    assert (changes + [c])[..|changes|] == changes;
  }

  lemma {:induction false} AppliedIsAfter(desired: Json, actual: Json, paths: seq<Path>)
    ensures Applied(Objects(actual, desired, {}), ChangesFor(desired, paths)) == After(desired, actual, paths)
  {
    if paths != [] {
      var init, p := paths[..|paths| - 1], paths[|paths| - 1];
      var changes := ChangesFor(desired, init);
      assert paths == init + [p] && changes + [] == changes;
      AppliedIsAfter(desired, actual, init);
      ChangesNext(desired, init, p);
      AfterNext(desired, actual, init, p);
      AppliedNext(Objects(actual, desired, {}), changes, Change(p, Get(desired, p).Found?));
    }
  }

  // What one write does to a lookup.

  lemma {:induction false} PrefixLookup(v: Json, q: Path, p: Path)
    requires q <= p
    ensures Get(v, p).Found? ==> Get(v, q).Found?
    ensures Get(v, q).Missing? ==> Get(v, p).Missing?
    ensures Get(v, q).NotAMap? ==> Get(v, p).NotAMap?
  {
    if q != [] && v.Object? && q[0] in v.fields {
      PrefixLookup(v.fields[q[0]], q[1..], p[1..]);
    }
  }

  lemma {:induction false} PrefixIsMap(v: Json, p: Path, k: nat)
    requires Get(v, p).Found? && k < |p|
    ensures Get(v, p[..k]).Found? && Get(v, p[..k]).value.Object?
  {
    if k > 0 {
      PrefixIsMap(v.fields[p[0]], p[1..], k - 1);
      assert p[..k][1..] == p[1..][..k - 1];
    }
  }

  lemma SetBelow(v: Json, q: Path, x: Json, p: Path)
    requires q != [] && CanSet(v, q) && q <= p
    ensures Get(Set(v, q, x), p) == Get(x, p[|q|..])
  {
    assert p == q + p[|q|..];
    GetBelow(v, q, x, p[|q|..]);
  }

  lemma SetAbove(v: Json, q: Path, x: Json, p: Path)
    requires q != [] && CanSet(v, q) && p <= q && p != q
    ensures Get(Set(v, q, x), p).Found? && Get(Set(v, q, x), p).value.Object?
    ensures Get(v, p).Found? ==> Get(v, p).value.Object?
  {
    assert q[..|p|] == p;
    CanSetIff(v, q);
    if p != [] {
      GetAbove(v, q, x, |p|);
    }
  }

  lemma AboveIsWritable(v: Json, u: Path, q: Path)
    requires q != [] && q <= u && Get(v, u).Found?
    ensures CanSet(v, q)
  {
    forall k | 0 <= k < |q| && Get(v, q[..k]).Found? ensures Get(v, q[..k]).value.Object? {
      assert q[..k] == u[..k];
      PrefixIsMap(v, u, k);
    }
    CanSetIff(v, q);
  }

  /** Writing below a path at which two objects hold the same map leaves the same map there. */
  lemma SameBelow(v: Json, d: Json, s: Path, q: Path, x: Json)
    requires s != [] && s <= q && s != q && Get(v, s).Found? && Get(v, s) == Get(d, s) && CanSet(v, q)
    ensures CanSet(d, q) && Get(Set(v, q, x), s) == Get(Set(d, q, x), s)
  {
    var k := |s|;
    assert q[..k] == s;
    GetAbove(v, q, x, k);
    WritableBelow(d, s, q);
    GetAbove(d, q, x, k);
  }

  lemma {:induction false} WritableBelow(d: Json, s: Path, q: Path)
    requires s <= q && s != q && Get(d, s).Found? && CanSet(Get(d, s).value, q[|s|..])
    ensures CanSet(d, q)
  {
    if s != [] {
      assert q[1..][|s[1..]|..] == q[|s|..];
      WritableBelow(d.fields[s[0]], s[1..], q[1..]);
    } else {
      assert q[|s|..] == q;
    }
  }

  // The condition.

  /** Path `q` is at or above `p`, is written, and can be written in the actual object. */
  predicate IsCover(desired: Json, actual: Json, q: Path, p: Path)
  {
    q != [] && q <= p && !Get(desired, q).NotAMap? && CanSet(actual, q)
  }

  ghost predicate Covered(desired: Json, actual: Json, paths: seq<Path>, n: nat, p: Path)
    requires n <= |paths|
  {
    exists j :: 0 <= j < n && IsCover(desired, actual, paths[j], p)
  }

  /** Something that is not a map sits at `u`, and nothing is written at or above it. */
  ghost predicate Stuck(desired: Json, actual: Json, paths: seq<Path>, u: Path)
  {
    && Get(actual, u).Found? && !Get(actual, u).value.Object?
    && (forall j :: 0 <= j < |paths| && !Get(desired, paths[j]).NotAMap? ==> !(paths[j] <= u))
  }

  ghost predicate ApartFromAll(paths: seq<Path>, q: Path)
  {
    forall i :: 0 <= i < |paths| ==> Incomparable(paths[i], q)
  }

  // What every write keeps.

  /** The desired object only gains fields where it had none. */
  predicate KeepsField(desired: Json, d: Json, p: Path)
  {
    match Get(desired, p)
    case Found(x) => Get(d, p).Found? && (Get(d, p).value.Nil? <==> x.Nil?)
    case Missing => !Get(d, p).NotAMap?
    case NotAMap => Get(d, p).NotAMap?
  }

  ghost predicate DesiredOk(desired: Json, o: Objects)
  {
    && (forall p :: KeepsField(desired, o.desired, p))
    && (forall p :: Get(desired, p).Missing? && !UnderShared(o.shared, p) ==> Get(o.desired, p).Missing?)
  }

  ghost predicate SharedOk(desired: Json, actual: Json, paths: seq<Path>, o: Objects)
  {
    forall s :: s in o.shared ==>
      && s != [] && Get(desired, s).Found? && Get(o.existing, s) == Get(o.desired, s)
      && Covered(desired, actual, paths, |paths|, s)
  }

  /** A nil was written at `r`, which is missing in the desired object. */
  predicate NilAt(desired: Json, o: Objects, r: Path)
  {
    r != [] && Get(desired, r).Missing? && Get(o.existing, r) == Found(Nil)
  }

  /** `p` is in line and will stay so. */
  ghost predicate Settled(desired: Json, o: Objects, p: Path)
  {
    UnderShared(o.shared, p) || exists r :: NilAt(desired, o, r) && r <= p
  }

  ghost predicate WritesOk(desired: Json, actual: Json, paths: seq<Path>, n: nat, o: Objects)
    requires n <= |paths| && forall i :: 0 <= i < |paths| ==> paths[i] != []
  {
    && (forall p :: Covered(desired, actual, paths, n, p) ==> Settled(desired, o, p))
    && (forall p :: p != [] && CanSet(actual, p) ==> CanSet(o.existing, p) || Settled(desired, o, p))
  }

  ghost predicate RestOk(desired: Json, actual: Json, paths: seq<Path>, o: Objects)
  {
    && (forall u :: Stuck(desired, actual, paths, u) ==> Get(o.existing, u) == Get(actual, u))
    && (forall q :: ApartFromAll(paths, q) ==>
          Get(o.existing, q) == Get(actual, q) && Get(o.desired, q) == Get(desired, q))
  }

  ghost predicate Inv(desired: Json, actual: Json, paths: seq<Path>, n: nat, o: Objects)
    requires n <= |paths| && forall i :: 0 <= i < |paths| ==> paths[i] != []
  {
    && DesiredOk(desired, o) && SharedOk(desired, actual, paths, o)
    && WritesOk(desired, actual, paths, n, o) && RestOk(desired, actual, paths, o)
  }

  /** One write that goes through: at `q`, which is not blocked by a non-map in the desired object. */
  ghost predicate Effective(desired: Json, o: Objects, q: Path, t: Objects)
  {
    && q != [] && CanSet(o.existing, q) && !Get(desired, q).NotAMap?
    && t == Apply(o, Change(q, Get(desired, q).Found?))
  }

  /** A field that exists is written back into the desired object as it is; only a nil for a
      missing one changes it. */
  lemma DesiredAfter(desired: Json, actual: Json, paths: seq<Path>, o: Objects, q: Path, t: Objects)
    requires DesiredOk(desired, o) && SharedOk(desired, actual, paths, o) && Effective(desired, o, q, t)
    ensures Get(desired, q).Found? ==> t.desired == o.desired
    ensures t.desired == o.desired ||
            (BelowShared(o.shared, q) && CanSet(o.desired, q) && t.desired == Set(o.desired, q, Nil))
  {
    assert KeepsField(desired, o.desired, q);
    if Get(desired, q).Found? {
      SetBack(o.desired, q);
    }
  }

  lemma DesiredKeeps(desired: Json, actual: Json, paths: seq<Path>, o: Objects, q: Path, t: Objects)
    requires DesiredOk(desired, o) && SharedOk(desired, actual, paths, o) && Effective(desired, o, q, t)
    ensures DesiredOk(desired, t)
  {
    DesiredAfter(desired, actual, paths, o, q, t);
    if t.desired != o.desired {
      forall p ensures KeepsField(desired, t.desired, p) {
        assert KeepsField(desired, o.desired, p);
        FieldKept(desired, o.desired, q, p);
      }
      forall p | Get(desired, p).Missing? && !UnderShared(t.shared, p) ensures Get(t.desired, p).Missing? {
        MissingKept(desired, actual, paths, o, q, t, p);
      }
    } else {
      assert forall p :: UnderShared(o.shared, p) ==> UnderShared(t.shared, p);
    }
  }

  lemma FieldKept(desired: Json, d: Json, q: Path, p: Path)
    requires q != [] && CanSet(d, q) && Get(desired, q).Missing? && KeepsField(desired, d, p)
    ensures KeepsField(desired, Set(d, q, Nil), p)
  {
    if q <= p {
      PrefixLookup(desired, q, p);
      SetBelow(d, q, Nil, p);
    } else if p <= q {
      PrefixLookup(desired, p, q);
      SetAbove(d, q, Nil, p);
    } else {
      GetElsewhere(d, q, Nil, p);
    }
  }

  lemma MissingKept(desired: Json, actual: Json, paths: seq<Path>, o: Objects, q: Path, t: Objects, p: Path)
    requires DesiredOk(desired, o) && SharedOk(desired, actual, paths, o) && Effective(desired, o, q, t)
    requires BelowShared(o.shared, q) && CanSet(o.desired, q) && t.desired == Set(o.desired, q, Nil)
    requires Get(desired, p).Missing? && !UnderShared(t.shared, p)
    ensures Get(t.desired, p).Missing?
  {
    var s :| s in o.shared && s <= q && s != q;
    assert s in t.shared && !(s <= p);
    assert p <= s ==> Get(desired, p).Found? by {
      if p <= s { PrefixLookup(desired, p, s); }
    }
    PrefixesComparable(s, p, q);
    assert !UnderShared(o.shared, p) by {
      assert forall r :: r in o.shared ==> r in t.shared;
    }
    GetElsewhere(o.desired, q, Nil, p);
  }

  lemma PrefixOfPrefix(q: Path, u: Path, p: Path)
    requires u <= p
    ensures q <= u ==> q <= p
  {
    assert q <= u ==> q == u[..|q|] == p[..|q|];
  }

  lemma PrefixesComparable(s: Path, p: Path, q: Path)
    requires s <= q
    ensures p <= q ==> s <= p || p <= s
    ensures q <= p ==> s <= p
  {
    if p <= q {
      assert s == q[..|s|] && p == q[..|p|];
      if |s| <= |p| {
        assert s == p[..|s|];
      } else {
        assert p == s[..|p|];
      }
    }
    if q <= p {
      assert s == q[..|s|] == p[..|s|];
    }
  }

  lemma SharedKeeps(desired: Json, actual: Json, paths: seq<Path>, o: Objects, q: Path, t: Objects)
    requires DesiredOk(desired, o) && SharedOk(desired, actual, paths, o) && Effective(desired, o, q, t)
    requires Covered(desired, actual, paths, |paths|, q)
    ensures SharedOk(desired, actual, paths, t)
  {
    DesiredAfter(desired, actual, paths, o, q, t);
    assert KeepsField(desired, o.desired, q);
    forall s | s in t.shared
      ensures s != [] && Get(desired, s).Found? && Get(t.existing, s) == Get(t.desired, s)
      ensures Covered(desired, actual, paths, |paths|, s)
    {
      if s in o.shared {
        SharedStays(desired, o, q, t, s);
      } else {
        assert s == q;
        SetBelow(o.existing, q, Written(o, Change(q, true)), q);
        assert q[|q|..] == [];
      }
    }
  }

  lemma SharedStays(desired: Json, o: Objects, q: Path, t: Objects, s: Path)
    requires Effective(desired, o, q, t) && s in o.shared && s != []
    requires Get(desired, s).Found? && Get(o.existing, s) == Get(o.desired, s) && KeepsField(desired, o.desired, s)
    requires KeepsField(desired, o.desired, q) && (Get(desired, q).Found? ==> t.desired == o.desired)
    requires t.desired == o.desired || (CanSet(o.desired, q) && t.desired == Set(o.desired, q, Nil))
    ensures Get(t.existing, s) == Get(t.desired, s)
  {
    var x := Written(o, Change(q, Get(desired, q).Found?));
    if q <= s {
      PrefixLookup(desired, q, s);
      SetBelow(o.existing, q, x, s);
      assert s == q + s[|q|..];
      GetCompose(o.desired, q, s[|q|..]);
    } else if s <= q {
      assert BelowShared(o.shared, q);
      SameBelow(o.existing, o.desired, s, q, x);
    } else {
      GetElsewhere(o.existing, q, x, s);
      if t.desired != o.desired {
        GetElsewhere(o.desired, q, Nil, s);
      }
    }
  }

  lemma SettledUp(desired: Json, o: Objects, q: Path, p: Path)
    requires Settled(desired, o, q) && q <= p
    ensures Settled(desired, o, p)
  {
    if UnderShared(o.shared, q) {
      var s :| s in o.shared && s <= q;
      PrefixesComparable(s, p, q);
      assert s in o.shared && s <= p;
    } else {
      var r :| NilAt(desired, o, r) && r <= q;
      PrefixesComparable(r, p, q);
    }
  }

  /** The path just written is settled. */
  lemma WrittenSettles(desired: Json, o: Objects, q: Path, t: Objects)
    requires Effective(desired, o, q, t)
    ensures Settled(desired, t, q)
  {
    if Get(desired, q).Found? {
      assert q in t.shared;
    } else {
      SetBelow(o.existing, q, Nil, q);
      assert q[|q|..] == [] && NilAt(desired, t, q);
    }
  }

  lemma SettledStays(desired: Json, o: Objects, q: Path, t: Objects, p: Path)
    requires Effective(desired, o, q, t) && Settled(desired, o, p)
    ensures Settled(desired, t, p)
  {
    WrittenSettles(desired, o, q, t);
    if q <= p {
      SettledUp(desired, t, q, p);
    } else if UnderShared(o.shared, p) {
      var s :| s in o.shared && s <= p;
      assert s in t.shared;
    } else {
      var r :| NilAt(desired, o, r) && r <= p;
      NilStays(desired, o, q, t, r, p);
    }
  }

  lemma NilStays(desired: Json, o: Objects, q: Path, t: Objects, r: Path, p: Path)
    requires Effective(desired, o, q, t) && NilAt(desired, o, r) && r <= p && !(q <= p)
    ensures NilAt(desired, t, r)
  {
    PrefixOfPrefix(q, r, p);
    CanSetIff(o.existing, q);
    assert r <= q ==> q[..|r|] == r;
    GetElsewhere(o.existing, q, Written(o, Change(q, Get(desired, q).Found?)), r);
  }

  lemma WritableStays(desired: Json, o: Objects, q: Path, t: Objects, p: Path)
    requires Effective(desired, o, q, t) && p != [] && CanSet(o.existing, p) && !(q <= p)
    ensures CanSet(t.existing, p)
  {
    var x := Written(o, Change(q, Get(desired, q).Found?));
    CanSetIff(o.existing, p);
    forall k | 0 <= k < |p| && Get(t.existing, p[..k]).Found? ensures Get(t.existing, p[..k]).value.Object? {
      var u := p[..k];
      PrefixOfPrefix(q, u, p);
      if u <= q {
        SetAbove(o.existing, q, x, u);
      } else {
        GetElsewhere(o.existing, q, x, u);
      }
    }
    CanSetIff(t.existing, p);
  }

  lemma WritesKeep(desired: Json, actual: Json, paths: seq<Path>, n: nat, o: Objects, t: Objects)
    requires n < |paths| && forall i :: 0 <= i < |paths| ==> paths[i] != []
    requires WritesOk(desired, actual, paths, n, o) && Effective(desired, o, paths[n], t)
    ensures WritesOk(desired, actual, paths, n + 1, t)
  {
    var q := paths[n];
    WrittenSettles(desired, o, q, t);
    forall p | Covered(desired, actual, paths, n + 1, p) ensures Settled(desired, t, p) {
      if q <= p {
        SettledUp(desired, t, q, p);
      } else {
        var j :| 0 <= j < n + 1 && IsCover(desired, actual, paths[j], p);
        assert Covered(desired, actual, paths, n, p);
        SettledStays(desired, o, q, t, p);
      }
    }
    forall p | p != [] && CanSet(actual, p) ensures CanSet(t.existing, p) || Settled(desired, t, p) {
      if q <= p {
        SettledUp(desired, t, q, p);
      } else if Settled(desired, o, p) {
        SettledStays(desired, o, q, t, p);
      } else {
        WritableStays(desired, o, q, t, p);
      }
    }
  }

  /** A write does not reach below something that is not a map, nor beside its path. */
  lemma WriteLeaves(v: Json, q: Path, x: Json, u: Path)
    requires q != [] && !(q <= u)
    requires (Get(v, u).Found? && !Get(v, u).value.Object?) || Incomparable(q, u)
    ensures Get(Write(v, q, x), u) == Get(v, u)
  {
    CanSetIff(v, q);
    assert u <= q ==> q[..|u|] == u;
    if CanSet(v, q) && !(u <= q) {
      GetElsewhere(v, q, x, u);
    }
  }

  lemma RestKeeps(desired: Json, actual: Json, paths: seq<Path>, o: Objects, q: Path, t: Objects)
    requires RestOk(desired, actual, paths, o) && q in paths && Effective(desired, o, q, t)
    ensures RestOk(desired, actual, paths, t)
  {
    var x := Written(o, Change(q, Get(desired, q).Found?));
    var i :| 0 <= i < |paths| && paths[i] == q;
    forall u | Stuck(desired, actual, paths, u) ensures Get(t.existing, u) == Get(actual, u) {
      assert !(paths[i] <= u);
      WriteLeaves(o.existing, q, x, u);
    }
    forall u | ApartFromAll(paths, u)
      ensures Get(t.existing, u) == Get(actual, u) && Get(t.desired, u) == Get(desired, u)
    {
      assert Incomparable(paths[i], u);
      WriteLeaves(o.existing, q, x, u);
      WriteLeaves(o.desired, q, x, u);
    }
  }

  /** A path that is not covered is stuck below something no write reaches. */
  lemma UncoveredIsStuck(desired: Json, actual: Json, paths: seq<Path>, p: Path) returns (k: nat)
    requires p in paths && !Get(desired, p).NotAMap? && !Covered(desired, actual, paths, |paths|, p)
    requires forall j :: 0 <= j < |paths| ==> paths[j] != []
    ensures k < |p| && Stuck(desired, actual, paths, p[..k])
  {
    var i :| 0 <= i < |paths| && paths[i] == p;
    assert !IsCover(desired, actual, paths[i], p);
    CanSetIff(actual, p);
    k :| 0 <= k < |p| && Get(actual, p[..k]).Found? && !Get(actual, p[..k]).value.Object?;
    var u := p[..k];
    forall j | 0 <= j < |paths| && !Get(desired, paths[j]).NotAMap? ensures !(paths[j] <= u) {
      assert !IsCover(desired, actual, paths[j], p);
      if paths[j] <= u {
        AboveIsWritable(actual, u, paths[j]);
      }
    }
  }

  /** Only covered paths are ever written. */
  lemma EffectiveIsCovered(desired: Json, actual: Json, paths: seq<Path>, o: Objects, q: Path)
    requires forall j :: 0 <= j < |paths| ==> paths[j] != []
    requires RestOk(desired, actual, paths, o) && q in paths && q != []
    requires CanSet(o.existing, q) && !Get(desired, q).NotAMap?
    ensures Covered(desired, actual, paths, |paths|, q)
  {
    CanSetIff(o.existing, q);
    if !Covered(desired, actual, paths, |paths|, q) {
      var k := UncoveredIsStuck(desired, actual, paths, q);
    }
  }

  lemma SkipKeeps(desired: Json, actual: Json, paths: seq<Path>, n: nat, o: Objects)
    requires n < |paths| && forall i :: 0 <= i < |paths| ==> paths[i] != []
    requires WritesOk(desired, actual, paths, n, o)
    requires Get(desired, paths[n]).NotAMap? || !CanSet(o.existing, paths[n])
    ensures WritesOk(desired, actual, paths, n + 1, o)
  {
    forall p | Covered(desired, actual, paths, n + 1, p) ensures Settled(desired, o, p) {
      var j :| 0 <= j < n + 1 && IsCover(desired, actual, paths[j], p);
      if j == n {
        SettledUp(desired, o, paths[n], p);
      } else {
        assert Covered(desired, actual, paths, n, p);
      }
    }
  }

  lemma StepKeeps(desired: Json, actual: Json, paths: seq<Path>, n: nat, o: Objects)
    requires n < |paths| && forall i :: 0 <= i < |paths| ==> paths[i] != []
    requires Inv(desired, actual, paths, n, o)
    ensures var q := paths[n];
      Inv(desired, actual, paths, n + 1,
          if Get(desired, q).NotAMap? then o else Apply(o, Change(q, Get(desired, q).Found?)))
  {
    var q := paths[n];
    if Get(desired, q).NotAMap? || !CanSet(o.existing, q) {
      SkipKeeps(desired, actual, paths, n, o);
    } else {
      var t := Apply(o, Change(q, Get(desired, q).Found?));
      EffectiveIsCovered(desired, actual, paths, o, q);
      DesiredKeeps(desired, actual, paths, o, q, t);
      SharedKeeps(desired, actual, paths, o, q, t);
      WritesKeep(desired, actual, paths, n, o, t);
      RestKeeps(desired, actual, paths, o, q, t);
    }
  }

  lemma StartKeeps(desired: Json, actual: Json, paths: seq<Path>)
    requires forall i :: 0 <= i < |paths| ==> paths[i] != []
    ensures Inv(desired, actual, paths, 0, Objects(actual, desired, {}))
  {
    assert forall p :: KeepsField(desired, desired, p);
  }

  lemma {:induction false} AfterKeeps(desired: Json, actual: Json, paths: seq<Path>, n: nat)
    requires n <= |paths| && forall i :: 0 <= i < |paths| ==> paths[i] != []
    ensures Inv(desired, actual, paths, n, After(desired, actual, paths[..n]))
  {
    if n == 0 {
      StartKeeps(desired, actual, paths);
    } else {
      AfterKeeps(desired, actual, paths, n - 1);
      StepKeeps(desired, actual, paths, n - 1, After(desired, actual, paths[..n - 1]));
      assert paths[..n] == paths[..n - 1] + [paths[n - 1]];
      AfterNext(desired, actual, paths[..n - 1], paths[n - 1]);
    }
  }

  // When a field agrees in the end.

  /** `p` can be brought in line: a listed path at or above it can be written or, when nothing
      can, a nil is in the way of a field that should be nil. */
  ghost predicate Attainable(desired: Json, actual: Json, paths: seq<Path>, p: Path)
  {
    && !Get(desired, p).NotAMap?
    && (Covered(desired, actual, paths, |paths|, p) || (Get(actual, p).Missing? && ValueOf(Get(desired, p)).Nil?))
  }

  lemma SettledAgrees(desired: Json, actual: Json, paths: seq<Path>, o: Objects, p: Path)
    requires DesiredOk(desired, o) && SharedOk(desired, actual, paths, o)
    requires Settled(desired, o, p) && !Get(desired, p).NotAMap?
    ensures AgreeAt(o.desired, o.existing, p)
  {
    assert KeepsField(desired, o.desired, p);
    if UnderShared(o.shared, p) {
      var s :| s in o.shared && s <= p;
      assert KeepsField(desired, o.desired, s);
      assert p == s + p[|s|..];
      GetCompose(o.existing, s, p[|s|..]);
      GetCompose(o.desired, s, p[|s|..]);
    } else {
      var r :| NilAt(desired, o, r) && r <= p;
      PrefixLookup(desired, r, p);
      assert p == r + p[|r|..];
      GetCompose(o.existing, r, p[|r|..]);
    }
  }

  lemma StuckAgrees(desired: Json, actual: Json, paths: seq<Path>, o: Objects, p: Path, k: nat)
    requires DesiredOk(desired, o) && SharedOk(desired, actual, paths, o) && RestOk(desired, actual, paths, o)
    requires !Get(desired, p).NotAMap? && !Covered(desired, actual, paths, |paths|, p)
    requires k < |p| && Stuck(desired, actual, paths, p[..k])
    ensures AgreeAt(o.desired, o.existing, p) <==> Get(actual, p).Missing? && ValueOf(Get(desired, p)).Nil?
  {
    assert p == p[..k] + p[k..];
    GetCompose(actual, p[..k], p[k..]);
    GetCompose(o.existing, p[..k], p[k..]);
    assert KeepsField(desired, o.desired, p);
    assert !UnderShared(o.shared, p) by {
      if UnderShared(o.shared, p) {
        var s :| s in o.shared && s <= p;
        CoveredUp(desired, actual, paths, s, p);
      }
    }
  }

  lemma CoveredUp(desired: Json, actual: Json, paths: seq<Path>, s: Path, p: Path)
    requires Covered(desired, actual, paths, |paths|, s) && s <= p
    ensures Covered(desired, actual, paths, |paths|, p)
  {
    var j :| 0 <= j < |paths| && IsCover(desired, actual, paths[j], s);
    assert paths[j] == s[..|paths[j]|] == p[..|paths[j]|];
    assert IsCover(desired, actual, paths[j], p);
  }

  /** After Transform, checking the same fields of the same two objects again reports equality
      for exactly those that were attainable, for every list of paths: overlapping, blocked,
      missing in the desired object, in any order. Every path incomparable to all of them is
      unchanged in both objects. */
  lemma TransformConvergesIff(desired: Json, actual: Json, paths: seq<Path>)
    requires forall i :: 0 <= i < |paths| ==> paths[i] != []
    ensures var r := After(desired, actual, paths);
      && (forall p :: p in paths ==> (AgreeAt(r.desired, r.existing, p) <==> Attainable(desired, actual, paths, p)))
      && (forall q :: ApartFromAll(paths, q) ==>
            Get(r.existing, q) == Get(actual, q) && Get(r.desired, q) == Get(desired, q))
  {
    AfterKeeps(desired, actual, paths, |paths|);
    assert paths[..|paths|] == paths;
    var r := After(desired, actual, paths);
    forall p | p in paths ensures AgreeAt(r.desired, r.existing, p) <==> Attainable(desired, actual, paths, p) {
      assert KeepsField(desired, r.desired, p);
      if Get(desired, p).NotAMap? {
      } else if Covered(desired, actual, paths, |paths|, p) {
        SettledAgrees(desired, actual, paths, r, p);
      } else {
        var k := UncoveredIsStuck(desired, actual, paths, p);
        StuckAgrees(desired, actual, paths, r, p, k);
      }
    }
  }

  /** The desired object itself changes only if a listed field is missing in it. */
  lemma {:induction false} DesiredUnchanged(desired: Json, actual: Json, paths: seq<Path>)
    requires forall i :: 0 <= i < |paths| ==> paths[i] != [] && !Get(desired, paths[i]).Missing?
    ensures After(desired, actual, paths).desired == desired
  {
    if paths != [] {
      var n := |paths| - 1;
      DesiredUnchanged(desired, actual, paths[..n]);
      if Get(desired, paths[n]).Found? {
        SetBack(desired, paths[n]);
      }
      assert paths == paths[..n] + [paths[n]];
      AfterNext(desired, actual, paths[..n], paths[n]);
    }
  }

  /** In particular everything converges to the desired object as it was when it has all listed
      fields and none is blocked by a non-map. */
  lemma TransformConverges(desired: Json, actual: Json, paths: seq<Path>)
    requires forall i :: 0 <= i < |paths| ==>
               paths[i] != [] && Get(desired, paths[i]).Found? && CanSet(actual, paths[i])
    ensures forall p :: p in paths ==> AgreeAt(desired, After(desired, actual, paths).existing, p)
  {
    TransformConvergesIff(desired, actual, paths);
    DesiredUnchanged(desired, actual, paths);
    forall p | p in paths ensures Attainable(desired, actual, paths, p) {
      var i :| 0 <= i < |paths| && paths[i] == p;
      assert IsCover(desired, actual, paths[i], p);
    }
  }

  /** A string where a map should be keeps field a.b from converging, unless a is listed, too. */
  lemma BlockedUnlessCovered() returns (desired: Json, actual: Json, a: Path, ab: Path)
    ensures a != [] && ab != [] && Get(desired, ab).Found?
    ensures !AgreeAt(After(desired, actual, [ab]).desired, After(desired, actual, [ab]).existing, ab)
    ensures AgreeAt(After(desired, actual, [ab, a]).desired, After(desired, actual, [ab, a]).existing, ab)
  {
    a, ab := ["a"], ["a", "b"];
    desired := Object(map["a" := Object(map["b" := Leaf("1")])]);
    actual := Object(map["a" := Leaf("x")]);
    assert ab[1..] == ["b"] && ab[0] == "a" && ["b"][1..] == [];
    assert Get(desired, a) == Found(Object(map["b" := Leaf("1")]));
    assert Get(desired, ab) == Found(Leaf("1"));
    assert Get(actual, ab) == NotAMap && !CanSet(actual, ab) && CanSet(actual, a);
    BlockedThenCovered(desired, actual, a, ab);
  }

  lemma BlockedThenCovered(desired: Json, actual: Json, a: Path, ab: Path)
    requires a != [] && a <= ab && Get(desired, a).Found? && Get(desired, ab).Found?
    requires CanSet(actual, a) && !CanSet(actual, ab) && Get(actual, ab).NotAMap?
    ensures !AgreeAt(After(desired, actual, [ab]).desired, After(desired, actual, [ab]).existing, ab)
    ensures AgreeAt(After(desired, actual, [ab, a]).desired, After(desired, actual, [ab, a]).existing, ab)
  {
    TransformConvergesIff(desired, actual, [ab]);
    TransformConvergesIff(desired, actual, [ab, a]);
    assert ab in [ab] && ab in [ab, a];
    var paths := [ab, a];
    assert IsCover(desired, actual, paths[1], ab);
  }
}
