/** pkg/kf/dynamicutils/utils.go and pkg/reconciler/unstructured_equality.go: writing nested
    fields of an untyped object to make it agree with a desired one. */
module Unstructured {

  /** Everything that is neither nil nor a map, lists included, is a leaf to these functions. */
  datatype Json = Nil | Leaf(text: string) | Object(fields: map<string, Json>)

  type Path = seq<string>

  datatype Lookup = Missing | NotAMap | Found(value: Json)

  /** unstructured.NestedFieldNoCopy */
  function Get(v: Json, path: Path): (r: Lookup)
  {
    if path == [] then Found(v)
    else
      match v
      case Nil => Missing
      case Leaf(_) => NotAMap
      case Object(fields) => if path[0] in fields then Get(fields[path[0]], path[1..]) else Missing
  }

  predicate CanSet(v: Json, path: Path)
    requires path != []
  {
    && v.Object?
    && (|path| == 1 || path[0] !in v.fields || CanSet(v.fields[path[0]], path[1..]))
  }

  /** SetNestedFieldNoCopy: missing maps on the way are created. */
  function Set(v: Json, path: Path, x: Json): (r: Json)
    requires path != [] && CanSet(v, path)
    ensures r.Object?
    decreases |path|
  {
    var f := path[0];
    if |path| == 1 then Object(v.fields[f := x])
    else
      var inner := if f in v.fields then v.fields[f] else Object(map[]);
      Object(v.fields[f := Set(inner, path[1..], x)])
  }

  /** A write that runs into something that is not a map returns an error, which `Transform`
      ignores, and leaves the object as it was. */
  function Write(v: Json, path: Path, x: Json): (r: Json)
    requires path != []
  {
    if CanSet(v, path) then Set(v, path, x) else v
  }

  // The laws of the lens.

  lemma {:induction false} GetCompose(v: Json, p: Path, q: Path)
    requires Get(v, p).Found?
    ensures Get(v, p + q) == Get(Get(v, p).value, q)
  {
    if p == [] {
      assert p + q == q;
    } else {
      GetCompose(v.fields[p[0]], p[1..], q);
      assert (p + q)[1..] == p[1..] + q;
    }
  }

  /** Reading below the written path reads from the written value. */
  lemma {:induction false} GetBelow(v: Json, p: Path, x: Json, q: Path)
    requires p != [] && CanSet(v, p)
    ensures Get(Set(v, p, x), p + q) == Get(x, q)
    decreases |p|
  {
    assert (p + q)[1..] == p[1..] + q;
    if |p| == 1 {
      assert p[1..] + q == q;
    } else {
      var inner := if p[0] in v.fields then v.fields[p[0]] else Object(map[]);
      GetBelow(inner, p[1..], x, q);
    }
  }

  /** Reading a proper prefix of the written path reads a map in which the rest was written. */
  lemma {:induction false} GetAbove(v: Json, p: Path, x: Json, k: nat)
    requires 0 < k < |p| && CanSet(v, p)
    ensures Get(Set(v, p, x), p[..k]).Found? && Get(Set(v, p, x), p[..k]).value.Object?
    ensures Get(v, p[..k]).Found? ==>
              && CanSet(Get(v, p[..k]).value, p[k..])
              && Get(Set(v, p, x), p[..k]).value == Set(Get(v, p[..k]).value, p[k..], x)
    decreases |p|
  {
    var f := p[0];
    var inner := if f in v.fields then v.fields[f] else Object(map[]);
    assert p[..k][1..] == p[1..][..k - 1];
    if k == 1 {
      assert p[..1][1..] == [];
    } else {
      GetAbove(inner, p[1..], x, k - 1);
      assert p[1..][k - 1..] == p[k..];
    }
  }

  predicate Incomparable(p: Path, q: Path)
  {
    !(p <= q) && !(q <= p)
  }

  /** A path that is neither above nor below the written one is untouched. */
  lemma {:induction false} GetElsewhere(v: Json, p: Path, x: Json, q: Path)
    requires p != [] && CanSet(v, p) && Incomparable(p, q)
    ensures Get(Set(v, p, x), q) == Get(v, q)
    decreases |p|
  {
    if p[0] == q[0] {
      assert p == [p[0]] + p[1..] && q == [q[0]] + q[1..];
      assert Incomparable(p[1..], q[1..]);
      var inner := if p[0] in v.fields then v.fields[p[0]] else Object(map[]);
      GetElsewhere(inner, p[1..], x, q[1..]);
      if p[0] !in v.fields {
        assert Get(Object(map[]), q[1..]) == Missing;
      }
    }
  }

  /** Writing back what is there changes nothing. Transform shares maps between the desired
      and the written object; by this law a later write into a shared map is no change. */
  lemma {:induction false} SetBack(v: Json, p: Path)
    requires p != [] && Get(v, p).Found?
    ensures CanSet(v, p) && Set(v, p, Get(v, p).value) == v
    decreases |p|
  {
    var f := p[0];
    if |p| == 1 {
      assert p[1..] == [];
      assert v.fields[f := v.fields[f]] == v.fields;
    } else {
      SetBack(v.fields[f], p[1..]);
      assert v.fields[f := v.fields[f]] == v.fields;
    }
  }

  /** A path can be written exactly when nothing above it is there that is not a map. */
  lemma {:induction false} CanSetIff(v: Json, p: Path)
    requires p != []
    ensures CanSet(v, p) <==>
            forall k :: 0 <= k < |p| && Get(v, p[..k]).Found? ==> Get(v, p[..k]).value.Object?
    decreases |p|
  {
    assert p[..0] == [] && Get(v, p[..0]) == Found(v);
    if v.Object? && |p| > 1 {
      var f := p[0];
      forall k | 0 < k < |p|
        ensures Get(v, p[..k]) == if f in v.fields then Get(v.fields[f], p[1..][..k - 1]) else Missing
      {
        assert p[..k][1..] == p[1..][..k - 1];
      }
      if f in v.fields {
        CanSetIff(v.fields[f], p[1..]);
        if CanSet(v.fields[f], p[1..]) {
        } else {
          var j :| 0 <= j < |p[1..]| && Get(v.fields[f], p[1..][..j]).Found?
                   && !Get(v.fields[f], p[1..][..j]).value.Object?;
          assert p[..j + 1][1..] == p[1..][..j];
          assert Get(v, p[..j + 1]).Found? && !Get(v, p[..j + 1]).value.Object?;
        }
      }
    }
  }
}
