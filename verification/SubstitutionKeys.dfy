/** substitution.go, maps: keys are substituted too, so two of them can become the same key, and
    then the order in which Go happens to walk the map decides which value stays. */
module SubstitutionKeys {
  import opened Common
  import opened Substitution

  // A manifest as Go has it, with unordered maps at every level.

  datatype Tree =
    | NullTree
    | BoolTree(b: bool)
    | NumberTree(n: int)
    | StrTree(s: string)
    | ArrTree(items: seq<Tree>)
    | ObjTree(fields: map<string, Tree>)

  function Meaning(v: Value): (t: Tree)
    decreases v, 0
  {
    match v
    case Null => NullTree
    case Bool(b) => BoolTree(b)
    case Number(n) => NumberTree(n)
    case Str(s) => StrTree(s)
    case Arr(items) => ArrTree(seq(|items|, i requires 0 <= i < |items| => Meaning(items[i])))
    case Obj(fields) => ObjTree(FieldsMeaning(fields))
  }

  function FieldsMeaning(fields: seq<Field>): (m: map<string, Tree>)
    decreases fields
  {
    if fields == [] then map[] else FieldsMeaning(fields[1..])[fields[0].key := Meaning(fields[0].value)]
  }

  ghost predicate DistinctKeys(fields: seq<Field>)
  {
    forall i, j :: 0 <= i < j < |fields| ==> fields[i].key != fields[j].key
  }

  /** Two listings of the same manifest: at every depth, Go may walk a map in either order. */
  ghost predicate Same(v: Value, w: Value)
  {
    WellFormed(v) && WellFormed(w) && Meaning(v) == Meaning(w)
  }

  lemma {:induction false} MeaningOfField(fields: seq<Field>, i: nat)
    requires DistinctKeys(fields) && i < |fields|
    ensures fields[i].key in FieldsMeaning(fields)
    ensures FieldsMeaning(fields)[fields[i].key] == Meaning(fields[i].value)
  {
    if i > 0 {
      MeaningOfField(fields[1..], i - 1);
    }
  }

  lemma {:induction false} FieldOfMeaning(fields: seq<Field>, k: string) returns (i: nat)
    requires k in FieldsMeaning(fields)
    ensures i < |fields| && fields[i].key == k && FieldsMeaning(fields)[k] == Meaning(fields[i].value)
  {
    if fields[0].key == k {
      i := 0;
    } else {
      i := FieldOfMeaning(fields[1..], k);
      i := i + 1;
    }
  }

  /** The other listing has a field of the same name and meaning. */
  lemma Counterpart(a: seq<Field>, b: seq<Field>, i: nat) returns (j: nat)
    requires Same(Obj(a), Obj(b)) && i < |a|
    ensures j < |b| && b[j].key == a[i].key && Same(a[i].value, b[j].value)
  {
    MeaningOfField(a, i);
    j := FieldOfMeaning(b, a[i].key);
  }

  /** Fields that are the same one by one, in any order, are listings of the same map. */
  lemma SameFields(a: seq<Field>, b: seq<Field>)
    requires DistinctKeys(a) && DistinctKeys(b)
    requires forall i :: 0 <= i < |a| ==> Listed(b, a[i].key, Meaning(a[i].value))
    requires forall j :: 0 <= j < |b| ==> Listed(a, b[j].key, Meaning(b[j].value))
    ensures FieldsMeaning(a) == FieldsMeaning(b)
  {
    var m, n := FieldsMeaning(a), FieldsMeaning(b);
    forall k | k in m ensures k in n && n[k] == m[k] {
      ListedMeaning(a, b, k);
    }
    forall k | k in n ensures k in m {
      ListedMeaning(b, a, k);
    }
    SameEntries(m, n);
  }

  ghost predicate Listed(fields: seq<Field>, key: string, t: Tree)
  {
    exists i :: 0 <= i < |fields| && fields[i].key == key && Meaning(fields[i].value) == t
  }

  lemma ListedMeaning(a: seq<Field>, b: seq<Field>, k: string)
    requires DistinctKeys(b) && k in FieldsMeaning(a)
    requires forall i :: 0 <= i < |a| ==> Listed(b, a[i].key, Meaning(a[i].value))
    ensures k in FieldsMeaning(b) && FieldsMeaning(b)[k] == FieldsMeaning(a)[k]
  {
    var i := FieldOfMeaning(a, k);
    assert Listed(b, a[i].key, Meaning(a[i].value));
    var j :| 0 <= j < |b| && b[j].key == a[i].key && Meaning(b[j].value) == Meaning(a[i].value);
    MeaningOfField(b, j);
  }

  // What one map becomes.

  function SubstitutedField(f: Field, vars: Variables, show: Value -> string): (r: Option<Field>)
  {
    var k, v := SubstituteString(f.key, vars, show), Substitute(f.value, vars, show);
    if k.Some? && v.Some? then Some(Field(show(k.value), v.value)) else None
  }

  ghost predicate AllBound(fields: seq<Field>, vars: Variables, show: Value -> string)
  {
    forall i :: 0 <= i < |fields| ==> SubstitutedField(fields[i], vars, show).Some?
  }

  lemma {:induction false} PutMeaning(fields: seq<Field>, f: Field)
    ensures FieldsMeaning(Put(fields, f)) == FieldsMeaning(fields)[f.key := Meaning(f.value)]
  {
    if fields == [] {
      assert [f][1..] == [];
    } else if fields[0].key == f.key {
      assert ([f] + fields[1..])[1..] == fields[1..];
    } else {
      PutMeaning(fields[1..], f);
      var rest := Put(fields[1..], f);
      assert ([fields[0]] + rest)[1..] == rest;
    }
  }

  /** The assignments of the loop over the map, in the order of the walk. */
  ghost function Assigned(fields: seq<Field>, vars: Variables, show: Value -> string): (m: map<string, Tree>)
    requires AllBound(fields, vars, show)
  {
    if fields == [] then map[]
    else
      var n := |fields| - 1;
      var f := SubstitutedField(fields[n], vars, show).value;
      Assigned(fields[..n], vars, show)[f.key := Meaning(f.value)]
  }

  lemma {:induction false} FieldsAssigned(fields: seq<Field>, vars: Variables, show: Value -> string)
    ensures SubstituteFields(fields, vars, show).Some? <==> AllBound(fields, vars, show)
    ensures AllBound(fields, vars, show) ==>
              FieldsMeaning(SubstituteFields(fields, vars, show).value) == Assigned(fields, vars, show)
  {
    if fields != [] {
      var n := |fields| - 1;
      FieldsAssigned(fields[..n], vars, show);
      AllBoundNext(fields, vars, show);
      assert fields[..n + 1] == fields;
      SubstitutedNext(fields, n, vars, show);
      if AllBound(fields, vars, show) {
        PutMeaning(SubstituteFields(fields[..n], vars, show).value, SubstitutedField(fields[n], vars, show).value);
      }
    }
  }

  lemma AllBoundNext(fields: seq<Field>, vars: Variables, show: Value -> string)
    requires fields != []
    ensures var n := |fields| - 1;
      AllBound(fields, vars, show) <==>
      AllBound(fields[..n], vars, show) && SubstitutedField(fields[n], vars, show).Some?
  {
    var n := |fields| - 1;
    assert forall i :: 0 <= i < n ==> fields[..n][i] == fields[i];
  }

  lemma SubstitutedNext(fields: seq<Field>, n: nat, vars: Variables, show: Value -> string)
    requires n < |fields|
    ensures SubstituteFields(fields[..n + 1], vars, show) ==
            var init, f := SubstituteFields(fields[..n], vars, show), SubstitutedField(fields[n], vars, show);
            if init.Some? && f.Some? then Some(Put(init.value, f.value)) else None
  {
    FieldStep(fields, n, vars, show);
  }

  /** Field `f` assigns meaning `t` to key `k`. */
  predicate Assigns(f: Field, vars: Variables, show: Value -> string, k: string, t: Tree)
  {
    var g := SubstitutedField(f, vars, show);
    g.Some? && g.value.key == k && Meaning(g.value.value) == t
  }

  /** Every key that was assigned holds what one of the fields assigned to it. */
  lemma {:induction false} AssignedFrom(fields: seq<Field>, vars: Variables, show: Value -> string, k: string)
    returns (i: nat)
    requires AllBound(fields, vars, show) && k in Assigned(fields, vars, show)
    ensures i < |fields| && Assigns(fields[i], vars, show, k, Assigned(fields, vars, show)[k])
  {
    var n := |fields| - 1;
    if SubstitutedField(fields[n], vars, show).value.key == k {
      i := n;
    } else {
      i := AssignedFrom(fields[..n], vars, show, k);
    }
  }

  lemma {:induction false} AssignedKey(fields: seq<Field>, vars: Variables, show: Value -> string, i: nat)
    requires AllBound(fields, vars, show) && i < |fields|
    ensures SubstitutedField(fields[i], vars, show).value.key in Assigned(fields, vars, show)
  {
    if i < |fields| - 1 {
      AssignedKey(fields[..|fields| - 1], vars, show, i);
    }
  }

  lemma {:induction false} ItemsSubstituted(items: seq<Value>, vars: Variables, show: Value -> string)
    ensures SubstituteItems(items, vars, show).Some? <==>
            forall i :: 0 <= i < |items| ==> Substitute(items[i], vars, show).Some?
    ensures SubstituteItems(items, vars, show).Some? ==>
              && |SubstituteItems(items, vars, show).value| == |items|
              && forall i :: 0 <= i < |items| ==>
                   SubstituteItems(items, vars, show).value[i] == Substitute(items[i], vars, show).value
  {
    if items != [] {
      var n := |items| - 1;
      ItemsSubstituted(items[..n], vars, show);
      assert items[..n + 1] == items;
      ItemStep(items, n, vars, show);
      assert forall i :: 0 <= i < n ==> items[..n][i] == items[i];
    }
  }

  // The condition.

  /** The keys of two fields become the same, but what their values become means different things. */
  predicate Clash(f: Field, g: Field, vars: Variables, show: Value -> string)
  {
    var a, b := SubstitutedField(f, vars, show), SubstitutedField(g, vars, show);
    a.Some? && b.Some? && a.value.key == b.value.key && Meaning(a.value.value) != Meaning(b.value.value)
  }

  /** No map anywhere in the tree has two fields that clash. */
  ghost predicate NoClash(v: Value, vars: Variables, show: Value -> string)
  {
    match v
    case Arr(items) => forall i :: 0 <= i < |items| ==> NoClash(items[i], vars, show)
    case Obj(fields) =>
      && (forall i :: 0 <= i < |fields| ==> NoClash(fields[i].value, vars, show))
      && (forall i, j :: 0 <= i < |fields| && 0 <= j < |fields| ==> !Clash(fields[i], fields[j], vars, show))
    case _ => true
  }

  ghost predicate SameOutcome(v: Value, w: Value, vars: Variables, show: Value -> string)
  {
    var r, t := Substitute(v, vars, show), Substitute(w, vars, show);
    r.Some? && t.Some? && Meaning(r.value) == Meaning(t.value)
  }

  /** Whatever the order in which any of its maps is walked, the manifest becomes the same. */
  ghost predicate OrderIrrelevant(v: Value, vars: Variables, show: Value -> string)
  {
    forall w :: Same(v, w) ==> SameOutcome(v, w, vars, show)
  }

  // Without a clash the order does not matter.

  lemma {:induction false} NoClashSame(v: Value, w: Value, vars: Variables, show: Value -> string)
    requires Same(v, w) && Substitute(v, vars, show).Some? && NoClash(v, vars, show)
    ensures SameOutcome(v, w, vars, show)
    decreases v
  {
    match v
    case Arr(items) =>
      ItemsSubstituted(items, vars, show);
      forall i | 0 <= i < |items| ensures SameOutcome(items[i], w.items[i], vars, show) {
        assert Meaning(v).items[i] == Meaning(items[i]) && Meaning(w).items[i] == Meaning(w.items[i]);
        NoClashSame(items[i], w.items[i], vars, show);
      }
      SameItems(items, w.items, vars, show);
    case Obj(fields) =>
      FieldsAssigned(fields, vars, show);
      forall i, j | 0 <= i < |fields| && 0 <= j < |w.fields| && fields[i].key == w.fields[j].key
        ensures SameOutcome(fields[i].value, w.fields[j].value, vars, show)
      {
        MeaningOfField(fields, i);
        MeaningOfField(w.fields, j);
        assert SubstitutedField(fields[i], vars, show).Some?;
        NoClashSame(fields[i].value, w.fields[j].value, vars, show);
      }
      SameMaps(fields, w.fields, vars, show);
    case _ =>
  }

  lemma SameItems(a: seq<Value>, b: seq<Value>, vars: Variables, show: Value -> string)
    requires |a| == |b| && forall i :: 0 <= i < |a| ==> SameOutcome(a[i], b[i], vars, show)
    ensures SameOutcome(Arr(a), Arr(b), vars, show)
  {
    ItemsSubstituted(a, vars, show);
    ItemsSubstituted(b, vars, show);
    var r, t := SubstituteItems(a, vars, show).value, SubstituteItems(b, vars, show).value;
    assert forall i :: 0 <= i < |a| ==> SameOutcome(a[i], b[i], vars, show) && Meaning(r[i]) == Meaning(t[i]);
    assert Meaning(Arr(r)).items == Meaning(Arr(t)).items;
  }

  lemma SameMaps(a: seq<Field>, b: seq<Field>, vars: Variables, show: Value -> string)
    requires Same(Obj(a), Obj(b)) && AllBound(a, vars, show)
    requires forall i, j :: 0 <= i < |a| && 0 <= j < |a| ==> !Clash(a[i], a[j], vars, show)
    requires forall i, j :: 0 <= i < |a| && 0 <= j < |b| && a[i].key == b[j].key ==>
               SameOutcome(a[i].value, b[j].value, vars, show)
    ensures SameOutcome(Obj(a), Obj(b), vars, show)
  {
    forall j | 0 <= j < |b| ensures SubstitutedField(b[j], vars, show).Some? {
      var i := Counterpart(b, a, j);
      assert SameOutcome(a[i].value, b[j].value, vars, show) && SubstitutedField(a[i], vars, show).Some?;
    }
    FieldsAssigned(a, vars, show);
    FieldsAssigned(b, vars, show);
    var m, n := Assigned(a, vars, show), Assigned(b, vars, show);
    forall k | k in m ensures k in n {
      var i := AssignedFrom(a, vars, show, k);
      var j := Counterpart(a, b, i);
      assert SameOutcome(a[i].value, b[j].value, vars, show);
      AssignedKey(b, vars, show, j);
    }
    forall k | k in n ensures k in m && m[k] == n[k] {
      var j := AssignedFrom(b, vars, show, k);
      var i := Counterpart(b, a, j);
      assert SameOutcome(a[i].value, b[j].value, vars, show);
      AssignedAlike(a, i, vars, show);
    }
    SameEntries(n, m);
  }

  /** Without a clash a key holds what any of its fields assigns to it. */
  lemma AssignedAlike(a: seq<Field>, i: nat, vars: Variables, show: Value -> string)
    requires AllBound(a, vars, show) && i < |a|
    requires forall i, j :: 0 <= i < |a| && 0 <= j < |a| ==> !Clash(a[i], a[j], vars, show)
    ensures var f := SubstitutedField(a[i], vars, show).value;
      f.key in Assigned(a, vars, show) && Assigned(a, vars, show)[f.key] == Meaning(f.value)
  {
    AssignedKey(a, vars, show, i);
    var j := AssignedFrom(a, vars, show, SubstitutedField(a[i], vars, show).value.key);
    assert !Clash(a[i], a[j], vars, show);
  }

  // With a clash it does.

  /** A walk that comes to field `i` last. */
  function Last(fields: seq<Field>, i: nat): (r: seq<Field>)
    requires i < |fields|
    ensures |r| == |fields|
    ensures forall k :: 0 <= k < |r| ==> r[k] == fields[LastFrom(|fields|, i, k)]
  {
    fields[..i] + fields[i + 1..] + [fields[i]]
  }

  /** Which field comes at position `k` of that walk. */
  function LastFrom(n: nat, i: nat, k: nat): (j: nat)
    requires i < n && k < n
    ensures j < n
  {
    if k < i then k else if k < n - 1 then k + 1 else i
  }

  lemma LastSame(fields: seq<Field>, i: nat)
    requires WellFormed(Obj(fields)) && i < |fields|
    ensures Same(Obj(fields), Obj(Last(fields, i)))
  {
    var r, n := Last(fields, i), |fields|;
    LastWellFormed(fields, i);
    forall k | 0 <= k < n ensures Listed(fields, r[k].key, Meaning(r[k].value)) {
      assert r[k] == fields[LastFrom(n, i, k)];
    }
    forall j | 0 <= j < n ensures Listed(r, fields[j].key, Meaning(fields[j].value)) {
      LastHas(fields, i, j);
    }
    SameFields(fields, r);
  }

  lemma LastHas(fields: seq<Field>, i: nat, j: nat)
    requires i < |fields| && j < |fields|
    ensures fields[j] in Last(fields, i)
  {
    var n := |fields|;
    var k := if j < i then j else if j == i then n - 1 else j - 1;
    assert Last(fields, i)[k] == fields[LastFrom(n, i, k)];
  }

  lemma LastWellFormed(fields: seq<Field>, i: nat)
    requires WellFormed(Obj(fields)) && i < |fields|
    ensures WellFormed(Obj(Last(fields, i)))
  {
    var r, n := Last(fields, i), |fields|;
    forall k, l | 0 <= k < l < n ensures r[k].key != r[l].key {
      assert r[k] == fields[LastFrom(n, i, k)] && r[l] == fields[LastFrom(n, i, l)];
    }
    forall k | 0 <= k < n ensures WellFormed(r[k].value) {
      assert r[k] == fields[LastFrom(n, i, k)];
    }
  }

  lemma ReplacedSame(fields: seq<Field>, i: nat, w: Value)
    requires WellFormed(Obj(fields)) && i < |fields| && Same(fields[i].value, w)
    ensures Same(Obj(fields), Obj(fields[i := Field(fields[i].key, w)]))
  {
    var r := fields[i := Field(fields[i].key, w)];
    ReplacedMeaning(fields, i, w);
    assert forall k :: 0 <= k < |r| ==> r[k].key == fields[k].key && WellFormed(r[k].value);
  }

  lemma {:induction false} ReplacedMeaning(fields: seq<Field>, i: nat, w: Value)
    requires i < |fields| && Meaning(fields[i].value) == Meaning(w)
    ensures FieldsMeaning(fields[i := Field(fields[i].key, w)]) == FieldsMeaning(fields)
  {
    var f := Field(fields[i].key, w);
    if i == 0 {
      assert fields[i := f][1..] == fields[1..];
    } else {
      ReplacedMeaning(fields[1..], i - 1, w);
      assert fields[i := f][1..] == fields[1..][i - 1 := f];
    }
  }

  /** The map after a walk that comes to field `i` last holds what field `i` assigns. */
  lemma LastWins(fields: seq<Field>, i: nat, vars: Variables, show: Value -> string)
    requires AllBound(fields, vars, show) && i < |fields|
    ensures var r, f := Substitute(Obj(Last(fields, i)), vars, show), SubstitutedField(fields[i], vars, show).value;
      && r.Some? && Meaning(r.value).ObjTree?
      && f.key in Meaning(r.value).fields && Meaning(r.value).fields[f.key] == Meaning(f.value)
  {
    var r, n := Last(fields, i), |fields|;
    forall k | 0 <= k < n ensures SubstitutedField(r[k], vars, show).Some? {
      assert r[k] == fields[LastFrom(n, i, k)];
    }
    assert r[n - 1] == fields[i];
    FieldsAssigned(r, vars, show);
  }

  /** One of two listings with different outcomes has another outcome than the first. */
  lemma OneDiffers(v: Value, a: Value, b: Value, vars: Variables, show: Value -> string) returns (w: Value)
    requires Same(v, a) && Same(v, b) && !SameOutcome(a, b, vars, show)
    ensures Same(v, w) && !SameOutcome(v, w, vars, show)
  {
    w := if SameOutcome(v, a, vars, show) then b else a;
  }

  lemma FieldsClash(fields: seq<Field>, i: nat, j: nat, vars: Variables, show: Value -> string) returns (w: Value)
    requires WellFormed(Obj(fields)) && AllBound(fields, vars, show)
    requires i < |fields| && j < |fields| && Clash(fields[i], fields[j], vars, show)
    ensures Same(Obj(fields), w) && !SameOutcome(Obj(fields), w, vars, show)
  {
    LastSame(fields, i);
    LastSame(fields, j);
    LastWins(fields, i, vars, show);
    LastWins(fields, j, vars, show);
    w := OneDiffers(Obj(fields), Obj(Last(fields, i)), Obj(Last(fields, j)), vars, show);
  }

  /** A listing of a field's value with another outcome shows when the field is walked last. */
  lemma InnerShows(fields: seq<Field>, i: nat, inner: Value, vars: Variables, show: Value -> string)
    returns (w: Value)
    requires WellFormed(Obj(fields)) && AllBound(fields, vars, show) && i < |fields|
    requires Same(fields[i].value, inner) && !SameOutcome(fields[i].value, inner, vars, show)
    ensures Same(Obj(fields), w) && !SameOutcome(Obj(fields), w, vars, show)
  {
    var other := fields[i := Field(fields[i].key, inner)];
    LastSame(fields, i);
    ReplacedSame(fields, i, inner);
    LastSame(other, i);
    LastWins(fields, i, vars, show);
    var a, b := Obj(Last(fields, i)), Obj(Last(other, i));
    if Substitute(b, vars, show).Some? {
      LastBound(other, i, vars, show);
      LastWins(other, i, vars, show);
    }
    w := OneDiffers(Obj(fields), a, b, vars, show);
  }

  lemma LastBound(fields: seq<Field>, i: nat, vars: Variables, show: Value -> string)
    requires i < |fields| && Substitute(Obj(Last(fields, i)), vars, show).Some?
    ensures AllBound(fields, vars, show)
  {
    var r, n := Last(fields, i), |fields|;
    FieldsAssigned(r, vars, show);
    forall j | 0 <= j < n ensures SubstitutedField(fields[j], vars, show).Some? {
      LastHas(fields, i, j);
    }
  }

  lemma ItemShows(items: seq<Value>, i: nat, inner: Value, vars: Variables, show: Value -> string)
    requires WellFormed(Arr(items)) && i < |items|
    requires Same(items[i], inner) && !SameOutcome(items[i], inner, vars, show)
    ensures Same(Arr(items), Arr(items[i := inner]))
    ensures !SameOutcome(Arr(items), Arr(items[i := inner]), vars, show)
  {
    var v, w := Arr(items), Arr(items[i := inner]);
    assert Meaning(v).items == Meaning(w).items;
    assert w.items[i] == inner;
    if SameOutcome(v, w, vars, show) {
      ItemOutcome(items, w.items, i, vars, show);
    }
  }

  lemma ItemOutcome(a: seq<Value>, b: seq<Value>, i: nat, vars: Variables, show: Value -> string)
    requires i < |a| == |b| && SameOutcome(Arr(a), Arr(b), vars, show)
    ensures SameOutcome(a[i], b[i], vars, show)
  {
    ItemsSubstituted(a, vars, show);
    ItemsSubstituted(b, vars, show);
    var r, t := SubstituteItems(a, vars, show).value, SubstituteItems(b, vars, show).value;
    assert Meaning(Arr(r)).items[i] == Meaning(r[i]) && Meaning(Arr(t)).items[i] == Meaning(t[i]);
  }

  /** A clash anywhere in the tree shows in some order. */
  lemma {:induction false} ClashShows(v: Value, vars: Variables, show: Value -> string) returns (w: Value)
    requires WellFormed(v) && Substitute(v, vars, show).Some? && !NoClash(v, vars, show)
    ensures Same(v, w) && !SameOutcome(v, w, vars, show)
    decreases v
  {
    match v
    case Arr(items) =>
      var i :| 0 <= i < |items| && !NoClash(items[i], vars, show);
      ItemsSubstituted(items, vars, show);
      var inner := ClashShows(items[i], vars, show);
      ItemShows(items, i, inner, vars, show);
      w := Arr(items[i := inner]);
    case Obj(fields) =>
      FieldsAssigned(fields, vars, show);
      if i :| 0 <= i < |fields| && !NoClash(fields[i].value, vars, show) {
        assert SubstitutedField(fields[i], vars, show).Some?;
        var inner := ClashShows(fields[i].value, vars, show);
        w := InnerShows(fields, i, inner, vars, show);
      } else {
        var i, j :| 0 <= i < |fields| && 0 <= j < |fields| && Clash(fields[i], fields[j], vars, show);
        w := FieldsClash(fields, i, j, vars, show);
      }
  }

  /** A manifest whose variables are bound becomes the same in whatever order its maps are
      walked, at every depth, if and only if no map anywhere in it has two fields whose keys
      become the same and whose values become different things. */
  lemma OrderIrrelevantIff(v: Value, vars: Variables, show: Value -> string)
    requires WellFormed(v) && Substitute(v, vars, show).Some?
    ensures OrderIrrelevant(v, vars, show) <==> NoClash(v, vars, show)
  {
    if NoClash(v, vars, show) {
      forall w | Same(v, w) ensures SameOutcome(v, w, vars, show) {
        NoClashSame(v, w, vars, show);
      }
    } else {
      var w := ClashShows(v, vars, show);
    }
  }

  /** {"x": {"((a))": true, "b": false}} with a bound to "b": the inner map has two outcomes. */
  lemma OrderMatters() returns (v: Value, vars: Variables, show: Value -> string)
    ensures WellFormed(v) && Substitute(v, vars, show).Some? && !OrderIrrelevant(v, vars, show)
  {
    var f, g := Field("((a))", Bool(true)), Field("b", Bool(false));
    vars, show := map["a" := Str("b")], ShowText;
    VariableReplaced(vars, show);
    LetterUnchanged("b", vars, show);
    assert Clash(f, g, vars, show);
    TwoClash(f, g, vars, show);
    LetterUnchanged("x", vars, show);
    v := Obj([Field("x", Obj([f, g]))]);
    NestedClash(Obj([f, g]), vars, show);
    OrderIrrelevantIff(v, vars, show);
  }

  lemma TwoClash(f: Field, g: Field, vars: Variables, show: Value -> string)
    requires Clash(f, g, vars, show)
    ensures Substitute(Obj([f, g]), vars, show).Some? && !NoClash(Obj([f, g]), vars, show)
  {
    var fields := [f, g];
    FieldsAssigned(fields, vars, show);
    assert fields[0] == f && fields[1] == g && Clash(fields[0], fields[1], vars, show);
  }

  lemma NestedClash(inner: Value, vars: Variables, show: Value -> string)
    requires Substitute(inner, vars, show).Some? && !NoClash(inner, vars, show)
    requires SubstituteString("x", vars, show) == Some(Str("x"))
    ensures var v := Obj([Field("x", inner)]);
      Substitute(v, vars, show).Some? && !NoClash(v, vars, show)
  {
    var fields := [Field("x", inner)];
    FieldsAssigned(fields, vars, show);
    assert fields[0].value == inner;
  }

  function ShowText(v: Value): string
  {
    if v.Str? then v.s else ""
  }

  lemma VariableReplaced(vars: Variables, show: Value -> string)
    requires vars == map["a" := Str("b")]
    ensures SubstituteString("((a))", vars, show) == Some(Str("b"))
  {
    var s := "((a))";
    assert s[..2] == "((" && s[3..] == "))" && s[2..3] == "a";
    assert IsMatch(s);
    assert "((" + Name(s) + "))" == s && |Name(s)| == 1 && Name(s)[0] == s[2] by {
      NameOfMatch(s);
    }
    assert Name(s) == "a";
  }

  lemma LetterUnchanged(s: string, vars: Variables, show: Value -> string)
    requires |s| == 1
    ensures SubstituteString(s, vars, show) == Some(Str(s))
  {
    var t := Tokens(s, 0);
    assert Tokens(s, 1) == [] && t == [Literal(s[0])];
    assert t[1..] == [] && Rendered(t, vars, show) == [s[0]] + Rendered([], vars, show) == s;
    assert Names(t) == Names([]) == {};
  }
}
