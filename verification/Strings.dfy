/** Go's `<` on strings: lexicographic, a proper prefix first. */
module Strings {
  import opened Ordering

  predicate StrLess(a: string, b: string)
  {
    b != [] && (a == [] || a[0] < b[0] || (a[0] == b[0] && StrLess(a[1..], b[1..])))
  }

  lemma {:induction false} StrLessTransitive(a: string, b: string, c: string)
    requires StrLess(a, b) && StrLess(b, c)
    ensures StrLess(a, c)
  {
    if a != [] && a[0] == b[0] == c[0] {
      StrLessTransitive(a[1..], b[1..], c[1..]);
    }
  }

  lemma {:induction false} StrLessTotal(a: string, b: string)
    ensures !(StrLess(a, b) && StrLess(b, a))
    ensures StrLess(a, b) || StrLess(b, a) <==> a != b
  {
    if a != [] && b != [] && a[0] == b[0] {
      StrLessTotal(a[1..], b[1..]);
      assert a == [a[0]] + a[1..] && b == [b[0]] + b[1..];
    }
  }

  /** Where two strings part, the smaller character comes first, or the string that ends. */
  lemma {:induction false} StrLessWhereTheyPart(common: string, a: string, b: string)
    requires a != b && (a == [] || b == [] || a[0] != b[0])
    ensures StrLess(common + a, common + b) <==> PartsFirst(a, b)
  {
    if common == [] {
      assert common + a == a && common + b == b;
    } else {
      StrLessWhereTheyPart(common[1..], a, b);
      StrLessBehind(common, a, b);
    }
  }

  predicate PartsFirst(a: string, b: string)
  {
    a == [] || (b != [] && a[0] < b[0])
  }

  lemma StrLessBehind(common: string, a: string, b: string)
    requires common != []
    ensures StrLess(common + a, common + b) <==> StrLess(common[1..] + a, common[1..] + b)
  {
    TailOfConcat(common, a);
    TailOfConcat(common, b);
    StrLessTail(common + a, common + b);
  }

  lemma StrLessTail(a: string, b: string)
    requires a != [] && b != [] && a[0] == b[0]
    ensures StrLess(a, b) <==> StrLess(a[1..], b[1..])
  {
  }

  lemma TailOfConcat(common: string, a: string)
    requires common != []
    ensures (common + a)[0] == common[0] && (common + a)[1..] == common[1..] + a
  {
  }

  lemma StrLessIsOrder()
    ensures StrictWeakOrder(StrLess)
  {
    forall x ensures !StrLess(x, x) { StrLessTotal(x, x); }
    forall x, y, z | StrLess(x, y) && StrLess(y, z) ensures StrLess(x, z) {
      StrLessTransitive(x, y, z);
    }
    forall x, y, z | !StrLess(x, y) && !StrLess(y, z) ensures !StrLess(x, z) {
      StrLessTotal(x, y);
      StrLessTotal(y, z);
      if StrLess(x, z) && x != y && y != z {
        StrLessTransitive(z, y, x);
        StrLessTotal(x, z);
      }
    }
  }
}

/** pkg/kf/algorithms/subjects.go: RBAC subjects by kind, then name, then namespace. */
module Subjects {
  import opened Ordering
  import opened Strings

  datatype Subject = Subject(kind: string, apiGroup: string, name: string, namespace: string)

  predicate Less(lhs: Subject, rhs: Subject)
  {
    if lhs.kind != rhs.kind then StrLess(lhs.kind, rhs.kind)
    else if lhs.name != rhs.name then StrLess(lhs.name, rhs.name)
    else StrLess(lhs.namespace, rhs.namespace)
  }

  /** The order identifies subjects that differ only in their API group, and no others. */
  lemma SubjectClasses(a: Subject, b: Subject)
    ensures Equivalent(Less, a, b) <==> a.kind == b.kind && a.name == b.name && a.namespace == b.namespace
  {
    StrLessTotal(a.kind, b.kind);
    StrLessTotal(a.name, b.name);
    StrLessTotal(a.namespace, b.namespace);
  }

  /** A sorted list goes by kind, within a kind by name, and within a name by namespace. */
  lemma SortedSubjects(s: seq<Subject>, i: nat, j: nat)
    requires Sorted(Less, s) && i < j < |s|
    ensures s[i].kind == s[j].kind || StrLess(s[i].kind, s[j].kind)
    ensures s[i].kind == s[j].kind ==> s[i].name == s[j].name || StrLess(s[i].name, s[j].name)
    ensures s[i].kind == s[j].kind && s[i].name == s[j].name ==>
              s[i].namespace == s[j].namespace || StrLess(s[i].namespace, s[j].namespace)
  {
    assert !Less(s[j], s[i]);
    StrLessTotal(s[i].kind, s[j].kind);
    StrLessTotal(s[i].name, s[j].name);
    StrLessTotal(s[i].namespace, s[j].namespace);
  }

  lemma LessTransitive(x: Subject, y: Subject, z: Subject)
    requires Less(x, y) && Less(y, z)
    ensures Less(x, z)
  {
    StrLessTotal(x.kind, y.kind);
    StrLessTotal(y.kind, z.kind);
    StrLessTotal(x.name, y.name);
    StrLessTotal(y.name, z.name);
    if x.kind != y.kind && y.kind != z.kind {
      StrLessTransitive(x.kind, y.kind, z.kind);
      StrLessTotal(x.kind, z.kind);
    } else if x.kind == y.kind == z.kind {
      if x.name != y.name && y.name != z.name {
        StrLessTransitive(x.name, y.name, z.name);
        StrLessTotal(x.name, z.name);
      } else if x.name == y.name == z.name {
        StrLessTransitive(x.namespace, y.namespace, z.namespace);
      }
    }
  }

  lemma LessTotal(x: Subject, y: Subject)
    ensures !(Less(x, y) && Less(y, x))
  {
    StrLessTotal(x.kind, y.kind);
    StrLessTotal(x.name, y.name);
    StrLessTotal(x.namespace, y.namespace);
  }

  /** So every generic result applies to lists of subjects. */
  lemma LessIsOrder()
    ensures StrictWeakOrder(Less)
  {
    forall x ensures !Less(x, x) { LessTotal(x, x); }
    forall x, y, z | Less(x, y) && Less(y, z) ensures Less(x, z) { LessTransitive(x, y, z); }
    forall x, y, z | !Less(x, y) && !Less(y, z) ensures !Less(x, z) {
      LessNegative(x, y, z);
    }
  }

  lemma LessNegative(x: Subject, y: Subject, z: Subject)
    requires !Less(x, y) && !Less(y, z)
    ensures !Less(x, z)
  {
    SubjectClasses(x, y);
    SubjectClasses(y, z);
    LessTotal(x, z);
    if Less(y, x) && Less(z, y) {
      LessTransitive(z, y, x);
    }
  }
}
