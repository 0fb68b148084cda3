/** pkg/kf/manifest/substitution.go: ((name)) variables in a manifest tree. */
module Substitution {
  import opened Common

  /** A decoded manifest. The fields of an object are listed in the order in which the
      (unordered) Go map happens to be walked. */
  datatype Value =
    | Null
    | Bool(b: bool)
    | Number(n: int)
    | Str(s: string)
    | Arr(items: seq<Value>)
    | Obj(fields: seq<Field>)

  datatype Field = Field(key: string, value: Value)

  type Variables = map<string, Value>

  /** The language of the pattern: "((", anything without an opening parenthesis, "))". */
  predicate IsMatch(t: string)
  {
    && |t| >= 4
    && t[..2] == "((" && t[|t| - 2..] == "))"
    && '(' !in t[2..|t| - 2]
  }

  /** The first end at or after `j` where the text can stop matching. */
  function CloseFrom(s: string, j: nat): (r: Option<nat>)
    ensures r.Some? ==> j + 2 <= r.value <= |s|
    decreases |s| - j
  {
    if j + 1 >= |s| then None
    else if s[j] == ')' && s[j + 1] == ')' then Some(j + 2)
    else if s[j] == '(' then None
    else CloseFrom(s, j + 1)
  }

  function MatchAt(s: string, i: nat): (r: Option<nat>)
    ensures r.Some? ==> i + 4 <= r.value <= |s|
  {
    if i + 1 < |s| && s[i] == '(' && s[i + 1] == '(' then CloseFrom(s, i + 2) else None
  }

  lemma SliceOfSlice<T>(s: seq<T>, i: nat, e: nat, a: nat, b: nat)
    requires i <= e <= |s| && a <= b <= e - i
    ensures s[i..e][a..b] == s[i + a..i + b]
  {
    var l, r := s[i..e][a..b], s[i + a..i + b];
    forall k | 0 <= k < |l| ensures l[k] == r[k] {
      assert l[k] == s[i..e][a + k];
    }
  }

  lemma {:induction false} CloseFromShortest(s: string, i: nat, j: nat, e: nat)
    requires i + 2 <= j && i + 4 <= e <= |s| && s[i] == '(' && s[i + 1] == '('
    requires j <= |s| && '(' !in s[i + 2..j]
    requires forall k :: i + 2 <= k < j && k + 1 < |s| ==> !(s[k] == ')' && s[k + 1] == ')')
    ensures CloseFrom(s, j) == Some(e) ==> IsMatch(s[i..e])
    ensures IsMatch(s[i..e]) ==> CloseFrom(s, j).Some? && CloseFrom(s, j).value <= e
    decreases |s| - j
  {
    var t := s[i..e];
    assert t[..2] == [s[i], s[i + 1]] && t[|t| - 2..] == [s[e - 2], s[e - 1]];
    SliceOfSlice(s, i, e, 2, |t| - 2);
    assert t[2..|t| - 2] == s[i + 2..e - 2];
    if IsMatch(t) {
      assert s[e - 2] == ')' && s[e - 1] == ')';
      assert j <= e - 2;
    }
    if j < e - 2 {
      assert s[i + 2..e - 2][j - (i + 2)] == s[j];
    }
    if j + 1 < |s| {
      if s[j] == ')' && s[j + 1] == ')' {
      } else if s[j] == '(' {
      } else {
        assert s[i + 2..j + 1] == s[i + 2..j] + [s[j]];
        CloseFromShortest(s, i, j + 1, e);
      }
    }
  }

  /** The scanner finds the shortest match at a position, if there is one. */
  lemma MatchAtShortest(s: string, i: nat, e: nat)
    requires i <= e <= |s|
    ensures MatchAt(s, i) == Some(e) ==> IsMatch(s[i..e])
    ensures IsMatch(s[i..e]) ==> MatchAt(s, i).Some? && MatchAt(s, i).value <= e
  {
    if i + 4 <= e {
      var t := s[i..e];
      assert t[..2] == [s[i], s[i + 1]];
      if s[i] == '(' && s[i + 1] == '(' {
        assert s[i + 2..i + 2] == [];
        CloseFromShortest(s, i, i + 2, e);
      }
    }
  }

  /** A scanned string: single characters and variables. */
  datatype Token = Literal(c: char) | Variable(text: string)

  /** Leftmost, non-overlapping matches from position `i` on. */
  function Tokens(s: string, i: nat): (r: seq<Token>)
    decreases |s| - i
  {
    if i >= |s| then []
    else
      match MatchAt(s, i)
      case Some(e) => [Variable(s[i..e])] + Tokens(s, e)
      case None => [Literal(s[i])] + Tokens(s, i + 1)
  }

  function Text(tokens: seq<Token>): (r: string)
  {
    if tokens == [] then ""
    else (match tokens[0] case Literal(c) => [c] case Variable(t) => t) + Text(tokens[1..])
  }

  /** Literals and matches concatenate back to the source string. */
  lemma {:induction false} TokensText(s: string, i: nat)
    requires i <= |s|
    ensures Text(Tokens(s, i)) == s[i..]
    decreases |s| - i
  {
    if i < |s| {
      match MatchAt(s, i)
      case Some(e) =>
        TokensText(s, e);
        TextFrom(s, i, e, Variable(s[i..e]));
      case None =>
        TokensText(s, i + 1);
        assert s[i..i + 1] == [s[i]];
        TextFrom(s, i, i + 1, Literal(s[i]));
    }
  }

  /** A first token that stands for s[i..e]. */
  lemma TextFrom(s: string, i: nat, e: nat, t: Token)
    requires i <= e <= |s| && Tokens(s, i) == [t] + Tokens(s, e) && Text(Tokens(s, e)) == s[e..]
    requires (match t case Literal(c) => [c] case Variable(v) => v) == s[i..e]
    ensures Text(Tokens(s, i)) == s[i..]
  {
    TextCons(t, Tokens(s, e));
    SplitFrom(s, i, e);
  }

  lemma TextCons(t: Token, rest: seq<Token>)
    ensures Text([t] + rest) == (match t case Literal(c) => [c] case Variable(v) => v) + Text(rest)
  {
    assert ([t] + rest)[1..] == rest;
  }

  lemma SplitFrom<T>(s: seq<T>, i: nat, e: nat)
    requires i <= e <= |s|
    ensures s[i..] == s[i..e] + s[e..]
  {
  }

  lemma {:induction false} TokensMatch(s: string, i: nat, t: Token)
    requires t in Tokens(s, i) && t.Variable?
    ensures IsMatch(t.text)
    decreases |s| - i
  {
    match MatchAt(s, i)
    case Some(e) =>
      if t == Variable(s[i..e]) {
        MatchAtShortest(s, i, e);
      } else {
        TokensMatch(s, e, t);
      }
    case None => TokensMatch(s, i + 1, t);
  }

  /** strings.TrimPrefix(.., "((") and strings.TrimSuffix(.., "))") */
  function Name(text: string): (r: string)
  {
    var t := if |text| >= 2 && text[..2] == "((" then text[2..] else text;
    if |t| >= 2 && t[|t| - 2..] == "))" then t[..|t| - 2] else t
  }

  lemma NameOfMatch(t: string)
    requires IsMatch(t)
    ensures "((" + Name(t) + "))" == t
  {
    var u := t[2..];
    assert u[|u| - 2..] == t[|t| - 2..];
    assert t == t[..2] + t[2..|t| - 2] + t[|t| - 2..];
  }

  /** What the replacement callback returns; nil prints as something, too. */
  function Shown(vars: Variables, show: Value -> string, text: string): string
  {
    show(if Name(text) in vars then vars[Name(text)] else Null)
  }

  function Rendered(tokens: seq<Token>, vars: Variables, show: Value -> string): (r: string)
  {
    if tokens == [] then ""
    else (match tokens[0] case Literal(c) => [c] case Variable(t) => Shown(vars, show, t))
         + Rendered(tokens[1..], vars, show)
  }

  /** The names a string refers to. */
  function References(s: string): (r: set<string>)
  {
    if IsMatch(s) then {Name(s)} else Names(Tokens(s, 0))
  }

  function Names(tokens: seq<Token>): (r: set<string>)
  {
    if tokens == [] then {}
    else (match tokens[0] case Literal(_) => {} case Variable(t) => {Name(t)}) + Names(tokens[1..])
  }

  function RenderedFrom(s: string, i: nat, vars: Variables, show: Value -> string): (r: string)
  {
    Rendered(Tokens(s, i), vars, show)
  }

  /** Some variable from position `i` on has no value. */
  predicate Unbound(s: string, i: nat, vars: Variables)
  {
    !(Names(Tokens(s, i)) <= vars.Keys)
  }

  lemma VariableStep(s: string, i: nat, e: nat, vars: Variables, show: Value -> string)
    requires i < |s| && MatchAt(s, i) == Some(e)
    ensures RenderedFrom(s, i, vars, show) == Shown(vars, show, s[i..e]) + RenderedFrom(s, e, vars, show)
    ensures Unbound(s, i, vars) <==> Name(s[i..e]) !in vars || Unbound(s, e, vars)
  {
    assert Tokens(s, i)[1..] == Tokens(s, e);
  }

  lemma LiteralStep(s: string, i: nat, vars: Variables, show: Value -> string)
    requires i < |s| && MatchAt(s, i).None?
    ensures RenderedFrom(s, i, vars, show) == [s[i]] + RenderedFrom(s, i + 1, vars, show)
    ensures Unbound(s, i, vars) <==> Unbound(s, i + 1, vars)
  {
    assert Tokens(s, i)[1..] == Tokens(s, i + 1);
  }

  /** The scan up to position `i`: `out` in front of what is still to be rendered is `all`, and
      a name was unbound so far or still is one exactly if `bad`. */
  ghost predicate Scanned(s: string, i: nat, vars: Variables, show: Value -> string, out: string, failed: bool,
                          all: string, bad: bool)
  {
    i <= |s| && out + RenderedFrom(s, i, vars, show) == all && (failed || Unbound(s, i, vars) <==> bad)
  }

  lemma ScanStarts(s: string, vars: Variables, show: Value -> string) returns (all: string, bad: bool)
    ensures all == RenderedFrom(s, 0, vars, show) && bad == Unbound(s, 0, vars)
    ensures Scanned(s, 0, vars, show, "", false, all, bad)
  {
    all, bad := RenderedFrom(s, 0, vars, show), Unbound(s, 0, vars);
    assert "" + all == all;
  }

  lemma ScanVariable(s: string, i: nat, e: nat, vars: Variables, show: Value -> string, out: string, failed: bool,
                     all: string, bad: bool)
    requires i < |s| && MatchAt(s, i) == Some(e) && Scanned(s, i, vars, show, out, failed, all, bad)
    ensures Scanned(s, e, vars, show, out + Shown(vars, show, s[i..e]), failed || Name(s[i..e]) !in vars, all, bad)
  {
    VariableStep(s, i, e, vars, show);
    Regroup(out, Shown(vars, show, s[i..e]), RenderedFrom(s, e, vars, show));
  }

  lemma ScanLiteral(s: string, i: nat, vars: Variables, show: Value -> string, out: string, failed: bool, all: string,
                    bad: bool)
    requires i < |s| && MatchAt(s, i).None? && Scanned(s, i, vars, show, out, failed, all, bad)
    ensures Scanned(s, i + 1, vars, show, out + [s[i]], failed, all, bad)
  {
    LiteralStep(s, i, vars, show);
    Regroup(out, [s[i]], RenderedFrom(s, i + 1, vars, show));
  }

  lemma ScanEnds(s: string, vars: Variables, show: Value -> string, out: string, failed: bool, all: string, bad: bool)
    requires Scanned(s, |s|, vars, show, out, failed, all, bad)
    ensures out == all && failed == bad
  {
    NothingLeft(s, vars, show);
    assert out + "" == out;
  }

  /** ReplaceAllStringFunc with its callback: one scan of the source; what the variables hold
      goes to the output and is not looked at again. */
  method ReplaceAll(s: string, vars: Variables, show: Value -> string) returns (out: string, failed: bool)
    ensures out == RenderedFrom(s, 0, vars, show)
    ensures failed <==> Unbound(s, 0, vars)
  {
    out, failed := "", false;
    var i := 0;
    ghost var all, bad := ScanStarts(s, vars, show);
    while i < |s|
      invariant 0 <= i <= |s| && Scanned(s, i, vars, show, out, failed, all, bad)
      decreases |s| - i
    {
      var m := MatchAt(s, i);
      if m.Some? {
        var e, key := m.value, s[i..m.value];
        ScanVariable(s, i, e, vars, show, out, failed, all, bad);
        out, failed, i := out + Shown(vars, show, key), failed || Name(key) !in vars, e;
      } else {
        ScanLiteral(s, i, vars, show, out, failed, all, bad);
        out, i := out + [s[i]], i + 1;
      }
    }
    ScanEnds(s, vars, show, out, failed, all, bad);
  }

  lemma NothingLeft(s: string, vars: Variables, show: Value -> string)
    ensures RenderedFrom(s, |s|, vars, show) == "" && !Unbound(s, |s|, vars)
  {
  }

  function SubstituteString(s: string, vars: Variables, show: Value -> string): (r: Option<Value>)
  {
    if IsMatch(s) then (if Name(s) in vars then Some(vars[Name(s)]) else None)
    else if Names(Tokens(s, 0)) <= vars.Keys then Some(Str(RenderedFrom(s, 0, vars, show)))
    else None
  }

  /** Assigns a key of the output map. */
  function Put(fields: seq<Field>, f: Field): (r: seq<Field>)
  {
    if fields == [] then [f]
    else if fields[0].key == f.key then [f] + fields[1..]
    else [fields[0]] + Put(fields[1..], f)
  }

  function Substitute(v: Value, vars: Variables, show: Value -> string): (r: Option<Value>)
    decreases v, 0
  {
    match v
    case Str(s) => SubstituteString(s, vars, show)
    case Arr(items) =>
      (match SubstituteItems(items, vars, show)
       case Some(vs) => Some(Arr(vs))
       case None => None)
    case Obj(fields) =>
      (match SubstituteFields(fields, vars, show)
       case Some(fs) => Some(Obj(fs))
       case None => None)
    case _ => Some(v)
  }

  function SubstituteItems(items: seq<Value>, vars: Variables, show: Value -> string): (r: Option<seq<Value>>)
    decreases items
  {
    if items == [] then Some([])
    else
      var n := |items| - 1;
      var init := SubstituteItems(items[..n], vars, show);
      var last := Substitute(items[n], vars, show);
      if init.Some? && last.Some? then Some(init.value + [last.value]) else None
  }

  function SubstituteFields(fields: seq<Field>, vars: Variables, show: Value -> string): (r: Option<seq<Field>>)
    decreases fields
  {
    if fields == [] then Some([])
    else
      var n := |fields| - 1;
      var init := SubstituteFields(fields[..n], vars, show);
      var k := SubstituteString(fields[n].key, vars, show);
      var v := Substitute(fields[n].value, vars, show);
      if init.Some? && k.Some? && v.Some? then Some(Put(init.value, Field(show(k.value), v.value))) else None
  }

  method SubstituteText(s: string, vars: Variables, show: Value -> string) returns (r: Option<Value>)
    ensures r == SubstituteString(s, vars, show)
  {
    if IsMatch(s) {
      return if Name(s) in vars then Some(vars[Name(s)]) else None;
    }
    var out, failed := ReplaceAll(s, vars, show);
    r := if failed then None else Some(Str(out));
  }

  /** The recursion over the tree: the first error ends it, an array is overwritten item by
      item, and a new map is filled field by field. */
  method SubstituteTree(v: Value, vars: Variables, show: Value -> string) returns (r: Option<Value>)
    ensures r == Substitute(v, vars, show)
    decreases v, 0
  {
    match v
    case Str(s) =>
      r := SubstituteText(s, vars, show);
    case Arr(items) =>
      var typed := SubstituteArray(items, vars, show);
      r := if typed.Some? then Some(Arr(typed.value)) else None;
    case Obj(fields) =>
      var out := SubstituteMap(fields, vars, show);
      r := if out.Some? then Some(Obj(out.value)) else None;
    case _ =>
      r := Some(v);
  }

  method SubstituteArray(items: seq<Value>, vars: Variables, show: Value -> string) returns (r: Option<seq<Value>>)
    ensures r == SubstituteItems(items, vars, show)
    decreases items
  {
    var typed := items;
    for i := 0 to |items|
      invariant |typed| == |items| && forall k :: i <= k < |items| ==> typed[k] == items[k]
      invariant SubstituteItems(items[..i], vars, show) == Some(typed[..i])
    {
      var sub := SubstituteTree(typed[i], vars, show);
      ItemStep(items, i, vars, show);
      if sub.None? {
        NoItems(items, i + 1, vars, show);
        return None;
      }
      WriteNext(typed, i, sub.value);
      typed := typed[i := sub.value];
    }
    assert items[..|items|] == items && typed[..|items|] == typed;
    r := Some(typed);
  }

  method SubstituteMap(fields: seq<Field>, vars: Variables, show: Value -> string) returns (r: Option<seq<Field>>)
    ensures r == SubstituteFields(fields, vars, show)
    decreases fields
  {
    var out: seq<Field> := [];
    for i := 0 to |fields|
      invariant SubstituteFields(fields[..i], vars, show) == Some(out)
    {
      FieldStep(fields, i, vars, show);
      var nk := SubstituteText(fields[i].key, vars, show);
      var nv := SubstituteTree(fields[i].value, vars, show);
      if nk.None? || nv.None? {
        NoFields(fields, i + 1, vars, show);
        return None;
      }
      out := Put(out, Field(show(nk.value), nv.value));
    }
    assert fields[..|fields|] == fields;
    r := Some(out);
  }

  lemma ItemStep(items: seq<Value>, i: nat, vars: Variables, show: Value -> string)
    requires i < |items|
    ensures SubstituteItems(items[..i + 1], vars, show) ==
            var init, last := SubstituteItems(items[..i], vars, show), Substitute(items[i], vars, show);
            if init.Some? && last.Some? then Some(init.value + [last.value]) else None
  {
    assert items[..i + 1][..i] == items[..i];
  }

  lemma {:induction false} NoItems(items: seq<Value>, i: nat, vars: Variables, show: Value -> string)
    requires i <= |items| && SubstituteItems(items[..i], vars, show).None?
    ensures SubstituteItems(items, vars, show).None?
    decreases |items| - i
  {
    if i < |items| {
      ItemStep(items, i, vars, show);
      NoItems(items, i + 1, vars, show);
    } else {
      assert items[..i] == items;
    }
  }

  lemma FieldStep(fields: seq<Field>, i: nat, vars: Variables, show: Value -> string)
    requires i < |fields|
    ensures SubstituteFields(fields[..i + 1], vars, show) ==
            var init := SubstituteFields(fields[..i], vars, show);
            var k, v := SubstituteString(fields[i].key, vars, show), Substitute(fields[i].value, vars, show);
            if init.Some? && k.Some? && v.Some? then Some(Put(init.value, Field(show(k.value), v.value))) else None
  {
    assert fields[..i + 1][..i] == fields[..i];
  }

  lemma {:induction false} NoFields(fields: seq<Field>, i: nat, vars: Variables, show: Value -> string)
    requires i <= |fields| && SubstituteFields(fields[..i], vars, show).None?
    ensures SubstituteFields(fields, vars, show).None?
    decreases |fields| - i
  {
    if i < |fields| {
      FieldStep(fields, i, vars, show);
      NoFields(fields, i + 1, vars, show);
    } else {
      assert fields[..i] == fields;
    }
  }

  /** All names in the keys, items and strings of a tree. */
  function AllReferences(v: Value): (r: set<string>)
    decreases v, 0
  {
    match v
    case Str(s) => References(s)
    case Arr(items) => ItemReferences(items)
    case Obj(fields) => FieldReferences(fields)
    case _ => {}
  }

  function ItemReferences(items: seq<Value>): (r: set<string>)
    decreases items
  {
    if items == [] then {} else ItemReferences(items[..|items| - 1]) + AllReferences(items[|items| - 1])
  }

  function FieldReferences(fields: seq<Field>): (r: set<string>)
    decreases fields
  {
    if fields == [] then {}
    else
      var f := fields[|fields| - 1];
      FieldReferences(fields[..|fields| - 1]) + References(f.key) + AllReferences(f.value)
  }

  /** Substitution succeeds exactly when every name anywhere in the tree is bound. */
  lemma {:induction false} SucceedsIff(v: Value, vars: Variables, show: Value -> string)
    ensures Substitute(v, vars, show).Some? <==> AllReferences(v) <= vars.Keys
    decreases v, 0
  {
    match v
    case Str(s) => StringSucceedsIff(s, vars, show);
    case Arr(items) => ItemsSucceedIff(items, vars, show);
    case Obj(fields) => FieldsSucceedIff(fields, vars, show);
    case _ =>
  }

  lemma StringSucceedsIff(s: string, vars: Variables, show: Value -> string)
    ensures SubstituteString(s, vars, show).Some? <==> References(s) <= vars.Keys
  {
  }

  lemma {:induction false} ItemsSucceedIff(items: seq<Value>, vars: Variables, show: Value -> string)
    ensures SubstituteItems(items, vars, show).Some? <==> ItemReferences(items) <= vars.Keys
    decreases items
  {
    if items != [] {
      var n := |items| - 1;
      ItemsSucceedIff(items[..n], vars, show);
      SucceedsIff(items[n], vars, show);
    }
  }

  lemma {:induction false} FieldsSucceedIff(fields: seq<Field>, vars: Variables, show: Value -> string)
    ensures SubstituteFields(fields, vars, show).Some? <==> FieldReferences(fields) <= vars.Keys
    decreases fields
  {
    if fields != [] {
      var n := |fields| - 1;
      FieldsSucceedIff(fields[..n], vars, show);
      StringSucceedsIff(fields[n].key, vars, show);
      SucceedsIff(fields[n].value, vars, show);
    }
  }

  // The identity substitution.

  /** The keys of a map are distinct. */
  ghost predicate WellFormed(v: Value)
  {
    match v
    case Arr(items) => forall i :: 0 <= i < |items| ==> WellFormed(items[i])
    case Obj(fields) =>
      && (forall i :: 0 <= i < |fields| ==> WellFormed(fields[i].value))
      && (forall i, j :: 0 <= i < j < |fields| ==> fields[i].key != fields[j].key)
    case _ => true
  }

  /** Every name in `names` is bound to the text that refers to it. */
  ghost predicate BoundToThemselves(names: set<string>, vars: Variables)
  {
    forall n :: n in names ==> n in vars && vars[n] == Str("((" + n + "))")
  }

  ghost predicate ShowsStrings(show: Value -> string)
  {
    forall s :: show(Str(s)) == s
  }

  lemma {:induction false} RenderedSame(tokens: seq<Token>, vars: Variables, show: Value -> string)
    requires ShowsStrings(show) && BoundToThemselves(Names(tokens), vars)
    requires forall t :: t in tokens && t.Variable? ==> IsMatch(t.text)
    ensures Rendered(tokens, vars, show) == Text(tokens)
    ensures Names(tokens) <= vars.Keys
  {
    if tokens != [] {
      RenderedSame(tokens[1..], vars, show);
      if tokens[0].Variable? {
        NameOfMatch(tokens[0].text);
      }
    }
  }

  lemma StringUnchanged(s: string, vars: Variables, show: Value -> string)
    requires ShowsStrings(show) && BoundToThemselves(References(s), vars)
    ensures SubstituteString(s, vars, show) == Some(Str(s))
  {
    if IsMatch(s) {
      NameOfMatch(s);
    } else {
      forall t | t in Tokens(s, 0) && t.Variable? ensures IsMatch(t.text) {
        TokensMatch(s, 0, t);
      }
      RenderedSame(Tokens(s, 0), vars, show);
      TokensText(s, 0);
      assert s[0..] == s;
    }
  }

  lemma {:induction false} PutNew(fields: seq<Field>, f: Field)
    requires forall i :: 0 <= i < |fields| ==> fields[i].key != f.key
    ensures Put(fields, f) == fields + [f]
  {
    if fields != [] {
      PutNew(fields[1..], f);
      assert fields == [fields[0]] + fields[1..];
    }
  }

  /** Binding every variable to its own text returns the tree unchanged; in particular the
      inserted text is not substituted again. */
  lemma {:induction false} IdentitySubstitution(v: Value, vars: Variables, show: Value -> string)
    requires WellFormed(v) && ShowsStrings(show) && BoundToThemselves(AllReferences(v), vars)
    ensures Substitute(v, vars, show) == Some(v)
    decreases v, 0
  {
    match v
    case Str(s) => StringUnchanged(s, vars, show);
    case Arr(items) => ItemsUnchanged(items, vars, show);
    case Obj(fields) => FieldsUnchanged(fields, vars, show);
    case _ =>
  }

  lemma {:induction false} ItemsUnchanged(items: seq<Value>, vars: Variables, show: Value -> string)
    requires forall i :: 0 <= i < |items| ==> WellFormed(items[i])
    requires ShowsStrings(show) && BoundToThemselves(ItemReferences(items), vars)
    ensures SubstituteItems(items, vars, show) == Some(items)
    decreases items
  {
    if items != [] {
      var n := |items| - 1;
      ItemsUnchanged(items[..n], vars, show);
      IdentitySubstitution(items[n], vars, show);
      assert items == items[..n] + [items[n]];
    }
  }

  lemma {:induction false} FieldsUnchanged(fields: seq<Field>, vars: Variables, show: Value -> string)
    requires forall i :: 0 <= i < |fields| ==> WellFormed(fields[i].value)
    requires forall i, j :: 0 <= i < j < |fields| ==> fields[i].key != fields[j].key
    requires ShowsStrings(show) && BoundToThemselves(FieldReferences(fields), vars)
    ensures SubstituteFields(fields, vars, show) == Some(fields)
    decreases fields
  {
    if fields != [] {
      var n := |fields| - 1;
      LastFieldBound(fields, vars);
      FieldsUnchanged(fields[..n], vars, show);
      StringUnchanged(fields[n].key, vars, show);
      IdentitySubstitution(fields[n].value, vars, show);
      PutNew(fields[..n], fields[n]);
      FieldStep(fields, n, vars, show);
      assert fields[..n + 1] == fields == fields[..n] + [fields[n]];
    }
  }

  lemma LastFieldBound(fields: seq<Field>, vars: Variables)
    requires fields != [] && BoundToThemselves(FieldReferences(fields), vars)
    ensures var n := |fields| - 1;
      && BoundToThemselves(FieldReferences(fields[..n]), vars)
      && BoundToThemselves(References(fields[n].key), vars)
      && BoundToThemselves(AllReferences(fields[n].value), vars)
  {
  }

  // The two matching rules.

  /** The whole-string rule is tried first. It agrees with the scanner exactly when no "))"
      comes before the end of the string. */
  lemma WholeStringAgreesIff(s: string)
    requires IsMatch(s)
    ensures Tokens(s, 0) == [Variable(s)] <==>
            forall j :: 2 <= j < |s| - 2 ==> !(s[j] == ')' && s[j + 1] == ')')
  {
    var e := WholeMatches(s);
    FirstToken(s, e);
    if e < |s| {
      ClosesBefore(s, e);
    } else {
      forall j | 2 <= j < |s| - 2 ensures !(s[j] == ')' && s[j + 1] == ')') {
        if s[j] == ')' && s[j + 1] == ')' {
          EarlierMatch(s, j);
        }
      }
    }
  }

  /** "((a))b))": the whole string names the variable "a))b", the scanner finds "a". */
  lemma WholeStringDiffers() returns (s: string)
    ensures IsMatch(s) && Tokens(s, 0) != [Variable(s)]
  {
    s := "((a))b))";
    assert s[..2] == "((" && s[|s| - 2..] == "))" && s[2..|s| - 2] == "a))b";
    WholeStringAgreesIff(s);
    assert s[3] == ')' && s[4] == ')';
  }

  lemma WholeMatches(s: string) returns (e: nat)
    requires IsMatch(s)
    ensures MatchAt(s, 0) == Some(e)
  {
    assert s[0..|s|] == s;
    MatchAtShortest(s, 0, |s|);
    e := MatchAt(s, 0).value;
  }

  lemma ClosesBefore(s: string, e: nat)
    requires MatchAt(s, 0) == Some(e)
    ensures s[e - 2] == ')' && s[e - 1] == ')'
  {
    MatchAtShortest(s, 0, e);
    var t := s[0..e];
    ClosingParentheses(t);
    assert t[e - 2] == s[e - 2] && t[e - 1] == s[e - 1];
  }

  lemma FirstToken(s: string, e: nat)
    requires 0 < |s| && MatchAt(s, 0) == Some(e)
    ensures Tokens(s, 0) == [Variable(s)] <==> e == |s|
  {
    var t := s[0..e];
    TokensAtMatch(s, 0, e);
    if e == |s| {
      assert t == s;
      TokensAtEnd(s);
    } else {
      FirstOf(Variable(t), Tokens(s, e));
      assert |t| != |s|;
    }
  }

  lemma TokensAtMatch(s: string, i: nat, e: nat)
    requires i < |s| && MatchAt(s, i) == Some(e)
    ensures Tokens(s, i) == [Variable(s[i..e])] + Tokens(s, e)
  {
  }

  lemma TokensAtEnd(s: string)
    ensures Tokens(s, |s|) == []
  {
  }

  lemma FirstOf<T>(x: T, rest: seq<T>)
    ensures ([x] + rest)[0] == x
  {
  }

  lemma ClosingParentheses(t: string)
    requires IsMatch(t)
    ensures t[|t| - 2] == ')' && t[|t| - 1] == ')'
  {
    var end := t[|t| - 2..];
    assert t[|t| - 2] == end[0] && t[|t| - 1] == end[1];
  }

  lemma EarlierMatch(s: string, j: nat)
    requires IsMatch(s) && 2 <= j < |s| - 2 && s[j] == ')' && s[j + 1] == ')'
    ensures MatchAt(s, 0).Some? && MatchAt(s, 0).value <= j + 2
  {
    PrefixMatches(s, j);
    MatchAtShortest(s, 0, j + 2);
  }

  lemma PrefixMatches(s: string, j: nat)
    requires IsMatch(s) && 2 <= j < |s| - 2 && s[j] == ')' && s[j + 1] == ')'
    ensures IsMatch(s[0..j + 2])
  {
    var t := s[0..j + 2];
    SliceOfSlice(s, 0, j + 2, 0, 2);
    SliceOfSlice(s, 0, j + 2, j, j + 2);
    SliceOfSlice(s, 0, j + 2, 2, j);
    SliceOfSlice(s, 2, |s| - 2, 0, j - 2);
    assert t[|t| - 2..] == [s[j], s[j + 1]];
  }
}
