/** substitution.go: what a reference becomes, said of the strings a manifest holds. */
module SubstitutionValues {
  import opened Common
  import opened Substitution

  function Reference(n: string): (r: string)
  {
    "((" + n + "))"
  }

  lemma ReferenceMatches(n: string)
    requires '(' !in n
    ensures IsMatch(Reference(n)) && Name(Reference(n)) == n
  {
    var s := Reference(n);
    assert s[..2] == "((" && s[|s| - 2..] == "))" && s[2..|s| - 2] == n;
    NameOfMatch(s);
    SameInside(Name(s), n);
  }

  lemma SameInside(a: string, b: string)
    requires "((" + a + "))" == "((" + b + "))"
    ensures a == b
  {
    var s, t := "((" + a + "))", "((" + b + "))";
    assert |a| == |b| && s[2..|s| - 2] == a && t[2..|t| - 2] == b;
  }

  /** A string that is one reference becomes what the variable holds, with its type: a number
      stays a number, a map a map. */
  lemma ReferenceKeepsValue(n: string, vars: Variables, show: Value -> string)
    requires '(' !in n && n in vars
    ensures Substitute(Str(Reference(n)), vars, show) == Some(vars[n])
  {
    ReferenceMatches(n);
  }

  predicate NoParentheses(s: string)
  {
    '(' !in s && ')' !in s
  }

  /** Text without an opening parenthesis is passed on as it is. */
  lemma {:induction false} TextPassed(s: string, i: nat, j: nat, vars: Variables, show: Value -> string)
    requires i <= j <= |s| && '(' !in s[i..j]
    ensures RenderedFrom(s, i, vars, show) == s[i..j] + RenderedFrom(s, j, vars, show)
    ensures Unbound(s, i, vars) <==> Unbound(s, j, vars)
    decreases j - i
  {
    var rest := RenderedFrom(s, j, vars, show);
    if i == j {
      assert s[i..j] + rest == rest;
    } else {
      assert s[i] == s[i..j][0] && s[i..j] == [s[i]] + s[i + 1..j];
      LiteralStep(s, i, vars, show);
      TextPassed(s, i + 1, j, vars, show);
      Regroup([s[i]], s[i + 1..j], rest);
    }
  }

  lemma {:induction false} ClosesAt(s: string, j: nat, k: nat)
    requires j <= k && k + 2 <= |s| && s[k] == ')' && s[k + 1] == ')' && NoParentheses(s[j..k])
    ensures CloseFrom(s, j) == Some(k + 2)
    decreases k - j
  {
    if j < k {
      assert s[j] == s[j..k][0] && s[j..k] == [s[j]] + s[j + 1..k];
      ClosesAt(s, j + 1, k);
    }
  }

  /** A reference inside other text is replaced by what the variable's value prints as, and the
      text around it stays, whatever was inserted. */
  lemma EmbeddedReference(a: string, n: string, b: string, vars: Variables, show: Value -> string)
    requires NoParentheses(a) && NoParentheses(n) && NoParentheses(b) && a + b != "" && n in vars
    ensures Substitute(Str(a + Reference(n) + b), vars, show) == Some(Str(a + show(vars[n]) + b))
  {
    var s, i, e := a + Reference(n) + b, |a|, |a| + |n| + 4;
    ReferenceMatches(n);
    ReferenceIn(a, n, b);
    NotWhole(a, n, b);
    TextPassed(s, 0, i, vars, show);
    VariableStep(s, i, e, vars, show);
    TextPassed(s, e, |s|, vars, show);
    NothingLeft(s, vars, show);
    assert s[0..i] == a && s[e..|s|] == b && b + "" == b;
    Regroup(a, show(vars[n]), b);
  }

  lemma ReferenceIn(a: string, n: string, b: string)
    requires NoParentheses(n)
    ensures var s := a + Reference(n) + b;
      MatchAt(s, |a|) == Some(|a| + |n| + 4) && s[|a|..|a| + |n| + 4] == Reference(n)
  {
    var s, i := a + Reference(n) + b, |a|;
    var k := i + 2 + |n|;
    assert s[i] == '(' && s[i + 1] == '(' && s[i + 2..k] == n && s[k] == ')' && s[k + 1] == ')';
    ClosesAt(s, i + 2, k);
  }

  lemma NotWhole(a: string, n: string, b: string)
    requires NoParentheses(a) && NoParentheses(b) && a + b != ""
    ensures !IsMatch(a + Reference(n) + b)
  {
    var s := a + Reference(n) + b;
    if a != "" {
      assert s[..2][0] == a[0];
    } else {
      assert s[|s| - 2..][1] == b[|b| - 1];
    }
  }
}
