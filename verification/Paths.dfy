/** Slash-separated paths as the Go standard library and pkg/sourceimage/utils.go treat them. */
module Paths {
  import opened Common

  /** strings.Split(s, "/") */
  function Split(s: string): (r: seq<string>)
    ensures |r| >= 1
  {
    if s == [] then [""]
    else
      var r := Split(s[1..]);
      if s[0] == '/' then [""] + r else [[s[0]] + r[0]] + r[1..]
  }

  /** strings.Join(parts, "/") */
  function Slashed(parts: seq<string>): (r: string)
  {
    if parts == [] then "" else if |parts| == 1 then parts[0] else parts[0] + "/" + Slashed(parts[1..])
  }

  /** The stack that Clean builds: empty and "." parts vanish, ".." takes a part back. */
  function Normal(rooted: bool, parts: seq<string>): (r: seq<string>)
  {
    if parts == [] then []
    else
      var n := |parts| - 1;
      var stack, part := Normal(rooted, parts[..n]), parts[n];
      if part == "" || part == "." then stack
      else if part != ".." then stack + [part]
      else if stack != [] && stack[|stack| - 1] != ".." then stack[..|stack| - 1]
      else if rooted then stack
      else stack + [part]
  }

  /** filepath.Clean and path.Clean */
  function Clean(s: string): (r: string)
  {
    if s == "" then "."
    else
      var rooted := s[0] == '/';
      var parts := Normal(rooted, Split(s));
      if rooted then "/" + Slashed(parts) else if parts == [] then "." else Slashed(parts)
  }

  function NonEmpty(parts: seq<string>): (r: seq<string>)
  {
    if parts == [] then [] else (if parts[0] == "" then [] else [parts[0]]) + NonEmpty(parts[1..])
  }

  /** filepath.Join and path.Join */
  function Join(parts: seq<string>): (r: string)
  {
    var ps := NonEmpty(parts);
    if ps == [] then "" else Clean(Slashed(ps))
  }

  function TrimPathPrefix(path: string, prefix: string): (r: string)
  {
    var pathParts, prefixParts := Split(path), Split(prefix);
    if prefixParts <= pathParts then Join(pathParts[|prefixParts|..]) else path
  }

  predicate IsSubPath(path: string, prefix: string)
  {
    TrimPathPrefix(path, prefix) != path
  }

  // Clean absolute paths, given by their parts.

  predicate Plain(part: string)
  {
    part != "" && part != "." && part != ".." && '/' !in part
  }

  predicate AllPlain(parts: seq<string>)
  {
    forall i :: 0 <= i < |parts| ==> Plain(parts[i])
  }

  function Absolute(parts: seq<string>): (r: string)
  {
    "/" + Slashed(parts)
  }

  lemma {:induction false} SplitPart(part: string, rest: string)
    requires '/' !in part
    ensures Split(part) == [part]
    ensures Split(part + "/" + rest) == [part] + Split(rest)
  {
    var s := part + "/" + rest;
    if part == [] {
      assert s[1..] == rest;
    } else {
      SplitPart(part[1..], rest);
      assert s[1..] == part[1..] + "/" + rest;
      assert part == [part[0]] + part[1..];
    }
  }

  lemma {:induction false} SplitSlashed(parts: seq<string>)
    requires parts != [] && forall i :: 0 <= i < |parts| ==> '/' !in parts[i]
    ensures Split(Slashed(parts)) == parts
  {
    if |parts| == 1 {
      SplitPart(parts[0], "");
    } else {
      SplitSlashed(parts[1..]);
      SplitPart(parts[0], Slashed(parts[1..]));
      assert parts == [parts[0]] + parts[1..];
    }
  }

  lemma SplitAbsolute(parts: seq<string>)
    requires AllPlain(parts)
    ensures Split(Absolute(parts)) == if parts == [] then ["", ""] else [""] + parts
  {
    SplitPart("", Slashed(parts));
    assert "" + "/" + Slashed(parts) == Absolute(parts);
    if parts != [] {
      SplitSlashed(parts);
    } else {
      assert Split("") == [""];
    }
  }

  lemma {:induction false} NormalPlain(rooted: bool, blank: seq<string>, parts: seq<string>)
    requires AllPlain(parts) && forall i :: 0 <= i < |blank| ==> blank[i] == ""
    ensures Normal(rooted, blank + parts) == parts
    decreases |blank| + |parts|
  {
    var all := blank + parts;
    if parts != [] {
      var n := |parts| - 1;
      NormalPlain(rooted, blank, parts[..n]);
      assert all[..|all| - 1] == blank + parts[..n];
      assert parts == parts[..n] + [parts[n]];
    } else if blank != [] {
      var n := |blank| - 1;
      NormalPlain(rooted, blank[..n], []);
      assert all[..|all| - 1] == blank[..n] + [];
    }
  }

  lemma SplitSlash(rest: string)
    ensures Split("/" + rest) == [""] + Split(rest)
  {
    assert ("/" + rest)[1..] == rest;
  }

  /** Cleaning a rooted path drops the empty parts in front. */
  lemma CleanRooted(s: string, blank: seq<string>, parts: seq<string>)
    requires s != "" && s[0] == '/' && Split(s) == blank + parts
    requires AllPlain(parts) && forall i :: 0 <= i < |blank| ==> blank[i] == ""
    ensures Clean(s) == Absolute(parts)
  {
    NormalPlain(true, blank, parts);
  }

  lemma CleanAbsolute(parts: seq<string>)
    requires AllPlain(parts)
    ensures Clean(Absolute(parts)) == Absolute(parts)
  {
    SplitAbsolute(parts);
    if parts == [] {
      assert ["", ""] + [] == ["", ""];
      CleanRooted(Absolute(parts), ["", ""], []);
    } else {
      CleanRooted(Absolute(parts), [""], parts);
    }
  }

  lemma CleanRelative(parts: seq<string>)
    requires parts != [] && AllPlain(parts)
    ensures Slashed(parts) != "" && Slashed(parts)[0] != '/'
    ensures Clean(Slashed(parts)) == Slashed(parts)
  {
    assert Plain(parts[0]) && Slashed(parts)[0] == parts[0][0];
    SplitSlashed(parts);
    NormalPlain(false, [], parts);
    assert [] + parts == parts;
  }

  lemma {:induction false} NonEmptyPlain(parts: seq<string>)
    requires AllPlain(parts)
    ensures NonEmpty(parts) == parts
  {
    if parts != [] {
      assert Plain(parts[0]);
      NonEmptyPlain(parts[1..]);
      assert parts == [parts[0]] + parts[1..];
    }
  }

  lemma NonEmptyTwo(a: string, b: string)
    requires a != ""
    ensures NonEmpty([a, b]) == if b == "" then [a] else [a, b]
  {
    assert [a, b][1..] == [b] && [b][1..] == [];
    assert NonEmpty([]) == [];
    assert NonEmpty([b]) == if b == "" then [] else [b];
  }

  lemma JoinPlain(parts: seq<string>)
    requires AllPlain(parts)
    ensures Join(parts) == Slashed(parts)
  {
    NonEmptyPlain(parts);
    if parts != [] {
      CleanRelative(parts);
    }
  }

  lemma {:induction false} SlashedConcat(a: seq<string>, b: seq<string>)
    requires a != [] && b != []
    ensures Slashed(a + b) == Slashed(a) + "/" + Slashed(b)
  {
    if |a| == 1 {
      assert (a + b)[1..] == b;
    } else {
      SlashedConcat(a[1..], b);
      assert (a + b)[1..] == a[1..] + b;
    }
  }

  /** Trimming a clean directory from a clean path below it leaves the relative path, and
      nothing for the directory itself. */
  lemma TrimBelow(dir: seq<string>, below: seq<string>)
    requires dir != [] && AllPlain(dir) && AllPlain(below)
    ensures TrimPathPrefix(Absolute(dir + below), Absolute(dir)) == Slashed(below)
    ensures IsSubPath(Absolute(dir + below), Absolute(dir))
  {
    SplitBelow(dir, below);
    TrimSplit(Absolute(dir + below), Absolute(dir), below);
    RelativeIsNotAbsolute(below, dir + below);
  }

  lemma RelativeIsNotAbsolute(below: seq<string>, parts: seq<string>)
    requires AllPlain(below)
    ensures Slashed(below) != Absolute(parts)
  {
    assert Absolute(parts)[0] == '/';
    if below != [] {
      CleanRelative(below);
    }
  }

  lemma SplitBelow(dir: seq<string>, below: seq<string>)
    requires dir != [] && AllPlain(dir) && AllPlain(below)
    ensures Split(Absolute(dir + below)) == Split(Absolute(dir)) + below
  {
    SplitAbsolute(dir);
    SplitAbsolute(dir + below);
    Regroup([""], dir, below);
  }

  lemma TrimSplit(path: string, prefix: string, below: seq<string>)
    requires Split(path) == Split(prefix) + below && AllPlain(below)
    ensures TrimPathPrefix(path, prefix) == Slashed(below)
  {
    JoinPlain(below);
    var n := |Split(prefix)|;
    assert Split(path)[n..] == below;
  }

  /** The root directory is the exception: its only proper prefix test fails, and the whole
      path comes back. */
  lemma TrimRoot(below: seq<string>)
    requires below != [] && AllPlain(below)
    ensures TrimPathPrefix(Absolute(below), Absolute([])) == Absolute(below)
  {
    SplitAbsolute([]);
    SplitAbsolute(below);
    var prefix, whole := ["", ""], [""] + below;
    assert Plain(below[0]);
    assert whole[1] != prefix[1];
  }

  /** Joining a clean absolute directory and a relative path. */
  lemma JoinBelow(dir: seq<string>, below: seq<string>)
    requires AllPlain(dir) && AllPlain(below)
    ensures Join([Absolute(dir), Slashed(below)]) == Absolute(dir + below)
  {
    var d, b := Absolute(dir), Slashed(below);
    if below == [] {
      assert dir + below == dir;
      NonEmptyTwo(d, b);
      CleanAbsolute(dir);
    } else {
      CleanRelative(below);
      NonEmptyTwo(d, b);
      assert Slashed([d, b]) == d + "/" + b;
      JoinedClean(dir, below);
    }
  }

  lemma SlashInFront(d: string, b: string)
    ensures ("/" + d) + "/" + b == "/" + (d + "/" + b)
    ensures d == "" ==> d + "/" + b == "/" + b
  {
  }

  lemma AbsoluteConcat(dir: seq<string>, below: seq<string>)
    requires dir != [] && below != []
    ensures Absolute(dir) + "/" + Slashed(below) == Absolute(dir + below)
  {
    SlashedConcat(dir, below);
    SlashInFront(Slashed(dir), Slashed(below));
  }

  lemma JoinedClean(dir: seq<string>, below: seq<string>)
    requires AllPlain(dir) && below != [] && AllPlain(below)
    ensures Clean(Absolute(dir) + "/" + Slashed(below)) == Absolute(dir + below)
  {
    if dir == [] {
      JoinedRoot(below);
      SlashInFront("", Slashed(below));
      assert dir + below == below;
    } else {
      AbsoluteConcat(dir, below);
      CleanAbsolute(dir + below);
    }
  }

  lemma JoinedRoot(below: seq<string>)
    requires below != [] && AllPlain(below)
    ensures Clean("/" + ("/" + Slashed(below))) == Absolute(below)
  {
    var b := Slashed(below);
    SplitSlashed(below);
    SplitSlash(b);
    SplitSlash("/" + b);
    Regroup([""], [""], below);
    assert [""] + [""] == ["", ""];
    CleanRooted("/" + ("/" + b), ["", ""], below);
  }

  /** cleanTarPath leaves a clean absolute name alone. */
  lemma CleanTarPath(parts: seq<string>)
    requires AllPlain(parts)
    ensures Join(["/", Clean(Absolute(parts))]) == Absolute(parts)
  {
    CleanAbsolute(parts);
    var a := Absolute(parts);
    NonEmptyTwo("/", a);
    assert Slashed(["/", a]) == "/" + ("/" + a);
    SlashesBefore(parts);
  }

  lemma SlashesBefore(parts: seq<string>)
    requires AllPlain(parts)
    ensures Clean("/" + ("/" + Absolute(parts))) == Absolute(parts)
  {
    var a := Absolute(parts);
    SplitAbsolute(parts);
    SplitSlash(a);
    SplitSlash("/" + a);
    if parts == [] {
      assert [""] + ([""] + ["", ""]) == ["", "", "", ""] + [];
      CleanRooted("/" + ("/" + a), ["", "", "", ""], []);
    } else {
      assert [""] + ([""] + ([""] + parts)) == ["", "", ""] + parts;
      CleanRooted("/" + ("/" + a), ["", "", ""], parts);
    }
  }

  // Paths that need not be clean.

  lemma {:induction false} SplitConcat(a: string, b: string)
    ensures Split(a + "/" + b) == Split(a) + Split(b)
  {
    var s := a + "/" + b;
    if a == [] {
      assert s[1..] == b;
    } else {
      SplitConcat(a[1..], b);
      assert s[1..] == a[1..] + "/" + b;
      var r, t := Split(a[1..]), Split(b);
      FirstOfConcat(r, t);
      Regroup([""], r, t);
      Regroup([[a[0]] + r[0]], r[1..], t);
    }
  }

  lemma FirstOfConcat<T>(a: seq<T>, b: seq<T>)
    requires a != []
    ensures (a + b)[0] == a[0] && (a + b)[1..] == a[1..] + b
  {
  }

  lemma {:induction false} SplitHasNoSlash(s: string)
    ensures forall i :: 0 <= i < |Split(s)| ==> '/' !in Split(s)[i]
  {
    if s != [] {
      SplitHasNoSlash(s[1..]);
    }
  }

  /** Plain parts are only pushed. */
  lemma {:induction false} NormalAppend(rooted: bool, a: seq<string>, parts: seq<string>)
    requires AllPlain(parts)
    ensures Normal(rooted, a + parts) == Normal(rooted, a) + parts
  {
    if parts == [] {
      assert a + parts == a && Normal(rooted, a) + parts == Normal(rooted, a);
    } else {
      var n := |parts| - 1;
      NormalAppend(rooted, a, parts[..n]);
      LastOfConcat(a, parts);
      assert parts == parts[..n] + [parts[n]] && Plain(parts[n]);
    }
  }

  /** No ".." is left of a rooted path, whatever it was made of. */
  lemma {:induction false} NormalRootedPlain(parts: seq<string>)
    requires forall i :: 0 <= i < |parts| ==> '/' !in parts[i]
    ensures AllPlain(Normal(true, parts))
  {
    if parts != [] {
      NormalRootedPlain(parts[..|parts| - 1]);
    }
  }

  lemma RootedIsClean(s: string) returns (parts: seq<string>)
    requires s != "" && s[0] == '/'
    ensures AllPlain(parts) && Clean(s) == Absolute(parts)
  {
    parts := Normal(true, Split(s));
    SplitHasNoSlash(s);
    NormalRootedPlain(Split(s));
  }

  /** cleanTarPath makes a clean absolute path of any name. */
  lemma TarPathIsClean(name: string) returns (parts: seq<string>)
    ensures AllPlain(parts) && Join(["/", Clean(name)]) == Absolute(parts)
  {
    var c := Clean(name);
    NonEmptyTwo("/", c);
    if c == "" {
      parts := RootedIsClean("/");
      assert Slashed(["/"]) == "/";
    } else {
      assert Slashed(["/", c]) == "/" + "/" + c;
      parts := RootedIsClean("/" + "/" + c);
    }
  }

  /** Only what lies at or below a clean directory is trimmed. */
  lemma TrimmedIsBelow(parts: seq<string>, dir: seq<string>) returns (below: seq<string>)
    requires AllPlain(parts) && AllPlain(dir) && IsSubPath(Absolute(parts), Absolute(dir))
    ensures parts == dir + below && TrimPathPrefix(Absolute(parts), Absolute(dir)) == Slashed(below)
  {
    SplitAbsolute(parts);
    SplitAbsolute(dir);
    if dir == [] {
      below := parts;
      if parts == [] {
        TrimSelf(dir);
      } else {
        TrimRoot(parts);
      }
    } else {
      var path, prefix := Split(Absolute(parts)), Split(Absolute(dir));
      assert prefix <= path && prefix[1] == dir[0] && Plain(dir[0]);
      below := parts[|dir|..];
      assert dir == prefix[1..] && parts == path[1..];
      assert parts == dir + below;
      TrimBelow(dir, below);
    }
  }

  lemma TrimSelf(dir: seq<string>)
    requires AllPlain(dir)
    ensures TrimPathPrefix(Absolute(dir), Absolute(dir)) == ""
  {
    var d := Absolute(dir);
    assert Split(d) == Split(d) + [];
    TrimSplit(d, d, []);
  }

  /** Joining a clean directory and a clean absolute path puts the one below the other. */
  lemma JoinAbsolute(dir: seq<string>, below: seq<string>)
    requires dir != [] && below != [] && AllPlain(dir) && AllPlain(below)
    ensures Join([Absolute(dir), Absolute(below)]) == Absolute(dir + below)
  {
    var d, b := Absolute(dir), Absolute(below);
    NonEmptyTwo(d, b);
    assert Slashed([d, b]) == d + "/" + b;
    SplitConcat(d, b);
    SplitAbsolute(dir);
    SplitAbsolute(below);
    var front := ([""] + dir) + [""];
    Regroup([""] + dir, [""], below);
    NormalAppend(true, [""], dir);
    NormalAppend(true, front, below);
    assert Normal(true, [""]) == [] && [] + dir == dir;
    assert front[..|front| - 1] == [""] + dir && Normal(true, front) == dir;
  }

  /** A part that ".." follows is as if neither were there. */
  lemma ParentCancels(a: seq<string>, x: string, b: seq<string>)
    requires a != [] && AllPlain(a) && Plain(x) && AllPlain(b)
    ensures Clean(Absolute(a + [x]) + "/" + Slashed([".."] + b)) == Absolute(a + b)
  {
    var p, q := Absolute(a + [x]), Slashed([".."] + b);
    SplitConcat(p, q);
    SplitAbsolute(a + [x]);
    SplitSlashed([".."] + b);
    Regroup([""] + (a + [x]), [".."], b);
    ParentPops(a, x);
    NormalAppend(true, [""] + (a + [x]) + [".."], b);
    CleanIs(p + "/" + q);
  }

  lemma CleanIs(s: string)
    requires s != "" && s[0] == '/'
    ensures Clean(s) == Absolute(Normal(true, Split(s)))
  {
  }

  lemma ParentPops(a: seq<string>, x: string)
    requires AllPlain(a) && Plain(x)
    ensures Normal(true, [""] + (a + [x]) + [".."]) == a
  {
    var path := a + [x];
    NormalAppend(true, [""], path);
    assert Normal(true, [""]) == [] && [] + path == path && path[..|a|] == a;
    LastOfConcat([""] + path, [".."]);
    assert [".."][..0] == [] && [""] + path + [] == [""] + path;
  }
}
