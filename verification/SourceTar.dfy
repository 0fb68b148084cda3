/** create.go and extract.go: writing the tar, reading it back, and the round trip. */
module SourceTar {
  import opened Common
  import opened Paths
  import opened SourceImage

  /** addFileToTar */
  function HeaderOf(relativePath: string, node: Node): (h: Header)
  {
    var tarPath := Join([Absolute(PREFIX), relativePath]);
    if node.Directory? then Header(tarPath, DirKind, []) else Header(tarPath, RegularKind, node.bytes)
  }

  /** What one visited file contributes; a filtered directory is still descended into. */
  function PackVisit(source: seq<string>, filter: string -> bool, v: Visit): (r: seq<Header>)
  {
    var relativePath := TrimPathPrefix(Absolute(source + v.path), Absolute(source));
    if filter(relativePath) then [HeaderOf(relativePath, v.node)] else []
  }

  function Packed(source: seq<string>, filter: string -> bool, visits: seq<Visit>): (r: seq<Header>)
  {
    if visits == [] then []
    else Packed(source, filter, visits[..|visits| - 1]) + PackVisit(source, filter, visits[|visits| - 1])
  }

  lemma PackedUpTo(source: seq<string>, filter: string -> bool, visits: seq<Visit>, i: nat)
    requires i < |visits|
    ensures Packed(source, filter, visits[..i + 1]) ==
            Packed(source, filter, visits[..i]) + PackVisit(source, filter, visits[i])
  {
    assert visits[..i + 1][..i] == visits[..i];
  }

  method PackageDirectoryToTar(root: Node, source: seq<string>, filter: string -> bool) returns (tar: seq<Header>)
    ensures tar == Packed(source, filter, Walk(root, []))
  {
    var visits := Walk(root, []);
    tar := [];
    for i := 0 to |visits|
      invariant tar == Packed(source, filter, visits[..i])
    {
      PackedUpTo(source, filter, visits, i);
      tar := tar + PackVisit(source, filter, visits[i]);
    }
    assert visits[..|visits|] == visits;
  }

  // The target file system.

  datatype Content = IsDir | IsFile(bytes: seq<int>)

  type FileSystem = map<seq<string>, Content>

  /** A file is where a directory on the way to `path` should be. */
  predicate Blocked(fs: FileSystem, path: seq<string>)
  {
    path != [] && ((path in fs && fs[path].IsFile?) || Blocked(fs, path[..|path| - 1]))
  }

  lemma {:induction false} BlockedIff(fs: FileSystem, path: seq<string>)
    ensures Blocked(fs, path) <==> exists p :: p in fs && p != [] && p <= path && fs[p].IsFile?
  {
    if path != [] {
      var n := |path| - 1;
      BlockedIff(fs, path[..n]);
      forall p | p in fs ensures p <= path <==> p == path || p <= path[..n] {
        if p <= path && p != path {
          assert p == path[..|p|] == path[..n][..|p|];
        }
        if p <= path[..n] {
          assert p == path[..n][..|p|] == path[..|p|];
        }
      }
    }
  }

  function WithDirs(fs: FileSystem, path: seq<string>): (r: FileSystem)
  {
    if path == [] then fs else WithDirs(fs, path[..|path| - 1])[path := IsDir]
  }

  /** os.MkdirAll: fails when a file is in the way. */
  function MkdirAll(fs: FileSystem, path: seq<string>): (r: Option<FileSystem>)
  {
    if Blocked(fs, path) then None else Some(WithDirs(fs, path))
  }

  predicate DirAt(fs: FileSystem, path: seq<string>)
  {
    path == [] || (path in fs && fs[path].IsDir?)
  }

  /** Writing does not truncate: what is longer than the new bytes stays behind them. */
  function Overwrite(fs: FileSystem, path: seq<string>, bytes: seq<int>): (r: Option<FileSystem>)
  {
    if path == [] || DirAt(fs, path) || !DirAt(fs, path[..|path| - 1]) then None
    else
      var before := if path in fs && fs[path].IsFile? then fs[path].bytes else [];
      Some(fs[path := IsFile(bytes + (if |before| > |bytes| then before[|bytes|..] else []))])
  }

  /** The parts of an absolute path. */
  function Parts(path: string): (r: seq<string>)
  {
    Normal(true, Split(path))
  }

  /** Creates what a header describes at `out`. */
  function Place(fs: FileSystem, out: seq<string>, kind: Kind, bytes: seq<int>): (r: Option<FileSystem>)
  {
    match kind
    case DirKind => MkdirAll(fs, out)
    case OtherKind => Some(fs)
    case RegularKind =>
      var dir := if out == [] then [] else out[..|out| - 1];
      var made := MkdirAll(fs, dir);
      Overwrite(if made.Some? then made.value else fs, out, bytes)
  }

  function Extract(fs: FileSystem, target: string, sourcePath: string, h: Header): (r: Option<FileSystem>)
  {
    var absPath := Join(["/", Clean(h.name)]);
    if !IsSubPath(absPath, sourcePath) then Some(fs)
    else Place(fs, Parts(Join([target, TrimPathPrefix(absPath, sourcePath)])), h.kind, h.bytes)
  }

  function Extracted(fs: FileSystem, target: string, sourcePath: string, tar: seq<Header>): (r: Option<FileSystem>)
  {
    if tar == [] then Some(fs)
    else
      match Extracted(fs, target, sourcePath, tar[..|tar| - 1])
      case None => None
      case Some(fs') => Extract(fs', target, sourcePath, tar[|tar| - 1])
  }

  /** The count includes headers that were skipped; an error stops the extraction. */
  method ExtractTar(fs: FileSystem, target: string, sourcePath: string, tar: seq<Header>)
    returns (fs': FileSystem, fileCount: nat, ok: bool)
    ensures fileCount <= |tar| && Extracted(fs, target, sourcePath, tar[..fileCount]) == Some(fs')
    ensures ok <==> fileCount == |tar|
    ensures !ok ==> Extract(fs', target, sourcePath, tar[fileCount]).None?
    ensures ok ==> Extracted(fs, target, sourcePath, tar) == Some(fs')
  {
    fs', fileCount := fs, 0;
    while fileCount < |tar|
      invariant fileCount <= |tar| && Extracted(fs, target, sourcePath, tar[..fileCount]) == Some(fs')
    {
      assert tar[..fileCount + 1][..fileCount] == tar[..fileCount];
      var next := Extract(fs', target, sourcePath, tar[fileCount]);
      if next.None? {
        return fs', fileCount, false;
      }
      fs', fileCount := next.value, fileCount + 1;
    }
    assert tar[..|tar|] == tar;
    ok := true;
  }

  // Where things go.

  /** What the filter is asked about a visited file. Trimming the root directory leaves a path
      as it is, so there the filter sees absolute paths. */
  function Seen(source: seq<string>, path: seq<string>): (r: string)
  {
    if source == [] && path != [] then Absolute(path) else Slashed(path)
  }

  lemma SeenIs(source: seq<string>, path: seq<string>)
    requires AllPlain(source) && AllPlain(path)
    ensures TrimPathPrefix(Absolute(source + path), Absolute(source)) == Seen(source, path)
  {
    if source != [] {
      TrimBelow(source, path);
    } else {
      assert source + path == path;
      if path == [] {
        TrimSelf([]);
      } else {
        TrimRoot(path);
      }
    }
  }

  lemma TarPathOf(source: seq<string>, path: seq<string>)
    requires AllPlain(path)
    ensures Join([Absolute(PREFIX), Seen(source, path)]) == Absolute(PREFIX + path)
  {
    if source == [] && path != [] {
      JoinAbsolute(PREFIX, path);
    } else {
      JoinBelow(PREFIX, path);
    }
  }

  function HeaderAt(path: seq<string>, node: Node): (h: Header)
  {
    Header(Absolute(PREFIX + path), if node.Directory? then DirKind else RegularKind,
           if node.Directory? then [] else node.bytes)
  }

  /** The name of a header does not depend on the source directory, not even at the root. */
  lemma NameOf(source: seq<string>, filter: string -> bool, root: Node, v: Visit)
    requires AllPlain(source) && WellFormed(root) && Find(root, v.path) == Some(v.node)
    ensures AllPlain(v.path)
    ensures PackVisit(source, filter, v) == if filter(Seen(source, v.path)) then [HeaderAt(v.path, v.node)] else []
  {
    FindPlain(root, v.path);
    SeenIs(source, v.path);
    TarPathOf(source, v.path);
  }

  /** Where a packed header is extracted to. */
  lemma OutputOf(prefix: seq<string>, target: seq<string>, path: seq<string>)
    requires prefix != [] && AllPlain(prefix) && AllPlain(target) && AllPlain(path)
    ensures var absPath := Join(["/", Clean(Absolute(prefix + path))]);
      && IsSubPath(absPath, Absolute(prefix))
      && Parts(Join([Absolute(target), TrimPathPrefix(absPath, Absolute(prefix))])) == target + path
  {
    CleanTarPath(prefix + path);
    TrimBelow(prefix, path);
    JoinBelow(target, path);
    PartsAbsolute(target + path);
  }

  lemma PartsAbsolute(parts: seq<string>)
    requires AllPlain(parts)
    ensures Parts(Absolute(parts)) == parts
  {
    SplitAbsolute(parts);
    if parts == [] {
      NormalPlain(true, ["", ""], []);
      assert ["", ""] + [] == ["", ""];
    } else {
      NormalPlain(true, [""], parts);
    }
  }

  lemma PlacedAt(target: seq<string>, fs: FileSystem, path: seq<string>, h: Header)
    requires AllPlain(target) && AllPlain(path) && h.name == Absolute(PREFIX + path)
    ensures Extracted(fs, Absolute(target), Absolute(PREFIX), [h]) == Place(fs, target + path, h.kind, h.bytes)
  {
    OutputOf(PREFIX, target, path);
    ExtractedNext(fs, Absolute(target), Absolute(PREFIX), [], h);
    assert [] + [h] == [h];
  }

  lemma ExtractedNext(fs: FileSystem, target: string, sourcePath: string, tar: seq<Header>, h: Header)
    requires Extracted(fs, target, sourcePath, tar).Some?
    ensures Extracted(fs, target, sourcePath, tar + [h]) ==
            Extract(Extracted(fs, target, sourcePath, tar).value, target, sourcePath, h)
  {
    assert (tar + [h])[..|tar|] == tar;
  }

  lemma ExtractedMore(fs: FileSystem, target: string, sourcePath: string, tar: seq<Header>, more: seq<Header>)
    requires |more| <= 1
    ensures var r := Extracted(fs, target, sourcePath, tar);
      Extracted(fs, target, sourcePath, tar + more) ==
      if r.Some? then Extracted(r.value, target, sourcePath, more) else None
  {
    var r := Extracted(fs, target, sourcePath, tar);
    if more == [] {
      assert tar + more == tar;
    } else {
      assert more == [more[0]] && [] + more == more && (tar + more)[..|tar|] == tar;
      if r.Some? {
        ExtractedNext(fs, target, sourcePath, tar, more[0]);
        ExtractedNext(r.value, target, sourcePath, [], more[0]);
      }
    }
  }

  lemma PackedNext(source: seq<string>, filter: string -> bool, visits: seq<Visit>, v: Visit)
    ensures Packed(source, filter, visits + [v]) == Packed(source, filter, visits) + PackVisit(source, filter, v)
  {
    assert (visits + [v])[..|visits|] == visits;
  }

  // The file system before and after.

  function FileAt(fs: FileSystem, p: seq<string>): (r: Option<seq<int>>)
  {
    if p in fs && fs[p].IsFile? then Some(fs[p].bytes) else None
  }

  lemma {:induction false} WithDirsAt(fs: FileSystem, path: seq<string>, p: seq<string>)
    ensures p in WithDirs(fs, path) <==> p in fs || (p != [] && p <= path)
    ensures p in WithDirs(fs, path) ==> WithDirs(fs, path)[p] == if p != [] && p <= path then IsDir else fs[p]
  {
    if path != [] {
      var n := |path| - 1;
      WithDirsAt(fs, path[..n], p);
      if p <= path && p != path {
        assert p == path[..|p|] == path[..n][..|p|];
      }
      if p <= path[..n] {
        assert p == path[..n][..|p|] == path[..|p|];
      }
    }
  }

  lemma PrefixCancels<T>(a: seq<T>, b: seq<T>, c: seq<T>)
    requires a + b <= a + c
    ensures b <= c
    ensures |b| == |c| ==> b == c
  {
    forall i | 0 <= i < |b| ensures b[i] == c[i] {
      assert (a + b)[|a| + i] == (a + c)[|a| + i];
    }
  }

  /** Directories are made at and above a path that no file blocks, and no file changes. */
  lemma WithDirsIs(fs: FileSystem, path: seq<string>, p: seq<string>)
    requires !Blocked(fs, path)
    ensures FileAt(WithDirs(fs, path), p) == FileAt(fs, p)
    ensures DirAt(WithDirs(fs, path), p) <==> DirAt(fs, p) || p <= path
  {
    WithDirsAt(fs, path, p);
    BlockedIff(fs, path);
  }

  /** What a file holds after `bytes` were written over it: what was longer stays. */
  function Over(bytes: seq<int>, was: Option<seq<int>>): (r: seq<int>)
    ensures |r| >= |bytes|
  {
    bytes + (if was.Some? && |was.value| > |bytes| then was.value[|bytes|..] else [])
  }

  lemma OverTwice(bytes: seq<int>, was: Option<seq<int>>)
    ensures Over(bytes, Some(Over(bytes, was))) == Over(bytes, was)
  {
  }

  lemma OverExactIff(bytes: seq<int>, was: Option<seq<int>>)
    ensures Over(bytes, was) == bytes <==> !(was.Some? && |was.value| > |bytes|)
  {
    assert was.Some? && |was.value| > |bytes| ==> |Over(bytes, was)| == |was.value|;
  }

  lemma OverwriteIs(fs: FileSystem, path: seq<string>, bytes: seq<int>)
    requires path != [] && DirAt(fs, path[..|path| - 1]) && !DirAt(fs, path)
    ensures Overwrite(fs, path, bytes) == Some(fs[path := IsFile(Over(bytes, FileAt(fs, path)))])
  {
  }

  /** Directories lie in directories. */
  ghost predicate Tree(fs: FileSystem)
  {
    forall p, k :: p in fs && 0 < k < |p| ==> DirAt(fs, p[..k])
  }

  lemma {:induction false} WithDirsSame(fs: FileSystem, path: seq<string>)
    requires Tree(fs) && DirAt(fs, path)
    ensures WithDirs(fs, path) == fs
  {
    if path != [] {
      var n := |path| - 1;
      assert n > 0 ==> DirAt(fs, path[..n]);
      WithDirsSame(fs, path[..n]);
    }
  }

  /** A file that cannot be written leaves nothing behind: in a tree its directory is there
      already when the directory could be made at all. */
  lemma FailureLeavesNothing(fs: FileSystem, out: seq<string>, bytes: seq<int>)
    requires Tree(fs) && out != [] && Place(fs, out, RegularKind, bytes).None?
    ensures var made := MkdirAll(fs, out[..|out| - 1]);
      made.Some? ==> made.value == fs
  {
    var n := |out| - 1;
    var dir := out[..n];
    if !Blocked(fs, dir) {
      WithDirsIs(fs, dir, dir);
      WithDirsIs(fs, dir, out);
      assert !(out <= dir);
      assert DirAt(fs, out);
      assert n > 0 ==> DirAt(fs, dir);
      WithDirsSame(fs, dir);
    }
  }

  lemma PrefixOfConcat<T>(a: seq<T>, b: seq<T>, p: seq<T>)
    requires p <= a + b
    ensures p <= a || a < p
  {
    if |p| <= |a| {
      assert p == (a + b)[..|p|] == a[..|p|];
    } else {
      assert p[..|a|] == (a + b)[..|a|] == a;
    }
  }

  // Nothing outside the target.

  /** `p` holds the same file as before, and a directory there may be new only if `p <= above`. */
  ghost predicate Untouched(fs: FileSystem, fs': FileSystem, above: seq<string>, p: seq<string>)
  {
    && FileAt(fs', p) == FileAt(fs, p)
    && (DirAt(fs, p) ==> DirAt(fs', p)) && (DirAt(fs', p) ==> DirAt(fs, p) || p <= above)
  }

  /** Placing something changes no other file and makes directories only on the way to it. */
  lemma PlaceElsewhere(fs: FileSystem, out: seq<string>, kind: Kind, bytes: seq<int>, p: seq<string>)
    requires Place(fs, out, kind, bytes).Some? && p != out
    ensures Untouched(fs, Place(fs, out, kind, bytes).value, out, p)
  {
    match kind
    case DirKind => WithDirsIs(fs, out, p);
    case OtherKind =>
    case RegularKind =>
      var dir := if out == [] then [] else out[..|out| - 1];
      if !Blocked(fs, dir) {
        WithDirsIs(fs, dir, p);
        assert p <= dir ==> p <= out;
      }
  }

  /** Whatever a header is called, it is skipped or placed at or below the target. */
  lemma ExtractStaysBelow(fs: FileSystem, target: seq<string>, source: seq<string>, h: Header, p: seq<string>)
    requires AllPlain(target) && AllPlain(source) && !(target <= p)
    requires Extract(fs, Absolute(target), Absolute(source), h).Some?
    ensures Untouched(fs, Extract(fs, Absolute(target), Absolute(source), h).value, target, p)
  {
    var absPath := Join(["/", Clean(h.name)]);
    var parts := TarPathIsClean(h.name);
    if IsSubPath(absPath, Absolute(source)) {
      var below := TrimmedIsBelow(parts, source);
      assert AllPlain(below) by {
        assert forall i :: 0 <= i < |below| ==> below[i] == parts[|source| + i];
      }
      JoinBelow(target, below);
      PartsAbsolute(target + below);
      PlaceElsewhere(fs, target + below, h.kind, h.bytes, p);
      assert p <= target + below ==> p <= target by {
        if p <= target + below {
          PrefixOfConcat(target, below, p);
        }
      }
    }
  }

  /** For every tar, with relative and ".." names included, extraction changes no file that is
      not at or below the target, and makes no directory but at, below or above it. */
  lemma {:induction false} NothingEscapes(fs: FileSystem, target: seq<string>, source: seq<string>, tar: seq<Header>,
                                          p: seq<string>)
    requires AllPlain(target) && AllPlain(source) && !(target <= p)
    requires Extracted(fs, Absolute(target), Absolute(source), tar).Some?
    ensures Untouched(fs, Extracted(fs, Absolute(target), Absolute(source), tar).value, target, p)
  {
    if tar != [] {
      var n := |tar| - 1;
      NothingEscapes(fs, target, source, tar[..n], p);
      ExtractStaysBelow(Extracted(fs, Absolute(target), Absolute(source), tar[..n]).value, target, source, tar[n], p);
    }
  }

  /** A header that is not extracted: neither a file nor a directory, or not below the source. */
  predicate Skipped(sourcePath: string, h: Header)
  {
    h.kind.OtherKind? || !IsSubPath(Join(["/", Clean(h.name)]), sourcePath)
  }

  function Relevant(sourcePath: string, tar: seq<Header>): (r: seq<Header>)
  {
    if tar == [] then []
    else
      var init, h := Relevant(sourcePath, tar[..|tar| - 1]), tar[|tar| - 1];
      if Skipped(sourcePath, h) then init else init + [h]
  }

  /** Such headers make no difference, wherever they stand in the tar. */
  lemma {:induction false} SkippedMakeNoDifference(fs: FileSystem, target: string, sourcePath: string, tar: seq<Header>)
    ensures Extracted(fs, target, sourcePath, tar) == Extracted(fs, target, sourcePath, Relevant(sourcePath, tar))
  {
    if tar != [] {
      var init, h := tar[..|tar| - 1], tar[|tar| - 1];
      SkippedMakeNoDifference(fs, target, sourcePath, init);
      assert tar == init + [h];
      RelevantNext(sourcePath, init, h);
      if Skipped(sourcePath, h) {
        SkippedOne(fs, target, sourcePath, init, h);
      } else {
        ExtractedMore(fs, target, sourcePath, init, [h]);
        ExtractedMore(fs, target, sourcePath, Relevant(sourcePath, init), [h]);
      }
    }
  }

  lemma RelevantNext(sourcePath: string, init: seq<Header>, h: Header)
    ensures Relevant(sourcePath, init + [h]) ==
            if Skipped(sourcePath, h) then Relevant(sourcePath, init) else Relevant(sourcePath, init) + [h]
  {
    assert (init + [h])[..|init|] == init;
  }

  lemma SkippedOne(fs: FileSystem, target: string, sourcePath: string, tar: seq<Header>, h: Header)
    requires Skipped(sourcePath, h)
    ensures Extracted(fs, target, sourcePath, tar + [h]) == Extracted(fs, target, sourcePath, tar)
  {
    assert (tar + [h])[..|tar|] == tar;
  }
}
