/** Packing a directory and extracting the tar: what comes back, into any target. */
module SourceRoundTrip {
  import opened Common
  import opened Paths
  import opened SourceImage
  import opened SourceTar

  ghost predicate AllFound(root: Node, visits: seq<Visit>)
  {
    forall v :: v in visits ==> Find(root, v.path) == Some(v.node)
  }

  /** The bytes of a packed file. */
  function PackedAt(root: Node, source: seq<string>, filter: string -> bool, rel: seq<string>): (r: Option<seq<int>>)
  {
    var n := Find(root, rel);
    if n.Some? && n.value.File? && filter(Seen(source, rel)) then Some(n.value.bytes) else None
  }

  /** The file at `p` once everything was extracted over what was there before: a packed file is
      written over it, anything else stays. */
  function Expected(root: Node, source: seq<string>, filter: string -> bool, target: seq<string>, before: FileSystem,
                    p: seq<string>): (r: Option<seq<int>>)
  {
    var packed := if target <= p then PackedAt(root, source, filter, p[|target|..]) else None;
    if packed.Some? then Some(Over(packed.value, FileAt(before, p))) else FileAt(before, p)
  }

  /** A visited node cannot be placed: a file is in the way of a directory, or the other way round. */
  predicate Obstructed(before: FileSystem, target: seq<string>, v: Visit)
  {
    var out := target + v.path;
    if v.node.Directory? then Blocked(before, out)
    else out == [] || DirAt(before, out) || Blocked(before, out[..|out| - 1])
  }

  ghost predicate Unobstructed(root: Node, source: seq<string>, filter: string -> bool, target: seq<string>,
                               before: FileSystem)
  {
    forall rel :: Find(root, rel).Some? && filter(Seen(source, rel)) ==>
      !Obstructed(before, target, Visit(rel, Find(root, rel).value))
  }

  predicate Hits(source: seq<string>, filter: string -> bool, target: seq<string>, v: Visit, p: seq<string>)
  {
    v.node.File? && filter(Seen(source, v.path)) && target + v.path == p
  }

  /** The file at `p` after the visits so far, write by write. */
  function After(before: FileSystem, source: seq<string>, filter: string -> bool, target: seq<string>,
                 visits: seq<Visit>, p: seq<string>): (r: Option<seq<int>>)
  {
    if visits == [] then FileAt(before, p)
    else
      var init, v := After(before, source, filter, target, visits[..|visits| - 1], p), visits[|visits| - 1];
      if Hits(source, filter, target, v, p) then Some(Over(v.node.bytes, init)) else init
  }

  lemma AfterNext(before: FileSystem, source: seq<string>, filter: string -> bool, target: seq<string>,
                  visits: seq<Visit>, v: Visit, p: seq<string>)
    ensures var init := After(before, source, filter, target, visits, p);
      After(before, source, filter, target, visits + [v], p) ==
      if Hits(source, filter, target, v, p) then Some(Over(v.node.bytes, init)) else init
  {
    assert (visits + [v])[..|visits|] == visits;
  }

  /** Files stay, and a new one belongs to the tree. */
  lemma {:induction false} AfterFrom(root: Node, before: FileSystem, source: seq<string>, filter: string -> bool,
                                     target: seq<string>, visits: seq<Visit>, p: seq<string>)
    requires AllFound(root, visits)
    ensures var r := After(before, source, filter, target, visits, p);
      && (FileAt(before, p).Some? ==> r.Some?)
      && (r.Some? ==> FileAt(before, p).Some? || (target <= p && PackedAt(root, source, filter, p[|target|..]).Some?))
  {
    if visits != [] {
      var n := |visits| - 1;
      assert AllFound(root, visits[..n]) && visits[n] in visits;
      AfterFrom(root, before, source, filter, target, visits[..n], p);
      if Hits(source, filter, target, visits[n], p) {
        assert p[|target|..] == visits[n].path;
      }
    }
  }

  /** Visiting a file again writes the same bytes again. */
  lemma {:induction false} AfterIs(root: Node, before: FileSystem, source: seq<string>, filter: string -> bool,
                                   target: seq<string>, visits: seq<Visit>, p: seq<string>)
    requires AllFound(root, visits)
    ensures After(before, source, filter, target, visits, p) ==
            if exists v :: v in visits && Hits(source, filter, target, v, p)
            then Expected(root, source, filter, target, before, p) else FileAt(before, p)
  {
    if visits != [] {
      var n := |visits| - 1;
      var v := visits[n];
      assert AllFound(root, visits[..n]) && v in visits && visits == visits[..n] + [v];
      AfterIs(root, before, source, filter, target, visits[..n], p);
      if Hits(source, filter, target, v, p) {
        assert p[|target|..] == v.path;
        OverTwice(v.node.bytes, FileAt(before, p));
      }
    }
  }

  /** Directory `rel` of the tree was made, and `p` is there because of it. */
  ghost predicate MadeFor(root: Node, before: FileSystem, target: seq<string>, rel: seq<string>, p: seq<string>)
  {
    Find(root, rel).Some? && Find(root, rel).value.Directory? && !Blocked(before, target + rel) && p <= target + rel
  }

  /** Directories stay, and a new one was made for the tree. */
  ghost predicate DirsOk(root: Node, before: FileSystem, target: seq<string>, fs: FileSystem)
  {
    && (forall p :: DirAt(before, p) ==> DirAt(fs, p))
    && (forall p :: DirAt(fs, p) ==> DirAt(before, p) || exists rel :: MadeFor(root, before, target, rel, p))
  }

  ghost predicate FilesOk(before: FileSystem, source: seq<string>, filter: string -> bool, target: seq<string>,
                          visits: seq<Visit>, fs: FileSystem)
  {
    forall p :: FileAt(fs, p) == After(before, source, filter, target, visits, p)
  }

  /** A file never lies where the tree has a directory. */
  lemma DirectoryIsNoFile(root: Node, target: seq<string>, rel: seq<string>, p: seq<string>)
    requires Find(root, rel).Some? && Find(root, rel).value.Directory? && target <= p <= target + rel
    ensures Find(root, p[|target|..]).Some? && Find(root, p[|target|..]).value.Directory?
  {
    var q := p[|target|..];
    assert p == target + q;
    PrefixCancels(target, q, rel);
    if q != rel {
      assert |q| < |rel| && rel[..|q|] == q;
      FindPrefix(root, rel, |q|);
    }
  }

  lemma BlockedSame(root: Node, source: seq<string>, filter: string -> bool, target: seq<string>, before: FileSystem,
                    visits: seq<Visit>, fs: FileSystem, rel: seq<string>)
    requires AllFound(root, visits) && FilesOk(before, source, filter, target, visits, fs)
    requires Find(root, rel).Some? && Find(root, rel).value.Directory?
    ensures Blocked(fs, target + rel) <==> Blocked(before, target + rel)
  {
    var path := target + rel;
    BlockedIff(fs, path);
    BlockedIff(before, path);
    forall p | p != [] && p <= path ensures FileAt(fs, p).Some? <==> FileAt(before, p).Some? {
      AfterFrom(root, before, source, filter, target, visits, p);
      if target <= p {
        DirectoryIsNoFile(root, target, rel, p);
      }
    }
    if Blocked(fs, path) {
      var p :| p in fs && p != [] && p <= path && fs[p].IsFile?;
      assert FileAt(fs, p).Some? && FileAt(before, p).Some?;
    }
    if Blocked(before, path) {
      var p :| p in before && p != [] && p <= path && before[p].IsFile?;
      assert FileAt(before, p).Some? && FileAt(fs, p).Some?;
    }
  }

  lemma DirsMade(root: Node, target: seq<string>, before: FileSystem, fs: FileSystem, rel: seq<string>)
    requires DirsOk(root, before, target, fs) && !Blocked(fs, target + rel) && !Blocked(before, target + rel)
    requires Find(root, rel).Some? && Find(root, rel).value.Directory?
    ensures DirsOk(root, before, target, WithDirs(fs, target + rel))
    ensures forall p :: FileAt(WithDirs(fs, target + rel), p) == FileAt(fs, p)
    ensures DirAt(WithDirs(fs, target + rel), target + rel)
  {
    var path := target + rel;
    var made := WithDirs(fs, path);
    forall p ensures FileAt(made, p) == FileAt(fs, p) && (DirAt(made, p) <==> DirAt(fs, p) || p <= path) {
      WithDirsIs(fs, path, p);
    }
    forall p | DirAt(made, p) ensures DirAt(before, p) || exists r :: MadeFor(root, before, target, r, p) {
      if p <= path {
        assert MadeFor(root, before, target, rel, p);
      }
    }
  }

  /** Where the tree has a file, no directory was made. */
  lemma FileIsNoDirectory(root: Node, target: seq<string>, before: FileSystem, fs: FileSystem, v: Visit)
    requires DirsOk(root, before, target, fs) && Find(root, v.path) == Some(v.node) && v.node.File?
    ensures DirAt(fs, target + v.path) <==> DirAt(before, target + v.path)
  {
    var out := target + v.path;
    assert out[|target|..] == v.path;
    if DirAt(fs, out) && !DirAt(before, out) {
      var rel :| MadeFor(root, before, target, rel, out);
      DirectoryIsNoFile(root, target, rel, out);
    }
  }

  /** No directory lies below a file. */
  ghost predicate Sound(fs: FileSystem)
  {
    forall p :: DirAt(fs, p) ==> !Blocked(fs, p)
  }

  lemma BlockedAbove(fs: FileSystem, p: seq<string>, q: seq<string>)
    requires p <= q && Blocked(fs, p)
    ensures Blocked(fs, q)
  {
    BlockedIff(fs, p);
    BlockedIff(fs, q);
  }

  lemma BlockedIsNoDir(root: Node, target: seq<string>, before: FileSystem, fs: FileSystem, p: seq<string>)
    requires DirsOk(root, before, target, fs) && Sound(before) && Blocked(before, p)
    ensures !DirAt(fs, p)
  {
    if DirAt(fs, p) {
      assert !DirAt(before, p);
      var rel :| MadeFor(root, before, target, rel, p);
      BlockedAbove(before, p, target + rel);
    }
  }

  function Placed(fs: FileSystem, target: seq<string>, v: Visit): (r: Option<FileSystem>)
  {
    var h := HeaderAt(v.path, v.node);
    Place(fs, target + v.path, h.kind, h.bytes)
  }

  lemma PlaceDirectory(root: Node, source: seq<string>, filter: string -> bool, target: seq<string>, before: FileSystem,
                       visits: seq<Visit>, fs: FileSystem, v: Visit)
    requires AllFound(root, visits)
    requires FilesOk(before, source, filter, target, visits, fs) && DirsOk(root, before, target, fs)
    requires Find(root, v.path) == Some(v.node) && v.node.Directory?
    ensures Placed(fs, target, v).Some? <==> !Obstructed(before, target, v)
    ensures Placed(fs, target, v).Some? ==>
              && DirsOk(root, before, target, Placed(fs, target, v).value)
              && FilesOk(before, source, filter, target, visits + [v], Placed(fs, target, v).value)
  {
    BlockedSame(root, source, filter, target, before, visits, fs, v.path);
    if !Blocked(before, target + v.path) {
      DirsMade(root, target, before, fs, v.path);
      forall p ensures After(before, source, filter, target, visits + [v], p) ==
                       After(before, source, filter, target, visits, p)
      {
        AfterNext(before, source, filter, target, visits, v, p);
      }
    }
  }

  /** Writing a file whose directory was made. */
  lemma PlaceInDirectory(root: Node, source: seq<string>, filter: string -> bool, target: seq<string>,
                         before: FileSystem, visits: seq<Visit>, made: FileSystem, v: Visit)
    requires FilesOk(before, source, filter, target, visits, made) && DirsOk(root, before, target, made)
    requires Find(root, v.path) == Some(v.node) && v.node.File? && filter(Seen(source, v.path)) && v.path != []
    requires DirAt(made, (target + v.path)[..|target + v.path| - 1])
    ensures var r := Overwrite(made, target + v.path, v.node.bytes);
      && (r.Some? <==> !DirAt(before, target + v.path))
      && (r.Some? ==> DirsOk(root, before, target, r.value)
                      && FilesOk(before, source, filter, target, visits + [v], r.value))
  {
    var out := target + v.path;
    FileIsNoDirectory(root, target, before, made, v);
    if !DirAt(before, out) {
      OverwriteIs(made, out, v.node.bytes);
      WrittenFiles(source, filter, target, before, visits, made, v);
      WrittenDirs(root, target, before, made, out, Over(v.node.bytes, FileAt(made, out)));
    }
  }

  lemma WrittenFiles(source: seq<string>, filter: string -> bool, target: seq<string>, before: FileSystem,
                     visits: seq<Visit>, made: FileSystem, v: Visit)
    requires FilesOk(before, source, filter, target, visits, made) && v.node.File? && filter(Seen(source, v.path))
    ensures var out := target + v.path;
      FilesOk(before, source, filter, target, visits + [v], made[out := IsFile(Over(v.node.bytes, FileAt(made, out)))])
  {
    var out := target + v.path;
    var r := made[out := IsFile(Over(v.node.bytes, FileAt(made, out)))];
    forall p ensures FileAt(r, p) == After(before, source, filter, target, visits + [v], p) {
      AfterNext(before, source, filter, target, visits, v, p);
    }
  }

  lemma WrittenDirs(root: Node, target: seq<string>, before: FileSystem, made: FileSystem, out: seq<string>,
                    bytes: seq<int>)
    requires DirsOk(root, before, target, made) && !DirAt(made, out)
    ensures DirsOk(root, before, target, made[out := IsFile(bytes)])
  {
    assert forall p :: DirAt(made[out := IsFile(bytes)], p) <==> DirAt(made, p);
  }

  lemma PlaceFile(root: Node, source: seq<string>, filter: string -> bool, target: seq<string>, before: FileSystem,
                  visits: seq<Visit>, fs: FileSystem, v: Visit)
    requires AllFound(root, visits)
    requires FilesOk(before, source, filter, target, visits, fs) && DirsOk(root, before, target, fs)
    requires Find(root, v.path) == Some(v.node) && v.node.File? && filter(Seen(source, v.path)) && v.path != []
    ensures !Obstructed(before, target, v) ==> Placed(fs, target, v).Some?
    ensures Placed(fs, target, v).Some? && Sound(before) ==> !Obstructed(before, target, v)
    ensures Placed(fs, target, v).Some? && !Obstructed(before, target, v) ==>
              && DirsOk(root, before, target, Placed(fs, target, v).value)
              && FilesOk(before, source, filter, target, visits + [v], Placed(fs, target, v).value)
  {
    var n := |v.path| - 1;
    FindPrefix(root, v.path, n);
    LastOfConcat(target, v.path);
    BlockedSame(root, source, filter, target, before, visits, fs, v.path[..n]);
    if Blocked(before, target + v.path[..n]) {
      if Sound(before) {
        BlockedIsNoDir(root, target, before, fs, target + v.path[..n]);
      }
    } else {
      DirsMade(root, target, before, fs, v.path[..n]);
      PlaceInDirectory(root, source, filter, target, before, visits, WithDirs(fs, target + v.path[..n]), v);
    }
  }

  ghost predicate NoneObstructed(source: seq<string>, filter: string -> bool, target: seq<string>, before: FileSystem,
                                 visits: seq<Visit>)
  {
    forall v :: v in visits && filter(Seen(source, v.path)) ==> !Obstructed(before, target, v)
  }

  lemma ExtractVisit(root: Node, source: seq<string>, filter: string -> bool, target: seq<string>, before: FileSystem,
                     visits: seq<Visit>, fs: FileSystem, v: Visit)
    requires WellFormed(root) && root.Directory? && AllPlain(source) && AllPlain(target) && AllFound(root, visits)
    requires Find(root, v.path) == Some(v.node)
    requires FilesOk(before, source, filter, target, visits, fs) && DirsOk(root, before, target, fs)
    ensures var r := Extracted(fs, Absolute(target), Absolute(PREFIX), PackVisit(source, filter, v));
      && (NoneObstructed(source, filter, target, before, [v]) ==>
            && r.Some? && DirsOk(root, before, target, r.value)
            && FilesOk(before, source, filter, target, visits + [v], r.value))
      && (Sound(before) && r.Some? ==> NoneObstructed(source, filter, target, before, [v]))
  {
    NameOf(source, filter, root, v);
    assert v in [v];
    if filter(Seen(source, v.path)) {
      PlacedAt(target, fs, v.path, HeaderAt(v.path, v.node));
      if v.node.Directory? {
        PlaceDirectory(root, source, filter, target, before, visits, fs, v);
      } else {
        PlaceFile(root, source, filter, target, before, visits, fs, v);
      }
    } else {
      forall p ensures After(before, source, filter, target, visits + [v], p) ==
                       After(before, source, filter, target, visits, p)
      {
        AfterNext(before, source, filter, target, visits, v, p);
      }
    }
  }

  lemma {:induction false} ExtractVisits(root: Node, source: seq<string>, filter: string -> bool, target: seq<string>,
                                         before: FileSystem, visits: seq<Visit>)
    requires WellFormed(root) && root.Directory? && AllPlain(source) && AllPlain(target) && AllFound(root, visits)
    ensures var r := Extracted(before, Absolute(target), Absolute(PREFIX), Packed(source, filter, visits));
      && (NoneObstructed(source, filter, target, before, visits) ==>
            && r.Some? && DirsOk(root, before, target, r.value)
            && FilesOk(before, source, filter, target, visits, r.value))
      && (Sound(before) && r.Some? ==> NoneObstructed(source, filter, target, before, visits))
  {
    if visits != [] {
      var init, v := visits[..|visits| - 1], visits[|visits| - 1];
      assert visits == init + [v];
      assert v in visits && AllFound(root, init);
      ExtractVisits(root, source, filter, target, before, init);
      ExtractNext(root, source, filter, target, before, init, v);
    }
  }

  lemma ExtractNext(root: Node, source: seq<string>, filter: string -> bool, target: seq<string>, before: FileSystem,
                    init: seq<Visit>, v: Visit)
    requires WellFormed(root) && root.Directory? && AllPlain(source) && AllPlain(target) && AllFound(root, init)
    requires Find(root, v.path) == Some(v.node)
    requires var r := Extracted(before, Absolute(target), Absolute(PREFIX), Packed(source, filter, init));
      && (NoneObstructed(source, filter, target, before, init) ==>
            && r.Some? && DirsOk(root, before, target, r.value)
            && FilesOk(before, source, filter, target, init, r.value))
      && (Sound(before) && r.Some? ==> NoneObstructed(source, filter, target, before, init))
    ensures var r := Extracted(before, Absolute(target), Absolute(PREFIX), Packed(source, filter, init + [v]));
      && (NoneObstructed(source, filter, target, before, init + [v]) ==>
            && r.Some? && DirsOk(root, before, target, r.value)
            && FilesOk(before, source, filter, target, init + [v], r.value))
      && (Sound(before) && r.Some? ==> NoneObstructed(source, filter, target, before, init + [v]))
  {
    var hs := PackVisit(source, filter, v);
    var was := Extracted(before, Absolute(target), Absolute(PREFIX), Packed(source, filter, init));
    PackedNext(source, filter, init, v);
    ExtractedMore(before, Absolute(target), Absolute(PREFIX), Packed(source, filter, init), hs);
    NoneObstructedNext(source, filter, target, before, init, v);
    if NoneObstructed(source, filter, target, before, init) {
      ExtractVisit(root, source, filter, target, before, init, was.value, v);
    }
  }

  lemma NoneObstructedNext(source: seq<string>, filter: string -> bool, target: seq<string>, before: FileSystem,
                           init: seq<Visit>, v: Visit)
    ensures NoneObstructed(source, filter, target, before, init + [v]) <==>
            NoneObstructed(source, filter, target, before, init) && NoneObstructed(source, filter, target, before, [v])
  {
    assert forall o :: o in init + [v] <==> o in init || o in [v];
  }

  lemma WalkFinds(root: Node, v: Visit)
    requires WellFormed(root)
    ensures v in Walk(root, []) <==> Find(root, v.path) == Some(v.node)
  {
    assert [] + v.path == v.path;
    WalkVisits(root, [], v.path, v.node);
  }

  /** Extracting a packed directory over whatever the target held, in full: it succeeds exactly
      when nothing is in the way, every packed file is written over what was at its path, and
      every other file, below the target or not, stays as it was. */
  lemma ExtractOver(root: Node, source: seq<string>, filter: string -> bool, target: seq<string>, before: FileSystem)
    requires WellFormed(root) && root.Directory? && AllPlain(source) && AllPlain(target)
    ensures var r := Extracted(before, Absolute(target), Absolute(PREFIX), Packed(source, filter, Walk(root, [])));
      && (Unobstructed(root, source, filter, target, before) ==>
            r.Some? && forall p :: FileAt(r.value, p) == Expected(root, source, filter, target, before, p))
      && (Sound(before) && r.Some? ==> Unobstructed(root, source, filter, target, before))
  {
    var visits := Walk(root, []);
    forall v ensures v in visits <==> Find(root, v.path) == Some(v.node) {
      WalkFinds(root, v);
    }
    ExtractVisits(root, source, filter, target, before, visits);
    NoneObstructedIff(root, source, filter, target, before);
    forall p
      ensures After(before, source, filter, target, visits, p) == Expected(root, source, filter, target, before, p)
    {
      AfterWalk(root, source, filter, target, before, p);
    }
  }

  lemma NoneObstructedIff(root: Node, source: seq<string>, filter: string -> bool, target: seq<string>,
                          before: FileSystem)
    requires WellFormed(root)
    ensures NoneObstructed(source, filter, target, before, Walk(root, [])) <==>
            Unobstructed(root, source, filter, target, before)
  {
    forall v ensures v in Walk(root, []) <==> Find(root, v.path) == Some(v.node) {
      WalkFinds(root, v);
    }
    if NoneObstructed(source, filter, target, before, Walk(root, [])) {
      forall rel | Find(root, rel).Some? && filter(Seen(source, rel))
        ensures !Obstructed(before, target, Visit(rel, Find(root, rel).value))
      {
        assert Visit(rel, Find(root, rel).value) in Walk(root, []);
      }
    }
  }

  lemma AfterWalk(root: Node, source: seq<string>, filter: string -> bool, target: seq<string>, before: FileSystem,
                  p: seq<string>)
    requires WellFormed(root)
    ensures After(before, source, filter, target, Walk(root, []), p) ==
            Expected(root, source, filter, target, before, p)
  {
    var visits := Walk(root, []);
    forall v ensures v in visits <==> Find(root, v.path) == Some(v.node) {
      WalkFinds(root, v);
    }
    AfterIs(root, before, source, filter, target, visits, p);
    if target <= p && PackedAt(root, source, filter, p[|target|..]).Some? {
      var rel := p[|target|..];
      var v := Visit(rel, Find(root, rel).value);
      assert target + rel == p && v in visits && Hits(source, filter, target, v, p);
    }
  }

  /** An empty target: nothing below it, and no file where it or a parent should be. */
  ghost predicate EmptyTarget(fs: FileSystem, target: seq<string>)
  {
    && (forall p :: p in fs ==> !(target < p))
    && !Blocked(fs, target)
  }

  lemma EmptyIsUnobstructed(root: Node, source: seq<string>, filter: string -> bool, target: seq<string>,
                            before: FileSystem)
    requires root.Directory? && EmptyTarget(before, target)
    ensures Unobstructed(root, source, filter, target, before)
  {
    BlockedIff(before, target);
    forall rel | Find(root, rel).Some? && filter(Seen(source, rel))
      ensures !Obstructed(before, target, Visit(rel, Find(root, rel).value))
    {
      NothingBlocks(before, target, rel);
      if rel != [] {
        LastOfConcat(target, rel);
        NothingBlocks(before, target, rel[..|rel| - 1]);
        assert target < target + rel;
      }
    }
  }

  lemma NothingBlocks(before: FileSystem, target: seq<string>, rel: seq<string>)
    requires EmptyTarget(before, target)
    ensures !Blocked(before, target + rel)
  {
    BlockedIff(before, target);
    BlockedIff(before, target + rel);
    forall p | p in before && p != [] && p <= target + rel ensures !before[p].IsFile? {
      PrefixOfConcat(target, rel, p);
    }
  }

  /** The round trip: into an empty target exactly the regular files that pass the filter come
      back, with their contents and relative paths, even below filtered directories; files
      elsewhere stay as they were. For every clean absolute source path, the root included. */
  lemma RoundTrip(root: Node, source: seq<string>, filter: string -> bool, target: seq<string>, before: FileSystem)
    requires WellFormed(root) && root.Directory? && AllPlain(source) && AllPlain(target)
    requires EmptyTarget(before, target)
    ensures var r := Extracted(before, Absolute(target), Absolute(PREFIX), Packed(source, filter, Walk(root, [])));
      && r.Some?
      && (forall rel :: rel != [] ==> FileAt(r.value, target + rel) == PackedAt(root, source, filter, rel))
      && (forall p :: !(target < p) ==> FileAt(r.value, p) == FileAt(before, p))
  {
    EmptyIsUnobstructed(root, source, filter, target, before);
    ExtractOver(root, source, filter, target, before);
    forall rel | rel != []
      ensures Expected(root, source, filter, target, before, target + rel) == PackedAt(root, source, filter, rel)
    {
      assert target < target + rel;
      ExpectedExactIff(root, source, filter, target, before, rel);
    }
    forall p | !(target < p) ensures Expected(root, source, filter, target, before, p) == FileAt(before, p) {
      ExpectedElsewhere(root, source, filter, target, before, p);
    }
  }

  lemma ExpectedElsewhere(root: Node, source: seq<string>, filter: string -> bool, target: seq<string>,
                          before: FileSystem, p: seq<string>)
    requires root.Directory? && !(target < p)
    ensures Expected(root, source, filter, target, before, p) == FileAt(before, p)
  {
    if target <= p {
      assert p[|target|..] == [];
    }
  }

  /** At which paths the round trip into a target that is not empty is exact: where no file was
      before, or one that is packed and no longer than the packed one. */
  lemma ExactIff(root: Node, source: seq<string>, filter: string -> bool, target: seq<string>, before: FileSystem,
                 rel: seq<string>)
    requires WellFormed(root) && root.Directory? && AllPlain(source) && AllPlain(target)
    requires Unobstructed(root, source, filter, target, before)
    ensures var r := Extracted(before, Absolute(target), Absolute(PREFIX), Packed(source, filter, Walk(root, [])));
      var was, packed := FileAt(before, target + rel), PackedAt(root, source, filter, rel);
      && r.Some?
      && (FileAt(r.value, target + rel) == packed <==>
          was.None? || (packed.Some? && |was.value| <= |packed.value|))
  {
    ExtractOver(root, source, filter, target, before);
    ExpectedExactIff(root, source, filter, target, before, rel);
  }

  lemma ExpectedExactIff(root: Node, source: seq<string>, filter: string -> bool, target: seq<string>,
                         before: FileSystem, rel: seq<string>)
    ensures var was, packed := FileAt(before, target + rel), PackedAt(root, source, filter, rel);
      Expected(root, source, filter, target, before, target + rel) == packed <==>
      was.None? || (packed.Some? && |was.value| <= |packed.value|)
  {
    ExpectedAt(root, source, filter, target, before, rel);
    var packed := PackedAt(root, source, filter, rel);
    if packed.Some? {
      OverExactIff(packed.value, FileAt(before, target + rel));
    }
  }

  /** What the round trip leaves at one path. */
  lemma ExtractedAt(root: Node, source: seq<string>, filter: string -> bool, target: seq<string>, before: FileSystem,
                    rel: seq<string>)
    requires WellFormed(root) && root.Directory? && AllPlain(source) && AllPlain(target)
    requires Unobstructed(root, source, filter, target, before)
    ensures var r := Extracted(before, Absolute(target), Absolute(PREFIX), Packed(source, filter, Walk(root, [])));
      var was, packed := FileAt(before, target + rel), PackedAt(root, source, filter, rel);
      r.Some? && FileAt(r.value, target + rel) == if packed.Some? then Some(Over(packed.value, was)) else was
  {
    ExtractOver(root, source, filter, target, before);
    ExpectedAt(root, source, filter, target, before, rel);
  }

  lemma ExpectedAt(root: Node, source: seq<string>, filter: string -> bool, target: seq<string>, before: FileSystem,
                   rel: seq<string>)
    ensures var was, packed := FileAt(before, target + rel), PackedAt(root, source, filter, rel);
      Expected(root, source, filter, target, before, target + rel) ==
      if packed.Some? then Some(Over(packed.value, was)) else was
  {
    assert (target + rel)[|target|..] == rel;
  }

  /** A target in which a file that is longer than the packed one keeps its last byte. */
  lemma LongerFileKeepsItsEnd()
    returns (root: Node, source: seq<string>, target: seq<string>, before: FileSystem, rel: seq<string>)
    ensures WellFormed(root) && root.Directory? && AllPlain(source) && AllPlain(target)
    ensures PackedAt(root, source, Every, rel) == Some([1])
    ensures var r := Extracted(before, Absolute(target), Absolute(PREFIX), Packed(source, Every, Walk(root, [])));
      r.Some? && FileAt(r.value, target + rel) == Some([1, 9])
  {
    source, target, rel := ["s"], ["t"], ["a"];
    root := Directory([Entry("a", File([1]))]);
    before := map[["t"] := IsDir, ["t", "a"] := IsFile([8, 9])];
    OneFile(root, File([1]));
    OneFileUnobstructed(root, before);
    assert target + rel == ["t", "a"];
    assert Over([1], Some([8, 9])) == [1, 9];
    ExtractedAt(root, source, Every, target, before, rel);
  }

  predicate Every(s: string) { true }

  lemma OneFile(root: Node, file: Node)
    requires root == Directory([Entry("a", file)]) && file.File?
    ensures WellFormed(root) && Find(root, ["a"]) == Some(file)
    ensures forall rel :: Find(root, rel).Some? ==> rel == [] || rel == ["a"]
  {
    assert ["a"][1..] == [] && Child(root.children, "a") == Some(file);
    forall rel | Find(root, rel).Some? && rel != [] ensures rel == ["a"] {
      assert Child(root.children[1..], rel[0]) == None;
      assert rel[0] == "a" && Find(file, rel[1..]).Some?;
      assert rel == [rel[0]] + rel[1..];
    }
  }

  lemma OneFileUnobstructed(root: Node, before: FileSystem)
    requires root == Directory([Entry("a", File([1]))])
    requires before == map[["t"] := IsDir, ["t", "a"] := IsFile([8, 9])]
    ensures Unobstructed(root, ["s"], Every, ["t"], before)
  {
    OneFile(root, File([1]));
    assert ["t"][..0] == [] && !Blocked(before, ["t"]);
    assert ["t"] + [] == ["t"] && ["t"] + ["a"] == ["t", "a"] && ["t", "a"][..1] == ["t"];
    assert !Obstructed(before, ["t"], Visit([], root)) && !Obstructed(before, ["t"], Visit(["a"], File([1])));
  }

  /** What the filter would be asked if every path were relative to the source directory. */
  function PackedRelative(root: Node, filter: string -> bool, rel: seq<string>): (r: Option<seq<int>>)
  {
    var n := Find(root, rel);
    if n.Some? && n.value.File? && filter(Slashed(rel)) then Some(n.value.bytes) else None
  }

  /** The files that come back are those whose relative path passes the filter if and only if
      the filter treats every file's relative path as it treats the path it is asked about;
      below any directory but the root these are the same. */
  lemma RelativeFilterIff(root: Node, source: seq<string>, filter: string -> bool, target: seq<string>,
                          before: FileSystem)
    requires WellFormed(root) && root.Directory? && AllPlain(source) && AllPlain(target)
    requires EmptyTarget(before, target)
    ensures var r := Extracted(before, Absolute(target), Absolute(PREFIX), Packed(source, filter, Walk(root, [])));
      && r.Some?
      && ((forall rel :: rel != [] ==> FileAt(r.value, target + rel) == PackedRelative(root, filter, rel)) <==>
          source != [] || AbsoluteAsRelative(root, filter))
  {
    RoundTrip(root, source, filter, target, before);
    if source == [] {
      AbsoluteAsRelativeIff(root, filter);
    }
  }

  ghost predicate AbsoluteAsRelative(root: Node, filter: string -> bool)
  {
    forall rel :: rel != [] && Find(root, rel).Some? && Find(root, rel).value.File? ==>
      filter(Absolute(rel)) == filter(Slashed(rel))
  }

  lemma AbsoluteAsRelativeIff(root: Node, filter: string -> bool)
    ensures AbsoluteAsRelative(root, filter) <==>
            forall rel :: rel != [] ==> PackedAt(root, [], filter, rel) == PackedRelative(root, filter, rel)
  {
    forall rel | rel != []
      ensures PackedAt(root, [], filter, rel) == PackedRelative(root, filter, rel) <==>
              (Find(root, rel).Some? && Find(root, rel).value.File? ==> filter(Absolute(rel)) == filter(Slashed(rel)))
    {
      assert Seen([], rel) == Absolute(rel);
    }
  }

  /** A filter that leaves "a" out does not leave file a of the root directory out. */
  lemma RootIgnoresFilter() returns (root: Node, filter: string -> bool)
    ensures WellFormed(root) && root.Directory? && !AbsoluteAsRelative(root, filter)
    ensures PackedRelative(root, filter, ["a"]) == None && PackedAt(root, [], filter, ["a"]) == Some([1])
  {
    root := Directory([Entry("a", File([1]))]);
    filter := (s: string) => s != "a";
    var rel := ["a"];
    assert Child(root.children, "a") == Some(File([1])) && rel[1..] == [];
    assert Find(root, rel) == Some(File([1]));
    assert Slashed(rel) == "a" && Absolute(rel)[0] == '/' && Absolute(rel) != "a";
  }
}
