/** pkg/sourceimage: a directory is packed into a tar under a fixed prefix and extracted from
    there into another directory. A tar is a sequence of headers with their contents; the
    target file system maps the parts of absolute paths to what is there. */
module SourceImage {
  import opened Common
  import opened Paths

  /** Symbolic links are chased: one to a file is a `File`; one to a directory is not
      descended into and so is a `Directory` without children. */
  datatype Node = File(bytes: seq<int>) | Directory(children: seq<Entry>)

  datatype Entry = Entry(name: string, node: Node)

  datatype Kind = DirKind | RegularKind | OtherKind

  datatype Header = Header(name: string, kind: Kind, bytes: seq<int>)

  /** DefaultSourcePath, "/var/run/kontext" */
  const PREFIX := ["var", "run", "kontext"]

  ghost predicate WellFormed(node: Node)
  {
    node.Directory? ==>
      && (forall i :: 0 <= i < |node.children| ==> Plain(node.children[i].name) && WellFormed(node.children[i].node))
      && (forall i, j :: 0 <= i < j < |node.children| ==> node.children[i].name != node.children[j].name)
  }

  function Child(children: seq<Entry>, name: string): (r: Option<Node>)
    ensures r.Some? ==> Entry(name, r.value) in children
  {
    if children == [] then None
    else if children[0].name == name then Some(children[0].node)
    else Child(children[1..], name)
  }

  lemma {:induction false} NoChild(children: seq<Entry>, name: string)
    requires forall i :: 0 <= i < |children| ==> children[i].name != name
    ensures Child(children, name) == None
  {
    if children != [] {
      NoChild(children[1..], name);
    }
  }

  /** What the tree holds at a relative path. */
  function Find(node: Node, path: seq<string>): (r: Option<Node>)
    decreases |path|
  {
    if path == [] then Some(node)
    else if node.File? then None
    else
      match Child(node.children, path[0])
      case None => None
      case Some(n) => Find(n, path[1..])
  }

  lemma {:induction false} FindPlain(node: Node, path: seq<string>)
    requires WellFormed(node) && Find(node, path).Some?
    ensures AllPlain(path) && WellFormed(Find(node, path).value)
    decreases |path|
  {
    if path != [] {
      var n := Child(node.children, path[0]).value;
      var i :| 0 <= i < |node.children| && node.children[i] == Entry(path[0], n);
      FindPlain(n, path[1..]);
      assert path == [path[0]] + path[1..];
    }
  }

  lemma {:induction false} FindPrefix(node: Node, path: seq<string>, k: nat)
    requires Find(node, path).Some? && k < |path|
    ensures Find(node, path[..k]).Some? && Find(node, path[..k]).value.Directory?
    decreases |path|
  {
    if k > 0 {
      var n := Child(node.children, path[0]).value;
      FindPrefix(n, path[1..], k - 1);
      assert path[..k][0] == path[0] && path[..k][1..] == path[1..][..k - 1];
    }
  }

  /** filepath.Walk: every node in pre-order, whatever the filter says. */
  datatype Visit = Visit(path: seq<string>, node: Node)

  function Walk(node: Node, at: seq<string>): (r: seq<Visit>)
    decreases node
  {
    [Visit(at, node)] + (if node.Directory? then WalkAll(node.children, at) else [])
  }

  function WalkAll(children: seq<Entry>, at: seq<string>): (r: seq<Visit>)
    decreases children
  {
    if children == [] then []
    else Walk(children[0].node, at + [children[0].name]) + WalkAll(children[1..], at)
  }

  /** The walk visits exactly the nodes of the tree, each under its path. */
  lemma {:induction false} WalkVisits(node: Node, at: seq<string>, path: seq<string>, n: Node)
    requires WellFormed(node)
    ensures Visit(at + path, n) in Walk(node, at) <==> Find(node, path) == Some(n)
    decreases node
  {
    if path == [] {
      assert at + path == at;
      if node.Directory? && Visit(at, n) in WalkAll(node.children, at) {
        WalkAllBelow(node.children, at, Visit(at, n));
      }
    } else {
      assert at + path != at by { assert |at + path| != |at|; }
      if node.Directory? {
        WalkAllVisits(node.children, at, path, n);
      }
    }
  }

  lemma {:induction false} WalkBelow(node: Node, at: seq<string>, v: Visit)
    requires v in Walk(node, at)
    ensures at <= v.path
    decreases node
  {
    if node.Directory? && v in WalkAll(node.children, at) {
      WalkAllBelow(node.children, at, v);
    }
  }

  lemma {:induction false} WalkAllBelow(children: seq<Entry>, at: seq<string>, v: Visit)
    requires v in WalkAll(children, at)
    ensures at < v.path
    decreases children
  {
    if v in Walk(children[0].node, at + [children[0].name]) {
      WalkBelow(children[0].node, at + [children[0].name], v);
      assert at < at + [children[0].name] <= v.path;
    } else {
      WalkAllBelow(children[1..], at, v);
    }
  }

  lemma {:induction false} WalkAllVisits(children: seq<Entry>, at: seq<string>, path: seq<string>, n: Node)
    requires path != []
    requires forall i :: 0 <= i < |children| ==> Plain(children[i].name) && WellFormed(children[i].node)
    requires forall i, j :: 0 <= i < j < |children| ==> children[i].name != children[j].name
    ensures Visit(at + path, n) in WalkAll(children, at) <==>
            Child(children, path[0]).Some? && Find(Child(children, path[0]).value, path[1..]) == Some(n)
    decreases children
  {
    if children != [] {
      var c, v := children[0], Visit(at + path, n);
      WalkAllVisits(children[1..], at, path, n);
      if c.name == path[0] {
        assert at + path == (at + [c.name]) + path[1..];
        WalkVisits(c.node, at + [c.name], path[1..], n);
        NoChild(children[1..], path[0]);
      } else {
        assert (at + [c.name])[|at|] == c.name && (at + path)[|at|] == path[0];
        if v in Walk(c.node, at + [c.name]) {
          WalkBelow(c.node, at + [c.name], v);
        }
      }
    }
  }
}
