/** File trees as the installer builds them: creating directories, writing files that must not exist yet, and how many
    bytes a tree holds. */
module ArchiveTree {
  import opened Common

  /** The components of a path relative to the directory being filled; the empty path is that directory. */
  type Path = seq<string>

  /** A foreign entry is a symbolic link or anything else that is neither directory nor file; it leads to the bytes of a
      file or to none. */
  datatype Node = Dir | File(bytes: string, mode: nat) | Foreign(leadsTo: Option<string>)

  type Tree = map<Path, Node>

  function Parent(p: Path): Path
    requires p != []
  {
    p[..|p| - 1]
  }

  predicate IsDir(t: Tree, p: Path) {
    p == [] || (p in t && t[p].Dir?)
  }

  /** The directory being filled is not listed, the parent of whatever is listed is a directory, and there is nothing
      but directories and files. */
  predicate Closed(t: Tree) {
    [] !in t && forall p :: p in t ==> p != [] && IsDir(t, Parent(p)) && !t[p].Foreign?
  }

  /** `b` holds everything `a` holds, unchanged. */
  predicate Grows(a: Tree, b: Tree) {
    forall p :: p in a ==> p in b && b[p] == a[p]
  }

  function NodeSize(node: Node): nat {
    if node.File? then |node.bytes| else 0
  }

  /** The bytes held by all files of a tree. */
  ghost function Total(t: Tree): nat {
    if t == map[] then 0
    else
      var p :| p in t;
      NodeSize(t[p]) + Total(t - {p})
  }

  lemma {:induction false} TotalWithout(t: Tree, q: Path)
    requires q in t
    ensures Total(t) == NodeSize(t[q]) + Total(t - {q})
    decreases |t|
  {
    var p :| p in t && Total(t) == NodeSize(t[p]) + Total(t - {p});
    if p != q {
      TotalWithout(t - {p}, q);
      TotalWithout(t - {q}, p);
      assert (t - {p}) - {q} == (t - {q}) - {p};
    }
  }

  lemma {:induction false} TotalWith(t: Tree, p: Path, node: Node)
    requires p !in t
    ensures Total(t[p := node]) == Total(t) + NodeSize(node)
  {
    var u := t[p := node];
    TotalWithout(u, p);
    assert u - {p} == t;
  }

  /** `create_dir_all`: it fails exactly when a file is in the way. */
  function MakeDirs(t: Tree, p: Path): Option<Tree> {
    if p == [] then Some(t)
    else
      match MakeDirs(t, Parent(p))
      case None => None
      case Some(u) =>
        if p !in u then Some(u[p := Dir]) else if u[p].Dir? then Some(u) else None
  }

  /** A path on the way to `p`, or `p` itself. */
  predicate OnTheWay(q: Path, p: Path) {
    q != [] && q <= p
  }

  lemma {:induction false} ClosedWith(t: Tree, p: Path, node: Node)
    requires Closed(t) && p != [] && p !in t && IsDir(t, Parent(p)) && !node.Foreign?
    ensures Closed(t[p := node]) && Grows(t, t[p := node])
  {
    var u := t[p := node];
    forall q | q in u ensures q != [] && IsDir(u, Parent(q)) && !u[q].Foreign? {
      assert q == p || q in t;
    }
  }

  /** What `MakeDirs` adds: the directories on the way, and no bytes. */
  lemma {:induction false} MakeDirsAdds(t: Tree, p: Path)
    requires Closed(t) && MakeDirs(t, p).Some?
    ensures var u := MakeDirs(t, p).value;
            && Closed(u) && Grows(t, u) && IsDir(u, p) && Total(u) == Total(t)
            && forall q :: q in u && q !in t ==> OnTheWay(q, p) && u[q].Dir?
    decreases |p|
  {
    hide Total;
    if p != [] {
      MakeDirsAdds(t, Parent(p));
      var v := MakeDirs(t, Parent(p)).value;
      if p !in v {
        TotalWith(v, p, Dir);
        ClosedWith(v, p, Dir);
      }
      hide Closed;
    }
  }

  lemma {:induction false} MakeDirsFailsIff(t: Tree, p: Path)
    requires Closed(t)
    ensures MakeDirs(t, p).None? <==> exists q :: q in t && OnTheWay(q, p) && t[q].File?
    decreases |p|
  {
    if p != [] {
      MakeDirsFailsIff(t, Parent(p));
      assert forall q :: OnTheWay(q, p) <==> q == p || OnTheWay(q, Parent(p));
      if MakeDirs(t, Parent(p)).Some? {
        MakeDirsAdds(t, Parent(p));
        assert !OnTheWay(p, Parent(p));
      }
    }
  }

  /** `create_new` in a parent that is created on demand: the tree with the file, or why not. */
  function WriteNew(t: Tree, p: Path, node: Node): Result<Tree>
    requires p != []
  {
    match MakeDirs(t, Parent(p))
    case None => Err(Failure(Tool, Other("ARCHIVE_WRITE_FAILED")))
    case Some(u) =>
      if p in u then Err(Failure(Tool, Other("ARCHIVE_DUPLICATE_OR_WRITE_FAILED"))) else Ok(u[p := node])
  }

  lemma {:induction false} WriteNewAdds(t: Tree, p: Path, node: Node)
    requires Closed(t) && p != [] && node.File? && WriteNew(t, p, node).Ok?
    ensures var u := WriteNew(t, p, node).value;
            && Closed(u) && Grows(t, u) && p !in t && p in u && u[p] == node && Total(u) == Total(t) + NodeSize(node)
            && forall q :: q in u && q !in t && q != p ==> OnTheWay(q, Parent(p)) && u[q].Dir?
  {
    hide Total;
    hide MakeDirs;
    MakeDirsAdds(t, Parent(p));
    var v := MakeDirs(t, Parent(p)).value;
    TotalWith(v, p, node);
    if p !in v {
      ClosedWith(v, p, node);
    }
    hide Closed;
    assert !OnTheWay(p, Parent(p));
  }
}
