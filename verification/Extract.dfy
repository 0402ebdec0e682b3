/** `extract_tar_xz_with_limit` of `installer.rs`: filling a staging directory from decoded archive entries, with hard
    links put off to the end and turned into copies. */
module Extract {
  import opened Common
  import opened ArchiveTree

  const MAX_ARCHIVE_ENTRIES: nat := 200_000

  // ---- Entries ----

  /** One component of a path: an ordinary name, or one of `.`, `..`, a root and the like. */
  datatype Part = Normal(name: string) | Irregular

  type RawPath = seq<Part>

  datatype Kind =
    | Regular(bytes: string, mode: nat)
    | Directory
    | HardLink(target: Option<RawPath>)
    | Special
    | Unreadable

  datatype Entry = Entry(path: RawPath, kind: Kind)

  function Unsafe(): Failure {
    Failure(Tool, Other("UNSAFE_ARCHIVE"))
  }

  predicate AllNormal(raw: RawPath) {
    forall i :: 0 <= i < |raw| ==> raw[i].Normal?
  }

  function NamesOf(raw: RawPath): (p: Path)
    requires AllNormal(raw)
    ensures |p| == |raw|
  {
    seq(|raw|, i requires 0 <= i < |raw| => raw[i].name)
  }

  /** `strip_archive_root`: what is left of an ordinary path below the archive's root. */
  function StripRoot(raw: RawPath, root: Path): Option<Path> {
    if !AllNormal(raw) then None
    else if root <= NamesOf(raw) then Some(NamesOf(raw)[|root|..]) else None
  }

  datatype Link = Link(output: Path, target: Path)

  /** How far an extraction has come; nothing follows a failure. */
  datatype Progress = Progress(tree: Tree, expanded: nat, links: seq<Link>, failure: Option<Failure>)

  function Begun(): Progress {
    Progress(map[], 0, [], None)
  }

  /** Counting `size` more bytes against the limit, before anything is written. */
  function Charge(st: Progress, size: nat, limit: nat): Progress {
    if st.expanded + size > U64_MAX then st.(failure := Some(Unsafe()))
    else
      st.(expanded := st.expanded + size, failure := if st.expanded + size > limit then Some(Unsafe()) else None)
  }

  /** Writing one regular file: the parents, then a file that must not exist yet. The parents stay when it does. */
  function Create(st: Progress, p: Path, node: Node): Progress
    requires p != []
  {
    match WriteNew(st.tree, p, node)
    case Ok(tree) => st.(tree := tree)
    case Err(e) =>
      var made := MakeDirs(st.tree, Parent(p));
      st.(tree := if made.None? then st.tree else made.value, failure := Some(e))
  }

  function Store(st: Progress, p: Path, node: Node, limit: nat): Progress
    requires p != []
  {
    var charged := Charge(st, NodeSize(node), limit);
    if charged.failure.Some? then charged else Create(charged, p, node)
  }

  /** One entry of the archive; `k` entries came before it. */
  function OneEntry(st: Progress, entry: Entry, k: nat, root: Path, limit: nat): Progress {
    if k + 1 > MAX_ARCHIVE_ENTRIES then st.(failure := Some(Unsafe()))
    else if entry.kind.Unreadable? then st.(failure := Some(Failure(Tool, Other("ARCHIVE_INVALID"))))
    else if entry.kind.Special? then st.(failure := Some(Unsafe()))
    else
      match StripRoot(entry.path, root)
      case None => st.(failure := Some(Unsafe()))
      case Some(p) =>
        if p == [] then st
        else
          match entry.kind
          case HardLink(None) => st.(failure := Some(Unsafe()))
          case HardLink(Some(target)) =>
            (match StripRoot(target, root)
             case None => st.(failure := Some(Unsafe()))
             case Some(q) => st.(links := st.links + [Link(p, q)]))
          case Directory =>
            (match MakeDirs(st.tree, p)
             case None => st.(failure := Some(Failure(Tool, Other("ARCHIVE_WRITE_FAILED"))))
             case Some(u) => st.(tree := u))
          case Regular(bytes, mode) => Store(st, p, File(bytes, mode), limit)
          case _ => st
  }

  function AllEntries(entries: seq<Entry>, n: nat, root: Path, limit: nat): Progress
    requires n <= |entries|
  {
    if n == 0 then Begun()
    else
      var st := AllEntries(entries, n - 1, root, limit);
      if st.failure.Some? then st else OneEntry(st, entries[n - 1], n - 1, root, limit)
  }

  /** Materialising one hard link: the target's size counts again, the target must be a file that exists by now, and the
      output must not exist. `dirSize` is what the file system reports as the size of a directory. */
  function OneLink(st: Progress, link: Link, dirSize: nat, limit: nat): Progress {
    if link.target != [] && link.target !in st.tree then st.(failure := Some(Unsafe()))
    else
      var isDir := IsDir(st.tree, link.target);
      var charged := Charge(st, if isDir then dirSize else NodeSize(st.tree[link.target]), limit);
      if charged.failure.Some? then charged
      else if isDir || link.output == [] || link.output in st.tree then charged.(failure := Some(Unsafe()))
      else Create(charged, link.output, st.tree[link.target])
  }

  function AllLinks(st: Progress, m: nat, dirSize: nat, limit: nat): Progress
    requires m <= |st.links|
  {
    if m == 0 then st
    else
      var before := AllLinks(st, m - 1, dirSize, limit);
      if before.failure.Some? then before else OneLink(before, st.links[m - 1], dirSize, limit)
  }

  /** The archive's root and the limits of an extraction. */
  datatype Config = Config(root: Path, limit: nat, dirSize: nat)

  function Entries(entries: seq<Entry>, c: Config): Progress {
    AllEntries(entries, |entries|, c.root, c.limit)
  }

  function Extracted(entries: seq<Entry>, c: Config): Progress {
    var st := Entries(entries, c);
    if st.failure.Some? then st else AllLinks(st, |st.links|, c.dirSize, c.limit)
  }

  // ---- The code ----

  class Staging {
    var tree: Tree
    var expanded: nat
    var links: seq<Link>

    constructor ()
      ensures tree == map[] && expanded == 0 && links == []
    {
      tree, expanded, links := map[], 0, [];
    }

    function State(failure: Option<Failure>): Progress
      reads this
    {
      Progress(tree, expanded, links, failure)
    }

    method ChargeQuota(size: nat, limit: nat) returns (failure: Option<Failure>)
      modifies this
      ensures State(failure) == Charge(old(State(None)), size, limit)
    {
      if expanded + size > U64_MAX {
        return Some(Unsafe());
      }
      expanded := expanded + size;
      if expanded > limit {
        return Some(Unsafe());
      }
      return None;
    }

    method CreateFile(p: Path, node: Node) returns (failure: Option<Failure>)
      requires p != []
      modifies this
      ensures State(failure) == Create(old(State(None)), p, node)
    {
      var made := MakeDirs(tree, Parent(p));
      if made.None? {
        return Some(Failure(Tool, Other("ARCHIVE_WRITE_FAILED")));
      }
      tree := made.value;
      if p in tree {
        return Some(Failure(Tool, Other("ARCHIVE_DUPLICATE_OR_WRITE_FAILED")));
      }
      tree := tree[p := node];
      return None;
    }

    method ExtractEntry(entry: Entry, count: nat, root: Path, limit: nat) returns (failure: Option<Failure>)
      modifies this
      ensures State(failure) == OneEntry(old(State(None)), entry, count, root, limit)
    {
      if count + 1 > MAX_ARCHIVE_ENTRIES {
        return Some(Unsafe());
      }
      if entry.kind.Unreadable? {
        return Some(Failure(Tool, Other("ARCHIVE_INVALID")));
      }
      if entry.kind.Special? {
        return Some(Unsafe());
      }
      var relative := StripRoot(entry.path, root);
      if relative.None? {
        return Some(Unsafe());
      }
      var output := relative.value;
      if output == [] {
        return None;
      }
      match entry.kind {
        case HardLink(name) =>
          if name.None? {
            return Some(Unsafe());
          }
          var target := StripRoot(name.value, root);
          if target.None? {
            return Some(Unsafe());
          }
          links := links + [Link(output, target.value)];
        case Directory =>
          var made := MakeDirs(tree, output);
          if made.None? {
            return Some(Failure(Tool, Other("ARCHIVE_WRITE_FAILED")));
          }
          tree := made.value;
        case Regular(bytes, mode) =>
          failure := ChargeQuota(|bytes|, limit);
          if failure.Some? {
            return;
          }
          failure := CreateFile(output, File(bytes, mode));
          return;
        case _ =>
      }
      return None;
    }

    method MaterializeHardLink(link: Link, c: Config) returns (failure: Option<Failure>)
      modifies this
      ensures State(failure) == OneLink(old(State(None)), link, c.dirSize, c.limit)
    {
      if link.target != [] && link.target !in tree {
        return Some(Unsafe());
      }
      var isDir := IsDir(tree, link.target);
      failure := ChargeQuota(if isDir then c.dirSize else NodeSize(tree[link.target]), c.limit);
      if failure.Some? {
        return;
      }
      if isDir || link.output == [] || link.output in tree {
        return Some(Unsafe());
      }
      failure := CreateFile(link.output, tree[link.target]);
    }

    method ExtractAll(entries: seq<Entry>, c: Config) returns (failure: Option<Failure>)
      requires tree == map[] && expanded == 0 && links == []
      modifies this
      ensures State(failure) == Extracted(entries, c)
    {
      hide OneEntry;
      hide OneLink;
      for i := 0 to |entries|
        invariant State(None) == AllEntries(entries, i, c.root, c.limit)
      {
        failure := ExtractEntry(entries[i], i, c.root, c.limit);
        if failure.Some? {
          EntriesStop(entries, i + 1, |entries|, c.root, c.limit);
          return;
        }
      }
      ghost var st := State(None);
      for i := 0 to |links|
        invariant links == st.links
        invariant State(None) == AllLinks(st, i, c.dirSize, c.limit)
      {
        LinksKept(st, i + 1, c.dirSize, c.limit);
        failure := MaterializeHardLink(links[i], c);
        if failure.Some? {
          LinksStop(st, i + 1, |st.links|, c.dirSize, c.limit);
          return;
        }
      }
      return None;
    }
  }

  lemma {:induction false} EntriesStop(entries: seq<Entry>, m: nat, n: nat, root: Path, limit: nat)
    requires m <= n <= |entries| && AllEntries(entries, m, root, limit).failure.Some?
    ensures AllEntries(entries, n, root, limit) == AllEntries(entries, m, root, limit)
    decreases n
  {
    if m < n {
      EntriesStop(entries, m, n - 1, root, limit);
    }
  }

  lemma {:induction false} LinksStop(st: Progress, m: nat, n: nat, dirSize: nat, limit: nat)
    requires m <= n <= |st.links| && AllLinks(st, m, dirSize, limit).failure.Some?
    ensures AllLinks(st, n, dirSize, limit) == AllLinks(st, m, dirSize, limit)
    decreases n
  {
    if m < n {
      LinksStop(st, m, n - 1, dirSize, limit);
    }
  }

  lemma {:induction false} LinksKept(st: Progress, m: nat, dirSize: nat, limit: nat)
    requires m <= |st.links|
    ensures AllLinks(st, m, dirSize, limit).links == st.links
    decreases m
  {
    if m > 0 {
      LinksKept(st, m - 1, dirSize, limit);
    }
  }
}
