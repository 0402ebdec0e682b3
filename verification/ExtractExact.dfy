/** Exactly when an archive is extracted, and what is then there, in terms of the names in the archive: its entries
    are given by their names below the archive's root. */
module ExtractExact {
  import opened Common
  import opened ArchiveTree
  import opened Extract
  import opened ExtractResult

  // ---- Archives by their names ----

  /** A file, a directory or a hard link, by the names below the root. */
  datatype Item =
    | AFile(path: Path, bytes: string, mode: nat)
    | ADir(path: Path)
    | ALink(path: Path, target: Path)

  function Plain(names: Path): (raw: RawPath)
    ensures |raw| == |names| && forall i :: 0 <= i < |names| ==> raw[i] == Normal(names[i])
  {
    seq(|names|, i requires 0 <= i < |names| => Normal(names[i]))
  }

  function EntryOf(root: Path, item: Item): Entry {
    match item
    case AFile(p, bytes, mode) => Entry(Plain(root + p), Regular(bytes, mode))
    case ADir(p) => Entry(Plain(root + p), Directory)
    case ALink(p, q) => Entry(Plain(root + p), HardLink(Some(Plain(root + q))))
  }

  function Archive(root: Path, items: seq<Item>): (entries: seq<Entry>)
    ensures |entries| == |items| && forall i :: 0 <= i < |items| ==> entries[i] == EntryOf(root, items[i])
  {
    seq(|items|, i requires 0 <= i < |items| => EntryOf(root, items[i]))
  }

  /** Of a path below the root the root is taken off. */
  lemma {:induction false} StripsRoot(root: Path, p: Path)
    ensures StripRoot(Plain(root + p), root) == Some(p)
  {
    assert NamesOf(Plain(root + p)) == root + p;
    assert (root + p)[|root|..] == p;
  }

  /** Any other path is refused. */
  lemma {:induction false} StripsOnlyRoot(raw: RawPath, root: Path)
    requires StripRoot(raw, root).Some?
    ensures raw == Plain(root + StripRoot(raw, root).value)
  {
    var names := NamesOf(raw);
    assert names == root + names[|root|..];
    assert raw == Plain(names);
  }

  /** The entry is the root itself, or a file, a directory or a link below it whose target is below it too. */
  ghost predicate Admissible(e: Entry, root: Path) {
    && !e.kind.Unreadable? && !e.kind.Special?
    && (e.path == Plain(root) || exists item :: e == EntryOf(root, item))
  }

  /** An entry that does not start with the root or has an irregular part, a link to such a path, or anything that is no
      file, directory or link refuses the archive. */
  lemma {:induction false} OnlyAdmissible(entries: seq<Entry>, c: Config, i: nat)
    requires i < |entries| && !Admissible(entries[i], c.root)
    ensures Extracted(entries, c).failure.Some?
  {
    var st := AllEntries(entries, i, c.root, c.limit);
    assert AllEntries(entries, i + 1, c.root, c.limit).failure.Some? by {
      if st.failure.None? && OneEntry(st, entries[i], i, c.root, c.limit).failure.None? {
        EntryAdmissible(st, entries[i], i, c.root, c.limit);
      }
    }
    EntriesStop(entries, i + 1, |entries|, c.root, c.limit);
  }

  lemma {:induction false} EntryAdmissible(st: Progress, e: Entry, k: nat, root: Path, limit: nat)
    requires st.failure.None? && OneEntry(st, e, k, root, limit).failure.None?
    ensures Admissible(e, root)
  {
    hide MakeDirs;
    hide Store;
    StripsOnlyRoot(e.path, root);
    var p := StripRoot(e.path, root).value;
    if p == [] {
      assert root + p == root;
    } else {
      match e.kind {
        case Regular(bytes, mode) => assert e == EntryOf(root, AFile(p, bytes, mode));
        case Directory => assert e == EntryOf(root, ADir(p));
        case HardLink(target) =>
          StripsOnlyRoot(target.value, root);
          assert e == EntryOf(root, ALink(p, StripRoot(target.value, root).value));
      }
    }
  }

  // ---- What files and directories occupy ----

  predicate Written(item: Item) {
    item.AFile? && item.path != []
  }

  /** A file lies where the other needs a directory or itself. */
  predicate Clash(a: Item, b: Item) {
    Written(a) && !b.ALink? && a.path <= b.path
  }

  predicate NoClash(f: seq<Item>) {
    forall i, j :: 0 <= i < |f| && 0 <= j < |f| && i != j ==> !Clash(f[i], f[j])
  }

  function Size(f: seq<Item>): nat {
    if f == [] then 0 else Size(f[..|f| - 1]) + if Written(f[|f| - 1]) then |f[|f| - 1].bytes| else 0
  }

  predicate FileAt(f: seq<Item>, p: Path, node: Node) {
    exists i :: 0 <= i < |f| && Written(f[i]) && f[i].path == p && node == File(f[i].bytes, f[i].mode)
  }

  predicate NeedsDir(item: Item, p: Path) {
    p != [] && ((item.ADir? && p <= item.path) || (Written(item) && p <= Parent(item.path)))
  }

  predicate DirAt(f: seq<Item>, p: Path) {
    exists i :: 0 <= i < |f| && NeedsDir(f[i], p)
  }

  /** The path holds a file exactly if there is one of that name, with its bytes and mode, and a directory exactly if
      one is needed there. */
  ghost predicate ShowsAt(f: seq<Item>, t: Tree, p: Path) {
    && (p in t && t[p].Dir? <==> DirAt(f, p))
    && (p in t && t[p].File? ==> FileAt(f, p, t[p]))
    && (forall node :: FileAt(f, p, node) ==> p in t && t[p] == node)
  }

  ghost predicate Shows(f: seq<Item>, t: Tree) {
    forall p :: ShowsAt(f, t, p)
  }

  /** The file or directory is put into the tree. */
  function Put(st: Progress, item: Item, limit: nat): Progress
    requires !item.ALink?
  {
    if item.path == [] then st
    else
      match item
      case AFile(p, bytes, mode) => Store(st, p, File(bytes, mode), limit)
      case ADir(p) =>
        match MakeDirs(st.tree, p)
        case None => st.(failure := Some(Failure(Tool, Other("ARCHIVE_WRITE_FAILED"))))
        case Some(u) => st.(tree := u)
  }

  lemma {:induction false} EntryPuts(st: Progress, item: Item, k: nat, root: Path, limit: nat)
    ensures k < MAX_ARCHIVE_ENTRIES && !item.ALink? ==>
      OneEntry(st, EntryOf(root, item), k, root, limit) == Put(st, item, limit)
    ensures k < MAX_ARCHIVE_ENTRIES && item.ALink? ==>
      OneEntry(st, EntryOf(root, item), k, root, limit) ==
      if item.path == [] then st else st.(links := st.links + [Link(item.path, item.target)])
    ensures k >= MAX_ARCHIVE_ENTRIES ==> OneEntry(st, EntryOf(root, item), k, root, limit).failure.Some?
  {
    hide MakeDirs;
    hide Store;
    StripsRoot(root, item.path);
    if item.ALink? {
      StripsRoot(root, item.target);
    }
  }

  lemma {:induction false} SizeOne(f: seq<Item>, item: Item)
    ensures Size(f + [item]) == Size(f) + if Written(item) then |item.bytes| else 0
  {
    assert (f + [item])[..|f|] == f;
  }

  lemma {:induction false} FileAtOne(f: seq<Item>, item: Item, p: Path, node: Node)
    ensures FileAt(f + [item], p, node) <==>
            FileAt(f, p, node) || (Written(item) && item.path == p && node == File(item.bytes, item.mode))
  {
    var g := f + [item];
    assert g[|f|] == item;
    if i :| 0 <= i < |f| && Written(f[i]) && f[i].path == p && node == File(f[i].bytes, f[i].mode) {
      assert g[i] == f[i];
    }
  }

  lemma {:induction false} DirAtOne(f: seq<Item>, item: Item, p: Path)
    ensures DirAt(f + [item], p) <==> DirAt(f, p) || NeedsDir(item, p)
  {
    var g := f + [item];
    assert g[|f|] == item;
    if i :| 0 <= i < |f| && NeedsDir(f[i], p) {
      assert g[i] == f[i];
    }
  }

  predicate ClashesWith(f: seq<Item>, item: Item) {
    exists i :: 0 <= i < |f| && (Clash(f[i], item) || Clash(item, f[i]))
  }

  lemma {:induction false} NoClashOne(f: seq<Item>, item: Item)
    ensures NoClash(f + [item]) <==> NoClash(f) && !ClashesWith(f, item)
  {
    var g := f + [item];
    assert g[|f|] == item && forall i :: 0 <= i < |f| ==> g[i] == f[i];
  }

  /** Something is in the way of directories down to `p` exactly if a file of the archive is. */
  lemma {:induction false} WayBlockedIff(f: seq<Item>, t: Tree, p: Path)
    requires Closed(t) && Shows(f, t)
    ensures MakeDirs(t, p).None? <==> exists i :: 0 <= i < |f| && Written(f[i]) && f[i].path <= p
  {
    MakeDirsFailsIff(t, p);
    if q :| q in t && OnTheWay(q, p) && t[q].File? {
      assert ShowsAt(f, t, q);
    }
    if i :| 0 <= i < |f| && Written(f[i]) && f[i].path <= p {
      assert ShowsAt(f, t, f[i].path) && FileAt(f, f[i].path, File(f[i].bytes, f[i].mode));
      assert OnTheWay(f[i].path, p);
    }
  }

  /** The path is taken exactly if the archive has a file there or needs a directory. */
  lemma {:induction false} TakenIff(f: seq<Item>, t: Tree, p: Path)
    requires Shows(f, t) && Closed(t)
    ensures p in t <==> DirAt(f, p) || exists i :: 0 <= i < |f| && Written(f[i]) && f[i].path == p
  {
    assert ShowsAt(f, t, p);
    if i :| 0 <= i < |f| && Written(f[i]) && f[i].path == p {
      assert FileAt(f, p, File(f[i].bytes, f[i].mode));
    }
  }

  lemma {:induction false} ParentPrefix(p: Path, q: Path)
    requires p != [] && q != []
    ensures q <= p <==> q == p || q <= Parent(p)
  {}

  /** A file can be put exactly if it clashes with nothing. */
  lemma {:induction false} FreeIff(f: seq<Item>, t: Tree, item: Item)
    requires Closed(t) && Shows(f, t) && item.path != [] && !item.ALink?
    ensures item.AFile? ==> (WriteNew(t, item.path, File(item.bytes, item.mode)).Ok? <==> !ClashesWith(f, item))
    ensures item.ADir? ==> (MakeDirs(t, item.path).Some? <==> !ClashesWith(f, item))
  {
    var p := item.path;
    WayBlockedIff(f, t, p);
    WayBlockedIff(f, t, Parent(p));
    TakenIff(f, t, p);
    forall i | 0 <= i < |f| && Written(f[i]) ensures f[i].path <= p <==> f[i].path == p || f[i].path <= Parent(p) {
      ParentPrefix(p, f[i].path);
    }
    if item.AFile? {
      forall i | 0 <= i < |f|
        ensures Clash(item, f[i]) <==> NeedsDir(f[i], p) || (Written(f[i]) && f[i].path == p)
      {
        if Written(f[i]) {
          ParentPrefix(f[i].path, p);
        }
      }
      if MakeDirs(t, Parent(p)).Some? {
        MakeDirsAdds(t, Parent(p));
        assert !OnTheWay(p, Parent(p));
      }
    }
  }

  /** What a file or directory that is put changes is what it shows. */
  lemma {:induction false} PutShows(f: seq<Item>, st: Progress, item: Item, limit: nat)
    requires Within(st, limit) && st.failure.None? && Shows(f, st.tree) && !item.ALink?
    requires Put(st, item, limit).failure.None?
    ensures Shows(f + [item], Put(st, item, limit).tree)
  {
    hide Total;
    var t, u := st.tree, Put(st, item, limit).tree;
    var p := item.path;
    if p == [] {
      NothingPut(f, t, item);
    } else if item.AFile? {
      WriteNewAdds(t, p, File(item.bytes, item.mode));
      AddedShows(f, t, u, item);
    } else {
      MakeDirsAdds(t, p);
      AddedShows(f, t, u, item);
    }
  }

  lemma {:induction false} NothingPut(f: seq<Item>, t: Tree, item: Item)
    requires Shows(f, t) && item.path == [] && !item.ALink?
    ensures Shows(f + [item], t)
  {
    forall p ensures ShowsAt(f + [item], t, p) {
      assert ShowsAt(f, t, p);
      DirAtOne(f, item, p);
      forall node ensures FileAt(f + [item], p, node) <==> FileAt(f, p, node) {
        FileAtOne(f, item, p, node);
      }
    }
  }

  /** `u` is `t` with the item and the directories that it needs. */
  lemma {:induction false} AddedShows(f: seq<Item>, t: Tree, u: Tree, item: Item)
    requires Shows(f, t) && Closed(u) && Grows(t, u) && item.path != [] && !item.ALink?
    requires item.AFile? ==> item.path !in t && item.path in u && u[item.path] == File(item.bytes, item.mode)
    requires forall q :: q in u && q !in t && !(item.AFile? && q == item.path) ==> NeedsDir(item, q) && u[q].Dir?
    requires IsDir(u, if item.AFile? then Parent(item.path) else item.path)
    ensures Shows(f + [item], u)
  {
    forall q ensures ShowsAt(f + [item], u, q) {
      assert ShowsAt(f, t, q);
      DirAtOne(f, item, q);
      forall node ensures FileAt(f + [item], q, node) <==>
                          FileAt(f, q, node)
                           || (Written(item) && item.path == q && node == File(item.bytes, item.mode)) {
        FileAtOne(f, item, q, node);
      }
      if NeedsDir(item, q) {
        WayThere(u, if item.AFile? then Parent(item.path) else item.path, q);
      }
    }
  }

  /** The way to a directory consists of directories. */
  lemma {:induction false} WayThere(t: Tree, p: Path, q: Path)
    requires Closed(t) && IsDir(t, p) && q != [] && q <= p
    ensures q in t && t[q].Dir?
    decreases |p|
  {
    if q != p {
      assert q <= Parent(p);
      WayThere(t, Parent(p), q);
    }
  }

  function Limit(limit: nat): nat {
    Min(limit, U64_MAX)
  }

  /** Within the tree of files without a clash, the next item can be put exactly if it clashes with none and fits. */
  lemma {:induction false} PutIff(f: seq<Item>, st: Progress, item: Item, limit: nat)
    requires Within(st, limit) && st.failure.None? && Shows(f, st.tree) && !item.ALink?
    requires NoClash(f) && st.expanded == Size(f) <= Limit(limit)
    ensures Put(st, item, limit).failure.None? <==> NoClash(f + [item]) && Size(f + [item]) <= Limit(limit)
    ensures Put(st, item, limit).failure.None? ==> Put(st, item, limit).expanded == Size(f + [item])
    ensures Put(st, item, limit).links == st.links
  {
    hide Total;
    hide MakeDirs;
    SizeOne(f, item);
    NoClashOne(f, item);
    if item.path == [] {
      RootClashesNot(f, item);
    } else {
      FreeIff(f, st.tree, item);
    }
    hide ClashesWith;
    hide NoClash;
    hide Size;
  }

  lemma {:induction false} RootClashesNot(f: seq<Item>, item: Item)
    requires item.path == [] && !item.ALink?
    ensures !ClashesWith(f, item)
  {}

  // ---- The entries ----

  function SolidOf(item: Item): seq<Item> {
    if item.ALink? then [] else [item]
  }

  function LinksOfItem(item: Item): seq<Link> {
    if item.ALink? && item.path != [] then [Link(item.path, item.target)] else []
  }

  function Solid(items: seq<Item>): seq<Item> {
    if items == [] then []
    else
      var last := items[|items| - 1];
      Solid(items[..|items| - 1]) + SolidOf(last)
  }

  function LinksIn(items: seq<Item>): seq<Link> {
    if items == [] then []
    else
      var last := items[|items| - 1];
      LinksIn(items[..|items| - 1]) + LinksOfItem(last)
  }

  /** The files and directories among the first items are all there. */
  ghost predicate Standing(f: seq<Item>, st: Progress, limit: nat) {
    Within(st, limit) && st.failure.None? && Shows(f, st.tree) && NoClash(f) && st.expanded == Size(f) <= Limit(limit)
  }

  lemma {:induction false} PartOf(f: seq<Item>, g: seq<Item>)
    requires f <= g
    ensures NoClash(g) ==> NoClash(f)
    ensures Size(f) <= Size(g)
    decreases |g|
  {
    if |f| < |g| {
      PartOf(f, g[..|g| - 1]);
    } else {
      assert f == g;
    }
    if NoClash(g) {
      forall i, j | 0 <= i < |f| && 0 <= j < |f| && i != j ensures !Clash(f[i], f[j]) {
        assert f[i] == g[i] && f[j] == g[j];
      }
    }
  }

  lemma StandingFits(f: seq<Item>, st: Progress, limit: nat)
    requires Standing(f, st, limit)
    ensures st.failure.None? && NoClash(f) && Size(f) <= Limit(limit)
  {}

  lemma {:induction false} EntryStep(f: seq<Item>, st: Progress, item: Item, k: nat, root: Path, limit: nat)
    requires Standing(f, st, limit) && k < MAX_ARCHIVE_ENTRIES
    ensures var end := OneEntry(st, EntryOf(root, item), k, root, limit);
            var g := f + SolidOf(item);
            && (end.failure.None? <==> NoClash(g) && Size(g) <= Limit(limit))
            && (end.failure.None? ==> Standing(g, end, limit) && end.links == st.links + LinksOfItem(item))
  {
    hide OneEntry;
    hide Put;
    hide Shows;
    hide NoClash;
    hide Size;
    EntryPuts(st, item, k, root, limit);
    OneEntryWithin(st, EntryOf(root, item), k, root, limit);
    hide Within;
    if item.ALink? {
      AppendEmpty(f);
      AppendEmpty(st.links);
    } else {
      PutStep(f, st, item, limit);
      AppendEmpty(st.links);
    }
  }

  lemma {:induction false} PutStep(f: seq<Item>, st: Progress, item: Item, limit: nat)
    requires Standing(f, st, limit) && !item.ALink?
    ensures var end := Put(st, item, limit);
            && (end.failure.None? <==> NoClash(f + [item]) && Size(f + [item]) <= Limit(limit))
            && (end.failure.None? ==> Shows(f + [item], end.tree) && end.expanded == Size(f + [item]))
            && end.links == st.links
  {
    hide Put;
    hide Shows;
    hide NoClash;
    hide Size;
    PutIff(f, st, item, limit);
    if Put(st, item, limit).failure.None? {
      PutShows(f, st, item, limit);
    }
  }

  lemma {:induction false} EntriesIff(root: Path, items: seq<Item>, n: nat, limit: nat)
    requires n <= |items|
    ensures var st := AllEntries(Archive(root, items), n, root, limit);
            var f := Solid(items[..n]);
            && (st.failure.None? <==> n <= MAX_ARCHIVE_ENTRIES && NoClash(f) && Size(f) <= Limit(limit))
            && (st.failure.None? ==> Standing(f, st, limit) && st.links == LinksIn(items[..n]))
    decreases n
  {
    hide EntryOf;
    hide Archive;
    hide SolidOf;
    hide LinksOfItem;
    hide OneEntry;
    hide NoClash;
    hide Size;
    if n == 0 {
      assert items[..n] == [];
      EntriesWithin(Archive(root, items), 0, root, limit);
      NothingShown();
    } else {
      hide Standing;
      var f, item := Solid(items[..n - 1]), items[n - 1];
      var st := AllEntries(Archive(root, items), n - 1, root, limit);
      assert items[..n][..n - 1] == items[..n - 1];
      EntriesIff(root, items, n - 1, limit);
      PartOf(f, f + SolidOf(item));
      if st.failure.None? {
        StandingFits(f, st, limit);
        if n <= MAX_ARCHIVE_ENTRIES {
          EntryStep(f, st, item, n - 1, root, limit);
        } else {
          EntryPuts(st, item, n - 1, root, limit);
        }
      }
    }
  }

  lemma {:induction false} NothingShown()
    ensures Shows([], map[]) && NoClash([]) && Size([]) == 0 && Solid([]) == [] && LinksIn([]) == []
  {}

  // ---- The links ----

  /** The file of this name, if there is one. */
  function Find(f: seq<Item>, p: Path): (found: Option<Item>)
    ensures found.Some? ==> Written(found.value) && found.value.path == p
  {
    if f == [] then None
    else if Written(f[|f| - 1]) && f[|f| - 1].path == p then Some(f[|f| - 1])
    else Find(f[..|f| - 1], p)
  }

  lemma {:induction false} FindIff(f: seq<Item>, p: Path)
    ensures Find(f, p).Some? ==> Written(Find(f, p).value)
                                 && FileAt(f, p, File(Find(f, p).value.bytes, Find(f, p).value.mode))
    ensures Find(f, p).None? ==> forall node :: !FileAt(f, p, node)
  {
    if f != [] {
      var n := |f| - 1;
      FindIff(f[..n], p);
      assert f == f[..n] + [f[n]];
      if Find(f, p).None? {
        forall node ensures !FileAt(f, p, node) {
          FileAtOne(f[..n], f[n], p, node);
        }
      } else {
        FileAtOne(f[..n], f[n], p, File(Find(f, p).value.bytes, Find(f, p).value.mode));
      }
    }
  }

  /** The items with the first `m` links resolved: each becomes a file of its own with what its target holds, which is a
      file of the archive or an earlier link. */
  function Resolved(f: seq<Item>, links: seq<Link>, m: nat): Option<seq<Item>>
    requires m <= |links|
  {
    if m == 0 then Some(f)
    else
      match Resolved(f, links, m - 1)
      case None => None
      case Some(g) =>
        match Find(g, links[m - 1].target)
        case None => None
        case Some(file) => Some(g + [AsFile(links[m - 1], file)])
  }

  /** Materialising a link is putting a file with what the target holds. */
  lemma {:induction false} LinkPuts(g: seq<Item>, st: Progress, link: Link, dirSize: nat, limit: nat)
    requires Standing(g, st, limit) && link.output != []
    ensures Find(g, link.target).None? ==> OneLink(st, link, dirSize, limit).failure.Some?
    ensures Find(g, link.target).Some? ==>
      var file := Find(g, link.target).value;
      var put := Put(st, AsFile(link, file), limit);
      (OneLink(st, link, dirSize, limit).failure.None? <==> put.failure.None?)
      && (put.failure.None? ==> OneLink(st, link, dirSize, limit) == put)
  {
    FindIff(g, link.target);
    assert ShowsAt(g, st.tree, link.target);
    hide FileAt;
    hide DirAt;
    hide Total;
    hide MakeDirs;
    hide Find;
    if Find(g, link.target).Some? && link.output in st.tree && MakeDirs(st.tree, Parent(link.output)).Some? {
      MakeDirsAdds(st.tree, Parent(link.output));
    }
  }

  /** The link as the file that it becomes. */
  function AsFile(link: Link, file: Item): Item
    requires file.AFile?
  {
    AFile(link.output, file.bytes, file.mode)
  }

  lemma {:induction false} LinkStep(g: seq<Item>, st: Progress, link: Link, dirSize: nat, limit: nat)
    requires Standing(g, st, limit) && link.output != []
    ensures var end, file := OneLink(st, link, dirSize, limit), Find(g, link.target);
            && (file.None? ==> end.failure.Some?)
            && (file.Some? ==>
                  var h := g + [AsFile(link, file.value)];
                  && (end.failure.None? <==> NoClash(h) && Size(h) <= Limit(limit))
                  && (end.failure.None? ==> Standing(h, end, limit)))
  {
    hide OneLink;
    hide Put;
    hide Shows;
    hide NoClash;
    hide Size;
    LinkPuts(g, st, link, dirSize, limit);
    OneLinkWithin(st, link, dirSize, limit);
    if Find(g, link.target).Some? {
      var item := AsFile(link, Find(g, link.target).value);
      PutIff(g, st, item, limit);
      if Put(st, item, limit).failure.None? {
        PutShows(g, st, item, limit);
      }
    }
    hide Within;
  }

  lemma {:induction false} LinksIff(f: seq<Item>, st: Progress, m: nat, dirSize: nat, limit: nat)
    requires m <= |st.links| && Standing(f, st, limit) && forall k :: 0 <= k < |st.links| ==> st.links[k].output != []
    ensures var end := AllLinks(st, m, dirSize, limit);
            var g := Resolved(f, st.links, m);
            && (end.failure.None? <==> g.Some? && NoClash(g.value) && Size(g.value) <= Limit(limit))
            && (end.failure.None? ==> Standing(g.value, end, limit))
    decreases m
  {
    hide Standing;
    hide NoClash;
    hide Size;
    hide OneLink;
    hide Find;
    if m == 0 {
      StandingFits(f, st, limit);
    } else {
      LinksIff(f, st, m - 1, dirSize, limit);
      var before := AllLinks(st, m - 1, dirSize, limit);
      var g, link := Resolved(f, st.links, m - 1), st.links[m - 1];
      if before.failure.None? {
        StandingFits(g.value, before, limit);
        LinkStep(g.value, before, link, dirSize, limit);
      } else if g.Some? && Find(g.value, link.target).Some? {
        PartOf(g.value, g.value + [AsFile(link, Find(g.value, link.target).value)]);
      }
    }
  }

  lemma {:induction false} OutputsNamed(items: seq<Item>)
    ensures forall k :: 0 <= k < |LinksIn(items)| ==> LinksIn(items)[k].output != []
  {
    if items != [] {
      OutputsNamed(items[..|items| - 1]);
    }
  }

  // ---- The whole archive ----

  /** What the archive holds in the end: its files and directories, and every link as a file. */
  function Contained(items: seq<Item>): Option<seq<Item>> {
    Resolved(Solid(items), LinksIn(items), |LinksIn(items)|)
  }

  /** An archive is extracted exactly if it has at most 200,000 entries, every link names a file of it or an earlier
      link, no two files have one name, none lies where a directory is needed, and all files, links included, fit into
      the limit. Then every file is at its name below the root with its bytes and mode, every link is a file with what
      its target holds, directories are where they are asked for or needed, and there is nothing else. */
  lemma {:induction false} ExtractsIff(items: seq<Item>, c: Config)
    ensures var end := Extracted(Archive(c.root, items), c);
            var all := Contained(items);
            && (end.failure.None? <==> |items| <= 200_000 && all.Some? && NoClash(all.value)
                                       && Size(all.value) <= Limit(c.limit))
            && (end.failure.None? ==> Shows(all.value, end.tree))
  {
    var n := |items|;
    var st := AllEntries(Archive(c.root, items), n, c.root, c.limit);
    assert items[..n] == items;
    EntriesIff(c.root, items, n, c.limit);
    OutputsNamed(items);
    var links := LinksIn(items);
    if st.failure.None? {
      LinksIff(Solid(items), st, |links|, c.dirSize, c.limit);
    } else if Contained(items).Some? {
      ResolvedGrows(Solid(items), links, |links|);
      PartOf(Solid(items), Contained(items).value);
    }
    hide Shows;
    hide Resolved;
    hide NoClash;
    hide Size;
    hide AllEntries;
    hide AllLinks;
  }

  lemma {:induction false} ResolvedGrows(f: seq<Item>, links: seq<Link>, m: nat)
    requires m <= |links| && Resolved(f, links, m).Some?
    ensures f <= Resolved(f, links, m).value
    decreases m
  {
    if m > 0 {
      ResolvedGrows(f, links, m - 1);
    }
  }

  /** Spelled out for one file: it lies at its own name, without the root's. */
  lemma {:induction false} FileLands(items: seq<Item>, c: Config, i: nat)
    requires Extracted(Archive(c.root, items), c).failure.None? && i < |items| && Written(items[i])
    ensures var t := Extracted(Archive(c.root, items), c).tree;
            items[i].path in t && t[items[i].path] == File(items[i].bytes, items[i].mode)
  {
    ExtractsIff(items, c);
    SolidHas(items, i);
    ResolvedGrows(Solid(items), LinksIn(items), |LinksIn(items)|);
    var t, all := Extracted(Archive(c.root, items), c).tree, Contained(items).value;
    assert items[i] in all;
    hide Extracted;
    hide Contained;
    assert ShowsAt(all, t, items[i].path);
    assert FileAt(all, items[i].path, File(items[i].bytes, items[i].mode));
  }

  lemma {:induction false} SolidHas(items: seq<Item>, i: nat)
    requires i < |items| && !items[i].ALink?
    ensures items[i] in Solid(items)
    decreases |items|
  {
    if i < |items| - 1 {
      SolidHas(items[..|items| - 1], i);
    }
  }
}
