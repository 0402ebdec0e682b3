/** What an extraction leaves behind: never more bytes than the limit at any moment, no path written twice, and on
    success exactly the archive, with every hard link a file of its own. */
module ExtractResult {
  import opened Common
  import opened ArchiveTree
  import opened Extract

  /** The path an entry asks for below the archive's root; empty when it asks for none. */
  function PathOf(e: Entry, root: Path): Path {
    match StripRoot(e.path, root)
    case None => []
    case Some(p) => p
  }

  predicate Writes(e: Entry, root: Path) {
    e.kind.Regular? && PathOf(e, root) != []
  }

  function FileOf(e: Entry): Node
    requires e.kind.Regular?
  {
    File(e.kind.bytes, e.kind.mode)
  }

  // ---- The quota ----

  /** The tree is well formed and within the limit; as long as nothing has failed, what has been charged is what is
      there. */
  ghost predicate Within(st: Progress, limit: nat) {
    && Closed(st.tree) && Total(st.tree) <= limit && Total(st.tree) <= st.expanded
    && (st.failure.None? ==> Total(st.tree) == st.expanded)
  }

  lemma {:induction false} CreateWithin(st: Progress, p: Path, node: Node, limit: nat)
    requires Closed(st.tree) && p != [] && node.File? && st.failure.None?
    requires Total(st.tree) + NodeSize(node) == st.expanded <= limit
    ensures Within(Create(st, p, node), limit) && Grows(st.tree, Create(st, p, node).tree)
  {
    hide Total;
    hide MakeDirs;
    if WriteNew(st.tree, p, node).Ok? {
      WriteNewAdds(st.tree, p, node);
    } else if MakeDirs(st.tree, Parent(p)).Some? {
      MakeDirsAdds(st.tree, Parent(p));
    }
  }

  /** While `j` bytes of the next file have been copied the staging directory holds at most the limit. */
  lemma CopyWithin(st: Progress, size: nat, limit: nat, j: nat)
    requires Within(st, limit) && st.failure.None? && Charge(st, size, limit).failure.None? && j <= size
    ensures Total(st.tree) + j <= limit
  {}

  lemma {:induction false} OneEntryWithin(st: Progress, e: Entry, k: nat, root: Path, limit: nat)
    requires Within(st, limit) && st.failure.None?
    ensures Within(OneEntry(st, e, k, root, limit), limit) && Grows(st.tree, OneEntry(st, e, k, root, limit).tree)
  {
    hide Total;
    hide MakeDirs;
    hide Create;
    var p := PathOf(e, root);
    if p != [] {
      if e.kind.Regular? {
        var charged := Charge(st, NodeSize(FileOf(e)), limit);
        if charged.failure.None? {
          CreateWithin(charged, p, FileOf(e), limit);
        }
      } else if e.kind.Directory? && MakeDirs(st.tree, p).Some? {
        MakeDirsAdds(st.tree, p);
      }
    }
  }

  lemma {:induction false} OneLinkWithin(st: Progress, link: Link, dirSize: nat, limit: nat)
    requires Within(st, limit) && st.failure.None?
    ensures Within(OneLink(st, link, dirSize, limit), limit)
    ensures Grows(st.tree, OneLink(st, link, dirSize, limit).tree)
  {
    hide Total;
    hide Create;
    if link.target in st.tree && st.tree[link.target].File? && link.output != [] {
      var charged := Charge(st, NodeSize(st.tree[link.target]), limit);
      if charged.failure.None? {
        CreateWithin(charged, link.output, st.tree[link.target], limit);
      }
    }
  }

  /** After any number of entries, failed or not, the staging directory is within the limit. */
  lemma {:induction false} EntriesWithin(entries: seq<Entry>, n: nat, root: Path, limit: nat)
    requires n <= |entries|
    ensures Within(AllEntries(entries, n, root, limit), limit)
    decreases n
  {
    if n > 0 {
      EntriesWithin(entries, n - 1, root, limit);
      var st := AllEntries(entries, n - 1, root, limit);
      if st.failure.None? {
        OneEntryWithin(st, entries[n - 1], n - 1, root, limit);
      }
    }
  }

  /** So it is after any number of hard links, and nothing that was there is changed. */
  lemma {:induction false} LinksWithin(st: Progress, m: nat, dirSize: nat, limit: nat)
    requires m <= |st.links| && Within(st, limit) && st.failure.None?
    ensures Within(AllLinks(st, m, dirSize, limit), limit) && Grows(st.tree, AllLinks(st, m, dirSize, limit).tree)
    decreases m
  {
    if m > 0 {
      LinksWithin(st, m - 1, dirSize, limit);
      var before := AllLinks(st, m - 1, dirSize, limit);
      if before.failure.None? {
        OneLinkWithin(before, st.links[m - 1], dirSize, limit);
      }
    }
  }

  // ---- The entries ----

  /** The hard links among the first `n` entries, in order. */
  function LinksOf(entries: seq<Entry>, n: nat, root: Path): seq<Link>
    requires n <= |entries|
  {
    if n == 0 then []
    else
      var e := entries[n - 1];
      var before := LinksOf(entries, n - 1, root);
      if e.kind.HardLink? && PathOf(e, root) != [] && e.kind.target.Some? then
        match StripRoot(e.kind.target.value, root)
        case None => before
        case Some(q) => before + [Link(PathOf(e, root), q)]
      else before
  }

  /** Every regular entry is a file with its bytes and mode, and every directory entry is a directory. */
  predicate Holds(t: Tree, e: Entry, root: Path) {
    && (Writes(e, root) ==> PathOf(e, root) in t && t[PathOf(e, root)] == FileOf(e))
    && (e.kind.Directory? ==> IsDir(t, PathOf(e, root)))
  }

  /** What is there was asked for: a file by an entry of its own, a directory by an entry at or below it. */
  predicate AskedFor(entries: seq<Entry>, n: nat, root: Path, p: Path, node: Node)
    requires n <= |entries|
  {
    if node.File? then exists i :: 0 <= i < n && Writes(entries[i], root) && PathOf(entries[i], root) == p
    else exists i :: 0 <= i < n && OnTheWay(p, PathOf(entries[i], root))
  }

  predicate AllHold(entries: seq<Entry>, n: nat, root: Path, t: Tree)
    requires n <= |entries|
  {
    forall i :: 0 <= i < n ==> Holds(t, entries[i], root)
  }

  predicate WrittenOnce(entries: seq<Entry>, n: nat, root: Path)
    requires n <= |entries|
  {
    forall i, j :: 0 <= i < j < n && Writes(entries[i], root) && Writes(entries[j], root) ==>
      PathOf(entries[i], root) != PathOf(entries[j], root)
  }

  predicate AllAskedFor(entries: seq<Entry>, n: nat, root: Path, t: Tree)
    requires n <= |entries|
  {
    forall p :: p in t ==> AskedFor(entries, n, root, p, t[p])
  }

  predicate Faithful(entries: seq<Entry>, n: nat, root: Path, st: Progress)
    requires n <= |entries|
  {
    && AllHold(entries, n, root, st.tree) && WrittenOnce(entries, n, root) && AllAskedFor(entries, n, root, st.tree)
    && st.links == LinksOf(entries, n, root)
  }

  /** What is new in `b` was asked for by the entry, and its file was not there before. */
  predicate Adds(a: Tree, b: Tree, e: Entry, root: Path) {
    && (Writes(e, root) ==> PathOf(e, root) !in a)
    && forall p :: p in b && p !in a ==>
         if b[p].File? then Writes(e, root) && PathOf(e, root) == p else OnTheWay(p, PathOf(e, root))
  }

  /** What one entry adds to the tree when it succeeds. */
  lemma {:induction false} OneEntryAdds(st: Progress, e: Entry, k: nat, root: Path, limit: nat)
    requires Within(st, limit) && st.failure.None? && OneEntry(st, e, k, root, limit).failure.None?
    ensures var t := OneEntry(st, e, k, root, limit).tree;
            Grows(st.tree, t) && Holds(t, e, root) && Adds(st.tree, t, e, root)
  {
    hide Total;
    hide MakeDirs;
    var p := PathOf(e, root);
    if p != [] {
      if e.kind.Regular? {
        WriteNewAdds(st.tree, p, FileOf(e));
        ParentOnTheWay(p);
      } else if e.kind.Directory? {
        MakeDirsAdds(st.tree, p);
      }
    }
  }

  lemma ParentOnTheWay(p: Path)
    requires p != []
    ensures forall q :: OnTheWay(q, Parent(p)) ==> OnTheWay(q, p)
  {}

  lemma {:induction false} OneEntryLinks(st: Progress, e: Entry, k: nat, root: Path, limit: nat)
    requires OneEntry(st, e, k, root, limit).failure.None?
    ensures OneEntry(st, e, k, root, limit).links ==
            if e.kind.HardLink? && PathOf(e, root) != [] && e.kind.target.Some?
               && StripRoot(e.kind.target.value, root).Some?
            then st.links + [Link(PathOf(e, root), StripRoot(e.kind.target.value, root).value)]
            else st.links
  {
    hide MakeDirs;
  }

  lemma {:induction false} FaithfulStep(entries: seq<Entry>, n: nat, root: Path, a: Tree, b: Tree)
    requires n < |entries| && Grows(a, b) && Holds(b, entries[n], root) && Adds(a, b, entries[n], root)
    requires AllHold(entries, n, root, a) && WrittenOnce(entries, n, root) && AllAskedFor(entries, n, root, a)
    ensures AllHold(entries, n + 1, root, b) && WrittenOnce(entries, n + 1, root)
    ensures AllAskedFor(entries, n + 1, root, b)
  {
    hide PathOf;
    forall i | 0 <= i < n ensures Holds(b, entries[i], root) {
      assert Holds(a, entries[i], root);
    }
    forall i | 0 <= i < n && Writes(entries[i], root) && Writes(entries[n], root)
      ensures PathOf(entries[i], root) != PathOf(entries[n], root)
    {
      assert Holds(a, entries[i], root);
    }
    forall p | p in b ensures AskedFor(entries, n + 1, root, p, b[p]) {
      if p in a {
        AskedForLonger(entries, n, root, p, a[p]);
      } else if b[p].File? {
        assert Writes(entries[n], root) && PathOf(entries[n], root) == p;
      } else {
        assert OnTheWay(p, PathOf(entries[n], root));
      }
    }
  }

  lemma AskedForLonger(entries: seq<Entry>, n: nat, root: Path, p: Path, node: Node)
    requires n < |entries| && AskedFor(entries, n, root, p, node)
    ensures AskedFor(entries, n + 1, root, p, node)
  {}

  /** The entries that were accepted are all there, nothing else is, and no two of them asked for the same file. */
  lemma {:induction false} EntriesFaithful(entries: seq<Entry>, n: nat, root: Path, limit: nat)
    requires n <= |entries| && AllEntries(entries, n, root, limit).failure.None?
    ensures Faithful(entries, n, root, AllEntries(entries, n, root, limit))
    decreases n
  {
    hide Within;
    hide OneEntry;
    if n > 0 {
      var st := AllEntries(entries, n - 1, root, limit);
      EntriesFaithful(entries, n - 1, root, limit);
      EntriesWithin(entries, n - 1, root, limit);
      OneEntryAdds(st, entries[n - 1], n - 1, root, limit);
      OneEntryLinks(st, entries[n - 1], n - 1, root, limit);
      FaithfulStep(entries, n - 1, root, st.tree, OneEntry(st, entries[n - 1], n - 1, root, limit).tree);
    }
  }

  // ---- The hard links ----

  predicate LinkTargets(st: Progress, t: Tree, k: nat)
    requires k < |st.links|
  {
    var link := st.links[k];
    && link.output in t && link.target in t && t[link.output] == t[link.target] && t[link.output].File?
    && link.output !in st.tree
    && (link.target in st.tree || exists j :: 0 <= j < k && st.links[j].output == link.target)
    && forall j :: 0 <= j < k ==> st.links[j].output != link.output
  }

  predicate AllTargets(st: Progress, m: nat, t: Tree)
    requires m <= |st.links|
  {
    forall k :: 0 <= k < m ==> LinkTargets(st, t, k)
  }

  predicate IsOutput(st: Progress, m: nat, p: Path)
    requires m <= |st.links|
  {
    exists k :: 0 <= k < m && st.links[k].output == p
  }

  predicate OnlyOutputs(st: Progress, m: nat, t: Tree)
    requires m <= |st.links|
  {
    forall p :: p in t && p !in st.tree && t[p].File? ==> IsOutput(st, m, p)
  }

  predicate Linked(st: Progress, m: nat, t: Tree)
    requires m <= |st.links|
  {
    Grows(st.tree, t) && AllTargets(st, m, t) && OnlyOutputs(st, m, t)
  }

  lemma LinkTargetsLonger(st: Progress, a: Tree, b: Tree, k: nat)
    requires k < |st.links| && LinkTargets(st, a, k) && Grows(a, b)
    ensures LinkTargets(st, b, k) && st.links[k].output in a
  {}

  /** Link `m` turned tree `a` into tree `b`. */
  predicate LinkMade(st: Progress, m: nat, a: Tree, b: Tree)
    requires m < |st.links|
  {
    var link := st.links[m];
    && link.target in a && a[link.target].File? && link.output !in a && link.output in b
    && b[link.output] == a[link.target] && Grows(a, b)
    && forall p :: p in b && p !in a && b[p].File? ==> p == link.output
  }

  lemma {:induction false} OneLinkMade(st: Progress, before: Progress, m: nat, dirSize: nat, limit: nat)
    requires m < |st.links| && Within(before, limit) && before.failure.None?
    requires OneLink(before, st.links[m], dirSize, limit).failure.None?
    ensures LinkMade(st, m, before.tree, OneLink(before, st.links[m], dirSize, limit).tree)
  {
    hide Total;
    hide MakeDirs;
    WriteNewAdds(before.tree, st.links[m].output, before.tree[st.links[m].target]);
  }

  lemma {:induction false} NewLinkTargets(st: Progress, m: nat, a: Tree, b: Tree)
    requires m < |st.links| && Linked(st, m, a) && LinkMade(st, m, a, b)
    ensures LinkTargets(st, b, m)
  {
    var link := st.links[m];
    forall j | 0 <= j < m ensures st.links[j].output != link.output {
      LinkTargetsLonger(st, a, b, j);
    }
    assert link.target in st.tree || IsOutput(st, m, link.target);
  }

  lemma {:induction false} LinkedStep(st: Progress, m: nat, a: Tree, b: Tree)
    requires m < |st.links| && Linked(st, m, a) && LinkMade(st, m, a, b)
    ensures Linked(st, m + 1, b)
  {
    NewLinkTargets(st, m, a, b);
    forall k | 0 <= k < m ensures LinkTargets(st, b, k) {
      LinkTargetsLonger(st, a, b, k);
    }
    hide LinkTargets;
    forall p | p in b && p !in st.tree && b[p].File? ensures IsOutput(st, m + 1, p) {
      if p in a {
        assert IsOutput(st, m, p);
      }
    }
  }

  /** When the links succeed, each output is a file of its own that holds what its target holds; the target is a file of
      the archive or the output of an earlier link, and no output was there before. */
  lemma {:induction false} LinksFaithful(st: Progress, m: nat, dirSize: nat, limit: nat)
    requires m <= |st.links| && Within(st, limit) && st.failure.None?
    requires AllLinks(st, m, dirSize, limit).failure.None?
    ensures Linked(st, m, AllLinks(st, m, dirSize, limit).tree)
    decreases m
  {
    hide Within;
    hide OneLink;
    if m > 0 {
      var before := AllLinks(st, m - 1, dirSize, limit);
      LinksFaithful(st, m - 1, dirSize, limit);
      LinksWithin(st, m - 1, dirSize, limit);
      OneLinkMade(st, before, m - 1, dirSize, limit);
      LinkedStep(st, m - 1, before.tree, OneLink(before, st.links[m - 1], dirSize, limit).tree);
    }
  }

  /** An extraction that succeeds leaves exactly the archive: every regular entry is a file with its bytes and mode,
      every hard link a separate file with its target's contents, and there is no other file. The sizes of all of them
      add up to at most the limit. */
  lemma {:induction false} ExtractionFaithful(entries: seq<Entry>, c: Config)
    requires Extracted(entries, c).failure.None?
    ensures var st := Entries(entries, c);
            var t := Extracted(entries, c).tree;
            && Faithful(entries, |entries|, c.root, st) && Linked(st, |st.links|, t)
            && Closed(t) && Total(t) == Extracted(entries, c).expanded <= c.limit
            && |entries| <= MAX_ARCHIVE_ENTRIES
  {
    var st := Entries(entries, c);
    EntriesWithin(entries, |entries|, c.root, c.limit);
    EntriesFaithful(entries, |entries|, c.root, c.limit);
    LinksWithin(st, |st.links|, c.dirSize, c.limit);
    LinksFaithful(st, |st.links|, c.dirSize, c.limit);
    EntriesCounted(entries, |entries|, c.root, c.limit);
  }

  lemma {:induction false} EntriesCounted(entries: seq<Entry>, n: nat, root: Path, limit: nat)
    requires n <= |entries| && AllEntries(entries, n, root, limit).failure.None?
    ensures n <= MAX_ARCHIVE_ENTRIES
  {}

  /** A link whose target is neither in the archive nor made by an earlier link is refused, and with it the archive. */
  lemma {:induction false} MissingTargetRefused(entries: seq<Entry>, c: Config, k: nat)
    requires Entries(entries, c).failure.None? && k < |Entries(entries, c).links|
    requires var st := Entries(entries, c);
             st.links[k].target !in st.tree && forall j :: 0 <= j < k ==> st.links[j].output != st.links[k].target
    ensures Extracted(entries, c).failure.Some?
  {
    if Extracted(entries, c).failure.None? {
      ExtractionFaithful(entries, c);
      TargetKnown(Entries(entries, c), Extracted(entries, c).tree, k);
    }
  }

  lemma {:induction false} TargetKnown(st: Progress, t: Tree, k: nat)
    requires Linked(st, |st.links|, t) && k < |st.links|
    ensures st.links[k].target in st.tree || exists j :: 0 <= j < k && st.links[j].output == st.links[k].target
  {
    assert LinkTargets(st, t, k);
  }
}
