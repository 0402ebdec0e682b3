/** Exactly when an install accepts what is there, when it installs anew, and what is there afterwards. */
module InstallExact {
  import opened Common
  import opened ArchiveTree
  import opened Extract
  import opened InstallModel
  import opened InstallRuns
  import opened InstallerCode
  import Utf8

  // ---- What makes a tree good ----

  /** Any of the three execute bits, in a mode given by its octal digits. */
  lemma {:induction false} RunnableIff(high: nat, user: nat, group: nat, other: nat)
    requires user < 8 && group < 8 && other < 8
    ensures Runnable(512 * high + 64 * user + 8 * group + other) <==>
            user % 2 == 1 || group % 2 == 1 || other % 2 == 1
  {
    var tens := 64 * high + 8 * user + group;
    var hundreds := 8 * high + user;
    assert tens == 8 * hundreds + group;
    LastDigit(tens, other);
    LastDigit(hundreds, group);
    LastDigit(high, user);
    assert 512 * high + 64 * user + 8 * group + other == 8 * tens + other;
    assert (8 * tens + other) / 64 == tens / 8;
  }

  lemma {:induction false} LastDigit(high: nat, digit: nat)
    requires digit < 8
    ensures (8 * high + digit) / 8 == high && (8 * high + digit) % 2 == digit % 2
  {
    Eighth(high, digit);
    Parity(4 * high, digit);
  }

  lemma Eighth(high: nat, digit: nat)
    requires digit < 8
    ensures (8 * high + digit) / 8 == high
  {}

  lemma Parity(half: nat, n: nat)
    ensures (2 * half + n) % 2 == n % 2
  {}

  /** What is found when a file of that name is opened. */
  ghost predicate Reads(t: Tree, p: Path, text: string) {
    p in t && (t[p] == Foreign(Some(text)) || exists mode :: t[p] == File(text, mode))
  }

  ghost predicate ExecutableOk(t: Tree, p: Path) {
    p in t && t[p].File? && Runnable(t[p].mode)
  }

  ghost predicate LicenseOk(t: Tree, p: Path) {
    exists text :: Reads(t, p, text)
  }

  ghost predicate PartsOk(t: Tree, art: Artifact) {
    && (forall i :: 0 <= i < |art.executables| ==> ExecutableOk(t, art.executables[i]))
    && (forall i :: 0 <= i < |art.licenses| ==> LicenseOk(t, art.licenses[i]))
  }

  /** Apart from the marker there are only directories, and files under names that are UTF-8. */
  ghost predicate AllKnown(t: Tree) {
    forall p :: p in t && p != ["install.json"] ==>
      t[p].Dir? || (t[p].File? && forall i :: 0 <= i < |p| ==> Utf8.IsEncoding(p[i]))
  }

  /** The files are exactly the tree's, each with its size and digest, leaving out the marker. */
  ghost predicate Lists(w: World, t: Tree, files: map<Path, Record>) {
    forall p ::
      && (p in files <==> p in t && t[p].File? && p != ["install.json"])
      && (p in files ==> files[p] == Record(|t[p].bytes|, w.hash(t[p].bytes)))
  }

  /** The destination is a directory whose marker has that text. */
  ghost predicate Marked(dest: Option<Tree>, text: string) {
    dest.Some? && [] !in dest.value && Reads(dest.value, ["install.json"], text)
  }

  predicate IsOf(m: Marker, art: Artifact) {
    m.schema == 2 && m.name == art.name && m.version == art.version && m.sha == art.sha
  }

  lemma {:induction false} MarkedIff(dest: Option<Tree>, text: string)
    ensures Marked(dest, text) <==> MarkerText(dest) == Some(text)
  {
    if MarkerText(dest) == Some(text) && dest.value[MarkerPath()].File? {
      assert dest.value[MarkerPath()] == File(text, dest.value[MarkerPath()].mode);
    }
  }

  lemma {:induction false} LicenseOkIff(t: Tree, p: Path)
    ensures LicenseOk(t, p) <==> p in t && Opened(t[p]).Some?
  {
    if p in t && Opened(t[p]).Some? {
      if t[p].File? {
        assert t[p] == File(t[p].bytes, t[p].mode);
      }
      assert Reads(t, p, Opened(t[p]).value);
    }
  }

  lemma {:induction false} PartsOkIff(t: Tree, art: Artifact)
    ensures PartsOk(t, art) <==> StagedError(t, art).None?
  {
    StagedErrorNoneIff(t, art);
    forall p
      ensures LicenseOk(t, p) <==> p in t && Opened(t[p]).Some?
    {
      LicenseOkIff(t, p);
    }
    hide StagedError;
    hide LicenseOk;
  }

  lemma {:induction false} AllKnownIff(t: Tree)
    ensures AllKnown(t) <==> AllListable(t)
  {
    forall name
      ensures Utf8.Valid(name) <==> Utf8.IsEncoding(name)
    {
      Utf8.ValidIff(name);
    }
    hide Utf8.Valid;
    hide Utf8.IsEncoding;
    assert MarkerPath() == ["install.json"];
  }

  lemma {:induction false} ListsIff(w: World, t: Tree, files: map<Path, Record>)
    ensures Lists(w, t, files) <==> files == Inventory(w, t)
  {
    assert MarkerPath() == ["install.json"];
    if Lists(w, t, files) {
      assert files == Inventory(w, t);
    }
  }

  // ---- The check of what is there ----

  /** What is there is accepted exactly when its marker is this artifact's, every part is there, everything can be
      listed, and the marker lists it. */
  lemma {:induction false} AcceptedIff(w: World, dest: Option<Tree>, art: Artifact, text: string)
    requires Marked(dest, text)
    ensures var m := w.read(text);
            IsValid(w, dest, art) == Ok(true) <==>
            && m.Some? && IsOf(m.value, art)
            && PartsOk(dest.value, art) && AllKnown(dest.value) && Lists(w, dest.value, m.value.files)
  {
    MarkedIff(dest, text);
    PartsOkIff(dest.value, art);
    AllKnownIff(dest.value);
    if w.read(text).Some? {
      ListsIff(w, dest.value, w.read(text).value.files);
    }
    hide MarkerText;
    hide StagedError;
    hide AllListable;
    hide Inventory;
    hide PartsOk;
    hide AllKnown;
    hide Lists;
  }

  /** Without a marker, with the marker of another release, or with files that are not the listed ones, it is
      replaced. */
  lemma {:induction false} ReplacedIff(w: World, dest: Option<Tree>, art: Artifact)
    ensures IsValid(w, dest, art) == Ok(false) <==>
            (forall text :: Marked(dest, text) ==>
               && w.read(text).Some?
               && (IsOf(w.read(text).value, art) ==>
                     && PartsOk(dest.value, art) && AllKnown(dest.value)
                     && !Lists(w, dest.value, w.read(text).value.files)))
  {
    forall text
      ensures Marked(dest, text) <==> MarkerText(dest) == Some(text)
    {
      MarkedIff(dest, text);
    }
    if MarkerText(dest).Some? {
      var text := MarkerText(dest).value;
      PartsOkIff(dest.value, art);
      AllKnownIff(dest.value);
      if w.read(text).Some? {
        ListsIff(w, dest.value, w.read(text).value.files);
      }
    }
    hide Marked;
    hide MarkerText;
    hide StagedError;
    hide AllListable;
    hide Inventory;
    hide PartsOk;
    hide AllKnown;
    hide Lists;
  }

  lemma {:induction false} FirstErrorAt(paths: seq<Path>, check: Path -> Option<Failure>, k: nat)
    requires k < |paths| && check(paths[k]).Some? && forall i :: 0 <= i < k ==> check(paths[i]).None?
    ensures FirstError(paths, check) == check(paths[k])
  {
    if k > 0 {
      assert check(paths[0]).None?;
      FirstErrorAt(paths[1..], check, k - 1);
    }
  }

  /** Of several missing parts the first executable is reported, for what is wrong with it, and a licence only when all
      executables are there. */
  lemma {:induction false} FirstBadPart(t: Tree, art: Artifact, k: nat)
    ensures k < |art.executables| && !ExecutableOk(t, art.executables[k])
            && (forall i :: 0 <= i < k ==> ExecutableOk(t, art.executables[i]))
            ==>
            var p := art.executables[k];
            StagedError(t, art) == Some(ToolError(if p !in t then "EXECUTABLE_MISSING"
                                                  else if !t[p].File? then "UNSAFE_ARCHIVE"
                                                  else "EXECUTABLE_NOT_RUNNABLE"))
    ensures (forall i :: 0 <= i < |art.executables| ==> ExecutableOk(t, art.executables[i])) && !PartsOk(t, art)
            ==>
            StagedError(t, art) == Some(ToolError("LICENSE_FILE_MISSING"))
  {
    var executable, license := (p: Path) => ExecutableError(t, p), (p: Path) => LicenseError(t, p);
    hide Runnable;
    if k < |art.executables| && !ExecutableOk(t, art.executables[k])
       && (forall i :: 0 <= i < k ==> ExecutableOk(t, art.executables[i])) {
      assert forall i :: 0 <= i < k ==> executable(art.executables[i]).None?;
      FirstErrorAt(art.executables, executable, k);
    }
    if (forall i :: 0 <= i < |art.executables| ==> ExecutableOk(t, art.executables[i])) && !PartsOk(t, art) {
      FirstErrorNoneIff(art.executables, executable);
      PartsOkIff(t, art);
      OneLicenseError(t, art.licenses);
    }
  }

  lemma {:induction false} OneLicenseError(t: Tree, paths: seq<Path>)
    ensures var e := FirstError(paths, p => LicenseError(t, p));
            e.None? || e == Some(ToolError("LICENSE_FILE_MISSING"))
  {
    if paths != [] {
      OneLicenseError(t, paths[1..]);
    }
  }

  /** What is there but cannot be judged fails the install: with its marker unreadable, or with the first bad part of
      this artifact's own release, or with something in it that cannot be listed. */
  lemma {:induction false} FailsWith(w: World, dest: Option<Tree>, art: Artifact, text: string)
    requires Marked(dest, text)
    ensures w.read(text).None? ==> IsValid(w, dest, art) == Err(ToolError("MARKER_INVALID"))
    ensures w.read(text).Some? && IsOf(w.read(text).value, art) && !PartsOk(dest.value, art) ==>
              StagedError(dest.value, art).Some? && IsValid(w, dest, art) == Err(StagedError(dest.value, art).value)
    ensures w.read(text).Some? && IsOf(w.read(text).value, art) && PartsOk(dest.value, art) && !AllKnown(dest.value) ==>
              IsValid(w, dest, art) == Err(ToolError("UNSAFE_ARCHIVE"))
  {
    MarkedIff(dest, text);
    PartsOkIff(dest.value, art);
    AllKnownIff(dest.value);
    hide MarkerText;
    hide StagedError;
    hide AllListable;
    hide Inventory;
    hide PartsOk;
    hide AllKnown;
  }

  // ---- Installing ----

  /** The bytes that an install works from: those in the cache if they have the hash, otherwise, unless it is offline,
      those the download brings. */
  ghost predicate Supplies(w: World, disk: Disk, art: Artifact, offline: bool, env: Environment, bytes: string) {
    && w.hash(bytes) == art.sha
    && if art.sha in disk.cache && w.hash(disk.cache[art.sha]) == art.sha then bytes == disk.cache[art.sha]
       else !offline && env.download == Some(bytes)
  }

  /** Those bytes are an archive that is extracted to this tree. */
  ghost predicate Yields(w: World, art: Artifact, bytes: string, t: Tree) {
    && w.decode(bytes).Some?
    && var end := Extracted(w.decode(bytes).value, Config(art.root, w.limit, w.dirSize));
       end.failure.None? && end.tree == t
  }

  ghost predicate Installable(t: Tree, art: Artifact, env: Environment) {
    PartsOk(t, art) && env.stagedMatch && AllKnown(t) && ["install.json"] !in t
  }

  /** The tree with the marker that lists it. */
  ghost predicate Installed(w: World, art: Artifact, t: Tree, u: Tree) {
    exists files :: Lists(w, t, files)
                    && u == t[["install.json"] := File(w.write(Marker(2, art.name, art.version, art.sha, files)), 420)]
  }

  lemma {:induction false} PublishedIsInstalled(w: World, art: Artifact, t: Tree)
    ensures Installed(w, art, t, Published(w, art, t))
  {
    ListsIff(w, t, Inventory(w, t));
    hide Lists;
    hide Inventory;
    assert MarkerPath() == ["install.json"] && 0x1A4 == 420;
  }

  lemma {:induction false} FreshIff(w: World, disk: Disk, art: Artifact, offline: bool, env: Environment, t: Tree)
    ensures Fresh(w, disk, art, offline, env) == Ok(t) <==>
            Installable(t, art, env)
            && exists bytes :: Supplies(w, disk, art, offline, env, bytes) && Yields(w, art, bytes, t)
  {
    PartsOkIff(t, art);
    AllKnownIff(t);
    hide StagedError;
    hide AllListable;
    hide PartsOk;
    hide AllKnown;
    var archive := Archive(w, disk, art, offline, env);
    forall bytes
      ensures Supplies(w, disk, art, offline, env, bytes) <==> archive == Ok(bytes)
    {
    }
    hide Supplies;
    hide Archive;
    assert MarkerPath() == ["install.json"];
    if archive.Ok? && Fresh(w, disk, art, offline, env) == Ok(t) {
      assert Yields(w, art, archive.value, t);
    }
  }

  /** An install reports a new installation exactly when what is there is to be replaced and is not in the way, and an
      archive is supplied that extracts to an installable tree; it reports nothing to do exactly when what is there is
      accepted and reports the right versions. */
  lemma {:induction false} OutcomeIff(w: World, disk: Disk, art: Artifact, offline: bool, env: Environment)
    ensures Outcome(w, disk, art, offline, env) == Ok(true) <==>
            && IsValid(w, disk.dest, art) == Ok(false) && (disk.dest.Some? ==> [] !in disk.dest.value)
            && exists bytes, t :: Supplies(w, disk, art, offline, env, bytes) && Yields(w, art, bytes, t)
                                  && Installable(t, art, env)
    ensures Outcome(w, disk, art, offline, env) == Ok(false) <==>
            IsValid(w, disk.dest, art) == Ok(true) && env.installedMatch
  {
    hide IsValid;
    hide Supplies;
    hide Yields;
    hide Installable;
    hide Archive;
    var made := Fresh(w, disk, art, offline, env);
    forall t
      ensures made == Ok(t) <==>
              Installable(t, art, env)
              && exists bytes :: Supplies(w, disk, art, offline, env, bytes) && Yields(w, art, bytes, t)
    {
      FreshIff(w, disk, art, offline, env, t);
    }
    hide Fresh;
    if made.Ok? {
      var t := made.value;
      assert Installable(t, art, env);
    }
  }
}
