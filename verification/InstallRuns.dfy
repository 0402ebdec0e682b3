/** What every run of the install protocol keeps, wherever it is cut off. */
module InstallRuns {
  import opened Common
  import opened ArchiveTree
  import opened Extract
  import opened ExtractResult
  import opened InstallModel

  /** Markers can be read back. */
  ghost predicate Readable(w: World) {
    forall m :: w.read(w.write(m)) == Some(m)
  }

  // ---- Trees ----

  /** The tree is the whole extraction of an archive with these bytes. */
  predicate ExtractsFrom(w: World, art: Artifact, bytes: string, t: Tree) {
    && w.hash(bytes) == art.sha && w.decode(bytes).Some?
    && Extracted(w.decode(bytes).value, ConfigOf(w, art)).failure.None?
    && Extracted(w.decode(bytes).value, ConfigOf(w, art)).tree == t
  }

  ghost predicate Extracts(w: World, art: Artifact, t: Tree) {
    exists bytes :: ExtractsFrom(w, art, bytes, t)
  }

  /** An extraction that passed the checks and has room for the marker. */
  ghost predicate Product(w: World, art: Artifact, t: Tree) {
    Extracts(w, art, t) && MarkerPath() !in t && StagedError(t, art).None? && AllListable(t)
  }

  lemma {:induction false} FirstErrorNoneIff(paths: seq<Path>, check: Path -> Option<Failure>)
    ensures FirstError(paths, check).None? <==> forall p :: p in paths ==> check(p).None?
  {
    if paths != [] {
      FirstErrorNoneIff(paths[1..], check);
      assert forall p :: p in paths <==> p == paths[0] || p in paths[1..];
    }
  }

  /** Adding the marker does not disturb what the checks looked at. */
  lemma {:induction false} CheckedStays(t: Tree, u: Tree, art: Artifact)
    requires StagedError(t, art).None? && Grows(t, u)
    ensures StagedError(u, art).None?
  {
    FirstErrorNoneIff(art.executables, p => ExecutableError(t, p));
    FirstErrorNoneIff(art.executables, p => ExecutableError(u, p));
    FirstErrorNoneIff(art.licenses, p => LicenseError(t, p));
    FirstErrorNoneIff(art.licenses, p => LicenseError(u, p));
    forall p | p in art.executables ensures ExecutableError(u, p).None? {
      assert ExecutableError(t, p).None?;
    }
    forall p | p in art.licenses ensures LicenseError(u, p).None? {
      assert LicenseError(t, p).None?;
    }
  }

  /** A checked tree with its marker is valid: the marker lists the tree's full inventory. */
  lemma {:induction false} PublishedIsValid(w: World, art: Artifact, t: Tree)
    requires Readable(w) && [] !in t && MarkerPath() !in t && StagedError(t, art).None? && AllListable(t)
    ensures IsValid(w, Some(Published(w, art, t)), art) == Ok(true)
  {
    var u := Published(w, art, t);
    CheckedStays(t, u, art);
    assert Inventory(w, u) == Inventory(w, t);
    assert w.read(w.write(MarkerFor(w, art, t))) == Some(MarkerFor(w, art, t));
  }

  // ---- The invariant that holds whatever happens to the destination in between ----

  /** The cached archive has the artifact's hash. */
  predicate Verified(w: World, s: State)
    requires s.process.Running?
  {
    s.process.art.sha in s.disk.cache && w.hash(s.disk.cache[s.process.art.sha]) == s.process.art.sha
  }

  ghost predicate StageInv(w: World, s: State)
    requires s.process.Running?
  {
    var disk, art := s.disk, s.process.art;
    match s.process.stage
    case Check => disk.staging.None? && disk.partial.None?
    case Clear => disk.staging.None?
    case Cache => disk.staging.None? && disk.dest.None?
    case Fetch => disk.staging.None? && disk.dest.None?
    case Unpack(k) =>
      && disk.dest.None? && Verified(w, s) && disk.staging.Some? && disk.tars > 0
      && (w.decode(disk.cache[art.sha]).None? ==> disk.staging.value == map[])
      && (w.decode(disk.cache[art.sha]).Some? ==>
            var st := Unpacked(w.decode(disk.cache[art.sha]).value, ConfigOf(w, art), k);
            st.failure.None? && disk.staging.value == st.tree)
    case Validate => disk.dest.None? && disk.staging.Some? && Extracts(w, art, disk.staging.value)
    case Mark =>
      && disk.dest.None? && disk.staging.Some? && Extracts(w, art, disk.staging.value)
      && StagedError(disk.staging.value, art).None?
    case Publish =>
      && disk.dest.None? && disk.staging.Some?
      && exists t :: Product(w, art, t) && disk.staging.value == Published(w, art, t)
    case Finished(r) => r.Ok? ==> IsValid(w, disk.dest, art) == Ok(true)
  }

  ghost predicate Inv(w: World, s: State) {
    s.process.Running? ==> StageInv(w, s)
  }

  lemma {:induction false} UnpackedAll(entries: seq<Entry>, c: Config, k: nat)
    requires k >= UnpackSteps(entries, c)
    ensures Unpacked(entries, c, k) == Extracted(entries, c)
  {
    if k <= |entries| {
      assert k == |entries|;
    }
  }

  lemma {:induction false} UnpackKeeps(w: World, s: State, k: nat)
    requires s.process.Running? && s.process.stage == Unpack(k) && StageInv(w, s)
    ensures Inv(w, OnUnpack(w, s, k))
  {
    var art := s.process.art;
    if w.decode(s.disk.cache[art.sha]).Some? {
      var entries, c := w.decode(s.disk.cache[art.sha]).value, ConfigOf(w, art);
      if k >= UnpackSteps(entries, c) {
        UnpackedAll(entries, c, k);
        assert ExtractsFrom(w, art, s.disk.cache[art.sha], s.disk.staging.value);
      }
    }
  }

  lemma StartKeeps(w: World, s: State)
    requires s.process.Running? && s.disk.dest.None? && Verified(w, s)
    ensures Inv(w, StartUnpacking(s))
  {}

  /** Every step keeps the invariant, whatever is done to the disk between runs. */
  lemma {:induction false} StepKeeps(w: World, s: State, a: Action)
    requires Readable(w) && Inv(w, s) && Enabled(s, a)
    ensures Inv(w, Apply(w, s, a))
  {
    hide Unpacked;
    hide Inventory;
    hide StagedError;
    hide IsValid;
    hide Extracts;
    hide Published;
    hide AllListable;
    hide MarkerText;
    match a {
      case Lookup =>
        if s.process.art.sha in s.disk.cache && w.hash(s.disk.cache[s.process.art.sha]) == s.process.art.sha {
          StartKeeps(w, s);
        }
      case Verify =>
        var bytes := s.disk.partial.value;
        if w.hash(bytes) == s.process.art.sha {
          StartKeeps(w, s.(disk := s.disk.(cache := s.disk.cache[s.process.art.sha := bytes], partial := None)));
        }
      case UnpackNext => UnpackKeeps(w, s, s.process.stage.done);
      case WriteMarker =>
        if MarkerPath() !in s.disk.staging.value && AllListable(s.disk.staging.value) {
          assert Product(w, s.process.art, s.disk.staging.value);
        }
      case Rename =>
        var t :| Product(w, s.process.art, t) && s.disk.staging.value == Published(w, s.process.art, t);
        ProductClosed(w, s.process.art, t);
        PublishedIsValid(w, s.process.art, t);
      case _ =>
    }
  }

  /** An install that returns success, new or reused, leaves a destination whose inventory is the one its marker lists,
      for this artifact and hash: after any history of installs, crashes and outside changes. */
  lemma {:induction false} OkMeansValid(w: World, disk: Disk, actions: seq<Action>)
    requires Readable(w) && CanRun(w, State(disk, Idle), actions)
    ensures var s := After(w, State(disk, Idle), actions);
            && Inv(w, s)
            && (s.process.Running? && s.process.stage.Finished? && s.process.stage.result.Ok? ==>
                  IsValid(w, s.disk.dest, s.process.art) == Ok(true))
    decreases |actions|
  {
    if actions != [] {
      var n := |actions| - 1;
      OkMeansValid(w, disk, actions[..n]);
      StepKeeps(w, After(w, State(disk, Idle), actions[..n]), actions[n]);
    }
  }

  /** While it is being filled the staging directory never holds more bytes than the limit. */
  lemma {:induction false} StagingWithinLimit(w: World, s: State, k: nat)
    requires s.process.Running? && s.process.stage == Unpack(k) && StageInv(w, s)
    ensures Closed(s.disk.staging.value) && Total(s.disk.staging.value) <= w.limit
  {
    var art := s.process.art;
    if w.decode(s.disk.cache[art.sha]).Some? {
      var entries, c := w.decode(s.disk.cache[art.sha]).value, ConfigOf(w, art);
      EntriesWithin(entries, Min(k, |entries|), c.root, c.limit);
      if k > |entries| {
        var st := Entries(entries, c);
        EntriesWithin(entries, |entries|, c.root, c.limit);
        LinksWithin(st, Min(k - |entries|, |st.links|), c.dirSize, c.limit);
      }
    }
  }

  // ---- Histories without outside changes ----

  predicate SameFile(t: Tree, u: Tree, p: Path) {
    (p in t && t[p].File? <==> p in u && u[p].File?) && (p in t && t[p].File? ==> t[p] == u[p])
  }

  ghost predicate SameFiles(t: Tree, u: Tree) {
    forall p :: SameFile(t, u, p)
  }

  /** Part of a published product. */
  ghost predicate Remnant(w: World, t: Tree) {
    exists a, whole :: Product(w, a, whole) && Grows(t, Published(w, a, whole))
  }

  /** The same release: name, version and hash. */
  predicate SameRelease(a: Artifact, b: Artifact) {
    a.name == b.name && a.version == b.version && a.sha == b.sha
  }

  /** File for file a published extraction of an archive with this artifact's hash. */
  ghost predicate Complete(w: World, art: Artifact, t: Tree) {
    exists a, whole :: SameRelease(a, art) && Product(w, a, whole) && SameFiles(t, Published(w, a, whole))
  }

  ghost predicate CacheHonest(w: World, cache: map<string, string>) {
    forall sha :: sha in cache ==> w.hash(cache[sha]) == sha
  }

  ghost predicate Undisturbed(w: World, s: State) {
    && (s.disk.dest.Some? ==> Remnant(w, s.disk.dest.value))
    && CacheHonest(w, s.disk.cache)
    && (s.process.Running? && s.process.stage.Finished? && s.process.stage.result.Ok? ==>
          s.disk.dest.Some? && Complete(w, s.process.art, s.disk.dest.value))
  }

  lemma {:induction false} TopIsThere(t: Tree, p: Path)
    requires Closed(t) && p in t
    ensures p != [] && p[..1] in t
    decreases |p|
  {
    if |p| > 1 {
      TopIsThere(t, Parent(p));
      assert Parent(p)[..1] == p[..1];
    } else {
      assert p[..1] == p;
    }
  }

  lemma {:induction false} ProductClosed(w: World, a: Artifact, whole: Tree)
    requires Product(w, a, whole)
    ensures Closed(whole) && forall p :: p in whole ==> p != [] && p[0] != MARKER_NAME
  {
    var bytes :| ExtractsFrom(w, a, bytes, whole);
    ExtractionFaithful(w.decode(bytes).value, ConfigOf(w, a));
    forall p | p in whole ensures p != [] && p[0] != MARKER_NAME {
      TopIsThere(whole, p);
      assert [p[0]] == p[..1];
    }
  }

  /** What is left of a product is accepted only if no file of it is missing. */
  lemma {:induction false} ValidRemnantIsComplete(w: World, art: Artifact, t: Tree, a: Artifact, whole: Tree)
    requires Readable(w) && Product(w, a, whole) && Grows(t, Published(w, a, whole))
    requires IsValid(w, Some(t), art) == Ok(true)
    ensures SameRelease(a, art) && SameFiles(t, Published(w, a, whole))
  {
    hide StagedError;
    hide Extracts;
    var u := Published(w, a, whole);
    assert t[MarkerPath()] == u[MarkerPath()];
    assert w.read(w.write(MarkerFor(w, a, whole))) == Some(MarkerFor(w, a, whole));
    assert Inventory(w, t) == Inventory(w, whole);
    ProductClosed(w, a, whole);
    forall p ensures SameFile(t, u, p) {
      if p in u && u[p].File? && p != MarkerPath() {
        assert p in Inventory(w, whole);
        assert p in Inventory(w, t);
      }
    }
  }

  lemma {:induction false} UndisturbedStep(w: World, s: State, a: Action)
    requires Readable(w) && Inv(w, s) && Undisturbed(w, s) && Enabled(s, a) && !a.OutsideChange?
    ensures Undisturbed(w, Apply(w, s, a))
  {
    hide Unpacked;
    hide Inventory;
    hide StagedError;
    hide IsValid;
    hide Extracts;
    hide Published;
    hide AllListable;
    hide MarkerText;
    hide Product;
    match a {
      case Inspect(_) =>
        if IsValid(w, s.disk.dest, s.process.art) == Ok(true) {
          AcceptedIsComplete(w, s.disk.dest, s.process.art);
        }
      case Erase(kept) => ErasedUndisturbed(w, s.disk.dest.value, kept);
      case Rename => RenamedUndisturbed(w, s);
      case _ =>
        hide Thinned;
        hide OnRename;
        hide OnInspect;
        hide Complete;
        hide Remnant;
    }
  }

  lemma {:induction false} ErasedUndisturbed(w: World, t: Tree, kept: set<Path>)
    requires Remnant(w, t)
    ensures Remnant(w, Thinned(t, kept))
  {
    hide Product;
    hide Published;
    var b, whole :| Product(w, b, whole) && Grows(t, Published(w, b, whole));
    assert Grows(Thinned(t, kept), Published(w, b, whole));
  }

  lemma {:induction false} RenamedUndisturbed(w: World, s: State)
    requires Inv(w, s) && Enabled(s, Rename)
    ensures Remnant(w, s.disk.staging.value) && Complete(w, s.process.art, s.disk.staging.value)
  {
    hide Product;
    hide Published;
    var t :| Product(w, s.process.art, t) && s.disk.staging.value == Published(w, s.process.art, t);
    assert SameFiles(s.disk.staging.value, Published(w, s.process.art, t));
    assert Grows(s.disk.staging.value, Published(w, s.process.art, t));
  }

  lemma {:induction false} AcceptedIsComplete(w: World, dest: Option<Tree>, art: Artifact)
    requires Readable(w) && IsValid(w, dest, art) == Ok(true) && (dest.Some? ==> Remnant(w, dest.value))
    ensures dest.Some? && Complete(w, art, dest.value)
  {
    DestinationPresent(w, dest, art);
    hide IsValid;
    hide Product;
    hide Published;
    var b, whole :| Product(w, b, whole) && Grows(dest.value, Published(w, b, whole));
    ValidRemnantIsComplete(w, art, dest.value, b, whole);
  }

  lemma DestinationPresent(w: World, dest: Option<Tree>, art: Artifact)
    requires IsValid(w, dest, art) == Ok(true)
    ensures dest.Some?
  {}

  predicate NoOutsideChange(actions: seq<Action>) {
    forall i :: 0 <= i < |actions| ==> !actions[i].OutsideChange?
  }

  /** After any history of installs of any artifacts, cut off by crashes anywhere, a success means that the destination
      is, file for file, the extraction of an archive with the artifact's hash. No cached archive ever has another hash
      than its name says. */
  lemma {:induction false} OkMeansComplete(w: World, actions: seq<Action>)
    requires Readable(w) && NoOutsideChange(actions)
    requires CanRun(w, State(Disk(None, map[], None, None, 0), Idle), actions)
    ensures Undisturbed(w, After(w, State(Disk(None, map[], None, None, 0), Idle), actions))
    decreases |actions|
  {
    if actions != [] {
      var n := |actions| - 1;
      var start := State(Disk(None, map[], None, None, 0), Idle);
      OkMeansComplete(w, actions[..n]);
      OkMeansValid(w, start.disk, actions[..n]);
      UndisturbedStep(w, After(w, start, actions[..n]), actions[n]);
    }
  }

  // ---- What is left behind, and what is not repaired ----

  /** Expanded archives that no running process will remove. */
  function Stranded(s: State): int {
    if s.process.Running? && s.process.stage.Unpack? then s.disk.tars - 1 else s.disk.tars
  }

  /** Every crash while unpacking strands one more expanded archive, and no later install removes it. */
  lemma {:induction false} CrashStrandsArchive(w: World, s: State, a: Action)
    requires Readable(w) && Inv(w, s) && Enabled(s, a)
    ensures Stranded(Apply(w, s, a)) ==
            Stranded(s) + (if a.Crash? && s.process.Running? && s.process.stage.Unpack? then 1 else 0)
  {
    hide Unpacked;
    hide IsValid;
    hide StagedError;
    hide Published;
    hide Extracts;
  }

  /** What is stranded stays stranded, through any further history. */
  lemma {:induction false} StrandedForGood(w: World, disk: Disk, actions: seq<Action>, k: nat)
    requires Readable(w) && CanRun(w, State(disk, Idle), actions) && k <= |actions|
    ensures CanRun(w, State(disk, Idle), actions[..k])
    ensures Stranded(After(w, State(disk, Idle), actions)) >= Stranded(After(w, State(disk, Idle), actions[..k]))
    decreases |actions|
  {
    hide Stranded;
    if k == |actions| {
      assert actions[..k] == actions;
    } else {
      var n := |actions| - 1;
      StrandedForGood(w, disk, actions[..n], k);
      assert actions[..n][..k] == actions[..k];
      OkMeansValid(w, disk, actions[..n]);
      CrashStrandsArchive(w, After(w, State(disk, Idle), actions[..n]), actions[n]);
    }
  }

  /** From an empty disk: a first download that is cut off while it unpacks. */
  lemma {:induction false} StrandingHappens(w: World, art: Artifact, bytes: string)
    requires w.hash(bytes) == art.sha
    ensures var start := State(Disk(None, map[], None, None, 0), Idle);
            var cut := [Begin(art, false), Inspect(true), Lookup, Receive(bytes), Verify, Crash(None)];
            CanRun(w, start, cut) && After(w, start, cut).process.Idle? && Stranded(After(w, start, cut)) == 1
  {
    hide CanRun;
    hide After;
    hide Unpacked;
    hide StagedError;
    hide Published;
    hide Inventory;
    var start := State(Disk(None, map[], None, None, 0), Idle);
    FourSteps(w, start, Begin(art, false), Inspect(true), Lookup, Receive(bytes));
    var four := [Begin(art, false), Inspect(true), Lookup, Receive(bytes)];
    OneMore(w, start, four, Verify);
    OneMore(w, start, four + [Verify], Crash(None));
    assert four + [Verify] + [Crash(None)] ==
           [Begin(art, false), Inspect(true), Lookup, Receive(bytes), Verify, Crash(None)];
  }

  // ---- When the validity check fails ----

  /** Every executable is a file that can be run and every licence is a file or leads to one. */
  predicate PartsThere(t: Tree, art: Artifact) {
    && (forall p :: p in art.executables ==> p in t && t[p].File? && Runnable(t[p].mode))
    && (forall p :: p in art.licenses ==> p in t && Opened(t[p]).Some?)
  }

  /** There is a marker, and it cannot be read, or it is this artifact's and a part is missing or something in the tree
      cannot be listed: a link, a special entry, or a file whose path is not UTF-8. */
  predicate Suspect(w: World, dest: Option<Tree>, art: Artifact) {
    && MarkerText(dest).Some?
    && var marker := w.read(MarkerText(dest).value);
       marker.None?
       || (Describes(marker.value, art) && !(PartsThere(dest.value, art) && AllListable(dest.value)))
  }

  /** Beyond repair: suspect, or not a directory at all. */
  predicate Unrepairable(w: World, dest: Option<Tree>, art: Artifact) {
    Suspect(w, dest, art) || Barred(dest)
  }

  /** The marker is this artifact's, and everything is there as it lists it. */
  predicate Intact(w: World, dest: Option<Tree>, art: Artifact) {
    && MarkerText(dest).Some?
    && var marker := w.read(MarkerText(dest).value);
       && marker.Some? && Describes(marker.value, art) && PartsThere(dest.value, art) && AllListable(dest.value)
       && Inventory(w, dest.value) == marker.value.files
  }

  lemma {:induction false} StagedErrorNoneIff(t: Tree, art: Artifact)
    ensures StagedError(t, art).None? <==> PartsThere(t, art)
  {
    var executable, license := (p: Path) => ExecutableError(t, p), (p: Path) => LicenseError(t, p);
    FirstErrorNoneIff(art.executables, executable);
    FirstErrorNoneIff(art.licenses, license);
    if PartsThere(t, art) {
      assert forall p :: p in art.executables ==> executable(p).None?;
      assert forall p :: p in art.licenses ==> license(p).None?;
    } else if p :| p in art.executables && !(p in t && t[p].File? && Runnable(t[p].mode)) {
      assert executable(p).Some?;
    } else {
      var q :| q in art.licenses && !(q in t && Opened(t[q]).Some?);
      assert license(q).Some?;
    }
  }

  /** The check fails exactly on a suspect destination, and accepts exactly an intact one. */
  lemma {:induction false} IsValidFailsIff(w: World, dest: Option<Tree>, art: Artifact)
    ensures IsValid(w, dest, art).Err? <==> Suspect(w, dest, art)
    ensures IsValid(w, dest, art) == Ok(true) <==> Intact(w, dest, art)
  {
    if dest.Some? {
      StagedErrorNoneIff(dest.value, art);
      hide StagedError;
      hide PartsThere;
      hide Inventory;
      hide AllListable;
    }
  }

  predicate OnlyInstalls(actions: seq<Action>, art: Artifact) {
    forall i :: 0 <= i < |actions| ==> !actions[i].OutsideChange? && (actions[i].Begin? ==> actions[i].art == art)
  }

  lemma BarredHasNoMarker(w: World, dest: Option<Tree>, art: Artifact)
    requires Barred(dest)
    ensures IsValid(w, dest, art) == Ok(false)
  {}

  /** The destination is untouched, and an install of this artifact is at its beginning or has failed. */
  predicate Stuck(s: State, dest: Option<Tree>, art: Artifact) {
    && s.disk.dest == dest
    && (s.process.Running? ==>
          && s.process.art == art
          && (s.process.stage == Check || (s.process.stage == Clear && Barred(s.disk.dest))
              || (s.process.stage.Finished? && s.process.stage.result.Err?)))
  }

  lemma {:induction false} StuckStep(w: World, s: State, a: Action, dest: Option<Tree>, art: Artifact)
    requires Unrepairable(w, dest, art) && Stuck(s, dest, art) && Enabled(s, a)
    requires !a.OutsideChange? && (a.Begin? ==> a.art == art)
    ensures Stuck(Apply(w, s, a), dest, art)
  {
    hide OnLookup;
    hide OnVerify;
    hide OnUnpack;
    hide OnTry;
    hide OnMark;
    hide OnRename;
    hide Thinned;
    hide Published;
    IsValidFailsIff(w, dest, art);
    if Barred(dest) {
      BarredHasNoMarker(w, dest, art);
    }
    hide IsValid;
    hide Suspect;
  }

  /** A destination that is beyond repair is never repaired: no number of installs of this artifact changes it or
      succeeds. */
  lemma {:induction false} NeverRepaired(w: World, art: Artifact, disk: Disk, actions: seq<Action>)
    requires Unrepairable(w, disk.dest, art) && OnlyInstalls(actions, art)
    requires CanRun(w, State(disk, Idle), actions)
    ensures Stuck(After(w, State(disk, Idle), actions), disk.dest, art)
    decreases |actions|
  {
    hide Unrepairable;
    hide Enabled;
    hide Apply;
    if actions != [] {
      var n := |actions| - 1;
      NeverRepaired(w, art, disk, actions[..n]);
      StuckStep(w, After(w, State(disk, Idle), actions[..n]), actions[n], disk.dest, art);
    }
  }

  /** Of a published release only the marker is left. */
  lemma {:induction false} MarkerAlone(w: World, prior: Artifact, t: Tree)
    requires Readable(w) && prior.executables != [] && Product(w, prior, t)
    ensures IsValid(w, Some(Thinned(Published(w, prior, t), {MarkerPath()})), prior) ==
            Err(ToolError("EXECUTABLE_MISSING"))
  {
    hide Extracts;
    hide Inventory;
    hide AllListable;
    var u := Published(w, prior, t);
    var thin := Thinned(u, {MarkerPath()});
    ProductClosed(w, prior, t);
    FirstErrorNoneIff(prior.executables, p => ExecutableError(t, p));
    assert ExecutableError(t, prior.executables[0]).None?;
    assert prior.executables[0] !in thin;
    assert StagedError(thin, prior) == Some(ToolError("EXECUTABLE_MISSING"));
    assert MarkerText(Some(thin)) == Some(w.write(MarkerFor(w, prior, t)));
    assert w.read(w.write(MarkerFor(w, prior, t))) == Some(MarkerFor(w, prior, t));
  }

  lemma {:induction false} OtherReleaseDiffers(w: World, prior: Artifact, next: Artifact, t: Tree)
    requires Readable(w) && [] !in t && next.sha != prior.sha
    ensures IsValid(w, Some(Published(w, prior, t)), next) == Ok(false)
  {
    hide Inventory;
    assert MarkerText(Some(Published(w, prior, t))) == Some(w.write(MarkerFor(w, prior, t)));
    assert w.read(w.write(MarkerFor(w, prior, t))) == Some(MarkerFor(w, prior, t));
  }

  /** Such a destination needs no outside change to come about. When a version is released again with another archive,
      and installing `next` is cut off while it removes `prior`, with only the marker left, `prior` is stranded:
      installing it again fails for ever. */
  lemma {:induction false} InterruptedUpgradeStrands(w: World, prior: Artifact, next: Artifact, t: Tree, disk: Disk)
    requires Readable(w) && prior.executables != []
    requires next.name == prior.name && next.version == prior.version && next.sha != prior.sha
    requires Product(w, prior, t) && disk.dest == Some(Published(w, prior, t))
    ensures var s := State(disk, Idle);
            var cut := [Begin(next, false), Inspect(true), Erase({MarkerPath()}), Crash(None)];
            && IsValid(w, disk.dest, prior) == Ok(true) && CanRun(w, s, cut)
            && Unrepairable(w, After(w, s, cut).disk.dest, prior)
            && IsValid(w, After(w, s, cut).disk.dest, prior) == Err(ToolError("EXECUTABLE_MISSING"))
  {
    hide CanRun;
    hide After;
    hide Extracts;
    hide IsValid;
    hide Suspect;
    hide StagedError;
    hide AllListable;
    ProductClosed(w, prior, t);
    PublishedIsValid(w, prior, t);
    OtherReleaseDiffers(w, prior, next, t);
    MarkerAlone(w, prior, t);
    var thin := Thinned(Published(w, prior, t), {MarkerPath()});
    IsValidFailsIff(w, Some(thin), prior);
    hide Thinned;
    FourSteps(w, State(disk, Idle), Begin(next, false), Inspect(true), Erase({MarkerPath()}), Crash(None));
  }

  lemma {:induction false} FourSteps(w: World, s: State, a: Action, b: Action, c: Action, d: Action)
    requires Enabled(s, a) && Enabled(Apply(w, s, a), b) && Enabled(Apply(w, Apply(w, s, a), b), c)
    requires Enabled(Apply(w, Apply(w, Apply(w, s, a), b), c), d)
    ensures CanRun(w, s, [a, b, c, d])
    ensures After(w, s, [a, b, c, d]) == Apply(w, Apply(w, Apply(w, Apply(w, s, a), b), c), d)
  {
    hide Enabled;
    hide Apply;
    assert [] + [a] == [a] && [a] + [b] == [a, b] && [a, b] + [c] == [a, b, c] && [a, b, c] + [d] == [a, b, c, d];
    OneMore(w, s, [], a);
    OneMore(w, s, [a], b);
    OneMore(w, s, [a, b], c);
    OneMore(w, s, [a, b, c], d);
  }

  lemma {:induction false} OneMore(w: World, s: State, before: seq<Action>, a: Action)
    requires CanRun(w, s, before) && Enabled(After(w, s, before), a)
    ensures CanRun(w, s, before + [a]) && After(w, s, before + [a]) == Apply(w, After(w, s, before), a)
  {
    hide Enabled;
    hide Apply;
    assert (before + [a])[..|before + [a]| - 1] == before;
  }
}
