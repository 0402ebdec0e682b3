/** `install_one` and `download_verified` of `installer.rs` as code: every change it makes to the disk is a step of the
    protocol, and its outcome is determined by what it finds. */
module InstallerCode {
  import opened Common
  import opened ArchiveTree
  import opened Extract
  import opened InstallModel
  import opened InstallRuns

  /** What the surroundings contribute to one call: what the download delivers, and whether the executables report the
      expected versions. */
  datatype Environment = Environment(download: Option<string>, installedMatch: bool, stagedMatch: bool)

  // ---- The outcome ----

  /** The archive an install works from. */
  function Archive(w: World, disk: Disk, art: Artifact, offline: bool, env: Environment): Result<string> {
    if art.sha in disk.cache && w.hash(disk.cache[art.sha]) == art.sha then Ok(disk.cache[art.sha])
    else if offline then Err(ToolError("OFFLINE_CACHE_MISS"))
    else if env.download.None? then Err(ToolError("DOWNLOAD_FAILED"))
    else if w.hash(env.download.value) != art.sha then Err(ToolError("TOOL_CHECKSUM_MISMATCH"))
    else Ok(env.download.value)
  }

  /** The tree an install stages from an archive. */
  function Staged(w: World, art: Artifact, bytes: string): Result<Tree> {
    if w.decode(bytes).None? then Err(ToolError("ARCHIVE_DECOMPRESSION_FAILED"))
    else
      var st := Extracted(w.decode(bytes).value, ConfigOf(w, art));
      if st.failure.Some? then Err(st.failure.value) else Ok(st.tree)
  }

  function Admit(t: Tree, art: Artifact, env: Environment): (r: Result<Tree>)
    ensures r.Ok? ==> r.value == t
  {
    var wrong := StagedError(t, art);
    if wrong.Some? then Err(wrong.value)
    else if !env.stagedMatch then Err(ToolError("EXECUTABLE_VERSION_MISMATCH"))
    else if !AllListable(t) then Err(Unsafe())
    else if MarkerPath() in t then Err(ToolError("FILE_CREATE_FAILED"))
    else Ok(t)
  }

  /** What a fresh install publishes, or why it does not. */
  function Fresh(w: World, disk: Disk, art: Artifact, offline: bool, env: Environment): Result<Tree> {
    match Archive(w, disk, art, offline, env)
    case Err(e) => Err(e)
    case Ok(bytes) =>
      match Staged(w, art, bytes)
      case Err(e) => Err(e)
      case Ok(t) => Admit(t, art, env)
  }

  function Outcome(w: World, disk: Disk, art: Artifact, offline: bool, env: Environment): Result<bool> {
    match IsValid(w, disk.dest, art)
    case Err(e) => Err(e)
    case Ok(true) => if env.installedMatch then Ok(false) else Err(ToolError("EXECUTABLE_VERSION_MISMATCH"))
    case Ok(false) =>
      if Barred(disk.dest) then Err(ToolError("PARTIAL_INSTALL_CLEANUP_FAILED"))
      else
        var tree := Fresh(w, disk, art, offline, env);
        if tree.Ok? then Ok(true) else Err(tree.error)
  }

  /** A good archive that reports the right versions installs over anything, except over a destination that is beyond
      repair, and over an intact one whose executables report other versions. */
  lemma {:induction false} InstallsIff(w: World, disk: Disk, art: Artifact, offline: bool, env: Environment)
    requires Fresh(w, disk, art, offline, env).Ok?
    ensures Outcome(w, disk, art, offline, env).Ok? <==>
            !Unrepairable(w, disk.dest, art) && (Intact(w, disk.dest, art) ==> env.installedMatch)
  {
    IsValidFailsIff(w, disk.dest, art);
    if Barred(disk.dest) {
      BarredHasNoMarker(w, disk.dest, art);
    }
    hide IsValid;
    hide Suspect;
    hide MarkerText;
  }

  /** Only the cache matters to a fresh install. */
  lemma FreshFrame(w: World, a: Disk, b: Disk, art: Artifact, offline: bool, env: Environment)
    ensures a.cache == b.cache ==> Fresh(w, a, art, offline, env) == Fresh(w, b, art, offline, env)
  {}

  // ---- The code ----

  class Installer {
    var disk: Disk
    const w: World

    /** The steps taken so far, and where they lead. */
    ghost var start: State
    ghost var trace: seq<Action>
    ghost var state: State

    constructor (w: World, disk: Disk)
      ensures this.w == w && this.disk == disk
    {
      this.w := w;
      this.disk := disk;
      start, trace, state := State(disk, Idle), [], State(disk, Idle);
    }

    /** What the code has done to the disk is what the steps do. */
    ghost predicate Traced()
      reads this
    {
      CanRun(w, start, trace) && After(w, start, trace) == state && state.disk == disk
    }

    ghost method Restart()
      modifies this`start, this`trace, this`state
      ensures CanRun(w, start, trace) && After(w, start, trace) == state == start == State(disk, Idle)
    {
      start, trace, state := State(disk, Idle), [], State(disk, Idle);
    }

    ghost method Step(a: Action)
      requires CanRun(w, start, trace) && After(w, start, trace) == state && Enabled(state, a)
      modifies this`trace, this`state
      ensures CanRun(w, start, trace) && After(w, start, trace) == state == Apply(w, old(state), a)
    {
      OneMore(w, start, trace, a);
      trace, state := trace + [a], Apply(w, state, a);
    }

    method InstallOne(art: Artifact, offline: bool, env: Environment) returns (r: Result<bool>)
      modifies this
      ensures Traced() && start == State(old(disk), Idle)
      ensures state.process == Running(art, offline, Finished(r))
      ensures r == Outcome(w, old(disk), art, offline, env)
      ensures disk.staging.None? && disk.partial.None? && disk.tars == old(disk.tars)
      ensures disk.dest ==
              if r == Ok(true) then Some(Published(w, art, Fresh(w, old(disk), art, offline, env).value))
              else if IsValid(w, old(disk).dest, art) == Ok(false) && !Barred(old(disk).dest) then None
              else old(disk).dest
    {
      hide IsValid;
      hide Inventory;
      hide StagedError;
      hide Unpacked;
      hide Admit;
      hide Staged;
      hide CanRun;
      hide After;
      hide Published;
      hide OnLookup;
      hide OnVerify;
      hide OnUnpack;
      hide OnTry;
      hide OnMark;
      hide OnRename;
      hide OnCrash;
      Restart();
      disk := disk.(staging := None, partial := None);
      Step(Begin(art, offline));
      ghost var before := disk;
      var valid := IsValid(w, disk.dest, art);
      Step(Inspect(env.installedMatch));
      if valid.Err? {
        return Err(valid.error);
      }
      if valid.value {
        return if env.installedMatch then Ok(false) else Err(ToolError("EXECUTABLE_VERSION_MISMATCH"));
      }
      if Barred(disk.dest) {
        Step(Fail(ToolError("PARTIAL_INSTALL_CLEANUP_FAILED"), true));
        return Err(ToolError("PARTIAL_INSTALL_CLEANUP_FAILED"));
      }
      if disk.dest.Some? {
        disk := disk.(dest := None);
        Step(Cleared);
      }
      FreshFrame(w, before, disk, art, offline, env);
      hide Fresh;
      var tree := InstallAnew(art, offline, env);
      r := if tree.Ok? then Ok(true) else Err(tree.error);
    }

    /** The part of an install that follows the clearing of the destination. */
    method InstallAnew(art: Artifact, offline: bool, env: Environment) returns (r: Result<Tree>)
      requires Traced() && state.process == Running(art, offline, Cache)
      requires disk.staging.None? && disk.partial.None? && disk.dest.None?
      modifies this`disk, this`trace, this`state
      ensures Traced() && r == Fresh(w, old(disk), art, offline, env)
      ensures state.process == Running(art, offline, Finished(if r.Ok? then Ok(true) else Err(r.error)))
      ensures disk.staging.None? && disk.partial.None? && disk.tars == old(disk.tars)
      ensures disk.dest == if r.Ok? then Some(Published(w, art, r.value)) else None
    {
      hide IsValid;
      hide Inventory;
      hide StagedError;
      hide Unpacked;
      hide Admit;
      hide Staged;
      hide CanRun;
      hide After;
      hide Published;
      hide Archive;
      hide Apply;
      var bytes := ObtainArchive(art, offline, env);
      if bytes.Err? {
        return Err(bytes.error);
      }
      var staged := UnpackArchive(art, offline, bytes.value);
      if staged.Err? {
        return Err(staged.error);
      }
      var published := PublishStaged(art, offline, staged.value, env);
      r := Admit(staged.value, art, env);
    }

    method ObtainArchive(art: Artifact, offline: bool, env: Environment) returns (r: Result<string>)
      requires Traced() && state.process == Running(art, offline, Cache)
      requires disk.staging.None? && disk.partial.None? && disk.dest.None?
      modifies this`disk, this`trace, this`state
      ensures Traced() && r == Archive(w, old(disk), art, offline, env)
      ensures r.Err? ==>
        && state.process == Running(art, offline, Finished(Err(r.error))) && disk.dest.None?
        && disk.partial.None? && disk.staging.None? && disk.tars == old(disk.tars)
      ensures r.Ok? ==>
        && state.process == Running(art, offline, Unpack(0)) && disk.dest.None? && disk.partial.None?
        && disk.staging == Some(map[]) && disk.tars == old(disk.tars) + 1
        && art.sha in disk.cache && disk.cache[art.sha] == r.value
    {
      hide CanRun;
      hide After;
      hide IsValid;
      hide Unpacked;
      if art.sha in disk.cache && w.hash(disk.cache[art.sha]) == art.sha {
        Step(Lookup);
        disk := disk.(staging := Some(map[]), tars := disk.tars + 1);
        return Ok(disk.cache[art.sha]);
      }
      Step(Lookup);
      disk := disk.(cache := disk.cache - {art.sha});
      if offline {
        return Err(ToolError("OFFLINE_CACHE_MISS"));
      }
      if env.download.None? {
        Step(Fail(ToolError("DOWNLOAD_FAILED"), true));
        return Err(ToolError("DOWNLOAD_FAILED"));
      }
      disk := disk.(partial := env.download);
      Step(Receive(env.download.value));
      Step(Verify);
      if w.hash(env.download.value) != art.sha {
        disk := disk.(partial := None);
        return Err(ToolError("TOOL_CHECKSUM_MISMATCH"));
      }
      disk := disk.(cache := disk.cache[art.sha := env.download.value], partial := None);
      disk := disk.(staging := Some(map[]), tars := disk.tars + 1);
      return Ok(env.download.value);
    }

    method UnpackArchive(art: Artifact, offline: bool, bytes: string) returns (r: Result<Tree>)
      requires Traced() && state.process == Running(art, offline, Unpack(0)) && disk.dest.None?
      requires disk.staging == Some(map[]) && disk.tars > 0 && disk.partial.None?
      requires art.sha in disk.cache && disk.cache[art.sha] == bytes
      modifies this`disk, this`trace, this`state
      ensures Traced() && r == Staged(w, art, bytes)
      ensures disk.dest.None? && disk.partial.None? && disk.tars == old(disk.tars) - 1
      ensures r.Err? ==>
        state.process == Running(art, offline, Finished(Err(r.error))) && disk.staging.None?
      ensures r.Ok? ==>
        state.process == Running(art, offline, Validate) && disk.staging == Some(r.value)
    {
      hide CanRun;
      hide After;
      hide UnpackSteps;
      hide Inventory;
      hide StagedError;
      hide IsValid;
      var entries := w.decode(bytes);
      if entries.None? {
        Step(UnpackNext);
        disk := disk.(staging := None, tars := disk.tars - 1);
        return Err(ToolError("ARCHIVE_DECOMPRESSION_FAILED"));
      }
      var c := ConfigOf(w, art);
      var steps := UnpackSteps(entries.value, c);
      var done := 0;
      while done < steps
        invariant 0 <= done <= steps
        invariant Traced() && state.process == Running(art, offline, Unpack(done)) && disk.dest.None?
        invariant disk.tars == old(disk.tars) && disk.partial.None?
        invariant art.sha in disk.cache && disk.cache[art.sha] == bytes
        invariant Unpacked(entries.value, c, done).failure.None?
        invariant disk.staging == Some(Unpacked(entries.value, c, done).tree)
        decreases steps - done
      {
        Step(UnpackNext);
        var next := Unpacked(entries.value, c, done + 1);
        if next.failure.Some? {
          disk := disk.(staging := None, tars := disk.tars - 1);
          FailedUnpacking(entries.value, c, done + 1);
          return Err(next.failure.value);
        }
        disk := disk.(staging := Some(next.tree));
        done := done + 1;
      }
      UnpackedAll(entries.value, c, done);
      Step(UnpackNext);
      disk := disk.(tars := disk.tars - 1);
      return Ok(disk.staging.value);
    }

    method PublishStaged(art: Artifact, offline: bool, t: Tree, env: Environment) returns (r: Result<bool>)
      requires Traced() && state.process == Running(art, offline, Validate) && disk.dest.None?
      requires disk.staging == Some(t) && disk.partial.None?
      modifies this`disk, this`trace, this`state
      ensures Traced() && state.process == Running(art, offline, Finished(r))
      ensures r == if Admit(t, art, env).Ok? then Ok(true) else Err(Admit(t, art, env).error)
      ensures disk.dest == if r.Ok? then Some(Published(w, art, t)) else None
      ensures disk.staging.None? && disk.partial.None? && disk.tars == old(disk.tars)
    {
      hide CanRun;
      hide After;
      hide IsValid;
      hide Unpacked;
      Step(Try(env.stagedMatch));
      var wrong := StagedError(t, art);
      if wrong.Some? || !env.stagedMatch {
        disk := disk.(staging := None);
        return Err(if wrong.Some? then wrong.value else ToolError("EXECUTABLE_VERSION_MISMATCH"));
      }
      Step(WriteMarker);
      if !AllListable(t) || MarkerPath() in t {
        disk := disk.(staging := None);
        return Err(if AllListable(t) then ToolError("FILE_CREATE_FAILED") else Unsafe());
      }
      disk := disk.(staging := Some(Published(w, art, t)));
      Step(Rename);
      disk := disk.(dest := disk.staging, staging := None);
      return Ok(true);
    }
  }

  /** The first step that fails decides the extraction. */
  lemma {:induction false} FailedUnpacking(entries: seq<Entry>, c: Config, k: nat)
    requires k <= UnpackSteps(entries, c) && Unpacked(entries, c, k).failure.Some?
    ensures Extracted(entries, c).failure == Unpacked(entries, c, k).failure
  {
    if k <= |entries| {
      EntriesStop(entries, k, |entries|, c.root, c.limit);
    } else if Entries(entries, c).failure.None? {
      var st := Entries(entries, c);
      LinksStop(st, k - |entries|, |st.links|, c.dirSize, c.limit);
    }
  }
}
