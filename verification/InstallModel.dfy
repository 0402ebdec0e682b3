/** The install protocol of `installer.rs` (`install_one`, `download_verified`, `install_is_valid_with_cancellation`
    and the cleanup that starts an `install`) as single steps on the disk, any of which may be the last one before a
    crash. */
module InstallModel {
  import opened Common
  import opened ArchiveTree
  import opened Extract
  import Utf8

  // ---- Artifacts, markers, inventories ----

  datatype Artifact = Artifact(
    name: string, version: string, sha: string, root: Path, executables: seq<Path>, licenses: seq<Path>)

  datatype Record = Record(size: nat, digest: string)

  datatype Marker = Marker(schema: nat, name: string, version: string, sha: string, files: map<Path, Record>)

  /** The digest, the archive format and the marker's serialisation, and the limits of an extraction. */
  datatype World = World(
    hash: string -> string, decode: string -> Option<seq<Entry>>,
    write: Marker -> string, read: string -> Option<Marker>, limit: nat, dirSize: nat)

  const MARKER_NAME := "install.json"

  function MarkerPath(): Path {
    [MARKER_NAME]
  }

  function ToolError(name: string): Failure {
    Failure(Tool, Other(name))
  }

  predicate Utf8Path(p: Path) {
    forall i :: 0 <= i < |p| ==> Utf8.Valid(p[i])
  }

  /** What `inventory_tree` can list: directories, and files whose path is UTF-8. */
  predicate Listable(p: Path, node: Node) {
    node.Dir? || (node.File? && Utf8Path(p))
  }

  /** Nothing but the marker stops `inventory_tree`. */
  predicate AllListable(t: Tree) {
    forall p :: p in t && p != MarkerPath() ==> Listable(p, t[p])
  }

  /** `inventory_tree`: every file but the marker. */
  function Inventory(w: World, t: Tree): map<Path, Record> {
    map p | p in t && t[p].File? && p != MarkerPath() :: Record(|t[p].bytes|, w.hash(t[p].bytes))
  }

  function MarkerFor(w: World, art: Artifact, t: Tree): Marker {
    Marker(2, art.name, art.version, art.sha, Inventory(w, t))
  }

  /** Any execute bit. */
  predicate Runnable(mode: nat) {
    mode % 2 == 1 || (mode / 8) % 2 == 1 || (mode / 64) % 2 == 1
  }

  function ExecutableError(t: Tree, p: Path): Option<Failure> {
    if p !in t then Some(ToolError("EXECUTABLE_MISSING"))
    else if !t[p].File? then Some(Unsafe())
    else if !Runnable(t[p].mode) then Some(ToolError("EXECUTABLE_NOT_RUNNABLE"))
    else None
  }

  /** What a name gives that is opened as a file: links are followed. */
  function Opened(node: Node): Option<string> {
    match node
    case Dir => None
    case File(bytes, _) => Some(bytes)
    case Foreign(leadsTo) => leadsTo
  }

  function LicenseError(t: Tree, p: Path): Option<Failure> {
    if p in t && Opened(t[p]).Some? then None else Some(ToolError("LICENSE_FILE_MISSING"))
  }

  /** The first error of a list of checks. */
  function FirstError(paths: seq<Path>, check: Path -> Option<Failure>): Option<Failure> {
    if paths == [] then None
    else if check(paths[0]).Some? then check(paths[0])
    else FirstError(paths[1..], check)
  }

  /** `validate_staged`. */
  function StagedError(t: Tree, art: Artifact): Option<Failure> {
    var first := FirstError(art.executables, p => ExecutableError(t, p));
    if first.Some? then first else FirstError(art.licenses, p => LicenseError(t, p))
  }

  predicate Describes(m: Marker, art: Artifact) {
    m.schema == 2 && m.name == art.name && m.version == art.version && m.sha == art.sha
  }

  /** Something other than a directory is where the destination should be. */
  predicate Barred(dest: Option<Tree>) {
    dest.Some? && [] in dest.value
  }

  /** The text of the marker, if it is a file or leads to one. */
  function MarkerText(dest: Option<Tree>): Option<string> {
    if dest.None? || Barred(dest) || MarkerPath() !in dest.value then None else Opened(dest.value[MarkerPath()])
  }

  /** `install_is_valid_with_cancellation`. */
  function IsValid(w: World, dest: Option<Tree>, art: Artifact): Result<bool> {
    if MarkerText(dest).None? then Ok(false)
    else
      var marker := w.read(MarkerText(dest).value);
      if marker.None? then Err(ToolError("MARKER_INVALID"))
      else if !Describes(marker.value, art) then Ok(false)
      else
        var wrong := StagedError(dest.value, art);
        if wrong.Some? then Err(wrong.value)
        else if !AllListable(dest.value) then Err(Unsafe())
        else Ok(Inventory(w, dest.value) == marker.value.files)
  }

  // ---- The machine ----

  /** What is on the disk: the destination, the verified archives by hash, a download in progress, a staging directory,
      and how many expanded archives lie beside it. */
  datatype Disk = Disk(
    dest: Option<Tree>, cache: map<string, string>, partial: Option<string>, staging: Option<Tree>, tars: nat)

  datatype Stage =
    | Check | Clear | Cache | Fetch | Unpack(done: nat) | Validate | Mark | Publish | Finished(result: Result<bool>)

  datatype Process = Idle | Running(art: Artifact, offline: bool, stage: Stage)

  datatype State = State(disk: Disk, process: Process)

  datatype Action =
    | Begin(art: Artifact, offline: bool)
    | Inspect(versionsMatch: bool)
    | Erase(kept: set<Path>)
    | Cleared
    | Lookup
    | Receive(bytes: string)
    | Verify
    | UnpackNext
    | Try(versionsMatch: bool)
    | WriteMarker
    | Rename
    | Fail(error: Failure, swept: bool)
    | Return
    | Crash(torn: Option<string>)
    | OutsideChange(dest: Option<Tree>, cache: map<string, string>)

  function ConfigOf(w: World, art: Artifact): Config {
    Config(art.root, w.limit, w.dirSize)
  }

  /** The extraction after `k` entries and hard links. */
  function Unpacked(entries: seq<Entry>, c: Config, k: nat): Progress {
    if k <= |entries| then AllEntries(entries, k, c.root, c.limit)
    else
      var st := Entries(entries, c);
      if st.failure.Some? then st else AllLinks(st, Min(k - |entries|, |st.links|), c.dirSize, c.limit)
  }

  function UnpackSteps(entries: seq<Entry>, c: Config): nat {
    |entries| + |Entries(entries, c).links|
  }

  function Go(s: State, stage: Stage): State
    requires s.process.Running?
  {
    s.(process := s.process.(stage := stage))
  }

  /** Giving up during or after unpacking: the staging directory is removed, unless that fails too. */
  function Abandon(s: State, error: Failure, swept: bool): State
    requires s.process.Running?
  {
    var tars := if s.process.stage.Unpack? && s.disk.tars > 0 then s.disk.tars - 1 else s.disk.tars;
    var disk := s.disk.(tars := tars, staging := if swept then None else s.disk.staging, partial := None);
    Go(s.(disk := disk), Finished(Err(error)))
  }

  function StartUnpacking(s: State): State
    requires s.process.Running?
  {
    Go(s.(disk := s.disk.(staging := Some(map[]), tars := s.disk.tars + 1)), Unpack(0))
  }

  function OnLookup(w: World, s: State): State
    requires s.process.Running?
  {
    var sha, cache := s.process.art.sha, s.disk.cache;
    if sha in cache && w.hash(cache[sha]) == sha then StartUnpacking(s)
    else
      var dropped := s.(disk := s.disk.(cache := cache - {sha}));
      if s.process.offline then Go(dropped, Finished(Err(ToolError("OFFLINE_CACHE_MISS")))) else Go(dropped, Fetch)
  }

  function OnVerify(w: World, s: State): State
    requires s.process.Running? && s.disk.partial.Some?
  {
    var sha, bytes := s.process.art.sha, s.disk.partial.value;
    if w.hash(bytes) == sha then
      StartUnpacking(s.(disk := s.disk.(cache := s.disk.cache[sha := bytes], partial := None)))
    else Abandon(s, ToolError("TOOL_CHECKSUM_MISMATCH"), true)
  }

  function OnUnpack(w: World, s: State, k: nat): State
    requires s.process.Running? && s.process.stage == Unpack(k)
  {
    var art := s.process.art;
    if art.sha !in s.disk.cache || w.decode(s.disk.cache[art.sha]).None? then
      Abandon(s, ToolError("ARCHIVE_DECOMPRESSION_FAILED"), true)
    else
      var entries, c := w.decode(s.disk.cache[art.sha]).value, ConfigOf(w, art);
      if k >= UnpackSteps(entries, c) then
        Go(s.(disk := s.disk.(tars := if s.disk.tars > 0 then s.disk.tars - 1 else 0)), Validate)
      else
        var next := Unpacked(entries, c, k + 1);
        if next.failure.Some? then Abandon(s, next.failure.value, true)
        else Go(s.(disk := s.disk.(staging := Some(next.tree))), Unpack(k + 1))
  }

  function OnTry(s: State, versionsMatch: bool): State
    requires s.process.Running? && s.disk.staging.Some?
  {
    var wrong := StagedError(s.disk.staging.value, s.process.art);
    if wrong.Some? then Abandon(s, wrong.value, true)
    else if !versionsMatch then Abandon(s, ToolError("EXECUTABLE_VERSION_MISMATCH"), true)
    else Go(s, Mark)
  }

  function OnMark(w: World, s: State): State
    requires s.process.Running? && s.disk.staging.Some?
  {
    var t := s.disk.staging.value;
    if !AllListable(t) then Abandon(s, Unsafe(), true)
    else if MarkerPath() in t then Abandon(s, ToolError("FILE_CREATE_FAILED"), true)
    else Go(s.(disk := s.disk.(staging := Some(Published(w, s.process.art, t)))), Publish)
  }

  /** A tree with the marker that lists it. */
  function Published(w: World, art: Artifact, t: Tree): Tree {
    t[MarkerPath() := File(w.write(MarkerFor(w, art, t)), 0x1A4)]
  }

  function OnRename(s: State): State
    requires s.process.Running? && s.disk.staging.Some?
  {
    if s.disk.dest.Some? && s.disk.dest.value != map[] then Abandon(s, ToolError("ATOMIC_INSTALL_FAILED"), true)
    else Go(s.(disk := s.disk.(dest := s.disk.staging, staging := None)), Finished(Ok(true)))
  }

  function OnInspect(w: World, s: State, versionsMatch: bool): State
    requires s.process.Running?
  {
    match IsValid(w, s.disk.dest, s.process.art)
    case Err(e) => Go(s, Finished(Err(e)))
    case Ok(true) =>
      Go(s, Finished(if versionsMatch then Ok(false) else Err(ToolError("EXECUTABLE_VERSION_MISMATCH"))))
    case Ok(false) => Go(s, if s.disk.dest.Some? then Clear else Cache)
  }

  /** Some of the destination's files and directories are gone. */
  function Thinned(t: Tree, kept: set<Path>): Tree {
    map p | p in t && p in kept :: t[p]
  }

  /** A crash leaves the disk as it is, but for a marker that was being written. */
  function OnCrash(s: State, torn: Option<string>): State {
    var staging :=
      if s.process.Running? && s.process.stage.Mark? && s.disk.staging.Some? && torn.Some? then
        Some(s.disk.staging.value[MarkerPath() := File(torn.value, 0x1A4)])
      else s.disk.staging;
    State(s.disk.(staging := staging), Idle)
  }

  predicate In(s: State, stage: Stage) {
    s.process.Running? && s.process.stage == stage
  }

  /** When an action can happen. */
  predicate Enabled(s: State, a: Action) {
    match a
    case Begin(_, _) => s.process.Idle?
    case Inspect(_) => In(s, Check)
    case Erase(_) => In(s, Clear) && s.disk.dest.Some? && !Barred(s.disk.dest)
    case Cleared => In(s, Clear) && !Barred(s.disk.dest)
    case Lookup => In(s, Cache)
    case Receive(_) => In(s, Fetch)
    case Verify => In(s, Fetch) && s.disk.partial.Some?
    case UnpackNext => s.process.Running? && s.process.stage.Unpack?
    case Try(_) => In(s, Validate) && s.disk.staging.Some?
    case WriteMarker => In(s, Mark) && s.disk.staging.Some?
    case Rename => In(s, Publish) && s.disk.staging.Some?
    case Fail(_, _) => s.process.Running? && !s.process.stage.Finished?
    case Return => s.process.Running? && s.process.stage.Finished?
    case Crash(_) => true
    case OutsideChange(_, _) => s.process.Idle?
  }

  function Apply(w: World, s: State, a: Action): State
    requires Enabled(s, a)
  {
    match a
    case Begin(art, offline) => State(s.disk.(staging := None, partial := None), Running(art, offline, Check))
    case Inspect(versionsMatch) => OnInspect(w, s, versionsMatch)
    case Erase(kept) => s.(disk := s.disk.(dest := Some(Thinned(s.disk.dest.value, kept))))
    case Cleared => Go(s.(disk := s.disk.(dest := None)), Cache)
    case Lookup => OnLookup(w, s)
    case Receive(bytes) => s.(disk := s.disk.(partial := Some(bytes)))
    case Verify => OnVerify(w, s)
    case UnpackNext => OnUnpack(w, s, s.process.stage.done)
    case Try(versionsMatch) => OnTry(s, versionsMatch)
    case WriteMarker => OnMark(w, s)
    case Rename => OnRename(s)
    case Fail(error, swept) => Abandon(s, error, swept)
    case Return => s.(process := Idle)
    case Crash(torn) => OnCrash(s, torn)
    case OutsideChange(dest, cache) => s.(disk := s.disk.(dest := dest, cache := cache))
  }

  ghost predicate CanRun(w: World, s: State, actions: seq<Action>)
    decreases |actions|
  {
    actions == [] ||
    (CanRun(w, s, actions[..|actions| - 1])
     && Enabled(After(w, s, actions[..|actions| - 1]), actions[|actions| - 1]))
  }

  function After(w: World, s: State, actions: seq<Action>): State
    decreases |actions|
  {
    if actions == [] then s
    else
      var before := After(w, s, actions[..|actions| - 1]);
      if Enabled(before, actions[|actions| - 1]) then Apply(w, before, actions[|actions| - 1]) else before
  }
}
