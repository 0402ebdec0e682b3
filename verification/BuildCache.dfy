/** The incremental build: the per-source loop of `build` and `is_current` in `pipeline.rs`, over a disk of files with
    modification times and a compiler that is any function of what it is given. */
module BuildCache {
  import opened Common
  import opened MakeRules
  import opened BuildOutputs

  datatype File = File(data: string, time: nat)

  /** The project's sources and headers. */
  type Project = map<Path, File>

  /** The files under the output directory. */
  type Disk = map<OutPath, File>

  datatype Outcome = Compiled(code: string, rule: string) | Refused

  /** What a build does not choose: the project's root, the compiler (given a job, the staged outputs and the files'
      contents), the serialisation of stamps, and the order in which a set of paths is visited. */
  datatype Setting = Setting(
    root: Path,
    cc: (Job, Slot, map<Path, string>) -> Outcome,
    encode: (string, seq<string>) -> string,
    arrange: set<Path> -> seq<Path>)

  datatype Input = Input(path: Path, basename: string, flags: seq<string>)

  /** One call of `build`: the plan's outputs and sources, the compiler's identity, the staging directory, the time each
      compilation takes, and the first check that finds the call cancelled. */
  datatype Run = Run(
    dir: Path, sources: seq<Input>, identity: string, staging: Path, elapsed: nat, cancelled: Option<nat>)

  function ProjectError(name: string): Failure {
    Failure(Project, Other(name))
  }

  function DependencyMissing(): Failure {
    ProjectError("DEPENDENCY_MISSING")
  }

  function Contents(project: Project): map<Path, string> {
    map p | p in project :: project[p].data
  }

  function Join(root: Path, value: Path): Path {
    if value != [] && value[0] == '/' then value else root + (['/'] + value)
  }

  function Joined(root: Path, values: seq<Path>): set<Path> {
    set v | v in values :: Join(root, v)
  }

  /** The source and the inputs its dependency file lists. */
  function InputsOf(root: Path, source: Path, rule: string): set<Path> {
    {source} + Joined(root, ListedInputs(rule))
  }

  function StampText(s: Setting, slot: Slot, job: Job): string {
    s.encode(job.identity, StampArgs(slot, job))
  }

  /** The three outputs of a slot are there and the stamp is the one of this job. */
  predicate Stamped(s: Setting, disk: Disk, slot: Slot, job: Job) {
    && ObjectOf(slot) in disk && DependencyOf(slot) in disk && StampOf(slot) in disk
    && disk[StampOf(slot)].data == StampText(s, slot, job)
  }

  /** The first input that is missing or newer than the object decides. */
  function Check(inputs: seq<Path>, project: Project, time: nat): Result<bool> {
    if inputs == [] then Ok(true)
    else if inputs[0] !in project then Err(DependencyMissing())
    else if project[inputs[0]].time > time then Ok(false)
    else Check(inputs[1..], project, time)
  }

  function StoredInputs(s: Setting, disk: Disk, slot: Slot, job: Job): set<Path>
    requires DependencyOf(slot) in disk
  {
    InputsOf(s.root, job.source, disk[DependencyOf(slot)].data)
  }

  function Current(s: Setting, project: Project, disk: Disk, slot: Slot, job: Job): Result<bool> {
    if !Stamped(s, disk, slot, job) then Ok(false)
    else Check(s.arrange(StoredInputs(s, disk, slot, job)), project, disk[ObjectOf(slot)].time)
  }

  /** The outputs after the first `phase` of object, dependency file and stamp have been put in place. */
  function Promote(s: Setting, disk: Disk, slot: Slot, job: Job, product: Outcome, time: nat, phase: nat): Disk
    requires product.Compiled?
  {
    if phase == 0 then disk
    else
      var one := disk[ObjectOf(slot) := File(product.code, time)];
      if phase == 1 then one
      else
        var two := one[DependencyOf(slot) := File(product.rule, time)];
        if phase == 2 then two else two[StampOf(slot) := File(StampText(s, slot, job), time)]
  }

  /** How far a build has come; nothing follows a failure. */
  datatype Progress = Progress(
    disk: Disk, clock: nat, compiled: nat, reused: nat, objects: seq<OutPath>, failure: Option<Failure>)

  function Start(disk: Disk, clock: nat): Progress {
    Progress(disk, clock, 0, 0, [], None)
  }

  function SlotAt(run: Run, i: nat): Slot
    requires i < |run.sources|
  {
    SlotOf(run.dir, i, run.sources[i].basename)
  }

  function StagedAt(run: Run, i: nat): Slot
    requires i < |run.sources|
  {
    SlotOf(run.staging, i, run.sources[i].basename)
  }

  function JobAt(run: Run, i: nat): Job
    requires i < |run.sources|
  {
    Job(run.identity, run.sources[i].flags, run.sources[i].path)
  }

  predicate CancelledBy(run: Run, i: nat) {
    run.cancelled.Some? && run.cancelled.value <= i
  }

  function Product(s: Setting, project: Project, run: Run, i: nat): Outcome
    requires i < |run.sources|
  {
    s.cc(JobAt(run, i), StagedAt(run, i), Contents(project))
  }

  predicate Usable(product: Outcome) {
    product.Compiled? && product.code != [] && product.rule != []
  }

  function OneSource(s: Setting, project: Project, run: Run, i: nat, st: Progress): Progress
    requires i < |run.sources| && st.failure.None?
  {
    var slot, job := SlotAt(run, i), JobAt(run, i);
    if CancelledBy(run, i) then st.(failure := Some(Failure(Interrupted, INTERRUPTED)))
    else
      match Current(s, project, st.disk, slot, job)
      case Err(e) => st.(failure := Some(e))
      case Ok(true) => st.(reused := st.reused + 1, objects := st.objects + [ObjectOf(slot)])
      case Ok(false) =>
        var product := Product(s, project, run, i);
        if product.Refused? then st.(failure := Some(ProjectError("COMPILE_FAILED")))
        else if !Usable(product) then st.(failure := Some(ProjectError("EXPECTED_OUTPUT_INVALID")))
        else
          var clock := st.clock + run.elapsed;
          Progress(Promote(s, st.disk, slot, job, product, clock, 3), clock,
                   st.compiled + 1, st.reused, st.objects + [ObjectOf(slot)], None)
  }

  function BuildPrefix(s: Setting, project: Project, run: Run, start: Progress, n: nat): Progress
    requires n <= |run.sources|
  {
    if n == 0 then start
    else
      var st := BuildPrefix(s, project, run, start, n - 1);
      if st.failure.Some? then st else OneSource(s, project, run, n - 1, st)
  }

  // ---- The code ----

  /** The inputs of a dependency file, collected into a set. */
  method ReadInputs(root: Path, source: Path, text: string) returns (inputs: set<Path>)
    ensures inputs == InputsOf(root, source, text)
  {
    hide Unfold;
    hide Paragraph;
    hide MakeWords;
    hide BeforeTarget;
    inputs := {source};
    var rule := Paragraph(Unfold(text));
    var colon := FirstIndex(rule, ':');
    if colon < |rule| {
      var words := ParseMakeWords(rule[colon + 1..]);
      var listed := CollectInputs(root, words);
      inputs := inputs + listed;
    }
  }

  method CollectInputs(root: Path, words: seq<string>) returns (inputs: set<Path>)
    ensures inputs == Joined(root, BeforeTarget(words))
  {
    inputs := {};
    var i := 0;
    while i < |words| && !EndsInColon(words[i])
      invariant 0 <= i <= |words|
      invariant forall j :: 0 <= j < i ==> !EndsInColon(words[j])
      invariant inputs == Joined(root, words[..i])
    {
      JoinedStep(root, words, i);
      inputs := inputs + {Join(root, words[i])};
      i := i + 1;
    }
    BeforeTargetStops(words, words[..i]);
  }

  lemma {:induction false} JoinedStep(root: Path, values: seq<Path>, i: nat)
    requires i < |values|
    ensures Joined(root, values[..i + 1]) == Joined(root, values[..i]) + {Join(root, values[i])}
  {
    assert values[..i + 1] == values[..i] + [values[i]];
  }

  method IsCurrent(s: Setting, project: Project, disk: Disk, slot: Slot, source: Path, command: string)
    returns (r: Result<bool>)
    ensures forall job: Job :: job.source == source && StampText(s, slot, job) == command ==>
      r == Current(s, project, disk, slot, job)
  {
    if ObjectOf(slot) !in disk || DependencyOf(slot) !in disk || StampOf(slot) !in disk
       || disk[StampOf(slot)].data != command {
      return Ok(false);
    }
    var time := disk[ObjectOf(slot)].time;
    var inputs := ReadInputs(s.root, source, disk[DependencyOf(slot)].data);
    var order := s.arrange(inputs);
    for i := 0 to |order|
      invariant Check(order, project, time) == Check(order[i..], project, time)
    {
      assert order[i..][1..] == order[i + 1..];
      if order[i] !in project {
        return Err(DependencyMissing());
      }
      if project[order[i]].time > time {
        return Ok(false);
      }
    }
    return Ok(true);
  }

  datatype Report = Report(compiled: nat, reused: nat, objects: seq<OutPath>)

  class BuildDirectory {
    var disk: Disk
    var clock: nat

    constructor (disk: Disk, clock: nat)
      ensures this.disk == disk && this.clock == clock
    {
      this.disk := disk;
      this.clock := clock;
    }

    /** The compilation of one source and the three promotions. */
    method CompileSource(s: Setting, project: Project, run: Run, i: nat) returns (failure: Option<Failure>)
      requires i < |run.sources|
      modifies this
      ensures var product := Product(s, project, run, i);
              if product.Refused? then
                failure == Some(ProjectError("COMPILE_FAILED")) && disk == old(disk) && clock == old(clock)
              else if !Usable(product) then
                failure == Some(ProjectError("EXPECTED_OUTPUT_INVALID")) && disk == old(disk) && clock == old(clock)
              else
                && failure == None && clock == old(clock) + run.elapsed
                && disk == Promote(s, old(disk), SlotAt(run, i), JobAt(run, i), product, clock, 3)
    {
      var slot, job := SlotAt(run, i), JobAt(run, i);
      var product := s.cc(job, StagedAt(run, i), Contents(project));
      if product.Refused? {
        return Some(ProjectError("COMPILE_FAILED"));
      }
      if product.code == [] || product.rule == [] {
        return Some(ProjectError("EXPECTED_OUTPUT_INVALID"));
      }
      clock := clock + run.elapsed;
      disk := disk[ObjectOf(slot) := File(product.code, clock)];
      disk := disk[DependencyOf(slot) := File(product.rule, clock)];
      disk := disk[StampOf(slot) := File(StampText(s, slot, job), clock)];
      return None;
    }

    /** One turn of the loop over the sources. */
    method BuildSource(s: Setting, project: Project, run: Run, i: nat) returns (r: Result<bool>)
      requires i < |run.sources| && Private(StagedAt(run, i), JobAt(run, i))
      modifies this
      ensures var end := OneSource(s, project, run, i, Start(old(disk), old(clock)));
              && disk == end.disk && clock == end.clock
              && r == if end.failure.Some? then Err(end.failure.value) else Ok(end.reused == 1)
    {
      if CancelledBy(run, i) {
        return Err(Failure(Interrupted, INTERRUPTED));
      }
      var slot, staged, job := SlotAt(run, i), StagedAt(run, i), JobAt(run, i);
      StagingForgotten(staged, slot, job);
      var command := s.encode(job.identity, Fingerprint(StampArgs(staged, job), staged, slot));
      assert command == StampText(s, slot, job);
      var current := IsCurrent(s, project, disk, slot, job.source, command);
      if current.Err? {
        return Err(current.error);
      }
      if current.value {
        return Ok(true);
      }
      var failure := CompileSource(s, project, run, i);
      if failure.Some? {
        return Err(failure.value);
      }
      return Ok(false);
    }

    method Build(s: Setting, project: Project, run: Run) returns (r: Result<Report>)
      requires forall i :: 0 <= i < |run.sources| ==> Private(StagedAt(run, i), JobAt(run, i))
      modifies this
      ensures var end := BuildPrefix(s, project, run, Start(old(disk), old(clock)), |run.sources|);
              && disk == end.disk && clock == end.clock
              && r == if end.failure.Some? then Err(end.failure.value)
                      else if CancelledBy(run, |run.sources|) then Err(Failure(Interrupted, INTERRUPTED))
                      else Ok(Report(end.compiled, end.reused, end.objects))
    {
      hide OneSource;
      ghost var start := Start(disk, clock);
      var compiled, reused, objects := 0, 0, [];
      for i := 0 to |run.sources|
        invariant BuildPrefix(s, project, run, start, i) == Progress(disk, clock, compiled, reused, objects, None)
      {
        OneSourceFrom(s, project, run, i, BuildPrefix(s, project, run, start, i));
        var current := BuildSource(s, project, run, i);
        if current.Err? {
          FailureStays(s, project, run, start, i + 1, |run.sources|);
          return Err(current.error);
        }
        if current.value {
          reused := reused + 1;
        } else {
          compiled := compiled + 1;
        }
        objects := objects + [ObjectOf(SlotAt(run, i))];
      }
      if CancelledBy(run, |run.sources|) {
        return Err(Failure(Interrupted, INTERRUPTED));
      }
      return Ok(Report(compiled, reused, objects));
    }
  }

  /** A turn of the loop depends on the disk and the clock only; the counters add up. */
  lemma OneSourceFrom(s: Setting, project: Project, run: Run, i: nat, st: Progress)
    requires i < |run.sources| && st.failure.None?
    ensures var one, end := OneSource(s, project, run, i, Start(st.disk, st.clock)), OneSource(s, project, run, i, st);
            && end.disk == one.disk && end.clock == one.clock && end.failure == one.failure
            && (end.failure.None? ==>
                 && (if one.reused == 1 then end.reused == st.reused + 1 && end.compiled == st.compiled
                     else end.reused == st.reused && end.compiled == st.compiled + 1)
                 && end.objects == st.objects + [ObjectOf(SlotAt(run, i))])
  {}

  lemma {:induction false} FailureStays(s: Setting, project: Project, run: Run, start: Progress, m: nat, n: nat)
    requires m <= n <= |run.sources| && BuildPrefix(s, project, run, start, m).failure.Some?
    ensures BuildPrefix(s, project, run, start, n) == BuildPrefix(s, project, run, start, m)
    decreases n
  {
    if m < n {
      FailureStays(s, project, run, start, m, n - 1);
    }
  }
}
