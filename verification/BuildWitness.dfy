/** A small compiler that keeps to the rules, and runs with it that end in each of the ways in which a build cache can
    mislead. */
module BuildWitness {
  import opened Common
  import opened MakeRules
  import opened BuildOutputs
  import opened BuildCache
  import opened BuildHistory
  import opened BuildCrash
  import OptionList

  const ROOT: Path := ['/', 'p']
  const SOURCE: Path := ['/', 'p', '/', 'm']
  const HEADER: Path := ['/', 'p', '/', 'b']

  /** The header's name as the compiler lists it, relative to the root. */
  const HEADER_NAME: string := ['b']

  // ---- The compiler ----

  /** A source that reads "2" includes the header; any other includes nothing. */
  function Includes(content: string): bool {
    content == ['2']
  }

  /** The names that a rule lists: the source's own path and a header's relative one. */
  function Read(content: string): seq<string> {
    if Includes(content) then [SOURCE, HEADER_NAME] else [SOURCE]
  }

  function RuleOf(content: string): string {
    RuleText(['o'], Read(content), seq(|Read(content)|, i => Blank), EndOfFile)
  }

  /** The object holds the flags and the contents of what was read. */
  function Toy(job: Job, q: Slot, c: map<Path, string>): Outcome {
    if job.source != SOURCE || SOURCE !in c || (Includes(c[SOURCE]) && HEADER !in c) then Refused
    else
      var read := if Includes(c[SOURCE]) then c[HEADER] else [];
      Compiled((['x'] + Concat(job.flags)) + (c[SOURCE] + read), RuleOf(c[SOURCE]))
  }

  /** What the toy compiler makes of the two sources, without flags and with one. */
  lemma {:induction false} ToyGives(identity: string, q: Slot, c: map<Path, string>)
    ensures SOURCE in c && c[SOURCE] == ['1'] ==>
      && Toy(Job(identity, [], SOURCE), q, c) == Compiled(['x', '1'], RuleOf(['1']))
      && Toy(Job(identity, [['O']], SOURCE), q, c) == Compiled(['x', 'O', '1'], RuleOf(['1']))
    ensures SOURCE in c && c[SOURCE] == ['2'] && HEADER in c ==>
      Toy(Job(identity, [], SOURCE), q, c) == Compiled(['x', '2'] + c[HEADER], RuleOf(['2']))
  {
    hide RuleOf;
    assert Concat([['O']]) == ['O'] + Concat([]) && Concat([]) == [];
    assert SOURCE in c && c[SOURCE] == ['2'] && HEADER in c ==>
      (['x'] + []) + (['2'] + c[HEADER]) == ['x', '2'] + c[HEADER];
  }

  lemma {:induction false} RuleLists(content: string)
    ensures ListedInputs(RuleOf(content)) == Read(content) && RuleOf(content) != []
  {
    RuleRoundTrip(['o'], Read(content), seq(|Read(content)|, i => Blank), EndOfFile);
  }

  lemma {:induction false} InputsOfRule(content: string)
    ensures InputsOf(ROOT, SOURCE, RuleOf(content)) == if Includes(content) then {SOURCE, HEADER} else {SOURCE}
  {
    RuleLists(content);
    hide RuleOf;
    assert Join(ROOT, SOURCE) == SOURCE && Join(ROOT, HEADER_NAME) == HEADER;
    assert forall v :: v in Read(content) <==> v == SOURCE || (Includes(content) && v == HEADER_NAME);
    assert Joined(ROOT, Read(content)) == if Includes(content) then {SOURCE, HEADER} else {SOURCE};
  }

  // ---- Stamps and orders ----

  function Marked(words: seq<string>): (r: seq<string>)
    ensures |r| == |words| && forall i :: 0 <= i < |words| ==> r[i] == ['x'] + words[i]
  {
    seq(|words|, i requires 0 <= i < |words| => ['x'] + words[i])
  }

  /** A stamp is written as a list of quoted words. */
  function Encode(identity: string, args: seq<string>): string {
    OptionList.Line(Marked([identity] + args), seq(|args| + 1, i => [' ']))
  }

  lemma {:induction false} MarkedDetermines(i: string, a: seq<string>, j: string, b: seq<string>)
    requires Marked([i] + a) == Marked([j] + b)
    ensures i == j && a == b
  {
    var v, w := Marked([i] + a), Marked([j] + b);
    hide Marked;
    forall k | 0 <= k < |v| ensures ([i] + a)[k] == ([j] + b)[k] {
      assert v[k][1..] == ([i] + a)[k] && w[k][1..] == ([j] + b)[k];
    }
    assert [i] + a == [j] + b;
    assert ([i] + a)[0] == i && ([i] + a)[1..] == a && ([j] + b)[0] == j && ([j] + b)[1..] == b;
  }

  lemma {:induction false} MarkedReadBack(identity: string, args: seq<string>)
    ensures OptionList.Tokens(Encode(identity, args)) == Some(Marked([identity] + args))
  {
    var words := Marked([identity] + args);
    hide OptionList.Tokens;
    hide OptionList.Line;
    OptionList.QuotingInverts(words, seq(|args| + 1, i => [' ']));
    assert [] !in words;
  }

  lemma {:induction false} EncodeInjective(i: string, a: seq<string>, j: string, b: seq<string>)
    requires Encode(i, a) == Encode(j, b)
    ensures i == j && a == b
  {
    hide *;
    MarkedReadBack(i, a);
    MarkedReadBack(j, b);
    MarkedDetermines(i, a, j, b);
  }

  ghost function Listing(ps: set<Path>): (r: seq<Path>)
    ensures forall x :: x in r <==> x in ps
  {
    if ps == {} then []
    else
      var p :| p in ps;
      [p] + Listing(ps - {p})
  }

  /** Paths in an order that, like the alphabet, puts the header before the source. */
  ghost function Arrange(ps: set<Path>): (r: seq<Path>)
    ensures forall x :: x in r <==> x in ps
    ensures HEADER in ps ==> r != [] && r[0] == HEADER
  {
    if HEADER in ps then [HEADER] + Listing(ps - {HEADER}) else Listing(ps)
  }

  ghost function ToySetting(): Setting {
    Setting(ROOT, Toy, Encode, ps => Arrange(ps))
  }

  lemma {:induction false} ToyPlumbing(cc: (Job, Slot, map<Path, string>) -> Outcome)
    ensures Plumbing(ToySetting().(cc := cc))
  {
    forall ps: set<Path> ensures (set p | p in Arrange(ps)) == ps {}
    forall i, j, a, b | Encode(i, a) == Encode(j, b) ensures i == j && a == b {
      EncodeInjective(i, a, j, b);
    }
  }

  /** The rules can be kept. */
  lemma {:induction false} ToyFaithful()
    ensures Faithful(ToySetting())
  {
    var s := ToySetting();
    ToyPlumbing(Toy);
    assert s.(cc := Toy) == s;
    forall job, p, q, c, d ensures LocalAt(s, job, p, q, c, d) {
      if Toy(job, p, c).Compiled? {
        InputsOfRule(c[SOURCE]);
        hide RuleOf;
      }
    }
    forall job, p, c ensures ListsAt(s, job, p, c) {
      if Toy(job, p, c).Compiled? {
        InputsOfRule(c[SOURCE]);
        hide RuleOf;
      }
    }
  }

  // ---- Runs ----

  function Flagged(flags: seq<string>): Run {
    Run(['d'], [Input(SOURCE, ['m'], flags)], ['g'], ['t'], 0, None)
  }

  function PlainRun(): Run {
    Flagged([])
  }

  function OtherRun(): Run {
    Flagged([['O']])
  }

  function World1(content: string): World {
    World(map[SOURCE := File(content, 1), HEADER := File(['h'], 1)], map[], 1)
  }

  /** What the plain run makes of the two sources. */
  lemma {:induction false} ToyProduct(project: Project)
    ensures SOURCE in project && project[SOURCE].data == ['1'] ==>
      Product(ToySetting(), project, PlainRun(), 0) == Compiled(['x', '1'], RuleOf(['1']))
    ensures SOURCE in project && project[SOURCE].data == ['2'] && HEADER in project ==>
      Product(ToySetting(), project, PlainRun(), 0) == Compiled(['x', '2'] + project[HEADER].data, RuleOf(['2']))
  {
    ToyGives(['g'], StagedAt(PlainRun(), 0), Contents(project));
    hide RuleOf;
    hide Toy;
  }

  lemma {:induction false} OtherProduct(project: Project)
    requires SOURCE in project && project[SOURCE].data == ['1']
    ensures Product(ToySetting(), project, OtherRun(), 0) == Compiled(['x', 'O', '1'], RuleOf(['1']))
    ensures |OtherRun().sources| == 1 && OtherRun().cancelled.None?
    ensures SlotAt(OtherRun(), 0) == SlotAt(PlainRun(), 0) && JobAt(OtherRun(), 0) != JobAt(PlainRun(), 0)
  {
    ToyGives(['g'], StagedAt(OtherRun(), 0), Contents(project));
    hide RuleOf;
    hide Toy;
    assert JobAt(OtherRun(), 0).flags == [['O']] && JobAt(PlainRun(), 0).flags == [];
  }

  lemma {:induction false} ToyInputs()
    ensures |PlainRun().sources| == 1 && PlainRun().cancelled.None? && PlainRun().elapsed == 0
    ensures RuleOf(['1']) != [] && RuleOf(['2']) != []
    ensures InputsOf(ToySetting().root, JobAt(PlainRun(), 0).source, RuleOf(['1'])) == {SOURCE}
    ensures InputsOf(ToySetting().root, JobAt(PlainRun(), 0).source, RuleOf(['2'])) == {SOURCE, HEADER}
  {
    RuleLists(['1']);
    RuleLists(['2']);
    InputsOfRule(['1']);
    InputsOfRule(['2']);
    hide RuleOf;
    hide InputsOf;
  }

  /** A build of one source that is compiled puts its three files in place. */
  lemma {:induction false} BuildOnce(s: Setting, w: World, run: Run)
    requires |run.sources| == 1 && Compiles(s, w.project, run, 0, Start(w.disk, w.clock))
    ensures Apply(s, w, Build(run)) ==
            World(w.project, Promote(s, w.disk, SlotAt(run, 0), JobAt(run, 0), Product(s, w.project, run, 0),
                                     w.clock + run.elapsed, 3), w.clock + run.elapsed)
    ensures Before(s, w, run, 1).failure.None?
  {
    hide OneSource;
    var start := Start(w.disk, w.clock);
    OneSourceIsTurn(s, w.project, run, 0, start);
    assert BuildPrefix(s, w.project, run, start, 0) == start;
    assert BuildPrefix(s, w.project, run, start, 1) == OneSource(s, w.project, run, 0, start);
    CompilingSucceeds(s, w.project, run, 0, start);
  }

  lemma {:induction false} CompilingSucceeds(s: Setting, project: Project, run: Run, i: nat, st: Progress)
    requires i < |run.sources| && st.failure.None? && Compiles(s, project, run, i, st)
    ensures OneSource(s, project, run, i, st).failure.None?
  {
    hide Promote;
    hide Current;
  }

  /** What a first build leaves: the product, current. */
  lemma {:induction false} FirstBuild(s: Setting, w: World, run: Run)
    requires Plumbing(s) && ListsFiles(s) && |run.sources| == 1 && run.cancelled.None? && w.disk == map[]
    requires Timely(w.project, w.disk, w.clock) && Usable(Product(s, w.project, run, 0))
    ensures var v := Apply(s, w, Build(run));
            var slot, job, product := SlotAt(run, 0), JobAt(run, 0), Product(s, w.project, run, 0);
            && v.project == w.project && v.clock == w.clock + run.elapsed && Timely(v.project, v.disk, v.clock)
            && Stamped(s, v.disk, slot, job) && Current(s, v.project, v.disk, slot, job) == Ok(true)
            && v.disk[DependencyOf(slot)].data == product.rule
            && v.disk[ObjectOf(slot)] == File(product.code, v.clock)
  {
    var slot, job, product, time := SlotAt(run, 0), JobAt(run, 0), Product(s, w.project, run, 0), w.clock + run.elapsed;
    BuildOnce(s, w, run);
    PromotedIsCurrent(s, w.project, map[], slot, job, StagedAt(run, 0), time);
    PromoteHere(s, map[], slot, job, product, time);
  }

  /** A build that dies after the object leaves the old dependency file and stamp, and so the old job current. */
  lemma {:induction false} DiesAfterObject(s: Setting, w: World, run: Run, prior: Job)
    requires Plumbing(s) && |run.sources| > 0 && Compiles(s, w.project, run, 0, Start(w.disk, w.clock))
    requires Timely(w.project, w.disk, w.clock) && Stamped(s, w.disk, SlotAt(run, 0), prior)
    requires StoredInputs(s, w.disk, SlotAt(run, 0), prior) <= w.project.Keys
    ensures var slot := SlotAt(run, 0);
            var v := Apply(s, w, Crash(run, 0, 1));
            && v.project == w.project && v.clock == w.clock + run.elapsed
            && Current(s, v.project, v.disk, slot, prior) == Ok(true)
            && v.disk[ObjectOf(slot)].data == Product(s, w.project, run, 0).code
            && StoredInputs(s, v.disk, slot, prior) == StoredInputs(s, w.disk, slot, prior)
  {
    var slot, time := SlotAt(run, 0), w.clock + run.elapsed;
    OutputsDistinct(slot, slot);
    assert Before(s, w, run, 0) == Start(w.disk, w.clock);
    CrashedCurrentIff(s, w.project, w.disk, w.clock, slot, JobAt(run, 0), Product(s, w.project, run, 0), Some(prior),
                      time, 1, prior);
  }

  lemma {:induction false} NotCurrent(s: Setting, project: Project, disk: Disk, slot: Slot, job: Job, p: Path)
    requires Plumbing(s) && Stamped(s, disk, slot, job) && StoredInputs(s, disk, slot, job) <= project.Keys
    requires p in StoredInputs(s, disk, slot, job) && project[p].time > disk[ObjectOf(slot)].time
    ensures Current(s, project, disk, slot, job) == Ok(false)
  {
    var inputs := s.arrange(StoredInputs(s, disk, slot, job));
    var listed := set x | x in inputs;
    assert listed == StoredInputs(s, disk, slot, job) && p in listed;
    forall x | x in inputs ensures x in project {
      assert x in listed;
    }
    CheckFindsNewer(inputs, project, disk[ObjectOf(slot)].time, p);
  }

  lemma {:induction false} CheckFindsNewer(inputs: seq<Path>, project: Project, time: nat, p: Path)
    requires (forall x :: x in inputs ==> x in project) && p in inputs && project[p].time > time
    ensures Check(inputs, project, time) == Ok(false)
  {
    if project[inputs[0]].time <= time {
      CheckFindsNewer(inputs[1..], project, time, p);
    }
  }

  lemma {:induction false} ChangeElsewhere(
    s: Setting, project: Project, disk: Disk, slot: Slot, job: Job, p: Path, file: File)
    requires Plumbing(s) && Current(s, project, disk, slot, job) == Ok(true) && p !in StoredInputs(s, disk, slot, job)
    ensures Current(s, project[p := file], disk, slot, job) == Ok(true)
  {
    CurrentIff(s, project, disk, slot, job);
    CurrentIff(s, project[p := file], disk, slot, job);
    forall x | x in StoredInputs(s, disk, slot, job)
      ensures Older(project[p := file], x, disk[ObjectOf(slot)].time)
    {
      assert Older(project, x, disk[ObjectOf(slot)].time);
    }
  }

  /** A build would reuse an object that is not the one a compilation gives. */
  predicate Misled(s: Setting, w: World, run: Run)
    requires |run.sources| > 0
  {
    && Current(s, w.project, w.disk, SlotAt(run, 0), JobAt(run, 0)) == Ok(true)
    && Product(s, w.project, run, 0).Compiled?
    && w.disk[ObjectOf(SlotAt(run, 0))].data != Product(s, w.project, run, 0).code
  }

  /** A change of a file that is not listed misleads if the compiler gives something else after it. */
  lemma {:induction false} MisledByEdit(s: Setting, w: World, run: Run, path: Path, content: string, time: nat)
    requires Plumbing(s) && |run.sources| > 0 && time > w.clock
    requires Current(s, w.project, w.disk, SlotAt(run, 0), JobAt(run, 0)) == Ok(true)
    requires path !in StoredInputs(s, w.disk, SlotAt(run, 0), JobAt(run, 0))
    requires var x := Product(s, w.project[path := File(content, time)], run, 0);
             x.Compiled? && x.code != w.disk[ObjectOf(SlotAt(run, 0))].data
    ensures Misled(s, Apply(s, w, Edit(path, content, time)), run)
  {
    ChangeElsewhere(s, w.project, w.disk, SlotAt(run, 0), JobAt(run, 0), path, File(content, time));
  }

  /** A listed file changes, and the build that notices it dies after the object: the job stays current. */
  lemma {:induction false} DiesAfterEdit(s: Setting, w: World, run: Run, path: Path, content: string, time: nat)
    requires Plumbing(s) && |run.sources| > 0 && time > w.clock && run.cancelled.None?
    requires Timely(w.project, w.disk, w.clock)
    requires Current(s, w.project, w.disk, SlotAt(run, 0), JobAt(run, 0)) == Ok(true)
    requires path in StoredInputs(s, w.disk, SlotAt(run, 0), JobAt(run, 0))
    requires Usable(Product(s, w.project[path := File(content, time)], run, 0))
    ensures var slot, job := SlotAt(run, 0), JobAt(run, 0);
            var edited := w.project[path := File(content, time)];
            var v := Apply(s, Apply(s, w, Edit(path, content, time)), Crash(run, 0, 1));
            && v.project == edited && v.clock == time + run.elapsed
            && Current(s, v.project, v.disk, slot, job) == Ok(true)
            && v.disk[ObjectOf(slot)].data == Product(s, edited, run, 0).code
            && StoredInputs(s, v.disk, slot, job) == StoredInputs(s, w.disk, slot, job)
  {
    var slot, job := SlotAt(run, 0), JobAt(run, 0);
    var v := Apply(s, w, Edit(path, content, time));
    CurrentIff(s, w.project, w.disk, slot, job);
    forall p | p in StoredInputs(s, w.disk, slot, job) ensures p in v.project {
      assert Older(w.project, p, w.disk[ObjectOf(slot)].time);
    }
    NotCurrent(s, v.project, w.disk, slot, job, path);
    DiesAfterObject(s, v, run, job);
  }

  /** A file that is not listed yet is included, the build that notices dies after the object, and the file changes: the
      object made before that change would be reused. The job and its stamp never change. */
  lemma {:induction false} IncludedLate(
    s: Setting, w: World, run: Run, source: Path, text: string, header: Path, changed: string, t1: nat, t2: nat)
    requires Plumbing(s) && ListsFiles(s) && |run.sources| == 1 && run.cancelled.None? && w.disk == map[]
    requires Timely(w.project, w.disk, w.clock) && w.clock + run.elapsed < t1 && t1 + run.elapsed < t2
    requires var x := Product(s, w.project, run, 0);
             && Usable(x) && source in InputsOf(s.root, JobAt(run, 0).source, x.rule)
             && header !in InputsOf(s.root, JobAt(run, 0).source, x.rule)
    requires var included := w.project[source := File(text, t1)];
             var y, z := Product(s, included, run, 0), Product(s, included[header := File(changed, t2)], run, 0);
             Usable(y) && z.Compiled? && z.code != y.code
    ensures var built := Apply(s, w, Build(run));
            var died := Apply(s, Apply(s, built, Edit(source, text, t1)), Crash(run, 0, 1));
            Misled(s, Apply(s, died, Edit(header, changed, t2)), run)
  {
    hide Current;
    FirstBuild(s, w, run);
    var built := Apply(s, w, Build(run));
    hide Apply;
    assert InputsOf(s.root, JobAt(run, 0).source, Product(s, w.project, run, 0).rule) ==
           StoredInputs(s, built.disk, SlotAt(run, 0), JobAt(run, 0));
    DiesAfterEdit(s, built, run, source, text, t1);
    var died := Apply(s, Apply(s, built, Edit(source, text, t1)), Crash(run, 0, 1));
    MisledByEdit(s, died, run, header, changed, t2);
  }

  lemma {:induction false} LateIncludeMisleads()
    ensures var s, run := ToySetting(), PlainRun();
            var built := Apply(s, World1(['1']), Build(run));
            var died := Apply(s, Apply(s, built, Edit(SOURCE, ['2'], 2)), Crash(run, 0, 1));
            Misled(s, Apply(s, died, Edit(HEADER, ['k'], 3)), run)
  {
    hide Apply;
    hide Misled;
    hide ToySetting;
    hide PlainRun;
    hide Product;
    hide RuleOf;
    hide InputsOf;
    var first := World1(['1']).project;
    var included := first[SOURCE := File(['2'], 2)];
    ToyFaithful();
    ToyInputs();
    ToyProduct(first);
    ToyProduct(included);
    ToyProduct(included[HEADER := File(['k'], 3)]);
    assert (['x', '2'] + ['k'])[2] != (['x', '2'] + ['h'])[2];
    IncludedLate(ToySetting(), World1(['1']), PlainRun(), SOURCE, ['2'], HEADER, ['k'], 2, 3);
  }

  lemma {:induction false} MissingStops(s: Setting, w: World, run: Run)
    requires |run.sources| == 1 && run.cancelled.None? && Stamped(s, w.disk, SlotAt(run, 0), JobAt(run, 0))
    requires var inputs := s.arrange(StoredInputs(s, w.disk, SlotAt(run, 0), JobAt(run, 0)));
             inputs != [] && inputs[0] !in w.project
    ensures Before(s, w, run, 1).failure == Some(DependencyMissing())
  {
    assert BuildPrefix(s, w.project, run, Start(w.disk, w.clock), 0) == Start(w.disk, w.clock);
  }

  /** A build of another job dies after the object; a build of the old job would reuse the other job's object. */
  lemma {:induction false} Reverted(s: Setting, w: World, run: Run, other: Run)
    requires Plumbing(s) && ListsFiles(s) && |run.sources| == |other.sources| == 1 && w.disk == map[]
    requires run.cancelled.None? && other.cancelled.None? && Timely(w.project, w.disk, w.clock)
    requires SlotAt(run, 0) == SlotAt(other, 0) && JobAt(run, 0) != JobAt(other, 0)
    requires var x, y := Product(s, w.project, run, 0), Product(s, w.project, other, 0);
             Usable(x) && Usable(y) && x.code != y.code
    ensures Misled(s, Apply(s, Apply(s, w, Build(run)), Crash(other, 0, 1)), run)
  {
    var slot, job := SlotAt(run, 0), JobAt(run, 0);
    var built := Apply(s, w, Build(run));
    FirstBuild(s, w, run);
    hide Apply;
    if Stamped(s, built.disk, slot, JobAt(other, 0)) {
      JobOfStamp(s, built.disk, slot, JobAt(other, 0), job);
    }
    CurrentIff(s, built.project, built.disk, slot, job);
    forall p | p in StoredInputs(s, built.disk, slot, job) ensures p in built.project {
      assert Older(built.project, p, built.disk[ObjectOf(slot)].time);
    }
    DiesAfterObject(s, built, other, job);
  }

  /** A build with one flag more dies after the object. */
  lemma {:induction false} RevertMisleads()
    ensures Misled(ToySetting(), Apply(ToySetting(), Apply(ToySetting(), World1(['1']), Build(PlainRun())),
                                       Crash(OtherRun(), 0, 1)), PlainRun())
  {
    hide Apply;
    hide Misled;
    hide ToySetting;
    hide PlainRun;
    hide OtherRun;
    hide Product;
    hide RuleOf;
    hide InputsOf;
    ToyFaithful();
    ToyInputs();
    ToyProduct(World1(['1']).project);
    OtherProduct(World1(['1']).project);
    assert ['x', 'O', '1'][1] != ['x', '1'][1];
    Reverted(ToySetting(), World1(['1']), PlainRun(), OtherRun());
  }

  lemma {:induction false} ToyOrder()
    ensures ToySetting().arrange({SOURCE, HEADER}) != [] && ToySetting().arrange({SOURCE, HEADER})[0] == HEADER
  {
    assert HEADER in {SOURCE, HEADER};
  }

  /** A listed file is removed together with its inclusion: a clean build succeeds, an incremental one fails. */
  lemma {:induction false} InclusionRemoved(
    s: Setting, w: World, run: Run, header: Path, source: Path, text: string, time: nat)
    requires Plumbing(s) && ListsFiles(s) && |run.sources| == 1 && run.cancelled.None? && w.disk == map[]
    requires Timely(w.project, w.disk, w.clock) && w.clock + run.elapsed < time && header != source
    requires var x := Product(s, w.project, run, 0);
             && Usable(x) && s.arrange(InputsOf(s.root, JobAt(run, 0).source, x.rule)) != []
             && s.arrange(InputsOf(s.root, JobAt(run, 0).source, x.rule))[0] == header
    requires Usable(Product(s, (w.project - {header})[source := File(text, time)], run, 0))
    ensures var v := Apply(s, Apply(s, Apply(s, w, Build(run)), Remove(header)), Edit(source, text, time));
            && Before(s, v, run, 1).failure == Some(DependencyMissing())
            && Before(s, v.(disk := map[]), run, 1).failure.None?
  {
    hide OneSource;
    hide Before;
    FirstBuild(s, w, run);
    var v := Apply(s, Apply(s, Apply(s, w, Build(run)), Remove(header)), Edit(source, text, time));
    BuildOnce(s, v.(disk := map[]), run);
    MissingStops(s, v, run);
  }

  lemma {:induction false} RemovedHeaderBlocks()
    ensures var s, run := ToySetting(), PlainRun();
            var built := Apply(s, World1(['2']), Build(run));
            var v := Apply(s, Apply(s, built, Remove(HEADER)), Edit(SOURCE, ['1'], 2));
            && Before(s, v, run, 1).failure == Some(DependencyMissing())
            && Before(s, v.(disk := map[]), run, 1).failure.None?
  {
    hide Apply;
    hide ToySetting;
    hide PlainRun;
    hide Before;
    hide Product;
    hide RuleOf;
    hide InputsOf;
    var first := World1(['2']).project;
    ToyFaithful();
    ToyInputs();
    ToyProduct(first);
    ToyProduct((first - {HEADER})[SOURCE := File(['1'], 2)]);
    ToyOrder();
    InclusionRemoved(ToySetting(), World1(['2']), PlainRun(), HEADER, SOURCE, ['1'], 2);
  }

  /** A compiler that looks for the header without listing it. */
  function Peek(job: Job, q: Slot, c: map<Path, string>): Outcome {
    if job.source != SOURCE || SOURCE !in c then Refused
    else Compiled(if HEADER in c then ['b'] else ['a'], RuleOf(['1']))
  }

  ghost function PeekSetting(): Setting {
    ToySetting().(cc := Peek)
  }

  lemma {:induction false} PeekPlumbing()
    ensures Plumbing(PeekSetting()) && ListsFiles(PeekSetting()) && PeekSetting().root == ToySetting().root
  {
    ToyPlumbing(Peek);
    InputsOfRule(['1']);
    hide RuleOf;
    forall j, p, c ensures ListsAt(PeekSetting(), j, p, c) {}
  }

  lemma {:induction false} PeekProduct(project: Project)
    requires SOURCE in project
    ensures Product(PeekSetting(), project, PlainRun(), 0) ==
            Compiled(if HEADER in project then ['b'] else ['a'], RuleOf(['1']))
  {
    hide RuleOf;
  }

  function PeekProbes(job: Job, q: Slot, c: map<Path, string>): set<Path> {
    {HEADER}
  }

  /** All that it looks at without listing it is whether the header exists. */
  lemma {:induction false} PeekSearches()
    ensures Searching(PeekSetting(), PeekProbes)
  {
    PeekPlumbing();
    hide RuleOf;
    forall job, p, q, c, d ensures SearchesAt(PeekSetting(), PeekProbes, job, p, q, c, d) {
      if Peek(job, p, c).Compiled? {
        InputsOfRule(['1']);
        assert HEADER in PeekProbes(job, p, c);
      }
    }
  }

  /** A file that is not listed changes what the compiler gives. */
  lemma {:induction false} UnlistedEdit(s: Setting, w: World, run: Run, path: Path, text: string, time: nat)
    requires Plumbing(s) && ListsFiles(s) && |run.sources| == 1 && run.cancelled.None? && w.disk == map[]
    requires Timely(w.project, w.disk, w.clock) && w.clock + run.elapsed < time
    requires var x, y := Product(s, w.project, run, 0), Product(s, w.project[path := File(text, time)], run, 0);
             && Usable(x) && path !in InputsOf(s.root, JobAt(run, 0).source, x.rule)
             && y.Compiled? && y.code != x.code
    ensures Misled(s, Apply(s, Apply(s, w, Build(run)), Edit(path, text, time)), run)
  {
    hide Current;
    FirstBuild(s, w, run);
    var built := Apply(s, w, Build(run));
    hide Apply;
    assert InputsOf(s.root, JobAt(run, 0).source, Product(s, w.project, run, 0).rule) ==
           StoredInputs(s, built.disk, SlotAt(run, 0), JobAt(run, 0));
    MisledByEdit(s, built, run, path, text, time);
  }

  function Alone(): World {
    World(map[SOURCE := File(['1'], 1)], map[], 1)
  }

  /** A header that appears where the compiler looks first is not noticed. */
  lemma {:induction false} NewHeaderMisleads()
    ensures Misled(PeekSetting(), Apply(PeekSetting(), Apply(PeekSetting(), Alone(), Build(PlainRun())),
                                        Edit(HEADER, ['h'], 2)), PlainRun())
  {
    hide Apply;
    hide Misled;
    hide PeekSetting;
    hide PlainRun;
    hide Product;
    hide RuleOf;
    hide InputsOf;
    ToyInputs();
    PeekPlumbing();
    PeekProduct(Alone().project);
    PeekProduct(Alone().project[HEADER := File(['h'], 2)]);
    assert ['b'][0] != ['a'][0];
    UnlistedEdit(PeekSetting(), Alone(), PlainRun(), HEADER, ['h'], 2);
  }
}
