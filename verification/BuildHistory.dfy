/** What the cache of `build` guarantees over histories of edits, removals, plan and compiler changes, builds and
    crashes: an incremental build gives what a clean one gives. */
module BuildHistory {
  import opened Common
  import opened MakeRules
  import opened BuildOutputs
  import opened BuildCache

  // ---- What is taken for granted ----

  predicate SameProduct(s: Setting, source: Path, x: Outcome, y: Outcome) {
    && x.Compiled? && y.Compiled? && x.code == y.code && (x.rule == [] <==> y.rule == [])
    && InputsOf(s.root, source, x.rule) == InputsOf(s.root, source, y.rule)
  }

  predicate Agree(inputs: set<Path>, c: map<Path, string>, d: map<Path, string>) {
    forall p :: p in inputs ==> p in c && p in d && c[p] == d[p]
  }

  predicate LocalAt(s: Setting, job: Job, p: Slot, q: Slot, c: map<Path, string>, d: map<Path, string>) {
    s.cc(job, p, c).Compiled? && Agree(InputsOf(s.root, job.source, s.cc(job, p, c).rule), c, d) ==>
      SameProduct(s, job.source, s.cc(job, p, c), s.cc(job, q, d))
  }

  /** The compiler looks at nothing but its arguments and the files it lists, and its object does not depend on where it
      is staged. */
  ghost predicate Local(s: Setting) {
    forall job, p, q, c, d :: LocalAt(s, job, p, q, c, d)
  }

  predicate ListsAt(s: Setting, job: Job, p: Slot, c: map<Path, string>) {
    s.cc(job, p, c).Compiled? ==> InputsOf(s.root, job.source, s.cc(job, p, c).rule) <= c.Keys
  }

  /** The compiler lists only files that exist. */
  ghost predicate ListsFiles(s: Setting) {
    forall job, p, c :: ListsAt(s, job, p, c)
  }

  /** Sets are visited in some order, and stamps are serialised without loss. */
  ghost predicate Plumbing(s: Setting) {
    && (forall ps :: (set p | p in s.arrange(ps)) == ps)
    && (forall i, j, a, b :: s.encode(i, a) == s.encode(j, b) ==> i == j && a == b)
  }

  ghost predicate Faithful(s: Setting) {
    Local(s) && ListsFiles(s) && Plumbing(s)
  }

  // ---- The invariant ----

  /** The slot holds what a compilation of `job`, staged at `q`, gives now, and lists at least its inputs. */
  predicate FreshAt(s: Setting, project: Project, disk: Disk, slot: Slot, job: Job, q: Slot)
    requires ObjectOf(slot) in disk && DependencyOf(slot) in disk
  {
    var x := s.cc(job, q, Contents(project));
    && Usable(x) && x.code == disk[ObjectOf(slot)].data
    && InputsOf(s.root, job.source, x.rule) <= StoredInputs(s, disk, slot, job)
  }

  /** The file is there and not newer than `time`. */
  predicate Older(project: Project, p: Path, time: nat) {
    p in project && project[p].time <= time
  }

  ghost predicate FreshNow(s: Setting, project: Project, disk: Disk, slot: Slot, job: Job)
    requires ObjectOf(slot) in disk && DependencyOf(slot) in disk
  {
    exists q :: FreshAt(s, project, disk, slot, job, q)
  }

  predicate Timely(project: Project, disk: Disk, clock: nat) {
    && (forall p :: p in project ==> project[p].time <= clock)
    && (forall o :: o in disk ==> disk[o].time <= clock)
  }

  /** Whatever a build would reuse in the slot is fresh, object and listed inputs. */
  ghost predicate SlotSound(s: Setting, project: Project, disk: Disk, slot: Slot) {
    forall job :: Current(s, project, disk, slot, job) == Ok(true) ==> FreshNow(s, project, disk, slot, job)
  }

  ghost predicate Sound(s: Setting, project: Project, disk: Disk, clock: nat) {
    Timely(project, disk, clock) && forall slot :: SlotSound(s, project, disk, slot)
  }

  // ---- One check ----

  lemma {:induction false} CheckPassesIff(inputs: seq<Path>, project: Project, time: nat)
    ensures Check(inputs, project, time) == Ok(true) <==> forall p :: p in inputs ==> Older(project, p, time)
  {
    if inputs != [] {
      CheckPassesIff(inputs[1..], project, time);
      assert inputs == [inputs[0]] + inputs[1..];
      assert forall p :: p in inputs <==> p == inputs[0] || p in inputs[1..];
      assert Older(project, inputs[0], time) <==> inputs[0] in project && project[inputs[0]].time <= time;
    }
  }

  /** Input `k` is missing, and those before it are there and not newer. */
  predicate MissingFirst(inputs: seq<Path>, project: Project, time: nat, k: nat) {
    k < |inputs| && inputs[k] !in project && forall j :: 0 <= j < k ==> Older(project, inputs[j], time)
  }

  /** The check fails exactly when a missing input comes before every newer one. */
  lemma {:induction false} CheckFailsIff(inputs: seq<Path>, project: Project, time: nat)
    ensures Check(inputs, project, time).Err? <==> exists k :: MissingFirst(inputs, project, time, k)
    ensures Check(inputs, project, time).Err? ==>
              Check(inputs, project, time).error == Failure(Project, Other("DEPENDENCY_MISSING"))
  {
    if inputs != [] {
      CheckFailsIff(inputs[1..], project, time);
      if inputs[0] !in project {
        assert MissingFirst(inputs, project, time, 0);
      } else if Older(project, inputs[0], time) {
        if k: nat :| MissingFirst(inputs[1..], project, time, k) {
          MissingShift(inputs, project, time, k);
        }
        if k: nat :| MissingFirst(inputs, project, time, k) {
          MissingShift(inputs, project, time, k - 1);
        }
      } else {
        forall k: nat ensures !MissingFirst(inputs, project, time, k) {
          assert !Older(project, inputs[0], time);
        }
      }
    }
  }

  lemma {:induction false} MissingShift(inputs: seq<Path>, project: Project, time: nat, k: nat)
    requires inputs != [] && Older(project, inputs[0], time)
    ensures MissingFirst(inputs[1..], project, time, k) <==> MissingFirst(inputs, project, time, k + 1)
  {
    var rest := inputs[1..];
    if MissingFirst(rest, project, time, k) {
      forall j | 0 <= j < k + 1 ensures Older(project, inputs[j], time) {
        if j > 0 { assert inputs[j] == rest[j - 1]; }
      }
    }
    if MissingFirst(inputs, project, time, k + 1) {
      forall j | 0 <= j < k ensures Older(project, rest[j], time) {
        assert rest[j] == inputs[j + 1];
      }
    }
  }

  /** A slot is current exactly when its stamp is the job's and every stored input is there and not newer. */
  lemma {:induction false} CurrentIff(s: Setting, project: Project, disk: Disk, slot: Slot, job: Job)
    requires Plumbing(s)
    ensures Current(s, project, disk, slot, job) == Ok(true) <==>
            Stamped(s, disk, slot, job)
            && forall p :: p in StoredInputs(s, disk, slot, job) ==> Older(project, p, disk[ObjectOf(slot)].time)
    ensures Current(s, project, disk, slot, job).Err? ==>
            Current(s, project, disk, slot, job) == Err(DependencyMissing())
  {
    if Stamped(s, disk, slot, job) {
      var inputs := StoredInputs(s, disk, slot, job);
      CheckPassesIff(s.arrange(inputs), project, disk[ObjectOf(slot)].time);
      CheckFailsIff(s.arrange(inputs), project, disk[ObjectOf(slot)].time);
      assert forall p :: p in inputs <==> p in s.arrange(inputs);
    }
  }

  /** The file that a listed name stands for: itself when it starts with a slash, otherwise one below the root. */
  predicate StandsFor(root: Path, name: string, file: Path) {
    if name != [] && name[0] == '/' then file == name else file == root + "/" + name
  }

  /** With a dependency file as GCC writes it, a slot is current exactly when its stamp is the job's and the source and
      the file of every listed name are there and not newer than the object; a dollar sign stands doubled. */
  lemma {:induction false} CurrentByNames(
    s: Setting, project: Project, disk: Disk, slot: Slot, job: Job,
    target: string, names: seq<string>, seps: seq<Separator>, ending: Ending)
    requires Plumbing(s) && DependencyOf(slot) in disk
    requires |seps| == |names| && AllPlain(names) && (ending.OtherTarget? ==> Plain(ending.name))
    requires disk[DependencyOf(slot)].data == RuleText(target, names, seps, ending)
    requires forall i :: 0 <= i < |names| ==> !EndsInColon(names[i])
    requires ':' !in target && OneLine(target) && Cuttable(target)
    ensures Current(s, project, disk, slot, job) == Ok(true) <==>
            && Stamped(s, disk, slot, job)
            && Older(project, job.source, disk[ObjectOf(slot)].time)
            && forall i, file :: 0 <= i < |names| && StandsFor(s.root, Doubled(names[i]), file) ==>
                 Older(project, file, disk[ObjectOf(slot)].time)
  {
    hide RuleText;
    hide ListedInputs;
    RuleRoundTrip(target, names, seps, ending);
    CurrentIff(s, project, disk, slot, job);
    hide Current;
    NamedFiles(s.root, job.source, disk[DependencyOf(slot)].data, names);
    if Stamped(s, disk, slot, job) {
      hide Stamped;
      hide InputsOf;
    }
  }

  lemma {:induction false} NamedFiles(root: Path, source: Path, rule: string, names: seq<string>)
    requires ListedInputs(rule) == DoubledAll(names)
    ensures forall p :: p in InputsOf(root, source, rule) <==>
              p == source || exists i :: 0 <= i < |names| && StandsFor(root, Doubled(names[i]), p)
  {
    var values := DoubledAll(names);
    hide ListedInputs;
    hide DoubledAll;
    forall i | 0 <= i < |names|
      ensures values[i] == Doubled(names[i]) && StandsFor(root, values[i], Join(root, values[i]))
      ensures forall p :: StandsFor(root, values[i], p) ==> p == Join(root, values[i])
    {
      DoubledAllAt(names, i);
      assert root + "/" + values[i] == root + (['/'] + values[i]);
    }
    forall p
      ensures p in Joined(root, values) <==> exists i :: 0 <= i < |names| && StandsFor(root, Doubled(names[i]), p)
    {
      if p in Joined(root, values) {
        var v :| v in values && Join(root, v) == p;
        var i :| 0 <= i < |values| && values[i] == v;
        assert StandsFor(root, Doubled(names[i]), p);
      }
      if i :| 0 <= i < |names| && StandsFor(root, Doubled(names[i]), p) {
        assert p == Join(root, values[i]) && values[i] in values;
      }
    }
  }

  /** An object that is reused is the one a compilation would give now, wherever it is staged. */
  lemma {:induction false} ReuseIsFresh(s: Setting, project: Project, disk: Disk, slot: Slot, job: Job, staged: Slot)
    requires Local(s) && Plumbing(s) && SlotSound(s, project, disk, slot)
    requires Current(s, project, disk, slot, job) == Ok(true)
    ensures var x := s.cc(job, staged, Contents(project));
            Usable(x) && x.code == disk[ObjectOf(slot)].data
  {
    var q :| FreshAt(s, project, disk, slot, job, q);
    CurrentIff(s, project, disk, slot, job);
    assert LocalAt(s, job, q, staged, Contents(project), Contents(project));
  }

  // ---- One source ----

  /** Only the three outputs of a slot matter to it. */
  lemma {:induction false} SlotFrame(s: Setting, project: Project, d: Disk, e: Disk, slot: Slot, job: Job)
    requires forall o :: o in OutputsOf(slot) ==> (o in d <==> o in e) && (o in d ==> d[o] == e[o])
    ensures Stamped(s, d, slot, job) == Stamped(s, e, slot, job)
    ensures Current(s, project, d, slot, job) == Current(s, project, e, slot, job)
    ensures Stamped(s, d, slot, job) ==> FreshNow(s, project, d, slot, job) == FreshNow(s, project, e, slot, job)
  {
    assert ObjectOf(slot) in OutputsOf(slot) && DependencyOf(slot) in OutputsOf(slot);
    assert StampOf(slot) in OutputsOf(slot);
    if Stamped(s, d, slot, job) {
      forall q ensures FreshAt(s, project, d, slot, job, q) == FreshAt(s, project, e, slot, job, q) {}
    }
  }

  lemma {:induction false} PromoteElsewhere(
    s: Setting, disk: Disk, slot: Slot, job: Job, product: Outcome, time: nat, phase: nat, other: Slot)
    requires product.Compiled? && other != slot
    ensures var e := Promote(s, disk, slot, job, product, time, phase);
            forall o :: o in OutputsOf(other) ==> (o in disk <==> o in e) && (o in disk ==> disk[o] == e[o])
  {
    OutputsDistinct(slot, other);
  }

  /** After all three promotions the slot holds the product and the job's stamp. */
  lemma {:induction false} PromoteHere(s: Setting, disk: Disk, slot: Slot, job: Job, product: Outcome, time: nat)
    requires product.Compiled?
    ensures var e := Promote(s, disk, slot, job, product, time, 3);
            && Stamped(s, e, slot, job) && e[ObjectOf(slot)] == File(product.code, time)
            && e[DependencyOf(slot)] == File(product.rule, time)
  {
    OutputsDistinct(slot, slot);
  }

  lemma {:induction false} JobOfStamp(s: Setting, disk: Disk, slot: Slot, a: Job, b: Job)
    requires Plumbing(s) && Stamped(s, disk, slot, a) && Stamped(s, disk, slot, b)
    ensures a == b
  {
    assert s.encode(a.identity, StampArgs(slot, a)) == s.encode(b.identity, StampArgs(slot, b));
    StampDetermines(slot, a, b);
  }

  /** A completed promotion keeps the cache sound. */
  lemma {:induction false} PromotionSound(
    s: Setting, project: Project, disk: Disk, clock: nat, slot: Slot, job: Job, q: Slot, time: nat)
    requires Plumbing(s) && Sound(s, project, disk, clock) && clock <= time
    requires Usable(s.cc(job, q, Contents(project)))
    ensures Sound(s, project, Promote(s, disk, slot, job, s.cc(job, q, Contents(project)), time, 3), time)
  {
    var product := s.cc(job, q, Contents(project));
    var e := Promote(s, disk, slot, job, product, time, 3);
    forall other
      ensures SlotSound(s, project, e, other)
    {
      if other == slot {
        PromoteHere(s, disk, slot, job, product, time);
        assert FreshAt(s, project, e, slot, job, q);
        forall j | Current(s, project, e, slot, j) == Ok(true) ensures FreshNow(s, project, e, slot, j) {
          JobOfStamp(s, e, slot, j, job);
        }
      } else {
        PromoteElsewhere(s, disk, slot, job, product, time, 3, other);
        OtherSlotSound(s, project, disk, e, other);
      }
    }
  }

  lemma {:induction false} OtherSlotSound(s: Setting, project: Project, d: Disk, e: Disk, slot: Slot)
    requires SlotSound(s, project, d, slot)
    requires forall o :: o in OutputsOf(slot) ==> (o in d <==> o in e) && (o in d ==> d[o] == e[o])
    ensures SlotSound(s, project, e, slot)
  {
    forall job | Current(s, project, e, slot, job) == Ok(true) ensures FreshNow(s, project, e, slot, job) {
      SlotFrame(s, project, d, e, slot, job);
    }
  }

  /** The object of source `i` is what a compilation gives now, and the slot is current. */
  predicate Fresh(s: Setting, project: Project, run: Run, disk: Disk, i: nat)
    requires i < |run.sources|
  {
    && Usable(Product(s, project, run, i)) && ObjectOf(SlotAt(run, i)) in disk
    && disk[ObjectOf(SlotAt(run, i))].data == Product(s, project, run, i).code
    && Current(s, project, disk, SlotAt(run, i), JobAt(run, i)) == Ok(true)
  }

  /** The turn compiles and succeeds. */
  predicate Compiles(s: Setting, project: Project, run: Run, i: nat, st: Progress)
    requires i < |run.sources|
  {
    && !CancelledBy(run, i) && Current(s, project, st.disk, SlotAt(run, i), JobAt(run, i)) == Ok(false)
    && Usable(Product(s, project, run, i))
  }

  /** What a turn of the loop amounts to for the disk. */
  predicate Turn(s: Setting, project: Project, run: Run, i: nat, st: Progress, end: Progress)
    requires i < |run.sources|
  {
    if Compiles(s, project, run, i, st) then
      && end.clock == st.clock + run.elapsed
      && end.disk == Promote(s, st.disk, SlotAt(run, i), JobAt(run, i), Product(s, project, run, i), end.clock, 3)
    else
      && end.clock == st.clock && end.disk == st.disk
      && (end.failure.None? ==> Current(s, project, st.disk, SlotAt(run, i), JobAt(run, i)) == Ok(true))
  }

  lemma OneSourceIsTurn(s: Setting, project: Project, run: Run, i: nat, st: Progress)
    requires i < |run.sources| && st.failure.None?
    ensures Turn(s, project, run, i, st, OneSource(s, project, run, i, st))
  {}

  lemma {:induction false} TurnSound(s: Setting, project: Project, run: Run, i: nat, st: Progress, end: Progress)
    requires Faithful(s) && i < |run.sources| && Sound(s, project, st.disk, st.clock)
    requires Turn(s, project, run, i, st, end)
    ensures Sound(s, project, end.disk, end.clock) && (end.failure.None? ==> Fresh(s, project, run, end.disk, i))
  {
    var slot, job := SlotAt(run, i), JobAt(run, i);
    if Compiles(s, project, run, i, st) {
      PromotionSound(s, project, st.disk, st.clock, slot, job, StagedAt(run, i), end.clock);
      CompiledSourceFresh(s, project, run, i, st.disk, end.clock);
    } else if end.failure.None? {
      ReuseIsFresh(s, project, st.disk, slot, job, StagedAt(run, i));
      CurrentIff(s, project, st.disk, slot, job);
    }
  }

  lemma {:induction false} CompiledSourceFresh(s: Setting, project: Project, run: Run, i: nat, disk: Disk, time: nat)
    requires Plumbing(s) && ListsFiles(s) && i < |run.sources| && Usable(Product(s, project, run, i))
    requires forall p :: p in project ==> project[p].time <= time
    ensures var e := Promote(s, disk, SlotAt(run, i), JobAt(run, i), Product(s, project, run, i), time, 3);
            Fresh(s, project, run, e, i)
  {
    PromotedIsCurrent(s, project, disk, SlotAt(run, i), JobAt(run, i), StagedAt(run, i), time);
  }

  lemma {:induction false} PromotedIsCurrent(
    s: Setting, project: Project, disk: Disk, slot: Slot, job: Job, q: Slot, time: nat)
    requires Plumbing(s) && ListsFiles(s) && Usable(s.cc(job, q, Contents(project)))
    requires forall p :: p in project ==> project[p].time <= time
    ensures var product := s.cc(job, q, Contents(project));
            var e := Promote(s, disk, slot, job, product, time, 3);
            && Current(s, project, e, slot, job) == Ok(true)
            && ObjectOf(slot) in e && e[ObjectOf(slot)].data == product.code
  {
    var product := s.cc(job, q, Contents(project));
    assert ListsAt(s, job, q, Contents(project));
    PromoteHere(s, disk, slot, job, product, time);
    CurrentIff(s, project, Promote(s, disk, slot, job, product, time, 3), slot, job);
  }

  // ---- A whole build ----

  predicate SamePlan(a: Run, b: Run) {
    a.dir == b.dir && a.sources == b.sources && a.identity == b.identity
  }

  /** What one turn does to the outputs of another source: nothing. */
  lemma {:induction false} OneSourceElsewhere(s: Setting, project: Project, run: Run, i: nat, st: Progress, j: nat)
    requires i < |run.sources| && j < |run.sources| && i != j && st.failure.None?
    ensures var e := OneSource(s, project, run, i, st).disk;
            forall o :: o in OutputsOf(SlotAt(run, j)) ==>
              (o in st.disk <==> o in e) && (o in st.disk ==> st.disk[o] == e[o])
  {
    StemsDiffer(run.dir, i, j, run.sources[i].basename, run.sources[j].basename);
    var product := Product(s, project, run, i);
    if Usable(product) {
      PromoteElsewhere(s, st.disk, SlotAt(run, i), JobAt(run, i), product, st.clock + run.elapsed, 3, SlotAt(run, j));
    }
  }

  lemma {:induction false} OneSourceKeepsFresh(s: Setting, project: Project, run: Run, i: nat, st: Progress, j: nat)
    requires i < |run.sources| && j < |run.sources| && i != j && st.failure.None?
    requires Fresh(s, project, run, st.disk, j)
    ensures Fresh(s, project, run, OneSource(s, project, run, i, st).disk, j)
  {
    OneSourceElsewhere(s, project, run, i, st, j);
    assert ObjectOf(SlotAt(run, j)) in OutputsOf(SlotAt(run, j));
    SlotFrame(s, project, st.disk, OneSource(s, project, run, i, st).disk, SlotAt(run, j), JobAt(run, j));
  }

  /** A build keeps the cache sound whatever its outcome, and while nothing has failed every object so far is what a
      compilation gives now. */
  lemma {:induction false} BuildSound(s: Setting, project: Project, run: Run, start: Progress, n: nat)
    requires Faithful(s) && n <= |run.sources| && Sound(s, project, start.disk, start.clock)
    ensures var end := BuildPrefix(s, project, run, start, n);
            && Sound(s, project, end.disk, end.clock)
            && (end.failure.None? ==> forall i :: 0 <= i < n ==> Fresh(s, project, run, end.disk, i))
    decreases n
  {
    hide OneSource;
    if n > 0 {
      BuildSound(s, project, run, start, n - 1);
      var st := BuildPrefix(s, project, run, start, n - 1);
      if st.failure.None? {
        OneSourceIsTurn(s, project, run, n - 1, st);
        TurnSound(s, project, run, n - 1, st, OneSource(s, project, run, n - 1, st));
        var disk := OneSource(s, project, run, n - 1, st).disk;
        forall i | 0 <= i < n - 1 ensures Fresh(s, project, run, disk, i) {
          OneSourceKeepsFresh(s, project, run, n - 1, st, i);
        }
      }
    }
  }

  /** A source not yet reached has the outputs it had at the start. */
  lemma {:induction false} NotYetReached(
    s: Setting, project: Project, run: Run, start: Progress, n: nat, j: nat, job: Job)
    requires n <= j < |run.sources|
    ensures Current(s, project, BuildPrefix(s, project, run, start, n).disk, SlotAt(run, j), job) ==
            Current(s, project, start.disk, SlotAt(run, j), job)
    decreases n
  {
    hide OneSource;
    hide Current;
    if n > 0 {
      NotYetReached(s, project, run, start, n - 1, j, job);
      var st := BuildPrefix(s, project, run, start, n - 1);
      if st.failure.None? {
        OneSourceElsewhere(s, project, run, n - 1, st, j);
        SlotFrame(s, project, st.disk, OneSource(s, project, run, n - 1, st).disk, SlotAt(run, j), job);
      }
    }
  }

  /** The source can be built: nothing it needs is missing, and the compiler accepts it. */
  predicate Buildable(s: Setting, project: Project, run: Run, disk: Disk, i: nat)
    requires i < |run.sources|
  {
    && !Current(s, project, disk, SlotAt(run, i), JobAt(run, i)).Err?
    && Usable(Product(s, project, run, i))
  }

  lemma {:induction false} OneSourceSucceedsIff(s: Setting, project: Project, run: Run, i: nat, st: Progress)
    requires Faithful(s) && i < |run.sources| && st.failure.None? && run.cancelled.None?
    requires Sound(s, project, st.disk, st.clock)
    ensures var end := OneSource(s, project, run, i, st);
            && (end.failure.None? <==> Buildable(s, project, run, st.disk, i))
            && (end.failure.Some? && Usable(Product(s, project, run, i)) ==> end.failure == Some(DependencyMissing()))
  {
    var slot, job := SlotAt(run, i), JobAt(run, i);
    CurrentIff(s, project, st.disk, slot, job);
    if Current(s, project, st.disk, slot, job) == Ok(true) {
      ReuseIsFresh(s, project, st.disk, slot, job, StagedAt(run, i));
    }
  }

  predicate AllBuildable(s: Setting, project: Project, run: Run, disk: Disk, n: nat)
    requires n <= |run.sources|
  {
    forall i :: 0 <= i < n ==> Buildable(s, project, run, disk, i)
  }

  predicate AllAccepted(s: Setting, project: Project, run: Run, n: nat)
    requires n <= |run.sources|
  {
    forall i :: 0 <= i < n ==> Usable(Product(s, project, run, i))
  }

  /** One turn of the loop: a cancellation, an unreadable dependency, a compiler that refuses or leaves an output empty
      fail it and leave the disk alone; a current slot is reused; otherwise the product takes the slot's three files. */
  lemma {:induction false} SourceTurn(s: Setting, project: Project, run: Run, i: nat, st: Progress)
    requires i < |run.sources| && st.failure.None?
    ensures var end := OneSource(s, project, run, i, st);
            var (slot, job) := (SlotAt(run, i), JobAt(run, i));
            var current := Current(s, project, st.disk, slot, job);
            var x := s.cc(job, StagedAt(run, i), Contents(project));
            if run.cancelled.Some? && run.cancelled.value <= i then
              end == st.(failure := Some(Failure(Interrupted, INTERRUPTED)))
            else if current.Err? then
              end == st.(failure := Some(Failure(Project, Other("DEPENDENCY_MISSING"))))
            else if current.value then
              end == st.(reused := st.reused + 1, objects := st.objects + [ObjectOf(slot)])
            else if x.Refused? then end == st.(failure := Some(Failure(Project, Other("COMPILE_FAILED"))))
            else if x.code == [] || x.rule == [] then
              end == st.(failure := Some(Failure(Project, Other("EXPECTED_OUTPUT_INVALID"))))
            else
              var time := st.clock + run.elapsed;
              end == Progress(
                st.disk[ObjectOf(slot) := File(x.code, time)][DependencyOf(slot) := File(x.rule, time)]
                       [StampOf(slot) := File(StampText(s, slot, job), time)],
                time, st.compiled + 1, st.reused, st.objects + [ObjectOf(slot)], None)
  {
    var inputs := if Stamped(s, st.disk, SlotAt(run, i), JobAt(run, i))
                  then s.arrange(StoredInputs(s, st.disk, SlotAt(run, i), JobAt(run, i))) else [];
    if Stamped(s, st.disk, SlotAt(run, i), JobAt(run, i)) {
      CheckFailsIff(inputs, project, st.disk[ObjectOf(SlotAt(run, i))].time);
    }
    hide Stamped;
    hide Check;
    hide StampText;
  }

  /** A build that nobody cancels succeeds exactly when every source can be built from the disk it starts with. */
  lemma {:induction false} BuildSucceedsIff(s: Setting, project: Project, run: Run, start: Progress, n: nat)
    requires Faithful(s) && n <= |run.sources| && run.cancelled.None?
    requires Sound(s, project, start.disk, start.clock) && start.failure.None?
    ensures var end := BuildPrefix(s, project, run, start, n);
            && (end.failure.None? <==> AllBuildable(s, project, run, start.disk, n))
            && (end.failure.Some? && AllAccepted(s, project, run, n) ==> end.failure == Some(DependencyMissing()))
    decreases n
  {
    if n > 0 {
      BuildSucceedsIff(s, project, run, start, n - 1);
      BuildSound(s, project, run, start, n - 1);
      NotYetReached(s, project, run, start, n - 1, n - 1, JobAt(run, n - 1));
      var st := BuildPrefix(s, project, run, start, n - 1);
      AllBuildableStep(s, project, run, start.disk, n);
      if st.failure.None? {
        OneSourceSucceedsIff(s, project, run, n - 1, st);
      }
    }
  }

  lemma AllBuildableStep(s: Setting, project: Project, run: Run, disk: Disk, n: nat)
    requires 0 < n <= |run.sources|
    ensures AllBuildable(s, project, run, disk, n) <==>
            AllBuildable(s, project, run, disk, n - 1) && Buildable(s, project, run, disk, n - 1)
    ensures AllAccepted(s, project, run, n) <==>
            AllAccepted(s, project, run, n - 1) && Usable(Product(s, project, run, n - 1))
  {
    hide Buildable;
    hide Usable;
  }

  /** Where the outputs are staged makes no difference to what is produced. */
  lemma {:induction false} StagingIrrelevant(s: Setting, project: Project, a: Run, b: Run, i: nat)
    requires Faithful(s) && SamePlan(a, b) && i < |a.sources| && Usable(Product(s, project, a, i))
    ensures Usable(Product(s, project, b, i)) && Product(s, project, b, i).code == Product(s, project, a, i).code
  {
    var x := Product(s, project, a, i);
    assert ListsAt(s, JobAt(a, i), StagedAt(a, i), Contents(project));
    assert Agree(InputsOf(s.root, JobAt(a, i).source, x.rule), Contents(project), Contents(project));
    assert LocalAt(s, JobAt(a, i), StagedAt(a, i), StagedAt(b, i), Contents(project), Contents(project));
  }

  lemma EmptyIsSound(s: Setting, project: Project, clock: nat)
    requires forall p :: p in project ==> project[p].time <= clock
    ensures Sound(s, project, map[], clock)
  {}

  /** No source has a listed input that is missing and comes before every newer one. */
  predicate NothingMissing(s: Setting, project: Project, run: Run, disk: Disk) {
    forall i :: 0 <= i < |run.sources| ==> !Current(s, project, disk, SlotAt(run, i), JobAt(run, i)).Err?
  }

  lemma {:induction false} AcceptedByBoth(s: Setting, project: Project, run: Run, clean: Run)
    requires Faithful(s) && SamePlan(run, clean)
    ensures AllAccepted(s, project, run, |run.sources|) <==> AllAccepted(s, project, clean, |run.sources|)
  {
    forall i | 0 <= i < |run.sources|
      ensures Usable(Product(s, project, run, i)) <==> Usable(Product(s, project, clean, i))
    {
      if Usable(Product(s, project, run, i)) {
        StagingIrrelevant(s, project, run, clean, i);
      } else if Usable(Product(s, project, clean, i)) {
        StagingIrrelevant(s, project, clean, run, i);
      }
    }
  }

  lemma {:induction false} BuildableParts(s: Setting, project: Project, run: Run, disk: Disk)
    ensures AllBuildable(s, project, run, disk, |run.sources|) <==>
            AllAccepted(s, project, run, |run.sources|) && NothingMissing(s, project, run, disk)
    ensures NothingMissing(s, project, run, map[])
  {
    forall i | 0 <= i < |run.sources|
      ensures AllBuildable(s, project, run, disk, |run.sources|) ==>
                Usable(Product(s, project, run, i))
                && !Current(s, project, disk, SlotAt(run, i), JobAt(run, i)).Err?
    {
      if AllBuildable(s, project, run, disk, |run.sources|) {
        assert Buildable(s, project, run, disk, i);
      }
    }
  }

  /** An incremental build against a clean one of the same plan and the same files. If the incremental one succeeds, so
      does the clean one. If the clean one succeeds, the incremental one does too exactly when no source has a listed
      input that is missing and comes before every newer one; it then fails with DEPENDENCY_MISSING although nothing is
      wrong with the project. */
  lemma {:induction false} IncrementalSucceedsIff(
    s: Setting, project: Project, run: Run, clean: Run, disk: Disk, clock: nat, now: nat)
    requires Faithful(s) && SamePlan(run, clean) && run.cancelled.None? && clean.cancelled.None?
    requires Sound(s, project, disk, clock) && forall p :: p in project ==> project[p].time <= now
    ensures var inc := BuildPrefix(s, project, run, Start(disk, clock), |run.sources|);
            var all := BuildPrefix(s, project, clean, Start(map[], now), |run.sources|);
            && (inc.failure.None? <==> all.failure.None? && NothingMissing(s, project, run, disk))
            && (all.failure.None? && inc.failure.Some? ==> inc.failure == Some(DependencyMissing()))
  {
    EmptyIsSound(s, project, now);
    BuildSucceedsIff(s, project, run, Start(disk, clock), |run.sources|);
    BuildSucceedsIff(s, project, clean, Start(map[], now), |run.sources|);
    BuildableParts(s, project, run, disk);
    BuildableParts(s, project, clean, map[]);
    AcceptedByBoth(s, project, run, clean);
  }

  /** When both succeed they agree on the bytes of every object, whatever was reused. */
  lemma {:induction false} IncrementalIsClean(
    s: Setting, project: Project, run: Run, clean: Run, disk: Disk, clock: nat, now: nat)
    requires Faithful(s) && SamePlan(run, clean)
    requires Sound(s, project, disk, clock) && forall p :: p in project ==> project[p].time <= now
    ensures var inc := BuildPrefix(s, project, run, Start(disk, clock), |run.sources|);
            var all := BuildPrefix(s, project, clean, Start(map[], now), |run.sources|);
            inc.failure.None? && all.failure.None? ==>
              forall i :: 0 <= i < |run.sources| ==> SameObject(run, inc.disk, all.disk, i)
  {
    var inc := BuildPrefix(s, project, run, Start(disk, clock), |run.sources|);
    var all := BuildPrefix(s, project, clean, Start(map[], now), |run.sources|);
    EmptyIsSound(s, project, now);
    BuildSound(s, project, run, Start(disk, clock), |run.sources|);
    BuildSound(s, project, clean, Start(map[], now), |run.sources|);
    if inc.failure.None? && all.failure.None? {
      forall i | 0 <= i < |run.sources| ensures SameObject(run, inc.disk, all.disk, i) {
        FreshAgree(s, project, run, clean, inc.disk, all.disk, i);
      }
    }
  }

  lemma {:induction false} FreshAgree(s: Setting, project: Project, a: Run, b: Run, d: Disk, e: Disk, i: nat)
    requires Faithful(s) && SamePlan(a, b) && i < |a.sources|
    requires Fresh(s, project, a, d, i) && Fresh(s, project, b, e, i)
    ensures SameObject(a, d, e, i)
  {
    StagingIrrelevant(s, project, a, b, i);
  }

  predicate SameObject(run: Run, d: Disk, e: Disk, i: nat)
    requires i < |run.sources|
  {
    var o := ObjectOf(SlotAt(run, i));
    o in d && o in e && d[o].data == e[o].data
  }

  /** Building again with nothing changed compiles nothing and leaves the disk alone. */
  lemma {:induction false} NothingToDo(s: Setting, project: Project, run: Run, disk: Disk, clock: nat, n: nat)
    requires n <= |run.sources| && run.cancelled.None?
    requires forall i :: 0 <= i < n ==> Fresh(s, project, run, disk, i)
    ensures var end := BuildPrefix(s, project, run, Start(disk, clock), n);
            && end.failure.None? && end.disk == disk && end.compiled == 0 && end.reused == n
    decreases n
  {
    if n > 0 {
      NothingToDo(s, project, run, disk, clock, n - 1);
      assert Fresh(s, project, run, disk, n - 1);
    }
  }

  // ---- Histories ----

  datatype World = World(project: Project, disk: Disk, clock: nat)

  /** A file is written (at a time of its own), or removed; a build runs with some plan and compiler; or a build dies
      while source `i` is being put in place, after `phase` of its three promotions. */
  datatype Change =
    | Edit(path: Path, content: string, time: nat)
    | Remove(path: Path)
    | Build(run: Run)
    | Crash(run: Run, i: nat, phase: nat)

  /** The disk and the clock of a build that dies in the turn that starts from `st`. */
  function DieIn(s: Setting, project: Project, run: Run, i: nat, st: Progress, phase: nat): Progress
    requires i < |run.sources|
  {
    if st.failure.Some? || !Compiles(s, project, run, i, st) then st
    else
      var time := st.clock + run.elapsed;
      st.(clock := time,
          disk := Promote(s, st.disk, SlotAt(run, i), JobAt(run, i), Product(s, project, run, i), time, phase))
  }

  function Before(s: Setting, w: World, run: Run, i: nat): Progress
    requires i <= |run.sources|
  {
    BuildPrefix(s, w.project, run, Start(w.disk, w.clock), i)
  }

  function Apply(s: Setting, w: World, change: Change): World
    requires change.Crash? ==> change.i < |change.run.sources|
  {
    match change
    case Edit(path, content, time) => World(w.project[path := File(content, time)], w.disk, Max(w.clock, time))
    case Remove(path) => w.(project := w.project - {path})
    case Build(run) =>
      var end := Before(s, w, run, |run.sources|);
      World(w.project, end.disk, end.clock)
    case Crash(run, i, phase) =>
      var end := DieIn(s, w.project, run, i, Before(s, w, run, i), phase);
      World(w.project, end.disk, end.clock)
  }

  function Max(a: nat, b: nat): nat {
    if a < b then b else a
  }

  /** What the slot's stamp was written for, if there is one. */
  predicate StampIs(s: Setting, disk: Disk, slot: Slot, prior: Option<Job>) {
    if prior.None? then StampOf(slot) !in disk
    else StampOf(slot) in disk && disk[StampOf(slot)].data == StampText(s, slot, prior.value)
  }

  /** The dependency file that a build leaves when it dies after `phase` promotions. */
  function LeftRule(disk: Disk, slot: Slot, rule: string, phase: nat): string
    requires phase == 1 ==> DependencyOf(slot) in disk
  {
    if phase == 1 then disk[DependencyOf(slot)].data else rule
  }

  /** Dying between the promotions of `job`, whose new dependency file is `rule`, does no harm: no stamp is left, or no
      dependency file beside it, or a file that it lists is missing, or the stamp is this job's and the dependency file
      left beside it lists at least the inputs of the new one. */
  predicate Safe(
    s: Setting, project: Project, disk: Disk, slot: Slot, job: Job, rule: string, prior: Option<Job>, phase: nat)
  {
    || phase == 0 || phase >= 3 || prior.None? || (phase == 1 && DependencyOf(slot) !in disk)
    || !(InputsOf(s.root, prior.value.source, LeftRule(disk, slot, rule, phase)) <= project.Keys)
    || (prior.value == job && InputsOf(s.root, job.source, LeftRule(disk, slot, rule, phase)) >=
                              InputsOf(s.root, job.source, rule))
  }

  /** The build dies where that does no harm. */
  ghost predicate Harmless(s: Setting, project: Project, run: Run, i: nat, st: Progress, phase: nat)
    requires i < |run.sources|
  {
    st.failure.None? && Compiles(s, project, run, i, st) ==>
      exists prior ::
        && StampIs(s, st.disk, SlotAt(run, i), prior)
        && Safe(s, project, st.disk, SlotAt(run, i), JobAt(run, i), Product(s, project, run, i).rule, prior, phase)
  }

  /** Edits are newer than everything done before, and builds die harmlessly. */
  ghost predicate Allowed(s: Setting, w: World, change: Change) {
    match change
    case Edit(_, _, time) => time > w.clock
    case Crash(run, i, phase) =>
      i < |run.sources| && Harmless(s, w.project, run, i, Before(s, w, run, i), phase)
    case _ => true
  }

  function After(s: Setting, changes: seq<Change>): World
    requires forall i :: 0 <= i < |changes| && changes[i].Crash? ==> changes[i].i < |changes[i].run.sources|
  {
    if changes == [] then World(map[], map[], 0)
    else Apply(s, After(s, changes[..|changes| - 1]), changes[|changes| - 1])
  }

  predicate Sensible(changes: seq<Change>) {
    forall i :: 0 <= i < |changes| && changes[i].Crash? ==> changes[i].i < |changes[i].run.sources|
  }

  ghost predicate History(s: Setting, changes: seq<Change>) {
    && Sensible(changes)
    && (changes == [] ||
        (History(s, changes[..|changes| - 1])
         && Allowed(s, After(s, changes[..|changes| - 1]), changes[|changes| - 1])))
  }

  /** A change of files that only adds newer ones or takes some away keeps every slot sound. */
  lemma {:induction false} EditSound(s: Setting, before: Project, after: Project, disk: Disk, clock: nat, now: nat)
    requires Local(s) && Plumbing(s) && Sound(s, before, disk, clock) && clock <= now
    requires forall p :: p in after ==>
      after[p].time <= now && (after[p].time > clock || (p in before && before[p] == after[p]))
    ensures Sound(s, after, disk, now)
  {
    forall slot ensures SlotSound(s, after, disk, slot) {
      EditSlotSound(s, before, after, disk, clock, slot);
    }
  }

  lemma {:induction false} EditSlotSound(
    s: Setting, before: Project, after: Project, disk: Disk, clock: nat, slot: Slot)
    requires Local(s) && Plumbing(s) && Timely(before, disk, clock) && SlotSound(s, before, disk, slot)
    requires forall p :: p in after ==> after[p].time > clock || (p in before && before[p] == after[p])
    ensures SlotSound(s, after, disk, slot)
  {
    forall job | Current(s, after, disk, slot, job) == Ok(true) ensures FreshNow(s, after, disk, slot, job) {
      StillCurrent(s, before, after, disk, clock, slot, job);
      var q :| FreshAt(s, before, disk, slot, job, q);
      assert LocalAt(s, job, q, q, Contents(before), Contents(after));
      assert FreshAt(s, after, disk, slot, job, q);
    }
  }

  /** What is current after the change was current before it, on the same listed inputs. */
  lemma {:induction false} StillCurrent(
    s: Setting, before: Project, after: Project, disk: Disk, clock: nat, slot: Slot, job: Job)
    requires Plumbing(s) && Timely(before, disk, clock) && Current(s, after, disk, slot, job) == Ok(true)
    requires forall p :: p in after ==> after[p].time > clock || (p in before && before[p] == after[p])
    ensures Current(s, before, disk, slot, job) == Ok(true)
    ensures Agree(StoredInputs(s, disk, slot, job), Contents(before), Contents(after))
  {
    CurrentIff(s, after, disk, slot, job);
    CurrentIff(s, before, disk, slot, job);
    forall p | p in StoredInputs(s, disk, slot, job)
      ensures Older(before, p, disk[ObjectOf(slot)].time) && p in after && before[p] == after[p]
    {
      assert Older(after, p, disk[ObjectOf(slot)].time);
    }
  }

  /** After one or two promotions exactly the old stamp's job is current, if nothing that the dependency file lists is
      missing. */
  lemma {:induction false} CrashedCurrentIff(
    s: Setting, project: Project, disk: Disk, clock: nat, slot: Slot, job: Job, product: Outcome, prior: Option<Job>,
    time: nat, phase: nat, k: Job)
    requires Plumbing(s) && Timely(project, disk, clock) && clock <= time && product.Compiled? && 1 <= phase <= 2
    requires StampIs(s, disk, slot, prior)
    ensures Current(s, project, Promote(s, disk, slot, job, product, time, phase), slot, k) == Ok(true) <==>
            && prior == Some(k) && (phase == 1 ==> DependencyOf(slot) in disk)
            && InputsOf(s.root, k.source, LeftRule(disk, slot, product.rule, phase)) <= project.Keys
  {
    var e := Promote(s, disk, slot, job, product, time, phase);
    OutputsDistinct(slot, slot);
    CurrentIff(s, project, e, slot, k);
    if Stamped(s, e, slot, k) && prior.Some? {
      assert s.encode(k.identity, StampArgs(slot, k)) == s.encode(prior.value.identity, StampArgs(slot, prior.value));
      StampDetermines(slot, k, prior.value);
    }
    if prior == Some(k) && (phase == 1 ==> DependencyOf(slot) in disk) {
      assert StoredInputs(s, e, slot, k) == InputsOf(s.root, k.source, LeftRule(disk, slot, product.rule, phase));
      assert forall p :: p in project ==> Older(project, p, time);
    }
  }

  /** A build that dies safely keeps its slot sound. */
  lemma {:induction false} SafeSlotSound(
    s: Setting, project: Project, disk: Disk, clock: nat, slot: Slot, job: Job, q: Slot, prior: Option<Job>, time: nat,
    phase: nat)
    requires Plumbing(s) && Timely(project, disk, clock) && clock <= time && 1 <= phase <= 2
    requires StampIs(s, disk, slot, prior) && Usable(s.cc(job, q, Contents(project)))
    requires Safe(s, project, disk, slot, job, s.cc(job, q, Contents(project)).rule, prior, phase)
    ensures SlotSound(s, project, Promote(s, disk, slot, job, s.cc(job, q, Contents(project)), time, phase), slot)
  {
    var product := s.cc(job, q, Contents(project));
    var e := Promote(s, disk, slot, job, product, time, phase);
    forall k | Current(s, project, e, slot, k) == Ok(true) ensures FreshNow(s, project, e, slot, k) {
      CrashedCurrentIff(s, project, disk, clock, slot, job, product, prior, time, phase, k);
      OutputsDistinct(slot, slot);
      assert FreshAt(s, project, e, slot, job, q);
    }
  }

  /** A build that dies safely keeps the cache sound. */
  lemma {:induction false} PartialPromotionSound(
    s: Setting, project: Project, disk: Disk, clock: nat, slot: Slot, job: Job, q: Slot, prior: Option<Job>, time: nat,
    phase: nat)
    requires Plumbing(s) && Sound(s, project, disk, clock) && clock <= time && 1 <= phase <= 2
    requires StampIs(s, disk, slot, prior) && Usable(s.cc(job, q, Contents(project)))
    requires Safe(s, project, disk, slot, job, s.cc(job, q, Contents(project)).rule, prior, phase)
    ensures Sound(s, project, Promote(s, disk, slot, job, s.cc(job, q, Contents(project)), time, phase), time)
  {
    var product := s.cc(job, q, Contents(project));
    var e := Promote(s, disk, slot, job, product, time, phase);
    forall other ensures SlotSound(s, project, e, other) {
      if other == slot {
        SafeSlotSound(s, project, disk, clock, slot, job, q, prior, time, phase);
      } else {
        PromoteElsewhere(s, disk, slot, job, product, time, phase, other);
        OtherSlotSound(s, project, disk, e, other);
      }
    }
  }

  /** A build that dies between promotions keeps the cache sound if it is harmless. */
  lemma {:induction false} CrashSound(s: Setting, project: Project, run: Run, i: nat, st: Progress, phase: nat)
    requires Faithful(s) && i < |run.sources| && Sound(s, project, st.disk, st.clock)
    requires Harmless(s, project, run, i, st, phase)
    ensures var end := DieIn(s, project, run, i, st, phase); Sound(s, project, end.disk, end.clock)
  {
    hide Promote;
    hide Safe;
    hide Sound;
    if st.failure.None? && Compiles(s, project, run, i, st) {
      var slot, job, time := SlotAt(run, i), JobAt(run, i), st.clock + run.elapsed;
      var prior :| StampIs(s, st.disk, slot, prior)
                   && Safe(s, project, st.disk, slot, job, Product(s, project, run, i).rule, prior, phase);
      PromotedSound(s, project, st.disk, st.clock, slot, job, StagedAt(run, i), prior, time, phase);
    }
  }

  lemma {:induction false} PromotedSound(
    s: Setting, project: Project, disk: Disk, clock: nat, slot: Slot, job: Job, q: Slot, prior: Option<Job>, time: nat,
    phase: nat)
    requires Faithful(s) && Sound(s, project, disk, clock) && clock <= time
    requires StampIs(s, disk, slot, prior) && Usable(s.cc(job, q, Contents(project)))
    requires Safe(s, project, disk, slot, job, s.cc(job, q, Contents(project)).rule, prior, phase)
    ensures Sound(s, project, Promote(s, disk, slot, job, s.cc(job, q, Contents(project)), time, phase), time)
  {
    if phase == 0 {
      EditSound(s, project, project, disk, clock, time);
    } else if phase >= 3 {
      PromotionSound(s, project, disk, clock, slot, job, q, time);
    } else {
      PartialPromotionSound(s, project, disk, clock, slot, job, q, prior, time, phase);
    }
  }

  lemma {:induction false} ApplySound(s: Setting, w: World, change: Change)
    requires Faithful(s) && Sound(s, w.project, w.disk, w.clock) && Allowed(s, w, change)
    ensures var v := Apply(s, w, change); Sound(s, v.project, v.disk, v.clock)
  {
    var v := Apply(s, w, change);
    match change {
      case Edit(path, content, time) => EditSound(s, w.project, v.project, w.disk, w.clock, v.clock);
      case Remove(path) => EditSound(s, w.project, v.project, w.disk, w.clock, v.clock);
      case Build(run) => BuildSound(s, w.project, run, Start(w.disk, w.clock), |run.sources|);
      case Crash(run, i, phase) =>
        BuildSound(s, w.project, run, Start(w.disk, w.clock), i);
        CrashSound(s, w.project, run, i, Before(s, w, run, i), phase);
    }
  }

  /** Every history leaves a sound cache. */
  lemma {:induction false} HistorySound(s: Setting, changes: seq<Change>)
    requires Faithful(s) && History(s, changes)
    ensures var w := After(s, changes); Sound(s, w.project, w.disk, w.clock)
    decreases |changes|
  {
    if changes == [] {
      EmptyIsSound(s, map[], 0);
    } else {
      HistorySound(s, changes[..|changes| - 1]);
      ApplySound(s, After(s, changes[..|changes| - 1]), changes[|changes| - 1]);
    }
  }

  /** After any history of edits, removals, changes of plan and compiler, builds and harmless crashes, a build that
      succeeds leaves in every object what a build from scratch would leave. */
  lemma {:induction false} EveryBuildIsClean(s: Setting, changes: seq<Change>, run: Run, clean: Run)
    requires Faithful(s) && History(s, changes)
    requires SamePlan(run, clean) && run.cancelled.None? && clean.cancelled.None?
    ensures var w := After(s, changes);
            var inc, all := Before(s, w, run, |run.sources|), Before(s, w.(disk := map[]), clean, |run.sources|);
            inc.failure.None? ==>
              all.failure.None? && forall i :: 0 <= i < |run.sources| ==> SameObject(run, inc.disk, all.disk, i)
  {
    HistorySound(s, changes);
    var w := After(s, changes);
    IncrementalSucceedsIff(s, w.project, run, clean, w.disk, w.clock, w.clock);
    IncrementalIsClean(s, w.project, run, clean, w.disk, w.clock, w.clock);
  }
}
