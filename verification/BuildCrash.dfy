/** When a build that dies between its promotions, or a change it cannot see, spoils the cache: exact conditions in
    terms of what is on the disk, over every compiler that the disk could come from. */
module BuildCrash {
  import opened Common
  import opened BuildOutputs
  import opened BuildCache
  import opened BuildHistory

  // ---- Dying between promotions ----

  /** One slot while `job`, staged at `q`, is put into it. */
  datatype Scene = Scene(project: Project, disk: Disk, clock: nat, slot: Slot, job: Job, q: Slot, rule: string)

  /** The compiler can have left the slot as it is, and now makes something of the job that lists the inputs of
      `rule`. */
  ghost predicate Plausible(s: Setting, sc: Scene) {
    var x := s.cc(sc.job, sc.q, Contents(sc.project));
    Faithful(s) && SlotSound(s, sc.project, sc.disk, sc.slot) && Usable(x) && x.rule == sc.rule
  }

  /** Files are only taken away, or written later than `time`. */
  predicate ChangedSince(before: Project, after: Project, time: nat) {
    forall p :: p in after ==> after[p].time > time || (p in before && before[p] == after[p])
  }

  /** If a build would reuse the object for `job`, it is the one that a compilation of `job`, staged at `q`, gives. */
  predicate ReusesRight(s: Setting, project: Project, disk: Disk, slot: Slot, job: Job, q: Slot) {
    Current(s, project, disk, slot, job) == Ok(true) ==>
      Usable(s.cc(job, q, Contents(project))) && s.cc(job, q, Contents(project)).code == disk[ObjectOf(slot)].data
  }

  /** After the build has died, and after any further change of files, no build reuses a wrong object. */
  ghost predicate Survives(s: Setting, sc: Scene, time: nat, phase: nat) {
    var x := s.cc(sc.job, sc.q, Contents(sc.project));
    && x.Compiled?
    && var e := Promote(s, sc.disk, sc.slot, sc.job, x, time, phase);
       forall after, k, p :: ChangedSince(sc.project, after, time) ==> ReusesRight(s, after, e, sc.slot, k, p)
  }

  type Compiler = (Job, Slot, map<Path, string>) -> Outcome

  /** A compiler that knows two jobs: each gives one object whenever the files it lists are there. */
  function Table(root: Path, a: Job, codeA: string, ruleA: string, b: Job, codeB: string, ruleB: string): Compiler {
    (job: Job, q: Slot, c: map<Path, string>) =>
      if job == a && InputsOf(root, a.source, ruleA) <= c.Keys then Compiled(codeA, ruleA)
      else if job == b && job != a && InputsOf(root, b.source, ruleB) <= c.Keys then Compiled(codeB, ruleB)
      else Refused
  }

  lemma {:induction false} TableFaithful(
    s: Setting, a: Job, codeA: string, ruleA: string, b: Job, codeB: string, ruleB: string)
    requires Plumbing(s)
    ensures Faithful(s.(cc := Table(s.root, a, codeA, ruleA, b, codeB, ruleB)))
  {
    hide InputsOf;
    var t := s.(cc := Table(s.root, a, codeA, ruleA, b, codeB, ruleB));
    forall job, p, q, c, d ensures LocalAt(t, job, p, q, c, d) {
      if t.cc(job, p, c).Compiled? && Agree(InputsOf(t.root, job.source, t.cc(job, p, c).rule), c, d) {
        assert InputsOf(t.root, job.source, t.cc(job, p, c).rule) <= d.Keys;
      }
    }
    forall job, p, c ensures ListsAt(t, job, p, c) {}
  }

  /** Where the build dies safely, every compiler keeps the slot sound. */
  lemma {:induction false} SafeSlot(s: Setting, sc: Scene, prior: Option<Job>, time: nat, phase: nat)
    requires Plausible(s, sc) && Timely(sc.project, sc.disk, sc.clock) && sc.clock <= time
    requires StampIs(s, sc.disk, sc.slot, prior)
    requires Safe(s, sc.project, sc.disk, sc.slot, sc.job, sc.rule, prior, phase)
    ensures var e := Promote(s, sc.disk, sc.slot, sc.job, s.cc(sc.job, sc.q, Contents(sc.project)), time, phase);
            SlotSound(s, sc.project, e, sc.slot) && Timely(sc.project, e, time)
  {
    var x := s.cc(sc.job, sc.q, Contents(sc.project));
    var e := Promote(s, sc.disk, sc.slot, sc.job, x, time, phase);
    if 1 <= phase <= 2 {
      SafeSlotSound(s, sc.project, sc.disk, sc.clock, sc.slot, sc.job, sc.q, prior, time, phase);
    } else if phase >= 3 {
      PromoteHere(s, sc.disk, sc.slot, sc.job, x, time);
      assert FreshAt(s, sc.project, e, sc.slot, sc.job, sc.q);
      forall k | Current(s, sc.project, e, sc.slot, k) == Ok(true) ensures FreshNow(s, sc.project, e, sc.slot, k) {
        JobOfStamp(s, e, sc.slot, k, sc.job);
      }
    }
  }

  /** And no later change of files makes it reuse a wrong object. */
  lemma {:induction false} SafeSurvives(s: Setting, sc: Scene, prior: Option<Job>, time: nat, phase: nat)
    requires Plausible(s, sc) && Timely(sc.project, sc.disk, sc.clock) && sc.clock <= time
    requires StampIs(s, sc.disk, sc.slot, prior)
    requires Safe(s, sc.project, sc.disk, sc.slot, sc.job, sc.rule, prior, phase)
    ensures Survives(s, sc, time, phase)
  {
    var e := Promote(s, sc.disk, sc.slot, sc.job, s.cc(sc.job, sc.q, Contents(sc.project)), time, phase);
    SafeSlot(s, sc, prior, time, phase);
    hide Promote;
    forall after, k, p | ChangedSince(sc.project, after, time) ensures ReusesRight(s, after, e, sc.slot, k, p) {
      EditSlotSound(s, sc.project, after, e, time, sc.slot);
      if Current(s, after, e, sc.slot, k) == Ok(true) {
        ReuseIsFresh(s, after, e, sc.slot, k, p);
      }
    }
  }

  /** A compiler that knows one job: its object holds the contents of one of the files that it lists. */
  function Quoting(root: Path, a: Job, rule: string, h: Path): Compiler {
    (job: Job, q: Slot, c: map<Path, string>) =>
      if job == a && InputsOf(root, a.source, rule) <= c.Keys && h in c then Compiled(['x'] + c[h], rule)
      else Refused
  }

  lemma {:induction false} QuotingFaithful(s: Setting, a: Job, rule: string, h: Path)
    requires Plumbing(s) && h in InputsOf(s.root, a.source, rule)
    ensures Faithful(s.(cc := Quoting(s.root, a, rule, h)))
  {
    var t := s.(cc := Quoting(s.root, a, rule, h));
    forall job, p, q, c, d ensures LocalAt(t, job, p, q, c, d) {
      if t.cc(job, p, c).Compiled? && Agree(InputsOf(t.root, job.source, t.cc(job, p, c).rule), c, d) {
        assert InputsOf(t.root, job.source, t.cc(job, p, c).rule) <= d.Keys;
      }
    }
    forall job, p, c ensures ListsAt(t, job, p, c) {}
  }

  /** A slot that is current lists all that a compilation lists now. */
  lemma {:induction false} CurrentListsAll(s: Setting, sc: Scene)
    requires Plausible(s, sc) && Current(s, sc.project, sc.disk, sc.slot, sc.job) == Ok(true)
    ensures InputsOf(s.root, sc.job.source, sc.rule) <= StoredInputs(s, sc.disk, sc.slot, sc.job)
  {
    var q :| FreshAt(s, sc.project, sc.disk, sc.slot, sc.job, q);
    assert ListsAt(s, sc.job, q, Contents(sc.project));
    assert LocalAt(s, sc.job, q, sc.q, Contents(sc.project), Contents(sc.project));
  }

  /** If the new dependency file lists a file that the old one lacks, the disk can come from the compiler whose object
      quotes that file. */
  lemma {:induction false} QuotingPlausible(s: Setting, sc: Scene, h: Path)
    requires Plausible(s, sc) && StampIs(s, sc.disk, sc.slot, Some(sc.job)) && DependencyOf(sc.slot) in sc.disk
    requires h in InputsOf(s.root, sc.job.source, sc.rule)
    requires h !in InputsOf(s.root, sc.job.source, sc.disk[DependencyOf(sc.slot)].data)
    ensures Plausible(s.(cc := Quoting(s.root, sc.job, sc.rule, h)), sc)
    ensures InputsOf(s.root, sc.job.source, sc.rule) <= sc.project.Keys
  {
    var t := s.(cc := Quoting(s.root, sc.job, sc.rule, h));
    assert ListsAt(s, sc.job, sc.q, Contents(sc.project));
    QuotingFaithful(s, sc.job, sc.rule, h);
    assert h in sc.project;
    assert t.cc(sc.job, sc.q, Contents(sc.project)) == Compiled(['x'] + Contents(sc.project)[h], sc.rule);
    if Current(s, sc.project, sc.disk, sc.slot, sc.job) == Ok(true) {
      CurrentListsAll(s, sc);
      assert false;
    }
    hide InputsOf;
    hide Faithful;
    hide SlotSound;
    hide Current;
    OldSlotFits(s, t, sc, sc.job);
  }

  /** Then an edit of that file goes unnoticed. */
  lemma {:induction false} OldListSpoils(s: Setting, sc: Scene, time: nat) returns (cc: Compiler)
    requires Plausible(s, sc) && Timely(sc.project, sc.disk, sc.clock) && sc.clock <= time
    requires StampIs(s, sc.disk, sc.slot, Some(sc.job))
    requires !Safe(s, sc.project, sc.disk, sc.slot, sc.job, sc.rule, Some(sc.job), 1)
    ensures Plausible(s.(cc := cc), sc) && !Survives(s.(cc := cc), sc, time, 1)
  {
    hide InputsOf;
    var h :| h in InputsOf(s.root, sc.job.source, sc.rule)
             && h !in InputsOf(s.root, sc.job.source, sc.disk[DependencyOf(sc.slot)].data);
    cc := Quoting(s.root, sc.job, sc.rule, h);
    QuotingPlausible(s, sc, h);
    UnlistedEditSpoils(s.(cc := cc), sc, h, time);
  }

  lemma {:induction false} UnlistedEditSpoils(t: Setting, sc: Scene, h: Path, time: nat)
    requires Plumbing(t) && Timely(sc.project, sc.disk, sc.clock) && sc.clock <= time
    requires StampIs(t, sc.disk, sc.slot, Some(sc.job)) && t.cc == Quoting(t.root, sc.job, sc.rule, h)
    requires InputsOf(t.root, sc.job.source, sc.rule) <= sc.project.Keys
    requires h in InputsOf(t.root, sc.job.source, sc.rule) && DependencyOf(sc.slot) in sc.disk
    requires h !in InputsOf(t.root, sc.job.source, sc.disk[DependencyOf(sc.slot)].data)
    requires InputsOf(t.root, sc.job.source, sc.disk[DependencyOf(sc.slot)].data) <= sc.project.Keys
    ensures !Survives(t, sc, time, 1)
  {
    var x := t.cc(sc.job, sc.q, Contents(sc.project));
    var e := Promote(t, sc.disk, sc.slot, sc.job, x, time, 1);
    var after := sc.project[h := File(sc.project[h].data + ['x'], time + 1)];
    OutputsDistinct(sc.slot, sc.slot);
    CrashedCurrentIff(t, sc.project, sc.disk, sc.clock, sc.slot, sc.job, x, Some(sc.job), time, 1, sc.job);
    CurrentIff(t, sc.project, e, sc.slot, sc.job);
    CurrentIff(t, after, e, sc.slot, sc.job);
    forall p | p in StoredInputs(t, e, sc.slot, sc.job) ensures Older(after, p, e[ObjectOf(sc.slot)].time) {
      assert Older(sc.project, p, e[ObjectOf(sc.slot)].time);
    }
    assert ChangedSince(sc.project, after, time);
    assert (['x'] + Contents(after)[h])[1..] == Contents(after)[h] == sc.project[h].data + ['x'];
    assert (['x'] + sc.project[h].data)[1..] == sc.project[h].data;
    assert !ReusesRight(t, after, e, sc.slot, sc.job, sc.q);
  }

  /** Another job's stamp: some compiler that fits all that was on the disk gives the two jobs different objects. */
  lemma {:induction false} OtherStampSpoils(s: Setting, sc: Scene, prior: Job, time: nat, phase: nat)
    returns (cc: Compiler)
    requires Plausible(s, sc) && Timely(sc.project, sc.disk, sc.clock) && sc.clock <= time
    requires StampIs(s, sc.disk, sc.slot, Some(prior)) && prior != sc.job
    requires !Safe(s, sc.project, sc.disk, sc.slot, sc.job, sc.rule, Some(prior), phase)
    ensures Plausible(s.(cc := cc), sc) && !Survives(s.(cc := cc), sc, time, phase)
  {
    var known := Contents(sc.project);
    var was := Compiled([], []);
    if Current(s, sc.project, sc.disk, sc.slot, prior) == Ok(true) {
      var q :| FreshAt(s, sc.project, sc.disk, sc.slot, prior, q);
      was := s.cc(prior, q, known);
      assert ListsAt(s, prior, q, known);
    }
    var code := was.code + ['x'];
    cc := Table(s.root, sc.job, code, sc.rule, prior, was.code, was.rule);
    var t := s.(cc := cc);
    assert ListsAt(s, sc.job, sc.q, known);
    TableFaithful(s, sc.job, code, sc.rule, prior, was.code, was.rule);
    if Current(s, sc.project, sc.disk, sc.slot, prior) == Ok(true) {
      assert FreshAt(t, sc.project, sc.disk, sc.slot, prior, sc.q);
    }
    OldSlotFits(s, t, sc, prior);
    CrashedUnfresh(t, sc, prior, time, phase);
  }

  /** The slot as it was is sound for a compiler that gives what is in it. */
  lemma {:induction false} OldSlotFits(s: Setting, t: Setting, sc: Scene, prior: Job)
    requires Plumbing(s) && StampIs(s, sc.disk, sc.slot, Some(prior)) && t == s.(cc := t.cc)
    requires Current(s, sc.project, sc.disk, sc.slot, prior) == Ok(true) ==>
      FreshNow(t, sc.project, sc.disk, sc.slot, prior)
    ensures SlotSound(t, sc.project, sc.disk, sc.slot)
  {
    forall k | Current(t, sc.project, sc.disk, sc.slot, k) == Ok(true)
      ensures FreshNow(t, sc.project, sc.disk, sc.slot, k)
    {
      JobOfStamp(s, sc.disk, sc.slot, k, prior);
      assert Current(s, sc.project, sc.disk, sc.slot, k) == Current(t, sc.project, sc.disk, sc.slot, k);
    }
  }

  /** The old stamp's job is current after the build has died, on an object that it does not give. */
  lemma {:induction false} CrashedUnfresh(t: Setting, sc: Scene, prior: Job, time: nat, phase: nat)
    requires Plumbing(t) && Timely(sc.project, sc.disk, sc.clock) && sc.clock <= time && 1 <= phase <= 2
    requires StampIs(t, sc.disk, sc.slot, Some(prior)) && prior != sc.job
    requires !Safe(t, sc.project, sc.disk, sc.slot, sc.job, sc.rule, Some(prior), phase)
    requires var x := t.cc(sc.job, sc.q, Contents(sc.project));
             && x.Compiled? && x.rule == sc.rule
             && forall q :: t.cc(prior, q, Contents(sc.project)).Compiled? ==>
                  t.cc(prior, q, Contents(sc.project)).code != x.code
    ensures !Survives(t, sc, time, phase)
  {
    var x := t.cc(sc.job, sc.q, Contents(sc.project));
    var e := Promote(t, sc.disk, sc.slot, sc.job, x, time, phase);
    CrashedCurrentIff(t, sc.project, sc.disk, sc.clock, sc.slot, sc.job, x, Some(prior), time, phase, prior);
    OutputsDistinct(sc.slot, sc.slot);
    assert ChangedSince(sc.project, sc.project, time);
    assert !ReusesRight(t, sc.project, e, sc.slot, prior, sc.q);
  }

  ghost predicate SurvivesIfPlausible(s: Setting, cc: Compiler, sc: Scene, time: nat, phase: nat) {
    Plausible(s.(cc := cc), sc) ==> Survives(s.(cc := cc), sc, time, phase)
  }

  /** The exact condition. After a build has died with `phase` promotions done, no compiler that the disk could come
      from and no further change of files makes a build reuse a wrong object of the slot, if and only if no stamp is
      left, or no dependency file beside it, or something it lists is missing, or the stamp is this job's and the
      dependency file left beside it lists at least the inputs of the new one. */
  lemma {:induction false} CrashSoundIff(s: Setting, sc: Scene, prior: Option<Job>, time: nat, phase: nat)
    requires Plausible(s, sc) && Timely(sc.project, sc.disk, sc.clock) && sc.clock <= time
    requires StampIs(s, sc.disk, sc.slot, prior)
    ensures Safe(s, sc.project, sc.disk, sc.slot, sc.job, sc.rule, prior, phase) <==>
            forall cc: Compiler :: SurvivesIfPlausible(s, cc, sc, time, phase)
  {
    if Safe(s, sc.project, sc.disk, sc.slot, sc.job, sc.rule, prior, phase) {
      forall cc: Compiler ensures SurvivesIfPlausible(s, cc, sc, time, phase) {
        if Plausible(s.(cc := cc), sc) {
          SafeSurvives(s.(cc := cc), sc, prior, time, phase);
        }
      }
    } else if prior.value == sc.job {
      var cc := OldListSpoils(s, sc, time);
      assert !SurvivesIfPlausible(s, cc, sc, time, phase);
    } else {
      var cc := OtherStampSpoils(s, sc, prior.value, time, phase);
      assert !SurvivesIfPlausible(s, cc, sc, time, phase);
    }
  }

  // ---- Changes that a build does not see ----

  /** A change of files is noticed if and only if it touches one that the dependency file lists. */
  lemma {:induction false} ChangeNoticedIff(
    s: Setting, before: Project, after: Project, disk: Disk, slot: Slot, job: Job)
    requires Plumbing(s) && Current(s, before, disk, slot, job) == Ok(true)
    requires forall p :: p in after ==>
      (p in before && after[p] == before[p]) || after[p].time > disk[ObjectOf(slot)].time
    ensures Current(s, after, disk, slot, job) == Ok(true) <==>
            forall p :: p in StoredInputs(s, disk, slot, job) ==> p in after && p in before && after[p] == before[p]
  {
    CurrentIff(s, before, disk, slot, job);
    CurrentIff(s, after, disk, slot, job);
    forall p | p in StoredInputs(s, disk, slot, job)
      ensures Older(after, p, disk[ObjectOf(slot)].time) <==> p in after && p in before && after[p] == before[p]
    {
      assert Older(before, p, disk[ObjectOf(slot)].time);
    }
  }

  /** The paths that a compilation looks for: what it makes may depend on which of them exist. */
  type Probes = (Job, Slot, map<Path, string>) -> set<Path>

  predicate SameExistence(looked: set<Path>, c: map<Path, string>, d: map<Path, string>) {
    forall p :: p in looked ==> (p in c <==> p in d)
  }

  predicate SearchesAt(
    s: Setting, probes: Probes, job: Job, p: Slot, q: Slot, c: map<Path, string>, d: map<Path, string>)
  {
    && s.cc(job, p, c).Compiled? && Agree(InputsOf(s.root, job.source, s.cc(job, p, c).rule), c, d)
    && SameExistence(probes(job, p, c), c, d) ==>
      SameProduct(s, job.source, s.cc(job, p, c), s.cc(job, q, d))
  }

  /** A compiler that lists what it reads, and besides looks only whether certain paths exist. */
  ghost predicate Searching(s: Setting, probes: Probes) {
    Plumbing(s) && ListsFiles(s) && forall job, p, q, c, d :: SearchesAt(s, probes, job, p, q, c, d)
  }

  /** What a compilation of `job`, staged at `q`, made and what it looked for. */
  datatype Made = Made(job: Job, q: Slot, code: string, rule: string, looked: set<Path>)

  ghost predicate Makes(s: Setting, probes: Probes, project: Project, m: Made) {
    && Searching(s, probes) && s.cc(m.job, m.q, Contents(project)) == Compiled(m.code, m.rule)
    && probes(m.job, m.q, Contents(project)) == m.looked
  }

  /** If the compiler made it before, it makes the same object now, wherever that is staged. */
  ghost predicate StillMakes(s: Setting, cc: Compiler, probes: Probes, before: Project, after: Project, m: Made) {
    Makes(s.(cc := cc), probes, before, m) ==>
      forall q :: cc(m.job, q, Contents(after)).Compiled? && cc(m.job, q, Contents(after)).code == m.code
  }

  /** A compiler whose object tells whether the same of these paths exist as did then. */
  function Noticing(root: Path, m: Made, seen: set<Path>): Compiler {
    (job: Job, q: Slot, c: map<Path, string>) =>
      if job == m.job && InputsOf(root, m.job.source, m.rule) <= c.Keys then
        Compiled(if m.looked * c.Keys == seen then m.code else m.code + ['x'], m.rule)
      else Refused
  }

  lemma {:induction false} NoticingSearches(s: Setting, m: Made, seen: set<Path>)
    requires Plumbing(s)
    ensures Searching(s.(cc := Noticing(s.root, m, seen)), (j: Job, p: Slot, c: map<Path, string>) => m.looked)
  {
    hide InputsOf;
    var t := s.(cc := Noticing(s.root, m, seen));
    var probes: Probes := (j: Job, p: Slot, c: map<Path, string>) => m.looked;
    forall job, p, q, c, d ensures SearchesAt(t, probes, job, p, q, c, d) {
      if t.cc(job, p, c).Compiled? && Agree(InputsOf(t.root, job.source, m.rule), c, d)
         && SameExistence(m.looked, c, d) {
        assert InputsOf(t.root, job.source, m.rule) <= d.Keys;
        assert m.looked * c.Keys == m.looked * d.Keys;
      }
    }
    forall job, p, c ensures ListsAt(t, job, p, c) {}
  }

  /** After a change that is not noticed, reusing the object is right for every compiler that can have made it if and
      only if each path that it looked for exists now exactly if it did then. */
  lemma {:induction false} UnnoticedChangeIff(
    s: Setting, before: Project, after: Project, disk: Disk, slot: Slot, m: Made)
    requires Plumbing(s) && Current(s, before, disk, slot, m.job) == Ok(true)
    requires ChangedSince(before, after, disk[ObjectOf(slot)].time) && Current(s, after, disk, slot, m.job) == Ok(true)
    requires disk[ObjectOf(slot)].data == m.code && disk[DependencyOf(slot)].data == m.rule
    ensures (forall cc: Compiler, probes: Probes :: StillMakes(s, cc, probes, before, after, m)) <==>
            SameExistence(m.looked, Contents(before), Contents(after))
  {
    UnnoticedAgrees(s, before, after, disk, slot, m);
    var c, d := Contents(before), Contents(after);
    hide InputsOf;
    hide Current;
    if SameExistence(m.looked, c, d) {
      forall cc: Compiler, probes: Probes ensures StillMakes(s, cc, probes, before, after, m) {
        if Makes(s.(cc := cc), probes, before, m) {
          forall q ensures cc(m.job, q, d).Compiled? && cc(m.job, q, d).code == m.code {
            assert SearchesAt(s.(cc := cc), probes, m.job, m.q, q, c, d);
          }
        }
      }
    } else {
      ChangedExistence(s, before, after, m);
    }
  }

  lemma {:induction false} UnnoticedAgrees(
    s: Setting, before: Project, after: Project, disk: Disk, slot: Slot, m: Made)
    requires Plumbing(s) && Current(s, before, disk, slot, m.job) == Ok(true)
    requires ChangedSince(before, after, disk[ObjectOf(slot)].time) && Current(s, after, disk, slot, m.job) == Ok(true)
    requires disk[DependencyOf(slot)].data == m.rule
    ensures Agree(InputsOf(s.root, m.job.source, m.rule), Contents(before), Contents(after))
  {
    ChangeNoticedIff(s, before, after, disk, slot, m.job);
    CurrentIff(s, before, disk, slot, m.job);
  }

  lemma {:induction false} ChangedExistence(s: Setting, before: Project, after: Project, m: Made)
    requires Plumbing(s) && !SameExistence(m.looked, Contents(before), Contents(after))
    requires Agree(InputsOf(s.root, m.job.source, m.rule), Contents(before), Contents(after))
    ensures exists cc: Compiler, probes: Probes :: !StillMakes(s, cc, probes, before, after, m)
  {
    hide InputsOf;
    var c, d := Contents(before), Contents(after);
    var cc := Noticing(s.root, m, m.looked * c.Keys);
    var probes: Probes := (j: Job, p: Slot, c: map<Path, string>) => m.looked;
    NoticingSearches(s, m, m.looked * c.Keys);
    var p :| p in m.looked && !(p in c <==> p in d);
    assert p in m.looked * c.Keys <==> p !in m.looked * d.Keys;
    assert cc(m.job, m.q, c) == Compiled(m.code, m.rule) && cc(m.job, m.q, d) == Compiled(m.code + ['x'], m.rule);
    assert Makes(s.(cc := cc), probes, before, m);
    assert !StillMakes(s, cc, probes, before, after, m);
  }
}
