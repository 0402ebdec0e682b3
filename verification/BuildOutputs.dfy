/** Names of the files that `build` keeps for one source, and the stamp it compares: the per-source part of `build` in
    `pipeline.rs` that does not touch the disk. */
module BuildOutputs {
  import opened Common

  type Path = string

  // ---- Names ----

  /** `{index:04}`. */
  function Padded(index: nat): (s: string)
    ensures forall i :: 0 <= i < |s| ==> IsDigit(s[i])
  {
    Zeros(4 - |Decimal(index)|) + Decimal(index)
  }

  function Zeros(n: int): (s: string)
    ensures forall i :: 0 <= i < |s| ==> s[i] == '0'
  {
    if n <= 0 then [] else Zeros(n - 1) + ['0']
  }

  /** The outputs of one source share a directory and a stem. */
  datatype Slot = Slot(dir: Path, stem: string)

  /** An output file: paths are compared by their directory and their file name. */
  datatype OutPath = OutPath(dir: Path, name: string)

  function SlotOf(dir: Path, index: nat, basename: string): Slot {
    Slot(dir, Padded(index) + (['-'] + basename))
  }

  function ObjectOf(slot: Slot): OutPath { OutPath(slot.dir, slot.stem + ".o") }

  function DependencyOf(slot: Slot): OutPath { OutPath(slot.dir, slot.stem + ".d") }

  function StampOf(slot: Slot): OutPath { OutPath(slot.dir, slot.stem + ".command.json") }

  function OutputsOf(slot: Slot): set<OutPath> {
    {ObjectOf(slot), DependencyOf(slot), StampOf(slot)}
  }

  lemma {:induction false} LeadingZeros(n: int, digits: string)
    requires forall i :: 0 <= i < |digits| ==> IsDigit(digits[i])
    ensures DecimalValue(Zeros(n) + digits) == DecimalValue(digits)
    decreases |digits|, n
  {
    var all := Zeros(n) + digits;
    if digits != [] {
      assert all[..|all| - 1] == Zeros(n) + digits[..|digits| - 1];
      LeadingZeros(n, digits[..|digits| - 1]);
    } else if n > 0 {
      assert all == Zeros(n) && all[..|all| - 1] == Zeros(n - 1) + [];
      LeadingZeros(n - 1, []);
    }
  }

  lemma {:induction false} PaddedValue(i: nat)
    ensures DecimalValue(Padded(i)) == i
  {
    LeadingZeros(4 - |Decimal(i)|, Decimal(i));
    DecimalRoundTrip(i);
  }

  lemma {:induction false} ZerosLength(n: int)
    ensures |Zeros(n)| == if n <= 0 then 0 else n
  {
    if n > 0 {
      ZerosLength(n - 1);
    }
  }

  /** The file names: the index in at least four digits, the base name, and what the file is. */
  lemma {:induction false} OutputNames(dir: Path, index: nat, basename: string)
    ensures var digits := Padded(index);
            && |digits| == (if |Decimal(index)| < 4 then 4 else |Decimal(index)|) && DecimalValue(digits) == index
            && ObjectOf(SlotOf(dir, index, basename)) == OutPath(dir, digits + "-" + basename + ".o")
            && DependencyOf(SlotOf(dir, index, basename)) == OutPath(dir, digits + "-" + basename + ".d")
            && StampOf(SlotOf(dir, index, basename)) == OutPath(dir, digits + "-" + basename + ".command.json")
  {
    ZerosLength(4 - |Decimal(index)|);
    PaddedValue(index);
    assert Padded(index) + (['-'] + basename) == Padded(index) + "-" + basename;
  }

  lemma {:induction false} StemIndex(i: nat, j: nat, a: string, b: string)
    requires Padded(i) + (['-'] + a) == Padded(j) + (['-'] + b)
    ensures i == j
  {
    var s, t := Padded(i) + (['-'] + a), Padded(j) + (['-'] + b);
    FirstIndexAt(s, '-', |Padded(i)|);
    FirstIndexAt(t, '-', |Padded(j)|);
    assert Padded(i) == s[..|Padded(i)|];
    assert Padded(j) == t[..|Padded(j)|];
    PaddedValue(i);
    PaddedValue(j);
  }

  /** Two sources of one plan never share a stem, whatever their base names are. */
  lemma {:induction false} StemsDiffer(dir: Path, i: nat, j: nat, a: string, b: string)
    requires i != j
    ensures SlotOf(dir, i, a) != SlotOf(dir, j, b)
  {
    if SlotOf(dir, i, a) == SlotOf(dir, j, b) {
      StemIndex(i, j, a, b);
    }
  }

  lemma {:induction false} SuffixDetermines(s: string, t: string, suffix: string)
    requires s + suffix == t + suffix
    ensures s == t
  {
    assert s == (s + suffix)[..|s|];
    assert t == (t + suffix)[..|t|];
  }

  /** No file is an output of two slots, and the three outputs of a slot are three files. */
  lemma {:induction false} OutputsDistinct(s: Slot, t: Slot)
    ensures ObjectOf(s) != DependencyOf(t) && ObjectOf(s) != StampOf(t) && DependencyOf(s) != StampOf(t)
    ensures s != t ==> OutputsOf(s) !! OutputsOf(t)
  {
    LastChars(s);
    LastChars(t);
    if s.dir == t.dir && s.stem != t.stem {
      if ObjectOf(s) == ObjectOf(t) { SuffixDetermines(s.stem, t.stem, ".o"); }
      if DependencyOf(s) == DependencyOf(t) { SuffixDetermines(s.stem, t.stem, ".d"); }
      if StampOf(s) == StampOf(t) { SuffixDetermines(s.stem, t.stem, ".command.json"); }
    }
  }

  function LastChar(s: string): char
    requires s != []
  {
    s[|s| - 1]
  }

  lemma LastChars(s: Slot)
    ensures ObjectOf(s).name != [] && LastChar(ObjectOf(s).name) == 'o'
    ensures DependencyOf(s).name != [] && LastChar(DependencyOf(s).name) == 'd'
    ensures StampOf(s).name != [] && LastChar(StampOf(s).name) == 'n'
  {}

  // ---- The command line and its stamp ----

  function TextOf(path: OutPath): Path {
    path.dir + (['/'] + path.name)
  }

  /** The arguments of one compilation: those that come from the plan and the source's kind, then the outputs. */
  function Arguments(flags: seq<string>, dependency: Path, source: Path, output: Path): seq<string> {
    flags + ["-MMD", "-MP", "-MF", dependency, "-c", source, "-o", output]
  }

  function Renamed(argument: string, staged: Slot, final: Slot): string {
    if argument == TextOf(ObjectOf(staged)) then TextOf(ObjectOf(final))
    else if argument == TextOf(DependencyOf(staged)) then TextOf(DependencyOf(final))
    else argument
  }

  /** The arguments with the staged outputs replaced by their final names. */
  function Fingerprint(args: seq<string>, staged: Slot, final: Slot): (r: seq<string>)
    ensures |r| == |args|
  {
    seq(|args|, i requires 0 <= i < |args| => Renamed(args[i], staged, final))
  }

  /** What a compilation is, apart from the place of its outputs. */
  datatype Job = Job(identity: string, flags: seq<string>, source: Path)

  function StampArgs(slot: Slot, job: Job): seq<string> {
    Arguments(job.flags, TextOf(DependencyOf(slot)), job.source, TextOf(ObjectOf(slot)))
  }

  predicate Unnamed(path: Path, job: Job) {
    path !in job.flags && path != job.source
  }

  /** The staging directory is an absolute path that no argument of the plan names. */
  predicate Private(staged: Slot, job: Job) {
    && staged.dir != [] && staged.dir[0] == '/'
    && Unnamed(TextOf(ObjectOf(staged)), job) && Unnamed(TextOf(DependencyOf(staged)), job)
  }

  /** The stamp does not depend on the staging directory. */
  lemma {:induction false} StagingForgotten(staged: Slot, final: Slot, job: Job)
    requires Private(staged, job)
    ensures Fingerprint(StampArgs(staged, job), staged, final) == StampArgs(final, job)
  {
    OutputsDistinct(staged, staged);
    StagedDiffers(staged);
    var args, want := StampArgs(staged, job), StampArgs(final, job);
    forall i | 0 <= i < |args|
      ensures Renamed(args[i], staged, final) == want[i]
    {
      if i < |job.flags| {
        assert args[i] == job.flags[i];
      }
    }
  }

  /** A staged path starts with a slash, so it is no option, and the two staged paths differ. */
  lemma {:induction false} StagedDiffers(staged: Slot)
    requires staged.dir != [] && staged.dir[0] == '/'
    ensures TextOf(ObjectOf(staged)) != TextOf(DependencyOf(staged))
    ensures TextOf(ObjectOf(staged))[0] == '/' && TextOf(DependencyOf(staged))[0] == '/'
  {
    var o, d := TextOf(ObjectOf(staged)), TextOf(DependencyOf(staged));
    assert o[|o| - 1] == 'o' && d[|d| - 1] == 'd';
  }

  /** A stamp determines the compilation it was written for. */
  lemma {:induction false} StampDetermines(slot: Slot, a: Job, b: Job)
    requires a.identity == b.identity && StampArgs(slot, a) == StampArgs(slot, b)
    ensures a == b
  {
    var x, y := StampArgs(slot, a), StampArgs(slot, b);
    assert |a.flags| == |x| - 8 && |b.flags| == |y| - 8;
    assert a.flags == x[..|a.flags|] && b.flags == y[..|b.flags|];
    assert a.source == x[|a.flags| + 5] && b.source == y[|b.flags| + 5];
  }

  // ---- The compiler's identity ----

  datatype Tool = Tool(path: Path, bytes: string)

  /** `tool_identity`: the path and, after a colon, the digest of the file. */
  function Identity(digest: string -> string, tool: Tool): string {
    tool.path + ([':'] + digest(tool.bytes))
  }

  /** Two compilers with the same identity are the same file with the same bytes: the digest has a fixed length and is
      taken to be injective. */
  lemma {:induction false} IdentityDetermines(digest: string -> string, a: Tool, b: Tool)
    requires forall x :: |digest(x)| == 64
    requires forall x, y :: digest(x) == digest(y) ==> x == y
    requires Identity(digest, a) == Identity(digest, b)
    ensures a == b
  {
    var s, t := Identity(digest, a), Identity(digest, b);
    assert |a.path| == |s| - 65 && |b.path| == |t| - 65;
    assert a.path == s[..|a.path|] && b.path == t[..|b.path|];
    assert digest(a.bytes) == s[|a.path| + 1..] && digest(b.bytes) == t[|b.path| + 1..];
  }
}
