/** `normalize_linker_script` of `importer.rs`, which takes the linker script out of a list of flags in place, and the
    part of `validate_imported_flags` of `pipeline.rs` that then looks at what is left. */
module LinkerScript {
  import opened Common

  predicate StartsT(flag: string) {
    |flag| >= 2 && flag[0] == '-' && flag[1] == 'T'
  }

  predicate BareT(flag: string) {
    flag == ['-', 'T']
  }

  /** The first flag names a script: by the flag that follows, or in the same flag. */
  predicate Names(flags: seq<string>) {
    flags != [] && StartsT(flags[0]) && (BareT(flags[0]) ==> |flags| > 1)
  }

  function Value(flags: seq<string>): string
    requires Names(flags)
  {
    if BareT(flags[0]) then flags[1] else flags[0][2..]
  }

  function Width(flags: seq<string>): (w: nat)
    requires Names(flags)
    ensures 0 < w <= |flags|
  {
    if BareT(flags[0]) then 2 else 1
  }

  /** How setting paths are normalised, and which of them are files. */
  datatype Paths = Paths(normalize: string -> Result<string>, isFile: string -> bool)

  function Conflict(): Failure {
    Failure(Project, Other("CONFLICTING_LINKER_SCRIPT"))
  }

  /** The script and the flags that stay. */
  datatype Sorted = Sorted(script: Option<string>, kept: seq<string>)

  function Sweep(flags: seq<string>, script: Option<string>, paths: Paths): Result<Sorted>
    decreases |flags|
  {
    if flags == [] then Ok(Sorted(script, []))
    else if Names(flags) then
      if script.Some? then Err(Conflict())
      else
        match paths.normalize(Value(flags))
        case Err(e) => Err(e)
        case Ok(value) => Sweep(flags[Width(flags)..], Some(value), paths)
    else
      match Sweep(flags[1..], script, paths)
      case Err(e) => Err(e)
      case Ok(sorted) => Ok(Sorted(sorted.script, [flags[0]] + sorted.kept))
  }

  function Normalized(flags: seq<string>, paths: Paths): Result<Sorted> {
    match Sweep(flags, None, paths)
    case Err(e) => Err(e)
    case Ok(sorted) =>
      if sorted.script.Some? && !paths.isFile(sorted.script.value) then
        Err(Failure(Project, Other("LINKER_SCRIPT_MISSING")))
      else Ok(sorted)
  }

  // ---- The code ----

  function Prepend(front: seq<string>, r: Result<Sorted>): Result<Sorted> {
    match r
    case Err(e) => Err(e)
    case Ok(sorted) => Ok(Sorted(sorted.script, front + sorted.kept))
  }

  class FlagList {
    var flags: seq<string>

    constructor (flags: seq<string>)
      ensures this.flags == flags
    {
      this.flags := flags;
    }

    method NormalizeLinkerScript(paths: Paths) returns (r: Result<Option<string>>)
      modifies this
      ensures r.Ok? <==> Normalized(old(flags), paths).Ok?
      ensures r.Ok? ==> Normalized(old(flags), paths) == Ok(Sorted(r.value, flags))
      ensures r.Err? ==> Normalized(old(flags), paths) == Err(r.error)
    {
      var script: Option<string> := None;
      var index := 0;
      assert flags[0..] == flags && [] + flags == flags;
      PrependNothing(Sweep(flags, None, paths));
      while index < |flags|
        invariant 0 <= index <= |flags|
        invariant Sweep(old(flags), None, paths) == Prepend(flags[..index], Sweep(flags[index..], script, paths))
        decreases |flags| - index
      {
        ghost var rest := flags[index..];
        var candidate :=
          if BareT(flags[index]) then (if index + 1 < |flags| then Some(flags[index + 1]) else None)
          else if StartsT(flags[index]) then Some(flags[index][2..])
          else None;
        if candidate.Some? {
          assert Names(rest) && Value(rest) == candidate.value;
          if script.Some? {
            return Err(Conflict());
          }
          var value := paths.normalize(candidate.value);
          if value.Err? {
            return Err(value.error);
          }
          script := Some(value.value);
          var end := if BareT(flags[index]) then index + 2 else index + 1;
          assert flags[end..] == rest[Width(rest)..];
          ghost var front := flags[..index];
          flags := flags[..index] + flags[end..];
          assert flags[..index] == front && flags[index..] == rest[Width(rest)..];
        } else {
          StepOver(flags, index, script, paths);
          index := index + 1;
        }
      }
      assert flags[..index] + [] == flags;
      if script.Some? && !paths.isFile(script.value) {
        return Err(Failure(Project, Other("LINKER_SCRIPT_MISSING")));
      }
      return Ok(script);
    }
  }

  lemma {:induction false} PrependNothing(r: Result<Sorted>)
    ensures Prepend([], r) == r
  {
    if r.Ok? {
      assert [] + r.value.kept == r.value.kept;
    }
  }

  lemma {:induction false} StepOver(flags: seq<string>, index: nat, script: Option<string>, paths: Paths)
    requires index < |flags| && !Names(flags[index..])
    ensures Prepend(flags[..index], Sweep(flags[index..], script, paths)) ==
            Prepend(flags[..index + 1], Sweep(flags[index + 1..], script, paths))
  {
    assert flags[index..][1..] == flags[index + 1..];
    var r := Sweep(flags[index + 1..], script, paths);
    if r.Ok? {
      assert flags[..index] + ([flags[index]] + r.value.kept) == flags[..index + 1] + r.value.kept;
    }
  }

  // ---- What it achieves ----

  /** The scripts a list of flags names, in order. */
  function Scripts(flags: seq<string>): seq<string>
    decreases |flags|
  {
    if flags == [] then []
    else if Names(flags) then [Value(flags)] + Scripts(flags[Width(flags)..])
    else Scripts(flags[1..])
  }

  /** Only the last flag may still start with -T, and then it is a bare one. */
  predicate Clean(kept: seq<string>) {
    forall i :: 0 <= i < |kept| && StartsT(kept[i]) ==> i == |kept| - 1 && BareT(kept[i])
  }

  lemma {:induction false} SweepClean(flags: seq<string>, script: Option<string>, paths: Paths)
    requires Sweep(flags, script, paths).Ok?
    ensures Clean(Sweep(flags, script, paths).value.kept)
    decreases |flags|
  {
    if flags != [] {
      if Names(flags) {
        SweepClean(flags[Width(flags)..], Some(paths.normalize(Value(flags)).value), paths);
      } else {
        SweepClean(flags[1..], script, paths);
      }
    }
  }

  /** It succeeds exactly when at most one script is named and it can be normalised. */
  lemma {:induction false} SweepOkIff(flags: seq<string>, script: Option<string>, paths: Paths)
    ensures Sweep(flags, script, paths).Ok? <==>
            Scripts(flags) == [] ||
            (script.None? && |Scripts(flags)| == 1 && paths.normalize(Scripts(flags)[0]).Ok?)
    ensures Sweep(flags, script, paths).Ok? ==>
            Sweep(flags, script, paths).value.script ==
              if Scripts(flags) == [] then script else Some(paths.normalize(Scripts(flags)[0]).value)
    ensures Sweep(flags, script, paths).Err? ==>
            Sweep(flags, script, paths).error ==
              if script.None? && paths.normalize(Scripts(flags)[0]).Err?
              then paths.normalize(Scripts(flags)[0]).error else Conflict()
    decreases |flags|
  {
    if flags != [] {
      if Names(flags) {
        if script.None? && paths.normalize(Value(flags)).Ok? {
          SweepOkIff(flags[Width(flags)..], Some(paths.normalize(Value(flags)).value), paths);
        }
      } else {
        SweepOkIff(flags[1..], script, paths);
      }
    }
  }

  /** `kept` is `flags` without the flag or the two flags at `i` that name the script `value`. */
  predicate TakenOut(flags: seq<string>, kept: seq<string>, value: string, i: nat) {
    && i < |flags| && Names(flags[i..]) && Value(flags[i..]) == value
    && kept == flags[..i] + flags[i + Width(flags[i..])..]
  }

  lemma {:induction false} NoScriptsKeepsAll(flags: seq<string>, script: Option<string>, paths: Paths)
    requires Scripts(flags) == []
    ensures Sweep(flags, script, paths) == Ok(Sorted(script, flags))
    decreases |flags|
  {
    if flags != [] {
      NoScriptsKeepsAll(flags[1..], script, paths);
      assert [flags[0]] + flags[1..] == flags;
    }
  }

  lemma {:induction false} TakenOutCons(flags: seq<string>, kept: seq<string>, value: string, i: nat)
    requires flags != [] && TakenOut(flags[1..], kept, value, i)
    ensures TakenOut(flags, [flags[0]] + kept, value, i + 1)
  {
    var rest := flags[1..];
    assert flags[i + 1..] == rest[i..];
    assert flags[..i + 1] == [flags[0]] + rest[..i];
    assert flags[i + 1 + Width(rest[i..])..] == rest[i + Width(rest[i..])..];
  }

  /** The other flags are kept, in order. */
  lemma {:induction false} OneScriptTakenOut(flags: seq<string>, paths: Paths) returns (i: nat)
    requires Sweep(flags, None, paths).Ok? && Scripts(flags) != []
    ensures TakenOut(flags, Sweep(flags, None, paths).value.kept, Scripts(flags)[0], i)
    decreases |flags|
  {
    SweepOkIff(flags, None, paths);
    if Names(flags) {
      NoScriptsKeepsAll(flags[Width(flags)..], Some(paths.normalize(Value(flags)).value), paths);
      assert flags[0..] == flags && flags[..0] == [];
      i := 0;
    } else {
      var j := OneScriptTakenOut(flags[1..], paths);
      TakenOutCons(flags, Sweep(flags[1..], None, paths).value.kept, Scripts(flags)[0], j);
      i := j + 1;
    }
  }

  // ---- Validation afterwards ----

  predicate StartsWith(flag: string, prefix: string) {
    prefix <= flag
  }

  predicate IsWordChar(c: char) {
    IsDigit(c) || 'a' <= c <= 'z' || 'A' <= c <= 'Z' || c == '_'
  }

  /** The linker flags a build accepts. */
  predicate AllowedLinkerFlag(flag: string) {
    flag == "-mthumb" || flag == "-Wl,--cref" || flag == "-Wl,--gc-sections"
    || (StartsWith(flag, "-Wl,--entry=") && |flag| > 12 && forall i :: 12 <= i < |flag| ==> IsWordChar(flag[i]))
  }

  predicate Accepted(flags: seq<string>) {
    forall i :: 0 <= i < |flags| ==> AllowedLinkerFlag(flags[i])
  }

  method ValidateLinkerFlags(flags: seq<string>) returns (unsafe: Option<string>)
    ensures unsafe.None? <==> Accepted(flags)
    ensures unsafe.Some? ==>
      exists i :: 0 <= i < |flags| && flags[i] == unsafe.value && !AllowedLinkerFlag(flags[i]) && Accepted(flags[..i])
  {
    for i := 0 to |flags|
      invariant Accepted(flags[..i])
    {
      if !AllowedLinkerFlag(flags[i]) {
        return Some(flags[i]);
      }
    }
    assert flags[..|flags|] == flags;
    return None;
  }

  lemma {:induction false} AllowedIsNotT(flag: string)
    requires AllowedLinkerFlag(flag)
    ensures !StartsT(flag)
  {
    if StartsWith(flag, "-Wl,--entry=") {
      assert flag[1] == "-Wl,--entry="[1];
    }
  }

  /** What is left holds a -T at most as a bare last flag, and a list of flags that is then accepted holds none. */
  lemma {:induction false} AcceptedHoldsNoScript(flags: seq<string>, paths: Paths)
    requires Normalized(flags, paths).Ok?
    ensures var kept := Normalized(flags, paths).value.kept;
            && Clean(kept)
            && (Accepted(kept) ==> forall i :: 0 <= i < |kept| ==> !StartsT(kept[i]))
  {
    SweepClean(flags, None, paths);
    var kept := Normalized(flags, paths).value.kept;
    if Accepted(kept) {
      forall i | 0 <= i < |kept| ensures !StartsT(kept[i]) {
        AllowedIsNotT(kept[i]);
      }
    }
  }

  // ---- Lists as they are written ----

  /** The flag does not start with `-T`. */
  predicate Ordinary(flag: string) {
    |flag| < 2 || flag[..2] != "-T"
  }

  predicate AllOrdinary(flags: seq<string>) {
    forall i :: 0 <= i < |flags| ==> Ordinary(flags[i])
  }

  /** A script is written as two flags or, when its name is not empty, as one. */
  function Writing(name: string, joined: bool): seq<string> {
    if joined && name != [] then ["-T" + name] else ["-T", name]
  }

  /** Ordinary flags, and perhaps a bare `-T` at the very end. */
  predicate Plain(flags: seq<string>) {
    AllOrdinary(flags) || (flags != [] && flags[|flags| - 1] == "-T" && AllOrdinary(flags[..|flags| - 1]))
  }

  lemma {:induction false} PlainSwept(flags: seq<string>, script: Option<string>, paths: Paths)
    requires Plain(flags)
    ensures Sweep(flags, script, paths) == Ok(Sorted(script, flags))
    decreases |flags|
  {
    if flags != [] {
      var rest := flags[1..];
      if |flags| > 1 {
        assert Ordinary(flags[0]);
        assert rest[..|rest| - 1] == flags[..|flags| - 1][1..];
      }
      PlainSwept(rest, script, paths);
      assert [flags[0]] + rest == flags;
    }
  }

  lemma {:induction false} OrdinaryPassed(before: seq<string>, rest: seq<string>, script: Option<string>, paths: Paths)
    requires AllOrdinary(before)
    ensures Sweep(before + rest, script, paths) == Prepend(before, Sweep(rest, script, paths))
  {
    var r := Sweep(rest, script, paths);
    if before == [] {
      assert before + rest == rest;
      PrependNothing(r);
    } else {
      assert Ordinary(before[0]);
      assert (before + rest)[1..] == before[1..] + rest;
      OrdinaryPassed(before[1..], rest, script, paths);
      if r.Ok? {
        assert [before[0]] + (before[1..] + r.value.kept) == before + r.value.kept;
      }
    }
  }

  lemma {:induction false} WritingSwept(
    name: string, joined: bool, rest: seq<string>, script: Option<string>, paths: Paths)
    ensures Sweep(Writing(name, joined) + rest, script, paths) ==
            if script.Some? then Err(Failure(Project, Other("CONFLICTING_LINKER_SCRIPT")))
            else if paths.normalize(name).Err? then Err(paths.normalize(name).error)
            else Sweep(rest, Some(paths.normalize(name).value), paths)
  {
    var w := Writing(name, joined);
    var flags := w + rest;
    if |w| == 1 {
      assert flags[0] == "-T" + name && flags[0][2..] == name;
      assert flags[1..] == rest;
    } else {
      assert flags[0] == "-T" && flags[1] == name && flags[2..] == rest;
    }
  }

  /** A list that names no script is left as it is; a bare `-T` at its end stays. */
  lemma {:induction false} NoScript(flags: seq<string>, paths: Paths)
    requires Plain(flags)
    ensures Normalized(flags, paths) == Ok(Sorted(None, flags))
  {
    PlainSwept(flags, None, paths);
  }

  /** A list that names one script loses exactly the flags that name it, if its name can be normalised and is a file. */
  lemma {:induction false} OneScript(
    before: seq<string>, name: string, joined: bool, after: seq<string>, paths: Paths)
    requires AllOrdinary(before) && Plain(after)
    ensures var path := paths.normalize(name);
            Normalized(before + (Writing(name, joined) + after), paths) ==
            if path.Err? then Err(path.error)
            else if !paths.isFile(path.value) then Err(Failure(Project, Other("LINKER_SCRIPT_MISSING")))
            else Ok(Sorted(Some(path.value), before + after))
  {
    OrdinaryPassed(before, Writing(name, joined) + after, None, paths);
    WritingSwept(name, joined, after, None, paths);
    if paths.normalize(name).Ok? {
      PlainSwept(after, Some(paths.normalize(name).value), paths);
    }
  }

  /** A second script is a conflict, whatever it is and whatever follows. */
  lemma {:induction false} TwoScripts(
    before: seq<string>, name: string, joined: bool, between: seq<string>, other: string, otherJoined: bool,
    after: seq<string>, paths: Paths)
    requires AllOrdinary(before) && AllOrdinary(between)
    ensures var flags := before + (Writing(name, joined) + (between + (Writing(other, otherJoined) + after)));
            Normalized(flags, paths) ==
            if paths.normalize(name).Err? then Err(paths.normalize(name).error)
            else Err(Failure(Project, Other("CONFLICTING_LINKER_SCRIPT")))
  {
    var third := Writing(other, otherJoined) + after;
    OrdinaryPassed(before, Writing(name, joined) + (between + third), None, paths);
    WritingSwept(name, joined, between + third, None, paths);
    if paths.normalize(name).Ok? {
      var script := Some(paths.normalize(name).value);
      OrdinaryPassed(between, third, script, paths);
      WritingSwept(other, otherJoined, after, script, paths);
    }
  }

  predicate IsAlphanumeric(c: char) {
    '0' <= c <= '9' || 'A' <= c <= 'Z' || 'a' <= c <= 'z'
  }

  /** A non-empty name of letters, digits and underscores. */
  predicate IsName(name: string) {
    name != [] && forall i :: 0 <= i < |name| ==> name[i] == '_' || IsAlphanumeric(name[i])
  }

  ghost predicate PrefixedName(flag: string, prefix: string) {
    exists name :: flag == prefix + name && IsName(name)
  }

  lemma {:induction false} PrefixedNameIff(flag: string, prefix: string)
    ensures PrefixedName(flag, prefix) <==>
            StartsWith(flag, prefix) && |flag| > |prefix|
            && forall i :: |prefix| <= i < |flag| ==> IsWordChar(flag[i])
  {
    if StartsWith(flag, prefix) && |flag| > |prefix| && (forall i :: |prefix| <= i < |flag| ==> IsWordChar(flag[i])) {
      assert flag == prefix + flag[|prefix|..] && IsName(flag[|prefix|..]);
    }
    if name :| flag == prefix + name && IsName(name) {
      assert forall i :: |prefix| <= i < |flag| ==> flag[i] == name[i - |prefix|];
    }
  }

  /** The accepted flags are three words and an entry point with a name. */
  lemma {:induction false} AllowedIff(flag: string)
    ensures AllowedLinkerFlag(flag) <==>
            || flag == "-mthumb" || flag == "-Wl,--cref" || flag == "-Wl,--gc-sections"
            || PrefixedName(flag, "-Wl,--entry=")
  {
    hide StartsWith;
    hide PrefixedName;
    hide IsWordChar;
    PrefixedNameIff(flag, "-Wl,--entry=");
    assert |"-Wl,--entry="| == 12;
  }
}
