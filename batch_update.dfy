/** The dependency updater (central-repo/dist/scripts/batch-update-fhevm-version.js):
    it checks the requested version, finds the example directories that
    hold a package.json, and in each one moves `@zama.ai/fhevm` to
    `^<version>` in whichever of `dependencies` and `devDependencies`
    already names it, or only reports what it would do in a dry run. */
module BatchUpdate {
  import opened Basics
  import opened Files

  // ---------------------------------------------------------------------
  // Arguments
  // ---------------------------------------------------------------------

  /** The end of the run of digits that starts at `i`. */
  function DigitsEnd(s: string, i: nat): (j: nat)
    requires i <= |s|
    ensures i <= j <= |s|
    ensures forall k :: i <= k < j ==> IsDigit(s[k])
    ensures j < |s| ==> !IsDigit(s[j])
    decreases |s| - i
  {
    if i < |s| && IsDigit(s[i]) then DigitsEnd(s, i + 1) else i
  }

  /** `/^\d+\.\d+\.\d+/.test(version)`, matched by hand: three runs of
      digits joined by dots at the start; whatever follows is ignored. */
  predicate ValidateVersion(version: string) {
    var a := DigitsEnd(version, 0);
    0 < a < |version| && version[a] == '.' &&
    var b := DigitsEnd(version, a + 1);
    a + 1 < b < |version| && version[b] == '.' &&
    DigitsEnd(version, b + 1) > b + 1
  }

  /** Every character of `s` from `i` up to `j` is a digit. */
  predicate DigitsBetween(s: string, i: nat, j: nat)
    requires i <= j <= |s|
  {
    forall k :: i <= k < j ==> IsDigit(s[k])
  }

  /** A run of digits that ends at a non-digit (or at the end) is the run
      `DigitsEnd` finds. */
  lemma {:induction false} DigitsEndAt(s: string, i: nat, j: nat)
    requires i <= j <= |s| && DigitsBetween(s, i, j)
    ensures DigitsEnd(s, i) >= j
    ensures j < |s| && !IsDigit(s[j]) ==> DigitsEnd(s, i) == j
    decreases j - i
  {
    if i < j {
      DigitsEndAt(s, i + 1, j);
    }
  }

  /** `version` starts with the digits in `[0, a)`, a dot, the digits in
      `(a, b)`, a dot and the digits in `(b, c)`, none of them empty. */
  predicate VersionPrefix(version: string, a: nat, b: nat, c: nat) {
    0 < a && a + 1 < b && b + 1 < c <= |version| &&
    DigitsBetween(version, 0, a) && version[a] == '.' &&
    DigitsBetween(version, a + 1, b) && version[b] == '.' && DigitsBetween(version, b + 1, c)
  }

  /** The pattern accepts exactly the strings that start with three
      non-empty runs of digits joined by dots, whatever follows, e.g.
      `1.2.3-beta`. */
  lemma ValidateVersionSpec(version: string)
    ensures ValidateVersion(version) <==> exists a: nat, b: nat, c: nat :: VersionPrefix(version, a, b, c)
  {
    if ValidateVersion(version) {
      var a := DigitsEnd(version, 0);
      var b := DigitsEnd(version, a + 1);
      assert VersionPrefix(version, a, b, DigitsEnd(version, b + 1));
    }
    if exists a: nat, b: nat, c: nat :: VersionPrefix(version, a, b, c) {
      var a: nat, b: nat, c: nat :| VersionPrefix(version, a, b, c);
      DigitsEndAt(version, 0, a);
      DigitsEndAt(version, a + 1, b);
      DigitsEndAt(version, b + 1, c);
    }
  }

  /** What the command line asks for. */
  datatype Invocation = Invocation(version: string, dryRun: bool)

  datatype ArgError = VersionMissing | InvalidFormat(version: string)

  /** `args[0]` is the version and must be given and valid; the dry-run
      flag may stand anywhere among the arguments. */
  function ParseArgs(args: seq<string>): Result<Invocation, ArgError> {
    if |args| == 0 || args[0] == "" then Err(VersionMissing)
    else if !ValidateVersion(args[0]) then Err(InvalidFormat(args[0]))
    else Ok(Invocation(args[0], "--dry-run" in args))
  }

  /** An accepted command line names a valid version as its first argument
      and asks for a dry run exactly when `--dry-run` appears; a missing or
      empty first argument, or an invalid one, is refused. A lone
      `--dry-run` is taken as the version and refused as invalid. */
  lemma ParseArgsSpec(args: seq<string>)
    ensures ParseArgs(args).Ok? <==> |args| > 0 && ValidateVersion(args[0])
    ensures ParseArgs(args).Ok? ==>
      ParseArgs(args).value.version == args[0] && (ParseArgs(args).value.dryRun <==> "--dry-run" in args)
    ensures ParseArgs(["--dry-run"]) == Err(InvalidFormat("--dry-run"))
  {
    assert DigitsEnd("--dry-run", 0) == 0;
  }

  // ---------------------------------------------------------------------
  // Finding the examples
  // ---------------------------------------------------------------------

  /** One entry of the examples directory listing. */
  datatype Entry = Entry(name: string, isDirectory: bool)

  /** An entry the updater takes: a directory holding a package.json,
      `present` being `fs.existsSync` on the store at hand. */
  function Keep(present: Path -> bool, dir: Path): Entry -> bool {
    (e: Entry) => e.isDirectory && present(dir + [e.name, "package.json"])
  }

  /** `fs.existsSync` on the store `st`. */
  function ExistsIn(st: Store): Path -> bool {
    p => st.Exists(p)
  }

  /** The children of `dir` named by the entries `keep` accepts, in
      listing order. */
  function Examples(dir: Path, entries: seq<Entry>, keep: Entry -> bool): seq<Path> {
    if entries == [] then []
    else
      var last := entries[|entries| - 1];
      Examples(dir, entries[..|entries| - 1], keep) + (if keep(last) then [dir + [last.name]] else [])
  }

  /** The result holds exactly the children named by accepted entries, and
      no more paths than there are entries. */
  lemma {:induction false} ExamplesSpec(dir: Path, entries: seq<Entry>, keep: Entry -> bool)
    ensures |Examples(dir, entries, keep)| <= |entries|
    ensures forall p :: p in Examples(dir, entries, keep) <==>
      exists i :: 0 <= i < |entries| && keep(entries[i]) && p == dir + [entries[i].name]
  {
    if entries != [] {
      var init := entries[..|entries| - 1];
      ExamplesSpec(dir, init, keep);
      forall p ensures p in Examples(dir, entries, keep) <==>
        exists i :: 0 <= i < |entries| && keep(entries[i]) && p == dir + [entries[i].name]
      {
        if p in Examples(dir, init, keep) {
          var i :| 0 <= i < |init| && keep(init[i]) && p == dir + [init[i].name];
          assert entries[i] == init[i];
        }
        if exists i :: 0 <= i < |entries| && keep(entries[i]) && p == dir + [entries[i].name] {
          var i :| 0 <= i < |entries| && keep(entries[i]) && p == dir + [entries[i].name];
          if i < |init| {
            assert entries[i] == init[i];
          }
        }
      }
    }
  }

  /** Every example found is a child of the examples directory that holds
      a package.json. */
  lemma ExamplesHoldManifests(present: Path -> bool, dir: Path, entries: seq<Entry>)
    ensures forall p :: p in Examples(dir, entries, Keep(present, dir)) ==>
      |p| == |dir| + 1 && p[..|dir|] == dir && present(p + ["package.json"])
  {
    var keep := Keep(present, dir);
    forall p | p in Examples(dir, entries, keep)
      ensures |p| == |dir| + 1 && p[..|dir|] == dir && present(p + ["package.json"])
    {
      ExamplesSpec(dir, entries, keep);
      var i :| 0 <= i < |entries| && keep(entries[i]) && p == dir + [entries[i].name];
      ChildManifest(dir, entries[i].name);
    }
  }

  /** Every listed directory holding a package.json is found. */
  lemma ManifestsAreFound(present: Path -> bool, dir: Path, entries: seq<Entry>)
    ensures forall i :: 0 <= i < |entries| && entries[i].isDirectory && present(dir + [entries[i].name, "package.json"]) ==>
      dir + [entries[i].name] in Examples(dir, entries, Keep(present, dir))
  {
    ExamplesSpec(dir, entries, Keep(present, dir));
  }

  lemma ChildManifest(dir: Path, name: string)
    ensures var p := dir + [name];
      |p| == |dir| + 1 && p[..|dir|] == dir && p + ["package.json"] == dir + [name, "package.json"]
  {
  }

  /** `findExamples()`: nothing when the examples directory is missing,
      otherwise a scan of its listing that keeps each directory holding a
      package.json. */
  method FindExamples(fs: FileStore, dir: Path, entries: seq<Entry>) returns (examples: seq<Path>)
    ensures examples == if fs.Exists(dir) then Examples(dir, entries, Keep(ExistsIn(fs.State()), dir)) else []
  {
    if !fs.Exists(dir) {
      return [];
    }
    examples := [];
    var i := 0;
    while i < |entries|
      invariant 0 <= i <= |entries|
      invariant examples == Examples(dir, entries[..i], Keep(ExistsIn(fs.State()), dir))
    {
      var e := entries[i];
      assert entries[..i + 1][..i] == entries[..i];
      if e.isDirectory && fs.Exists(dir + [e.name, "package.json"]) {
        examples := examples + [dir + [e.name]];
      }
      i := i + 1;
    }
    assert entries[..i] == entries;
  }

  // ---------------------------------------------------------------------
  // Updating one package.json
  // ---------------------------------------------------------------------

  /** The dependency the updater moves. */
  const Package: string := "@zama.ai/fhevm"

  /** A dependency section: package name to version range. */
  type Section = map<string, string>

  /** The part of a package.json the updater reads and changes. */
  datatype Manifest = Manifest(dependencies: Option<Section>, devDependencies: Option<Section>)

  /** `section?.['@zama.ai/fhevm']` is truthy: the section exists and names
      the package with a non-empty range. */
  predicate Names(section: Option<Section>) {
    section.Some? && Package in section.value && section.value[Package] != ""
  }

  /** The range the package is moved to. */
  function Caret(version: string): string {
    "^" + version
  }

  /** A section after the update: moved to `^version` if it named the
      package, as it was otherwise. */
  function Bump(section: Option<Section>, version: string): Option<Section> {
    if Names(section) then Some(section.value[Package := Caret(version)]) else section
  }

  datatype Message = NotFound | WouldUpdate | UpdatedSuccessfully | ReadError(message: string)

  /** What `updatePackageJson` reports for one example. */
  datatype UpdateResult = UpdateResult(name: string, success: bool, message: Message,
                                       oldVersion: Option<string>, newVersion: Option<string>)

  /** `updatePackageJson(path, version)` on a package.json that reads as
      `content` (or fails to read with a message): the report, and what the
      file then holds. */
  function Update(name: string, content: Result<Manifest, string>, version: string, dryRun: bool): (Result<Manifest, string>, UpdateResult) {
    match content
    case Err(e) => (content, UpdateResult(name, false, ReadError(e), None, None))
    case Ok(m) =>
      if !Names(m.dependencies) && !Names(m.devDependencies) then
        (content, UpdateResult(name, false, NotFound, None, None))
      else
        var found := if Names(m.dependencies) then m.dependencies.value[Package] else m.devDependencies.value[Package];
        if dryRun then (content, UpdateResult(name, true, WouldUpdate, Some(found), Some(Caret(version))))
        else (Ok(Manifest(Bump(m.dependencies, version), Bump(m.devDependencies, version))),
              UpdateResult(name, true, UpdatedSuccessfully, Some(found), Some(Caret(version))))
  }

  /** A package.json on disk, as the updater sees it. */
  class PackageFile {
    var content: Result<Manifest, string>

    constructor(content: Result<Manifest, string>)
      ensures this.content == content
    {
      this.content := content;
    }
  }

  /** `updatePackageJson`: read, check, then assign into each section that
      names the package and write the document back. */
  method UpdatePackageJson(file: PackageFile, name: string, version: string, dryRun: bool) returns (r: UpdateResult)
    modifies file
    ensures (file.content, r) == Update(name, old(file.content), version, dryRun)
  {
    if file.content.Err? {
      return UpdateResult(name, false, ReadError(file.content.error), None, None);
    }
    var m := file.content.value;
    if !Names(m.dependencies) && !Names(m.devDependencies) {
      return UpdateResult(name, false, NotFound, None, None);
    }
    var oldVersion := if Names(m.dependencies) then m.dependencies.value[Package] else m.devDependencies.value[Package];
    if dryRun {
      return UpdateResult(name, true, WouldUpdate, Some(oldVersion), Some(Caret(version)));
    }
    if Names(m.dependencies) {
      m := m.(dependencies := Some(m.dependencies.value[Package := Caret(version)]));
    }
    if Names(m.devDependencies) {
      m := m.(devDependencies := Some(m.devDependencies.value[Package := Caret(version)]));
    }
    file.content := Ok(m);
    return UpdateResult(name, true, UpdatedSuccessfully, Some(oldVersion), Some(Caret(version)));
  }

  /** A call succeeds exactly when the file reads and one of its sections
      names the package; a failed call and a dry run leave the file as it
      was. A success reports the range found in `dependencies` in
      preference to `devDependencies`, and the new range `^version`. */
  lemma UpdateOutcome(name: string, content: Result<Manifest, string>, version: string, dryRun: bool)
    ensures var (after, r) := Update(name, content, version, dryRun);
      && r.name == name
      && (r.success <==> content.Ok? && (Names(content.value.dependencies) || Names(content.value.devDependencies)))
      && (!r.success || dryRun ==> after == content)
      && (content.Err? ==> r.message == ReadError(content.error))
      && (content.Ok? && !r.success ==> r.message == NotFound)
      && (r.success ==>
            && r.newVersion == Some(Caret(version)) && r.oldVersion.Some?
            && (Names(content.value.dependencies) ==> r.oldVersion.value == content.value.dependencies.value[Package])
            && (!Names(content.value.dependencies) ==> r.oldVersion.value == content.value.devDependencies.value[Package]))
  {
  }

  /** After a real update, a section that named the package names it with
      `^version` and keeps every other entry; a section that did not name
      it is untouched, so the package is never added where it was absent. */
  lemma UpdateMovesOnlyThePackage(name: string, m: Manifest, version: string)
    requires Names(m.dependencies) || Names(m.devDependencies)
    ensures var after := Update(name, Ok(m), version, false).0;
      && after.Ok?
      && SectionMoved(m.dependencies, after.value.dependencies, version)
      && SectionMoved(m.devDependencies, after.value.devDependencies, version)
  {
  }

  /** How one section changes. */
  predicate SectionMoved(before: Option<Section>, after: Option<Section>, version: string) {
    if Names(before) then
      after.Some? && after.value.Keys == before.value.Keys && after.value[Package] == Caret(version) &&
      forall k :: k in before.value && k != Package ==> after.value[k] == before.value[k]
    else after == before
  }

  /** Running the update a second time with the same version changes
      nothing more and still succeeds. */
  lemma {:induction false} UpdateIdempotent(name: string, content: Result<Manifest, string>, version: string)
    ensures var once := Update(name, content, version, false).0;
      Update(name, once, version, false).0 == once
    ensures Update(name, content, version, false).1.success ==>
      Update(name, Update(name, content, version, false).0, version, false).1.success
  {
    if content.Ok? {
      var m := content.value;
      BumpTwice(m.dependencies, version);
      BumpTwice(m.devDependencies, version);
      assert Names(Bump(m.dependencies, version)) == Names(m.dependencies);
      assert Names(Bump(m.devDependencies, version)) == Names(m.devDependencies);
    }
  }

  lemma BumpTwice(section: Option<Section>, version: string)
    ensures Names(Bump(section, version)) == Names(section)
    ensures Bump(Bump(section, version), version) == Bump(section, version)
  {
    if Names(section) {
      var m := section.value[Package := Caret(version)];
      assert m[Package] == Caret(version) != "";
      assert m[Package := Caret(version)] == m;
    }
  }

  // ---------------------------------------------------------------------
  // The run
  // ---------------------------------------------------------------------

  /** The loop of `main` over the examples found, each with its own
      package.json and its directory name. */
  method UpdateAll(files: seq<PackageFile>, names: seq<string>, version: string, dryRun: bool)
    returns (results: seq<UpdateResult>)
    requires |files| == |names|
    requires forall i, j :: 0 <= i < j < |files| ==> files[i] != files[j]
    modifies set f | f in files
    ensures |results| == |files|
    ensures forall i :: 0 <= i < |files| ==>
      (files[i].content, results[i]) == Update(names[i], old(files[i].content), version, dryRun)
  {
    results := [];
    var i := 0;
    while i < |files|
      invariant 0 <= i <= |files| && |results| == i
      invariant forall j :: 0 <= j < i ==>
        (files[j].content, results[j]) == Update(names[j], old(files[j].content), version, dryRun)
      invariant forall j :: i <= j < |files| ==> files[j].content == old(files[j].content)
    {
      var r := UpdatePackageJson(files[i], names[i], version, dryRun);
      results := results + [r];
      i := i + 1;
    }
  }

  /** The summary counts. */
  function Successful(results: seq<UpdateResult>): nat {
    |Filter(results, (r: UpdateResult) => r.success)|
  }

  function Failed(results: seq<UpdateResult>): nat {
    |Filter(results, (r: UpdateResult) => !r.success)|
  }

  /** Every processed example is counted once, as a success or a
      failure. */
  lemma {:induction false} TallyPartition(results: seq<UpdateResult>)
    ensures Successful(results) + Failed(results) == |results|
    decreases |results|
  {
    if results != [] {
      TallyPartition(results[1..]);
    }
  }

  /** How `main` ends. */
  datatype RunResult =
    | Stopped(code: nat, error: Option<ArgError>)
    | Finished(results: seq<UpdateResult>, successful: nat, failed: nat)

  /** `main`: the argument checks exit with code 1 before anything is read;
      no example ends the run with code 0; otherwise every example is
      updated in turn and the results are tallied. */
  method RunBatch(args: seq<string>, files: seq<PackageFile>, names: seq<string>) returns (run: RunResult)
    requires |files| == |names|
    requires forall i, j :: 0 <= i < j < |files| ==> files[i] != files[j]
    modifies set f | f in files
    ensures ParseArgs(args).Err? ==> run == Stopped(1, Some(ParseArgs(args).error)) && forall f :: f in files ==> f.content == old(f.content)
    ensures ParseArgs(args).Ok? && files == [] ==> run == Stopped(0, None)
    ensures ParseArgs(args).Ok? && files != [] ==>
      run.Finished? && |run.results| == |files| && run.successful + run.failed == |files| &&
      forall i :: 0 <= i < |files| ==>
        (files[i].content, run.results[i]) ==
          Update(names[i], old(files[i].content), ParseArgs(args).value.version, ParseArgs(args).value.dryRun)
  {
    var parsed := ParseArgs(args);
    if parsed.Err? {
      return Stopped(1, Some(parsed.error));
    }
    if files == [] {
      return Stopped(0, None);
    }
    var results := UpdateAll(files, names, parsed.value.version, parsed.value.dryRun);
    TallyPartition(results);
    return Finished(results, Successful(results), Failed(results));
  }

  /** In a dry run no package.json changes, whatever the examples hold. */
  lemma DryRunWritesNothing(names: seq<string>, before: seq<Result<Manifest, string>>, version: string)
    requires |names| == |before|
    ensures forall i :: 0 <= i < |before| ==> Update(names[i], before[i], version, true).0 == before[i]
  {
  }
}
