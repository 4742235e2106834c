/** `createExample` of the published CLI (create-fhevm-playground-pro/src/
    scaffolder.ts): copy the bundled base template into a new project
    directory, overlay the contracts and tests of the matching premium
    example when one can be found, rewrite the imports of the copied tests,
    and adjust the configuration, manifest and README.

    `Scaffold` states the whole effect as a function of the file system
    before the call; `CreateExample` performs it step by step on a
    `FileStore` and is proved to reach the same state. */
module ProScaffolder {
  import opened Basics
  import opened Files
  import CliCategories
  import ImportRewrite

  /** What the process sees: its working directory, the directory of the
      compiled module (`__dirname`) and `HOME || USERPROFILE` when that is
      non-empty. */
  datatype Env = Env(cwd: Path, moduleDir: Path, home: Option<Path>)

  datatype Options = Options(name: string, category: string, isPro: bool)

  datatype ScaffoldError =
    | TargetExists(name: string)
    | BaseTemplateMissing
    | NotAFile(path: Path)
    | ManifestNotObject

  function ProjectDir(env: Env, name: string): Path {
    env.cwd + [name]
  }

  /** `path.resolve(__dirname, '..', 'base-template')`. */
  function BaseTemplate(env: Env): Path {
    Parent(env.moduleDir) + ["base-template"]
  }

  // ---------------------------------------------------------------------
  // Where the premium example is looked for
  // ---------------------------------------------------------------------

  /** `central-repo/examples/<dir>-premium`, the end of every candidate. */
  function ExampleTail(dirName: string): Path {
    ["central-repo", "examples", dirName + "-premium"]
  }

  /** The `i`-th ancestor of `p`. */
  function Up(p: Path, i: nat): Path {
    if i == 0 then p else Parent(Up(p, i - 1))
  }

  /** The candidates below five successive ancestors of `start`. */
  function Climb(start: Path, dirName: string): (r: seq<Path>)
    ensures |r| == 5
  {
    seq(5, i requires 0 <= i < 5 => Up(start, i) + ExampleTail(dirName))
  }

  /** The three development checkouts under the home directory. */
  function HomeCandidates(home: Option<Path>, dirName: string): seq<Path> {
    match home
    case None => []
    case Some(h) => [
      h + ["Documents", "GitHub", "fhEVM Playground"] + ExampleTail(dirName),
      h + ["projects", "fhEVM Playground"] + ExampleTail(dirName),
      h + ["work", "fhEVM Playground"] + ExampleTail(dirName)
    ]
  }

  /** The search order: the module's ancestors, the working directory's
      ancestors, then the home checkouts. */
  function SearchPaths(env: Env, dirName: string): seq<Path> {
    Climb(env.moduleDir, dirName) + Climb(env.cwd, dirName) + HomeCandidates(env.home, dirName)
  }

  /** The two loops that push a candidate and step to the parent. */
  method BuildSearchPaths(env: Env, dirName: string) returns (paths: seq<Path>)
    ensures paths == SearchPaths(env, dirName)
  {
    paths := [];
    var dir := env.moduleDir;
    for i := 0 to 5
      invariant paths == Climb(env.moduleDir, dirName)[..i]
      invariant dir == Up(env.moduleDir, i)
    {
      paths := paths + [dir + ExampleTail(dirName)];
      dir := Parent(dir);
    }
    dir := env.cwd;
    for i := 0 to 5
      invariant paths == Climb(env.moduleDir, dirName) + Climb(env.cwd, dirName)[..i]
      invariant dir == Up(env.cwd, i)
    {
      paths := paths + [dir + ExampleTail(dirName)];
      dir := Parent(dir);
    }
    if env.home.Some? {
      var h := env.home.value;
      paths := paths + [h + ["Documents", "GitHub", "fhEVM Playground"] + ExampleTail(dirName)];
      paths := paths + [h + ["projects", "fhEVM Playground"] + ExampleTail(dirName)];
      paths := paths + [h + ["work", "fhEVM Playground"] + ExampleTail(dirName)];
    }
  }

  /** Ten candidates, or thirteen with a home directory; the first five climb
      from the module, the next five from the working directory, and every
      one ends in `central-repo/examples/<dir>-premium`. */
  lemma SearchPathsShape(env: Env, dirName: string)
    ensures |SearchPaths(env, dirName)| == if env.home.Some? then 13 else 10
    ensures forall i :: 0 <= i < 5 ==> SearchPaths(env, dirName)[i] == Up(env.moduleDir, i) + ExampleTail(dirName)
    ensures forall i :: 5 <= i < 10 ==> SearchPaths(env, dirName)[i] == Up(env.cwd, i - 5) + ExampleTail(dirName)
    ensures forall i :: 0 <= i < |SearchPaths(env, dirName)| ==>
      var p := SearchPaths(env, dirName)[i]; |p| >= 3 && p[|p| - 3..] == ExampleTail(dirName)
  {
    var paths := SearchPaths(env, dirName);
    forall i | 0 <= i < |paths|
      ensures |paths[i]| >= 3 && paths[i][|paths[i]| - 3..] == ExampleTail(dirName)
    {
      var t := ExampleTail(dirName);
      if i < 10 {
        var pre := if i < 5 then Up(env.moduleDir, i) else Up(env.cwd, i - 5);
        assert paths[i] == pre + t;
      } else {
        var h := env.home.value;
        var pre := if i == 10 then h + ["Documents", "GitHub", "fhEVM Playground"]
                   else if i == 11 then h + ["projects", "fhEVM Playground"]
                   else h + ["work", "fhEVM Playground"];
        assert paths[i] == pre + t;
      }
    }
  }

  /** The first candidate that exists, in list order. */
  function FirstExistingIn(st: Store, paths: seq<Path>): Option<Path> {
    FindFirst(paths, Present(st))
  }

  /** `fs.existsSync` on a fixed state, as a predicate to search with. */
  function Present(st: Store): Path -> bool {
    (p: Path) => st.Exists(p)
  }

  /** The `for...of` scan that stops at the first existing candidate. */
  method FirstExisting(fs: FileStore, paths: seq<Path>) returns (found: Option<Path>)
    ensures found == FirstExistingIn(fs.State(), paths)
  {
    found := None;
    for i := 0 to |paths|
      invariant forall j :: 0 <= j < i ==> !fs.Exists(paths[j])
    {
      if fs.Exists(paths[i]) {
        FindFirstAt(paths, Present(fs.State()), i);
        found := Some(paths[i]);
        break;
      }
    }
    if found.None? {
      assert forall j :: 0 <= j < |paths| ==> !fs.State().Exists(paths[j]);
    }
  }

  /** The chosen example directory exists and every candidate before it is
      missing; with no choice, no candidate exists. */
  lemma FirstExistingIsFirst(st: Store, paths: seq<Path>)
    ensures FirstExistingIn(st, paths).None? <==> forall i :: 0 <= i < |paths| ==> !st.Exists(paths[i])
    ensures FirstExistingIn(st, paths).Some? ==>
      exists k :: 0 <= k < |paths| && paths[k] == FirstExistingIn(st, paths).value && st.Exists(paths[k])
        && forall j :: 0 <= j < k ==> !st.Exists(paths[j])
  {
    var r := FirstExistingIn(st, paths);
    if r.Some? {
      var k :| 0 <= k < |paths| && paths[k] == r.value && st.Exists(paths[k])
        && forall j :: 0 <= j < k ==> !st.Exists(paths[j]);
    }
  }

  // ---------------------------------------------------------------------
  // Rewriting the copied tests
  // ---------------------------------------------------------------------

  /** A file directly in `dir` whose name ends in `.ts` or `.js`. */
  predicate IsTestSource(dir: Path, k: Path) {
    && |k| == |dir| + 1 && IsPrefix(dir, k)
    && (EndsWith(k[|dir|], ".ts") || EndsWith(k[|dir|], ".js"))
  }

  /** The two rewrites in the order the scaffolder applies them. */
  function RewriteTestText(text: string): (r: string)
    ensures |r| <= |text|
  {
    ImportRewrite.RewriteHelperImportSpec(text);
    ImportRewrite.StripHardhatImports(ImportRewrite.RewriteHelperImport(text))
  }

  /** Every test source in `dir` rewritten; every other file kept. */
  function RewriteTests(st: Store, dir: Path): (r: Store)
    ensures r.dirs == st.dirs && r.files.Keys == st.files.Keys
  {
    Store(map k | k in st.files ::
            if IsTestSource(dir, k) && st.files[k].Text? then Text(RewriteTestText(st.files[k].text)) else st.files[k],
          st.dirs)
  }

  /** Only the test sources of `dir` change, and each becomes its rewrite. */
  lemma RewriteTestsTouchesOnlySources(st: Store, dir: Path, k: Path)
    requires k in st.files
    ensures IsTestSource(dir, k) && st.files[k].Text? ==>
      RewriteTests(st, dir).files[k] == Text(RewriteTestText(st.files[k].text))
    ensures !IsTestSource(dir, k) ==> RewriteTests(st, dir).files[k] == st.files[k]
  {
  }

  /** The loop over the listing of `dir`, reading and writing back each test
      source. */
  method RewriteTestFiles(fs: FileStore, dir: Path)
    modifies fs
    ensures fs.State() == RewriteTests(old(fs.State()), dir)
  {
    ghost var files0 := fs.files;
    var sources := set k | k in fs.files && IsTestSource(dir, k) && fs.files[k].Text?;
    var todo := sources;
    while todo != {}
      invariant todo <= sources
      invariant fs.dirs == old(fs.dirs) && fs.files.Keys == files0.Keys
      invariant forall k :: k in files0 ==>
        fs.files[k] == if k in sources - todo then Text(RewriteTestText(files0[k].text)) else files0[k]
      decreases todo
    {
      var k :| k in todo;
      var text := fs.files[k].text;
      fs.WriteFile(k, Text(RewriteTestText(text)));
      todo := todo - {k};
    }
    assert fs.files == RewriteTests(Store(files0, old(fs.dirs)), dir).files;
  }

  /** The stub `scripts/test-helpers.ts` the scaffolder writes when missing. */
  const HelperStub: string :=
    "export async function initGateway() {\n"
    + "  // stubbed gateway init for scaffolded projects\n"
    + "  return Promise.resolve({ gateway: 'stub' });\n"
    + "}\n\n"
    + "export function getSignatureAndEncryption() {\n"
    + "  return { signature: 'stub-signature', encryption: 'stub-encryption' };\n"
    + "}\n\n"
    + "export function isMockedMode() {\n"
    + "  return true;\n"
    + "}\n"

  /** Create `scripts/` if missing, then the stub if missing. */
  function AddHelperStub(st: Store, projectDir: Path): Store {
    var scripts := projectDir + ["scripts"];
    var s1 := if st.Exists(scripts) then st else st.MakeDir(scripts);
    var stub := scripts + ["test-helpers.ts"];
    if s1.Exists(stub) then s1 else s1.Write(stub, Text(HelperStub))
  }

  /** Overlay the example's `contracts/` when it has one. */
  function WithContracts(st: Store, example: Path, projectDir: Path): Store {
    if st.Exists(example + ["contracts"]) then st.Copy(example + ["contracts"], projectDir + ["contracts"]) else st
  }

  /** Overlay the example's `test/` when it has one, rewrite the copied
      tests and make sure the helper stub is there. */
  function WithTests(st: Store, example: Path, projectDir: Path): Store {
    if st.Exists(example + ["test"]) then
      AddHelperStub(RewriteTests(st.Copy(example + ["test"], projectDir + ["test"]), projectDir + ["test"]), projectDir)
    else st
  }

  function Overlay(st: Store, example: Path, projectDir: Path): Store {
    WithTests(WithContracts(st, example, projectDir), example, projectDir)
  }

  // ---------------------------------------------------------------------
  // Configuration, manifest and README
  // ---------------------------------------------------------------------

  /** The config variants removed so that only `hardhat.config.js` stays. */
  const ConfigVariants: seq<string> := ["hardhat.config.ts", "hardhat.config.cjs"]

  /** `if (fs.existsSync(p)) fs.removeSync(p)` for each name, in order. */
  function RemoveEach(st: Store, dir: Path, names: seq<string>): Store
    decreases |names|
  {
    if names == [] then st
    else
      var s := RemoveEach(st, dir, names[..|names| - 1]);
      var p := dir + [names[|names| - 1]];
      if s.Exists(p) then s.Remove(p) else s
  }

  method RemoveConfigs(fs: FileStore, projectDir: Path)
    modifies fs
    ensures fs.State() == RemoveEach(old(fs.State()), projectDir, ConfigVariants)
  {
    for i := 0 to |ConfigVariants|
      invariant fs.State() == RemoveEach(old(fs.State()), projectDir, ConfigVariants[..i])
    {
      assert ConfigVariants[..i + 1][..i] == ConfigVariants[..i];
      var configPath := projectDir + [ConfigVariants[i]];
      if fs.Exists(configPath) {
        fs.Remove(configPath);
      }
    }
    assert ConfigVariants[..|ConfigVariants|] == ConfigVariants;
  }

  /** After the removals none of the named files is left in `dir`. */
  lemma {:induction false} RemoveEachRemoves(st: Store, dir: Path, names: seq<string>)
    ensures forall i :: 0 <= i < |names| ==> !RemoveEach(st, dir, names).Exists(dir + [names[i]])
    decreases |names|
  {
    if names != [] {
      var init := names[..|names| - 1];
      RemoveEachRemoves(st, dir, init);
      var s := RemoveEach(st, dir, init);
      var p := dir + [names[|names| - 1]];
      forall i | 0 <= i < |names| - 1
        ensures !RemoveEach(st, dir, names).Exists(dir + [names[i]])
      {
        assert init[i] == names[i];
        RemoveKeepsAbsent(s, p, dir + [names[i]]);
      }
    }
  }

  /** Removing never makes a missing path appear. */
  lemma RemoveKeepsAbsent(s: Store, p: Path, q: Path)
    requires !s.Exists(q)
    ensures !(if s.Exists(p) then s.Remove(p) else s).Exists(q)
  {
  }

  /** Removals change only the named paths and what lies below them. */
  lemma {:induction false} RemoveEachInside(st: Store, dir: Path, names: seq<string>)
    ensures SameOutside(st, RemoveEach(st, dir, names), dir)
    decreases |names|
  {
    if names != [] {
      var init := names[..|names| - 1];
      RemoveEachInside(st, dir, init);
      var s := RemoveEach(st, dir, init);
      var p := dir + [names[|names| - 1]];
      assert IsPrefix(dir, p);
      if s.Exists(p) {
        RemoveInside(s, p, dir);
      }
      SameOutsideTrans(st, s, RemoveEach(st, dir, names), dir);
    }
  }

  /** `${category} - fhEVM example (scaffolded)`. */
  function Description(category: string): string {
    category + " - fhEVM example (scaffolded)"
  }

  /** `pkg.name = ...; pkg.description = ...` on the parsed manifest. An
      array takes the properties but does not serialise them, so it is
      written back as it was; on a primitive or `null` the assignment
      throws. */
  function SetManifestFields(json: Json, o: Options): Result<Json, ScaffoldError> {
    match json
    case JObject(fields) =>
      Ok(JObject(fields["name" := JString(o.name)]["description" := JString(Description(o.category))]))
    case JArray(_) => Ok(json)
    case _ => Err(ManifestNotObject)
  }

  /** Update `package.json` when it exists. */
  function UpdateManifest(st: Store, projectDir: Path, o: Options): Result<Store, ScaffoldError> {
    var pkg := projectDir + ["package.json"];
    if !st.Exists(pkg) then Ok(st)
    else if pkg !in st.files || !st.files[pkg].Doc? then Err(NotAFile(pkg))
    else match SetManifestFields(st.files[pkg].json, o)
      case Err(e) => Err(e)
      case Ok(json) => Ok(st.Write(pkg, Doc(json)))
  }

  /** `# ${name}\n\nCategory: ${category}\n\n`. */
  function ReadmeHeader(o: Options): string {
    "# " + o.name + "\n\nCategory: " + o.category + "\n\n"
  }

  /** Prepend the header to `README.md` when it exists. */
  function PrependReadme(st: Store, projectDir: Path, o: Options): Result<Store, ScaffoldError> {
    var readme := projectDir + ["README.md"];
    if !st.Exists(readme) then Ok(st)
    else if readme !in st.files || !st.files[readme].Text? then Err(NotAFile(readme))
    else Ok(st.Write(readme, Text(ReadmeHeader(o) + st.files[readme].text)))
  }

  // ---------------------------------------------------------------------
  // The whole scaffold
  // ---------------------------------------------------------------------

  /** The outcome of a call and the file system it leaves. */
  datatype Outcome = Outcome(result: Result<Path, ScaffoldError>, store: Store)

  /** The store after the copies, before configuration and manifest. */
  function Populated(st: Store, env: Env, o: Options): Store {
    var projectDir := ProjectDir(env, o.name);
    var s1 := st.Copy(BaseTemplate(env), projectDir);
    var dirName := CliCategories.ResolveExampleDir(o.category);
    match FirstExistingIn(s1, SearchPaths(env, dirName))
    case None => s1
    case Some(example) => Overlay(s1, example, projectDir)
  }

  /** The steps after the config removal: manifest, then README. */
  function Finish(st: Store, projectDir: Path, o: Options): Outcome {
    match UpdateManifest(st, projectDir, o)
    case Err(e) => Outcome(Err(e), st)
    case Ok(s3) =>
      match PrependReadme(s3, projectDir, o)
      case Err(e) => Outcome(Err(e), s3)
      case Ok(s4) => Outcome(Ok(projectDir), s4)
  }

  /** `createExample(options)` as a function of the file system before it.
      On success the result is the project directory. */
  function Scaffold(st: Store, env: Env, o: Options): Outcome {
    var projectDir := ProjectDir(env, o.name);
    if st.Exists(projectDir) then Outcome(Err(TargetExists(o.name)), st)
    else if !st.Exists(BaseTemplate(env)) then Outcome(Err(BaseTemplateMissing), st)
    else Finish(RemoveEach(Populated(st, env, o), projectDir, ConfigVariants), projectDir, o)
  }

  /** The scaffolder, step by step on the file system. Git is best effort
      and its effects are not modelled. */
  method CreateExample(fs: FileStore, env: Env, o: Options) returns (r: Result<Path, ScaffoldError>)
    modifies fs
    ensures Outcome(r, fs.State()) == Scaffold(old(fs.State()), env, o)
  {
    var projectDir := ProjectDir(env, o.name);
    if fs.Exists(projectDir) {
      return Err(TargetExists(o.name));
    }
    var baseTemplate := BaseTemplate(env);
    if !fs.Exists(baseTemplate) {
      return Err(BaseTemplateMissing);
    }
    fs.CopyTree(baseTemplate, projectDir);

    var exampleDirName := CliCategories.ResolveExampleDir(o.category);
    var searchPaths := BuildSearchPaths(env, exampleDirName);
    var found := FirstExisting(fs, searchPaths);
    if found.Some? {
      var example := found.value;
      var contractsSrc := example + ["contracts"];
      if fs.Exists(contractsSrc) {
        fs.CopyTree(contractsSrc, projectDir + ["contracts"]);
      }
      var testSrc := example + ["test"];
      if fs.Exists(testSrc) {
        var testDest := projectDir + ["test"];
        fs.CopyTree(testSrc, testDest);
        RewriteTestFiles(fs, testDest);
        var scriptsDir := projectDir + ["scripts"];
        if !fs.Exists(scriptsDir) {
          fs.EnsureDir(scriptsDir);
        }
        var stub := scriptsDir + ["test-helpers.ts"];
        if !fs.Exists(stub) {
          fs.WriteFile(stub, Text(HelperStub));
        }
      }
    }
    assert fs.State() == Populated(old(fs.State()), env, o);

    RemoveConfigs(fs, projectDir);

    var pkg := projectDir + ["package.json"];
    if fs.Exists(pkg) {
      if pkg !in fs.files || !fs.files[pkg].Doc? {
        return Err(NotAFile(pkg));
      }
      var updated := SetManifestFields(fs.files[pkg].json, o);
      if updated.Err? {
        return Err(updated.error);
      }
      fs.WriteFile(pkg, Doc(updated.value));
    }

    var readme := projectDir + ["README.md"];
    if fs.Exists(readme) {
      if readme !in fs.files || !fs.files[readme].Text? {
        return Err(NotAFile(readme));
      }
      fs.WriteFile(readme, Text(ReadmeHeader(o) + fs.files[readme].text));
    }
    return Ok(projectDir);
  }

  // ---------------------------------------------------------------------
  // What a scaffold does and does not do
  // ---------------------------------------------------------------------

  /** An existing target is rejected and nothing is touched. */
  lemma ExistingTargetUntouched(st: Store, env: Env, o: Options)
    requires st.Exists(ProjectDir(env, o.name))
    ensures Scaffold(st, env, o) == Outcome(Err(TargetExists(o.name)), st)
  {
  }

  /** The late steps fail only on a malformed manifest or README, and
      succeed with the project directory. */
  lemma FinishResults(st: Store, projectDir: Path, o: Options)
    ensures var r := Finish(st, projectDir, o).result;
      (r.Ok? ==> r.value == projectDir) && (r.Err? ==> r.error.NotAFile? || r.error.ManifestNotObject?)
  {
    match UpdateManifest(st, projectDir, o)
    case Err(e) =>
      if st.Exists(projectDir + ["package.json"]) && projectDir + ["package.json"] in st.files && st.files[projectDir + ["package.json"]].Doc? {
        assert e == ManifestNotObject;
      }
    case Ok(s3) =>
  }

  /** The two rejections happen before the first copy: they leave the file
      system as it was, and they happen exactly when their condition
      holds. */
  lemma RejectionsBeforeMutation(st: Store, env: Env, o: Options)
    ensures var out := Scaffold(st, env, o);
      out.result in {Err(TargetExists(o.name)), Err(BaseTemplateMissing)} ==> out.store == st
    ensures Scaffold(st, env, o).result == Err(TargetExists(o.name)) <==> st.Exists(ProjectDir(env, o.name))
    ensures Scaffold(st, env, o).result == Err(BaseTemplateMissing) <==>
      !st.Exists(ProjectDir(env, o.name)) && !st.Exists(BaseTemplate(env))
  {
    var projectDir := ProjectDir(env, o.name);
    FinishResults(RemoveEach(Populated(st, env, o), projectDir, ConfigVariants), projectDir, o);
  }

  /** A write to another path keeps a missing path missing. */
  lemma WriteKeepsAbsent(s: Store, p: Path, c: Content, q: Path)
    requires !s.Exists(q) && !IsPrefix(q, p)
    ensures !s.Write(p, c).Exists(q)
  {
  }

  lemma PrefixOfChild(dir: Path, a: string, b: string)
    requires a != b
    ensures !IsPrefix(dir + [a], dir + [b])
  {
    assert (dir + [a])[|dir|] == a && (dir + [b])[|dir|] == b;
  }

  lemma ChildInside(dir: Path, a: string)
    ensures IsPrefix(dir, dir + [a])
  {
  }

  lemma GrandchildInside(dir: Path, a: string, b: string)
    ensures IsPrefix(dir, dir + [a] + [b])
  {
    assert (dir + [a] + [b])[..|dir|] == dir;
  }

  /** The stub step writes only under the project directory. */
  lemma AddHelperStubInside(st: Store, projectDir: Path)
    ensures SameOutside(st, AddHelperStub(st, projectDir), projectDir)
  {
    var scripts := projectDir + ["scripts"];
    var s1 := if st.Exists(scripts) then st else st.MakeDir(scripts);
    GrandchildInside(projectDir, "scripts", "test-helpers.ts");
    WriteInside(s1, scripts + ["test-helpers.ts"], Text(HelperStub), projectDir);
  }

  /** The test rewrite changes only files under the project directory. */
  lemma RewriteTestsInside(st: Store, projectDir: Path)
    ensures SameOutside(st, RewriteTests(st, projectDir + ["test"]), projectDir)
  {
    var dir := projectDir + ["test"];
    forall k | !IsPrefix(projectDir, k)
      ensures !IsTestSource(dir, k)
    {
      ChildInside(projectDir, "test");
      PrefixTrans(projectDir, dir, k);
    }
  }

  lemma OverlayInside(st: Store, example: Path, projectDir: Path)
    ensures SameOutside(st, Overlay(st, example, projectDir), projectDir)
  {
    var s1 := WithContracts(st, example, projectDir);
    ChildInside(projectDir, "contracts");
    ChildInside(projectDir, "test");
    if st.Exists(example + ["contracts"]) {
      CopyInside(st, example + ["contracts"], projectDir + ["contracts"], projectDir);
    }
    if s1.Exists(example + ["test"]) {
      var s2 := s1.Copy(example + ["test"], projectDir + ["test"]);
      var s3 := RewriteTests(s2, projectDir + ["test"]);
      CopyInside(s1, example + ["test"], projectDir + ["test"], projectDir);
      RewriteTestsInside(s2, projectDir);
      AddHelperStubInside(s3, projectDir);
      SameOutsideTrans(s1, s2, s3, projectDir);
      SameOutsideTrans(s1, s3, AddHelperStub(s3, projectDir), projectDir);
    }
    SameOutsideTrans(st, s1, Overlay(st, example, projectDir), projectDir);
  }

  lemma PopulatedInside(st: Store, env: Env, o: Options)
    ensures SameOutside(st, Populated(st, env, o), ProjectDir(env, o.name))
  {
    var projectDir := ProjectDir(env, o.name);
    var s1 := st.Copy(BaseTemplate(env), projectDir);
    assert IsPrefix(projectDir, projectDir);
    CopyInside(st, BaseTemplate(env), projectDir, projectDir);
    var dirName := CliCategories.ResolveExampleDir(o.category);
    match FirstExistingIn(s1, SearchPaths(env, dirName))
    case None =>
    case Some(example) =>
      OverlayInside(s1, example, projectDir);
      SameOutsideTrans(st, s1, Populated(st, env, o), projectDir);
  }

  lemma FinishInside(st: Store, projectDir: Path, o: Options)
    ensures SameOutside(st, Finish(st, projectDir, o).store, projectDir)
  {
    var pkg, readme := projectDir + ["package.json"], projectDir + ["README.md"];
    ChildInside(projectDir, "package.json");
    ChildInside(projectDir, "README.md");
    match UpdateManifest(st, projectDir, o)
    case Err(_) =>
    case Ok(s3) =>
      if s3 != st {
        WriteInside(st, pkg, s3.files[pkg], projectDir);
      }
      match PrependReadme(s3, projectDir, o)
      case Err(_) =>
      case Ok(s4) =>
        if s4 != s3 {
          WriteInside(s3, readme, s4.files[readme], projectDir);
        }
        SameOutsideTrans(st, s3, s4, projectDir);
  }

  /** The late steps write only the manifest and the README, so any other
      path that is missing stays missing. */
  lemma FinishKeepsAbsent(st: Store, projectDir: Path, o: Options, q: Path)
    requires !st.Exists(q)
    requires !IsPrefix(q, projectDir + ["package.json"]) && !IsPrefix(q, projectDir + ["README.md"])
    ensures !Finish(st, projectDir, o).store.Exists(q)
  {
    var pkg, readme := projectDir + ["package.json"], projectDir + ["README.md"];
    match UpdateManifest(st, projectDir, o)
    case Err(_) =>
    case Ok(s3) =>
      if s3 != st {
        WriteKeepsAbsent(st, pkg, s3.files[pkg], q);
      }
      match PrependReadme(s3, projectDir, o)
      case Err(_) =>
      case Ok(s4) =>
        if s4 != s3 {
          WriteKeepsAbsent(s3, readme, s4.files[readme], q);
        }
  }

  /** After the late steps succeed, a manifest object carries the project
      name and the scaffolded description, and the README, when there is
      one, starts with the header. */
  lemma FinishWritesHeaders(st: Store, projectDir: Path, o: Options)
    requires Finish(st, projectDir, o).result.Ok?
    ensures var files := Finish(st, projectDir, o).store.files;
      var pkg := projectDir + ["package.json"];
      pkg in files && files[pkg].Doc? && files[pkg].json.JObject? ==>
        && "name" in files[pkg].json.fields && files[pkg].json.fields["name"] == JString(o.name)
        && "description" in files[pkg].json.fields
        && files[pkg].json.fields["description"] == JString(Description(o.category))
    ensures var files := Finish(st, projectDir, o).store.files;
      var readme := projectDir + ["README.md"];
      readme in files ==> files[readme].Text? && StartsWith(files[readme].text, ReadmeHeader(o))
  {
    var pkg, readme := projectDir + ["package.json"], projectDir + ["README.md"];
    PrefixOfChild(projectDir, "package.json", "README.md");
    assert IsPrefix(pkg, pkg) && IsPrefix(readme, readme);
    var s3 := UpdateManifest(st, projectDir, o).value;
    if readme in s3.files {
      var t := s3.files[readme].text;
      assert (ReadmeHeader(o) + t)[..|ReadmeHeader(o)|] == ReadmeHeader(o);
    }
  }

  /** Whatever the outcome, no file outside the new project directory is
      created, changed or removed. */
  lemma ScaffoldStaysInside(st: Store, env: Env, o: Options)
    ensures SameOutside(st, Scaffold(st, env, o).store, ProjectDir(env, o.name))
  {
    var projectDir := ProjectDir(env, o.name);
    if !st.Exists(projectDir) && st.Exists(BaseTemplate(env)) {
      var s1 := Populated(st, env, o);
      var s2 := RemoveEach(s1, projectDir, ConfigVariants);
      PopulatedInside(st, env, o);
      RemoveEachInside(s1, projectDir, ConfigVariants);
      SameOutsideTrans(st, s1, s2, projectDir);
      FinishInside(s2, projectDir, o);
      SameOutsideTrans(st, s2, Finish(s2, projectDir, o).store, projectDir);
    }
  }

  /** A successful scaffold leaves neither `hardhat.config.ts` nor
      `hardhat.config.cjs` in the project. */
  lemma ScaffoldRemovesConfigVariants(st: Store, env: Env, o: Options)
    requires Scaffold(st, env, o).result.Ok?
    ensures !Scaffold(st, env, o).store.Exists(ProjectDir(env, o.name) + ["hardhat.config.ts"])
    ensures !Scaffold(st, env, o).store.Exists(ProjectDir(env, o.name) + ["hardhat.config.cjs"])
  {
    var projectDir := ProjectDir(env, o.name);
    var s1 := Populated(st, env, o);
    assert Scaffold(st, env, o) == Finish(RemoveEach(s1, projectDir, ConfigVariants), projectDir, o);
    FinishRemovesConfigVariants(s1, projectDir, o);
  }

  /** The config removal followed by the late steps leaves no config
      variant in the project, whatever the store before it. */
  lemma FinishRemovesConfigVariants(s1: Store, projectDir: Path, o: Options)
    ensures forall i :: 0 <= i < |ConfigVariants| ==>
      !Finish(RemoveEach(s1, projectDir, ConfigVariants), projectDir, o).store.Exists(projectDir + [ConfigVariants[i]])
  {
    var s2 := RemoveEach(s1, projectDir, ConfigVariants);
    RemoveEachRemoves(s1, projectDir, ConfigVariants);
    forall i | 0 <= i < |ConfigVariants|
      ensures !Finish(s2, projectDir, o).store.Exists(projectDir + [ConfigVariants[i]])
    {
      var v := ConfigVariants[i];
      PrefixOfChild(projectDir, v, "package.json");
      PrefixOfChild(projectDir, v, "README.md");
      FinishKeepsAbsent(s2, projectDir, o, projectDir + [v]);
    }
  }

  /** After a successful scaffold a manifest object carries the project name
      and the scaffolded description. */
  lemma ScaffoldNamesManifest(st: Store, env: Env, o: Options)
    requires Scaffold(st, env, o).result.Ok?
    ensures var files := Scaffold(st, env, o).store.files;
      var pkg := ProjectDir(env, o.name) + ["package.json"];
      pkg in files && files[pkg].Doc? && files[pkg].json.JObject? ==>
        && "name" in files[pkg].json.fields && files[pkg].json.fields["name"] == JString(o.name)
        && "description" in files[pkg].json.fields
        && files[pkg].json.fields["description"] == JString(Description(o.category))
  {
    var projectDir := ProjectDir(env, o.name);
    var s2 := RemoveEach(Populated(st, env, o), projectDir, ConfigVariants);
    assert Scaffold(st, env, o) == Finish(s2, projectDir, o);
    FinishWritesHeaders(s2, projectDir, o);
  }

  /** After a successful scaffold the README, when there is one, starts with
      the project name and category header. */
  lemma ScaffoldHeadsReadme(st: Store, env: Env, o: Options)
    requires Scaffold(st, env, o).result.Ok?
    ensures var files := Scaffold(st, env, o).store.files;
      var readme := ProjectDir(env, o.name) + ["README.md"];
      readme in files ==> files[readme].Text? && StartsWith(files[readme].text, ReadmeHeader(o))
  {
    var projectDir := ProjectDir(env, o.name);
    var s2 := RemoveEach(Populated(st, env, o), projectDir, ConfigVariants);
    assert Scaffold(st, env, o) == Finish(s2, projectDir, o);
    FinishWritesHeaders(s2, projectDir, o);
  }

  /** A test source of the example lands in the project's `test/`
      rewritten. */
  lemma WithTestsRewrites(st: Store, example: Path, projectDir: Path, name: string)
    requires example + ["test"] + [name] in st.files && st.files[example + ["test"] + [name]].Text?
    requires EndsWith(name, ".ts") || EndsWith(name, ".js")
    ensures var k := projectDir + ["test"] + [name];
      k in WithTests(st, example, projectDir).files
      && WithTests(st, example, projectDir).files[k] == Text(RewriteTestText(st.files[example + ["test"] + [name]].text))
  {
    var src, dest := example + ["test"], projectDir + ["test"];
    assert IsPrefix(src, src + [name]);
    var s2 := st.Copy(src, dest);
    CopyPlaces(st, src, dest, [name]);
    var k := dest + [name];
    assert IsTestSource(dest, k) by {
      assert k[|dest|] == name;
      assert k[..|dest|] == dest;
    }
    var s3 := RewriteTests(s2, dest);
    var stub := projectDir + ["scripts"] + ["test-helpers.ts"];
    assert k != stub by {
      assert k[|projectDir|] == "test" && stub[|projectDir|] == "scripts";
    }
  }

  // ---------------------------------------------------------------------
  // What a successful scaffold leaves in the project
  // ---------------------------------------------------------------------

  /** The removals keep every file outside the named paths. */
  lemma {:induction false} RemoveEachKeeps(st: Store, dir: Path, names: seq<string>, k: Path)
    requires forall i :: 0 <= i < |names| ==> !IsPrefix(dir + [names[i]], k)
    ensures k in RemoveEach(st, dir, names).files <==> k in st.files
    ensures k in st.files ==> RemoveEach(st, dir, names).files[k] == st.files[k]
    decreases |names|
  {
    if names != [] {
      var init := names[..|names| - 1];
      forall i | 0 <= i < |init|
        ensures !IsPrefix(dir + [init[i]], k)
      {
        assert init[i] == names[i];
      }
      RemoveEachKeeps(st, dir, init, k);
      assert !IsPrefix(dir + [names[|names| - 1]], k);
    }
  }

  /** The late steps keep every file but the manifest and the README. */
  lemma FinishKeeps(st: Store, projectDir: Path, o: Options, k: Path)
    requires k != projectDir + ["package.json"] && k != projectDir + ["README.md"]
    ensures k in Finish(st, projectDir, o).store.files <==> k in st.files
    ensures k in st.files ==> Finish(st, projectDir, o).store.files[k] == st.files[k]
  {
  }

  /** The test overlay keeps every file outside the project's `test/` other
      than the helper stub. */
  lemma WithTestsKeeps(st: Store, example: Path, projectDir: Path, k: Path)
    requires !IsPrefix(projectDir + ["test"], k) && k != projectDir + ["scripts"] + ["test-helpers.ts"]
    ensures k in WithTests(st, example, projectDir).files <==> k in st.files
    ensures k in st.files ==> WithTests(st, example, projectDir).files[k] == st.files[k]
  {
    var dest := projectDir + ["test"];
    if st.Exists(example + ["test"]) {
      CopyKeeps(st, example + ["test"], dest, k);
      var s2 := st.Copy(example + ["test"], dest);
      assert !IsTestSource(dest, k);
      var s3 := RewriteTests(s2, dest);
      assert k in s3.files ==> s3.files[k] == s2.files[k];
    }
  }

  /** A file of the old store is never under the new project directory. */
  lemma OutsideNewProject(st: Store, projectDir: Path, k: Path)
    requires !st.Exists(projectDir) && k in st.files
    ensures !IsPrefix(projectDir, k)
  {
  }

  /** A path under `projectDir + [a]`, with `a` not a config variant and
      the path not the manifest or the README, goes through the config
      removal and the late steps unchanged. */
  lemma LateStepsKeep(s1: Store, projectDir: Path, o: Options, a: string, rel: Path)
    requires a !in ConfigVariants && (rel != [] || (a != "package.json" && a != "README.md"))
    ensures var k, s := projectDir + [a] + rel, Finish(RemoveEach(s1, projectDir, ConfigVariants), projectDir, o).store;
      && (k in s.files <==> k in s1.files)
      && (k in s1.files ==> s.files[k] == s1.files[k])
  {
    var k := projectDir + [a] + rel;
    var s2 := RemoveEach(s1, projectDir, ConfigVariants);
    assert k[|projectDir|] == a;
    forall i | 0 <= i < |ConfigVariants|
      ensures !IsPrefix(projectDir + [ConfigVariants[i]], k)
    {
      assert (projectDir + [ConfigVariants[i]])[|projectDir|] == ConfigVariants[i];
    }
    RemoveEachKeeps(s1, projectDir, ConfigVariants, k);
    assert k != projectDir + ["package.json"] && k != projectDir + ["README.md"] by {
      assert (projectDir + ["package.json"])[|projectDir|] == "package.json";
      assert (projectDir + ["README.md"])[|projectDir|] == "README.md";
      if rel != [] {
        assert |k| > |projectDir| + 1;
      }
    }
    FinishKeeps(s2, projectDir, o, k);
  }

  lemma OverlayDirsKept()
    ensures "contracts" !in ConfigVariants && "test" !in ConfigVariants && "scripts" !in ConfigVariants
    ensures "contracts" != "package.json" && "contracts" != "README.md"
    ensures "test" != "package.json" && "test" != "README.md"
  {
  }

  /** A successful scaffold is the late steps applied to the populated
      project. */
  lemma ScaffoldOk(st: Store, env: Env, o: Options)
    requires Scaffold(st, env, o).result.Ok?
    ensures !st.Exists(ProjectDir(env, o.name))
    ensures Scaffold(st, env, o).store
         == Finish(RemoveEach(Populated(st, env, o), ProjectDir(env, o.name), ConfigVariants), ProjectDir(env, o.name), o).store
  {
  }

  /** The overlay copies each contract file of the example found to the
      project's `contracts/`. */
  lemma PopulatedOverlaysContracts(st: Store, env: Env, o: Options, example: Path, name: string)
    requires !st.Exists(ProjectDir(env, o.name))
    requires FirstExistingIn(st.Copy(BaseTemplate(env), ProjectDir(env, o.name)),
                             SearchPaths(env, CliCategories.ResolveExampleDir(o.category))) == Some(example)
    requires example + ["contracts"] + [name] in st.files
    ensures var k := ProjectDir(env, o.name) + ["contracts"] + [name];
      && k in Populated(st, env, o).files
      && Populated(st, env, o).files[k] == st.files[example + ["contracts"] + [name]]
  {
    var projectDir := ProjectDir(env, o.name);
    var src, dest := example + ["contracts"], projectDir + ["contracts"];
    var s0 := st.Copy(BaseTemplate(env), projectDir);
    OutsideNewProject(st, projectDir, src + [name]);
    CopyKeeps(st, BaseTemplate(env), projectDir, src + [name]);
    assert IsPrefix(src, src + [name]);
    CopyPlaces(s0, src, dest, [name]);
    var s1 := WithContracts(s0, example, projectDir);
    var k := dest + [name];
    ContractsBesideTests(projectDir, name);
    WithTestsKeeps(s1, example, projectDir, k);
    assert Populated(st, env, o) == Overlay(s0, example, projectDir);
  }

  /** The overlay copies each `.ts` or `.js` test of the example found to
      the project's `test/`, rewritten. */
  lemma PopulatedRewritesTests(st: Store, env: Env, o: Options, example: Path, name: string)
    requires !st.Exists(ProjectDir(env, o.name))
    requires FirstExistingIn(st.Copy(BaseTemplate(env), ProjectDir(env, o.name)),
                             SearchPaths(env, CliCategories.ResolveExampleDir(o.category))) == Some(example)
    requires example + ["test"] + [name] in st.files && st.files[example + ["test"] + [name]].Text?
    requires EndsWith(name, ".ts") || EndsWith(name, ".js")
    ensures var k := ProjectDir(env, o.name) + ["test"] + [name];
      && k in Populated(st, env, o).files
      && Populated(st, env, o).files[k] == Text(RewriteTestText(st.files[example + ["test"] + [name]].text))
  {
    var projectDir := ProjectDir(env, o.name);
    var src := example + ["test"] + [name];
    var s0 := st.Copy(BaseTemplate(env), projectDir);
    OutsideNewProject(st, projectDir, src);
    CopyKeeps(st, BaseTemplate(env), projectDir, src);
    var s1 := WithContracts(s0, example, projectDir);
    if s0.Exists(example + ["contracts"]) {
      assert !IsPrefix(projectDir + ["contracts"], src) by {
        ChildInside(projectDir, "contracts");
        PrefixTrans(projectDir, projectDir + ["contracts"], src);
      }
      CopyKeeps(s0, example + ["contracts"], projectDir + ["contracts"], src);
    }
    WithTestsRewrites(s1, example, projectDir, name);
    assert Populated(st, env, o) == Overlay(s0, example, projectDir);
  }

  /** The project's `contracts/` lies apart from its `test/` and from the
      helper stub. */
  lemma ContractsBesideTests(projectDir: Path, name: string)
    ensures var k := projectDir + ["contracts"] + [name];
      !IsPrefix(projectDir + ["test"], k) && k != projectDir + ["scripts"] + ["test-helpers.ts"]
  {
    var k := projectDir + ["contracts"] + [name];
    assert k[|projectDir|] == "contracts";
    assert (projectDir + ["test"])[|projectDir|] == "test";
    assert (projectDir + ["scripts"] + ["test-helpers.ts"])[|projectDir|] == "scripts";
  }

  /** Without an example the project is the copy of the base template. */
  lemma PopulatedWithoutExample(st: Store, env: Env, o: Options, a: string, rel: Path)
    requires !st.Exists(ProjectDir(env, o.name))
    requires FirstExistingIn(st.Copy(BaseTemplate(env), ProjectDir(env, o.name)),
                             SearchPaths(env, CliCategories.ResolveExampleDir(o.category))).None?
    ensures var k, b := ProjectDir(env, o.name) + [a] + rel, BaseTemplate(env) + [a] + rel;
      && (k in Populated(st, env, o).files <==> b in st.files)
      && (b in st.files ==> Populated(st, env, o).files[k] == st.files[b])
  {
    var projectDir, base := ProjectDir(env, o.name), BaseTemplate(env);
    assert Populated(st, env, o) == st.Copy(base, projectDir);
    CopyTreeAt(st, base, projectDir, a, rel);
  }

  /** Copying a tree to a path that does not exist yet: the new path
      `dest + rel` holds a file exactly when `src + rel` does, with its
      content. */
  lemma CopyTreeAt(st: Store, src: Path, dest: Path, a: string, rest: Path)
    requires !st.Exists(dest)
    ensures dest + [a] + rest in st.Copy(src, dest).files <==> src + [a] + rest in st.files
    ensures src + [a] + rest in st.files ==> st.Copy(src, dest).files[dest + [a] + rest] == st.files[src + [a] + rest]
  {
    var rel := [a] + rest;
    assert dest + rel == dest + [a] + rest && src + rel == src + [a] + rest;
    var k := dest + rel;
    assert k !in st.files by {
      assert IsPrefix(dest, k);
    }
    MovedFrom(st.files.Keys, src, dest);
    assert k[|dest|..] == rel;
    if src + rel in st.files {
      CopyPlaces(st, src, dest, rel);
    }
  }

  /** Every contract file of the premium example found, as the scaffolder
      found it, lands under the project's `contracts/` with the same content
      (the copy overwrites what the base template put there). */
  lemma ScaffoldOverlaysContracts(st: Store, env: Env, o: Options, example: Path, name: string)
    requires Scaffold(st, env, o).result.Ok?
    requires FirstExistingIn(st.Copy(BaseTemplate(env), ProjectDir(env, o.name)),
                             SearchPaths(env, CliCategories.ResolveExampleDir(o.category))) == Some(example)
    requires example + ["contracts"] + [name] in st.files
    ensures var k := ProjectDir(env, o.name) + ["contracts"] + [name];
      && k in Scaffold(st, env, o).store.files
      && Scaffold(st, env, o).store.files[k] == st.files[example + ["contracts"] + [name]]
  {
    ScaffoldOk(st, env, o);
    PopulatedOverlaysContracts(st, env, o, example, name);
    OverlayDirsKept();
    LateStepsKeep(Populated(st, env, o), ProjectDir(env, o.name), o, "contracts", [name]);
  }

  /** Every `.ts` or `.js` test of the premium example found lands in the
      project's `test/` with its imports rewritten. */
  lemma ScaffoldRewritesTests(st: Store, env: Env, o: Options, example: Path, name: string)
    requires Scaffold(st, env, o).result.Ok?
    requires FirstExistingIn(st.Copy(BaseTemplate(env), ProjectDir(env, o.name)),
                             SearchPaths(env, CliCategories.ResolveExampleDir(o.category))) == Some(example)
    requires example + ["test"] + [name] in st.files && st.files[example + ["test"] + [name]].Text?
    requires EndsWith(name, ".ts") || EndsWith(name, ".js")
    ensures var k := ProjectDir(env, o.name) + ["test"] + [name];
      && k in Scaffold(st, env, o).store.files
      && Scaffold(st, env, o).store.files[k] == Text(RewriteTestText(st.files[example + ["test"] + [name]].text))
  {
    ScaffoldOk(st, env, o);
    PopulatedRewritesTests(st, env, o, example, name);
    OverlayDirsKept();
    LateStepsKeep(Populated(st, env, o), ProjectDir(env, o.name), o, "test", [name]);
  }

  /** When no premium example is found, the project is the base template:
      every path outside the config variants, the manifest and the README
      holds exactly what the template holds at the same place. */
  lemma ScaffoldWithoutExample(st: Store, env: Env, o: Options, a: string, rel: Path)
    requires Scaffold(st, env, o).result.Ok?
    requires FirstExistingIn(st.Copy(BaseTemplate(env), ProjectDir(env, o.name)),
                             SearchPaths(env, CliCategories.ResolveExampleDir(o.category))).None?
    requires a !in ConfigVariants && (rel != [] || (a != "package.json" && a != "README.md"))
    ensures var k, b := ProjectDir(env, o.name) + [a] + rel, BaseTemplate(env) + [a] + rel;
      && (k in Scaffold(st, env, o).store.files <==> b in st.files)
      && (b in st.files ==> Scaffold(st, env, o).store.files[k] == st.files[b])
  {
    var projectDir := ProjectDir(env, o.name);
    ScaffoldOk(st, env, o);
    PopulatedWithoutExample(st, env, o, a, rel);
    LateStepsKeep(Populated(st, env, o), projectDir, o, a, rel);
  }

  // ---------------------------------------------------------------------
  // The helper stub, and the base template beside a found example
  // ---------------------------------------------------------------------

  /** Where the stub goes, apart from `contracts/`, `test/` and `scripts/`
      themselves. */
  lemma StubApart(projectDir: Path)
    ensures var stub := projectDir + ["scripts"] + ["test-helpers.ts"];
      && IsPrefix(projectDir, stub) && !IsPrefix(stub, projectDir)
      && stub[|projectDir|..] == ["scripts"] + ["test-helpers.ts"]
      && !IsPrefix(stub, projectDir + ["contracts"]) && !IsPrefix(projectDir + ["contracts"], stub)
      && !IsPrefix(stub, projectDir + ["test"]) && !IsPrefix(projectDir + ["test"], stub)
      && !IsPrefix(stub, projectDir + ["scripts"])
  {
    var stub := projectDir + ["scripts"] + ["test-helpers.ts"];
    assert stub[|projectDir|] == "scripts";
    assert (projectDir + ["contracts"])[|projectDir|] == "contracts";
    assert (projectDir + ["test"])[|projectDir|] == "test";
  }

  /** A path below the project apart from `contracts/`, `test/` and, unless
      it is the stub, apart from the stub. */
  lemma ProjectPathApart(projectDir: Path, a: string, rel: Path)
    ensures var k := projectDir + [a] + rel;
      && (a != "contracts" ==> !IsPrefix(projectDir + ["contracts"], k))
      && (a != "test" ==> !IsPrefix(projectDir + ["test"], k))
      && (k == projectDir + ["scripts"] + ["test-helpers.ts"] ==> a == "scripts" && rel == ["test-helpers.ts"])
  {
    var k := projectDir + [a] + rel;
    assert k[|projectDir|] == a;
    assert (projectDir + ["contracts"])[|projectDir|] == "contracts";
    assert (projectDir + ["test"])[|projectDir|] == "test";
    if k == projectDir + ["scripts"] + ["test-helpers.ts"] {
      assert k[|projectDir| + 1..] == rel;
    }
  }

  /** The test overlay leaves the stub as it finds it when something is
      already at its place, and writes it otherwise. */
  lemma WithTestsStub(st: Store, example: Path, projectDir: Path)
    requires st.Exists(example + ["test"])
    ensures var stub, r := projectDir + ["scripts"] + ["test-helpers.ts"], WithTests(st, example, projectDir);
      && (!st.Exists(stub) ==> stub in r.files && r.files[stub] == Text(HelperStub))
      && (st.Exists(stub) ==> (stub in r.files <==> stub in st.files))
      && (stub in st.files ==> r.files[stub] == st.files[stub])
  {
    var stub, dest := projectDir + ["scripts"] + ["test-helpers.ts"], projectDir + ["test"];
    StubApart(projectDir);
    var s2 := st.Copy(example + ["test"], dest);
    CopyExists(st, example + ["test"], dest, stub);
    CopyKeeps(st, example + ["test"], dest, stub);
    var s3 := RewriteTests(s2, dest);
    assert !IsTestSource(dest, stub);
    assert s3.Exists(stub) == s2.Exists(stub);
    AddHelperStubAt(s3, projectDir);
    assert WithTests(st, example, projectDir) == AddHelperStub(s3, projectDir);
  }

  /** The stub is written exactly when nothing is at its place. */
  lemma AddHelperStubAt(st: Store, projectDir: Path)
    ensures var stub, r := projectDir + ["scripts"] + ["test-helpers.ts"], AddHelperStub(st, projectDir);
      && (!st.Exists(stub) ==> stub in r.files && r.files[stub] == Text(HelperStub))
      && (st.Exists(stub) ==> (stub in r.files <==> stub in st.files))
      && (stub in st.files ==> r.files[stub] == st.files[stub])
  {
    var stub, scripts := projectDir + ["scripts"] + ["test-helpers.ts"], projectDir + ["scripts"];
    StubApart(projectDir);
    var s1 := if st.Exists(scripts) then st else st.MakeDir(scripts);
    assert s1.Exists(stub) == st.Exists(stub);
  }

  /** When the example found has a `test/` directory, the populated project
      holds the stub exactly when nothing is at its place in the base
      template, and the template's file when there is one. */
  lemma PopulatedHelperStub(st: Store, env: Env, o: Options, example: Path)
    requires !st.Exists(ProjectDir(env, o.name))
    requires FirstExistingIn(st.Copy(BaseTemplate(env), ProjectDir(env, o.name)),
                             SearchPaths(env, CliCategories.ResolveExampleDir(o.category))) == Some(example)
    requires st.Copy(BaseTemplate(env), ProjectDir(env, o.name)).Exists(example + ["test"])
    ensures var stub, b := ProjectDir(env, o.name) + ["scripts"] + ["test-helpers.ts"],
                           BaseTemplate(env) + ["scripts"] + ["test-helpers.ts"];
      && (stub in Populated(st, env, o).files <==> b in st.files || !st.Exists(b))
      && (!st.Exists(b) ==> Populated(st, env, o).files[stub] == Text(HelperStub))
      && (b in st.files ==> Populated(st, env, o).files[stub] == st.files[b])
  {
    var projectDir, base := ProjectDir(env, o.name), BaseTemplate(env);
    var s0 := st.Copy(base, projectDir);
    BaseCopyStub(st, base, projectDir);
    WithContractsStub(s0, example, projectDir);
    WithTestsStub(WithContracts(s0, example, projectDir), example, projectDir);
    assert Populated(st, env, o) == Overlay(s0, example, projectDir);
  }

  /** Copying the base template into a new project puts at the stub's place
      what the template has at the same place. */
  lemma BaseCopyStub(st: Store, base: Path, projectDir: Path)
    requires !st.Exists(projectDir)
    ensures var stub, b, s0 := projectDir + ["scripts"] + ["test-helpers.ts"], base + ["scripts"] + ["test-helpers.ts"],
                               st.Copy(base, projectDir);
      && (s0.Exists(stub) <==> st.Exists(b))
      && (stub in s0.files <==> b in st.files)
      && (b in st.files ==> s0.files[stub] == st.files[b])
  {
    var stub, b := projectDir + ["scripts"] + ["test-helpers.ts"], base + ["scripts"] + ["test-helpers.ts"];
    StubApart(projectDir);
    if st.Exists(stub) {
      ExistsUp(st, stub, projectDir);
    }
    assert base + stub[|projectDir|..] == b;
    CopyExists(st, base, projectDir, stub);
    CopyTreeAt(st, base, projectDir, "scripts", ["test-helpers.ts"]);
  }

  /** The contracts overlay leaves the stub's place alone, and whatever
      existed still exists. */
  lemma WithContractsStub(s0: Store, example: Path, projectDir: Path)
    ensures var stub, s1 := projectDir + ["scripts"] + ["test-helpers.ts"], WithContracts(s0, example, projectDir);
      && (s1.Exists(stub) <==> s0.Exists(stub))
      && (stub in s1.files <==> stub in s0.files)
      && (stub in s0.files ==> s1.files[stub] == s0.files[stub])
      && (s0.Exists(example + ["test"]) ==> s1.Exists(example + ["test"]))
  {
    var stub := projectDir + ["scripts"] + ["test-helpers.ts"];
    var src, dest := example + ["contracts"], projectDir + ["contracts"];
    if s0.Exists(src) {
      StubApart(projectDir);
      CopyExists(s0, src, dest, stub);
      CopyKeeps(s0, src, dest, stub);
      CopyExists(s0, src, dest, example + ["test"]);
    }
  }

  /** Beside a found example the populated project keeps the base template
      everywhere but `contracts/`, `test/` and the stub. */
  lemma PopulatedWithExampleKeepsBase(st: Store, env: Env, o: Options, example: Path, a: string, rel: Path)
    requires !st.Exists(ProjectDir(env, o.name))
    requires FirstExistingIn(st.Copy(BaseTemplate(env), ProjectDir(env, o.name)),
                             SearchPaths(env, CliCategories.ResolveExampleDir(o.category))) == Some(example)
    requires a != "contracts" && a != "test" && !(a == "scripts" && rel == ["test-helpers.ts"])
    ensures var k, b := ProjectDir(env, o.name) + [a] + rel, BaseTemplate(env) + [a] + rel;
      && (k in Populated(st, env, o).files <==> b in st.files)
      && (b in st.files ==> Populated(st, env, o).files[k] == st.files[b])
  {
    var projectDir, base := ProjectDir(env, o.name), BaseTemplate(env);
    var k := projectDir + [a] + rel;
    ProjectPathApart(projectDir, a, rel);
    var s0 := st.Copy(base, projectDir);
    CopyTreeAt(st, base, projectDir, a, rel);
    var s1 := WithContracts(s0, example, projectDir);
    CopyKeeps(s0, example + ["contracts"], projectDir + ["contracts"], k);
    WithTestsKeeps(s1, example, projectDir, k);
    assert Populated(st, env, o) == Overlay(s0, example, projectDir);
  }

  /** When the premium example found has a `test/` directory, the project
      ends with `scripts/test-helpers.ts`: the base template's file when it
      has one, the stub when nothing is at that place (so that tests
      importing `../scripts/test-helpers` resolve). */
  lemma ScaffoldWritesHelperStub(st: Store, env: Env, o: Options, example: Path)
    requires Scaffold(st, env, o).result.Ok?
    requires FirstExistingIn(st.Copy(BaseTemplate(env), ProjectDir(env, o.name)),
                             SearchPaths(env, CliCategories.ResolveExampleDir(o.category))) == Some(example)
    requires st.Copy(BaseTemplate(env), ProjectDir(env, o.name)).Exists(example + ["test"])
    ensures var stub, b := ProjectDir(env, o.name) + ["scripts"] + ["test-helpers.ts"],
                           BaseTemplate(env) + ["scripts"] + ["test-helpers.ts"];
      && (stub in Scaffold(st, env, o).store.files <==> b in st.files || !st.Exists(b))
      && (!st.Exists(b) ==> Scaffold(st, env, o).store.files[stub] == Text(HelperStub))
      && (b in st.files ==> Scaffold(st, env, o).store.files[stub] == st.files[b])
  {
    ScaffoldOk(st, env, o);
    PopulatedHelperStub(st, env, o, example);
    OverlayDirsKept();
    LateStepsKeep(Populated(st, env, o), ProjectDir(env, o.name), o, "scripts", ["test-helpers.ts"]);
  }

  /** When a premium example is found, every project path outside
      `contracts/`, `test/`, the stub, the config variants, the manifest and
      the README holds exactly what the base template holds at the same
      place. */
  lemma ScaffoldWithExampleKeepsBase(st: Store, env: Env, o: Options, example: Path, a: string, rel: Path)
    requires Scaffold(st, env, o).result.Ok?
    requires FirstExistingIn(st.Copy(BaseTemplate(env), ProjectDir(env, o.name)),
                             SearchPaths(env, CliCategories.ResolveExampleDir(o.category))) == Some(example)
    requires a != "contracts" && a != "test" && !(a == "scripts" && rel == ["test-helpers.ts"])
    requires a !in ConfigVariants && (rel != [] || (a != "package.json" && a != "README.md"))
    ensures var k, b := ProjectDir(env, o.name) + [a] + rel, BaseTemplate(env) + [a] + rel;
      && (k in Scaffold(st, env, o).store.files <==> b in st.files)
      && (b in st.files ==> Scaffold(st, env, o).store.files[k] == st.files[b])
  {
    ScaffoldOk(st, env, o);
    PopulatedWithExampleKeepsBase(st, env, o, example, a, rel);
    LateStepsKeep(Populated(st, env, o), ProjectDir(env, o.name), o, a, rel);
  }
}
