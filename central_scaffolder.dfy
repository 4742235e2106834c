/** The central repository's scaffolder (`createExample` of
    central-repo/src/scaffolder.ts): three checks in a fixed order, then a
    straight-line sequence of directory creations and file writes that
    produce a fresh project from the registry record and the template
    dispatcher. */
module CentralScaffolder {
  import opened Basics
  import opened Files
  import CentralRegistry
  import TemplateDispatch

  datatype Options = Options(name: string, category: string, isPro: bool)

  /** A template lookup: `getContractTemplate` or `getTestTemplate`. */
  type Lookup = string -> Result<TemplateDispatch.TemplateRef, TemplateDispatch.DispatchError>

  datatype CreateError =
    | UnknownCategory(category: string)
    | ProRequired(category: string)
    | DirectoryExists(name: string)
    | TemplateFailed(error: TemplateDispatch.DispatchError)

  /** `path.resolve(process.cwd(), options.name)`, the name being one path
      component. */
  function ProjectDir(cwd: Path, name: string): (r: Path)
    ensures |r| == |cwd| + 1 && r[..|cwd|] == cwd && r[|cwd|] == name
  {
    cwd + [name]
  }

  // ---------------------------------------------------------------------
  // The checks
  // ---------------------------------------------------------------------

  /** The three checks, in source order, against the registry `reg`; on
      success the record found. */
  function CheckIn(reg: seq<CentralRegistry.Category>, st: Store, cwd: Path, o: Options): Result<CentralRegistry.Category, CreateError> {
    match CentralRegistry.FindIn(reg, o.category)
    case None => Err(UnknownCategory(o.category))
    case Some(cat) =>
      if cat.isPro && !o.isPro then Err(ProRequired(o.category))
      else if st.Exists(ProjectDir(cwd, o.name)) then Err(DirectoryExists(o.name))
      else Ok(cat)
  }

  /** Each check fails exactly when its own condition holds and every
      earlier check passed; a passing call yields a record of the requested
      id. */
  lemma CheckOrder(reg: seq<CentralRegistry.Category>, st: Store, cwd: Path, o: Options)
    ensures CheckIn(reg, st, cwd, o) == Err(UnknownCategory(o.category)) <==>
      forall i :: 0 <= i < |reg| ==> reg[i].id != o.category
    ensures CheckIn(reg, st, cwd, o) == Err(ProRequired(o.category)) <==>
      match CentralRegistry.FindIn(reg, o.category)
      case None => false
      case Some(cat) => cat.isPro && !o.isPro
    ensures CheckIn(reg, st, cwd, o) == Err(DirectoryExists(o.name)) <==>
      match CentralRegistry.FindIn(reg, o.category)
      case None => false
      case Some(cat) => (!cat.isPro || o.isPro) && st.Exists(ProjectDir(cwd, o.name))
    ensures CheckIn(reg, st, cwd, o).Ok? ==>
      CheckIn(reg, st, cwd, o).value in reg && CheckIn(reg, st, cwd, o).value.id == o.category
  {
  }

  /** For a known category the pro gate lets the call through iff the
      category is not pro or the caller asked for pro. */
  lemma ProGate(reg: seq<CentralRegistry.Category>, st: Store, cwd: Path, o: Options)
    requires CentralRegistry.FindIn(reg, o.category).Some?
    ensures CheckIn(reg, st, cwd, o) != Err(ProRequired(o.category)) <==>
      !CentralRegistry.FindIn(reg, o.category).value.isPro || o.isPro
  {
  }

  // ---------------------------------------------------------------------
  // What a successful call writes
  // ---------------------------------------------------------------------

  function Str(s: string): Json { JString(s) }

  /** The `package.json` object of a new project. */
  function PackageJson(o: Options, cat: CentralRegistry.Category): Json {
    JObject(map[
      "name" := Str(o.name),
      "version" := Str("1.0.0"),
      "description" := Str(cat.name + " - fhEVM example"),
      "main" := Str("index.js"),
      "scripts" := JObject(map[
        "test" := Str("hardhat test"),
        "compile" := Str("hardhat compile"),
        "deploy" := Str("hardhat run scripts/deploy.ts"),
        "coverage" := Str("hardhat coverage")]),
      "keywords" := JArray([Str("fhEVM"), Str("FHE"), Str(ToLower(cat.name))]),
      "author" := Str(""),
      "license" := Str("MIT"),
      "dependencies" := JObject(map[
        "@zama.ai/fhevm" := Str("^0.9.0"),
        "ethers" := Str("^6.10.0")]),
      "devDependencies" := JObject(map[
        "@types/chai" := Str("^4.3.11"),
        "@types/mocha" := Str("^10.0.6"),
        "@types/node" := Str("^20.10.6"),
        "chai" := Str("^4.3.10"),
        "hardhat" := Str("^2.19.4"),
        "hardhat-chai-matchers" := Str("^1.0.6"),
        "mocha" := Str("^10.2.0"),
        "solc" := Str("^0.8.24"),
        "ts-node" := Str("^10.9.2"),
        "typescript" := Str("^5.3.3")])])
  }

  /** The manifest names the project, describes the category and lists the
      lowercased category name as its third keyword. */
  lemma PackageJsonFields(o: Options, cat: CentralRegistry.Category)
    ensures var f := PackageJson(o, cat).fields;
      && "name" in f && "description" in f && "keywords" in f && "dependencies" in f
      && f["keywords"].JArray? && f["dependencies"].JObject?
      && f["name"] == JString(o.name)
      && f["description"] == JString(cat.name + " - fhEVM example")
      && |f["keywords"].items| == 3
      && f["keywords"].items[2] == JString(ToLower(cat.name))
      && "@zama.ai/fhevm" in f["dependencies"].fields
  {
  }

  /** The text `createHardhatConfig` writes. */
  const HardhatConfig: string :=
    "import { HardhatUserConfig } from \"hardhat/config\";\n"
    + "import \"@nomicfoundation/hardhat-toolbox\";\n"
    + "\n"
    + "const config: HardhatUserConfig = {\n"
    + "  solidity: {\n"
    + "    version: \"0.8.24\",\n"
    + "    settings: {\n"
    + "      optimizer: {\n"
    + "        enabled: true,\n"
    + "        runs: 200,\n"
    + "      },\n"
    + "    },\n"
    + "  },\n"
    + "  networks: {\n"
    + "    hardhat: {\n"
    + "      chainId: 1337,\n"
    + "    },\n"
    + "    localhost: {\n"
    + "      url: \"http://127.0.0.1:8545\",\n"
    + "    },\n"
    + "    sepolia: {\n"
    + "      url: process.env.SEPOLIA_RPC || \"https://sepolia.infura.io/v3/\",\n"
    + "      accounts: process.env.SEPOLIA_PRIVATE_KEY ? [process.env.SEPOLIA_PRIVATE_KEY] : [],\n"
    + "    },\n"
    + "  },\n"
    + "  paths: {\n"
    + "    sources: \"./contracts\",\n"
    + "    tests: \"./test\",\n"
    + "    artifacts: \"./artifacts\",\n"
    + "  },\n"
    + "};\n"
    + "\n"
    + "export default config;\n"

  const EnvExample: string := "SEPOLIA_PRIVATE_KEY=\nEVMOS_TESTNET_PRIVATE_KEY=\n"

  const GitIgnore: string := "node_modules/\ndist/\nbuild/\n.env\n.env.local\n*.log\n.DS_Store\n"

  /** The README text comes from `getReadmeTemplate`, whose body is not
      modelled. */
  const ReadmeOrigin: string := "getReadmeTemplate"

  function ContractPath(projectDir: Path, contractName: string): Path {
    projectDir + ["contracts", contractName + ".sol"]
  }

  function TestPath(projectDir: Path, contractName: string): Path {
    projectDir + ["test", contractName + ".test.ts"]
  }

  /** The directories a successful call creates. */
  function CreatedDirs(projectDir: Path): set<Path> {
    {projectDir, projectDir + ["contracts"], projectDir + ["test"], projectDir + ["hardhat"]}
  }

  /** The seven files a successful call writes, with their contents. */
  function WrittenFiles(projectDir: Path, o: Options, cat: CentralRegistry.Category,
                        contract: TemplateDispatch.TemplateRef, test: TemplateDispatch.TemplateRef): map<Path, Content> {
    map[
      projectDir + ["package.json"] := Doc(PackageJson(o, cat)),
      projectDir + ["hardhat.config.ts"] := Text(HardhatConfig),
      ContractPath(projectDir, cat.contractName) := Generated(contract.fn),
      TestPath(projectDir, cat.contractName) := Generated(test.fn),
      projectDir + ["README.md"] := Generated(ReadmeOrigin),
      projectDir + [".env.example"] := Text(EnvExample),
      projectDir + [".gitignore"] := Text(GitIgnore)]
  }

  /** No two of the seven written paths coincide. */
  lemma WrittenPathsDistinct(projectDir: Path, name: string)
    ensures var p0, p1 := projectDir + ["package.json"], projectDir + ["hardhat.config.ts"];
      var p2, p3 := ContractPath(projectDir, name), TestPath(projectDir, name);
      var p4, p5, p6 := projectDir + ["README.md"], projectDir + [".env.example"], projectDir + [".gitignore"];
      && p0 != p1 && p0 != p2 && p0 != p3 && p0 != p4 && p0 != p5 && p0 != p6
      && p1 != p2 && p1 != p3 && p1 != p4 && p1 != p5 && p1 != p6
      && p2 != p3 && p2 != p4 && p2 != p5 && p2 != p6
      && p3 != p4 && p3 != p5 && p3 != p6
      && p4 != p5 && p4 != p6
      && p5 != p6
  {
    var n := |projectDir|;
    assert (projectDir + ["package.json"])[n] == "package.json";
    assert (projectDir + ["hardhat.config.ts"])[n] == "hardhat.config.ts";
    assert ContractPath(projectDir, name)[n] == "contracts";
    assert TestPath(projectDir, name)[n] == "test";
    assert (projectDir + ["README.md"])[n] == "README.md";
    assert (projectDir + [".env.example"])[n] == ".env.example";
    assert (projectDir + [".gitignore"])[n] == ".gitignore";
  }

  /** A successful call writes seven distinct files. */
  lemma SevenFiles(projectDir: Path, o: Options, cat: CentralRegistry.Category,
                   contract: TemplateDispatch.TemplateRef, test: TemplateDispatch.TemplateRef)
    ensures |WrittenFiles(projectDir, o, cat, contract, test).Keys| == 7
  {
    var p0, p1 := projectDir + ["package.json"], projectDir + ["hardhat.config.ts"];
    var p2, p3 := ContractPath(projectDir, cat.contractName), TestPath(projectDir, cat.contractName);
    var p4, p5, p6 := projectDir + ["README.md"], projectDir + [".env.example"], projectDir + [".gitignore"];
    WrittenPathsDistinct(projectDir, cat.contractName);
    assert WrittenFiles(projectDir, o, cat, contract, test).Keys == {p0, p1, p2, p3, p4, p5, p6};
    SevenDistinct(p0, p1, p2, p3, p4, p5, p6);
  }

  /** Seven pairwise distinct paths make a set of seven. */
  lemma SevenDistinct(p0: Path, p1: Path, p2: Path, p3: Path, p4: Path, p5: Path, p6: Path)
    requires p0 != p1 && p0 != p2 && p0 != p3 && p0 != p4 && p0 != p5 && p0 != p6
    requires p1 != p2 && p1 != p3 && p1 != p4 && p1 != p5 && p1 != p6
    requires p2 != p3 && p2 != p4 && p2 != p5 && p2 != p6
    requires p3 != p4 && p3 != p5 && p3 != p6
    requires p4 != p5 && p4 != p6 && p5 != p6
    ensures |{p0, p1, p2, p3, p4, p5, p6}| == 7
  {
    assert |{p0, p1}| == 2;
    assert |{p0, p1, p2}| == 3;
    assert |{p0, p1, p2, p3}| == 4;
    assert |{p0, p1, p2, p3, p4}| == 5;
    assert |{p0, p1, p2, p3, p4, p5}| == 6;
  }

  // ---------------------------------------------------------------------
  // The whole call
  // ---------------------------------------------------------------------

  datatype Outcome = Outcome(result: Result<Path, CreateError>, store: Store)

  /** The directories, `package.json` and `hardhat.config.ts`: everything
      written before the templates are fetched. */
  function Prepared(st: Store, projectDir: Path, o: Options, cat: CentralRegistry.Category): Store {
    st.MakeDir(projectDir).MakeDir(projectDir + ["contracts"]).MakeDir(projectDir + ["test"])
      .MakeDir(projectDir + ["hardhat"])
      .Write(projectDir + ["package.json"], Doc(PackageJson(o, cat)))
      .Write(projectDir + ["hardhat.config.ts"], Text(HardhatConfig))
  }

  /** The template files, the README, `.env.example` and `.gitignore`. */
  function Completed(st: Store, projectDir: Path, cat: CentralRegistry.Category,
                     contract: TemplateDispatch.TemplateRef, test: TemplateDispatch.TemplateRef): Store {
    st.Write(ContractPath(projectDir, cat.contractName), Generated(contract.fn))
      .Write(TestPath(projectDir, cat.contractName), Generated(test.fn))
      .Write(projectDir + ["README.md"], Generated(ReadmeOrigin))
      .Write(projectDir + [".env.example"], Text(EnvExample))
      .Write(projectDir + [".gitignore"], Text(GitIgnore))
  }

  /** What the call does once the checks have passed with record `cat`,
      given what the two template lookups return: write the directories,
      the manifest and the config, then fail on the first lookup error, or
      write the remaining five files. */
  function Assemble(st: Store, projectDir: Path, o: Options, cat: CentralRegistry.Category,
                    contract: Result<TemplateDispatch.TemplateRef, TemplateDispatch.DispatchError>,
                    test: Result<TemplateDispatch.TemplateRef, TemplateDispatch.DispatchError>): Outcome {
    var s1 := Prepared(st, projectDir, o, cat);
    match contract
    case Err(e) => Outcome(Err(TemplateFailed(e)), s1)
    case Ok(c) =>
      match test
      case Err(e) => Outcome(Err(TemplateFailed(e)), s1)
      case Ok(t) => Outcome(Ok(projectDir), Completed(s1, projectDir, cat, c, t))
  }

  /** `createExample(options)` against the registry `reg` and the template
      lookups `contractOf` and `testOf`, as a function of the file system
      before it. The git step is best effort and leaves the modelled store
      alone. */
  function CreateIn(reg: seq<CentralRegistry.Category>, contractOf: Lookup, testOf: Lookup,
                    st: Store, cwd: Path, o: Options): Outcome {
    match CheckIn(reg, st, cwd, o)
    case Err(e) => Outcome(Err(e), st)
    case Ok(cat) => Assemble(st, ProjectDir(cwd, o.name), o, cat, contractOf(o.category), testOf(o.category))
  }

  /** `createExample(options)` against `CATEGORIES` and the dispatcher. */
  function Create(st: Store, cwd: Path, o: Options): Outcome {
    CreateIn(CentralRegistry.Categories, TemplateDispatch.GetContractTemplate, TemplateDispatch.GetTestTemplate, st, cwd, o)
  }

  /** The scaffolder, step by step on the file system, against the
      registry and template lookups it is given (the program gives it
      `CATEGORIES` and the dispatcher, as in `Create`). */
  method CreateExample(fs: FileStore, reg: seq<CentralRegistry.Category>, contractOf: Lookup, testOf: Lookup,
                       cwd: Path, o: Options) returns (r: Result<Path, CreateError>)
    modifies fs
    ensures Outcome(r, fs.State()) == CreateIn(reg, contractOf, testOf, old(fs.State()), cwd, o)
  {
    var projectDir := ProjectDir(cwd, o.name);
    var found := CentralRegistry.FindIn(reg, o.category);
    if found.None? {
      return Err(UnknownCategory(o.category));
    }
    var cat := found.value;
    if cat.isPro && !o.isPro {
      return Err(ProRequired(o.category));
    }
    if fs.Exists(projectDir) {
      return Err(DirectoryExists(o.name));
    }

    fs.EnsureDir(projectDir);
    fs.EnsureDir(projectDir + ["contracts"]);
    fs.EnsureDir(projectDir + ["test"]);
    fs.EnsureDir(projectDir + ["hardhat"]);
    fs.WriteFile(projectDir + ["package.json"], Doc(PackageJson(o, cat)));
    fs.WriteFile(projectDir + ["hardhat.config.ts"], Text(HardhatConfig));

    var contract := contractOf(o.category);
    if contract.Err? {
      return Err(TemplateFailed(contract.error));
    }
    var test := testOf(o.category);
    if test.Err? {
      return Err(TemplateFailed(test.error));
    }
    fs.WriteFile(ContractPath(projectDir, cat.contractName), Generated(contract.value.fn));
    fs.WriteFile(TestPath(projectDir, cat.contractName), Generated(test.value.fn));
    fs.WriteFile(projectDir + ["README.md"], Generated(ReadmeOrigin));
    fs.WriteFile(projectDir + [".env.example"], Text(EnvExample));
    fs.WriteFile(projectDir + [".gitignore"], Text(GitIgnore));
    return Ok(projectDir);
  }

  // ---------------------------------------------------------------------
  // What a call does and does not do
  // ---------------------------------------------------------------------

  /** A rejected call leaves the file system as it was; in particular an
      existing target is never touched. */
  lemma RejectionsBeforeMutation(reg: seq<CentralRegistry.Category>, contractOf: Lookup, testOf: Lookup,
                                 st: Store, cwd: Path, o: Options)
    ensures CheckIn(reg, st, cwd, o).Err? ==>
      CreateIn(reg, contractOf, testOf, st, cwd, o) == Outcome(Err(CheckIn(reg, st, cwd, o).error), st)
    ensures st.Exists(ProjectDir(cwd, o.name)) ==> CreateIn(reg, contractOf, testOf, st, cwd, o).store == st
  {
  }

  /** When the lookups know every id of the registry, a call succeeds
      exactly when its checks pass, and returns the project directory. */
  lemma ChecksSuffice(reg: seq<CentralRegistry.Category>, contractOf: Lookup, testOf: Lookup,
                      st: Store, cwd: Path, o: Options)
    requires forall c :: c in reg ==> contractOf(c.id).Ok? && testOf(c.id).Ok?
    ensures CreateIn(reg, contractOf, testOf, st, cwd, o).result.Ok? <==> CheckIn(reg, st, cwd, o).Ok?
    ensures CreateIn(reg, contractOf, testOf, st, cwd, o).result.Ok? ==>
      CreateIn(reg, contractOf, testOf, st, cwd, o).result.value == ProjectDir(cwd, o.name)
  {
    CheckOrder(reg, st, cwd, o);
  }

  /** The dispatcher knows every id of `CATEGORIES`, so with the program's
      own registry and lookups the template error cannot happen. */
  lemma DispatcherCoversRegistry()
    ensures forall c :: c in CentralRegistry.Categories ==>
      TemplateDispatch.GetContractTemplate(c.id).Ok? && TemplateDispatch.GetTestTemplate(c.id).Ok?
  {
    forall c | c in CentralRegistry.Categories
      ensures TemplateDispatch.GetContractTemplate(c.id).Ok? && TemplateDispatch.GetTestTemplate(c.id).Ok?
    {
      var i :| 0 <= i < |CentralRegistry.Categories| && CentralRegistry.Categories[i] == c;
      TemplateDispatch.DispatchDomain(c.id);
    }
  }

  lemma MergeUpdate(m: map<Path, Content>, d: map<Path, Content>, k: Path, v: Content)
    ensures (m + d)[k := v] == m + d[k := v]
  {
  }

  /** The seven writes, one after the other, add `WrittenFiles` to the
      files already there. */
  lemma WritesAsMerge(m: map<Path, Content>, projectDir: Path, o: Options, cat: CentralRegistry.Category,
                      c: TemplateDispatch.TemplateRef, t: TemplateDispatch.TemplateRef)
    ensures m[projectDir + ["package.json"] := Doc(PackageJson(o, cat))]
             [projectDir + ["hardhat.config.ts"] := Text(HardhatConfig)]
             [ContractPath(projectDir, cat.contractName) := Generated(c.fn)]
             [TestPath(projectDir, cat.contractName) := Generated(t.fn)]
             [projectDir + ["README.md"] := Generated(ReadmeOrigin)]
             [projectDir + [".env.example"] := Text(EnvExample)]
             [projectDir + [".gitignore"] := Text(GitIgnore)]
      == m + WrittenFiles(projectDir, o, cat, c, t)
  {
    var e: map<Path, Content> := map[];
    assert m == m + e;
    var p0, p1 := projectDir + ["package.json"], projectDir + ["hardhat.config.ts"];
    var p2, p3 := ContractPath(projectDir, cat.contractName), TestPath(projectDir, cat.contractName);
    var p4, p5, p6 := projectDir + ["README.md"], projectDir + [".env.example"], projectDir + [".gitignore"];
    var v0, v1, v2, v3 := Doc(PackageJson(o, cat)), Text(HardhatConfig), Generated(c.fn), Generated(t.fn);
    var v4, v5, v6 := Generated(ReadmeOrigin), Text(EnvExample), Text(GitIgnore);
    MergeUpdate(m, e, p0, v0);
    MergeUpdate(m, e[p0 := v0], p1, v1);
    MergeUpdate(m, e[p0 := v0][p1 := v1], p2, v2);
    MergeUpdate(m, e[p0 := v0][p1 := v1][p2 := v2], p3, v3);
    MergeUpdate(m, e[p0 := v0][p1 := v1][p2 := v2][p3 := v3], p4, v4);
    MergeUpdate(m, e[p0 := v0][p1 := v1][p2 := v2][p3 := v3][p4 := v4], p5, v5);
    MergeUpdate(m, e[p0 := v0][p1 := v1][p2 := v2][p3 := v3][p4 := v4][p5 := v5], p6, v6);
  }

  /** A successful `Assemble` is `Completed` after `Prepared`. */
  lemma AssembleOk(st: Store, projectDir: Path, o: Options, cat: CentralRegistry.Category,
                   contract: Result<TemplateDispatch.TemplateRef, TemplateDispatch.DispatchError>,
                   test: Result<TemplateDispatch.TemplateRef, TemplateDispatch.DispatchError>)
    requires Assemble(st, projectDir, o, cat, contract, test).result.Ok?
    ensures contract.Ok? && test.Ok?
    ensures Assemble(st, projectDir, o, cat, contract, test).store ==
      Completed(Prepared(st, projectDir, o, cat), projectDir, cat, contract.value, test.value)
  {
  }

  /** Once the templates are found the call adds exactly the four
      directories and the seven files, and changes nothing else. */
  lemma AssembleWritesExactly(st: Store, projectDir: Path, o: Options, cat: CentralRegistry.Category,
                              contract: Result<TemplateDispatch.TemplateRef, TemplateDispatch.DispatchError>,
                              test: Result<TemplateDispatch.TemplateRef, TemplateDispatch.DispatchError>)
    requires Assemble(st, projectDir, o, cat, contract, test).result.Ok?
    ensures contract.Ok? && test.Ok?
    ensures Assemble(st, projectDir, o, cat, contract, test).store ==
      Store(st.files + WrittenFiles(projectDir, o, cat, contract.value, test.value), st.dirs + CreatedDirs(projectDir))
  {
    AssembleOk(st, projectDir, o, cat, contract, test);
    WritesAsMerge(st.files, projectDir, o, cat, contract.value, test.value);
  }

  /** Adding files under `dir` to a store with nothing under `dir` changes
      nothing outside it and overwrites nothing. */
  lemma MergeUnder(st: Store, w: map<Path, Content>, dirs: set<Path>, dir: Path)
    requires !st.Exists(dir)
    requires forall k :: k in w ==> IsPrefix(dir, k)
    ensures SameOutside(st, Store(st.files + w, dirs), dir)
    ensures forall k :: k in st.files + w && IsPrefix(dir, k) ==> k !in st.files
  {
  }

  /** Every written path lies under the project directory. */
  lemma WrittenUnder(projectDir: Path, o: Options, cat: CentralRegistry.Category,
                     c: TemplateDispatch.TemplateRef, t: TemplateDispatch.TemplateRef)
    ensures forall k :: k in WrittenFiles(projectDir, o, cat, c, t) ==> IsPrefix(projectDir, k)
  {
    forall k | k in WrittenFiles(projectDir, o, cat, c, t)
      ensures IsPrefix(projectDir, k)
    {
      assert k[..|projectDir|] == projectDir;
    }
  }

  /** On a store where nothing lives under the project directory, a
      successful call creates only new files under it, and everything
      outside it is as before. */
  lemma AssembleFreshProject(st: Store, projectDir: Path, o: Options, cat: CentralRegistry.Category,
                             contract: Result<TemplateDispatch.TemplateRef, TemplateDispatch.DispatchError>,
                             test: Result<TemplateDispatch.TemplateRef, TemplateDispatch.DispatchError>)
    requires !st.Exists(projectDir)
    requires Assemble(st, projectDir, o, cat, contract, test).result.Ok?
    ensures var after := Assemble(st, projectDir, o, cat, contract, test).store;
      && SameOutside(st, after, projectDir)
      && (forall k :: k in after.files && IsPrefix(projectDir, k) ==> k !in st.files)
  {
    AssembleWritesExactly(st, projectDir, o, cat, contract, test);
    WrittenUnder(projectDir, o, cat, contract.value, test.value);
    MergeUnder(st, WrittenFiles(projectDir, o, cat, contract.value, test.value), st.dirs + CreatedDirs(projectDir), projectDir);
  }

  /** A successful call adds exactly the four directories and the seven
      files, with the templates the lookups return for the requested
      category; every file under the new directory is new and nothing
      outside it changes. */
  lemma CreateWritesExactly(reg: seq<CentralRegistry.Category>, contractOf: Lookup, testOf: Lookup,
                            st: Store, cwd: Path, o: Options)
    requires CreateIn(reg, contractOf, testOf, st, cwd, o).result.Ok?
    ensures var projectDir := ProjectDir(cwd, o.name);
      var after := CreateIn(reg, contractOf, testOf, st, cwd, o).store;
      && CheckIn(reg, st, cwd, o).Ok?
      && contractOf(o.category).Ok? && testOf(o.category).Ok?
      && after == Store(
           st.files + WrittenFiles(projectDir, o, CheckIn(reg, st, cwd, o).value,
                                   contractOf(o.category).value, testOf(o.category).value),
           st.dirs + CreatedDirs(projectDir))
      && SameOutside(st, after, projectDir)
      && (forall k :: k in after.files && IsPrefix(projectDir, k) ==> k !in st.files)
  {
    var cat := CheckIn(reg, st, cwd, o).value;
    var projectDir := ProjectDir(cwd, o.name);
    AssembleWritesExactly(st, projectDir, o, cat, contractOf(o.category), testOf(o.category));
    AssembleFreshProject(st, projectDir, o, cat, contractOf(o.category), testOf(o.category));
  }

  /** What `WrittenFiles` holds at the contract, test and manifest paths. */
  lemma WrittenFilesAt(projectDir: Path, o: Options, cat: CentralRegistry.Category,
                       c: TemplateDispatch.TemplateRef, t: TemplateDispatch.TemplateRef)
    ensures var w := WrittenFiles(projectDir, o, cat, c, t);
      && ContractPath(projectDir, cat.contractName) in w
      && w[ContractPath(projectDir, cat.contractName)] == Generated(c.fn)
      && TestPath(projectDir, cat.contractName) in w
      && w[TestPath(projectDir, cat.contractName)] == Generated(t.fn)
      && projectDir + ["package.json"] in w
      && w[projectDir + ["package.json"]] == Doc(PackageJson(o, cat))
  {
    WrittenPathsDistinct(projectDir, cat.contractName);
  }

  /** The contract and test files carry the templates registered for the
      category, under the record's contract name, and the manifest names the
      project and describes the category. */
  lemma AssembleContents(st: Store, projectDir: Path, o: Options, cat: CentralRegistry.Category,
                         contract: Result<TemplateDispatch.TemplateRef, TemplateDispatch.DispatchError>,
                         test: Result<TemplateDispatch.TemplateRef, TemplateDispatch.DispatchError>)
    requires Assemble(st, projectDir, o, cat, contract, test).result.Ok?
    ensures var files := Assemble(st, projectDir, o, cat, contract, test).store.files;
      var pkg := projectDir + ["package.json"];
      && ContractPath(projectDir, cat.contractName) in files
      && files[ContractPath(projectDir, cat.contractName)] == Generated(contract.value.fn)
      && TestPath(projectDir, cat.contractName) in files
      && files[TestPath(projectDir, cat.contractName)] == Generated(test.value.fn)
      && pkg in files && files[pkg].Doc? && files[pkg].json.JObject?
      && "name" in files[pkg].json.fields && files[pkg].json.fields["name"] == JString(o.name)
      && "description" in files[pkg].json.fields
      && files[pkg].json.fields["description"] == JString(cat.name + " - fhEVM example")
      && "keywords" in files[pkg].json.fields && files[pkg].json.fields["keywords"].JArray?
      && |files[pkg].json.fields["keywords"].items| == 3
      && files[pkg].json.fields["keywords"].items[2] == JString(ToLower(cat.name))
  {
    AssembleWritesExactly(st, projectDir, o, cat, contract, test);
    WrittenFilesAt(projectDir, o, cat, contract.value, test.value);
    PackageJsonFields(o, cat);
  }
}
