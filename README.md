# fhEVM Playground generator — a Dafny model

fhEVM Playground scaffolds Hardhat projects for fhEVM examples, one project
per example category. This project models the generator's core:

* the category tables of the published CLI (`create-fhevm-playground-pro`):
  the 31 CLI ids, the map from category id to example directory, and the pro
  flag that gates the innovative examples;
* the CLI's `create` and `guided` commands. `create` applies the unknown-id
  and pro checks. `guided` picks a list, validates the selection, derives the
  project name and runs the scaffolder;
* the published scaffolder. It copies the base template and looks for the
  premium example along a fixed list of search paths. It overlays that
  example's contracts and tests and rewrites the helper import and the
  `ethers`/`hardhat` import in the copied tests. When the example has
  tests and nothing is at `scripts/test-helpers.ts`, it writes a stub
  there. It removes the config variants and names the manifest and the
  README;
* the central repository's registry of 24 categories, its template
  dispatcher, its naming utilities, its `create` command and its scaffolder.
  The scaffolder checks unknown id, then pro, then an existing directory. It
  then writes `package.json`, the Hardhat config, the contract, the test,
  the README, `.env.example` and `.gitignore`;
* the batch script that moves `@zama.ai/fhevm` to a new version in every
  example's `package.json`;
* the stub test helpers bundled with the base template;
* the showcase page: its catalogue, tag colours, filter, search and
  "copy CLI" command.

The file system is a value (`Files.Store`): files by path, each holding
text, a JSON document or the output of a named template function, plus the
explicitly created directories. The scaffolders and the batch script work
on it in place through the class `Files.FileStore`. Each such method is
proved to reach the state that a pure function of the old state describes.
The lemmas then state what that function guarantees: which files exist
afterwards, what they hold, and that nothing outside the project directory
changes.

Some behaviour of the code that a reader might not expect:

* The contract file name does not come from the PascalCase of the project
  name. The central scaffolder uses the registry's `contractName`, and the
  published one copies the example's files as they are.
  `NameUtils.PascalCaseLosesAcronyms` shows why: the plain PascalCase of
  `blind-dex-pro` is `BlindDexPro`, not the registry's `BlindDEXPro`.
* The central scaffolder checks the category, then the pro flag, then the
  directory (`CentralScaffolder.CheckOrder`).
* Failures after the project directory exists are not turned into
  warnings. A `package.json` that cannot be read as JSON, and a `README.md`
  that is a directory, make the published scaffolder throw. An id the
  template dispatcher does not know makes the central scaffolder throw.
* The helper-import regular expression has no `g` flag, so only the first
  matching import in a test file is rewritten
  (`ImportRewrite.FindImportSpec`).

## Model

| member | source | states |
|---|---|---|
| Basics.LowerChar | central-repo/src/utils.ts:20 | an upper-case ASCII letter maps to its lower-case letter; any other character is kept |
| Basics.UpperChar | central-repo/src/utils.ts:22 | a lower-case ASCII letter maps to its upper-case letter; any other character is kept |
| Basics.ToLower | central-repo/src/utils.ts:20 | `toLowerCase` keeps the length and lower-cases each character on its own |
| Basics.FindFirst | create-fhevm-playground-pro/src/create-example.ts:35 | `Array.find` is None exactly when no element satisfies the predicate; otherwise it gives the element at the first index that does |
| Basics.FindFirstAt | create-fhevm-playground-pro/src/create-example.ts:35 | when index `i` is the first to satisfy the predicate, `Array.find` returns the element there |
| Basics.Filter | script.js:388 | `Array.filter` never returns more elements than it is given |
| Basics.FilterSpec | script.js:388 | the filter result is a subsequence of the input, every kept element satisfies the predicate, and each value keeps all its satisfying occurrences |
| Basics.FilterMonotone | script.js:431-438 | filtering with a weaker predicate keeps a superset: the stricter result is a subsequence of the looser one |
| Files.Parent | create-fhevm-playground-pro/src/scaffolder.ts:79 | `path.resolve(p, '..')` is `p` without its last component, and the root is its own parent |
| Files.MovedFrom | create-fhevm-playground-pro/src/scaffolder.ts:65 | every path a copy creates lies under the destination and comes from the matching path under the source |
| Files.Store.Write | create-fhevm-playground-pro/src/scaffolder.ts:147 | after a write the file exists with the written content, every other file keeps its content, and no other file appears |
| Files.Store.MakeDir | create-fhevm-playground-pro/src/scaffolder.ts:154 | after creating a directory it exists, it is the only directory added, and every file keeps its content |
| Files.Store.Remove | create-fhevm-playground-pro/src/scaffolder.ts:184 | after a removal the path no longer exists, and the files left are exactly those not under it |
| Files.Store.Copy | create-fhevm-playground-pro/src/scaffolder.ts:65 | after a copy the destination exists, and the files are the old ones plus the source's files moved under the destination |
| Files.WriteInside | create-fhevm-playground-pro/src/scaffolder.ts:147 | a write under a directory changes nothing outside it |
| Files.RemoveInside | create-fhevm-playground-pro/src/scaffolder.ts:184 | a removal under a directory changes nothing outside it |
| Files.CopyInside | create-fhevm-playground-pro/src/scaffolder.ts:122-126 | a copy into a directory changes nothing outside it |
| Files.CopyPlaces | create-fhevm-playground-pro/src/scaffolder.ts:122-126 | every file under the source is found, with its content, at the matching path under the destination, overwriting what was there |
| Files.CopyKeeps | create-fhevm-playground-pro/src/scaffolder.ts:121 | a copy leaves every path outside the destination as it was |
| Files.CopyExists | create-fhevm-playground-pro/src/scaffolder.ts:121 | after a copy, whatever existed still exists, a path below the destination exists when its counterpart below the source did, and nothing else appears but the ancestors of the destination |
| Files.ExistsUp | create-fhevm-playground-pro/src/scaffolder.ts:62 | a path that exists makes its ancestors exist |
| Files.FileStore.constructor | create-fhevm-playground-pro/src/scaffolder.ts:54 | the store starts with the given files and directories |
| Files.FileStore.WriteFile | create-fhevm-playground-pro/src/scaffolder.ts:147 | the new state is the old state with the write applied |
| Files.FileStore.EnsureDir | create-fhevm-playground-pro/src/scaffolder.ts:154 | the new state is the old state with the directory created |
| Files.FileStore.Remove | create-fhevm-playground-pro/src/scaffolder.ts:184 | the new state is the old state with the path removed |
| Files.FileStore.CopyTree | create-fhevm-playground-pro/src/scaffolder.ts:65 | the new state is the old state with the tree copied |
| NameUtils.AllNameChars | central-repo/src/utils.ts:10 | true exactly when every character is a letter, digit, `-` or `_` |
| NameUtils.MatchesNamePattern | central-repo/src/utils.ts:10 | `/^[a-zA-Z0-9_-]+$/` holds exactly when the name is non-empty and every character is in the class |
| NameUtils.EnsureValidProjectName | central-repo/src/utils.ts:8-13 | a name is accepted exactly when it has 1 to 100 characters, all letters, digits, `_` or `-` |
| NameUtils.DropSeparators | central-repo/src/utils.ts:21 | the result is a suffix of the input, strictly shorter when the input starts with a separator |
| NameUtils.DropSeparatorsSpec | central-repo/src/utils.ts:21 | the result is empty or starts with a non-separator, and the dropped prefix consists of separators only |
| NameUtils.Split | central-repo/src/utils.ts:21 | `split(/[-_\s]+/)` returns at least one piece |
| NameUtils.SplitCons | central-repo/src/utils.ts:21 | a non-separator character joins the first piece of the rest |
| NameUtils.SplitRun | central-repo/src/utils.ts:21 | a leading run of separators gives an empty first piece followed by the pieces of the rest |
| NameUtils.SplitKeeps | central-repo/src/utils.ts:21 | a property that every non-separator character of the input has, every character of every piece has |
| NameUtils.SplitPieces | central-repo/src/utils.ts:21 | no piece of the split contains a separator |
| NameUtils.SplitNoUpper | central-repo/src/utils.ts:20-21 | splitting lower-cased text gives pieces with no upper-case letter |
| NameUtils.Capitalize | central-repo/src/utils.ts:22 | the first character is upper-cased and the rest kept, same length |
| NameUtils.ToPascalCase | central-repo/src/utils.ts:18-24 | the PascalCase form contains no separator |
| NameUtils.JoinCapitalizedKeepsWords | central-repo/src/utils.ts:22-23 | joining capitalised pieces that hold no separator gives a text with no separator |
| NameUtils.RemoveSeparators | central-repo/src/utils.ts:21-23 | removing the separators never lengthens the text |
| NameUtils.ConcatSplit | central-repo/src/utils.ts:21-23 | concatenating the pieces of the split is the text with its separators removed |
| NameUtils.ToLowerCapitalize | central-repo/src/utils.ts:20-22 | lower-casing a capitalised lower-case word gives the word back |
| NameUtils.ToLowerJoinCapitalized | central-repo/src/utils.ts:22-23 | lower-casing the joined capitalised pieces gives the plain concatenation |
| NameUtils.PascalCaseLowered | central-repo/src/utils.ts:18-24 | the lower-cased PascalCase form is the lower-cased input without its separators: no letter is lost or reordered |
| NameUtils.RemoveSeparatorsLength | central-repo/src/utils.ts:21-23 | removing separators shortens the text by the number of separators |
| NameUtils.SeparatorCountToLower | central-repo/src/utils.ts:20-21 | lower-casing keeps the number of separators |
| NameUtils.PascalCaseLength | central-repo/src/utils.ts:18-24 | the PascalCase form is as long as the input minus its separators |
| NameUtils.PascalCaseInitial | central-repo/src/utils.ts:18-24 | when the input starts with a letter, the PascalCase form starts with that letter in upper case |
| NameUtils.SplitKebab | central-repo/src/utils.ts:21 | a three-word kebab-case name of lower-case words splits into its three words |
| NameUtils.PascalCaseOfKebab | central-repo/src/utils.ts:18-24 | `a-b-c` with lower-case words gives the three words capitalised and joined |
| NameUtils.PascalCaseLosesAcronyms | central-repo/src/utils.ts:18-24 | `blind-dex-pro` gives `BlindDexPro`, so the registry's `BlindDEXPro` cannot come from it |
| NameUtils.PascalCaseByCharacter | central-repo/src/utils.ts:18-24 | the PascalCase form is the lower-cased input with every separator dropped and exactly the characters that start a piece (first, or right after a separator) upper-cased |
| NameUtils.JoinCapitalizedSplit | central-repo/src/utils.ts:18-24 | splitting on separator runs, capitalising each piece and joining agrees with that character-by-character reading |
| NameUtils.CapitalizeStartsAfterRun | central-repo/src/utils.ts:18-24 | a run of several separators reads as one piece boundary |
| NameUtils.CapitalizeStartsWord | central-repo/src/utils.ts:18-24 | a separator-free word is kept, only its first character upper-cased when it starts a piece |
| NameUtils.PascalCaseMixed | central-repo/src/utils.ts:18-24 | `Foo_BAR baz` gives `FooBarBaz`: mixed separators and letter case |
| NameUtils.SplitWord | central-repo/src/utils.ts:21 | a word without separators splits into itself |
| NameUtils.SplitWordThenRun | central-repo/src/utils.ts:21 | a word followed by separators and more text splits into the word and the pieces of the rest |
| NameUtils.ToCamelCase | central-repo/src/utils.ts:29-32 | the camelCase form does not start with an upper-case letter |
| NameUtils.CamelCaseAgreesWithPascalCase | central-repo/src/utils.ts:29-32 | camelCase has the PascalCase form's length, the same characters after the first, and the same lower-cased text |
| NameUtils.GetContractClassName | central-repo/src/utils.ts:37-39 | the contract class name holds no separator |
| NameUtils.GetTestClassName | central-repo/src/utils.ts:44-46 | the test class name is the contract class name followed by `Test` |
| CentralRegistry.FindCategory | central-repo/src/scaffolder.ts:20 | the lookup is None exactly when no registry record has the id; otherwise the record has that id |
| CentralRegistry.FindIn | central-repo/src/scaffolder.ts:20 | `find` by id in any record list: None iff no record has the id, else a record with that id |
| CentralRegistry.RegistryLayout | central-repo/dist/src/templates-part1.js:9-228 | the registry holds 24 records, 17 non-pro followed by 7 pro |
| CentralRegistry.IdsDistinct | central-repo/dist/src/templates-part1.js:9-228 | no two registry records share an id |
| CentralRegistry.FindInRoundTrip | central-repo/src/scaffolder.ts:20 | in a list with distinct ids, looking up a record's id finds that record |
| CentralRegistry.FindCategoryRoundTrip | central-repo/dist/src/templates-part1.js:9-228 | looking up the id of any registry record finds exactly that record |
| CentralRegistry.ProRecordsShape | central-repo/dist/src/templates-part1.js:165-227 | every pro record is Expert, has an id ending in `-pro` and a contract name ending in `Pro` |
| TemplateDispatch.SelectCase | central-repo/dist/src/templates-index.js:19-73 | a switch case is found exactly when some case has the label, and the found case carries it |
| TemplateDispatch.SelectIn | central-repo/dist/src/templates-index.js:19-73 | in any case list, the found case is one with the label; none is found iff no case has it (the default branch) |
| TemplateDispatch.GetContractTemplate | central-repo/dist/src/templates-index.js:17-75 | a known id yields a template function from parts 1 to 5; otherwise the default throws `Unknown category` |
| TemplateDispatch.GetTestTemplate | central-repo/dist/src/templates-index.js:80-143 | a known id yields a test template function from parts 1 to 5; otherwise the default throws |
| TemplateDispatch.CasesShape | central-repo/dist/src/templates-index.js:17-71 | the switch has 24 cases, each dispatching to parts 1 to 5; the first three go to part 1 and no others do |
| TemplateDispatch.LabelsAreRegistryIds | central-repo/dist/src/templates-index.js:19-71 | the switch labels are exactly the registry ids, in registry order |
| TemplateDispatch.TemplateFunctionsDistinct | central-repo/dist/src/templates-index.js:19-71 | no two cases return the same template function |
| TemplateDispatch.DispatchDomain | central-repo/dist/src/templates-index.js:17-142 | a contract template exists exactly for the registry ids, and a test template exactly when a contract template does |
| TemplateDispatch.SelectInInjective | central-repo/dist/src/templates-index.js:19-71 | with distinct labels and distinct functions, different labels select different functions |
| TemplateDispatch.DispatchInjective | central-repo/dist/src/templates-index.js:19-71 | different categories get different contract templates and different test templates |
| TemplateDispatch.Part1Table | central-repo/dist/src/templates-part1.js:232-578 | the first three cases' contract templates declare, and their test templates deploy, the contract name of the registry record at the same index |
| TemplateDispatch.Part1MatchesIn | central-repo/dist/src/templates-part1.js:243-578 | in any case list aligned with a registry of distinct ids, a part-1 case found for an id declares and deploys that id's `contractName` |
| TemplateDispatch.Part1Aligned | central-repo/dist/src/templates-part1.js:243-578 | every part-1 case declares and deploys the contract name of the registry record at its index |
| TemplateDispatch.Part1MatchesRegistry | central-repo/dist/src/templates-part1.js:243-578 | for every id dispatched to part 1, the generated contract declares the registry's `contractName` and the test deploys its factory |
| CentralScaffolder.ProjectDir | central-repo/src/scaffolder.ts:19 | the project directory is the working directory extended by the project name |
| CentralScaffolder.CheckOrder | central-repo/src/scaffolder.ts:20-33 | the result is an unknown-category error iff the id is not in the registry; a pro error iff it is pro without the flag; a directory error iff it exists and the earlier checks passed |
| CentralScaffolder.ProGate | central-repo/src/scaffolder.ts:26-28 | for a registry id, the pro check passes exactly when the category is not pro or the flag is set |
| CentralScaffolder.PackageJsonFields | central-repo/src/scaffolder.ts:45-77 | the manifest carries the name, the description `<name> - fhEVM example`, three keywords ending with the lower-cased category name, and the `@zama.ai/fhevm` dependency |
| CentralScaffolder.WrittenPathsDistinct | central-repo/src/scaffolder.ts:77-109 | the seven written paths are pairwise distinct |
| CentralScaffolder.SevenFiles | central-repo/src/scaffolder.ts:77-109 | the written-file map has exactly seven entries |
| CentralScaffolder.SevenDistinct | central-repo/src/scaffolder.ts:77-109 | seven pairwise-distinct paths form a set of seven |
| CentralScaffolder.CreateExample | central-repo/src/scaffolder.ts:18-122 | the method's result and final store are those of the specification `CreateIn` |
| CentralScaffolder.RejectionsBeforeMutation | central-repo/src/scaffolder.ts:20-38 | a failed check returns its error with the store unchanged; an existing project directory always leaves the store unchanged |
| CentralScaffolder.ChecksSuffice | central-repo/src/scaffolder.ts:20-92 | when every registry id has both templates, the call succeeds exactly when the checks pass, and it returns the project directory |
| CentralScaffolder.DispatcherCoversRegistry | central-repo/dist/src/templates-index.js:17-142 | every registry id has both a contract and a test template |
| CentralScaffolder.WritesAsMerge | central-repo/src/scaffolder.ts:77-109 | the seven writes, in source order, leave the old files merged with the written-file map |
| CentralScaffolder.AssembleOk | central-repo/src/scaffolder.ts:38-109 | a successful assembly had both templates, and its store is the prepared store completed with them |
| CentralScaffolder.AssembleWritesExactly | central-repo/src/scaffolder.ts:38-109 | a successful assembly adds exactly the written files and created directories |
| CentralScaffolder.WrittenUnder | central-repo/src/scaffolder.ts:77-109 | every written file lies under the project directory |
| CentralScaffolder.AssembleFreshProject | central-repo/src/scaffolder.ts:31-109 | when the project directory did not exist, a successful assembly changes nothing outside it and every file under it is new |
| CentralScaffolder.CreateWritesExactly | central-repo/src/scaffolder.ts:18-122 | on success the store is the old store plus exactly the written files and directories, nothing outside the project changes, and every file under it is new |
| CentralScaffolder.WrittenFilesAt | central-repo/src/scaffolder.ts:85-92 | the contract and test go to `contracts/<contractName>.sol` and `test/<contractName>.test.ts` with the dispatched templates, the manifest to `package.json` |
| CentralScaffolder.AssembleContents | central-repo/src/scaffolder.ts:85-92 | after success the contract and test hold the dispatched templates' output, and the manifest carries the name, the description and the lower-cased keyword |
| CentralCli.CreateGateSpec | central-repo/bin/create-fhevm-playground-pro.ts:25-40 | an id outside `DEFAULT_CATEGORIES` is rejected; a pro id is rejected iff `--pro` is not given as true; the forwarded pro flag is true exactly when `--pro` was true |
| CentralCli.CreateCommandExits | central-repo/bin/create-fhevm-playground-pro.ts:21-51 | a rejection exits with 1 and leaves the store unchanged; otherwise the exit code is 0 iff the scaffolder succeeds |
| CentralCli.GateAgreesWithScaffolder | central-repo/bin/create-fhevm-playground-pro.ts:25-40 | when the two tables agree on the id, a call that passes the gate can only fail the scaffolder's directory check |
| CentralCli.ExistingProjectUntouched | central-repo/bin/create-fhevm-playground-pro.ts:36-50 | an existing project directory gives exit code 1 and an unchanged file system, whatever the tables and flags |
| CliCategories.FindCliCategory | create-fhevm-playground-pro/src/templates-index.ts:5-40 | None exactly when no CLI entry has the id; otherwise an entry with that id |
| CliCategories.FindIn | create-fhevm-playground-pro/src/create-example.ts:35 | `find` by id in any list: None iff no entry has it, else an entry with it |
| CliCategories.ExampleDirOf | create-fhevm-playground-pro/src/scaffolder.ts:68 | the directory-map lookup is None iff the id is not a key; otherwise the value of an entry with that key |
| CliCategories.LookupIn | create-fhevm-playground-pro/src/scaffolder.ts:68 | a lookup in any entry list is None iff no entry has the key, else the value of an entry with it |
| CliCategories.ResolveExampleDir | create-fhevm-playground-pro/src/scaffolder.ts:68 | the example directory is the mapped one when the id is one of the listed keys, and the id itself otherwise |
| CliCategories.CliLayout | create-fhevm-playground-pro/src/templates-index.ts:5-40 | the CLI table holds 31 entries: 12 core, then 7 pro, then 12 aliases |
| CliCategories.CliIdsDistinct | create-fhevm-playground-pro/src/templates-index.ts:5-40 | no two CLI entries share an id |
| CliCategories.IdsDistinctWithin | create-fhevm-playground-pro/src/templates-index.ts:7-39 | the ids among the first 19 entries, and among the 12 aliases, are pairwise distinct |
| CliCategories.IdsDistinctAcross | create-fhevm-playground-pro/src/templates-index.ts:7-39 | no id of the first 19 entries is also an alias id |
| CliCategories.EntriesFollowIds | create-fhevm-playground-pro/src/scaffolder.ts:12-46 | the directory map has one entry per CLI id, in table order, each naming a non-empty directory |
| CliCategories.LookupInRoundTrip | create-fhevm-playground-pro/src/scaffolder.ts:68 | in an entry list with distinct keys, looking up an entry's key gives its value |
| CliCategories.ValidatedIdsUseTable | create-fhevm-playground-pro/src/scaffolder.ts:12-46 | every CLI id resolves through its directory-map entry, never through the id fallback |
| CliCategories.DirectoryKeysAreIds | create-fhevm-playground-pro/src/scaffolder.ts:12-46 | every directory-map key is a CLI id |
| CliCategories.ProFollowsDirectory | create-fhevm-playground-pro/src/templates-index.ts:7-39 | a CLI entry is pro exactly when its example directory is one of the seven pro directories |
| CliCategories.FindInRoundTrip | create-fhevm-playground-pro/src/create-example.ts:35 | in a list with distinct ids, finding an entry's id gives that entry |
| CliCategories.AlignedGate | create-fhevm-playground-pro/src/create-example.ts:35-39 | for any aligned tables, two ids that resolve to the same directory carry the same pro flag |
| CliCategories.AlignedKeysDistinct | create-fhevm-playground-pro/src/scaffolder.ts:12-46 | for any aligned tables, the directory map's keys are distinct |
| CliCategories.TablesAligned | create-fhevm-playground-pro/src/templates-index.ts:5-40 | the CLI table, the directory map and the pro directories are aligned: distinct ids, the same ids in the same order, non-empty directories, and pro exactly for the pro directories |
| CliCategories.AliasCannotBypassProGate | create-fhevm-playground-pro/src/templates-index.ts:27-39 | two CLI ids that resolve to the same example directory carry the same pro flag, so no alias reaches a pro example without the pro gate |
| CliCategories.ProFollowsName | create-fhevm-playground-pro/src/templates-index.ts:7-39 | a CLI entry is pro exactly when its display name ends with ` Pro` |
| CliCategories.YieldFarmingEntries | create-fhevm-playground-pro/src/templates-index.ts:24-39 | the entries for `yield-farming-pro`, `private-yield` and `yield-farming` all map to the `private-yield` directory |
| CliCategories.YieldFarmingAliases | create-fhevm-playground-pro/src/scaffolder.ts:30-45 | all three yield-farming ids resolve to the `private-yield` example |
| ProCli.CreateGateSpec | create-fhevm-playground-pro/src/create-example.ts:29-41 | an id is rejected as unknown iff no entry has it, and as pro-only iff the entry found is pro and the flag is off; otherwise the scaffolder gets exactly the name, the category and the flag |
| ProCli.CreateCommandExits | create-fhevm-playground-pro/src/create-example.ts:25-51 | a rejection exits with 1 and leaves the store unchanged; otherwise the exit code is 0 iff the scaffolder succeeds |
| ProCli.ChoiceDecidesListAndFlag | create-fhevm-playground-pro/src/create-example.ts:108-139 | the pro flag only ever comes with the pro list; the two offered answers give the core list without the flag and the pro list with it |
| ProCli.ListsFollowTable | create-fhevm-playground-pro/src/create-example.ts:83-106 | the core list holds the non-pro ids and the pro list the pro ids of the CLI table |
| ProCli.DecimalString | create-fhevm-playground-pro/src/create-example.ts:124 | `toString()` of a number is a non-empty string of digits |
| ProCli.DecimalRoundTrip | create-fhevm-playground-pro/src/create-example.ts:121-127 | reading back the decimal text of a number gives the number |
| ProCli.ParseSelection | create-fhevm-playground-pro/src/create-example.ts:122 | a parsed selection is never negative |
| ProCli.ValidateSpec | create-fhevm-playground-pro/src/create-example.ts:121-127 | the prompt accepts exactly the integers from 1 to the list length, and accepts the decimal text of each |
| ProCli.AcceptedSelectionInRange | create-fhevm-playground-pro/src/create-example.ts:131-136 | an accepted selection indexes the list, so the invalid-selection exit is unreachable through the prompt |
| ProCli.ProjectNameShape | create-fhevm-playground-pro/src/create-example.ts:138 | the project name is the id's `[a-z0-9-]` characters, in order, followed by `-example` |
| ProCli.ProjectNameOfKebab | create-fhevm-playground-pro/src/create-example.ts:138 | an id made only of `[a-z0-9-]` characters gives `<id>-example` |
| ProCli.ListedProjectNames | create-fhevm-playground-pro/src/create-example.ts:83-138 | every id the guided lists offer gives the project name `<id>-example` |
| ProCli.GuidedOutcome | create-fhevm-playground-pro/src/create-example.ts:131-167 | the guided command leaves the scaffolder's store; it exits 0 iff scaffolding succeeds, and warns iff it succeeds and the install fails |
| ProScaffolder.Climb | create-fhevm-playground-pro/src/scaffolder.ts:76-80 | one climb yields five candidates |
| ProScaffolder.BuildSearchPaths | create-fhevm-playground-pro/src/scaffolder.ts:73-95 | the method returns exactly the specification's search paths |
| ProScaffolder.SearchPathsShape | create-fhevm-playground-pro/src/scaffolder.ts:73-95 | five candidates below successive ancestors of the module directory, then five below those of the working directory, then three under the home directory when it is set; every candidate ends in `central-repo/examples/<dir>-premium` |
| ProScaffolder.FirstExisting | create-fhevm-playground-pro/src/scaffolder.ts:97-104 | the method returns the specification's first existing candidate |
| ProScaffolder.FirstExistingIsFirst | create-fhevm-playground-pro/src/scaffolder.ts:97-112 | a found candidate exists and every earlier one does not; none is found iff no candidate exists |
| ProScaffolder.RewriteTestText | create-fhevm-playground-pro/src/scaffolder.ts:133-147 | rewriting a test text never lengthens it |
| ProScaffolder.RewriteTests | create-fhevm-playground-pro/src/scaffolder.ts:130-148 | the rewrite keeps every directory and the same set of files |
| ProScaffolder.RewriteTestsTouchesOnlySources | create-fhevm-playground-pro/src/scaffolder.ts:130 | a text file under the test directory ending in `.ts` or `.js` gets the rewritten text, and every other file keeps its content |
| ProScaffolder.RewriteTestFiles | create-fhevm-playground-pro/src/scaffolder.ts:130-148 | the method leaves the store the specification's rewrite gives |
| ProScaffolder.RemoveConfigs | create-fhevm-playground-pro/src/scaffolder.ts:179-186 | the method leaves the store the specification's removal gives |
| ProScaffolder.RemoveEachRemoves | create-fhevm-playground-pro/src/scaffolder.ts:180-186 | after the removals none of the named configs exists |
| ProScaffolder.RemoveKeepsAbsent | create-fhevm-playground-pro/src/scaffolder.ts:184 | a removal does not bring back a path that was absent |
| ProScaffolder.RemoveEachInside | create-fhevm-playground-pro/src/scaffolder.ts:179-186 | the removals change nothing outside the project directory |
| ProScaffolder.CreateExample | create-fhevm-playground-pro/src/scaffolder.ts:54-212 | the method's result and final store are those of the specification `Scaffold` |
| ProScaffolder.ExistingTargetUntouched | create-fhevm-playground-pro/src/scaffolder.ts:55-58 | an existing project directory is rejected and the store is unchanged |
| ProScaffolder.FinishResults | create-fhevm-playground-pro/src/scaffolder.ts:188-203 | the finishing steps succeed with the project directory, or fail only with a not-a-file or not-an-object error |
| ProScaffolder.RejectionsBeforeMutation | create-fhevm-playground-pro/src/scaffolder.ts:55-65 | the target-exists error occurs iff the project directory exists, the missing-template error iff it does not and the base template is missing, and both leave the store unchanged |
| ProScaffolder.AddHelperStubInside | create-fhevm-playground-pro/src/scaffolder.ts:150-173 | adding the helper stub changes nothing outside the project directory |
| ProScaffolder.RewriteTestsInside | create-fhevm-playground-pro/src/scaffolder.ts:130-148 | the test rewrite changes nothing outside the test directory |
| ProScaffolder.OverlayInside | create-fhevm-playground-pro/src/scaffolder.ts:114-174 | the overlay changes nothing outside the project directory |
| ProScaffolder.PopulatedInside | create-fhevm-playground-pro/src/scaffolder.ts:60-177 | copying the base template and the overlay change nothing outside the project directory |
| ProScaffolder.FinishInside | create-fhevm-playground-pro/src/scaffolder.ts:188-203 | the manifest and README steps change nothing outside the project directory |
| ProScaffolder.FinishKeepsAbsent | create-fhevm-playground-pro/src/scaffolder.ts:188-203 | a path that was absent and is not a prefix of the manifest or README stays absent |
| ProScaffolder.FinishWritesHeaders | create-fhevm-playground-pro/src/scaffolder.ts:188-203 | after success an object manifest carries the name and the scaffolded description, and an existing README is text that starts with the header |
| ProScaffolder.ScaffoldStaysInside | create-fhevm-playground-pro/src/scaffolder.ts:54-203 | whatever the outcome, nothing outside the project directory changes |
| ProScaffolder.ScaffoldRemovesConfigVariants | create-fhevm-playground-pro/src/scaffolder.ts:179-186 | after success neither `hardhat.config.ts` nor `hardhat.config.cjs` exists in the project |
| ProScaffolder.FinishRemovesConfigVariants | create-fhevm-playground-pro/src/scaffolder.ts:179-203 | after the removals, the manifest and README steps do not bring a config variant back |
| ProScaffolder.ScaffoldNamesManifest | create-fhevm-playground-pro/src/scaffolder.ts:188-195 | after success an object manifest carries the project name and the description `<category> - fhEVM example (scaffolded)` |
| ProScaffolder.ScaffoldHeadsReadme | create-fhevm-playground-pro/src/scaffolder.ts:197-203 | after success an existing README is text that starts with `# <name>` and the category line |
| ProScaffolder.WithTestsRewrites | create-fhevm-playground-pro/src/scaffolder.ts:125-148 | a `.ts` or `.js` test of the example is found in the project's `test/` holding the rewrite of its text |
| ProScaffolder.ScaffoldOverlaysContracts | create-fhevm-playground-pro/src/scaffolder.ts:120-123 | after a successful scaffold, each file of the found example's `contracts/` is in the project's `contracts/` with the example's content, over what the base template put there |
| ProScaffolder.ScaffoldRewritesTests | create-fhevm-playground-pro/src/scaffolder.ts:124-147 | after a successful scaffold, each `.ts` or `.js` test of the found example is in the project's `test/` holding the rewrite of its text |
| ProScaffolder.ScaffoldWithoutExample | create-fhevm-playground-pro/src/scaffolder.ts:175-177 | when no example is found, every project path other than the config variants, the manifest and the README holds a file exactly when the base template does, with the same content |
| ProScaffolder.ScaffoldWritesHelperStub | create-fhevm-playground-pro/src/scaffolder.ts:149-172 | when the example found has a `test/` directory, the project ends with `scripts/test-helpers.ts` exactly when the base template has that file or nothing at that place; it holds the template's file in the first case and the stub in the second |
| ProScaffolder.ScaffoldWithExampleKeepsBase | create-fhevm-playground-pro/src/scaffolder.ts:65 | when an example is found, every project path outside `contracts/`, `test/`, the helper stub, the config variants, the manifest and the README holds a file exactly when the base template does, with the same content |
| ProScaffolder.PopulatedHelperStub | create-fhevm-playground-pro/src/scaffolder.ts:149-172 | after the overlay the stub's place holds the template's file when there is one, and the stub when nothing is there |
| ProScaffolder.PopulatedWithExampleKeepsBase | create-fhevm-playground-pro/src/scaffolder.ts:120-172 | the overlay keeps the base template copy everywhere but `contracts/`, `test/` and the stub |
| ProScaffolder.BaseCopyStub | create-fhevm-playground-pro/src/scaffolder.ts:65 | after the template copy, the stub's place exists, and holds a file, exactly as the template's `scripts/test-helpers.ts` does |
| ProScaffolder.WithContractsStub | create-fhevm-playground-pro/src/scaffolder.ts:120-123 | the contracts overlay leaves the stub's place as it was and makes nothing stop existing |
| ProScaffolder.WithTestsStub | create-fhevm-playground-pro/src/scaffolder.ts:124-172 | the test overlay writes the stub exactly when nothing is at its place, and otherwise keeps what is there |
| ProScaffolder.AddHelperStubAt | create-fhevm-playground-pro/src/scaffolder.ts:149-172 | the stub is written exactly when nothing is at its place; a file already there is kept |
| ProScaffolder.PopulatedOverlaysContracts | create-fhevm-playground-pro/src/scaffolder.ts:120-123 | after the copies, the example's contract files are in the project's `contracts/` |
| ProScaffolder.PopulatedRewritesTests | create-fhevm-playground-pro/src/scaffolder.ts:124-147 | after the copies and the rewrite, the example's test sources are in the project's `test/`, rewritten |
| ProScaffolder.PopulatedWithoutExample | create-fhevm-playground-pro/src/scaffolder.ts:65 | without an example, the project after the copy is the base template at the same relative paths |
| ProScaffolder.CopyTreeAt | create-fhevm-playground-pro/src/scaffolder.ts:65 | copying a tree to a new path puts each file of the source at the same relative path, and nothing else there |
| ProScaffolder.LateStepsKeep | create-fhevm-playground-pro/src/scaffolder.ts:180-203 | the config removal and the manifest and README steps keep every other project file as it was |
| ProScaffolder.RemoveEachKeeps | create-fhevm-playground-pro/src/scaffolder.ts:180-186 | the config removals keep every file outside the removed paths |
| ProScaffolder.FinishKeeps | create-fhevm-playground-pro/src/scaffolder.ts:189-203 | the manifest and README steps keep every other file |
| ProScaffolder.WithTestsKeeps | create-fhevm-playground-pro/src/scaffolder.ts:124-172 | the test overlay keeps every path outside the project's `test/` other than the helper stub: it holds a file afterwards exactly when it did before, with the same content |
| ImportRewrite.SpaceRun | create-fhevm-playground-pro/src/scaffolder.ts:137 | the whitespace run from a position covers only whitespace and stops at the first other character or the end |
| ImportRewrite.NonBraceRun | create-fhevm-playground-pro/src/scaffolder.ts:137 | the run of characters other than `}` stops at the first `}` or the end |
| ImportRewrite.FromClauseAt | create-fhevm-playground-pro/src/scaffolder.ts:137 | a matched `from` clause ends within the text, right after an occurrence of the quoted path |
| ImportRewrite.ImportMatchAt | create-fhevm-playground-pro/src/scaffolder.ts:137 | a match at a position has a non-empty binding list after `import {` and ends within the text right after the quoted path |
| ImportRewrite.FindImport | create-fhevm-playground-pro/src/scaffolder.ts:136-139 | a found match starts at or after the search start, where the pattern matches; a match at the start itself is the one found |
| ImportRewrite.FindImportSpec | create-fhevm-playground-pro/src/scaffolder.ts:136-139 | the found match is the leftmost one; nothing is found iff the pattern matches nowhere |
| ImportRewrite.RewriteImportKeeps | create-fhevm-playground-pro/src/scaffolder.ts:136-139 | text without a match is returned unchanged |
| ImportRewrite.RewriteHelperImportSpec | create-fhevm-playground-pro/src/scaffolder.ts:136-139 | the helper rewrite changes the text iff it holds a match, and a change makes it shorter |
| ImportRewrite.ReplacementSafe | create-fhevm-playground-pro/src/scaffolder.ts:138 | the replacement's head and tail cannot take part in a new occurrence of the quoted helper path |
| ImportRewrite.RewriteRemovesSource | create-fhevm-playground-pro/src/scaffolder.ts:136-139 | when the quoted path occurs once, the rewritten text no longer contains it |
| ImportRewrite.RewriteImportIdempotent | create-fhevm-playground-pro/src/scaffolder.ts:136-139 | when the quoted path occurs at most once, rewriting twice is rewriting once |
| ImportRewrite.HelperRewriteIdempotent | create-fhevm-playground-pro/src/scaffolder.ts:136-139 | the same for the helper path and its replacement |
| ImportRewrite.LastNewline | create-fhevm-playground-pro/src/scaffolder.ts:145 | the last newline in a range, and none iff the range holds no newline |
| ImportRewrite.NewlineTail | create-fhevm-playground-pro/src/scaffolder.ts:145 | the `\s*;?\n` tail from a position ends at a newline, with only whitespace and at most a final `;` before it |
| ImportRewrite.NewlineTailFails | create-fhevm-playground-pro/src/scaffolder.ts:145 | when the tail fails, every later newline has some non-whitespace character before it |
| ImportRewrite.EthersFromAt | create-fhevm-playground-pro/src/scaffolder.ts:145 | a matched `ethers } from` clause ends after the brace and within the text |
| ImportRewrite.HardhatMatchAt | create-fhevm-playground-pro/src/scaffolder.ts:145 | a match tried at a position has its opening quote after `import {` written from there and ends after the quoted `hardhat`, within the text |
| ImportRewrite.DeleteMatches | create-fhevm-playground-pro/src/scaffolder.ts:145 | deleting the matches never lengthens the text |
| ImportRewrite.DeleteMatchesWhole | create-fhevm-playground-pro/src/scaffolder.ts:145 | the deletion keeps the text whole iff the pattern matches at no position |
| ImportRewrite.StripHardhatImports | create-fhevm-playground-pro/src/scaffolder.ts:145 | stripping the hardhat imports never lengthens the text |
| ImportRewrite.StripHardhatSpec | create-fhevm-playground-pro/src/scaffolder.ts:145 | the text is unchanged iff the pattern matches at no position |
| ImportRewrite.DeleteMatchesKeepsOrder | create-fhevm-playground-pro/src/scaffolder.ts:145 | the deletion keeps the remaining characters in order |
| ImportRewrite.StripKeepsOrder | create-fhevm-playground-pro/src/scaffolder.ts:145 | the stripped text is a subsequence of the original |
| ImportRewrite.EthersLineMatches | central-repo/examples/access-control-premium/test/access-control-premium.test.ts:2 | the line `import { ethers } from "hardhat";` matches the pattern, newline included |
| ImportRewrite.EthersLineStripped | central-repo/examples/access-control-premium/test/access-control-premium.test.ts:2 | that line is removed whole from the front of a test |
| ImportRewrite.HardhatMatchHere | create-fhevm-playground-pro/src/scaffolder.ts:145 | a match at the front of a text has its opening quote after `import {` and ends after the quoted `hardhat`, within the text |
| ImportRewrite.EthersLineMatchesHere | central-repo/examples/access-control-premium/test/access-control-premium.test.ts:2 | the line `import { ethers } from "hardhat";` is matched at the front of any text, ending right after its newline |
| ImportRewrite.HardhatStopShift | create-fhevm-playground-pro/src/scaffolder.ts:145 | the pattern reads no text before the position it is tried at: text put in front shifts a match and changes nothing else |
| ImportRewrite.DeleteMatchesShift | create-fhevm-playground-pro/src/scaffolder.ts:145 | for a pattern that reads no text before its position, the deletion from a position in `t` is the same inside `a + t` |
| ImportRewrite.DeleteMatchesSkip | create-fhevm-playground-pro/src/scaffolder.ts:145 | a stretch where the pattern matches at no position is kept verbatim ahead of the deletion of the rest |
| ImportRewrite.StripAfter | create-fhevm-playground-pro/src/scaffolder.ts:145 | when nothing matches in the text before it, an `ethers`/`hardhat` import line anywhere in a test is removed whole and that text kept |
| ImportRewrite.EthersLineAfter | central-repo/examples/access-control-premium/test/access-control-premium.test.ts:2 | the import line matches wherever it sits, ending right after its newline |
| ImportRewrite.ChaiLineNoMatch | central-repo/examples/access-control-premium/test/access-control-premium.test.ts:1 | the pattern matches at no position of the `chai` import line |
| ImportRewrite.PremiumTestHeadStripped | central-repo/examples/access-control-premium/test/access-control-premium.test.ts:1-2 | a test starting with the `chai` import and then the `hardhat` import keeps the first line and loses the second |
| ImportRewrite.ImportLineMatches | create-fhevm-playground-pro/src/scaffolder.ts:137 | an import line with a non-empty, brace-free binding list matches at its start, capturing the bindings with their spaces |
| ImportRewrite.ImportLineFrom | create-fhevm-playground-pro/src/scaffolder.ts:137 | the match covers the import up to the closing quote of the path |
| ImportRewrite.RewriteAtStart | create-fhevm-playground-pro/src/scaffolder.ts:136-139 | a match at the start is replaced and the rest of the text kept |
| ImportRewrite.ImportLineParts | create-fhevm-playground-pro/src/scaffolder.ts:137 | the captured part of an import line is its bindings with their spaces, and after the match comes the rest |
| ImportRewrite.ImportLineRewritten | create-fhevm-playground-pro/src/scaffolder.ts:136-139 | an import from the matched path at the front becomes the `./test-helpers.js` import of the same bindings, and the rest is kept |
| ImportRewrite.HelperImportRewritten | create-fhevm-playground-pro/src/scaffolder.ts:136-139 | an import from `../../../../scripts/test-helpers` becomes an import of the same bindings from `./test-helpers.js` |
| ImportRewrite.NoSourceKept | create-fhevm-playground-pro/src/scaffolder.ts:136-139 | text in which the quoted path does not occur is kept |
| ImportRewrite.ImportLineQuotes | create-fhevm-playground-pro/src/scaffolder.ts:137 | an import line's only double quotes are the two around its path |
| ImportRewrite.QuotedInjective | create-fhevm-playground-pro/src/scaffolder.ts:137 | different paths give different quoted forms |
| ImportRewrite.OtherPathKept | create-fhevm-playground-pro/src/scaffolder.ts:136-139 | an import line from a different path is not rewritten |
| ImportRewrite.OtherImportKept | create-fhevm-playground-pro/src/scaffolder.ts:136-139 | an import line from any path other than the helper path is kept whole |
| ImportRewrite.ScriptsPathImportKept | central-repo/examples/basic-counter-premium/test/basic-counter-premium.test.ts:4 | a test already importing `../scripts/test-helpers` is left alone |
| ImportRewrite.PackageImportKept | central-repo/examples/public-encryption-premium/test/public-encryption-premium.test.ts:4 | a test importing the helpers from `fhevm` is left alone |
| ImportRewrite.FourLevelImportRewritten | central-repo/examples/access-control-premium/test/access-control-premium.test.ts:4 | the four-level helper import of the premium tests is redirected to `./test-helpers.js` |
| ImportRewrite.HelperBindingsAvoid | central-repo/examples/access-control-premium/test/access-control-premium.test.ts:4 | the premium tests' binding lists contain no `"` and no `}` |
| BatchUpdate.DigitsEnd | central-repo/dist/scripts/batch-update-fhevm-version.js:17 | the digit run ends within the text and covers only digits |
| BatchUpdate.DigitsEndAt | central-repo/dist/scripts/batch-update-fhevm-version.js:17 | the digit run stops at the first non-digit |
| BatchUpdate.ValidateVersionSpec | central-repo/dist/scripts/batch-update-fhevm-version.js:16-18 | a version is valid iff it starts with three non-empty dot-separated digit runs, whatever follows |
| BatchUpdate.ParseArgsSpec | central-repo/dist/scripts/batch-update-fhevm-version.js:13-15 | the arguments are accepted iff the first one exists and is a valid version; then that is the version and a dry run is asked for iff `--dry-run` is any argument; a lone `--dry-run` is refused as an invalid version |
| BatchUpdate.ExamplesSpec | central-repo/dist/scripts/batch-update-fhevm-version.js:29-37 | a path is listed iff an accepted entry names it, and there are never more paths than entries |
| BatchUpdate.ExamplesHoldManifests | central-repo/dist/scripts/batch-update-fhevm-version.js:29-37 | every listed path is a child of the examples directory whose `package.json` exists |
| BatchUpdate.ManifestsAreFound | central-repo/dist/scripts/batch-update-fhevm-version.js:29-37 | every directory entry holding a `package.json` is listed |
| BatchUpdate.FindExamples | central-repo/dist/scripts/batch-update-fhevm-version.js:22-39 | the method returns the examples the specification lists, or none when the directory is missing |
| BatchUpdate.PackageFile.constructor | central-repo/dist/scripts/batch-update-fhevm-version.js:44 | the file starts with the given content |
| BatchUpdate.PackageFile.UpdatePackageJson | central-repo/dist/scripts/batch-update-fhevm-version.js:40-90 | the new content and the result are those of the specification `Update` |
| BatchUpdate.UpdateOutcome | central-repo/dist/scripts/batch-update-fhevm-version.js:43-89 | success iff the file reads and a section names the package; failure or a dry run leaves the file unchanged; the old version prefers `dependencies`; the new one is `^<version>` |
| BatchUpdate.UpdateMovesOnlyThePackage | central-repo/dist/scripts/batch-update-fhevm-version.js:67-74 | only the package's entry in the sections that name it changes |
| BatchUpdate.UpdateIdempotent | central-repo/dist/scripts/batch-update-fhevm-version.js:67-74 | updating twice to the same version leaves the file as updating once did, and a success stays a success |
| BatchUpdate.BumpTwice | central-repo/dist/scripts/batch-update-fhevm-version.js:67-72 | bumping keeps whether a section names the package, and bumping twice is bumping once |
| BatchUpdate.UpdateAll | central-repo/dist/scripts/batch-update-fhevm-version.js:125-141 | each file gets the specification's update and its result, in order |
| BatchUpdate.TallyPartition | central-repo/dist/scripts/batch-update-fhevm-version.js:145-147 | the successful and failed counts add up to the number of results |
| BatchUpdate.RunBatch | central-repo/dist/scripts/batch-update-fhevm-version.js:91-147 | a bad argument list stops with code 1 and changes nothing; no examples stops with 0; otherwise each file gets its update and the tallies add up |
| BatchUpdate.DryRunWritesNothing | central-repo/dist/scripts/batch-update-fhevm-version.js:57-65 | a dry run leaves every file's content unchanged |
| TestHelpers.HexValue | create-fhevm-playground-pro/base-template/scripts/test-helpers.ts:8 | a hexadecimal digit has a value below 16 |
| TestHelpers.HexDigit | create-fhevm-playground-pro/base-template/scripts/test-helpers.ts:8 | the digit written for a value below 16 reads back as that value |
| TestHelpers.ToHexRoundTrip | create-fhevm-playground-pro/base-template/scripts/test-helpers.ts:8 | `toString(16)` writes hexadecimal digits without a leading zero, and reading them back gives the number |
| TestHelpers.ToHexLength | create-fhevm-playground-pro/base-template/scripts/test-helpers.ts:8 | the hexadecimal text has at most `k` digits iff the number is below 16 to the `k` |
| TestHelpers.Zeros | create-fhevm-playground-pro/base-template/scripts/test-helpers.ts:8 | `n` characters, all `0` |
| TestHelpers.LeadingZeros | create-fhevm-playground-pro/base-template/scripts/test-helpers.ts:8 | leading zeros do not change the number a digit string denotes |
| TestHelpers.ZerosDenoteZero | create-fhevm-playground-pro/base-template/scripts/test-helpers.ts:8 | a string of zeros denotes 0 |
| TestHelpers.PadStart | create-fhevm-playground-pro/base-template/scripts/test-helpers.ts:8 | `padStart` gives the width, or the string's own length when it is longer |
| TestHelpers.PaddedDigits | create-fhevm-playground-pro/base-template/scripts/test-helpers.ts:8 | the padded digits denote the value; they are exactly `k` long iff the value fits, and a value too large is kept whole |
| TestHelpers.CiphertextEncodes | create-fhevm-playground-pro/base-template/scripts/test-helpers.ts:8 | the ciphertext is `0x` and digits denoting the value, 66 characters iff the value is below 16 to the 64th |
| TestHelpers.CiphertextOfNothing | create-fhevm-playground-pro/base-template/scripts/test-helpers.ts:8 | without a value the ciphertext is `0x0`, which no value produces |
| TestHelpers.CiphertextInjective | create-fhevm-playground-pro/base-template/scripts/test-helpers.ts:8 | different values give different ciphertexts |
| TestHelpers.ZeroWord | create-fhevm-playground-pro/base-template/scripts/test-helpers.ts:9-10 | `0x` followed by 64 zeros |
| TestHelpers.ZeroWordIsCiphertextOfZero | create-fhevm-playground-pro/base-template/scripts/test-helpers.ts:8-10 | the signature and encryption strings equal the ciphertext of 0 |
| TestHelpers.GetSignatureAndEncryption | create-fhevm-playground-pro/base-template/scripts/test-helpers.ts:5-12 | the signature and encryption are the zero word and the ciphertext encodes the optional value |
| Site.CoreSection | script.js:11-182 | the core section lists 17 examples, all mandatory and none pro |
| Site.BonusSection | script.js:183-253 | the bonus section lists 7 examples, all bonus and all pro |
| Site.SectionsLayout | script.js:10-254 | in the catalogue an entry is mandatory iff it comes from the core section, and bonus iff it is pro |
| Site.ColorName | script.js:261-317 | every colour class is teal, purple or red |
| Site.ColorIn | script.js:261-318 | the colour map's lookup finds the tag's first entry, or nothing iff no entry has the tag |
| Site.TagColorIn | script.js:318 | `getTagColor` always answers teal, purple or red |
| Site.TagColorSpec | script.js:260-319 | a listed tag gets the colour of its first entry |
| Site.UnknownTagIsTeal | script.js:318 | a tag not in the map is teal |
| Site.CardTagSpec | script.js:359-360 | a card is tagged `tag-basic`/Core Concept iff it is mandatory, else `tag-pro`/Innovative App |
| Site.CategoryFilterSpec | script.js:384-391 | the tab filter keeps a subsequence of the data; the mandatory and bonus tabs keep exactly their category; any other tab keeps everything |
| Site.SearchSpec | script.js:384-402 | the search result is a subsequence of the tab's result: all of it for an empty term, and otherwise exactly the entries whose name, description or some tag contains the lower-cased term |
| Site.LiveSearchShowsMore | script.js:417-442 | everything the filter shows, the live search shows too |
| Site.DropSpaces | script.js:478 | dropping leading whitespace leaves a suffix that does not start with whitespace |
| Site.CollapseSpacesSpec | script.js:478 | replacing whitespace runs by `-` leaves no whitespace, introduces no other character, and keeps text without whitespace |
| Site.CollapsedLower | script.js:478 | after lower-casing and collapsing, no character is upper-case or whitespace |
| Site.SlugSpec | script.js:478 | the slug is lower-case, without whitespace or parentheses, and a prefix of the filtered collapsed text |
| Site.SlugIdempotent | script.js:478 | a slug is its own slug, and slugging twice is slugging once |
| Site.SlugOfSlug | script.js:478 | text already in slug form is kept |
| Site.DefaultIsCommand | script.js:473 | the default command is the `basic-counter` command for `my-example` |
| Site.CopyCliSpec | script.js:471-485 | no id, an empty id or an id missing from the catalogue gives the default command; a found entry gives the command for its slugged name, its id, and ` --pro` when it is pro |
| Site.CommandEnds | script.js:479-480 | a pro command ends with ` --pro`, and any other with ` --category <id>` |
| Site.ProFlagForBonus | script.js:479-480 | a bonus example's command ends with ` --pro`, and a core example's with its category |

## Left out

- Input and output beyond the file system: `console` output, `chalk`
  colours, the `commander` and `inquirer` front ends, and `process.exit`.
  Exit codes and warnings are returned as values instead.
- `execSync` calls (`git init`, `git add`, `git commit`, `npm install`):
  they run outside the model. The model records only whether the install
  succeeded, as a parameter of `ProCli.Guided`. `git` has no modelled
  effect on the file system.
- JSON serialisation and parsing. JSON documents are values (`Files.Json`),
  and numbers, booleans and `null` keep only their text. `readJsonSync`
  failures are modelled as a file that is not a JSON document. Key order
  and spacing of `writeJsonSync` are not modelled.
- The bodies of the template functions (`Files.Content.Generated` names the
  function) and `getReadmeTemplate`: long literal texts whose content plays
  no part in any property here. The central Hardhat config, `.env.example`
  and `.gitignore` texts are kept as constants.
- `DEFAULT_CATEGORIES` of the central command: `src/templates` is not part
  of this model, so `CentralCli` takes the table as a parameter.
- Directory listing order: `readdirSync` entries are given as a sequence.
- The showcase page's DOM, rendering, clipboard and animation code, and
  `tools/autorun-server.js`: browser and server glue, with no logic beyond
  what `Site` covers.
- The example projects' own contracts and tests, type declaration files and
  configuration files: they are inputs to the scaffolders, not part of the
  generator.
- Unicode: `toLowerCase`, `toUpperCase` and `\s` are modelled on ASCII
  letters and ASCII whitespace only.
- `Site.ColorIn`: the colour map is a plain object, so inherited property
  names such as `constructor` would also be found. The model looks up only
  the listed tags.
- `ProCli.ParseSelection`: `Number(input)` also accepts surrounding
  whitespace, signs, decimal points, exponents and hexadecimal text. The
  model accepts only plain digit strings and the empty string (which gives
  0), so inputs like ` 2` or `2.0` are rejected here although the prompt
  accepts them.
- `TestHelpers.GetSignatureAndEncryption`: `value` is modelled as an
  optional non-negative integer, `None` standing for `undefined`. Negative
  and fractional numbers, and `null` (on which `toString` throws), are not
  modelled.
- `ImportRewrite.RewriteImportIdempotent`: proved only when the quoted
  source path occurs at most once in the text.
- `ImportRewrite.HelperRewriteIdempotent`: proved only under the same
  at-most-once condition.
- `ImportRewrite.RewriteHelperImportSpec`: the shortening fact is stated
  for the helper path and its replacement, not for arbitrary path pairs.
- `ImportRewrite.HardhatMatchAt`: its contract states only where a match
  ends. The full pattern is stated by its body, and the concrete line is
  covered by `ImportRewrite.EthersLineMatches`.
- `ProScaffolder.RewriteTestText`: its own contract states only that the
  text does not grow. What the two rewrites do is stated by the
  `ImportRewrite` lemmas it is built from.
- `CentralScaffolder.ProjectDir`: `path.resolve(cwd, name)` is modelled as
  the working directory extended by one component, `name`. Names such as
  the empty string, `.`, `..`, `a/b` or an absolute path resolve elsewhere
  in Node (the empty name resolves to the working directory itself, which
  exists, so the source reports that the target already exists).
  `CentralScaffolder.RejectionsBeforeMutation` and
  `CentralScaffolder.CreateWritesExactly` hold for that one-component
  reading.
- `ProScaffolder.ProjectDir`: the same one-component reading of
  `path.resolve(cwd, name)`; names such as the empty string, `.`, `..`,
  `a/b` or an absolute path are not modelled as Node resolves them.
  `ProScaffolder.ExistingTargetUntouched`,
  `ProScaffolder.RejectionsBeforeMutation` and
  `ProScaffolder.ScaffoldStaysInside` hold for that one-component reading.
- `ProScaffolder.PrependReadme`: `readFileSync(…, 'utf-8')` reads any
  regular file as text. In the model a JSON document or a template output
  has no text (the JSON and template-body abstractions above), so a
  `README.md` holding one gives `NotAFile` here, where the code would
  prepend the heading to its text.
- `ProScaffolder.RewriteTests`: for the same reason, a test file holding a
  JSON document or a template output is left as it is, where the code would
  rewrite its text.
- `ProScaffolder.FinishResults`: a `README.md` holding a JSON document or a
  template output gives `NotAFile` here (see `ProScaffolder.PrependReadme`),
  and a `package.json` is read only when it holds a JSON document, while
  the code would parse a text file whose text is valid JSON.
- `CliCategories.ResolveExampleDir`: `CATEGORY_TO_EXAMPLE_DIR[cat] || cat`
  reads a plain object, so an id that names an inherited property
  (`constructor`, `toString`, `__proto__`) yields that property, not the
  id. The model looks up only the listed keys and falls back to the id for
  every other one.
- `BatchUpdate.RunBatch`: the package files and the example names are
  given as parameters, not read from the file system. That they are the
  `package.json` files of the directories `FindExamples` returns, and that
  each name is the basename of its directory, is not stated.
- `ProScaffolder.ScaffoldWithExampleKeepsBase`: the path
  `scripts/test-helpers.ts` is left out even when the example found has no
  `test/` directory. In that case the template's file stays where it is,
  but that is not stated.
- `ProScaffolder.ScaffoldWritesHelperStub`: the example's `test/` directory
  is required to exist after the base template copy. The code checks it
  after the contracts overlay, which only adds files. A `test/` directory
  that appears only through that overlay is not covered; this needs the
  example to lie inside the new project.
- The warnings the published scaffolder prints (the example not found, the
  search paths tried): only the resulting file system is modelled.
- Concurrency and the asynchronous `await`s: every step is run in program
  order.
