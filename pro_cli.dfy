/** The command line of the pro package
    (create-fhevm-playground-pro/src/create-example.ts): the `create` command's
    category and pro checks before the scaffolder runs, and the `guided`
    command's list choice, selection check, index mapping and project name.
    Prompts, console output and `process.exit` become parameters and an exit
    code. */
module ProCli {
  import opened Basics
  import opened Files
  import CliCategories
  import ProScaffolder

  // ---------------------------------------------------------------------
  // `create`
  // ---------------------------------------------------------------------

  /** What the `create` action decides before calling the scaffolder. */
  datatype Gate =
    | Proceed(options: ProScaffolder.Options)
    | UnknownCategory(category: string)
    | ProRequired(category: string)

  /** The two checks against the category table `cats`; on success the
      options passed to `createExample` (`isPro: !!options.pro`). */
  function CreateGateIn(cats: seq<CliCategories.CliCategory>, name: string, category: string, pro: bool): Gate {
    match CliCategories.FindIn(cats, category)
    case None => UnknownCategory(category)
    case Some(c) =>
      if c.isPro && !pro then ProRequired(category)
      else Proceed(ProScaffolder.Options(name, category, pro))
  }

  /** An unknown category is rejected first; a known pro category without
      the flag next; anything else goes to the scaffolder with the name, the
      category and exactly the flag given. */
  lemma CreateGateSpec(cats: seq<CliCategories.CliCategory>, name: string, category: string, pro: bool)
    ensures CreateGateIn(cats, name, category, pro).UnknownCategory? <==>
      forall i :: 0 <= i < |cats| ==> cats[i].id != category
    ensures CreateGateIn(cats, name, category, pro).ProRequired? <==>
      exists i :: 0 <= i < |cats| && cats[i].id == category && cats[i] == CliCategories.FindIn(cats, category).value
        && cats[i].isPro && !pro
    ensures CreateGateIn(cats, name, category, pro).Proceed? ==>
      CreateGateIn(cats, name, category, pro).options == ProScaffolder.Options(name, category, pro)
  {
    match CliCategories.FindIn(cats, category)
    case None =>
    case Some(c) =>
      var k :| 0 <= k < |cats| && cats[k] == c && c.id == category;
      if c.isPro && !pro {
        assert cats[k].id == category && cats[k].isPro;
      }
  }

  /** The result of running a command: its exit code, the file system it
      leaves, and whether it printed the install warning. */
  datatype Exit = Exit(code: nat, store: Store, warned: bool)

  /** The `create` action against the table `cats`. */
  function CreateCommandIn(cats: seq<CliCategories.CliCategory>, st: Store, env: ProScaffolder.Env,
                           name: string, category: string, pro: bool): Exit {
    match CreateGateIn(cats, name, category, pro)
    case Proceed(o) =>
      var out := ProScaffolder.Scaffold(st, env, o);
      Exit(if out.result.Ok? then 0 else 1, out.store, false)
    case _ => Exit(1, st, false)
  }

  /** The `create` action against `CATEGORIES`. */
  function CreateCommand(st: Store, env: ProScaffolder.Env, name: string, category: string, pro: bool): Exit {
    CreateCommandIn(CliCategories.Categories, st, env, name, category, pro)
  }

  /** A rejected category exits with code 1 without touching the file
      system; otherwise the exit code is 0 exactly when the scaffolder
      succeeds. */
  lemma CreateCommandExits(cats: seq<CliCategories.CliCategory>, st: Store, env: ProScaffolder.Env,
                           name: string, category: string, pro: bool)
    ensures var gate := CreateGateIn(cats, name, category, pro);
      var r := CreateCommandIn(cats, st, env, name, category, pro);
      && (!gate.Proceed? ==> r == Exit(1, st, false))
      && (gate.Proceed? ==> r.store == ProScaffolder.Scaffold(st, env, gate.options).store)
      && (r.code == 0 <==> gate.Proceed? && ProScaffolder.Scaffold(st, env, gate.options).result.Ok?)
  {
  }

  // ---------------------------------------------------------------------
  // `guided`: the list choice
  // ---------------------------------------------------------------------

  /** The two answers the first prompt offers. */
  const PathChoices: seq<string> := [
    "1" + ". Core Concepts (Master fhEVM fundamentals – 12 examples)",
    "2" + ". Innovative Pro Apps (Real-world confidential apps – 7 examples)"
  ]

  /** The ids of `coreList`, in order (the titles are display text only). */
  const CoreList: seq<string> := [
    "basic-counter", "arithmetic", "comparisons", "single-encryption", "access-control",
    "input-verification-proofs", "anti-patterns-guide", "handles-lifecycle", "oz-erc7984-basic",
    "oz-erc20-wrapper", "vesting", "blind-auction"
  ]

  /** The ids of `proList`, in order. */
  const ProList: seq<string> := [
    "dao-voting-pro", "private-lending-pro", "blind-dex-pro", "poker-game-pro", "yield-farming-pro",
    "mev-arbitrage-pro", "confidential-stablecoin-pro"
  ]

  /** `pathChoice.startsWith('1') ? coreList : proList`. */
  function ChooseList(answer: string): seq<string> {
    if StartsWith(answer, "1") then CoreList else ProList
  }

  /** `pathChoice.startsWith('2')`. */
  function GuidedIsPro(answer: string): bool {
    StartsWith(answer, "2")
  }

  /** The pro flag is only ever set together with the pro list, and the
      core list never comes with it; the two offered answers give the core
      list without the flag and the pro list with it. */
  lemma ChoiceDecidesListAndFlag(answer: string)
    ensures GuidedIsPro(answer) ==> ChooseList(answer) == ProList
    ensures ChooseList(answer) == CoreList ==> !GuidedIsPro(answer)
    ensures answer == PathChoices[0] ==> ChooseList(answer) == CoreList && !GuidedIsPro(answer)
    ensures answer == PathChoices[1] ==> ChooseList(answer) == ProList && GuidedIsPro(answer)
  {
    if GuidedIsPro(answer) {
      assert answer[0] == '2';
    }
    assert CoreList != ProList by {
      assert |CoreList| == 12 && |ProList| == 7;
    }
    var core, pro := ". Core Concepts (Master fhEVM fundamentals – 12 examples)",
                     ". Innovative Pro Apps (Real-world confidential apps – 7 examples)";
    assert ("1" + core)[..1] == "1" && ("2" + pro)[..1] == "2";
  }

  /** The core list names the 12 core ids of the table and the pro list its
      7 pro ids, in table order; so every core choice is non-pro and every
      pro choice is pro. */
  lemma ListsFollowTable()
    ensures |CoreList| == CliCategories.CoreCount && |ProList| == CliCategories.ProCount
    ensures forall i :: 0 <= i < |CoreList| ==>
      CoreList[i] == CliCategories.Categories[i].id && !CliCategories.Categories[i].isPro
    ensures forall i :: 0 <= i < |ProList| ==>
      ProList[i] == CliCategories.Categories[CliCategories.CoreCount + i].id
      && CliCategories.Categories[CliCategories.CoreCount + i].isPro
  {
    CliCategories.CliLayout();
  }

  // ---------------------------------------------------------------------
  // `guided`: the selection
  // ---------------------------------------------------------------------

  /** The value of a string of decimal digits. */
  function DigitsValue(s: string): nat
    requires forall i :: 0 <= i < |s| ==> IsDigit(s[i])
  {
    if s == [] then 0
    else
      assert IsDigit(s[|s| - 1]);
      DigitsValue(s[..|s| - 1]) * 10 + (s[|s| - 1] as int - '0' as int)
  }

  /** The decimal text of a natural number, as `toString()` writes it. */
  function DecimalString(n: nat): (r: string)
    ensures |r| > 0 && forall i :: 0 <= i < |r| ==> IsDigit(r[i])
  {
    var d := ['0' + (n % 10) as char];
    if n < 10 then d else DecimalString(n / 10) + d
  }

  /** Reading back a decimal text gives the number. */
  lemma {:induction false} DecimalRoundTrip(n: nat)
    ensures DigitsValue(DecimalString(n)) == n
  {
    var r := DecimalString(n);
    if n >= 10 {
      DecimalRoundTrip(n / 10);
      assert r[..|r| - 1] == DecimalString(n / 10);
    }
  }

  /** `Number(input)` where it yields an integer: the empty string is 0 and a
      string of digits its value; anything else is taken as not an integer. */
  function ParseSelection(input: string): (r: Option<int>)
    ensures r.Some? ==> r.value >= 0
  {
    if forall i :: 0 <= i < |input| ==> IsDigit(input[i]) then Some(DigitsValue(input)) else None
  }

  datatype Validation = Accepted | Rejected(message: string)

  /** The prompt's `validate` for a list of `len` items. */
  function Validate(input: string, len: nat): Validation {
    var n := ParseSelection(input);
    if n.Some? && 1 <= n.value <= len then Accepted
    else Rejected("Please enter a number between 1 and " + DecimalString(len))
  }

  /** The prompt accepts exactly the integers between 1 and the list length,
      and the digits of every such number are accepted. */
  lemma ValidateSpec(input: string, len: nat)
    ensures Validate(input, len) == Accepted <==>
      ParseSelection(input).Some? && 1 <= ParseSelection(input).value <= len
    ensures forall n: nat :: 1 <= n <= len ==> Validate(DecimalString(n), len) == Accepted
  {
    forall n: nat | 1 <= n <= len
      ensures Validate(DecimalString(n), len) == Accepted
    {
      DecimalRoundTrip(n);
    }
  }

  /** `chosenList[Number(selection) - 1]`, or the invalid-selection exit. */
  function Select(list: seq<string>, input: string): Option<string> {
    var n := ParseSelection(input);
    if n.Some? && 0 <= n.value - 1 < |list| then Some(list[n.value - 1]) else None
  }

  /** An accepted selection always indexes the list: the invalid-selection
      branch cannot be reached through the prompt. */
  lemma AcceptedSelectionInRange(list: seq<string>, input: string)
    requires Validate(input, |list|) == Accepted
    ensures var n := ParseSelection(input).value;
      1 <= n <= |list| && Select(list, input) == Some(list[n - 1])
  {
  }

  // ---------------------------------------------------------------------
  // `guided`: the project name
  // ---------------------------------------------------------------------

  /** `[a-z0-9-]`. */
  predicate IsKebabChar(c: char) {
    IsLower(c) || IsDigit(c) || c == '-'
  }

  /** `${id.replace(/[^a-z0-9-]/g, '')}-example`. */
  function ProjectName(id: string): string {
    Filter(id, IsKebabChar) + "-example"
  }

  /** The project name is the id's `[a-z0-9-]` characters, in order, then
      `-example`. */
  lemma ProjectNameShape(id: string)
    ensures var r := ProjectName(id);
      && EndsWith(r, "-example")
      && IsSubsequence(r[..|r| - 8], id)
      && forall i :: 0 <= i < |r| - 8 ==> IsKebabChar(r[i])
  {
    var r := ProjectName(id);
    FilterSpec(id, IsKebabChar);
    assert r[..|r| - 8] == Filter(id, IsKebabChar);
    assert r[|r| - 8..] == "-example";
  }

  /** For an id made only of `[a-z0-9-]` the name is the id plus
      `-example`. */
  lemma ProjectNameOfKebab(id: string)
    requires AllKebab(id)
    ensures ProjectName(id) == id + "-example"
  {
    FilterKeepsAll(id, IsKebabChar);
  }

  predicate AllKebab(id: string) {
    forall i :: 0 <= i < |id| ==> IsKebabChar(id[i])
  }

  lemma CoreIdsHeadAreKebab()
    ensures forall k :: 0 <= k < 6 ==> AllKebab(CoreList[k])
  {
  }

  lemma CoreIdsTailAreKebab()
    ensures forall k :: 6 <= k < |CoreList| ==> AllKebab(CoreList[k])
  {
  }

  lemma ProIdsAreKebab()
    ensures forall k :: 0 <= k < |ProList| ==> AllKebab(ProList[k])
  {
    ProIdsHeadAreKebab();
    ProIdsTailAreKebab();
  }

  lemma ProIdsHeadAreKebab()
    ensures forall k :: 0 <= k < 4 ==> AllKebab(ProList[k])
  {
  }

  lemma ProIdsTailAreKebab()
    ensures forall k :: 4 <= k < |ProList| ==> AllKebab(ProList[k])
  {
  }

  /** For every listed example the project name is its id plus
      `-example`. */
  lemma ListedProjectNames()
    ensures forall k :: 0 <= k < |CoreList| ==> ProjectName(CoreList[k]) == CoreList[k] + "-example"
    ensures forall k :: 0 <= k < |ProList| ==> ProjectName(ProList[k]) == ProList[k] + "-example"
  {
    CoreIdsHeadAreKebab();
    CoreIdsTailAreKebab();
    ProIdsAreKebab();
    forall k | 0 <= k < |CoreList|
      ensures ProjectName(CoreList[k]) == CoreList[k] + "-example"
    {
      ProjectNameOfKebab(CoreList[k]);
    }
    forall k | 0 <= k < |ProList|
      ensures ProjectName(ProList[k]) == ProList[k] + "-example"
    {
      ProjectNameOfKebab(ProList[k]);
    }
  }

  // ---------------------------------------------------------------------
  // `guided`: the whole command
  // ---------------------------------------------------------------------

  /** The `guided` action given the two answers and whether `npm install`
      and `npm test` succeed: an invalid selection exits with 1, a failed
      creation exits with 1, and a failed install only warns. */
  function Guided(st: Store, env: ProScaffolder.Env, answer: string, input: string, installOk: bool): Exit {
    match Select(ChooseList(answer), input)
    case None => Exit(1, st, false)
    case Some(id) =>
      var out := ProScaffolder.Scaffold(st, env, ProScaffolder.Options(ProjectName(id), id, GuidedIsPro(answer)));
      if out.result.Err? then Exit(1, out.store, false)
      else Exit(0, out.store, !installOk)
  }

  /** With an accepted selection the scaffolder runs on the chosen item;
      once it succeeds the command exits with 0 whether or not the install
      works, and it warns exactly when the install fails. */
  lemma GuidedOutcome(st: Store, env: ProScaffolder.Env, answer: string, input: string, installOk: bool)
    requires Validate(input, |ChooseList(answer)|) == Accepted
    ensures var list := ChooseList(answer);
      var id := list[ParseSelection(input).value - 1];
      var out := ProScaffolder.Scaffold(st, env, ProScaffolder.Options(ProjectName(id), id, GuidedIsPro(answer)));
      var r := Guided(st, env, answer, input, installOk);
      && r.store == out.store
      && (r.code == 0 <==> out.result.Ok?)
      && (r.warned <==> out.result.Ok? && !installOk)
  {
    AcceptedSelectionInRange(ChooseList(answer), input);
  }
}
