/** The central repository's command line
    (central-repo/bin/create-fhevm-playground-pro.ts): the `create` action
    checks the category against `DEFAULT_CATEGORIES` and the `--pro` flag,
    then hands the options to the central scaffolder; any error it throws
    becomes exit code 1. `DEFAULT_CATEGORIES` lives in a module that is not
    part of this model, so it is a parameter: its keys and, for each, the
    entry's `isPro`. */
module CentralCli {
  import opened Basics
  import opened Files
  import CentralRegistry
  import CentralScaffolder

  /** `DEFAULT_CATEGORIES`: the known category ids and whether each is pro. */
  type Defaults = map<string, bool>

  /** What the action decides before calling the scaffolder. */
  datatype Gate =
    | Proceed(options: CentralScaffolder.Options)
    | UnknownCategory(category: string)
    | ProRequired(category: string)

  /** `options.pro || false`: the flag is absent (`None`), or present with
      the value the parser gave it. */
  function Forwarded(pro: Option<bool>): bool {
    pro.Some? && pro.value
  }

  /** The two checks of the action, in source order. */
  function CreateGate(defaults: Defaults, name: string, category: string, pro: Option<bool>): Gate {
    if category !in defaults then UnknownCategory(category)
    else if defaults[category] && !Forwarded(pro) then ProRequired(category)
    else Proceed(CentralScaffolder.Options(name, category, Forwarded(pro)))
  }

  /** An id outside `DEFAULT_CATEGORIES` is rejected first, a pro id
      without the flag next, and otherwise the scaffolder receives the name,
      the category and a pro flag that is true exactly when `--pro` was
      given as true. */
  lemma CreateGateSpec(defaults: Defaults, name: string, category: string, pro: Option<bool>)
    ensures CreateGate(defaults, name, category, pro).UnknownCategory? <==> category !in defaults
    ensures CreateGate(defaults, name, category, pro).ProRequired? <==>
      category in defaults && defaults[category] && pro != Some(true)
    ensures CreateGate(defaults, name, category, pro).Proceed? ==>
      CreateGate(defaults, name, category, pro).options ==
        CentralScaffolder.Options(name, category, pro == Some(true))
  {
  }

  /** The result of the action: its exit code and the file system it
      leaves. */
  datatype Exit = Exit(code: nat, store: Store)

  /** The `create` action, with the scaffolder running against the registry
      `reg` and the lookups `contractOf` and `testOf`. */
  function CreateCommandIn(defaults: Defaults, reg: seq<CentralRegistry.Category>,
                           contractOf: CentralScaffolder.Lookup, testOf: CentralScaffolder.Lookup,
                           st: Store, cwd: Path, name: string, category: string, pro: Option<bool>): Exit {
    match CreateGate(defaults, name, category, pro)
    case Proceed(o) =>
      var out := CentralScaffolder.CreateIn(reg, contractOf, testOf, st, cwd, o);
      Exit(if out.result.Ok? then 0 else 1, out.store)
    case _ => Exit(1, st)
  }

  /** A rejection by the action exits with code 1 before the scaffolder
      runs, so the file system is unchanged; otherwise the exit code is 0
      exactly when the scaffolder succeeds, and the file system is the one
      it leaves. */
  lemma CreateCommandExits(defaults: Defaults, reg: seq<CentralRegistry.Category>,
                           contractOf: CentralScaffolder.Lookup, testOf: CentralScaffolder.Lookup,
                           st: Store, cwd: Path, name: string, category: string, pro: Option<bool>)
    ensures var gate := CreateGate(defaults, name, category, pro);
      var r := CreateCommandIn(defaults, reg, contractOf, testOf, st, cwd, name, category, pro);
      && (!gate.Proceed? ==> r == Exit(1, st))
      && (gate.Proceed? ==>
            r.store == CentralScaffolder.CreateIn(reg, contractOf, testOf, st, cwd, gate.options).store)
      && (r.code == 0 <==>
            gate.Proceed? && CentralScaffolder.CreateIn(reg, contractOf, testOf, st, cwd, gate.options).result.Ok?)
  {
  }

  /** When `DEFAULT_CATEGORIES` agrees with the scaffolder's registry on
      the requested id, a call that passes the action's gate never fails
      the scaffolder's own category or pro checks: what remains is an
      existing directory (or a template lookup that fails). */
  lemma GateAgreesWithScaffolder(defaults: Defaults, reg: seq<CentralRegistry.Category>,
                                 st: Store, cwd: Path, name: string, category: string, pro: Option<bool>)
    requires category in defaults ==>
      CentralRegistry.FindIn(reg, category).Some? &&
      CentralRegistry.FindIn(reg, category).value.isPro == defaults[category]
    ensures CreateGate(defaults, name, category, pro).Proceed? ==>
      var check := CentralScaffolder.CheckIn(reg, st, cwd, CreateGate(defaults, name, category, pro).options);
      (check.Err? ==> check.error == CentralScaffolder.DirectoryExists(name))
  {
  }

  /** Whatever the tables and the flag, a command naming a project
      directory that already exists exits with code 1 and leaves the file
      system as it was. */
  lemma ExistingProjectUntouched(defaults: Defaults, reg: seq<CentralRegistry.Category>,
                                 contractOf: CentralScaffolder.Lookup, testOf: CentralScaffolder.Lookup,
                                 st: Store, cwd: Path, name: string, category: string, pro: Option<bool>)
    requires st.Exists(CentralScaffolder.ProjectDir(cwd, name))
    ensures CreateCommandIn(defaults, reg, contractOf, testOf, st, cwd, name, category, pro) == Exit(1, st)
  {
    match CreateGate(defaults, name, category, pro)
    case Proceed(o) =>
      CentralScaffolder.RejectionsBeforeMutation(reg, contractOf, testOf, st, cwd, o);
      CentralScaffolder.CheckOrder(reg, st, cwd, o);
    case _ =>
  }
}
