/** The template dispatcher of central-repo/dist/src/templates-index.js: two
    `switch` statements over the same 24 `case` labels that map a registry id
    to the template function of one of the five template parts, and throw
    `Unknown category` otherwise. A template's text is opaque here; a
    template is identified by its part and the name of the exported function
    that returns it. */
module TemplateDispatch {
  import opened Basics
  import CentralRegistry

  /** The template function `part<part>.<fn>()`. */
  datatype TemplateRef = TemplateRef(part: nat, fn: string)

  datatype DispatchError = UnknownCategory(category: string)

  /** One `case` label with the functions it calls in `getContractTemplate`
      and in `getTestTemplate` (both switches list the same labels in the
      same order). */
  datatype Case = Case(name: string, part: nat, contractFn: string, testFn: string)

  const Cases: seq<Case> := [
      Case("basic-counter", 1, "basicCounterContract", "basicCounterTest"),
      Case("arithmetic", 1, "arithmeticContract", "arithmeticTest"),
      Case("comparisons", 1, "comparisonsContract", "comparisonsTest"),
      Case("single-encryption", 2, "singleEncryptionContract", "singleEncryptionTest"),
      Case("multiple-encryption", 2, "multipleEncryptionContract", "multipleEncryptionTest"),
      Case("single-decryption-user", 2, "singleDecryptionUserContract", "singleDecryptionUserTest"),
      Case("single-decryption-public", 2, "singleDecryptionPublicContract", "singleDecryptionPublicTest"),
      Case("multiple-decryption", 2, "multipleDecryptionContract", "multipleDecryptionTest"),
      Case("access-control", 3, "accessControlContract", "accessControlTest"),
      Case("input-verification-proofs", 3, "inputVerificationProofsContract", "inputVerificationProofsTest"),
      Case("anti-patterns-guide", 3, "antiPatternsGuideContract", "antiPatternsGuideTest"),
      Case("handles-lifecycle", 3, "handlesLifecycleContract", "handlesLifecycleTest"),
      Case("oz-erc20-wrapper", 4, "ozErc20WrapperContract", "ozErc20WrapperTest"),
      Case("oz-erc7984-basic", 4, "ozErc7984BasicContract", "ozErc7984BasicTest"),
      Case("swaps", 4, "swapsContract", "swapsTest"),
      Case("vesting", 4, "vestingContract", "vestingTest"),
      Case("blind-auction", 4, "blindAuctionContract", "blindAuctionTest"),
      Case("dao-voting-pro", 5, "daoVotingProContract", "daoVotingProTest"),
      Case("private-lending-pro", 5, "privateLendingProContract", "privateLendingProTest"),
      Case("blind-dex-pro", 5, "blindDexProContract", "blindDexProTest"),
      Case("poker-game-pro", 5, "pokerGameProContract", "pokerGameProTest"),
      Case("yield-farming-pro", 5, "yieldFarmingProContract", "yieldFarmingProTest"),
      Case("mev-arbitrage-pro", 5, "mevArbitrageProContract", "mevArbitrageProTest"),
      Case("confidential-stablecoin-pro", 5, "confidentialStablecoinProContract", "confidentialStablecoinProTest")
    ]

  /** The `case` a `switch` on `categoryName` selects: the first whose label
      equals it. */
  function SelectCase(categoryName: string): (r: Option<Case>)
    ensures r.Some? ==> exists k :: 0 <= k < |Cases| && Cases[k] == r.value && r.value.name == categoryName
    ensures r.None? <==> forall k :: 0 <= k < |Cases| ==> Cases[k].name != categoryName
  {
    SelectIn(Cases, categoryName)
  }

  function SelectIn(cs: seq<Case>, categoryName: string): (r: Option<Case>)
    ensures r.Some? ==> exists k :: 0 <= k < |cs| && cs[k] == r.value && r.value.name == categoryName
    ensures r.None? <==> forall k :: 0 <= k < |cs| ==> cs[k].name != categoryName
  {
    FindFirst(cs, (c: Case) => c.name == categoryName)
  }

  /** `getContractTemplate(categoryName)`. */
  function GetContractTemplate(categoryName: string): (r: Result<TemplateRef, DispatchError>)
    ensures r.Ok? ==> 1 <= r.value.part <= 5
    ensures r.Err? ==> r.error == UnknownCategory(categoryName)
  {
    match SelectCase(categoryName)
    case Some(c) => CasesShape(); Ok(TemplateRef(c.part, c.contractFn))
    case None => Err(UnknownCategory(categoryName))
  }

  /** `getTestTemplate(categoryName)`. */
  function GetTestTemplate(categoryName: string): (r: Result<TemplateRef, DispatchError>)
    ensures r.Ok? ==> 1 <= r.value.part <= 5
    ensures r.Err? ==> r.error == UnknownCategory(categoryName)
  {
    match SelectCase(categoryName)
    case Some(c) => CasesShape(); Ok(TemplateRef(c.part, c.testFn))
    case None => Err(UnknownCategory(categoryName))
  }

  /** The case table: 24 cases over parts 1 to 5, part 1 holding the first
      three. */
  lemma CasesShape()
    ensures |Cases| == 24
    ensures forall k :: 0 <= k < |Cases| ==> 1 <= Cases[k].part <= 5
    ensures forall k :: 0 <= k < 3 ==> Cases[k].part == 1
    ensures forall k :: 3 <= k < |Cases| ==> Cases[k].part != 1
  {
  }

  /** The labels are the registry ids, in registry order. */
  lemma LabelsAreRegistryIds()
    ensures |Cases| == |CentralRegistry.Categories|
    ensures forall k :: 0 <= k < |Cases| ==> Cases[k].name == CentralRegistry.Categories[k].id
  {
  }

  /** No template function is called from two `case` clauses. */
  lemma TemplateFunctionsDistinct()
    ensures forall j, k :: 0 <= j < k < |Cases| ==>
      Cases[j].contractFn != Cases[k].contractFn && Cases[j].testFn != Cases[k].testFn
  {
  }

  /** `getContractTemplate` returns a template for exactly the registry ids
      and throws `Unknown category` for every other string; `getTestTemplate`
      has the same domain. */
  lemma DispatchDomain(id: string)
    ensures GetContractTemplate(id).Ok? <==> CentralRegistry.IsRegistryId(id)
    ensures GetTestTemplate(id).Ok? <==> GetContractTemplate(id).Ok?
  {
    LabelsAreRegistryIds();
    if CentralRegistry.IsRegistryId(id) {
      var i :| 0 <= i < |CentralRegistry.Categories| && CentralRegistry.Categories[i].id == id;
      assert Cases[i].name == id;
    }
  }

  /** In a case list whose template functions are pairwise distinct, two
      names selecting cases with the same contract (or test) function are
      the same name. */
  lemma SelectInInjective(cs: seq<Case>, a: string, b: string)
    requires forall j, k :: 0 <= j < k < |cs| ==>
      cs[j].contractFn != cs[k].contractFn && cs[j].testFn != cs[k].testFn
    requires SelectIn(cs, a).Some? && SelectIn(cs, b).Some?
    ensures SelectIn(cs, a).value.contractFn == SelectIn(cs, b).value.contractFn ==> a == b
    ensures SelectIn(cs, a).value.testFn == SelectIn(cs, b).value.testFn ==> a == b
  {
    var j :| 0 <= j < |cs| && cs[j] == SelectIn(cs, a).value && cs[j].name == a;
    var k :| 0 <= k < |cs| && cs[k] == SelectIn(cs, b).value && cs[k].name == b;
    if a != b {
      assert j != k;
    }
  }

  /** Distinct ids dispatch to distinct template functions, in both
      switches. */
  lemma DispatchInjective(a: string, b: string)
    requires GetContractTemplate(a).Ok? && GetContractTemplate(b).Ok?
    ensures GetContractTemplate(a) == GetContractTemplate(b) ==> a == b
    ensures GetTestTemplate(a) == GetTestTemplate(b) ==> a == b
  {
    TemplateFunctionsDistinct();
    SelectInInjective(Cases, a, b);
  }

  /** The first three cases call the part-1 templates, which declare and
      deploy the `contractName` of the first three registry records. */
  lemma Part1Table()
    ensures forall k :: 0 <= k < 3 ==>
      CentralRegistry.DeclaredContract(Cases[k].contractFn) == Some(CentralRegistry.Categories[k].contractName)
      && CentralRegistry.DeployedFactory(Cases[k].testFn) == Some(CentralRegistry.Categories[k].contractName)
  {
  }

  /** In a case list aligned with a registry of distinct ids, where the
      part-1 cases name the declared contract and deployed factory of their
      record, a name selecting a part-1 case is a registry id whose record
      carries that contract name. */
  lemma Part1MatchesIn(cs: seq<Case>, reg: seq<CentralRegistry.Category>, id: string)
    requires |cs| == |reg|
    requires forall k :: 0 <= k < |cs| ==> cs[k].name == reg[k].id
    requires forall j, k :: 0 <= j < k < |reg| ==> reg[j].id != reg[k].id
    requires forall k :: 0 <= k < |cs| && cs[k].part == 1 ==>
      CentralRegistry.DeclaredContract(cs[k].contractFn) == Some(reg[k].contractName)
      && CentralRegistry.DeployedFactory(cs[k].testFn) == Some(reg[k].contractName)
    requires SelectIn(cs, id).Some? && SelectIn(cs, id).value.part == 1
    ensures CentralRegistry.FindIn(reg, id).Some?
    ensures CentralRegistry.DeclaredContract(SelectIn(cs, id).value.contractFn)
            == Some(CentralRegistry.FindIn(reg, id).value.contractName)
    ensures CentralRegistry.DeployedFactory(SelectIn(cs, id).value.testFn)
            == Some(CentralRegistry.FindIn(reg, id).value.contractName)
  {
    var k :| 0 <= k < |cs| && cs[k] == SelectIn(cs, id).value && cs[k].name == id;
    CentralRegistry.FindInRoundTrip(reg, k);
  }

  /** The first three cases call the part-1 templates, which declare and
      deploy the `contractName` of the first three registry records; no
      other case is in part 1. */
  lemma Part1Aligned()
    ensures forall k :: 0 <= k < |Cases| && Cases[k].part == 1 ==>
      CentralRegistry.DeclaredContract(Cases[k].contractFn) == Some(CentralRegistry.Categories[k].contractName)
      && CentralRegistry.DeployedFactory(Cases[k].testFn) == Some(CentralRegistry.Categories[k].contractName)
  {
    CasesShape();
    Part1Table();
  }

  /** For the three part-1 categories, the contract template declares the
      registry's `contractName` and the test template deploys a factory of
      that same name. */
  lemma Part1MatchesRegistry(id: string)
    requires GetContractTemplate(id).Ok? && GetContractTemplate(id).value.part == 1
    ensures CentralRegistry.FindCategory(id).Some?
    ensures CentralRegistry.DeclaredContract(GetContractTemplate(id).value.fn)
            == Some(CentralRegistry.FindCategory(id).value.contractName)
    ensures CentralRegistry.DeployedFactory(GetTestTemplate(id).value.fn)
            == Some(CentralRegistry.FindCategory(id).value.contractName)
  {
    LabelsAreRegistryIds();
    CentralRegistry.IdsDistinct();
    Part1Aligned();
    Part1MatchesIn(Cases, CentralRegistry.Categories, id);
  }
}
