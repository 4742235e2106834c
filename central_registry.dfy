/** The central registry of example categories (the `CATEGORIES` array of
    central-repo/dist/src/templates-part1.js), the lookup by id the scaffolder
    performs on it, and what the part-1 template functions declare. */
module CentralRegistry {
  import opened Basics

  datatype Complexity = Beginner | Intermediate | Advanced | Expert

  /** One registry record; every field is constant for the process lifetime. */
  datatype Category = Category(
    id: string,
    name: string,
    description: string,
    complexity: Complexity,
    isPro: bool,
    contractName: string,
    keywords: seq<string>)

  /** The 24 records in source order: 17 core categories, then 7 pro ones. */
  const Categories: seq<Category> := [
      Category("basic-counter", "Basic Counter",
        "Simple encrypted counter with increment/decrement operations",
        Beginner, false, "BasicCounter", ["counter", "increment", "state"]),
      Category("arithmetic", "Arithmetic Operations",
        "Add, subtract, multiply encrypted integers",
        Beginner, false, "Arithmetic", ["arithmetic", "add", "subtract", "multiply"]),
      Category("comparisons", "Comparisons",
        "Greater than, less than, equal comparisons on encrypted values",
        Beginner, false, "Comparisons", ["comparison", "gt", "lt", "eq"]),
      Category("single-encryption", "Single Encryption",
        "User-side encryption of a single value",
        Beginner, false, "SingleEncryption", ["encryption", "user-side", "single"]),
      Category("multiple-encryption", "Multiple Encryption",
        "Encrypt and manage multiple encrypted values",
        Intermediate, false, "MultipleEncryption", ["encryption", "batch", "multiple"]),
      Category("single-decryption-user", "Single Decryption (User)",
        "User-authorized decryption with FHE.allow()",
        Intermediate, false, "SingleDecryptionUser", ["decryption", "user-authorized", "allow"]),
      Category("single-decryption-public", "Single Decryption (Public)",
        "Public decryption for transparent operations",
        Intermediate, false, "SingleDecryptionPublic", ["decryption", "public", "reveal"]),
      Category("multiple-decryption", "Multiple Decryption",
        "Decrypt multiple encrypted values efficiently",
        Intermediate, false, "MultipleDecryption", ["decryption", "batch", "multiple"]),
      Category("access-control", "Access Control",
        "Role-based access control with encrypted permissions",
        Intermediate, false, "AccessControl", ["access", "roles", "permissions"]),
      Category("input-verification-proofs", "Input Verification Proofs",
        "Input validation with encrypted proofs",
        Advanced, false, "InputVerificationProofs", ["verification", "validation", "proofs"]),
      Category("anti-patterns-guide", "Anti-Patterns Guide",
        "Educational guide showing common FHE anti-patterns",
        Advanced, false, "AntiPatternsGuide", ["anti-patterns", "education", "mistakes"]),
      Category("handles-lifecycle", "Handles Lifecycle",
        "Encrypted value handle lifecycle management",
        Advanced, false, "HandlesLifecycle", ["handles", "lifecycle", "management"]),
      Category("oz-erc20-wrapper", "OpenZeppelin ERC20 Wrapper",
        "Wrapper pattern for encrypted ERC20 balance tracking",
        Advanced, false, "OZErc20Wrapper", ["erc20", "wrapper", "token"]),
      Category("oz-erc7984-basic", "OpenZeppelin ERC7984 Basic",
        "Basic ERC7984 modular FHE implementation",
        Advanced, false, "OZERC7984Basic", ["erc7984", "modular", "fhe"]),
      Category("swaps", "Swaps (AMM)",
        "Simplified AMM with encrypted reserves",
        Advanced, false, "Swaps", ["dex", "amm", "swap"]),
      Category("vesting", "Vesting",
        "Token vesting with encrypted amounts",
        Advanced, false, "Vesting", ["vesting", "token", "schedule"]),
      Category("blind-auction", "Blind Auction",
        "Private auction with encrypted bids",
        Expert, false, "BlindAuction", ["auction", "sealed-bid", "privacy"]),
      Category("dao-voting-pro", "DAO Voting Pro",
        "Advanced voting with encrypted vote counts and weights",
        Expert, true, "DAOVotingPro", ["dao", "voting", "governance"]),
      Category("private-lending-pro", "Private Lending Pro",
        "Private lending protocol with encrypted amounts",
        Expert, true, "PrivateLendingPro", ["lending", "loan", "collateral"]),
      Category("blind-dex-pro", "Blind DEX Pro",
        "Advanced DEX with MEV-resistant encrypted order books",
        Expert, true, "BlindDEXPro", ["dex", "orderbook", "mev"]),
      Category("poker-game-pro", "Poker Game Pro",
        "Private poker game with encrypted hands",
        Expert, true, "PokerGamePro", ["poker", "game", "private"]),
      Category("yield-farming-pro", "Yield Farming Pro",
        "Private yield farming with encrypted stake amounts",
        Expert, true, "YieldFarmingPro", ["yield", "farming", "rewards"]),
      Category("mev-arbitrage-pro", "MEV Arbitrage Pro",
        "MEV-resistant arbitrage with encrypted price feeds",
        Expert, true, "MEVArbitragePro", ["mev", "arbitrage", "dex"]),
      Category("confidential-stablecoin-pro", "Confidential Stablecoin Pro",
        "Privacy-preserving stablecoin with encrypted collateral",
        Expert, true, "ConfidentialStablecoinPro", ["stablecoin", "collateral", "privacy"])
    ]

  const CoreCount := 17
  const ProCount := 7

  predicate IsRegistryId(id: string) {
    exists i :: 0 <= i < |Categories| && Categories[i].id == id
  }

  /** `CATEGORIES.find(cat => cat.id === id)`. */
  function FindCategory(id: string): (r: Option<Category>)
    ensures r.Some? ==> exists k :: 0 <= k < |Categories| && Categories[k] == r.value && r.value.id == id
    ensures r.None? <==> !IsRegistryId(id)
  {
    FindIn(Categories, id)
  }

  function FindIn(s: seq<Category>, id: string): (r: Option<Category>)
    ensures r.Some? ==> exists k :: 0 <= k < |s| && s[k] == r.value && r.value.id == id
    ensures r.None? <==> forall i :: 0 <= i < |s| ==> s[i].id != id
  {
    FindFirst(s, (c: Category) => c.id == id)
  }

  /** The registry holds 17 non-pro records followed by 7 pro records. */
  lemma RegistryLayout()
    ensures |Categories| == CoreCount + ProCount == 24
    ensures forall i :: 0 <= i < CoreCount ==> !Categories[i].isPro
    ensures forall i :: CoreCount <= i < |Categories| ==> Categories[i].isPro
  {
  }

  /** No two records share an id. */
  lemma IdsDistinct()
    ensures forall i, j :: 0 <= i < j < |Categories| ==> Categories[i].id != Categories[j].id
  {
  }

  /** In any list of records with distinct ids, looking a record up by its
      own id gives that record back. */
  lemma FindInRoundTrip(s: seq<Category>, i: nat)
    requires i < |s|
    requires forall j, k :: 0 <= j < k < |s| ==> s[j].id != s[k].id
    ensures FindIn(s, s[i].id) == Some(s[i])
  {
  }

  /** Looking a registry record up by its own id gives that record back. */
  lemma FindCategoryRoundTrip(i: nat)
    requires i < |Categories|
    ensures FindCategory(Categories[i].id) == Some(Categories[i])
  {
    IdsDistinct();
    FindInRoundTrip(Categories, i);
  }

  /** Every pro record is an Expert category whose id ends in `-pro` and whose
      contract name ends in `Pro`. */
  lemma ProRecordsShape()
    ensures forall i :: 0 <= i < |Categories| && Categories[i].isPro ==>
      Categories[i].complexity == Expert && EndsWith(Categories[i].id, "-pro")
      && EndsWith(Categories[i].contractName, "Pro")
  {
  }

  // ---------------------------------------------------------------------
  // Part-1 templates. Their bodies are opaque Solidity and test text; the
  // model keeps the one identifier the generated project relies on.
  // ---------------------------------------------------------------------

  /** The contract a part-1 contract template declares (`contract X {`). */
  function DeclaredContract(templateFn: string): (r: Option<string>)
  {
    match templateFn
    case "basicCounterContract" => Some("BasicCounter")
    case "arithmeticContract" => Some("Arithmetic")
    case "comparisonsContract" => Some("Comparisons")
    case _ => None
  }

  /** The factory a part-1 test template deploys
      (`ethers.getContractFactory("X")`). */
  function DeployedFactory(templateFn: string): (r: Option<string>)
  {
    match templateFn
    case "basicCounterTest" => Some("BasicCounter")
    case "arithmeticTest" => Some("Arithmetic")
    case "comparisonsTest" => Some("Comparisons")
    case _ => None
  }
}
