/** The CLI's category table (create-fhevm-playground-pro/src/templates-index.ts:
    12 core ids, 7 pro ids and 12 short aliases) and the scaffolder's table
    from category id to example directory name
    (create-fhevm-playground-pro/src/scaffolder.ts), with the lookup that
    falls back to the category string itself. */
module CliCategories {
  import opened Basics

  datatype CliCategory = CliCategory(id: string, name: string, isPro: bool)

  /** `CATEGORIES` in source order: core, pro, then aliases. */
  const Categories: seq<CliCategory> := [
      CliCategory("basic-counter", "Basic Counter", false),
      CliCategory("arithmetic", "Arithmetic Operations", false),
      CliCategory("comparisons", "Comparisons", false),
      CliCategory("single-encryption", "Single Encryption", false),
      CliCategory("access-control", "Access Control", false),
      CliCategory("input-verification-proofs", "Input Proofs", false),
      CliCategory("anti-patterns-guide", "Anti-Patterns Guide", false),
      CliCategory("handles-lifecycle", "Handles Lifecycle", false),
      CliCategory("oz-erc7984-basic", "OpenZeppelin ERC7984 Basic", false),
      CliCategory("oz-erc20-wrapper", "OZ ERC20 Wrapper", false),
      CliCategory("vesting", "Vesting", false),
      CliCategory("blind-auction", "Blind Auction", false),
      CliCategory("dao-voting-pro", "DAO Voting Pro", true),
      CliCategory("private-lending-pro", "Private Lending Pro", true),
      CliCategory("blind-dex-pro", "Blind DEX Pro", true),
      CliCategory("poker-game-pro", "Poker Game Pro", true),
      CliCategory("yield-farming-pro", "Yield Farming Pro", true),
      CliCategory("mev-arbitrage-pro", "MEV Arbitrage Pro", true),
      CliCategory("confidential-stablecoin-pro", "Confidential Stablecoin Pro", true),
      CliCategory("anti-patterns", "Anti-Patterns Guide", false),
      CliCategory("blind-dex", "Blind DEX Pro", true),
      CliCategory("confidential-stablecoin", "Confidential Stablecoin Pro", true),
      CliCategory("dao-voting", "DAO Voting Pro", true),
      CliCategory("encrypted-poker", "Encrypted Poker Game Pro", true),
      CliCategory("erc7984", "OpenZeppelin ERC7984 Basic", false),
      CliCategory("input-proofs", "Input Proofs", false),
      CliCategory("mev-arbitrage", "MEV Arbitrage Pro", true),
      CliCategory("private-erc20", "OZ ERC20 Wrapper", false),
      CliCategory("private-lending", "Private Lending Pro", true),
      CliCategory("private-yield", "Private Yield Farming Pro", true),
      CliCategory("yield-farming", "Private Yield Farming Pro", true)
    ]

  /** `CATEGORY_TO_EXAMPLE_DIR`, its keys and values in source order. */
  const DirectoryEntries: seq<(string, string)> := [
      ("basic-counter", "basic-counter"),
      ("arithmetic", "arithmetic"),
      ("comparisons", "comparisons"),
      ("single-encryption", "single-encryption"),
      ("access-control", "access-control"),
      ("input-verification-proofs", "input-proofs"),
      ("anti-patterns-guide", "anti-patterns"),
      ("handles-lifecycle", "handles-lifecycle"),
      ("oz-erc7984-basic", "erc7984"),
      ("oz-erc20-wrapper", "private-erc20"),
      ("vesting", "vesting"),
      ("blind-auction", "blind-auction"),
      ("dao-voting-pro", "dao-voting"),
      ("private-lending-pro", "private-lending"),
      ("blind-dex-pro", "blind-dex"),
      ("poker-game-pro", "encrypted-poker"),
      ("yield-farming-pro", "private-yield"),
      ("mev-arbitrage-pro", "mev-arbitrage"),
      ("confidential-stablecoin-pro", "confidential-stablecoin"),
      ("anti-patterns", "anti-patterns"),
      ("blind-dex", "blind-dex"),
      ("confidential-stablecoin", "confidential-stablecoin"),
      ("dao-voting", "dao-voting"),
      ("encrypted-poker", "encrypted-poker"),
      ("erc7984", "erc7984"),
      ("input-proofs", "input-proofs"),
      ("mev-arbitrage", "mev-arbitrage"),
      ("private-erc20", "private-erc20"),
      ("private-lending", "private-lending"),
      ("private-yield", "private-yield"),
      ("yield-farming", "private-yield")
    ]

  /** The example directories that hold pro examples. */
  const ProDirectories: set<string> := {"blind-dex", "confidential-stablecoin", "dao-voting", "encrypted-poker", "mev-arbitrage", "private-lending", "private-yield"}

  const CoreCount := 12
  const ProCount := 7

  predicate IsCliId(id: string) {
    exists i :: 0 <= i < |Categories| && Categories[i].id == id
  }

  /** `CATEGORIES.find(c => c.id === id)`. */
  function FindCliCategory(id: string): (r: Option<CliCategory>)
    ensures r.Some? ==> exists k :: 0 <= k < |Categories| && Categories[k] == r.value && r.value.id == id
    ensures r.None? <==> !IsCliId(id)
  {
    FindIn(Categories, id)
  }

  function FindIn(s: seq<CliCategory>, id: string): (r: Option<CliCategory>)
    ensures r.Some? ==> exists k :: 0 <= k < |s| && s[k] == r.value && r.value.id == id
    ensures r.None? <==> forall k :: 0 <= k < |s| ==> s[k].id != id
  {
    FindFirst(s, (c: CliCategory) => c.id == id)
  }

  /** `CATEGORY_TO_EXAMPLE_DIR[category]`: the value under the key, if the
      table has one. */
  function ExampleDirOf(category: string): (r: Option<string>)
    ensures r.Some? ==> exists k :: 0 <= k < |DirectoryEntries| && DirectoryEntries[k] == (category, r.value)
    ensures r.None? <==> forall k :: 0 <= k < |DirectoryEntries| ==> DirectoryEntries[k].0 != category
  {
    LookupIn(DirectoryEntries, category)
  }

  function LookupIn(entries: seq<(string, string)>, key: string): (r: Option<string>)
    ensures r.Some? ==> exists k :: 0 <= k < |entries| && entries[k] == (key, r.value)
    ensures r.None? <==> forall k :: 0 <= k < |entries| ==> entries[k].0 != key
  {
    match FindFirst(entries, (e: (string, string)) => e.0 == key)
    case Some(e) => Some(e.1)
    case None => None
  }

  /** `CATEGORY_TO_EXAMPLE_DIR[category] || category`: an entry that is
      present and non-empty, otherwise the category string. */
  function ResolveExampleDir(category: string): (r: string)
    ensures ExampleDirOf(category).Some? ==> r == ExampleDirOf(category).value
    ensures ExampleDirOf(category).None? ==> r == category
  {
    EntriesFollowIds();
    ResolveIn(DirectoryEntries, category)
  }

  function ResolveIn(entries: seq<(string, string)>, category: string): string {
    match LookupIn(entries, category)
    case Some(dir) => if dir != "" then dir else category
    case None => category
  }

  /** The table holds 12 core ids, then 7 pro ids, then 12 aliases. */
  lemma CliLayout()
    ensures |Categories| == CoreCount + ProCount + 12 == 31
    ensures forall i :: 0 <= i < CoreCount ==> !Categories[i].isPro
    ensures forall i :: CoreCount <= i < CoreCount + ProCount ==> Categories[i].isPro
  {
  }

  /** No two entries share an id. */
  lemma CliIdsDistinct()
    ensures forall i, j :: 0 <= i < j < |Categories| ==> Categories[i].id != Categories[j].id
  {
    IdsDistinctWithin(0, 19);
    IdsDistinctWithin(19, 31);
    IdsDistinctAcross(0, 10);
    IdsDistinctAcross(10, 19);
  }

  /** No two entries in positions `lo` to `hi` share an id. */
  lemma IdsDistinctWithin(lo: nat, hi: nat)
    requires (lo, hi) in {(0, 19), (19, 31)}
    ensures forall i, j :: lo <= i < j < hi ==> Categories[i].id != Categories[j].id
  {
  }

  /** No entry in positions `lo` to `hi` shares its id with an alias. */
  lemma IdsDistinctAcross(lo: nat, hi: nat)
    requires (lo, hi) in {(0, 10), (10, 19)}
    ensures forall i, j :: lo <= i < hi && 19 <= j < |Categories| ==> Categories[i].id != Categories[j].id
  {
  }

  /** The directory table lists the CLI ids, in the same order, each with a
      non-empty directory name. */
  lemma EntriesFollowIds()
    ensures |DirectoryEntries| == |Categories|
    ensures forall i :: 0 <= i < |Categories| ==>
      DirectoryEntries[i].0 == Categories[i].id && DirectoryEntries[i].1 != ""
  {
  }

  /** In a table with distinct keys, looking a key up gives its own value. */
  lemma LookupInRoundTrip(entries: seq<(string, string)>, i: nat)
    requires i < |entries|
    requires forall j, k :: 0 <= j < k < |entries| ==> entries[j].0 != entries[k].0
    ensures LookupIn(entries, entries[i].0) == Some(entries[i].1)
  {
  }

  /** Every CLI id has its own directory entry, so a validated id never
      takes the identity fallback. */
  lemma ValidatedIdsUseTable(i: nat)
    requires i < |Categories|
    ensures ExampleDirOf(Categories[i].id) == Some(DirectoryEntries[i].1)
    ensures ResolveExampleDir(Categories[i].id) == DirectoryEntries[i].1
  {
    CliIdsDistinct();
    EntriesFollowIds();
    LookupInRoundTrip(DirectoryEntries, i);
  }

  /** Every key of the directory table is a CLI id. */
  lemma DirectoryKeysAreIds(key: string)
    ensures ExampleDirOf(key).Some? ==> IsCliId(key)
  {
    EntriesFollowIds();
    if ExampleDirOf(key).Some? {
      var k :| 0 <= k < |DirectoryEntries| && DirectoryEntries[k] == (key, ExampleDirOf(key).value);
      assert Categories[k].id == key;
    }
  }

  /** An entry is pro exactly when its example directory is a pro one. */
  lemma ProFollowsDirectory()
    ensures forall i :: 0 <= i < |Categories| ==>
      (Categories[i].isPro <==> DirectoryEntries[i].1 in ProDirectories)
  {
  }

  /** A category table, a directory table aligned with it, and a set of pro
      directories that decides `isPro`. */
  predicate Aligned(cats: seq<CliCategory>, entries: seq<(string, string)>, pro: set<string>) {
    && |entries| == |cats|
    && (forall j, k :: 0 <= j < k < |cats| ==> cats[j].id != cats[k].id)
    && (forall i :: 0 <= i < |cats| ==> entries[i].0 == cats[i].id && entries[i].1 != "")
    && (forall i :: 0 <= i < |cats| ==> (cats[i].isPro <==> entries[i].1 in pro))
  }

  lemma FindInRoundTrip(cats: seq<CliCategory>, i: nat)
    requires i < |cats|
    requires forall j, k :: 0 <= j < k < |cats| ==> cats[j].id != cats[k].id
    ensures FindIn(cats, cats[i].id) == Some(cats[i])
  {
  }

  /** Over aligned tables, two ids resolving to the same directory agree on
      `isPro`. */
  lemma AlignedGate(cats: seq<CliCategory>, entries: seq<(string, string)>, pro: set<string>, a: string, b: string)
    requires Aligned(cats, entries, pro)
    requires FindIn(cats, a).Some? && FindIn(cats, b).Some?
    requires ResolveIn(entries, a) == ResolveIn(entries, b)
    ensures FindIn(cats, a).value.isPro == FindIn(cats, b).value.isPro
  {
    var i :| 0 <= i < |cats| && cats[i] == FindIn(cats, a).value && cats[i].id == a;
    var j :| 0 <= j < |cats| && cats[j] == FindIn(cats, b).value && cats[j].id == b;
    AlignedKeysDistinct(cats, entries, pro);
    LookupInRoundTrip(entries, i);
    LookupInRoundTrip(entries, j);
    assert entries[i].1 == ResolveIn(entries, a) == ResolveIn(entries, b) == entries[j].1;
  }

  /** The keys of a directory table aligned with a category table are
      distinct. */
  lemma AlignedKeysDistinct(cats: seq<CliCategory>, entries: seq<(string, string)>, pro: set<string>)
    requires Aligned(cats, entries, pro)
    ensures forall j, k :: 0 <= j < k < |entries| ==> entries[j].0 != entries[k].0
  {
    forall j, k | 0 <= j < k < |entries|
      ensures entries[j].0 != entries[k].0
    {
      assert entries[j].0 == cats[j].id && entries[k].0 == cats[k].id;
    }
  }

  lemma TablesAligned()
    ensures Aligned(Categories, DirectoryEntries, ProDirectories)
  {
    CliIdsDistinct();
    EntriesFollowIds();
    ProFollowsDirectory();
  }

  /** Two CLI ids that resolve to the same example directory are both pro or
      both not: an alias cannot reach a pro example past the pro gate. */
  lemma AliasCannotBypassProGate(a: string, b: string)
    requires FindCliCategory(a).Some? && FindCliCategory(b).Some?
    requires ResolveExampleDir(a) == ResolveExampleDir(b)
    ensures FindCliCategory(a).value.isPro == FindCliCategory(b).value.isPro
  {
    TablesAligned();
    AlignedGate(Categories, DirectoryEntries, ProDirectories, a, b);
  }

  /** An entry is pro exactly when its display name ends in ` Pro`. */
  lemma ProFollowsName()
    ensures forall i :: 0 <= i < |Categories| ==>
      (Categories[i].isPro <==> EndsWith(Categories[i].name, " Pro"))
  {
  }

  lemma YieldFarmingEntries()
    ensures Categories[16].id == "yield-farming-pro" && DirectoryEntries[16].1 == "private-yield"
    ensures Categories[29].id == "private-yield" && DirectoryEntries[29].1 == "private-yield"
    ensures Categories[30].id == "yield-farming" && DirectoryEntries[30].1 == "private-yield"
  {
  }

  /** `yield-farming-pro`, its alias `yield-farming` and the short name
      `private-yield` all resolve to the `private-yield` example. */
  lemma YieldFarmingAliases()
    ensures ResolveExampleDir("yield-farming-pro") == "private-yield"
    ensures ResolveExampleDir("yield-farming") == "private-yield"
    ensures ResolveExampleDir("private-yield") == "private-yield"
  {
    YieldFarmingEntries();
    ValidatedIdsUseTable(16);
    ValidatedIdsUseTable(29);
    ValidatedIdsUseTable(30);
  }
}
