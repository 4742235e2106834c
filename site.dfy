/** The project website's script (script.js): the catalogue of examples,
    the tag colours, the category tabs and the search box that narrow the
    catalogue, the card tag, and the command line the "Copy CLI" button
    builds. Rendering, the clipboard and the page's event wiring are not
    modelled; each handler becomes the function that computes what it
    shows or copies. */
module Site {
  import opened Basics

  /** One entry of `examplesData` (its repository link is left out). */
  datatype Example = Example(id: string, name: string, category: string, complexity: string,
                             description: string, details: string, tags: seq<string>)

  /** The first section of `examplesData`: the core concepts. */
  const CoreExamples: seq<Example> := [
    Example("basic-counter", "Basic Counter", "mandatory", "beginner",
            "Simple encrypted counter demonstrating fundamental fhEVM operations.",
            "Learn the basics of storing and manipulating encrypted values with Hardhat.",
            ["Counter", "State", "Encryption"]),
    Example("arithmetic", "Arithmetic Operations", "mandatory", "beginner",
            "Add, subtract, multiply encrypted numbers securely.",
            "Master encrypted arithmetic: addition, subtraction, multiplication, and division.",
            ["Math", "Operations", "Encryption"]),
    Example("comparisons", "Comparisons & Inequalities", "mandatory", "beginner",
            "Compare encrypted values without decryption.",
            "Perform encrypted comparisons (==, <, >, <=, >=) maintaining confidentiality.",
            ["Comparison", "Logic", "FHE"]),
    Example("single-encryption", "User-Side Encryption & Decryption", "mandatory", "intermediate",
            "Encrypt data client-side before sending to contract.",
            "Learn how users encrypt sensitive data locally and submit proofs to the contract.",
            ["Encryption", "User", "Privacy"]),
    Example("multiple-encryption", "Multiple Encryption", "mandatory", "intermediate",
            "Encrypt and manage multiple encrypted values.",
            "Handle batches of encrypted values efficiently in your contracts.",
            ["Encryption", "Batch", "Multiple"]),
    Example("single-decryption-public", "Public Encryption & Decryption", "mandatory", "intermediate",
            "Encrypt and decrypt values within the contract.",
            "Handle contract-level encryption/decryption for transparent computations.",
            ["Public", "Encryption", "Contract"]),
    Example("single-decryption-user", "User-Authorized Decryption", "mandatory", "intermediate",
            "User-authorized decryption with FHE.allow().",
            "Control who can decrypt specific encrypted values securely.",
            ["Decryption", "User", "Authorization"]),
    Example("multiple-decryption", "Multiple Decryption", "mandatory", "intermediate",
            "Decrypt multiple encrypted values efficiently.",
            "Handle efficient decryption of multiple encrypted values.",
            ["Decryption", "Batch", "Multiple"]),
    Example("access-control", "Access Control (FHE.allow)", "mandatory", "intermediate",
            "Control who can decrypt specific encrypted values.",
            "Use FHE.allow() and allowTransient() to manage decryption permissions securely.",
            ["Access Control", "Permissions", "FHE"]),
    Example("input-verification-proofs", "Input Proofs & Verification", "mandatory", "advanced",
            "Prove encrypted inputs without revealing them.",
            "Implement zero-knowledge proofs for encrypted input verification.",
            ["Proofs", "Verification", "ZK"]),
    Example("anti-patterns-guide", "Anti-Patterns & Edge Cases", "mandatory", "advanced",
            "Learn what NOT to do and why patterns fail.",
            "Comprehensive demonstration of common mistakes and their security implications.",
            ["Security", "Best Practices", "Pitfalls"]),
    Example("handles-lifecycle", "Handles & Lifecycle Management", "mandatory", "advanced",
            "Manage encrypted handle lifecycles and expiration.",
            "Understand how encrypted handles work, persist, and expire in fhEVM.",
            ["Handles", "Lifecycle", "Advanced"]),
    Example("oz-erc7984-basic", "OpenZeppelin - ERC7984 Standard", "mandatory", "intermediate",
            "Implement ERC7984 confidential token standard.",
            "Full implementation of OpenZeppelin's encrypted token specification.",
            ["ERC7984", "Token", "Standard"]),
    Example("oz-erc20-wrapper", "OpenZeppelin - Wrappers & Utilities", "mandatory", "intermediate",
            "Use OpenZeppelin wrappers for confidential operations.",
            "Leverage pre-built confidential contract utilities and patterns.",
            ["Utilities", "Wrappers", "Libraries"]),
    Example("swaps", "OpenZeppelin - Confidential Swaps", "mandatory", "advanced",
            "Privacy-preserving DEX swap implementation.",
            "Private token swaps protecting amounts and counterparties.",
            ["Swap", "DEX", "Privacy"]),
    Example("vesting", "OpenZeppelin - Confidential Vesting Wallet", "mandatory", "advanced",
            "Privacy-protected token vesting schedule.",
            "Private vesting wallet with encrypted release schedules.",
            ["Vesting", "Token", "Schedule"]),
    Example("blind-auction", "Blind Auction Pro", "mandatory", "advanced",
            "Sealed-bid auction with encrypted bids.",
            "Complete blind auction where bid amounts remain confidential throughout.",
            ["Auction", "Sealed-Bid", "Privacy"])
  ]

  /** The second section of `examplesData`: the bonus applications. */
  const BonusExamples: seq<Example> := [
    Example("dao-voting-pro", "Confidential DAO Voting", "bonus", "pro",
            "Private governance with encrypted votes and homomorphic tallying.",
            "DAO voting where individual votes remain private until final tally is revealed. Uses homomorphic encryption for vote aggregation.",
            ["DAO", "Governance", "Privacy", "Voting"]),
    Example("private-lending-pro", "Private Lending Pool", "bonus", "pro",
            "Confidential DeFi lending with encrypted loan terms.",
            "Lending protocol where loan amounts, collateral, and interest rates remain confidential. Perfect for institutional finance.",
            ["Lending", "DeFi", "Collateral", "Privacy"]),
    Example("blind-dex-pro", "Blind DEX Order Book", "bonus", "pro",
            "MEV-resistant private DEX with encrypted order matching.",
            "Decentralized exchange with encrypted order books preventing MEV attacks and front-running.",
            ["DEX", "MEV", "Orders", "Privacy"]),
    Example("poker-game-pro", "Encrypted Poker Game", "bonus", "pro",
            "Fair poker game with encrypted hands and provably fair mechanics.",
            "Fully confidential poker where card hands, bets, and outcomes are encrypted and verifiable.",
            ["Gaming", "Poker", "Fair Play", "Privacy"]),
    Example("yield-farming-pro", "Private Yield Farming Positions", "bonus", "pro",
            "Confidential liquidity provision and yield tracking.",
            "Yield farming where deposited amounts, earned yields, and position details remain private from other users.",
            ["Farming", "Yield", "DeFi", "Privacy"]),
    Example("mev-arbitrage-pro", "MEV-Resistant Arbitrage Demo", "bonus", "pro",
            "Encrypted arbitrage opportunities protected from extractors.",
            "Arbitrage bot with encrypted trade paths preventing sandwich attacks and MEV extraction.",
            ["Arbitrage", "MEV", "Trading", "Privacy"]),
    Example("confidential-stablecoin-pro", "Confidential Stablecoin Mint/Burn", "bonus", "pro",
            "Privacy-preserving stablecoin with encrypted issuance and burning.",
            "Stablecoin protocol where mint/burn operations, reserves, and user balances are confidential.",
            ["Stablecoin", "Mint", "Burn", "Privacy"])
  ]

  /** `examplesData`. */
  const ExamplesData: seq<Example> := CoreExamples + BonusExamples

  /** The first section holds 17 `mandatory` entries, none of complexity
      `pro`. */
  lemma CoreSection()
    ensures |CoreExamples| == 17
    ensures forall i :: 0 <= i < |CoreExamples| ==> CoreExamples[i].category == "mandatory" && CoreExamples[i].complexity != "pro"
  {
  }

  /** The second section holds 7 `bonus` entries, all of complexity
      `pro`. */
  lemma BonusSection()
    ensures |BonusExamples| == 7
    ensures forall i :: 0 <= i < |BonusExamples| ==> BonusExamples[i].category == "bonus" && BonusExamples[i].complexity == "pro"
  {
  }

  /** A catalogue made of a section of non-pro `mandatory` entries followed
      by a section of pro `bonus` entries: its entries are `bonus` exactly
      when they are `pro`, and its first entries are the mandatory ones. */
  lemma SectionsLayout(core: seq<Example>, bonus: seq<Example>)
    requires forall i :: 0 <= i < |core| ==> core[i].category == "mandatory" && core[i].complexity != "pro"
    requires forall i :: 0 <= i < |bonus| ==> bonus[i].category == "bonus" && bonus[i].complexity == "pro"
    ensures forall i :: 0 <= i < |core + bonus| ==>
      ((core + bonus)[i].category == "mandatory" <==> i < |core|) &&
      ((core + bonus)[i].category == "bonus" <==> (core + bonus)[i].complexity == "pro")
  {
    forall i | 0 <= i < |core + bonus|
      ensures ((core + bonus)[i].category == "mandatory" <==> i < |core|)
      ensures ((core + bonus)[i].category == "bonus" <==> (core + bonus)[i].complexity == "pro")
    {
      if i < |core| {
        assert (core + bonus)[i] == core[i];
      } else {
        assert (core + bonus)[i] == bonus[i - |core|];
      }
    }
  }

  // ---------------------------------------------------------------------
  // Tag colours
  // ---------------------------------------------------------------------

  datatype Color = Teal | Purple | Red

  function ColorName(c: Color): (r: string)
    ensures r == "teal" || r == "purple" || r == "red"
  {
    match c
    case Teal => "teal"
    case Purple => "purple"
    case Red => "red"
  }

  /** `colorMap` of `getTagColor`, as its key/value pairs in source
      order. */
  const ColorEntries: seq<(string, Color)> := [
    ("Counter", Teal),
    ("State", Teal),
    ("Encryption", Teal),
    ("Math", Purple),
    ("Operations", Purple),
    ("Comparison", Purple),
    ("Logic", Teal),
    ("FHE", Teal),
    ("User", Purple),
    ("Privacy", Teal),
    ("Public", Purple),
    ("Contract", Purple),
    ("Access Control", Purple),
    ("Permissions", Teal),
    ("Proofs", Teal),
    ("Verification", Purple),
    ("ZK", Teal),
    ("Security", Teal),
    ("Best Practices", Purple),
    ("Pitfalls", Red),
    ("Handles", Purple),
    ("Lifecycle", Teal),
    ("Advanced", Teal),
    ("Analysis", Purple),
    ("Testing", Teal),
    ("ERC7984", Teal),
    ("Token", Purple),
    ("Standard", Teal),
    ("Utilities", Purple),
    ("Wrappers", Teal),
    ("Libraries", Purple),
    ("Swap", Teal),
    ("DEX", Purple),
    ("Vesting", Teal),
    ("Schedule", Purple),
    ("Auction", Teal),
    ("Sealed-Bid", Purple),
    ("DAO", Teal),
    ("Governance", Purple),
    ("Voting", Teal),
    ("Lending", Teal),
    ("DeFi", Purple),
    ("Collateral", Teal),
    ("MEV", Purple),
    ("Orders", Teal),
    ("Gaming", Teal),
    ("Poker", Purple),
    ("Fair Play", Teal),
    ("Farming", Purple),
    ("Yield", Teal),
    ("Trading", Purple),
    ("Arbitrage", Teal),
    ("Stablecoin", Purple),
    ("Mint", Teal),
    ("Burn", Purple)
  ]

  /** The colour `entries` give `tag`: its first pair, if any. */
  function ColorIn(entries: seq<(string, Color)>, tag: string): (r: Option<Color>)
    ensures r.Some? ==> exists k :: 0 <= k < |entries| && entries[k] == (tag, r.value)
    ensures r.None? <==> forall k :: 0 <= k < |entries| ==> entries[k].0 != tag
  {
    match FindFirst(entries, (e: (string, Color)) => e.0 == tag)
    case Some(e) => Some(e.1)
    case None => None
  }

  /** `colorMap[tag] || 'teal'` against the pairs `entries`. */
  function TagColorIn(entries: seq<(string, Color)>, tag: string): (r: string)
    ensures r == "teal" || r == "purple" || r == "red"
  {
    match ColorIn(entries, tag)
    case Some(c) => ColorName(c)
    case None => "teal"
  }

  /** `getTagColor(tag)`. */
  function GetTagColor(tag: string): string {
    TagColorIn(ColorEntries, tag)
  }

  /** A tag the map knows gets the colour of its pair, whatever that colour
      is; any other tag is teal. The keys of `ColorEntries` are distinct, so
      each listed tag has one pair. */
  lemma TagColorSpec(entries: seq<(string, Color)>, tag: string, k: nat)
    requires k < |entries| && entries[k].0 == tag
    requires forall j :: 0 <= j < k ==> entries[j].0 != tag
    ensures TagColorIn(entries, tag) == ColorName(entries[k].1)
  {
    FindFirstAt(entries, (e: (string, Color)) => e.0 == tag, k);
  }

  /** A tag without a pair is teal. */
  lemma UnknownTagIsTeal(entries: seq<(string, Color)>, tag: string)
    requires forall k :: 0 <= k < |entries| ==> entries[k].0 != tag
    ensures TagColorIn(entries, tag) == "teal"
  {
  }

  // ---------------------------------------------------------------------
  // Cards
  // ---------------------------------------------------------------------

  /** The tag class and label `createCategoryCard` puts on a card. */
  function CardTag(ex: Example): (string, string) {
    if ex.category == "mandatory" then ("tag-basic", "Core Concept") else ("tag-pro", "Innovative App")
  }

  /** A card is marked as a core concept exactly when its entry is
      `mandatory`, and as an innovative app otherwise; in the catalogue
      that is the first 17 cards. */
  lemma CardTagSpec(ex: Example)
    ensures CardTag(ex).0 == "tag-basic" <==> ex.category == "mandatory"
    ensures CardTag(ex).1 == "Core Concept" <==> ex.category == "mandatory"
    ensures CardTag(ex).0 == "tag-pro" <==> CardTag(ex).1 == "Innovative App"
  {
  }

  // ---------------------------------------------------------------------
  // Category tabs and search
  // ---------------------------------------------------------------------

  function IsCategory(category: string): Example -> bool {
    (ex: Example) => ex.category == category
  }

  /** The tab filter: `mandatory` and `bonus` keep their own entries, any
      other tab keeps everything. */
  function CategoryFilter(data: seq<Example>, filterType: string): seq<Example> {
    if filterType == "mandatory" then Filter(data, IsCategory("mandatory"))
    else if filterType == "bonus" then Filter(data, IsCategory("bonus"))
    else data
  }

  /** Some tag of `ex`, lowercased, contains `term`. */
  predicate SomeTagContains(ex: Example, term: string) {
    exists i :: 0 <= i < |ex.tags| && Contains(ToLower(ex.tags[i]), term)
  }

  /** The search predicate of `filterCategories`. */
  predicate Matches(ex: Example, term: string) {
    Contains(ToLower(ex.name), term) || Contains(ToLower(ex.description), term) || SomeTagContains(ex, term)
  }

  /** The search predicate of the live search box, which also looks at
      `details`. */
  predicate LiveMatches(ex: Example, term: string) {
    Contains(ToLower(ex.name), term) || Contains(ToLower(ex.description), term) ||
    Contains(ToLower(ex.details), term) || SomeTagContains(ex, term)
  }

  function Matching(term: string): Example -> bool {
    (ex: Example) => Matches(ex, term)
  }

  function LiveMatching(term: string): Example -> bool {
    (ex: Example) => LiveMatches(ex, term)
  }

  /** `filterCategories(filterType)` with the search box holding `input`:
      the entries it renders. */
  function FilterCategories(data: seq<Example>, filterType: string, input: string): seq<Example> {
    var term := ToLower(input);
    var base := CategoryFilter(data, filterType);
    if term == "" then base else Filter(base, Matching(term))
  }

  /** The live search handler with the active tab `activeFilter` (`all`
      when none is active) and the box holding `input`. */
  function LiveSearch(data: seq<Example>, activeFilter: string, input: string): seq<Example> {
    var term := ToLower(input);
    var base := CategoryFilter(data, activeFilter);
    if term == "" then base else Filter(base, LiveMatching(term))
  }

  /** A tab keeps exactly the entries of its category, with their
      multiplicities and in catalogue order; any other tab keeps the whole
      catalogue. */
  lemma CategoryFilterSpec(data: seq<Example>, filterType: string)
    ensures IsSubsequence(CategoryFilter(data, filterType), data)
    ensures filterType == "mandatory" || filterType == "bonus" ==>
      forall ex :: multiset(CategoryFilter(data, filterType))[ex] ==
        if ex.category == filterType then multiset(data)[ex] else 0
    ensures filterType != "mandatory" && filterType != "bonus" ==> CategoryFilter(data, filterType) == data
  {
    if filterType == "mandatory" || filterType == "bonus" {
      FilterSpec(data, IsCategory(filterType));
    } else {
      SubsequenceRefl(data);
    }
  }

  /** An empty search adds nothing to the tab; otherwise the search keeps
      exactly the tab's entries whose name, description or some tag
      contains the lowercased term, in order. */
  lemma SearchSpec(data: seq<Example>, filterType: string, input: string)
    ensures var base := CategoryFilter(data, filterType);
      var shown := FilterCategories(data, filterType, input);
      && IsSubsequence(shown, base)
      && (input == "" ==> shown == base)
      && (input != "" ==>
            forall ex :: multiset(shown)[ex] == if Matches(ex, ToLower(input)) then multiset(base)[ex] else 0)
  {
    var base := CategoryFilter(data, filterType);
    var term := ToLower(input);
    if term == "" {
      SubsequenceRefl(base);
    } else {
      FilterSpec(base, Matching(term));
    }
  }

  /** For the same tab and term, the live search box shows every entry the
      tab filter shows, in the same order. */
  lemma LiveSearchShowsMore(data: seq<Example>, filterType: string, input: string)
    ensures IsSubsequence(FilterCategories(data, filterType, input), LiveSearch(data, filterType, input))
  {
    var base := CategoryFilter(data, filterType);
    var term := ToLower(input);
    if term == "" {
      SubsequenceRefl(base);
    } else {
      FilterMonotone(base, Matching(term), LiveMatching(term));
    }
  }

  lemma {:induction false} SubsequenceRefl<T>(s: seq<T>)
    ensures IsSubsequence(s, s)
    decreases |s|
  {
    if s != [] {
      SubsequenceRefl(s[1..]);
    }
  }

  // ---------------------------------------------------------------------
  // The command `copyCLI` copies
  // ---------------------------------------------------------------------

  /** Whitespace at the front of `s` removed. */
  function DropSpaces(s: string): (r: string)
    ensures |r| <= |s| && r == s[|s| - |r|..]
    ensures r != [] ==> !IsSpace(r[0])
  {
    if s != [] && IsSpace(s[0]) then DropSpaces(s[1..]) else s
  }

  /** `.replace(/\s+/g, '-')`: every run of whitespace becomes one `-`. */
  function CollapseSpaces(s: string): string
    decreases |s|
  {
    if s == [] then []
    else if IsSpace(s[0]) then "-" + CollapseSpaces(DropSpaces(s[1..]))
    else [s[0]] + CollapseSpaces(s[1..])
  }

  predicate NoSpace(s: string) {
    forall i :: 0 <= i < |s| ==> !IsSpace(s[i])
  }

  /** The result holds no whitespace, and each of its characters is a `-`
      or a character of the input; an input without whitespace comes back
      unchanged. */
  lemma CollapseSpacesSpec(s: string)
    ensures NoSpace(CollapseSpaces(s))
    ensures forall i :: 0 <= i < |CollapseSpaces(s)| ==> CollapseSpaces(s)[i] == '-' || CollapseSpaces(s)[i] in s
    ensures NoSpace(s) ==> CollapseSpaces(s) == s
  {
    CollapseNoSpace(s);
    CollapseChars(s);
    if NoSpace(s) {
      CollapseIdentity(s);
    }
  }

  lemma {:induction false} CollapseNoSpace(s: string)
    ensures NoSpace(CollapseSpaces(s))
    decreases |s|
  {
    if s != [] {
      if IsSpace(s[0]) {
        CollapseNoSpace(DropSpaces(s[1..]));
        assert CollapseSpaces(s) == "-" + CollapseSpaces(DropSpaces(s[1..]));
      } else {
        CollapseNoSpace(s[1..]);
        assert CollapseSpaces(s) == [s[0]] + CollapseSpaces(s[1..]);
      }
    }
  }

  lemma CollapseChars(s: string)
    ensures forall i :: 0 <= i < |CollapseSpaces(s)| ==> CollapseSpaces(s)[i] == '-' || CollapseSpaces(s)[i] in s
  {
    var q := (c: char) => c == '-' || c in s;
    forall i | 0 <= i < |s| ensures q(s[i]) { assert s[i] in s; }
    CollapseKeeps(s, q);
  }

  /** A property of `-` and of every input character holds of every
      character of the result. */
  lemma {:induction false} CollapseKeeps(s: string, q: char -> bool)
    requires q('-') && forall i :: 0 <= i < |s| ==> q(s[i])
    ensures forall i :: 0 <= i < |CollapseSpaces(s)| ==> q(CollapseSpaces(s)[i])
    decreases |s|
  {
    if s != [] {
      var r := CollapseSpaces(s);
      var t := if IsSpace(s[0]) then DropSpaces(s[1..]) else s[1..];
      assert forall i :: 0 <= i < |t| ==> t[i] == s[|s| - |t| + i];
      CollapseKeeps(t, q);
      assert r == (if IsSpace(s[0]) then "-" else [s[0]]) + CollapseSpaces(t);
      assert q(r[0]);
      assert forall i :: 1 <= i < |r| ==> r[i] == CollapseSpaces(t)[i - 1];
    }
  }

  lemma {:induction false} CollapseIdentity(s: string)
    requires NoSpace(s)
    ensures CollapseSpaces(s) == s
    decreases |s|
  {
    if s != [] {
      assert !IsSpace(s[0]);
      assert NoSpace(s[1..]) by {
        forall i | 0 <= i < |s[1..]| ensures !IsSpace(s[1..][i]) { assert s[1..][i] == s[i + 1]; }
      }
      CollapseIdentity(s[1..]);
    }
  }

  function IsNotParen(c: char): bool {
    c != '(' && c != ')'
  }

  /** The project name `copyCLI` derives from an entry's name: lowercased,
      whitespace runs turned into `-`, parentheses removed, then cut to at
      most 30 characters. */
  function Slug(name: string): string {
    var t := Filter(CollapseSpaces(ToLower(name)), IsNotParen);
    t[..if |t| < 30 then |t| else 30]
  }

  /** A name in the form `Slug` produces. */
  predicate IsSlug(s: string) {
    |s| <= 30 && forall i :: 0 <= i < |s| ==> !IsSpace(s[i]) && IsNotParen(s[i]) && !IsUpper(s[i])
  }

  /** No whitespace and no upper-case letter. */
  predicate IsLowerWord(c: char) {
    !IsSpace(c) && !IsUpper(c)
  }

  /** After lowercasing and collapsing whitespace no character is upper
      case or whitespace. */
  lemma CollapsedLower(name: string)
    ensures forall i :: 0 <= i < |CollapseSpaces(ToLower(name))| ==> IsLowerWord(CollapseSpaces(ToLower(name))[i])
  {
    var l := ToLower(name);
    var c := CollapseSpaces(l);
    CollapseSpacesSpec(l);
    forall i | 0 <= i < |c| ensures IsLowerWord(c[i]) {
      if c[i] != '-' {
        var j :| 0 <= j < |l| && l[j] == c[i];
      }
    }
  }

  /** The derived name is at most 30 characters long and holds no
      whitespace, no parenthesis and no upper-case letter; it is the start
      of the uncut name. */
  lemma SlugSpec(name: string)
    ensures IsSlug(Slug(name))
    ensures StartsWith(Filter(CollapseSpaces(ToLower(name)), IsNotParen), Slug(name))
  {
    var c := CollapseSpaces(ToLower(name));
    var t := Filter(c, IsNotParen);
    CollapsedLower(name);
    FilterKeepsProperty(c, IsNotParen, IsLowerWord);
    var r := Slug(name);
    assert r == t[..|r|];
    forall i | 0 <= i < |r| ensures !IsSpace(r[i]) && IsNotParen(r[i]) && !IsUpper(r[i]) {
      assert r[i] == t[i];
      assert IsLowerWord(t[i]);
    }
  }

  /** A name already in slug form is its own slug, so deriving twice gives
      the same name as deriving once. */
  lemma SlugIdempotent(name: string)
    ensures IsSlug(name) ==> Slug(name) == name
    ensures Slug(Slug(name)) == Slug(name)
  {
    SlugOfSlug(name);
    SlugSpec(name);
    SlugOfSlug(Slug(name));
  }

  lemma SlugOfSlug(s: string)
    ensures IsSlug(s) ==> Slug(s) == s
  {
    if IsSlug(s) {
      assert ToLower(s) == s;
      CollapseSpacesSpec(s);
      FilterKeepsAll(s, IsNotParen);
    }
  }

  /** The command `copyCLI` copies for a project name, a category and the
      pro flag. */
  function Command(projectName: string, categoryId: string, pro: bool): string {
    CloneAndCreate + projectName + "\" --category " + categoryId + (if pro then " --pro" else "")
  }

  /** Clone the repository, install, and start `create` up to the opening
      quote of the project name. */
  const CloneAndCreate: string :=
    "git clone https://github.com/Fredincorporation/fhEVM-Playground.git && cd fhEVM-Playground/central-repo"
    + " && npm install && npm start -- create --name \""

  /** The command copied when no entry is selected. */
  const DefaultCommand: string := CloneAndCreate + "my-example\" --category basic-counter"

  /** `examplesData.find(ex => ex.id === id)` on the catalogue `data`. */
  function FindExample(data: seq<Example>, id: string): Option<Example> {
    FindFirst(data, (ex: Example) => ex.id == id)
  }

  /** `copyCLI(button, categoryId)` against the catalogue `data`; `None` is
      the `null` default. */
  function CopyCliIn(data: seq<Example>, categoryId: Option<string>): string {
    if categoryId.None? || categoryId.value == "" then DefaultCommand
    else match FindExample(data, categoryId.value)
      case None => DefaultCommand
      case Some(ex) => Command(Slug(ex.name), categoryId.value, ex.complexity == "pro")
  }

  /** `copyCLI` against `examplesData`. */
  function CopyCli(categoryId: Option<string>): string {
    CopyCliIn(ExamplesData, categoryId)
  }

  /** The default is the command for `my-example` in `basic-counter`,
      without the flag. */
  lemma DefaultIsCommand()
    ensures DefaultCommand == Command("my-example", "basic-counter", false)
  {
    assert "my-example\" --category basic-counter" == "my-example" + "\" --category " + "basic-counter";
  }

  /** With no id, an empty one or one the catalogue lacks, the default
      command is copied; for an entry found, the command names the entry's
      derived project name and its id, and ends in ` --pro` when the entry
      is of complexity `pro`, in the id otherwise. */
  lemma CopyCliSpec(data: seq<Example>, categoryId: Option<string>)
    ensures categoryId.None? || categoryId == Some("") ==> CopyCliIn(data, categoryId) == DefaultCommand
    ensures categoryId.Some? && (forall i :: 0 <= i < |data| ==> data[i].id != categoryId.value) ==>
      CopyCliIn(data, categoryId) == DefaultCommand
    ensures categoryId.Some? && categoryId.value != "" && FindExample(data, categoryId.value).Some? ==>
      var ex := FindExample(data, categoryId.value).value;
      && ex in data && ex.id == categoryId.value
      && CopyCliIn(data, categoryId) == Command(Slug(ex.name), ex.id, ex.complexity == "pro")
  {
  }

  /** The command for an entry ends in ` --pro` when the flag is set, and in
      ` --category <id>` when it is not. */
  lemma CommandEnds(projectName: string, categoryId: string, pro: bool)
    ensures pro ==> EndsWith(Command(projectName, categoryId, pro), " --pro")
    ensures !pro ==> EndsWith(Command(projectName, categoryId, pro), " --category " + categoryId)
  {
    var head := CloneAndCreate + projectName + "\"";
    var c := Command(projectName, categoryId, pro);
    if pro {
      assert c == (head + " --category " + categoryId) + " --pro";
    } else {
      assert c == head + (" --category " + categoryId);
    }
  }

  /** In a catalogue whose `bonus` entries are exactly its `pro` ones, the
      command of a bonus entry ends in ` --pro`, and that of any other entry
      ends in its id. */
  lemma ProFlagForBonus(data: seq<Example>, id: string)
    requires forall i :: 0 <= i < |data| ==> (data[i].category == "bonus" <==> data[i].complexity == "pro")
    requires id != "" && FindExample(data, id).Some?
    ensures FindExample(data, id).value.category == "bonus" ==> EndsWith(CopyCliIn(data, Some(id)), " --pro")
    ensures FindExample(data, id).value.category != "bonus" ==> EndsWith(CopyCliIn(data, Some(id)), " --category " + id)
  {
    CopyCliSpec(data, Some(id));
    var ex := FindExample(data, id).value;
    var k :| 0 <= k < |data| && data[k] == ex;
    CommandEnds(Slug(ex.name), id, ex.complexity == "pro");
  }
}
