/** Resolving an asset to the provider's asset id: two independent lookup loops over the supported
    assets, and a cache in front of them whose keys are joined strings. */
module Resolver {
  import opened Basics

  /** A supported asset as the provider lists it; an absent or null address is "". */
  datatype FbAsset = FbAsset(id: string, contract: string, issuer: string, kind: string, native: string, symbol: string)

  datatype AssetRow = AssetRow(symbol: string, blockchain: string, contract: Option<string>, testnet: Option<string>)

  /** Native symbol to provider asset id, for test networks and for main networks. */
  datatype NativeMap = NativeMap(dev: map<string, string>, prod: map<string, string>) {
    function For(isTestnet: bool): map<string, string> { if isTestnet then dev else prod }
  }

  predicate IsTest(a: FbAsset) {
    Contains(Upper(a.id), "TEST") || Contains(Upper(a.kind), "TEST") || Contains(Upper(a.native), "TEST")
  }

  /** The position of the first element that satisfies `p`. */
  function First<T>(s: seq<T>, p: T -> bool): (r: Option<nat>)
    ensures r.Some? ==> r.value < |s| && p(s[r.value]) && forall j :: 0 <= j < r.value ==> !p(s[j])
    ensures r.None? ==> forall j :: 0 <= j < |s| ==> !p(s[j])
  {
    if |s| == 0 then None
    else if p(s[0]) then Some(0)
    else
      var rest := First(s[1..], p);
      assert forall j :: 1 <= j < |s| ==> s[j] == s[1..][j - 1];
      if rest.Some? then Some(rest.value + 1) else None
  }

  lemma FirstIs<T>(s: seq<T>, p: T -> bool, i: nat)
    requires i < |s| && p(s[i]) && forall j :: 0 <= j < i ==> !p(s[j])
    ensures First(s, p) == Some(i)
  {}

  lemma SameFirst<T>(s: seq<T>, p: T -> bool, q: T -> bool)
    requires forall x :: x in s ==> p(x) == q(x)
    ensures First(s, p) == First(s, q)
  {}

  function IdAt(assets: seq<FbAsset>, i: Option<nat>): Option<string>
    requires i.Some? ==> i.value < |assets|
  {
    if i.Some? then Some(assets[i.value].id) else None
  }

  // ----- what each loop looks for -----

  /** The service's match: each address counts only when the asset has one. */
  predicate ServiceMatch(a: FbAsset, contract: string) {
    (a.contract != "" && Lower(a.contract) == Lower(contract)) || (a.issuer != "" && Lower(a.issuer) == Lower(contract))
  }

  /** The resolver's match: membership in the list of both addresses, present or not. */
  predicate ResolverMatch(a: FbAsset, contract: string) {
    Lower(contract) in [Lower(a.contract), Lower(a.issuer)]
  }

  predicate NativeMatch(a: FbAsset, currency: string, isTestnet: bool) {
    && a.contract == ""
    && IsTest(a) == isTestnet
    && (a.id == currency || (currency + "_") <= a.id || Upper(a.symbol) == currency)
  }

  function ByServiceContract(assets: seq<FbAsset>, contract: string, isTestnet: bool): (r: Option<nat>)
    ensures r.Some? ==> r.value < |assets|
  {
    First(assets, (a: FbAsset) => ServiceMatch(a, contract) && IsTest(a) == isTestnet)
  }

  function ByResolverContract(assets: seq<FbAsset>, contract: string, isTestnet: bool): (r: Option<nat>)
    ensures r.Some? ==> r.value < |assets|
  {
    First(assets, (a: FbAsset) => ResolverMatch(a, contract) && IsTest(a) == isTestnet)
  }

  function ByMappedId(assets: seq<FbAsset>, id: string): (r: Option<nat>)
    ensures r.Some? ==> r.value < |assets|
  {
    First(assets, (a: FbAsset) => Upper(a.id) == Upper(id))
  }

  function ByCurrency(assets: seq<FbAsset>, currency: string, isTestnet: bool): (r: Option<nat>)
    ensures r.Some? ==> r.value < |assets|
  {
    First(assets, (a: FbAsset) => NativeMatch(a, Upper(currency), isTestnet))
  }

  function FindNative(assets: seq<FbAsset>, natives: NativeMap, currency: string, isTestnet: bool): (r: Option<nat>)
    ensures r.Some? ==> r.value < |assets|
  {
    var mapped := natives.For(isTestnet);
    var i := if Upper(currency) in mapped then ByMappedId(assets, mapped[Upper(currency)]) else None;
    if i.Some? then i else ByCurrency(assets, currency, isTestnet)
  }

  /** A non-empty contract is searched by address; anything else is a native coin. */
  function Find(assets: seq<FbAsset>, natives: NativeMap, currency: string, contract: Option<string>, isTestnet: bool)
    : (r: Option<nat>)
    ensures r.Some? ==> r.value < |assets|
  {
    if contract.Some? && contract.value != "" then ByServiceContract(assets, contract.value, isTestnet)
    else FindNative(assets, natives, currency, isTestnet)
  }

  /** An asset is of a test network if and only if its id, its type or its native asset spells "test" in any
      case. */
  lemma IsTestSpelled(a: FbAsset)
    ensures IsTest(a) <==> || (exists i: nat :: StandsAt(Upper(a.id), "TEST", i))
                           || (exists i: nat :: StandsAt(Upper(a.kind), "TEST", i))
                           || (exists i: nat :: StandsAt(Upper(a.native), "TEST", i))
  {
    ContainsIff(Upper(a.id), "TEST");
    ContainsIff(Upper(a.kind), "TEST");
    ContainsIff(Upper(a.native), "TEST");
  }

  /** Asset `i` is the first on the list with this id, in any case. */
  ghost predicate ListedAt(assets: seq<FbAsset>, id: string, i: nat) {
    && i < |assets| && Upper(assets[i].id) == Upper(id)
    && forall j :: 0 <= j < i ==> Upper(assets[j].id) != Upper(id)
  }

  /** Nothing is on the list with this id. */
  ghost predicate Unlisted(assets: seq<FbAsset>, id: string) {
    forall j :: 0 <= j < |assets| ==> Upper(assets[j].id) != Upper(id)
  }

  /** A coin without an address, of the right kind of network, that has the name as id, as the part of its id
      before an underscore, or as symbol. */
  ghost predicate GoesBy(a: FbAsset, name: string, isTestnet: bool) {
    && a.contract == "" && (IsTest(a) <==> isTestnet)
    && (a.id == name || (|name| < |a.id| && a.id[..|name|] == name && a.id[|name|] == '_') || Upper(a.symbol) == name)
  }

  /** Which asset either loop finds by contract: the first of the right kind of network that has the contract as
      one of its addresses, in any case. */
  lemma ContractLookupSpelled(assets: seq<FbAsset>, natives: NativeMap, currency: string, contract: string,
                              isTestnet: bool, i: nat)
    requires i < |assets|
    ensures ByResolverContract(assets, contract, isTestnet) == Some(i) <==>
            && (Lower(assets[i].contract) == Lower(contract) || Lower(assets[i].issuer) == Lower(contract))
            && (IsTest(assets[i]) <==> isTestnet)
            && forall j :: 0 <= j < i && (IsTest(assets[j]) <==> isTestnet) ==>
                 Lower(assets[j].contract) != Lower(contract) && Lower(assets[j].issuer) != Lower(contract)
    ensures contract != "" ==> Find(assets, natives, currency, Some(contract), isTestnet)
                               == ByResolverContract(assets, contract, isTestnet)
  {
    if contract != "" { TwoLookupsAgree(assets, natives, currency, contract, isTestnet); }
  }

  /** Which asset the lookup finds for a native coin: the one that the table of the network, "dev" for test
      networks and "prod" for the others, names for the currency; failing that the first that goes by it. */
  lemma NativeLookupSpelled(assets: seq<FbAsset>, natives: NativeMap, currency: string, contract: Option<string>,
                            isTestnet: bool, i: nat)
    requires contract in {None, Some("")} && i < |assets|
    ensures var name, found := Upper(currency), Find(assets, natives, currency, contract, isTestnet);
            && (isTestnet && name in natives.dev && ListedAt(assets, natives.dev[name], i) ==> found == Some(i))
            && (!isTestnet && name in natives.prod && ListedAt(assets, natives.prod[name], i) ==> found == Some(i))
            && ((isTestnet ==> name !in natives.dev || Unlisted(assets, natives.dev[name]))
                && (!isTestnet ==> name !in natives.prod || Unlisted(assets, natives.prod[name])) ==>
                  (found == Some(i) <==> GoesBy(assets[i], name, isTestnet)
                                         && forall j :: 0 <= j < i ==> !GoesBy(assets[j], name, isTestnet)))
  {
    var name := Upper(currency);
    forall j | 0 <= j < |assets|
      ensures NativeMatch(assets[j], name, isTestnet) <==> GoesBy(assets[j], name, isTestnet)
    {
      var id := assets[j].id;
      assert (name + "_") <= id <==> |name| < |id| && id[..|name|] == name && id[|name|] == '_';
    }
  }

  /** The service's lookup, one early-returning scan per branch. */
  method FindAssetByContractOrCurrency(assets: seq<FbAsset>, natives: NativeMap, currency: string,
                                       contract: Option<string>, isTestnet: bool)
    returns (r: Option<nat>)
    ensures r == Find(assets, natives, currency, contract, isTestnet)
    ensures contract in {None, Some("")} && isTestnet && Upper(currency) in natives.dev ==>
              forall i: nat :: ListedAt(assets, natives.dev[Upper(currency)], i) ==> r == Some(i)
    ensures contract in {None, Some("")} && !isTestnet && Upper(currency) in natives.prod ==>
              forall i: nat :: ListedAt(assets, natives.prod[Upper(currency)], i) ==> r == Some(i)
  {
    forall i: nat | contract in {None, Some("")} && i < |assets| {
      NativeLookupSpelled(assets, natives, currency, contract, isTestnet, i);
    }
    if contract.Some? && contract.value != "" {
      r := ScanContract(assets, contract.value, isTestnet);
      return;
    }
    var mapped := natives.For(isTestnet);
    if Upper(currency) in mapped {
      r := ScanMapped(assets, mapped[Upper(currency)]);
      if r.Some? { return; }
    }
    r := ScanCurrency(assets, currency, isTestnet);
  }

  method ScanContract(assets: seq<FbAsset>, contract: string, isTestnet: bool) returns (r: Option<nat>)
    ensures r == ByServiceContract(assets, contract, isTestnet)
  {
    var lower := Lower(contract);
    for i := 0 to |assets|
      invariant forall j :: 0 <= j < i ==> !(ServiceMatch(assets[j], contract) && IsTest(assets[j]) == isTestnet)
    {
      var a := assets[i];
      var contractMatches := if a.contract != "" then Lower(a.contract) == lower else false;
      var issuerMatches := if a.issuer != "" then Lower(a.issuer) == lower else false;
      if contractMatches || issuerMatches {
        if IsTest(a) == isTestnet { return Some(i); }
      }
    }
    return None;
  }

  method ScanMapped(assets: seq<FbAsset>, id: string) returns (r: Option<nat>)
    ensures r == ByMappedId(assets, id)
  {
    for i := 0 to |assets|
      invariant forall j :: 0 <= j < i ==> Upper(assets[j].id) != Upper(id)
    {
      if Upper(assets[i].id) == Upper(id) { return Some(i); }
    }
    return None;
  }

  method ScanCurrency(assets: seq<FbAsset>, currency: string, isTestnet: bool) returns (r: Option<nat>)
    ensures r == ByCurrency(assets, currency, isTestnet)
  {
    var upper := Upper(currency);
    for i := 0 to |assets|
      invariant forall j :: 0 <= j < i ==> !NativeMatch(assets[j], upper, isTestnet)
    {
      var a := assets[i];
      if a.contract == "" {
        if IsTest(a) == isTestnet {
          if a.id == upper || (upper + "_") <= a.id || Upper(a.symbol) == upper { return Some(i); }
        }
      }
    }
    return None;
  }

  // ----- the two loops agree -----

  lemma LowerIsEmpty(s: string)
    ensures Lower(s) == "" <==> s == ""
  {}

  /** For a non-empty contract the resolver's loop finds exactly the asset the service's loop finds,
      both skipping matches on the wrong kind of network. */
  lemma TwoLookupsAgree(assets: seq<FbAsset>, natives: NativeMap, currency: string, contract: string, isTestnet: bool)
    requires contract != ""
    ensures ByResolverContract(assets, contract, isTestnet)
         == Find(assets, natives, currency, Some(contract), isTestnet)
  {
    LowerIsEmpty(contract);
    forall a | a in assets ensures ServiceMatch(a, contract) == ResolverMatch(a, contract) {
      LowerIsEmpty(a.contract);
      LowerIsEmpty(a.issuer);
    }
    SameFirst(assets, (a: FbAsset) => ResolverMatch(a, contract) && IsTest(a) == isTestnet,
              (a: FbAsset) => ServiceMatch(a, contract) && IsTest(a) == isTestnet);
  }

  // ----- queries and their cache keys -----

  /** The arguments of `resolve`, `resolve_by_contract` and `resolve_native`; all three share the cache. */
  datatype Query =
    | OfAsset(row: AssetRow)
    | OfContract(contract: string, blockchain: string, isTestnet: bool)
    | OfNative(blockchain: string, symbol: string, isTestnet: bool)

  function OrElse(s: Option<string>, other: string): string {
    if s.Some? && s.value != "" then s.value else other
  }

  function Join(a: string, b: string, c: string): string { a + ":" + b + ":" + c }

  function Key(q: Query): string {
    match q
    case OfAsset(row) => Join(row.blockchain, OrElse(row.contract, "NATIVE"), OrElse(row.testnet, "MAINNET"))
    case OfContract(contract, blockchain, isTestnet) =>
      Join(blockchain, contract, if isTestnet then "TESTNET" else "MAINNET")
    case OfNative(blockchain, _, isTestnet) => Join(blockchain, "NATIVE", if isTestnet then "TESTNET" else "MAINNET")
  }

  /** The native path believes the table of native coins before it looks at the provider's list. */
  function UncachedNative(assets: seq<FbAsset>, natives: NativeMap, symbol: string, isTestnet: bool): Option<string> {
    var mapped := natives.For(isTestnet);
    if Upper(symbol) in mapped && mapped[Upper(symbol)] != "" then Some(mapped[Upper(symbol)])
    else IdAt(assets, FindNative(assets, natives, symbol, isTestnet))
  }

  /** The answer without a cache. */
  function Uncached(assets: seq<FbAsset>, natives: NativeMap, q: Query): Option<string> {
    match q
    case OfAsset(row) => IdAt(assets, Find(assets, natives, row.symbol, row.contract, row.testnet.Some?))
    case OfContract(contract, _, isTestnet) => IdAt(assets, ByResolverContract(assets, contract, isTestnet))
    case OfNative(_, symbol, isTestnet) => UncachedNative(assets, natives, symbol, isTestnet)
  }

  /** If the table of native coins names an asset, the provider's list has it in that spelling. */
  predicate Grounded(assets: seq<FbAsset>, natives: NativeMap, symbol: string, isTestnet: bool) {
    var mapped := natives.For(isTestnet);
    Upper(symbol) in mapped && mapped[Upper(symbol)] != "" ==>
      IdAt(assets, ByMappedId(assets, mapped[Upper(symbol)])) == Some(mapped[Upper(symbol)])
  }

  predicate NativeGrounded(assets: seq<FbAsset>, natives: NativeMap, q: Query) {
    q.OfNative? ==> Grounded(assets, natives, q.symbol, q.isTestnet)
  }

  /** The native path answers what the general path answers exactly when it is grounded. */
  lemma NativePathAgreesIff(assets: seq<FbAsset>, natives: NativeMap, symbol: string, isTestnet: bool)
    ensures UncachedNative(assets, natives, symbol, isTestnet)
            == IdAt(assets, FindNative(assets, natives, symbol, isTestnet))
       <==> Grounded(assets, natives, symbol, isTestnet)
  {}

  predicate ColonFree(s: string) { ':' !in s }

  /** Fields without a colon, no contract spelled "NATIVE", no test network spelled "MAINNET" or
      left empty, and one native symbol per blockchain and network. */
  predicate Proper(q: Query, nativeSymbol: (string, Option<string>) -> string) {
    match q
    case OfAsset(row) =>
      && ColonFree(row.blockchain) && ColonFree(OrElse(row.contract, ""))
      && OrElse(row.contract, "") != "NATIVE"
      && row.testnet != Some("MAINNET") && row.testnet != Some("")
      && (OrElse(row.contract, "") == "" ==> row.symbol == nativeSymbol(row.blockchain, row.testnet))
    case OfContract(contract, blockchain, _) =>
      ColonFree(blockchain) && ColonFree(contract) && contract != "" && contract != "NATIVE"
    case OfNative(blockchain, symbol, isTestnet) =>
      ColonFree(blockchain) && symbol == nativeSymbol(blockchain, if isTestnet then Some("TESTNET") else None)
  }

  /** Joining is injective on fields without a colon. */
  lemma JoinInjective(a: string, b: string, c: string, a': string, b': string, c': string)
    requires ColonFree(a) && ColonFree(b) && ColonFree(a') && ColonFree(b')
    requires Join(a, b, c) == Join(a', b', c')
    ensures a == a' && b == b' && c == c'
  {
    assert Join(a, b, c) == a + ":" + (b + ":" + c) && Join(a', b', c') == a' + ":" + (b' + ":" + c');
    SplitAt(':', a, b + ":" + c, a', b' + ":" + c');
    SplitAt(':', b, c, b', c');
  }

  function Fields(q: Query): (string, string, string) {
    match q
    case OfAsset(row) => (row.blockchain, OrElse(row.contract, "NATIVE"), OrElse(row.testnet, "MAINNET"))
    case OfContract(contract, blockchain, isTestnet) =>
      (blockchain, contract, if isTestnet then "TESTNET" else "MAINNET")
    case OfNative(blockchain, _, isTestnet) => (blockchain, "NATIVE", if isTestnet then "TESTNET" else "MAINNET")
  }

  /** Proper queries that share a cache key share their uncached answer, as long as native calls are grounded. */
  lemma SameKeySameAnswer(assets: seq<FbAsset>, natives: NativeMap, nativeSymbol: (string, Option<string>) -> string,
                          q: Query, q': Query)
    requires Proper(q, nativeSymbol) && Proper(q', nativeSymbol) && Key(q) == Key(q')
    requires NativeGrounded(assets, natives, q) && NativeGrounded(assets, natives, q')
    ensures Uncached(assets, natives, q) == Uncached(assets, natives, q')
  {
    var (a, b, c) := Fields(q);
    var (a', b', c') := Fields(q');
    JoinInjective(a, b, c, a', b', c');
    if q.OfContract? { TwoLookupsAgree(assets, natives, "", q.contract, q.isTestnet); }
    if q'.OfContract? { TwoLookupsAgree(assets, natives, "", q'.contract, q'.isTestnet); }
    if q.OfNative? { NativePathAgreesIff(assets, natives, q.symbol, q.isTestnet); }
    if q'.OfNative? { NativePathAgreesIff(assets, natives, q'.symbol, q'.isTestnet); }
  }

  // ----- the cache -----

  /** One cached call: a hit answers from the table, a miss stores what it found, and a failed lookup is
      not remembered. */
  function Serve(assets: seq<FbAsset>, natives: NativeMap, cache: map<string, string>, q: Query)
    : (Option<string>, map<string, string>)
  {
    if Key(q) in cache then (Some(cache[Key(q)]), cache)
    else match Uncached(assets, natives, q)
         case None => (None, cache)
         case Some(id) => (Some(id), cache[Key(q) := id])
  }

  datatype Call = Ask(query: Query) | Clear

  function CacheAfter(assets: seq<FbAsset>, natives: NativeMap, calls: seq<Call>): map<string, string> {
    if |calls| == 0 then map[] else
    var cache := CacheAfter(assets, natives, calls[..|calls| - 1]);
    match calls[|calls| - 1]
    case Ask(q) => Serve(assets, natives, cache, q).1
    case Clear => map[]
  }

  /** Every entry is the uncached answer to some proper query with that key. */
  ghost predicate Coherent(assets: seq<FbAsset>, natives: NativeMap, nativeSymbol: (string, Option<string>) -> string,
                           cache: map<string, string>) {
    forall k :: k in cache ==>
      exists q :: Proper(q, nativeSymbol) && NativeGrounded(assets, natives, q) && Key(q) == k
                  && Uncached(assets, natives, q) == Some(cache[k])
  }

  lemma ServeCoherent(assets: seq<FbAsset>, natives: NativeMap, nativeSymbol: (string, Option<string>) -> string,
                      cache: map<string, string>, q: Query)
    requires Coherent(assets, natives, nativeSymbol, cache)
    requires Proper(q, nativeSymbol) && NativeGrounded(assets, natives, q)
    ensures Serve(assets, natives, cache, q).0 == Uncached(assets, natives, q)
    ensures Coherent(assets, natives, nativeSymbol, Serve(assets, natives, cache, q).1)
  {
    if Key(q) in cache {
      var q' :| Proper(q', nativeSymbol) && NativeGrounded(assets, natives, q') && Key(q') == Key(q)
                && Uncached(assets, natives, q') == Some(cache[Key(q)]);
      SameKeySameAnswer(assets, natives, nativeSymbol, q, q');
    }
  }

  ghost predicate ProperCalls(assets: seq<FbAsset>, natives: NativeMap, calls: seq<Call>,
                              nativeSymbol: (string, Option<string>) -> string) {
    forall k :: 0 <= k < |calls| && calls[k].Ask? ==>
                  Proper(calls[k].query, nativeSymbol) && NativeGrounded(assets, natives, calls[k].query)
  }

  lemma {:induction false} HistoryCoherent(assets: seq<FbAsset>, natives: NativeMap,
                                           nativeSymbol: (string, Option<string>) -> string, calls: seq<Call>)
    requires ProperCalls(assets, natives, calls, nativeSymbol)
    ensures Coherent(assets, natives, nativeSymbol, CacheAfter(assets, natives, calls))
  {
    if |calls| > 0 {
      var n := |calls| - 1;
      HistoryCoherent(assets, natives, nativeSymbol, calls[..n]);
      if calls[n].Ask? {
        ServeCoherent(assets, natives, nativeSymbol, CacheAfter(assets, natives, calls[..n]), calls[n].query);
      }
    }
  }

  /** Cache coherence: after any history of proper calls, grounded native ones included, and cache clears the
      next call answers exactly what it would answer without a cache. */
  lemma CacheIsTransparent(assets: seq<FbAsset>, natives: NativeMap, nativeSymbol: (string, Option<string>) -> string,
                           calls: seq<Call>, q: Query)
    requires ProperCalls(assets, natives, calls, nativeSymbol)
    requires Proper(q, nativeSymbol) && NativeGrounded(assets, natives, q)
    ensures Serve(assets, natives, CacheAfter(assets, natives, calls), q).0 == Uncached(assets, natives, q)
  {
    HistoryCoherent(assets, natives, nativeSymbol, calls);
    ServeCoherent(assets, natives, nativeSymbol, CacheAfter(assets, natives, calls), q);
  }

  /** Every entry is the uncached answer to some query with that key, proper or not. */
  ghost predicate Sourced(assets: seq<FbAsset>, natives: NativeMap, cache: map<string, string>) {
    forall k :: k in cache ==> exists q :: Key(q) == k && Uncached(assets, natives, q) == Some(cache[k])
  }

  lemma {:induction false} HistorySourced(assets: seq<FbAsset>, natives: NativeMap, calls: seq<Call>)
    ensures Sourced(assets, natives, CacheAfter(assets, natives, calls))
  {
    if |calls| > 0 { HistorySourced(assets, natives, calls[..|calls| - 1]); }
  }

  ghost predicate AlwaysTransparent(assets: seq<FbAsset>, natives: NativeMap, q: Query) {
    forall calls :: Serve(assets, natives, CacheAfter(assets, natives, calls), q).0 == Uncached(assets, natives, q)
  }

  /** A query is answered right after every history, proper or not, exactly when every other query with
      its key finds either nothing or the same asset. */
  lemma TransparentIff(assets: seq<FbAsset>, natives: NativeMap, q: Query)
    ensures AlwaysTransparent(assets, natives, q) <==>
            forall other :: Key(other) == Key(q) && Uncached(assets, natives, other).Some? ==>
                              Uncached(assets, natives, other) == Uncached(assets, natives, q)
  {
    if AlwaysTransparent(assets, natives, q) {
      forall other | Key(other) == Key(q) && Uncached(assets, natives, other).Some?
        ensures Uncached(assets, natives, other) == Uncached(assets, natives, q)
      {
        assert [Ask(other)][..0] == [];
        assert CacheAfter(assets, natives, [Ask(other)]) == Serve(assets, natives, map[], other).1;
      }
    } else {
      var calls :| Serve(assets, natives, CacheAfter(assets, natives, calls), q).0 != Uncached(assets, natives, q);
      HistorySourced(assets, natives, calls);
    }
  }

  const ONE := FbAsset("ONE", "C", "", "", "", "")
  const TWO := FbAsset("TWO", "B:C", "", "", "", "")

  lemma CollidingAssets()
    ensures ByServiceContract([ONE, TWO], "C", false) == Some(0)
    ensures ByServiceContract([ONE, TWO], "B:C", false) == Some(1)
  {
    assert Lower("C")[0] == 'c' && Lower("B:C")[0] == 'b';
    assert |Lower("C")| == 1 && |Lower("B:C")| == 3;
    TooShortToContain(Upper("ONE"), "TEST");
    TooShortToContain(Upper("TWO"), "TEST");
    TooShortToContain(Upper(""), "TEST");
    FirstIs([ONE, TWO], (a: FbAsset) => ServiceMatch(a, "C") && IsTest(a) == false, 0);
    FirstIs([ONE, TWO], (a: FbAsset) => ServiceMatch(a, "B:C") && IsTest(a) == false, 1);
  }

  /** With a colon in a field two different assets share a key, and the second gets the first's id. */
  lemma ColonsCollide()
    ensures var natives := NativeMap(map[], map[]);
            var one := OfAsset(AssetRow("X", "A:B", Some("C"), None));
            var two := OfAsset(AssetRow("X", "A", Some("B:C"), None));
            && Uncached([ONE, TWO], natives, two) == Some("TWO")
            && Serve([ONE, TWO], natives, CacheAfter([ONE, TWO], natives, [Ask(one)]), two).0 == Some("ONE")
  {
    var one := OfAsset(AssetRow("X", "A:B", Some("C"), None));
    var two := OfAsset(AssetRow("X", "A", Some("B:C"), None));
    CollidingAssets();
    assert Key(one) == "A:B:C:MAINNET" == Key(two);
    assert [Ask(one)][..0] == [];
  }

  // ----- native calls among the others -----

  /** A native call spoils the next answer about the same coin exactly when it is not grounded. */
  lemma NativeCallSpoilsIff(assets: seq<FbAsset>, natives: NativeMap, nativeSymbol: (string, Option<string>) -> string,
                            native: Query, q: Query)
    requires native.OfNative? && q.OfAsset? && Proper(native, nativeSymbol) && Proper(q, nativeSymbol)
    requires Key(native) == Key(q)
    ensures Serve(assets, natives, CacheAfter(assets, natives, [Ask(native)]), q).0 == Uncached(assets, natives, q)
       <==> Grounded(assets, natives, native.symbol, native.isTestnet)
  {
    var (a, b, c) := Fields(native);
    var (a', b', c') := Fields(q);
    JoinInjective(a, b, c, a', b', c');
    NativePathAgreesIff(assets, natives, native.symbol, native.isTestnet);
    assert [Ask(native)][..0] == [];
    assert CacheAfter(assets, natives, [Ask(native)]) == Serve(assets, natives, map[], native).1;
  }

  /** A coin of the table that the provider's list lacks: unknown by itself, but found after a native call. */
  lemma UnlistedCoinIsFound()
    ensures var natives := NativeMap(map[], map["BTC" := "BTC"]);
            var coin := OfAsset(AssetRow("BTC", "BITCOIN", None, None));
            && Uncached([], natives, coin) == None
            && !Grounded([], natives, "BTC", false)
            && var cache := CacheAfter([], natives, [Ask(OfNative("BITCOIN", "BTC", false))]);
               Serve([], natives, cache, coin).0 == Some("BTC")
  {
    var natives := NativeMap(map[], map["BTC" := "BTC"]);
    var native := OfNative("BITCOIN", "BTC", false);
    assert Upper("BTC") == "BTC";
    assert [Ask(native)][..0] == [];
    assert CacheAfter([], natives, [Ask(native)]) == Serve([], natives, map[], native).1;
  }

  // ----- the resolver -----

  /** A key that is there is the answer; under a new key an answer is stored and a failure is not. */
  ghost predicate Cached(before: map<string, string>, after: map<string, string>, key: string, r: Option<string>) {
    && (key in before ==> r == Some(before[key]) && after == before)
    && (key !in before && r.None? ==> after == before)
    && (key !in before && r.Some? ==> after == before[key := r.value])
  }

  /** The answer names the asset found, or nothing. */
  ghost predicate Names(assets: seq<FbAsset>, found: Option<nat>, r: Option<string>) {
    match found
    case None => r.None?
    case Some(i) => i < |assets| && r == Some(assets[i].id)
  }

  lemma KeysSpelled(blockchain: string, contract: string, isTestnet: bool)
    ensures blockchain + ":" + "NATIVE" + ":" + (if isTestnet then "TESTNET" else "MAINNET")
            == blockchain + (if isTestnet then ":NATIVE:TESTNET" else ":NATIVE:MAINNET")
    ensures blockchain + ":" + contract + ":" + (if isTestnet then "TESTNET" else "MAINNET")
            == blockchain + ":" + contract + (if isTestnet then ":TESTNET" else ":MAINNET")
  {
    assert ":" + "NATIVE" + ":" + "TESTNET" == ":NATIVE:TESTNET";
    assert ":" + "NATIVE" + ":" + "MAINNET" == ":NATIVE:MAINNET";
    assert ":" + "TESTNET" == ":TESTNET" && ":" + "MAINNET" == ":MAINNET";
  }

  class FireblocksAssetResolver {
    const assets: seq<FbAsset>
    const natives: NativeMap
    var cache: map<string, string>

    constructor (assets: seq<FbAsset>, natives: NativeMap)
      ensures this.assets == assets && this.natives == natives
      ensures cache == CacheAfter(assets, natives, []) == map[]
    {
      this.assets, this.natives := assets, natives;
      cache := map[];
    }

    method Resolve(row: AssetRow) returns (r: Option<string>)
      modifies this`cache
      ensures (r, cache) == Serve(assets, natives, old(cache), OfAsset(row))
      ensures var contract := if row.contract in {None, Some("")} then "NATIVE" else row.contract.value;
              var network := if row.testnet in {None, Some("")} then "MAINNET" else row.testnet.value;
              var key := row.blockchain + ":" + contract + ":" + network;
              && Cached(old(cache), cache, key, r)
              && (key !in old(cache) ==>
                    Names(assets, Find(assets, natives, row.symbol, row.contract, row.testnet != None), r))
    {
      assert OrElse(row.contract, "NATIVE")
          == if row.contract in {None, Some("")} then "NATIVE" else row.contract.value;
      assert OrElse(row.testnet, "MAINNET")
          == if row.testnet in {None, Some("")} then "MAINNET" else row.testnet.value;
      var key := row.blockchain + ":" + OrElse(row.contract, "NATIVE") + ":" + OrElse(row.testnet, "MAINNET");
      if key in cache { return Some(cache[key]); }
      var i := FindAssetByContractOrCurrency(assets, natives, row.symbol, row.contract, row.testnet.Some?);
      if i.None? { return None; }
      cache := cache[key := assets[i.value].id];
      r := Some(assets[i.value].id);
    }

    method ResolveByContract(contract: string, blockchain: string, isTestnet: bool) returns (r: Option<string>)
      modifies this`cache
      ensures (r, cache) == Serve(assets, natives, old(cache), OfContract(contract, blockchain, isTestnet))
      ensures var key := blockchain + ":" + contract + (if isTestnet then ":TESTNET" else ":MAINNET");
              && Cached(old(cache), cache, key, r)
              && (key !in old(cache) ==> Names(assets, ByResolverContract(assets, contract, isTestnet), r))
    {
      KeysSpelled(blockchain, contract, isTestnet);
      var key := blockchain + ":" + contract + ":" + (if isTestnet then "TESTNET" else "MAINNET");
      if key in cache { return Some(cache[key]); }
      var i := ScanResolver(contract, isTestnet);
      if i.None? { return None; }
      cache := cache[key := assets[i.value].id];
      r := Some(assets[i.value].id);
    }

    /** The loop of `resolve_by_contract`. */
    method ScanResolver(contract: string, isTestnet: bool) returns (r: Option<nat>)
      ensures r == ByResolverContract(assets, contract, isTestnet)
    {
      var lower := Lower(contract);
      for i := 0 to |assets|
        invariant forall j :: 0 <= j < i ==> !(ResolverMatch(assets[j], contract) && IsTest(assets[j]) == isTestnet)
      {
        var a := assets[i];
        if lower in [Lower(a.contract), Lower(a.issuer)] {
          if IsTest(a) == isTestnet {
            FirstIs(assets, (a: FbAsset) => ResolverMatch(a, contract) && IsTest(a) == isTestnet, i);
            return Some(i);
          }
        }
      }
      return None;
    }

    method ResolveNative(blockchain: string, symbol: string, isTestnet: bool) returns (r: Option<string>)
      modifies this`cache
      ensures (r, cache) == Serve(assets, natives, old(cache), OfNative(blockchain, symbol, isTestnet))
      ensures Cached(old(cache), cache, blockchain + (if isTestnet then ":NATIVE:TESTNET" else ":NATIVE:MAINNET"), r)
      ensures var id := if Upper(symbol) in natives.dev then natives.dev[Upper(symbol)] else "";
              isTestnet && id != "" && blockchain + ":NATIVE:TESTNET" !in old(cache) ==> r == Some(id)
      ensures var id := if Upper(symbol) in natives.prod then natives.prod[Upper(symbol)] else "";
              !isTestnet && id != "" && blockchain + ":NATIVE:MAINNET" !in old(cache) ==> r == Some(id)
      ensures var key := blockchain + (if isTestnet then ":NATIVE:TESTNET" else ":NATIVE:MAINNET");
              var table := if isTestnet then natives.dev else natives.prod;
              key !in old(cache) && (Upper(symbol) !in table || table[Upper(symbol)] == "") ==>
                Names(assets, Find(assets, natives, symbol, None, isTestnet), r)
    {
      KeysSpelled(blockchain, "", isTestnet);
      var key := blockchain + ":" + "NATIVE" + ":" + (if isTestnet then "TESTNET" else "MAINNET");
      if key in cache { return Some(cache[key]); }
      var mapped := natives.For(isTestnet);
      if Upper(symbol) in mapped {
        var id := mapped[Upper(symbol)];
        if id != "" {
          cache := cache[key := id];
          return Some(id);
        }
      }
      var i := FindAssetByContractOrCurrency(assets, natives, symbol, None, isTestnet);
      if i.None? { return None; }
      cache := cache[key := assets[i.value].id];
      r := Some(assets[i.value].id);
    }

    method ClearCache()
      modifies this`cache
      ensures cache == CacheAfter(assets, natives, []) == map[]
    {
      cache := map[];
    }
  }
}
