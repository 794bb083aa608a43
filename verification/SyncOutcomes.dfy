/** What a sync leaves in the asset table, row by row and field by field: which contract and which asset of
    the provider every written row comes from. */
module SyncOutcomes {
  import opened Basics
  import opened AssetSync

  // ----- what a contract asks for -----

  /** How the network of a blockchain is spelled: absent on main networks. */
  ghost predicate Spells(isTestnet: bool, blockchain: string, testnet: Option<string>) {
    var name := Upper(blockchain);
    && (!isTestnet ==> testnet == None)
    && (isTestnet && name == "ETHEREUM" ==> testnet == Some("SEPOLIA"))
    && (isTestnet && name == "TRON" ==> testnet == Some("SHASTA"))
    && (isTestnet && name == "POLYGON" ==> testnet == Some("MUMBAI"))
    && (isTestnet && name == "SOLANA" ==> testnet == Some("DEVNET"))
    && (isTestnet && name !in {"ETHEREUM", "TRON", "POLYGON", "SOLANA"} ==> testnet == Some("TESTNET"))
  }

  lemma SpellsExactly(isTestnet: bool, blockchain: string, testnet: Option<string>)
    ensures Spells(isTestnet, blockchain, testnet) <==> testnet == TestnetName(isTestnet, blockchain)
  {}

  /** The contract is treated as a native coin: the provider calls its name a base asset, or it has no address. */
  ghost predicate ForCoin(env: Env, c: Info) {
    c.contract == "" || exists fb :: c.name in env.byId && env.byId[c.name] == fb && fb.kind == "BASE_ASSET"
  }

  /** The contract names this coin of the table of natives, on this network. */
  ghost predicate CoinOf(env: Env, c: Info, coin: NativeMeta, testnet: Option<string>) {
    && ForCoin(env, c) && Upper(c.name) in env.natives && env.natives[Upper(c.name)] == coin
    && Spells(env.isTestnet, coin.meta.blockchain, testnet)
  }

  /** The contract names this asset of the provider, found by address or else by name, which is stored under this
      address and network: the asset's own address, else its issuer's, else the given one. */
  ghost predicate TokenOf(env: Env, c: Info, fb: FbAsset, meta: Meta, address: string, testnet: Option<string>) {
    && !ForCoin(env, c)
    && (Lower(c.contract) in env.byAddress ==> env.byAddress[Lower(c.contract)] == fb)
    && (Lower(c.contract) !in env.byAddress ==> c.name in env.byId && env.byId[c.name] == fb)
    && env.parse(fb) == Some(meta)
    && (fb.contract != "" ==> address == fb.contract)
    && (fb.contract == "" && fb.issuer != "" ==> address == fb.issuer)
    && (fb.contract == "" && fb.issuer == "" ==> address == c.contract)
    && Spells(env.isTestnet, meta.blockchain, testnet)
  }

  /** The row of a coin. */
  ghost predicate CoinRow(env: Env, c: Info, coin: NativeMeta, testnet: Option<string>, r: Row) {
    && r.provider == "fireblocks" && r.native && r.active && r.contract == None && r.testnet == testnet
    && r.asset == coin.assetId && r.symbol == coin.meta.currency
    && r.blockchain == coin.meta.blockchain && r.network == coin.meta.network
    && (c.displayName == None ==> r.displayName == coin.meta.currency)
    && (c.displayName != None ==> c.displayName == Some(r.displayName))
    && (coin.assetId in env.byId ==> r.decimals == env.byId[coin.assetId].decimals)
    && (coin.assetId !in env.byId ==> r.decimals == 18)
  }

  /** The row of a token. */
  ghost predicate TokenRow(c: Info, fb: FbAsset, meta: Meta, address: string, testnet: Option<string>, r: Row) {
    && r.provider == "fireblocks" && !r.native && r.active && r.contract == Some(address) && r.testnet == testnet
    && r.asset == fb.id && r.symbol == meta.currency
    && r.blockchain == meta.blockchain && r.network == meta.network && r.decimals == fb.decimals
    && (c.displayName == None ==> r.displayName == meta.currency)
    && (c.displayName != None ==> c.displayName == Some(r.displayName))
  }

  // ----- from contracts to writes -----

  lemma ForCoinIff(env: Env, c: Info)
    ensures ForCoin(env, c) <==> IsNativeInfo(env, c)
  {}

  lemma CoinPlanned(env: Env, c: Info, coin: NativeMeta, testnet: Option<string>)
    ensures CoinOf(env, c, coin, testnet) <==>
            && IsNativeInfo(env, c) && Upper(c.name) in env.natives && env.natives[Upper(c.name)] == coin
            && testnet == TestnetName(env.isTestnet, coin.meta.blockchain)
    ensures CoinOf(env, c, coin, testnet) ==>
              NativePlan(env, c).Some? && NativePlan(env, c).value.key == NativeKey(coin.meta.blockchain, testnet)
  {
    ForCoinIff(env, c);
    SpellsExactly(env.isTestnet, coin.meta.blockchain, testnet);
  }

  lemma TokenPlanned(env: Env, rows: seq<Row>, c: Info, fb: FbAsset, meta: Meta, address: string,
                     testnet: Option<string>)
    ensures TokenOf(env, c, fb, meta, address, testnet) <==>
            && !IsNativeInfo(env, c) && FbFor(env, c) == Some(fb) && env.parse(fb) == Some(meta)
            && TokenTarget(env, c) == Some(TokenKey(address, testnet))
    ensures TokenOf(env, c, fb, meta, address, testnet) ==>
              TokenPlan(env, rows, c).Some? && TokenPlan(env, rows, c).value.key == TokenKey(address, testnet)
  {
    ForCoinIff(env, c);
    SpellsExactly(env.isTestnet, meta.blockchain, testnet);
  }

  /** The writes planned, in order. */
  function Collected(plans: seq<Option<Write>>): seq<Write> {
    if |plans| == 0 then [] else
    var plan := plans[|plans| - 1];
    Collected(plans[..|plans| - 1]) + if plan.Some? then [plan.value] else []
  }

  /** The last plan for a key decides its write. */
  lemma {:induction false} LastCollected(plans: seq<Option<Write>>, k: nat, w: Write)
    requires k < |plans| && plans[k] == Some(w)
    requires forall j :: k < j < |plans| && plans[j].Some? ==> plans[j].value.key != w.key
    ensures LastWrite(Collected(plans), w.key) == Some(w)
  {
    var n := |plans| - 1;
    var front := Collected(plans[..n]);
    if k < n { LastCollected(plans[..n], k, w); }
    if plans[n].Some? {
      assert (front + [plans[n].value])[..|front|] == front;
    } else {
      assert Collected(plans) == front;
    }
  }

  /** The writes collected are those planned. */
  lemma {:induction false} CollectedHas(plans: seq<Option<Write>>, w: Write)
    ensures w in Collected(plans) <==> exists k :: 0 <= k < |plans| && plans[k] == Some(w)
  {
    if |plans| > 0 {
      CollectedHas(plans[..|plans| - 1], w);
      assert plans == plans[..|plans| - 1] + [plans[|plans| - 1]];
    }
  }

  function CoinPlans(env: Env, cs: seq<Info>): (plans: seq<Option<Write>>)
    ensures |plans| == |cs|
    ensures forall k :: 0 <= k < |cs| ==> plans[k] == if IsNativeInfo(env, cs[k]) then NativePlan(env, cs[k]) else None
  {
    seq(|cs|, k requires 0 <= k < |cs| => if IsNativeInfo(env, cs[k]) then NativePlan(env, cs[k]) else None)
  }

  function TokenPlans(env: Env, rows: seq<Row>, cs: seq<Info>): (plans: seq<Option<Write>>)
    ensures |plans| == |cs|
    ensures forall k :: 0 <= k < |cs| ==>
              plans[k] == if IsNativeInfo(env, cs[k]) then None else TokenPlan(env, rows, cs[k])
  {
    seq(|cs|, k requires 0 <= k < |cs| => if IsNativeInfo(env, cs[k]) then None else TokenPlan(env, rows, cs[k]))
  }

  lemma {:induction false} CoinsCollected(env: Env, cs: seq<Info>)
    ensures NativeWrites(env, Natives(env, cs)) == Collected(CoinPlans(env, cs))
  {
    if |cs| > 0 {
      var c, front := cs[|cs| - 1], Natives(env, cs[..|cs| - 1]);
      CoinsCollected(env, cs[..|cs| - 1]);
      assert CoinPlans(env, cs)[..|cs| - 1] == CoinPlans(env, cs[..|cs| - 1]);
      assert (front + [c])[..|front|] == front;
      assert Natives(env, cs) == if IsNativeInfo(env, c) then front + [c] else front;
    }
  }

  lemma {:induction false} TokensCollected(env: Env, rows: seq<Row>, cs: seq<Info>)
    ensures TokenWrites(env, rows, Tokens(env, cs)) == Collected(TokenPlans(env, rows, cs))
  {
    if |cs| > 0 {
      var n := |cs| - 1;
      var front, plans := Tokens(env, cs[..n]), TokenPlans(env, rows, cs);
      TokensCollected(env, rows, cs[..n]);
      assert plans[..n] == TokenPlans(env, rows, cs[..n]);
      if IsNativeInfo(env, cs[n]) {
        assert Tokens(env, cs) == front && Collected(plans) == Collected(plans[..n]);
      } else {
        assert Tokens(env, cs) == front + [cs[n]];
        TokenWritesAppend(env, rows, front, cs[n]);
      }
    }
  }

  lemma TokenWritesAppend(env: Env, rows: seq<Row>, cs: seq<Info>, c: Info)
    ensures var plan := TokenPlan(env, rows, c);
            TokenWrites(env, rows, cs + [c])
            == TokenWrites(env, rows, cs) + if plan.Some? then [plan.value] else []
  {
    var all := cs + [c];
    TokenWritesNext(env, rows, all, |cs|);
    assert all[..|cs|] == cs && all[..|cs| + 1] == all;
  }

  /** Every write comes from a contract. */
  lemma CoinBehind(env: Env, cs: seq<Info>, w: Write) returns (k: nat)
    requires w in NativeWrites(env, Natives(env, cs))
    ensures k < |cs| && IsNativeInfo(env, cs[k]) && NativePlan(env, cs[k]) == Some(w)
  {
    CoinsCollected(env, cs);
    CollectedHas(CoinPlans(env, cs), w);
    k :| 0 <= k < |cs| && CoinPlans(env, cs)[k] == Some(w);
  }

  lemma TokenBehind(env: Env, rows: seq<Row>, cs: seq<Info>, w: Write) returns (k: nat)
    requires w in TokenWrites(env, rows, Tokens(env, cs))
    ensures k < |cs| && !IsNativeInfo(env, cs[k]) && TokenPlan(env, rows, cs[k]) == Some(w)
  {
    TokensCollected(env, rows, cs);
    CollectedHas(TokenPlans(env, rows, cs), w);
    k :| 0 <= k < |cs| && TokenPlans(env, rows, cs)[k] == Some(w);
  }

  // ----- the rows of coins -----

  lemma CoinFilled(env: Env, c: Info, coin: NativeMeta, testnet: Option<string>, r: Row)
    requires CoinOf(env, c, coin, testnet) && KeyOf(r) == NativeKey(coin.meta.blockchain, testnet)
    requires r.contract.None? && r == Fill(r, NativePlan(env, c).value.body)
    ensures CoinRow(env, c, coin, testnet, r)
  {}

  /** No contract after the `k`-th names a coin of this blockchain and network. */
  ghost predicate NoLaterCoin(env: Env, cs: seq<Info>, k: nat, blockchain: string, testnet: Option<string>) {
    forall j, later, network :: k < j < |cs| && CoinOf(env, cs[j], later, network) ==>
      later.meta.blockchain != blockchain || network != testnet
  }

  lemma LaterCoin(env: Env, cs: seq<Info>, k: nat, blockchain: string, testnet: Option<string>, j: nat)
    requires NoLaterCoin(env, cs, k, blockchain, testnet)
    requires k < j < |cs| && IsNativeInfo(env, cs[j]) && NativePlan(env, cs[j]).Some?
    ensures NativePlan(env, cs[j]).value.key != NativeKey(blockchain, testnet)
  {
    var later := env.natives[Upper(cs[j].name)];
    var network := TestnetName(env.isTestnet, later.meta.blockchain);
    CoinPlanned(env, cs[j], later, network);
    assert CoinOf(env, cs[j], later, network);
  }

  /** Once its first phase is committed, a sync leaves the row of every coin as the last contract for it says:
      the coin has a row, and it has no other. */
  lemma CoinsWritten(env: Env, rows: seq<Row>, cs: seq<Info>, commit2: bool, k: nat, coin: NativeMeta,
                     testnet: Option<string>)
    requires NativesOk(rows) && k < |cs| && CoinOf(env, cs[k], coin, testnet)
    requires NoLaterCoin(env, cs, k, coin.meta.blockchain, testnet)
    ensures var after := After(env, rows, cs, true, commit2);
            && (exists r :: r in after && CoinRow(env, cs[k], coin, testnet, r))
            && (forall r :: r in after && r.provider == "fireblocks" && r.native
                            && r.blockchain == coin.meta.blockchain && r.testnet == testnet ==>
                  CoinRow(env, cs[k], coin, testnet, r))
  {
    var after, ws := After(env, rows, cs, true, commit2), NativeWrites(env, Natives(env, cs));
    var key := NativeKey(coin.meta.blockchain, testnet);
    CommittedCoins(env, rows, cs, commit2);
    forall r | r in after && KeyOf(r) == key ensures CoinRow(env, cs[k], coin, testnet, r) {
      var i :| 0 <= i < |after| && after[i] == r;
      assert Settled(after[i], ws) == after[i];
      CoinSettled(env, cs, k, coin, testnet, r);
    }
    CoinHasWrite(env, cs, k, coin, testnet);
    var m :| 0 <= m < |ws| && ws[m].key == key;
    var i :| 0 <= i < |after| && KeyOf(after[i]) == ws[m].key;
    assert after[i] in after;
  }

  lemma CoinHasWrite(env: Env, cs: seq<Info>, k: nat, coin: NativeMeta, testnet: Option<string>)
    requires k < |cs| && CoinOf(env, cs[k], coin, testnet) && NoLaterCoin(env, cs, k, coin.meta.blockchain, testnet)
    ensures LastWrite(NativeWrites(env, Natives(env, cs)), NativeKey(coin.meta.blockchain, testnet))
            == NativePlan(env, cs[k])
    ensures NativePlan(env, cs[k]).Some?
  {
    var key := NativeKey(coin.meta.blockchain, testnet);
    CoinPlanned(env, cs[k], coin, testnet);
    var plans := CoinPlans(env, cs);
    forall j | k < j < |cs| && plans[j].Some? ensures plans[j].value.key != key {
      LaterCoin(env, cs, k, coin.meta.blockchain, testnet, j);
    }
    LastCollected(plans, k, NativePlan(env, cs[k]).value);
    CoinsCollected(env, cs);
  }

  lemma CoinSettled(env: Env, cs: seq<Info>, k: nat, coin: NativeMeta, testnet: Option<string>, r: Row)
    requires k < |cs| && CoinOf(env, cs[k], coin, testnet) && NoLaterCoin(env, cs, k, coin.meta.blockchain, testnet)
    requires KeyOf(r) == NativeKey(coin.meta.blockchain, testnet) && r.contract.None?
    requires Settled(r, NativeWrites(env, Natives(env, cs))) == r
    ensures CoinRow(env, cs[k], coin, testnet, r)
  {
    CoinHasWrite(env, cs, k, coin, testnet);
    CoinFilled(env, cs[k], coin, testnet, r);
  }

  lemma CommittedCoins(env: Env, rows: seq<Row>, cs: seq<Info>, commit2: bool)
    requires NativesOk(rows)
    ensures var after := After(env, rows, cs, true, commit2);
            NativesOk(after) && UpToDate(after, NativeWrites(env, Natives(env, cs)))
  {
    var first, ws := Phase1(env, rows, cs), NativeWrites(env, Natives(env, cs));
    PhasesKeepNatives(env, rows, cs);
    PutAllUpToDate(rows, ws);
    if Succeeds(env, rows, cs, true, commit2) { StillUpToDate(first, Planned(env, rows, cs), ws); }
  }

  // ----- the rows of tokens -----

  /** No contract after the `k`-th is stored under this address and network. */
  ghost predicate NoLaterToken(env: Env, cs: seq<Info>, k: nat, address: string, testnet: Option<string>) {
    forall j, fb, meta, other, network :: k < j < |cs| && TokenOf(env, cs[j], fb, meta, other, network) ==>
      other != address || network != testnet
  }

  /** Row `r` is stored under this address and network. */
  ghost predicate StoredUnder(r: Row, address: string, testnet: Option<string>) {
    r.provider == "fireblocks" && !r.native && r.contract == Some(address) && r.testnet == testnet
  }

  lemma LaterToken(env: Env, rows: seq<Row>, cs: seq<Info>, k: nat, address: string, testnet: Option<string>, j: nat)
    requires NoLaterToken(env, cs, k, address, testnet)
    requires k < j < |cs| && !IsNativeInfo(env, cs[j]) && TokenPlan(env, rows, cs[j]).Some?
    ensures TokenPlan(env, rows, cs[j]).value.key != TokenKey(address, testnet)
  {
    var fb := FbFor(env, cs[j]).value;
    var meta := env.parse(fb).value;
    var key := TokenTarget(env, cs[j]).value;
    TokenPlanned(env, rows, cs[j], fb, meta, key.contract, key.testnet);
    assert TokenOf(env, cs[j], fb, meta, key.contract, key.testnet);
  }

  lemma TokenWriteFor(env: Env, rows: seq<Row>, cs: seq<Info>, k: nat)
    requires k < |cs| && !IsNativeInfo(env, cs[k]) && TokenPlan(env, rows, cs[k]).Some?
    ensures TokenPlan(env, rows, cs[k]).value in TokenWrites(env, rows, Tokens(env, cs))
  {
    TokensCollected(env, rows, cs);
    CollectedHas(TokenPlans(env, rows, cs), TokenPlan(env, rows, cs[k]).value);
    assert TokenPlans(env, rows, cs)[k] == TokenPlan(env, rows, cs[k]);
  }

  lemma TokenFilled(env: Env, rows: seq<Row>, c: Info, fb: FbAsset, meta: Meta, address: string,
                    testnet: Option<string>, r: Row)
    requires TokenOf(env, c, fb, meta, address, testnet) && TokenPlan(env, rows, c).Some?
    requires KeyOf(r) == TokenKey(address, testnet)
    ensures TokenRow(c, fb, meta, address, testnet, Fill(r, TokenPlan(env, rows, c).value.body))
  {
    TokenPlanned(env, rows, c, fb, meta, address, testnet);
  }

  lemma TokenFresh(env: Env, rows: seq<Row>, c: Info, fb: FbAsset, meta: Meta, address: string,
                   testnet: Option<string>)
    requires TokenOf(env, c, fb, meta, address, testnet) && TokenPlan(env, rows, c).Some?
    ensures TokenRow(c, fb, meta, address, testnet, Fresh(TokenPlan(env, rows, c).value))
  {
    TokenPlanned(env, rows, c, fb, meta, address, testnet);
  }

  lemma CommittedTokens(env: Env, rows: seq<Row>, cs: seq<Info>)
    requires NativesOk(rows) && Succeeds(env, rows, cs, true, true)
    ensures var first := Phase1(env, rows, cs);
            var ws := TokenWrites(env, first, Tokens(env, cs));
            && After(env, rows, cs, true, true) == SettleAll(first, ws) + Added(first, ws)
            && SameKeys(first, SettleAll(first, ws))
  {
    var first := Phase1(env, rows, cs);
    var ws := TokenWrites(env, first, Tokens(env, cs));
    RaisesIff(env, first, Tokens(env, cs), ws);
    StagedParts(first, ws);
  }

  lemma StoredUnderIff(r: Row, address: string, testnet: Option<string>)
    ensures StoredUnder(r, address, testnet) <==> KeyOf(r) == TokenKey(address, testnet)
  {}

  lemma HasTokenIff(rows: seq<Row>, address: string, testnet: Option<string>)
    ensures HasKey(rows, TokenKey(address, testnet)) <==>
            exists i :: 0 <= i < |rows| && StoredUnder(rows[i], address, testnet)
  {
    forall i | 0 <= i < |rows| { StoredUnderIff(rows[i], address, testnet); }
  }

  lemma NoTokenYet(env: Env, rows: seq<Row>, cs: seq<Info>, address: string, testnet: Option<string>)
    requires NativesOk(rows)
    ensures HasKey(Phase1(env, rows, cs), TokenKey(address, testnet))
       <==> exists i :: 0 <= i < |rows| && StoredUnder(rows[i], address, testnet)
  {
    SameTokenKeys(rows, NativeWrites(env, Natives(env, cs)));
    HasTokenIff(rows, address, testnet);
  }

  /** A row the table had is filled by the last contract for it. */
  lemma OldTokenWritten(env: Env, first: seq<Row>, cs: seq<Info>, k: nat, fb: FbAsset, meta: Meta, address: string,
                        testnet: Option<string>, i: nat)
    requires k < |cs| && TokenOf(env, cs[k], fb, meta, address, testnet) && NoLaterToken(env, cs, k, address, testnet)
    requires i < |first| && KeyOf(first[i]) == TokenKey(address, testnet)
    ensures TokenRow(cs[k], fb, meta, address, testnet, Settled(first[i], TokenWrites(env, first, Tokens(env, cs))))
  {
    TokenPlanned(env, first, cs[k], fb, meta, address, testnet);
    var plans := TokenPlans(env, first, cs);
    forall j | k < j < |cs| && plans[j].Some? ensures plans[j].value.key != TokenKey(address, testnet) {
      LaterToken(env, first, cs, k, address, testnet, j);
    }
    LastCollected(plans, k, TokenPlan(env, first, cs[k]).value);
    TokensCollected(env, first, cs);
    TokenFilled(env, first, cs[k], fb, meta, address, testnet, first[i]);
  }

  /** A row the table lacked is added for every contract stored there. */
  lemma {:induction false} WriteAdded(first: seq<Row>, ws: seq<Write>, w: Write)
    requires AllTokens(ws) && w in ws && !HasKey(first, w.key)
    ensures Fresh(w) in Added(first, ws)
  {
    var n := |ws| - 1;
    if ws[n] != w { WriteAdded(first, ws[..n], w); }
  }

  lemma TokenCommitted(env: Env, first: seq<Row>, cs: seq<Info>, k: nat, fb: FbAsset, meta: Meta, address: string,
                       testnet: Option<string>) returns (r: Row)
    requires k < |cs| && TokenOf(env, cs[k], fb, meta, address, testnet)
    requires NoLaterToken(env, cs, k, address, testnet) || !HasKey(first, TokenKey(address, testnet))
    ensures var ws := TokenWrites(env, first, Tokens(env, cs));
            r in SettleAll(first, ws) || r in Added(first, ws)
    ensures TokenRow(cs[k], fb, meta, address, testnet, r)
  {
    var ws := TokenWrites(env, first, Tokens(env, cs));
    if HasKey(first, TokenKey(address, testnet)) {
      var i :| 0 <= i < |first| && KeyOf(first[i]) == TokenKey(address, testnet);
      OldTokenWritten(env, first, cs, k, fb, meta, address, testnet, i);
      r := SettleAll(first, ws)[i];
    } else {
      TokenPlanned(env, first, cs[k], fb, meta, address, testnet);
      r := Fresh(TokenPlan(env, first, cs[k]).value);
      TokenWriteFor(env, first, cs, k);
      WriteAdded(first, ws, TokenPlan(env, first, cs[k]).value);
      TokenFresh(env, first, cs[k], fb, meta, address, testnet);
    }
  }

  /** After a committed sync a contract for a token has its row, unless a later contract took over the row that
      the table already had: what a new address gets from one contract no other contract of the run touches. */
  lemma TokensWritten(env: Env, rows: seq<Row>, cs: seq<Info>, k: nat, fb: FbAsset, meta: Meta, address: string,
                      testnet: Option<string>)
    requires NativesOk(rows) && Succeeds(env, rows, cs, true, true)
    requires k < |cs| && TokenOf(env, cs[k], fb, meta, address, testnet)
    requires || NoLaterToken(env, cs, k, address, testnet)
             || !exists i :: 0 <= i < |rows| && StoredUnder(rows[i], address, testnet)
    ensures var after := After(env, rows, cs, true, true);
            exists r :: r in after && TokenRow(cs[k], fb, meta, address, testnet, r)
  {
    CommittedTokens(env, rows, cs);
    NoTokenYet(env, rows, cs, address, testnet);
    var r := TokenCommitted(env, Phase1(env, rows, cs), cs, k, fb, meta, address, testnet);
  }

  // ----- every written row has its contract -----

  /** The fields are those of some contract of the run and of the provider's asset for it. */
  ghost predicate TokenFromRun(env: Env, cs: seq<Info>, r: Row) {
    exists k, fb, meta, address, testnet :: 0 <= k < |cs| && TokenOf(env, cs[k], fb, meta, address, testnet)
                                            && TokenRow(cs[k], fb, meta, address, testnet, r)
  }

  lemma TokenRowBehind(env: Env, first: seq<Row>, cs: seq<Info>, w: Write, r: Row)
    requires w in TokenWrites(env, first, Tokens(env, cs))
    requires KeyOf(r) == w.key
    ensures TokenFromRun(env, cs, Fresh(w)) && TokenFromRun(env, cs, Fill(r, w.body))
  {
    var k := TokenBehind(env, first, cs, w);
    var fb := FbFor(env, cs[k]).value;
    var meta := env.parse(fb).value;
    TokenPlanned(env, first, cs[k], fb, meta, w.key.contract, w.key.testnet);
    TokenFresh(env, first, cs[k], fb, meta, w.key.contract, w.key.testnet);
    TokenFilled(env, first, cs[k], fb, meta, w.key.contract, w.key.testnet, r);
    assert TokenOf(env, cs[k], fb, meta, w.key.contract, w.key.testnet);
  }

  /** Some contract is stored under this address and network. */
  ghost predicate Targeted(env: Env, cs: seq<Info>, address: string, testnet: Option<string>) {
    exists k, fb, meta :: 0 <= k < |cs| && TokenOf(env, cs[k], fb, meta, address, testnet)
  }

  lemma TargetedIsWritten(env: Env, first: seq<Row>, cs: seq<Info>, address: string, testnet: Option<string>)
    ensures Targeted(env, cs, address, testnet) <==>
            LastWrite(TokenWrites(env, first, Tokens(env, cs)), TokenKey(address, testnet)).Some?
  {
    var last := LastWrite(TokenWrites(env, first, Tokens(env, cs)), TokenKey(address, testnet));
    if Targeted(env, cs, address, testnet) {
      var k, fb, meta :| 0 <= k < |cs| && TokenOf(env, cs[k], fb, meta, address, testnet);
      TokenPlanned(env, first, cs[k], fb, meta, address, testnet);
      TokenWriteFor(env, first, cs, k);
    }
    if last.Some? {
      var k := TokenBehind(env, first, cs, last.value);
      var fb := FbFor(env, cs[k]).value;
      TokenPlanned(env, first, cs[k], fb, env.parse(fb).value, address, testnet);
    }
  }

  lemma AddedFromRun(env: Env, first: seq<Row>, cs: seq<Info>, p: nat)
    requires p < |Added(first, TokenWrites(env, first, Tokens(env, cs)))|
    ensures TokenFromRun(env, cs, Added(first, TokenWrites(env, first, Tokens(env, cs)))[p])
  {
    var ws := TokenWrites(env, first, Tokens(env, cs));
    var m := AddedFor(first, ws, p);
    TokenRowBehind(env, first, cs, ws[m], Fresh(ws[m]));
  }

  lemma SettledFromRun(env: Env, first: seq<Row>, cs: seq<Info>, r: Row)
    requires KeyOf(r).TokenKey? && Targeted(env, cs, r.contract.value, r.testnet)
    ensures TokenFromRun(env, cs, Settled(r, TokenWrites(env, first, Tokens(env, cs))))
  {
    TargetedIsWritten(env, first, cs, r.contract.value, r.testnet);
    TokenRowBehind(env, first, cs, LastWrite(TokenWrites(env, first, Tokens(env, cs)), KeyOf(r)).value, r);
  }

  /** Every token row of the table that a contract is stored under carries, after a committed sync, the fields of
      one contract and of the provider's asset for it. */
  lemma OldTokensHaveContracts(env: Env, rows: seq<Row>, cs: seq<Info>, i: nat)
    requires NativesOk(rows) && Succeeds(env, rows, cs, true, true)
    requires i < |rows| && KeyOf(rows[i]).TokenKey? && Targeted(env, cs, rows[i].contract.value, rows[i].testnet)
    ensures var after := After(env, rows, cs, true, true);
            i < |after| && TokenFromRun(env, cs, after[i])
  {
    var first := Phase1(env, rows, cs);
    CommittedTokens(env, rows, cs);
    TokensUntouched(rows, NativeWrites(env, Natives(env, cs)));
    SettledFromRun(env, first, cs, rows[i]);
  }

  lemma AddedInFirst(env: Env, rows: seq<Row>, cs: seq<Info>, i: nat)
    requires NativesOk(rows) && |rows| <= i < |Phase1(env, rows, cs)|
    ensures KeyOf(Phase1(env, rows, cs)[i]).NativeKey?
  {
    TokensUntouched(rows, NativeWrites(env, Natives(env, cs)));
  }

  lemma AddedAreTokens(first: seq<Row>, ws: seq<Write>)
    requires AllTokens(ws)
    ensures forall p :: 0 <= p < |Added(first, ws)| ==> !Added(first, ws)[p].native
  {
    forall p | 0 <= p < |Added(first, ws)| ensures !Added(first, ws)[p].native { AddedKeys(first, ws, p); }
  }

  lemma PartAt(start: nat, settled: seq<Row>, added: seq<Row>, i: nat)
    requires start <= i < |settled| + |added|
    requires forall j :: start <= j < |settled| ==> settled[j].native
    requires forall p :: 0 <= p < |added| ==> !added[p].native
    ensures var r := (settled + added)[i];
            if r.native then i < |settled| && r == settled[i] else |settled| <= i && r == added[i - |settled|]
  {}

  lemma NewParts(start: nat, first: seq<Row>, ws: seq<Write>, after: seq<Row>, i: nat)
    requires AllTokens(ws) && forall j :: start <= j < |first| ==> KeyOf(first[j]).NativeKey?
    requires after == SettleAll(first, ws) + Added(first, ws) && start <= i < |after|
    ensures if after[i].native then i < |first| && after[i] == first[i]
            else |first| <= i && after[i] == Added(first, ws)[i - |first|]
  {
    forall j | start <= j < |first| ensures SettleAll(first, ws)[j] == first[j] && first[j].native {
      SettledNative(first[j], ws);
    }
    AddedAreTokens(first, ws);
    PartAt(start, SettleAll(first, ws), Added(first, ws), i);
  }

  /** So does every token row it adds. */
  lemma NewTokensHaveContracts(env: Env, rows: seq<Row>, cs: seq<Info>, i: nat)
    requires NativesOk(rows) && Succeeds(env, rows, cs, true, true)
    requires |rows| <= i < |After(env, rows, cs, true, true)| && !After(env, rows, cs, true, true)[i].native
    ensures TokenFromRun(env, cs, After(env, rows, cs, true, true)[i])
  {
    var first, after := Phase1(env, rows, cs), After(env, rows, cs, true, true);
    var ws := TokenWrites(env, first, Tokens(env, cs));
    assert |first| <= i < |first| + |Added(first, ws)| && after[i] == Added(first, ws)[i - |first|] by {
      assert after == SettleAll(first, ws) + Added(first, ws) by { CommittedTokens(env, rows, cs); }
      forall j | |rows| <= j < |first| ensures KeyOf(first[j]).NativeKey? { AddedInFirst(env, rows, cs, j); }
      NewParts(|rows|, first, ws, after, i);
    }
    AddedFromRun(env, first, cs, i - |first|);
  }

  lemma FreshCoin(env: Env, cs: seq<Info>, r: Row)
    requires FreshBy(r, NativeWrites(env, Natives(env, cs)))
    ensures CoinFromRun(env, cs, r)
  {
    var w := LastWrite(NativeWrites(env, Natives(env, cs)), KeyOf(r)).value;
    var k := CoinBehind(env, cs, w);
    var coin := env.natives[Upper(cs[k].name)];
    CoinPlanned(env, cs[k], coin, w.key.testnet);
    CoinFilled(env, cs[k], coin, w.key.testnet, r);
  }

  /** The fields are those of some contract of the run and of the coin it names. */
  ghost predicate CoinFromRun(env: Env, cs: seq<Info>, r: Row) {
    exists k, coin, testnet :: 0 <= k < |cs| && CoinOf(env, cs[k], coin, testnet)
                               && CoinRow(env, cs[k], coin, testnet, r)
  }

  lemma AddedCoin(env: Env, rows: seq<Row>, cs: seq<Info>, i: nat)
    requires NativesOk(rows) && |rows| <= i < |Phase1(env, rows, cs)|
    ensures CoinFromRun(env, cs, Phase1(env, rows, cs)[i])
  {
    PutAllClosedForm(rows, NativeWrites(env, Natives(env, cs)));
    FreshCoin(env, cs, Phase1(env, rows, cs)[i]);
  }

  /** Every coin row a sync adds carries the fields of one contract. */
  lemma NewCoinsHaveContracts(env: Env, rows: seq<Row>, cs: seq<Info>, commit2: bool, i: nat)
    requires NativesOk(rows) && |rows| <= i < |After(env, rows, cs, true, commit2)|
    requires After(env, rows, cs, true, commit2)[i].native
    ensures CoinFromRun(env, cs, After(env, rows, cs, true, commit2)[i])
  {
    var first, after := Phase1(env, rows, cs), After(env, rows, cs, true, commit2);
    if Succeeds(env, rows, cs, true, commit2) {
      var ws := TokenWrites(env, first, Tokens(env, cs));
      assert after == SettleAll(first, ws) + Added(first, ws) by { CommittedTokens(env, rows, cs); }
      forall j | |rows| <= j < |first| ensures KeyOf(first[j]).NativeKey? { AddedInFirst(env, rows, cs, j); }
      NewParts(|rows|, first, ws, after, i);
    }
    AddedCoin(env, rows, cs, i);
  }

  // ----- everything else stays -----

  /** Some contract names the coin of this blockchain and network. */
  ghost predicate CoinNamed(env: Env, cs: seq<Info>, blockchain: string, testnet: Option<string>) {
    exists k, coin :: 0 <= k < |cs| && CoinOf(env, cs[k], coin, testnet) && coin.meta.blockchain == blockchain
  }

  lemma CoinNamedIsWritten(env: Env, cs: seq<Info>, blockchain: string, testnet: Option<string>)
    ensures LastWrite(NativeWrites(env, Natives(env, cs)), NativeKey(blockchain, testnet)).Some? ==>
              CoinNamed(env, cs, blockchain, testnet)
  {
    var last := LastWrite(NativeWrites(env, Natives(env, cs)), NativeKey(blockchain, testnet));
    if last.Some? {
      var k := CoinBehind(env, cs, last.value);
      CoinPlanned(env, cs[k], env.natives[Upper(cs[k].name)], testnet);
    }
  }

  /** A sync leaves alone the rows of other providers, the coins and tokens that no contract names, and, unless
      it succeeds as a whole, every token; without the first commit it leaves everything alone. */
  lemma OthersStay(env: Env, rows: seq<Row>, cs: seq<Info>, commit1: bool, commit2: bool, i: nat)
    requires NativesOk(rows) && i < |rows|
    requires || !commit1 || rows[i].provider != "fireblocks"
             || (rows[i].native && !CoinNamed(env, cs, rows[i].blockchain, rows[i].testnet))
             || (!rows[i].native && rows[i].contract.None?)
             || (!rows[i].native && !Targeted(env, cs, rows[i].contract.value, rows[i].testnet))
             || (!rows[i].native && !Succeeds(env, rows, cs, commit1, commit2))
    ensures var after := After(env, rows, cs, commit1, commit2);
            i < |after| && after[i] == rows[i]
  {
    if commit1 {
      var first, ws := Phase1(env, rows, cs), NativeWrites(env, Natives(env, cs));
      PutAllClosedForm(rows, ws);
      CoinNamedIsWritten(env, cs, rows[i].blockchain, rows[i].testnet);
      assert first[i] == Settled(rows[i], ws) == rows[i];
      if Succeeds(env, rows, cs, true, commit2) {
        CommittedTokens(env, rows, cs);
        if KeyOf(first[i]).TokenKey? {
          TargetedIsWritten(env, first, cs, first[i].contract.value, first[i].testnet);
        }
      }
    }
  }

  /** Without the first commit a sync adds nothing, and without success as a whole it adds only coins. */
  lemma RefusedAddsNoTokens(env: Env, rows: seq<Row>, cs: seq<Info>, commit1: bool, commit2: bool)
    requires NativesOk(rows) && !Succeeds(env, rows, cs, commit1, commit2)
    ensures var after := After(env, rows, cs, commit1, commit2);
            && (!commit1 ==> after == rows)
            && forall i :: |rows| <= i < |after| ==> after[i].native
  {
    TokensUntouched(rows, NativeWrites(env, Natives(env, cs)));
  }

  // ----- when a sync succeeds -----

  /** Two rows of the table are stored under this address and network. */
  ghost predicate Doubled(rows: seq<Row>, address: string, testnet: Option<string>) {
    exists i, j :: 0 <= i < j < |rows| && StoredUnder(rows[i], address, testnet)
                   && StoredUnder(rows[j], address, testnet)
  }

  lemma DoubledIsNotOnce(rows: seq<Row>, address: string, testnet: Option<string>)
    ensures Doubled(rows, address, testnet) <==> !Once(rows, TokenKey(address, testnet))
  {
    forall i | 0 <= i < |rows|
      ensures StoredUnder(rows[i], address, testnet) <==> KeyOf(rows[i]) == TokenKey(address, testnet)
    {
      StoredUnderIff(rows[i], address, testnet);
    }
  }

  lemma OnceStays(rows: seq<Row>, first: seq<Row>, key: RowKey)
    requires |rows| <= |first| && forall i :: 0 <= i < |rows| ==> KeyOf(first[i]) == KeyOf(rows[i])
    requires key.TokenKey? && forall i :: |rows| <= i < |first| ==> KeyOf(first[i]).NativeKey?
    ensures Once(first, key) <==> Once(rows, key)
  {}

  lemma DoubledIff(env: Env, rows: seq<Row>, cs: seq<Info>, address: string, testnet: Option<string>)
    requires NativesOk(rows)
    ensures Doubled(rows, address, testnet) <==> !Once(Phase1(env, rows, cs), TokenKey(address, testnet))
  {
    TokensUntouched(rows, NativeWrites(env, Natives(env, cs)));
    DoubledIsNotOnce(rows, address, testnet);
    OnceStays(rows, Phase1(env, rows, cs), TokenKey(address, testnet));
  }

  /** A sync succeeds if and only if the database accepts both phases and the table it starts from has no two
      rows under an address and network that a contract is stored under. */
  lemma SucceedsExactly(env: Env, rows: seq<Row>, cs: seq<Info>, commit1: bool, commit2: bool)
    requires NativesOk(rows)
    ensures Succeeds(env, rows, cs, commit1, commit2) <==>
            && commit1 && commit2
            && forall address, testnet :: Targeted(env, cs, address, testnet) ==> !Doubled(rows, address, testnet)
  {
    var first := Phase1(env, rows, cs);
    var ws := TokenWrites(env, first, Tokens(env, cs));
    RaisesIff(env, first, Tokens(env, cs), ws);
    forall address, testnet
      ensures Doubled(rows, address, testnet) <==> !Once(first, TokenKey(address, testnet))
      ensures Targeted(env, cs, address, testnet) <==>
              exists k :: 0 <= k < |ws| && ws[k].key == TokenKey(address, testnet)
    {
      DoubledIff(env, rows, cs, address, testnet);
      TargetedIsWritten(env, first, cs, address, testnet);
    }
    forall k | 0 <= k < |ws| ensures ws[k].key == TokenKey(ws[k].key.contract, ws[k].key.testnet) {}
  }

  // ----- the provider's list -----

  /** The asset listed last with an id is the one found by it. */
  lemma {:induction false} IndexedById(fbs: seq<FbAsset>, i: nat)
    requires i < |fbs| && forall j :: i < j < |fbs| ==> fbs[j].id != fbs[i].id
    ensures fbs[i].id in IndexById(fbs) && IndexById(fbs)[fbs[i].id] == fbs[i]
  {
    if i < |fbs| - 1 { IndexedById(fbs[..|fbs| - 1], i); }
  }

  /** Nothing is found by an id that is not listed. */
  lemma {:induction false} NotIndexedById(fbs: seq<FbAsset>, id: string)
    requires forall j :: 0 <= j < |fbs| ==> fbs[j].id != id
    ensures id !in IndexById(fbs)
  {
    if |fbs| > 0 { NotIndexedById(fbs[..|fbs| - 1], id); }
  }

  /** The asset has this as its own or its issuer's address, in any case. */
  ghost predicate HasAddress(fb: FbAsset, address: string) {
    (fb.contract != "" && Lower(fb.contract) == address) || (fb.issuer != "" && Lower(fb.issuer) == address)
  }

  /** The asset listed last with a lower-case address is the one found by it. */
  lemma {:induction false} IndexedByAddress(fbs: seq<FbAsset>, address: string, i: nat)
    requires i < |fbs| && HasAddress(fbs[i], address)
    requires forall j :: i < j < |fbs| ==> !HasAddress(fbs[j], address)
    ensures address in IndexByAddress(fbs) && IndexByAddress(fbs)[address] == fbs[i]
  {
    var n := |fbs| - 1;
    if i < n {
      IndexedByAddress(fbs[..n], address, i);
      assert !HasAddress(fbs[n], address);
    }
  }

  /** Nothing is found by an address that no listed asset has. */
  lemma {:induction false} NotIndexedByAddress(fbs: seq<FbAsset>, address: string)
    requires forall j :: 0 <= j < |fbs| ==> !HasAddress(fbs[j], address)
    ensures address !in IndexByAddress(fbs)
  {
    if |fbs| > 0 {
      NotIndexedByAddress(fbs[..|fbs| - 1], address);
      assert !HasAddress(fbs[|fbs| - 1], address);
    }
  }
}
