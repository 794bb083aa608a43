/** The two-phase asset sync: contracts from the backend are upserted into the asset table, native
    coins first, then tokens linked to the native coin of their blockchain. The session does not flush
    on its own. The first phase flushes every new coin; the second only adds its new tokens, so its
    lookups do not see them until the commit. */
module AssetSync {
  import opened Basics

  const PROVIDER := "fireblocks"

  datatype Row = Row(
    provider: string, asset: string, symbol: string, displayName: string, blockchain: string, network: string,
    contract: Option<string>, testnet: Option<string>, decimals: int, active: bool, native: bool, parent: Option<nat>)

  /** What a row is looked up by; rows of other providers and tokens without contract have no key. */
  datatype RowKey =
    | NativeKey(blockchain: string, testnet: Option<string>)
    | TokenKey(contract: string, testnet: Option<string>)
    | NoKey

  function KeyOf(r: Row): RowKey {
    if r.provider != PROVIDER then NoKey
    else if r.native then NativeKey(r.blockchain, r.testnet)
    else if r.contract.Some? then TokenKey(r.contract.value, r.testnet)
    else NoKey
  }

  /** At most one native row per blockchain and network, and natives without contract. */
  ghost predicate NativesOk(rows: seq<Row>) {
    && (forall i :: 0 <= i < |rows| && rows[i].provider == PROVIDER && rows[i].native ==> rows[i].contract.None?)
    && (forall i, j :: 0 <= i < j < |rows| && KeyOf(rows[i]).NativeKey? ==> KeyOf(rows[i]) != KeyOf(rows[j]))
  }

  /** At most one token row per contract and network. */
  ghost predicate TokensOk(rows: seq<Row>) {
    forall i, j :: 0 <= i < j < |rows| && KeyOf(rows[i]).TokenKey? ==> KeyOf(rows[i]) != KeyOf(rows[j])
  }

  ghost predicate TableOk(rows: seq<Row>) { NativesOk(rows) && TokensOk(rows) }

  // ----- the plan for one contract -----

  datatype Info = Info(contract: string, name: string, displayName: Option<string>)

  datatype FbAsset = FbAsset(id: string, contract: string, issuer: string, kind: string, decimals: int)

  datatype Meta = Meta(blockchain: string, currency: string, network: string)

  datatype NativeMeta = NativeMeta(assetId: string, meta: Meta)

  /** The provider's list by id and by lower-case address, the table of native coins, and the parser of
      provider asset ids. The results below hold for every choice of these. */
  datatype Env = Env(isTestnet: bool, byId: map<string, FbAsset>, byAddress: map<string, FbAsset>,
                     natives: map<string, NativeMeta>, parse: FbAsset -> Option<Meta>)

  function IndexById(fbs: seq<FbAsset>): map<string, FbAsset> {
    if |fbs| == 0 then map[] else
    var fb := fbs[|fbs| - 1];
    IndexById(fbs[..|fbs| - 1])[fb.id := fb]
  }

  function IndexByAddress(fbs: seq<FbAsset>): map<string, FbAsset> {
    if |fbs| == 0 then map[] else
    var fb := fbs[|fbs| - 1];
    var m := IndexByAddress(fbs[..|fbs| - 1]);
    var m := if fb.contract != "" then m[Lower(fb.contract) := fb] else m;
    if fb.issuer != "" then m[Lower(fb.issuer) := fb] else m
  }

  function TestnetName(isTestnet: bool, blockchain: string): Option<string> {
    if !isTestnet then None
    else match Upper(blockchain)
         case "ETHEREUM" => Some("SEPOLIA")
         case "TRON" => Some("SHASTA")
         case "BITCOIN" => Some("TESTNET")
         case "BSC" => Some("TESTNET")
         case "POLYGON" => Some("MUMBAI")
         case "SOLANA" => Some("DEVNET")
         case _ => Some("TESTNET")
  }

  /** What an upsert writes: the fields it overwrites on an existing row and sets on a new one. */
  datatype Body =
    | NativeBody(asset: string, symbol: string, displayName: string, network: string, decimals: int)
    | TokenBody(asset: string, symbol: string, displayName: string, blockchain: string, network: string, decimals: int,
                parent: Option<nat>)

  datatype Write = Write(key: RowKey, body: Body)

  ghost predicate NativeWrite(w: Write) { w.key.NativeKey? && w.body.NativeBody? }

  ghost predicate TokenWrite(w: Write) { w.key.TokenKey? && w.body.TokenBody? }

  predicate IsNativeInfo(env: Env, c: Info) {
    (c.name in env.byId && env.byId[c.name].kind == "BASE_ASSET") || c.contract == ""
  }

  function NativePlan(env: Env, c: Info): (plan: Option<Write>)
    ensures plan.Some? ==> NativeWrite(plan.value)
  {
    if Upper(c.name) !in env.natives then None else
    var n := env.natives[Upper(c.name)];
    var decimals := if n.assetId in env.byId then env.byId[n.assetId].decimals else 18;
    Some(Write(NativeKey(n.meta.blockchain, TestnetName(env.isTestnet, n.meta.blockchain)),
               NativeBody(n.assetId, n.meta.currency,
                          if c.displayName.Some? then c.displayName.value else n.meta.currency,
                          n.meta.network, decimals)))
  }

  function FbFor(env: Env, c: Info): Option<FbAsset> {
    if Lower(c.contract) in env.byAddress then Some(env.byAddress[Lower(c.contract)])
    else if c.name in env.byId then Some(env.byId[c.name])
    else None
  }

  /** The contract and network a token contract is stored under. */
  function TokenTarget(env: Env, c: Info): (key: Option<RowKey>)
    ensures key.Some? ==> key.value.TokenKey?
  {
    if c.contract == "" || FbFor(env, c).None? then None else
    var fb := FbFor(env, c).value;
    if env.parse(fb).None? then None else
    var contract := if fb.contract != "" then fb.contract else if fb.issuer != "" then fb.issuer else c.contract;
    Some(TokenKey(contract, TestnetName(env.isTestnet, env.parse(fb).value.blockchain)))
  }

  /** The token write, linked to the native row of its blockchain in `rows`. */
  function TokenPlan(env: Env, rows: seq<Row>, c: Info): (plan: Option<Write>)
    ensures plan.Some? ==> TokenWrite(plan.value)
  {
    var key := TokenTarget(env, c);
    if key.None? then None else
    var fb := FbFor(env, c).value;
    var m := env.parse(fb).value;
    Some(Write(key.value,
               TokenBody(fb.id, m.currency, if c.displayName.Some? then c.displayName.value else m.currency,
                         m.blockchain, m.network, fb.decimals,
                         Position(rows, NativeKey(m.blockchain, key.value.testnet)))))
  }

  // ----- one upsert -----

  function ByKey(key: RowKey): Row -> bool { (r: Row) => KeyOf(r) == key }

  function KeyRows(rows: seq<Row>, key: RowKey): seq<nat> {
    Rows(rows, ByKey(key))
  }

  function Position(rows: seq<Row>, key: RowKey): (r: Option<nat>)
    ensures r.Some? ==> r.value < |rows| && KeyOf(rows[r.value]) == key
    ensures r.None? ==> forall i :: 0 <= i < |rows| ==> KeyOf(rows[i]) != key
  {
    var found := KeyRows(rows, key);
    assert forall i :: 0 <= i < |rows| && KeyOf(rows[i]) == key ==> i in found;
    if found == [] then None else Some(found[0])
  }

  ghost predicate HasKey(rows: seq<Row>, key: RowKey) {
    exists i :: 0 <= i < |rows| && KeyOf(rows[i]) == key
  }

  /** The key occurs at most once; otherwise `scalar_one_or_none` raises on it. */
  ghost predicate Once(rows: seq<Row>, key: RowKey) {
    forall i, j :: 0 <= i < j < |rows| && KeyOf(rows[i]) == key ==> KeyOf(rows[j]) != key
  }

  lemma OnceIsOneRow(rows: seq<Row>, key: RowKey)
    ensures Once(rows, key) <==> |KeyRows(rows, key)| <= 1
  {
    var found := KeyRows(rows, key);
    if |found| >= 2 { assert found[0] < found[1] && KeyOf(rows[found[0]]) == KeyOf(rows[found[1]]) == key; }
    forall i, j | 0 <= i < j < |rows| && KeyOf(rows[i]) == key && KeyOf(rows[j]) == key ensures |found| >= 2 {
      assert i in found && j in found;
    }
  }

  lemma OnlyRow(rows: seq<Row>, i: nat)
    requires i < |rows| && Once(rows, KeyOf(rows[i]))
    ensures Position(rows, KeyOf(rows[i])) == Some(i)
  {}

  ghost predicate SameKeys(rows: seq<Row>, rows': seq<Row>) {
    |rows'| == |rows| && forall i :: 0 <= i < |rows| ==> KeyOf(rows'[i]) == KeyOf(rows[i])
  }

  lemma SameKeysSamePosition(rows: seq<Row>, rows': seq<Row>, key: RowKey)
    requires SameKeys(rows, rows')
    ensures KeyRows(rows', key) == KeyRows(rows, key) && Position(rows', key) == Position(rows, key)
  {
    SameRows(rows, rows', ByKey(key), ByKey(key));
  }

  function Fill(r: Row, b: Body): Row {
    match b
    case NativeBody(asset, symbol, displayName, network, decimals) =>
      r.(asset := asset, symbol := symbol, displayName := displayName, network := network, decimals := decimals,
         active := true)
    case TokenBody(asset, symbol, displayName, blockchain, network, decimals, parent) =>
      r.(asset := asset, symbol := symbol, displayName := displayName, blockchain := blockchain, network := network,
         decimals := decimals, active := true, native := false, parent := parent)
  }

  function Fresh(w: Write): Row
    requires w.key != NoKey
  {
    var empty := match w.key
                 case NativeKey(blockchain, testnet) =>
                   Row(PROVIDER, "", "", "", blockchain, "", None, testnet, 0, true, true, None)
                 case TokenKey(contract, testnet) =>
                   Row(PROVIDER, "", "", "", "", "", Some(contract), testnet, 0, true, false, None);
    Fill(empty, w.body)
  }

  /** The last write to a key decides its row. */
  function LastWrite(ws: seq<Write>, key: RowKey): (r: Option<Write>)
    ensures r.Some? ==> r.value in ws && r.value.key == key
    ensures r.None? ==> forall k :: 0 <= k < |ws| ==> ws[k].key != key
  {
    if |ws| == 0 then None
    else if ws[|ws| - 1].key == key then Some(ws[|ws| - 1])
    else
      var n := |ws| - 1;
      assert forall k :: 0 <= k < n ==> ws[k] == ws[..n][k];
      LastWrite(ws[..n], key)
  }

  /** The row a table ends up with where it started with `r`. */
  function Settled(r: Row, ws: seq<Write>): Row {
    var last := LastWrite(ws, KeyOf(r));
    if KeyOf(r) != NoKey && last.Some? then Fill(r, last.value.body) else r
  }

  // ----- first phase: every new row is flushed before the next lookup -----

  function Put(rows: seq<Row>, w: Write): seq<Row>
    requires w.key != NoKey
  {
    var i := Position(rows, w.key);
    if i.Some? then rows[i.value := Fill(rows[i.value], w.body)] else rows + [Fresh(w)]
  }

  function PutAll(rows: seq<Row>, ws: seq<Write>): seq<Row>
    requires forall k :: 0 <= k < |ws| ==> ws[k].key != NoKey
  {
    if |ws| == 0 then rows else Put(PutAll(rows, ws[..|ws| - 1]), ws[|ws| - 1])
  }

  ghost predicate AllNative(ws: seq<Write>) {
    forall k :: 0 <= k < |ws| ==> NativeWrite(ws[k])
  }

  ghost predicate AllTokens(ws: seq<Write>) {
    forall k :: 0 <= k < |ws| ==> TokenWrite(ws[k])
  }

  /** A native upsert keeps the keys of the old rows and adds at most one native row, with a new key. */
  lemma PutNative(rows: seq<Row>, w: Write)
    requires NativesOk(rows) && NativeWrite(w)
    ensures var after := Put(rows, w);
            && NativesOk(after) && |rows| <= |after| <= |rows| + 1
            && (forall i :: 0 <= i < |rows| ==> KeyOf(after[i]) == KeyOf(rows[i]))
            && (|after| == |rows| <==> Position(rows, w.key).Some?)
            && (|after| > |rows| ==> after[|rows|] == Fresh(w) && KeyOf(after[|rows|]) == w.key)
  {}

  /** A row created for the last write to its key. */
  ghost predicate FreshBy(r: Row, ws: seq<Write>) {
    var last := LastWrite(ws, KeyOf(r));
    KeyOf(r) != NoKey && last.Some? && r == Fresh(last.value)
  }

  /** Upserting natives, in closed form: every old row is settled by the last write to its key, every new
      row is the fresh row of the last write to its key, and every key written is present. */
  ghost predicate ClosedForm(rows: seq<Row>, ws: seq<Write>, result: seq<Row>) {
    && NativesOk(result) && |rows| <= |result|
    && (forall i :: 0 <= i < |rows| ==> result[i] == Settled(rows[i], ws))
    && (forall i :: |rows| <= i < |result| ==> FreshBy(result[i], ws))
    && (forall k :: 0 <= k < |ws| ==> HasKey(result, ws[k].key))
  }

  lemma NativeSettledKeepsKey(r: Row, ws: seq<Write>)
    requires AllNative(ws)
    ensures KeyOf(Settled(r, ws)) == KeyOf(r)
  {}

  lemma {:induction false} PutAllClosedForm(rows: seq<Row>, ws: seq<Write>)
    requires NativesOk(rows) && AllNative(ws)
    ensures ClosedForm(rows, ws, PutAll(rows, ws))
  {
    if |ws| > 0 {
      var n := |ws| - 1;
      PutAllClosedForm(rows, ws[..n]);
      ClosedFormStep(rows, ws, PutAll(rows, ws[..n]));
    }
  }

  lemma SettledStep(mid: seq<Row>, ws: seq<Write>, r: Row, i: nat)
    requires NativesOk(mid) && AllNative(ws) && |ws| > 0
    requires i < |mid| && mid[i] == Settled(r, ws[..|ws| - 1])
    ensures Put(mid, ws[|ws| - 1])[i] == Settled(r, ws)
  {
    NativeSettledKeepsKey(r, ws[..|ws| - 1]);
    if KeyOf(r) == ws[|ws| - 1].key { OnlyRow(mid, i); }
  }

  lemma FreshStep(mid: seq<Row>, ws: seq<Write>, i: nat)
    requires NativesOk(mid) && AllNative(ws) && |ws| > 0 && i < |mid|
    requires FreshBy(mid[i], ws[..|ws| - 1])
    ensures FreshBy(Put(mid, ws[|ws| - 1])[i], ws)
  {
    if KeyOf(mid[i]) == ws[|ws| - 1].key { OnlyRow(mid, i); }
  }

  lemma PutKeepsKeys(mid: seq<Row>, w: Write, key: RowKey)
    requires NativesOk(mid) && NativeWrite(w)
    ensures HasKey(mid, key) || key == w.key ==> HasKey(Put(mid, w), key)
  {
    PutNative(mid, w);
    if HasKey(mid, key) {
      var i :| 0 <= i < |mid| && KeyOf(mid[i]) == key;
      assert KeyOf(Put(mid, w)[i]) == key;
    } else if key == w.key {
      assert KeyOf(Put(mid, w)[|mid|]) == key;
    }
  }

  lemma ClosedFormStep(rows: seq<Row>, ws: seq<Write>, mid: seq<Row>)
    requires NativesOk(rows) && AllNative(ws) && |ws| > 0 && ClosedForm(rows, ws[..|ws| - 1], mid)
    ensures ClosedForm(rows, ws, Put(mid, ws[|ws| - 1]))
  {
    var n := |ws| - 1;
    var result := Put(mid, ws[n]);
    PutNative(mid, ws[n]);
    forall i | 0 <= i < |rows| ensures result[i] == Settled(rows[i], ws) {
      SettledStep(mid, ws, rows[i], i);
    }
    forall i | |rows| <= i < |result| ensures FreshBy(result[i], ws) {
      if i < |mid| { FreshStep(mid, ws, i); }
    }
    forall k | 0 <= k < |ws| ensures HasKey(result, ws[k].key) {
      if k < n { assert ws[..n][k] == ws[k]; }
      PutKeepsKeys(mid, ws[n], ws[k].key);
    }
  }

  /** Tokens pass through the first phase untouched, and it adds none. */
  lemma TokensUntouched(rows: seq<Row>, ws: seq<Write>)
    requires NativesOk(rows) && AllNative(ws)
    ensures var result := PutAll(rows, ws);
            && |rows| <= |result|
            && (forall i :: 0 <= i < |rows| && !KeyOf(rows[i]).NativeKey? ==> result[i] == rows[i])
            && (forall i :: 0 <= i < |rows| ==> KeyOf(result[i]) == KeyOf(rows[i]))
            && (forall i :: |rows| <= i < |result| ==> KeyOf(result[i]).NativeKey?)
  {
    PutAllClosedForm(rows, ws);
    var result := PutAll(rows, ws);
    forall i | 0 <= i < |rows| ensures KeyOf(result[i]) == KeyOf(rows[i]) { NativeSettledKeepsKey(rows[i], ws); }
    forall i | |rows| <= i < |result| ensures KeyOf(result[i]).NativeKey? { assert FreshBy(result[i], ws); }
  }

  /** So the first phase leaves the token keys of the table as they were. */
  lemma SameTokenKeys(rows: seq<Row>, ws: seq<Write>)
    requires NativesOk(rows) && AllNative(ws)
    ensures TokensOk(PutAll(rows, ws)) <==> TokensOk(rows)
    ensures forall key: RowKey :: key.TokenKey? ==> (HasKey(PutAll(rows, ws), key) <==> HasKey(rows, key))
  {
    PutAllClosedForm(rows, ws);
    TokensUntouched(rows, ws);
    var result := PutAll(rows, ws);
    forall key: RowKey | key.TokenKey? ensures HasKey(result, key) <==> HasKey(rows, key) {
      if HasKey(rows, key) {
        var i :| 0 <= i < |rows| && KeyOf(rows[i]) == key;
        assert KeyOf(result[i]) == key;
      }
      if HasKey(result, key) {
        var i :| 0 <= i < |result| && KeyOf(result[i]) == key;
        assert i < |rows| && KeyOf(rows[i]) == key;
      }
    }
  }

  // ----- second phase: new rows stay in the session until the commit -----

  /** The rows a lookup sees, updated in place, and those only added. */
  datatype Session = Session(rows: seq<Row>, added: seq<Row>)

  function Stage(s: Session, w: Write): Session
    requires w.key != NoKey
  {
    var i := Position(s.rows, w.key);
    if i.Some? then s.(rows := s.rows[i.value := Fill(s.rows[i.value], w.body)])
    else s.(added := s.added + [Fresh(w)])
  }

  function StageAll(rows: seq<Row>, ws: seq<Write>): Session
    requires forall k :: 0 <= k < |ws| ==> ws[k].key != NoKey
  {
    if |ws| == 0 then Session(rows, []) else Stage(StageAll(rows, ws[..|ws| - 1]), ws[|ws| - 1])
  }

  function SettleAll(rows: seq<Row>, ws: seq<Write>): (r: seq<Row>)
    ensures |r| == |rows|
    ensures forall i :: 0 <= i < |rows| ==> r[i] == Settled(rows[i], ws)
  {
    seq(|rows|, i requires 0 <= i < |rows| => Settled(rows[i], ws))
  }

  /** The row to add for a write: none if the table has its key. */
  function Extra(rows: seq<Row>, w: Write): (r: seq<Row>)
    requires w.key != NoKey
    ensures r == if HasKey(rows, w.key) then [] else [Fresh(w)]
  {
    if Position(rows, w.key).Some? then [] else [Fresh(w)]
  }

  /** One fresh row for every write whose key the table lacks, repeated keys included. */
  function Added(rows: seq<Row>, ws: seq<Write>): seq<Row>
    requires forall k :: 0 <= k < |ws| ==> ws[k].key != NoKey
  {
    if |ws| == 0 then [] else Added(rows, ws[..|ws| - 1]) + Extra(rows, ws[|ws| - 1])
  }

  ghost predicate EachOnce(rows: seq<Row>, ws: seq<Write>) {
    forall k :: 0 <= k < |ws| ==> Once(rows, ws[k].key)
  }

  lemma TokenSettledKeepsKey(r: Row, ws: seq<Write>)
    requires AllTokens(ws)
    ensures KeyOf(Settled(r, ws)) == KeyOf(r)
  {}

  lemma SettleAllKeepsKeys(rows: seq<Row>, ws: seq<Write>)
    requires AllTokens(ws)
    ensures SameKeys(rows, SettleAll(rows, ws))
  {
    forall i | 0 <= i < |rows| ensures KeyOf(SettleAll(rows, ws)[i]) == KeyOf(rows[i]) {
      TokenSettledKeepsKey(rows[i], ws);
    }
  }

  /** One more token write settles the one row with its key. */
  lemma SettleNext(rows: seq<Row>, ws: seq<Write>, i: nat)
    requires AllTokens(ws) && |ws| > 0 && i < |rows| && Once(rows, ws[|ws| - 1].key)
    ensures var w, before := ws[|ws| - 1], Settled(rows[i], ws[..|ws| - 1]);
            Settled(rows[i], ws) == if Position(rows, w.key) == Some(i) then Fill(before, w.body) else before
  {
    if KeyOf(rows[i]) == ws[|ws| - 1].key { OnlyRow(rows, i); }
  }

  lemma SettleStage(rows: seq<Row>, ws: seq<Write>)
    requires AllTokens(ws) && |ws| > 0 && Once(rows, ws[|ws| - 1].key)
    ensures var w, before := ws[|ws| - 1], SettleAll(rows, ws[..|ws| - 1]);
            var p := Position(rows, w.key);
            SettleAll(rows, ws) == if p.Some? then before[p.value := Fill(before[p.value], w.body)] else before
  {
    forall i | 0 <= i < |rows| { SettleNext(rows, ws, i); }
  }

  lemma StageNext(rows: seq<Row>, ws: seq<Write>)
    requires AllTokens(ws) && |ws| > 0 && Once(rows, ws[|ws| - 1].key)
    ensures var n := |ws| - 1;
            && Stage(Session(SettleAll(rows, ws[..n]), Added(rows, ws[..n])), ws[n])
               == Session(SettleAll(rows, ws), Added(rows, ws))
  {
    var n := |ws| - 1;
    SettleStage(rows, ws);
    SettleAllKeepsKeys(rows, ws[..n]);
    SameKeysSamePosition(rows, SettleAll(rows, ws[..n]), ws[n].key);
    assert Added(rows, ws) == Added(rows, ws[..n]) + Extra(rows, ws[n]);
  }

  /** The second phase in closed form. */
  lemma {:induction false} StageAllForm(rows: seq<Row>, ws: seq<Write>)
    requires AllTokens(ws) && EachOnce(rows, ws)
    ensures StageAll(rows, ws) == Session(SettleAll(rows, ws), Added(rows, ws))
  {
    if |ws| == 0 {
      assert SettleAll(rows, ws) == rows;
    } else {
      StageAllForm(rows, ws[..|ws| - 1]);
      StageNext(rows, ws);
    }
  }

  // ----- repeated new targets -----

  function Keys(ws: seq<Write>): (keys: seq<RowKey>)
    ensures |keys| == |ws| && forall k :: 0 <= k < |ws| ==> keys[k] == ws[k].key
  {
    seq(|ws|, k requires 0 <= k < |ws| => ws[k].key)
  }

  /** Two of the targets are the same contract and network, and the table has no row for it yet. */
  ghost predicate Clash(rows: seq<Row>, targets: seq<RowKey>) {
    exists j, k :: 0 <= j < k < |targets| && targets[j] == targets[k] && !HasKey(rows, targets[j])
  }

  /** The added row at `p` belongs to a write whose key the table lacks. */
  lemma {:induction false} AddedFor(rows: seq<Row>, ws: seq<Write>, p: nat) returns (k: nat)
    requires AllTokens(ws) && p < |Added(rows, ws)|
    ensures k < |ws| && Added(rows, ws)[p] == Fresh(ws[k]) && !HasKey(rows, ws[k].key)
  {
    var n := |ws| - 1;
    if p < |Added(rows, ws[..n])| { k := AddedFor(rows, ws[..n], p); } else { k := n; }
  }

  lemma {:induction false} AddedPrefix(rows: seq<Row>, ws: seq<Write>, k: nat)
    requires AllTokens(ws) && k <= |ws|
    ensures Added(rows, ws[..k]) <= Added(rows, ws)
  {
    var n := |ws| - 1;
    if k <= n {
      assert ws[..n][..k] == ws[..k];
      AddedPrefix(rows, ws[..n], k);
    } else {
      assert ws[..k] == ws;
    }
  }

  /** Every write whose key the table lacks has its added row, after those of the writes before it. */
  lemma AddedHas(rows: seq<Row>, ws: seq<Write>, k: nat)
    requires AllTokens(ws) && k < |ws| && !HasKey(rows, ws[k].key)
    ensures Added(rows, ws[..k]) + [Fresh(ws[k])] <= Added(rows, ws)
  {
    assert ws[..k + 1][..k] == ws[..k];
    AddedPrefix(rows, ws, k + 1);
  }

  lemma AddedAt(rows: seq<Row>, ws: seq<Write>, k: nat)
    requires AllTokens(ws) && k < |ws| && !HasKey(rows, ws[k].key)
    ensures var p := |Added(rows, ws[..k])|;
            p < |Added(rows, ws)| && Added(rows, ws)[p] == Fresh(ws[k])
  {
    AddedHas(rows, ws, k);
    var front := Added(rows, ws[..k]);
    assert (front + [Fresh(ws[k])])[|front|] == Fresh(ws[k]);
  }

  lemma AddedBefore(rows: seq<Row>, ws: seq<Write>, j: nat, k: nat)
    requires AllTokens(ws) && j < k < |ws| && !HasKey(rows, ws[j].key)
    ensures |Added(rows, ws[..j])| < |Added(rows, ws[..k])|
  {
    var front := ws[..k];
    assert front[..j] == ws[..j] && front[j] == ws[j];
    AddedAt(rows, front, j);
  }

  lemma ClashRepeatsKey(rows: seq<Row>, ws: seq<Write>, j: nat, k: nat) returns (p: nat, q: nat)
    requires AllTokens(ws) && j < k < |ws| && ws[j].key == ws[k].key && !HasKey(rows, ws[j].key)
    ensures p < q < |Added(rows, ws)| && Added(rows, ws)[p] == Fresh(ws[j]) && Added(rows, ws)[q] == Fresh(ws[k])
  {
    p, q := |Added(rows, ws[..j])|, |Added(rows, ws[..k])|;
    AddedAt(rows, ws, j);
    AddedAt(rows, ws, k);
    AddedBefore(rows, ws, j, k);
  }

  lemma ClashGrows(rows: seq<Row>, ws: seq<Write>)
    requires |ws| > 0 && Clash(rows, Keys(ws[..|ws| - 1]))
    ensures Clash(rows, Keys(ws))
  {
    var n := |ws| - 1;
    var j, k :| 0 <= j < k < n && Keys(ws[..n])[j] == Keys(ws[..n])[k] && !HasKey(rows, Keys(ws[..n])[j]);
    assert Keys(ws)[j] == Keys(ws)[k] && !HasKey(rows, Keys(ws)[j]);
  }

  lemma {:induction false} RepeatedKeyIsClash(rows: seq<Row>, ws: seq<Write>, p: nat, q: nat)
    requires AllTokens(ws) && p < q < |Added(rows, ws)| && KeyOf(Added(rows, ws)[p]) == KeyOf(Added(rows, ws)[q])
    ensures Clash(rows, Keys(ws))
  {
    var n := |ws| - 1;
    if q < |Added(rows, ws[..n])| {
      RepeatedKeyIsClash(rows, ws[..n], p, q);
      ClashGrows(rows, ws);
    } else {
      var j := AddedFor(rows, ws[..n], p);
      assert Keys(ws)[j] == Keys(ws)[n] && !HasKey(rows, Keys(ws)[j]);
    }
  }

  /** What the commit of the second phase would leave. */
  function Staged(rows: seq<Row>, ws: seq<Write>): seq<Row>
    requires forall k :: 0 <= k < |ws| ==> ws[k].key != NoKey
  {
    StageAll(rows, ws).rows + StageAll(rows, ws).added
  }

  /** The added rows are tokens with keys the table lacks. */
  lemma AddedKeys(rows: seq<Row>, ws: seq<Write>, p: nat)
    requires AllTokens(ws) && p < |Added(rows, ws)|
    ensures var r := Added(rows, ws)[p];
            KeyOf(r).TokenKey? && !HasKey(rows, KeyOf(r)) && r.provider == PROVIDER && !r.native
  {
    var k := AddedFor(rows, ws, p);
  }

  /** The old rows keep their keys and their places, and the added ones follow. */
  lemma StagedParts(rows: seq<Row>, ws: seq<Write>)
    requires AllTokens(ws) && EachOnce(rows, ws)
    ensures Staged(rows, ws) == SettleAll(rows, ws) + Added(rows, ws)
    ensures SameKeys(rows, SettleAll(rows, ws))
  {
    StageAllForm(rows, ws);
    SettleAllKeepsKeys(rows, ws);
  }

  /** The natives are those of before, at the same positions. */
  ghost predicate SameNatives(rows: seq<Row>, rows': seq<Row>) {
    && |rows| <= |rows'|
    && (forall i :: 0 <= i < |rows| ==> KeyOf(rows'[i]) == KeyOf(rows[i]))
    && (forall i :: 0 <= i < |rows| && KeyOf(rows[i]).NativeKey? ==> rows'[i] == rows[i])
    && (forall i :: |rows| <= i < |rows'| ==> !KeyOf(rows'[i]).NativeKey?)
  }

  lemma SettledNative(r: Row, ws: seq<Write>)
    requires AllTokens(ws) && KeyOf(r).NativeKey?
    ensures Settled(r, ws) == r
  {}

  lemma SettleKeepsNatives(rows: seq<Row>, ws: seq<Write>)
    requires AllTokens(ws)
    ensures SameKeys(rows, SettleAll(rows, ws)) && SameNatives(rows, SettleAll(rows, ws))
  {
    SettleAllKeepsKeys(rows, ws);
    forall i | 0 <= i < |rows| && KeyOf(rows[i]).NativeKey? ensures SettleAll(rows, ws)[i] == rows[i] {
      SettledNative(rows[i], ws);
    }
  }

  lemma AddingKeepsNatives(rows: seq<Row>, settled: seq<Row>, added: seq<Row>)
    requires SameNatives(rows, settled) && |settled| == |rows|
    requires forall p :: 0 <= p < |added| ==> KeyOf(added[p]).TokenKey?
    ensures SameNatives(rows, settled + added)
  {}

  lemma StagedKeepsNatives(rows: seq<Row>, ws: seq<Write>)
    requires AllTokens(ws) && EachOnce(rows, ws)
    ensures SameNatives(rows, Staged(rows, ws))
  {
    StagedParts(rows, ws);
    SettleKeepsNatives(rows, ws);
    forall p | 0 <= p < |Added(rows, ws)| ensures KeyOf(Added(rows, ws)[p]).TokenKey? { AddedKeys(rows, ws, p); }
    AddingKeepsNatives(rows, SettleAll(rows, ws), Added(rows, ws));
  }

  lemma SameNativesOk(rows: seq<Row>, rows': seq<Row>)
    requires NativesOk(rows) && SameNatives(rows, rows')
    ensures NativesOk(rows')
  {
    forall i | 0 <= i < |rows'| && rows'[i].provider == PROVIDER && rows'[i].native ensures rows'[i].contract.None? {
      assert KeyOf(rows'[i]).NativeKey?;
    }
  }

  ghost predicate DistinctKeys(rows: seq<Row>) {
    forall p, q :: 0 <= p < q < |rows| ==> KeyOf(rows[p]) != KeyOf(rows[q])
  }

  lemma AddedDistinctIff(rows: seq<Row>, ws: seq<Write>)
    requires AllTokens(ws)
    ensures DistinctKeys(Added(rows, ws)) <==> !Clash(rows, Keys(ws))
  {
    if Clash(rows, Keys(ws)) {
      var j, k :| 0 <= j < k < |ws| && Keys(ws)[j] == Keys(ws)[k] && !HasKey(rows, Keys(ws)[j]);
      var p, q := ClashRepeatsKey(rows, ws, j, k);
      assert KeyOf(Added(rows, ws)[p]) == KeyOf(Added(rows, ws)[q]);
    } else if !DistinctKeys(Added(rows, ws)) {
      var p, q :| 0 <= p < q < |Added(rows, ws)| && KeyOf(Added(rows, ws)[p]) == KeyOf(Added(rows, ws)[q]);
      RepeatedKeyIsClash(rows, ws, p, q);
    }
  }

  /** Adding token rows with keys the table lacks keeps its token keys unique iff theirs are. */
  lemma TokensOkParts(rows: seq<Row>, added: seq<Row>)
    requires TokensOk(rows)
    requires forall p :: 0 <= p < |added| ==> KeyOf(added[p]).TokenKey? && !HasKey(rows, KeyOf(added[p]))
    ensures TokensOk(rows + added) <==> DistinctKeys(added)
  {
    var all, n := rows + added, |rows|;
    if TokensOk(all) {
      forall p, q | 0 <= p < q < |added| ensures KeyOf(added[p]) != KeyOf(added[q]) {
        assert all[n + p] == added[p] && all[n + q] == added[q];
      }
    } else {
      var i, j :| 0 <= i < j < |all| && KeyOf(all[i]).TokenKey? && KeyOf(all[i]) == KeyOf(all[j]);
      assert n <= i && KeyOf(added[i - n]) == KeyOf(added[j - n]);
    }
  }

  /** A sound token side stays sound exactly when no two writes share a target the table lacks. */
  lemma StagedTokensIff(rows: seq<Row>, ws: seq<Write>)
    requires TokensOk(rows) && AllTokens(ws) && EachOnce(rows, ws)
    ensures TokensOk(Staged(rows, ws)) <==> !Clash(rows, Keys(ws))
  {
    StagedParts(rows, ws);
    AddedDistinctIff(rows, ws);
    var settled, added := SettleAll(rows, ws), Added(rows, ws);
    forall p | 0 <= p < |added| ensures KeyOf(added[p]).TokenKey? && !HasKey(settled, KeyOf(added[p])) {
      AddedKeys(rows, ws, p);
      assert forall i :: 0 <= i < |settled| ==> KeyOf(settled[i]) == KeyOf(rows[i]);
    }
    TokensOkParts(settled, added);
  }

  // ----- the whole sync -----

  function Natives(env: Env, cs: seq<Info>): seq<Info> {
    if |cs| == 0 then [] else
    Natives(env, cs[..|cs| - 1]) + (if IsNativeInfo(env, cs[|cs| - 1]) then [cs[|cs| - 1]] else [])
  }

  function Tokens(env: Env, cs: seq<Info>): seq<Info> {
    if |cs| == 0 then [] else
    Tokens(env, cs[..|cs| - 1]) + (if IsNativeInfo(env, cs[|cs| - 1]) then [] else [cs[|cs| - 1]])
  }

  function NativeWrites(env: Env, cs: seq<Info>): (ws: seq<Write>)
    ensures AllNative(ws)
  {
    if |cs| == 0 then [] else
    var plan := NativePlan(env, cs[|cs| - 1]);
    NativeWrites(env, cs[..|cs| - 1]) + (if plan.Some? then [plan.value] else [])
  }

  /** What the token contracts are stored under; a caller can tell this without the table. */
  function TokenTargets(env: Env, cs: seq<Info>): (keys: seq<RowKey>)
    ensures forall k :: 0 <= k < |keys| ==> keys[k].TokenKey?
  {
    if |cs| == 0 then [] else
    var key := TokenTarget(env, cs[|cs| - 1]);
    TokenTargets(env, cs[..|cs| - 1]) + (if key.Some? then [key.value] else [])
  }

  /** All token writes, linked through the native rows of `rows`. */
  function TokenWrites(env: Env, rows: seq<Row>, cs: seq<Info>): (ws: seq<Write>)
    ensures AllTokens(ws) && Keys(ws) == TokenTargets(env, cs)
  {
    if |cs| == 0 then [] else
    var plan := TokenPlan(env, rows, cs[|cs| - 1]);
    TokenWrites(env, rows, cs[..|cs| - 1]) + (if plan.Some? then [plan.value] else [])
  }

  /** The table after the first phase. */
  function Phase1(env: Env, rows: seq<Row>, cs: seq<Info>): seq<Row> {
    PutAll(rows, NativeWrites(env, Natives(env, cs)))
  }

  /** What the second phase would commit. */
  function Planned(env: Env, rows: seq<Row>, cs: seq<Info>): seq<Row> {
    var first := Phase1(env, rows, cs);
    Staged(first, TokenWrites(env, first, Tokens(env, cs)))
  }

  /** Some token lookup of the second phase finds several rows and raises. */
  predicate Raises(env: Env, rows: seq<Row>, cs: seq<Info>) {
    exists k :: 0 <= k < |TokenTargets(env, cs)| && |KeyRows(rows, TokenTargets(env, cs)[k])| > 1
  }

  datatype Result = Failed | Done(created: nat, updated: nat, skipped: nat)

  /** The table a sync leaves. `commit1` and `commit2` say whether the database accepts what each phase
      sends; a refusal and a lookup that raises both roll back to the last commit. */
  function After(env: Env, rows: seq<Row>, cs: seq<Info>, commit1: bool, commit2: bool): seq<Row> {
    var first := Phase1(env, rows, cs);
    if !commit1 then rows
    else if Raises(env, first, Tokens(env, cs)) || !commit2 then first
    else Planned(env, rows, cs)
  }

  predicate Succeeds(env: Env, rows: seq<Row>, cs: seq<Info>, commit1: bool, commit2: bool) {
    commit1 && !Raises(env, Phase1(env, rows, cs), Tokens(env, cs)) && commit2
  }

  /** The two unique constraints of the table: provider and asset; provider, blockchain, contract and
      network, where an absent contract or network differs from every other. */
  ghost predicate Accepts(rows: seq<Row>) {
    forall i, j :: 0 <= i < j < |rows| && rows[i].provider == rows[j].provider ==>
      && rows[i].asset != rows[j].asset
      && !(rows[i].blockchain == rows[j].blockchain && rows[i].contract == rows[j].contract && rows[i].contract.Some?
           && rows[i].testnet == rows[j].testnet && rows[i].testnet.Some?)
  }

  /** The database commits nothing that breaks its constraints. */
  ghost predicate Truthful(env: Env, rows: seq<Row>, cs: seq<Info>, commit1: bool, commit2: bool) {
    && (commit1 ==> Accepts(Phase1(env, rows, cs)))
    && (commit2 ==> Accepts(Planned(env, rows, cs)))
  }

  lemma RaisesIff(env: Env, rows: seq<Row>, cs: seq<Info>, ws: seq<Write>)
    requires Keys(ws) == TokenTargets(env, cs)
    ensures !Raises(env, rows, cs) <==> EachOnce(rows, ws)
  {
    forall k | 0 <= k < |ws| ensures Once(rows, ws[k].key) <==> |KeyRows(rows, TokenTargets(env, cs)[k])| <= 1 {
      assert Keys(ws)[k] == ws[k].key;
      OnceIsOneRow(rows, ws[k].key);
    }
  }

  lemma SoundTokensAreOnce(rows: seq<Row>, ws: seq<Write>)
    requires TokensOk(rows) && AllTokens(ws)
    ensures EachOnce(rows, ws)
  {}

  /** What both phases keep, whatever the token side of the table looks like. */
  lemma PhasesKeepNatives(env: Env, rows: seq<Row>, cs: seq<Info>)
    requires NativesOk(rows)
    ensures NativesOk(Phase1(env, rows, cs))
    ensures !Raises(env, Phase1(env, rows, cs), Tokens(env, cs)) ==>
              NativesOk(Planned(env, rows, cs)) && SameNatives(Phase1(env, rows, cs), Planned(env, rows, cs))
  {
    PutAllClosedForm(rows, NativeWrites(env, Natives(env, cs)));
    var first := Phase1(env, rows, cs);
    if !Raises(env, first, Tokens(env, cs)) {
      var ws := TokenWrites(env, first, Tokens(env, cs));
      RaisesIff(env, first, Tokens(env, cs), ws);
      StagedKeepsNatives(first, ws);
      SameNativesOk(first, Planned(env, rows, cs));
    }
  }

  /** Natives stay unique and bare over every sync, committed or not. */
  lemma SyncKeepsNatives(env: Env, rows: seq<Row>, cs: seq<Info>, commit1: bool, commit2: bool)
    requires NativesOk(rows)
    ensures NativesOk(After(env, rows, cs, commit1, commit2))
  {
    PhasesKeepNatives(env, rows, cs);
  }

  lemma SoundPhase1(env: Env, rows: seq<Row>, cs: seq<Info>)
    requires TableOk(rows)
    ensures TableOk(Phase1(env, rows, cs)) && !Raises(env, Phase1(env, rows, cs), Tokens(env, cs))
    ensures Clash(Phase1(env, rows, cs), TokenTargets(env, Tokens(env, cs)))
       <==> Clash(rows, TokenTargets(env, Tokens(env, cs)))
  {
    var first, ws := Phase1(env, rows, cs), NativeWrites(env, Natives(env, cs));
    PhasesKeepNatives(env, rows, cs);
    SameTokenKeys(rows, ws);
    var tokens := TokenWrites(env, first, Tokens(env, cs));
    SoundTokensAreOnce(first, tokens);
    RaisesIff(env, first, Tokens(env, cs), tokens);
  }

  /** A sound table stays sound unless the second phase commits two token contracts with one target that
      the table does not hold yet, and then it never does. */
  lemma SyncKeepsTableIff(env: Env, rows: seq<Row>, cs: seq<Info>, commit1: bool, commit2: bool)
    requires TableOk(rows)
    ensures TableOk(After(env, rows, cs, commit1, commit2)) <==>
            !(commit1 && commit2 && Clash(rows, TokenTargets(env, Tokens(env, cs))))
  {
    var first := Phase1(env, rows, cs);
    var ws := TokenWrites(env, first, Tokens(env, cs));
    SoundPhase1(env, rows, cs);
    PhasesKeepNatives(env, rows, cs);
    SoundTokensAreOnce(first, ws);
    StagedTokensIff(first, ws);
  }

  // ----- running it again -----

  /** Nothing left to do: every written key is present and every row already is as the last write to
      its key would leave it. */
  ghost predicate UpToDate(rows: seq<Row>, ws: seq<Write>) {
    && (forall i :: 0 <= i < |rows| ==> Settled(rows[i], ws) == rows[i])
    && (forall k :: 0 <= k < |ws| ==> HasKey(rows, ws[k].key))
  }

  lemma PutAllUpToDate(rows: seq<Row>, ws: seq<Write>)
    requires NativesOk(rows) && AllNative(ws)
    ensures UpToDate(PutAll(rows, ws), ws)
  {
    PutAllClosedForm(rows, ws);
    var result := PutAll(rows, ws);
    forall i | 0 <= i < |result| ensures Settled(result[i], ws) == result[i] {
      if i < |rows| { NativeSettledKeepsKey(rows[i], ws); } else { assert FreshBy(result[i], ws); }
    }
  }

  lemma UpToDateStays(rows: seq<Row>, ws: seq<Write>)
    requires NativesOk(rows) && AllNative(ws) && UpToDate(rows, ws)
    ensures PutAll(rows, ws) == rows
  {
    PutAllClosedForm(rows, ws);
    var result := PutAll(rows, ws);
    NothingNew(rows, ws);
    assert forall i :: 0 <= i < |rows| ==> result[i] == rows[i];
  }

  /** A created row belongs to a write whose key the table lacked. */
  lemma CreatedFor(rows: seq<Row>, ws: seq<Write>, result: seq<Row>, i: nat) returns (k: nat)
    requires AllNative(ws) && ClosedForm(rows, ws, result) && |rows| <= i < |result|
    ensures k < |ws| && !HasKey(rows, ws[k].key)
  {
    forall j | 0 <= j < |rows| ensures KeyOf(result[j]) == KeyOf(rows[j]) { NativeSettledKeepsKey(rows[j], ws); }
    var last := LastWrite(ws, KeyOf(result[i])).value;
    k :| 0 <= k < |ws| && ws[k] == last;
  }

  lemma NothingNew(rows: seq<Row>, ws: seq<Write>)
    requires NativesOk(rows) && AllNative(ws) && forall k :: 0 <= k < |ws| ==> HasKey(rows, ws[k].key)
    ensures |PutAll(rows, ws)| == |rows|
  {
    PutAllClosedForm(rows, ws);
    if |PutAll(rows, ws)| > |rows| {
      var k := CreatedFor(rows, ws, PutAll(rows, ws), |rows|);
    }
  }

  /** Tokens do not disturb what the first phase settled. */
  lemma StillUpToDate(rows: seq<Row>, rows': seq<Row>, ws: seq<Write>)
    requires SameNatives(rows, rows') && UpToDate(rows, ws) && AllNative(ws)
    ensures UpToDate(rows', ws)
  {
    forall k | 0 <= k < |ws| ensures HasKey(rows', ws[k].key) {
      var i :| 0 <= i < |rows| && KeyOf(rows[i]) == ws[k].key;
      assert KeyOf(rows'[i]) == ws[k].key;
    }
  }

  lemma {:induction false} NothingToAdd(rows: seq<Row>, ws: seq<Write>)
    requires AllTokens(ws) && forall k :: 0 <= k < |ws| ==> HasKey(rows, ws[k].key)
    ensures Added(rows, ws) == []
  {
    if |ws| > 0 { NothingToAdd(rows, ws[..|ws| - 1]); }
  }

  lemma StagedHasKeys(rows: seq<Row>, ws: seq<Write>, k: nat)
    requires AllTokens(ws) && EachOnce(rows, ws) && k < |ws|
    ensures HasKey(Staged(rows, ws), ws[k].key)
  {
    StagedParts(rows, ws);
    var result := Staged(rows, ws);
    if HasKey(rows, ws[k].key) {
      var i :| 0 <= i < |rows| && KeyOf(rows[i]) == ws[k].key;
      assert KeyOf(result[i]) == ws[k].key;
    } else {
      var p := |Added(rows, ws[..k])|;
      AddedHas(rows, ws, k);
      assert result[|rows| + p] == Fresh(ws[k]);
    }
  }

  /** Without a clash an added row belongs to the last, being the only, write to its key. */
  lemma AddedIsSettled(rows: seq<Row>, ws: seq<Write>, p: nat)
    requires AllTokens(ws) && !Clash(rows, Keys(ws)) && p < |Added(rows, ws)|
    ensures Settled(Added(rows, ws)[p], ws) == Added(rows, ws)[p]
  {
    var k := AddedFor(rows, ws, p);
    var last := LastWrite(ws, ws[k].key).value;
    var m :| 0 <= m < |ws| && ws[m] == last;
    assert Keys(ws)[m] == Keys(ws)[k];
  }

  lemma SettledTwice(r: Row, ws: seq<Write>)
    requires AllTokens(ws)
    ensures Settled(Settled(r, ws), ws) == Settled(r, ws)
  {
    TokenSettledKeepsKey(r, ws);
  }

  lemma StagedIsSettled(rows: seq<Row>, ws: seq<Write>)
    requires AllTokens(ws) && EachOnce(rows, ws) && !Clash(rows, Keys(ws))
    ensures SettleAll(Staged(rows, ws), ws) == Staged(rows, ws)
  {
    var settled, added := SettleAll(rows, ws), Added(rows, ws);
    forall i | 0 <= i < |rows| ensures Settled(settled[i], ws) == settled[i] { SettledTwice(rows[i], ws); }
    forall p | 0 <= p < |added| ensures Settled(added[p], ws) == added[p] { AddedIsSettled(rows, ws, p); }
    StagedParts(rows, ws);
    assert SettleAll(settled + added, ws) == settled + added;
  }

  /** Staging the same writes again finds nothing to do. */
  lemma StagedAgain(rows: seq<Row>, ws: seq<Write>)
    requires TokensOk(rows) && AllTokens(ws) && !Clash(rows, Keys(ws))
    ensures Staged(Staged(rows, ws), ws) == Staged(rows, ws)
  {
    var last := Staged(rows, ws);
    SoundTokensAreOnce(rows, ws);
    StagedTokensIff(rows, ws);
    SoundTokensAreOnce(last, ws);
    StagedParts(last, ws);
    forall k | 0 <= k < |ws| ensures HasKey(last, ws[k].key) { StagedHasKeys(rows, ws, k); }
    NothingToAdd(last, ws);
    StagedIsSettled(rows, ws);
  }

  lemma NotOnceAfter(rows: seq<Row>, added: seq<Row>, p: nat, q: nat)
    requires p < q < |added| && KeyOf(added[p]) == KeyOf(added[q])
    ensures !Once(rows + added, KeyOf(added[p]))
  {
    var all, n := rows + added, |rows|;
    assert all[n + p] == added[p] && all[n + q] == added[q];
  }

  lemma ClashIsNotOnce(rows: seq<Row>, ws: seq<Write>)
    requires EachOnce(rows, ws) && AllTokens(ws) && Clash(rows, Keys(ws))
    ensures !EachOnce(Staged(rows, ws), ws)
  {
    var j, k :| 0 <= j < k < |ws| && Keys(ws)[j] == Keys(ws)[k] && !HasKey(rows, Keys(ws)[j]);
    var p, q := ClashRepeatsKey(rows, ws, j, k);
    StagedParts(rows, ws);
    NotOnceAfter(SettleAll(rows, ws), Added(rows, ws), p, q);
    assert KeyOf(Added(rows, ws)[p]) == ws[j].key;
  }

  /** With a clash the committed table makes the next lookup of the shared target raise. */
  lemma ClashMakesRaise(env: Env, rows: seq<Row>, cs: seq<Info>, ws: seq<Write>)
    requires TokensOk(rows) && AllTokens(ws) && Keys(ws) == TokenTargets(env, cs) && Clash(rows, Keys(ws))
    ensures Raises(env, Staged(rows, ws), cs)
  {
    SoundTokensAreOnce(rows, ws);
    ClashIsNotOnce(rows, ws);
    RaisesIff(env, Staged(rows, ws), cs, ws);
  }

  /** The native row of every blockchain is at the same place. */
  ghost predicate SameLinks(rows: seq<Row>, rows': seq<Row>) {
    forall key: RowKey :: key.NativeKey? ==> Position(rows', key) == Position(rows, key)
  }

  lemma NativesGiveLinks(rows: seq<Row>, rows': seq<Row>)
    requires NativesOk(rows) && SameNatives(rows, rows')
    ensures SameLinks(rows, rows')
  {
    SameNativesOk(rows, rows');
    forall key: RowKey | key.NativeKey? ensures Position(rows', key) == Position(rows, key) {
      var i := Position(rows', key);
      if i.Some? { OnlyRow(rows, i.value); }
    }
  }

  lemma SameTokenPlan(env: Env, rows: seq<Row>, rows': seq<Row>, c: Info)
    requires SameLinks(rows, rows')
    ensures TokenPlan(env, rows', c) == TokenPlan(env, rows, c)
  {}

  lemma {:induction false} SameTokenWrites(env: Env, rows: seq<Row>, rows': seq<Row>, cs: seq<Info>)
    requires SameLinks(rows, rows')
    ensures TokenWrites(env, rows', cs) == TokenWrites(env, rows, cs)
  {
    if |cs| > 0 {
      SameTokenWrites(env, rows, rows', cs[..|cs| - 1]);
      SameTokenPlan(env, rows, rows', cs[|cs| - 1]);
    }
  }

  /** The first phase has nothing to do on a table the sync has left behind. */
  lemma Phase1Again(env: Env, rows: seq<Row>, cs: seq<Info>)
    requires TableOk(rows)
    ensures Phase1(env, Phase1(env, rows, cs), cs) == Phase1(env, rows, cs)
    ensures Phase1(env, Planned(env, rows, cs), cs) == Planned(env, rows, cs)
  {
    var first, last, ws := Phase1(env, rows, cs), Planned(env, rows, cs), NativeWrites(env, Natives(env, cs));
    SoundPhase1(env, rows, cs);
    PhasesKeepNatives(env, rows, cs);
    PutAllUpToDate(rows, ws);
    UpToDateStays(first, ws);
    StillUpToDate(first, last, ws);
    UpToDateStays(last, ws);
  }

  /** A second run over what the first one committed leaves the table as it is whatever the database
      says, and it succeeds exactly when the first run had no clash. */
  lemma RerunIff(env: Env, rows: seq<Row>, cs: seq<Info>, commit1: bool, commit2: bool)
    requires TableOk(rows)
    ensures var last := Planned(env, rows, cs);
            && After(env, last, cs, commit1, commit2) == last
            && (Succeeds(env, last, cs, true, true) <==> !Clash(rows, TokenTargets(env, Tokens(env, cs))))
  {
    var first, last := Phase1(env, rows, cs), Planned(env, rows, cs);
    var ws := TokenWrites(env, first, Tokens(env, cs));
    SoundPhase1(env, rows, cs);
    PhasesKeepNatives(env, rows, cs);
    Phase1Again(env, rows, cs);
    if Clash(first, Keys(ws)) {
      ClashMakesRaise(env, first, Tokens(env, cs), ws);
    } else {
      SoundTokensAreOnce(first, ws);
      StagedTokensIff(first, ws);
      SoundTokensAreOnce(last, ws);
      RaisesIff(env, last, Tokens(env, cs), ws);
      NativesGiveLinks(first, last);
      SameTokenWrites(env, first, last, Tokens(env, cs));
      StagedAgain(first, ws);
    }
  }

  /** Idempotence: repeating a sync, with the database deciding alike, changes nothing. */
  lemma SyncIsIdempotent(env: Env, rows: seq<Row>, cs: seq<Info>, commit1: bool, commit2: bool)
    requires TableOk(rows)
    ensures var once := After(env, rows, cs, commit1, commit2);
            After(env, once, cs, commit1, commit2) == once
  {
    SoundPhase1(env, rows, cs);
    if commit1 && commit2 {
      RerunIff(env, rows, cs, commit1, commit2);
    } else if commit1 {
      Phase1Again(env, rows, cs);
    }
  }

  // ----- parents -----

  /** The parent is the native row of the same provider, blockchain and network, or absent when the
      table has none. */
  predicate Linked(rows: seq<Row>, token: Row) {
    match token.parent
    case None => forall i :: 0 <= i < |rows| ==> KeyOf(rows[i]) != NativeKey(token.blockchain, token.testnet)
    case Some(p) =>
      && p < |rows| && rows[p].native && rows[p].provider == token.provider
      && rows[p].blockchain == token.blockchain && rows[p].testnet == token.testnet
  }

  lemma {:induction false} LinkedPlan(env: Env, rows: seq<Row>, cs: seq<Info>, w: Write)
    requires w in TokenWrites(env, rows, cs)
    ensures TokenWrite(w) && w.body.parent == Position(rows, NativeKey(w.body.blockchain, w.key.testnet))
  {
    var n := |cs| - 1;
    if w in TokenWrites(env, rows, cs[..n]) { LinkedPlan(env, rows, cs[..n], w); }
  }

  /** A row with a key that is written is filled by a write to that key. */
  lemma WrittenBy(rows: seq<Row>, ws: seq<Write>, i: nat) returns (w: Write)
    requires AllTokens(ws) && EachOnce(rows, ws)
    requires i < |Staged(rows, ws)| && KeyOf(Staged(rows, ws)[i]) in Keys(ws)
    ensures w in ws && var r := Staged(rows, ws)[i];
            && r.provider == PROVIDER && r.parent == w.body.parent && r.blockchain == w.body.blockchain
            && r.testnet == w.key.testnet
  {
    StagedParts(rows, ws);
    if i < |rows| {
      var k :| 0 <= k < |ws| && Keys(ws)[k] == KeyOf(Staged(rows, ws)[i]);
      assert ws[k].key == KeyOf(rows[i]);
      w := LastWrite(ws, KeyOf(rows[i])).value;
    } else {
      var k := AddedFor(rows, ws, i - |rows|);
      w := ws[k];
    }
  }

  /** Every token the sync writes, even with clashes, is linked to nothing or to the native row of its own
      blockchain and network in the committed table. */
  lemma ParentsAreNative(env: Env, rows: seq<Row>, cs: seq<Info>, i: nat)
    requires NativesOk(rows) && Succeeds(env, rows, cs, true, true)
    requires i < |Planned(env, rows, cs)| && KeyOf(Planned(env, rows, cs)[i]) in TokenTargets(env, Tokens(env, cs))
    ensures Linked(Planned(env, rows, cs), Planned(env, rows, cs)[i])
  {
    var first, last := Phase1(env, rows, cs), Planned(env, rows, cs);
    var ws := TokenWrites(env, first, Tokens(env, cs));
    PhasesKeepNatives(env, rows, cs);
    RaisesIff(env, first, Tokens(env, cs), ws);
    NativesGiveLinks(first, last);
    var w := WrittenBy(first, ws, i);
    LinkedPlan(env, first, Tokens(env, cs), w);
    assert last[i].parent == Position(last, NativeKey(last[i].blockchain, last[i].testnet));
  }

  // ----- what a clash comes to -----

  lemma TwoOfOneAsset(rows: seq<Row>, added: seq<Row>, p: nat, q: nat)
    requires p < q < |added| && added[p].provider == added[q].provider && added[p].asset == added[q].asset
    ensures !Accepts(rows + added)
  {
    var all, n := rows + added, |rows|;
    assert all[n + p] == added[p] && all[n + q] == added[q];
  }

  lemma RepeatedAssetIsRefused(rows: seq<Row>, ws: seq<Write>, j: nat, k: nat)
    requires AllTokens(ws) && EachOnce(rows, ws) && j < k < |ws|
    requires ws[j].key == ws[k].key && ws[j].body.asset == ws[k].body.asset && !HasKey(rows, ws[j].key)
    ensures !Accepts(Staged(rows, ws))
  {
    StagedParts(rows, ws);
    var p, q := ClashRepeatsKey(rows, ws, j, k);
    assert Added(rows, ws)[p].asset == Added(rows, ws)[q].asset;
    assert Added(rows, ws)[p].provider == Added(rows, ws)[q].provider;
    TwoOfOneAsset(SettleAll(rows, ws), Added(rows, ws), p, q);
  }

  /** A clash of two contracts that stand for the same provider asset is refused by the database, and the
      whole second phase is lost. */
  lemma RepeatedAssetLosesTokens(env: Env, rows: seq<Row>, cs: seq<Info>, j: nat, k: nat, commit1: bool, commit2: bool)
    requires TableOk(rows) && Truthful(env, rows, cs, commit1, commit2)
    requires var ws := TokenWrites(env, Phase1(env, rows, cs), Tokens(env, cs));
             && j < k < |ws| && ws[j].key == ws[k].key && ws[j].body.asset == ws[k].body.asset
             && !HasKey(Phase1(env, rows, cs), ws[j].key)
    ensures !Succeeds(env, rows, cs, commit1, commit2)
    ensures After(env, rows, cs, commit1, commit2) == if commit1 then Phase1(env, rows, cs) else rows
  {
    var first := Phase1(env, rows, cs);
    SoundPhase1(env, rows, cs);
    SoundTokensAreOnce(first, TokenWrites(env, first, Tokens(env, cs)));
    RepeatedAssetIsRefused(first, TokenWrites(env, first, Tokens(env, cs)), j, k);
  }

  // Two main-network coins of one issuer share an address; the later one owns it in the address index.
  const USDC := FbAsset("USDC", "0xAB", "", "ERC20", 6)
  const USDC_POLYGON := FbAsset("USDC_POLYGON", "0xAB", "", "ERC20", 6)

  function Parsed(fb: FbAsset): Option<Meta> {
    Some(Meta(if fb.id == "USDC" then "ETHEREUM" else "POLYGON", "USDC", fb.kind))
  }

  function SharedAddress(): Env {
    Env(false, IndexById([USDC, USDC_POLYGON]), IndexByAddress([USDC, USDC_POLYGON]), map[], Parsed)
  }

  lemma SharedSpelling()
    ensures Lower("0xAB") == "0xab" && Lower("0xab") == "0xab" && Lower("0xCD") == "0xcd"
  {
    assert Lower("0xAB")[0] == '0' && Lower("0xAB")[1] == 'x' && Lower("0xAB")[2] == 'a' && Lower("0xAB")[3] == 'b';
    assert Lower("0xab")[0] == '0' && Lower("0xab")[1] == 'x' && Lower("0xab")[2] == 'a' && Lower("0xab")[3] == 'b';
    assert Lower("0xCD")[0] == '0' && Lower("0xCD")[1] == 'x' && Lower("0xCD")[2] == 'c' && Lower("0xCD")[3] == 'd';
  }

  lemma SharedIndexes()
    ensures SharedAddress().byId == map["USDC" := USDC, "USDC_POLYGON" := USDC_POLYGON]
    ensures SharedAddress().byAddress == map["0xab" := USDC_POLYGON]
  {
    SharedSpelling();
    assert [USDC, USDC_POLYGON][..1] == [USDC] && [USDC][..0] == [];
    assert IndexByAddress([USDC]) == map["0xab" := USDC];
    assert IndexById([USDC]) == map["USDC" := USDC];
  }

  const BY_ADDRESS := Info("0xAB", "A", None)
  const BY_NAME := Info("0xCD", "USDC", None)
  const BY_OTHER_SPELLING := Info("0xab", "B", None)

  const KEY := TokenKey("0xAB", None)
  const ETHEREUM_COIN := TokenBody("USDC", "USDC", "USDC", "ETHEREUM", "ERC20", 6, None)
  const POLYGON_COIN := TokenBody("USDC_POLYGON", "USDC", "USDC", "POLYGON", "ERC20", 6, None)

  lemma SharedPlans()
    ensures forall c :: c in {BY_ADDRESS, BY_NAME, BY_OTHER_SPELLING} ==> !IsNativeInfo(SharedAddress(), c)
    ensures TokenPlan(SharedAddress(), [], BY_ADDRESS) == Some(Write(KEY, POLYGON_COIN))
    ensures TokenPlan(SharedAddress(), [], BY_NAME) == Some(Write(KEY, ETHEREUM_COIN))
    ensures TokenPlan(SharedAddress(), [], BY_OTHER_SPELLING) == Some(Write(KEY, POLYGON_COIN))
  {
    SharedIndexes();
    SharedSpelling();
  }

  lemma OneToken(env: Env, a: Info)
    requires !IsNativeInfo(env, a)
    ensures Natives(env, [a]) == [] && Tokens(env, [a]) == [a]
  {
    var one := [a];
    assert one[..0] == [] && one[|one| - 1] == a;
    assert Tokens(env, one) == Tokens(env, one[..0]) + [a];
  }

  lemma TwoTokens(env: Env, a: Info, b: Info)
    requires !IsNativeInfo(env, a) && !IsNativeInfo(env, b)
    ensures Natives(env, [a, b]) == [] && Tokens(env, [a, b]) == [a, b]
  {
    var two := [a, b];
    assert two[..1] == [a] && two[|two| - 1] == b;
    OneToken(env, a);
  }

  lemma TwoWrites(env: Env, rows: seq<Row>, a: Info, b: Info)
    requires TokenPlan(env, rows, a).Some? && TokenPlan(env, rows, b).Some?
    ensures TokenWrites(env, rows, [a, b]) == [TokenPlan(env, rows, a).value, TokenPlan(env, rows, b).value]
  {
    assert [a, b][..1] == [a] && [a][..0] == [];
    assert TokenWrites(env, rows, [a]) == [TokenPlan(env, rows, a).value];
  }

  /** What a run from the empty table plans for a pair of these contracts. */
  lemma SharedPair(c: Info)
    requires c in {BY_NAME, BY_OTHER_SPELLING}
    ensures var env, cs := SharedAddress(), [BY_ADDRESS, c];
            && Phase1(env, [], cs) == [] && Tokens(env, cs) == cs && TokenPlan(env, [], c).Some?
            && TokenWrites(env, [], cs) == [Write(KEY, POLYGON_COIN), TokenPlan(env, [], c).value]
  {
    SharedPlans();
    TwoTokens(SharedAddress(), BY_ADDRESS, c);
    TwoWrites(SharedAddress(), [], BY_ADDRESS, c);
  }

  lemma SharedClash(c: Info)
    requires c in {BY_NAME, BY_OTHER_SPELLING}
    ensures var env, cs := SharedAddress(), [BY_ADDRESS, c];
            Clash([], TokenTargets(env, Tokens(env, cs)))
  {
    var env, cs := SharedAddress(), [BY_ADDRESS, c];
    SharedPlans();
    SharedPair(c);
    var ws := TokenWrites(env, [], cs);
    assert Keys(ws)[0] == Keys(ws)[1] && !HasKey([], Keys(ws)[0]);
  }

  lemma StagedOnEmpty(a: Write, b: Write)
    requires TokenWrite(a) && TokenWrite(b)
    ensures Staged([], [a, b]) == [Fresh(a), Fresh(b)]
  {
    assert [a, b][..1] == [a] && [a][..0] == [];
    assert StageAll([], [a]) == Session([], [Fresh(a)]);
  }

  lemma PairIsAccepted(a: Row, b: Row)
    requires a.asset != b.asset && a.testnet.None?
    ensures Accepts([a, b])
  {}

  lemma SharedPlanned()
    ensures Phase1(SharedAddress(), [], [BY_ADDRESS, BY_NAME]) == []
    ensures Planned(SharedAddress(), [], [BY_ADDRESS, BY_NAME])
         == Staged([], [Write(KEY, POLYGON_COIN), Write(KEY, ETHEREUM_COIN)])
  {
    SharedPlans();
    SharedPair(BY_NAME);
  }

  lemma SharedIsAccepted()
    ensures Truthful(SharedAddress(), [], [BY_ADDRESS, BY_NAME], true, true)
  {
    var polygon, ethereum := Write(KEY, POLYGON_COIN), Write(KEY, ETHEREUM_COIN);
    SharedPlanned();
    StagedOnEmpty(polygon, ethereum);
    PairIsAccepted(Fresh(polygon), Fresh(ethereum));
  }

  /** One coin reached by its address and the other by its name: the database accepts both rows, the table
      is no longer sound, and the next run fails. */
  lemma SharedAddressBreaksTable()
    ensures var env, cs := SharedAddress(), [BY_ADDRESS, BY_NAME];
            && TableOk([]) && Truthful(env, [], cs, true, true) && Succeeds(env, [], cs, true, true)
            && var once := After(env, [], cs, true, true);
               !TableOk(once) && !Succeeds(env, once, cs, true, true) && After(env, once, cs, true, true) == once
  {
    var env, cs := SharedAddress(), [BY_ADDRESS, BY_NAME];
    SharedIsAccepted();
    SharedClash(BY_NAME);
    SoundPhase1(env, [], cs);
    SyncKeepsTableIff(env, [], cs, true, true);
    RerunIff(env, [], cs, true, true);
  }

  /** One coin listed twice in different spellings: no truthful database commits the tokens. */
  lemma RepeatedContractIsRefused(commit1: bool, commit2: bool)
    requires Truthful(SharedAddress(), [], [BY_ADDRESS, BY_OTHER_SPELLING], commit1, commit2)
    ensures !Succeeds(SharedAddress(), [], [BY_ADDRESS, BY_OTHER_SPELLING], commit1, commit2)
    ensures After(SharedAddress(), [], [BY_ADDRESS, BY_OTHER_SPELLING], commit1, commit2) == []
  {
    SharedPlans();
    SharedPair(BY_OTHER_SPELLING);
    RepeatedAssetLosesTokens(SharedAddress(), [], [BY_ADDRESS, BY_OTHER_SPELLING], 0, 1, commit1, commit2);
  }

  /** Any number of syncs, with any backends and any answers of the database. */
  datatype Round = Round(env: Env, contracts: seq<Info>, commit1: bool, commit2: bool)

  function History(rounds: seq<Round>): seq<Row> {
    if |rounds| == 0 then [] else
    var r := rounds[|rounds| - 1];
    After(r.env, History(rounds[..|rounds| - 1]), r.contracts, r.commit1, r.commit2)
  }

  /** So the requirement of the sync below holds of every table that syncs have made. */
  lemma {:induction false} HistoryKeepsNatives(rounds: seq<Round>)
    ensures NativesOk(History(rounds))
  {
    if |rounds| > 0 {
      var r, before := rounds[|rounds| - 1], History(rounds[..|rounds| - 1]);
      HistoryKeepsNatives(rounds[..|rounds| - 1]);
      SyncKeepsNatives(r.env, before, r.contracts, r.commit1, r.commit2);
    }
  }

  // ----- the sync as it runs -----

  function ByNative(blockchain: string, testnet: Option<string>): Row -> bool {
    (r: Row) => r.provider == PROVIDER && r.blockchain == blockchain && r.native && r.testnet == testnet
  }

  function ByContract(contract: string, testnet: Option<string>): Row -> bool {
    (r: Row) => r.provider == PROVIDER && r.contract == Some(contract) && r.testnet == testnet
  }

  /** SELECT ... WHERE provider, blockchain, is_native and testnet. */
  function NativeQuery(rows: seq<Row>, blockchain: string, testnet: Option<string>): seq<nat> {
    Rows(rows, ByNative(blockchain, testnet))
  }

  /** SELECT ... WHERE provider, contract_address and testnet. */
  function TokenQuery(rows: seq<Row>, contract: string, testnet: Option<string>): seq<nat> {
    Rows(rows, ByContract(contract, testnet))
  }

  /** While natives are unique the native query returns the one row with that key, or nothing. */
  lemma NativeQueryFinds(rows: seq<Row>, blockchain: string, testnet: Option<string>)
    requires NativesOk(rows)
    ensures var i := Position(rows, NativeKey(blockchain, testnet));
            NativeQuery(rows, blockchain, testnet) == if i.Some? then [i.value] else []
  {
    SameRows(rows, rows, ByNative(blockchain, testnet), ByKey(NativeKey(blockchain, testnet)));
    OnceIsOneRow(rows, NativeKey(blockchain, testnet));
  }

  /** While natives are bare the token query returns the rows with that key. */
  lemma TokenQueryFinds(rows: seq<Row>, contract: string, testnet: Option<string>)
    requires NativesOk(rows)
    ensures TokenQuery(rows, contract, testnet) == KeyRows(rows, TokenKey(contract, testnet))
  {
    SameRows(rows, rows, ByContract(contract, testnet), ByKey(TokenKey(contract, testnet)));
  }

  /** Every remembered native row is the one the table would give. */
  ghost predicate CacheOk(isTestnet: bool, rows: seq<Row>, cache: map<string, nat>) {
    forall b :: b in cache ==> Position(rows, NativeKey(b, TestnetName(isTestnet, b))) == Some(cache[b])
  }

  lemma PutKeepsPositions(rows: seq<Row>, w: Write, key: RowKey)
    requires NativesOk(rows) && NativeWrite(w) && key.NativeKey? && Position(rows, key).Some?
    ensures Position(Put(rows, w), key) == Position(rows, key)
  {
    PutNative(rows, w);
    OnlyRow(Put(rows, w), Position(rows, key).value);
  }

  lemma CacheGrows(isTestnet: bool, rows: seq<Row>, w: Write, cache: map<string, nat>, i: nat)
    requires NativesOk(rows) && NativeWrite(w) && CacheOk(isTestnet, rows, cache)
    requires w.key.testnet == TestnetName(isTestnet, w.key.blockchain) && Position(Put(rows, w), w.key) == Some(i)
    ensures CacheOk(isTestnet, Put(rows, w), cache[w.key.blockchain := i])
  {
    forall b | b in cache && b != w.key.blockchain
      ensures Position(Put(rows, w), NativeKey(b, TestnetName(isTestnet, b))) == Some(cache[b])
    {
      PutKeepsPositions(rows, w, NativeKey(b, TestnetName(isTestnet, b)));
    }
  }

  lemma SameKeysSameCache(isTestnet: bool, rows: seq<Row>, rows': seq<Row>, cache: map<string, nat>)
    requires SameKeys(rows, rows')
    ensures SameLinks(rows, rows')
    ensures CacheOk(isTestnet, rows, cache) ==> CacheOk(isTestnet, rows', cache)
  {
    forall key: RowKey | key.NativeKey? ensures Position(rows', key) == Position(rows, key) {
      SameKeysSamePosition(rows, rows', key);
    }
  }

  /** Writing one plan, if there is one, after the writes of the first `k` contracts. */
  lemma NativeWritesNext(env: Env, rows: seq<Row>, infos: seq<Info>, k: nat)
    requires k < |infos|
    ensures var ws, next, plan := NativeWrites(env, infos[..k]), NativeWrites(env, infos[..k + 1]),
                                  NativePlan(env, infos[k]);
            && (plan.None? ==> next == ws)
            && (plan.Some? ==> next == ws + [plan.value] && PutAll(rows, next) == Put(PutAll(rows, ws), plan.value))
  {
    assert infos[..k + 1][..k] == infos[..k];
    var ws, next := NativeWrites(env, infos[..k]), NativeWrites(env, infos[..k + 1]);
    assert next[..|ws|] == ws;
  }

  lemma TokenWritesNext(env: Env, rows: seq<Row>, infos: seq<Info>, k: nat)
    requires k < |infos|
    ensures var ws, next, plan := TokenWrites(env, rows, infos[..k]), TokenWrites(env, rows, infos[..k + 1]),
                                  TokenPlan(env, rows, infos[k]);
            && (plan.None? ==> next == ws)
            && (plan.Some? ==>
                  next == ws + [plan.value] && StageAll(rows, next) == Stage(StageAll(rows, ws), plan.value))
  {
    assert infos[..k + 1][..k] == infos[..k];
    var ws, next := TokenWrites(env, rows, infos[..k]), TokenWrites(env, rows, infos[..k + 1]);
    assert next[..|ws|] == ws;
  }

  /** During the second phase the visible rows keep their keys, so lookups and links stay as they began. */
  lemma VisibleRows(rows: seq<Row>, ws: seq<Write>)
    requires NativesOk(rows) && AllTokens(ws) && EachOnce(rows, ws)
    ensures var seen := StageAll(rows, ws).rows;
            SameKeys(rows, seen) && NativesOk(seen)
  {
    StageAllForm(rows, ws);
    SettleKeepsNatives(rows, ws);
    SameNativesOk(rows, SettleAll(rows, ws));
  }

  datatype Made = Created | Updated | Skipped | Ambiguous

  datatype Tally = Tally(created: nat, updated: nat, skipped: nat)

  function Count(t: Tally, made: Made): (r: Tally)
    ensures r.created == t.created + if made.Created? then 1 else 0
    ensures r.created + r.updated == t.created + t.updated + if made.Created? || made.Updated? then 1 else 0
    ensures r.skipped == t.skipped + if made.Skipped? || made.Ambiguous? then 1 else 0
  {
    match made
    case Created => t.(created := t.created + 1)
    case Updated => t.(updated := t.updated + 1)
    case _ => t.(skipped := t.skipped + 1)
  }

  class AssetTable {
    /** The rows the database shows this session, and those added to the session since the last flush. */
    var rows: seq<Row>
    var added: seq<Row>

    constructor ()
      ensures rows == [] && added == []
    {
      rows, added := [], [];
    }

    method Flush()
      modifies this
      ensures rows == old(rows) + old(added) && added == []
    {
      rows, added := rows + added, [];
    }

    /** One upsert of a native coin, flushed at once. */
    method UpsertNative(w: Write) returns (i: nat, isNew: bool)
      requires NativesOk(rows) && added == [] && NativeWrite(w)
      modifies this
      ensures rows == Put(old(rows), w) && NativesOk(rows) && added == []
      ensures |rows| == |old(rows)| + (if isNew then 1 else 0)
      ensures Position(rows, w.key) == Some(i)
    {
      var found := NativeQuery(rows, w.key.blockchain, w.key.testnet);
      NativeQueryFinds(rows, w.key.blockchain, w.key.testnet);
      PutNative(rows, w);
      var b := w.body;
      if found != [] {
        i, isNew := found[0], false;
        rows := rows[i := rows[i].(asset := b.asset, symbol := b.symbol, displayName := b.displayName,
                                   network := b.network, decimals := b.decimals, active := true)];
      } else {
        i, isNew := |rows|, true;
        added := [Row(PROVIDER, b.asset, b.symbol, b.displayName, w.key.blockchain, b.network, None, w.key.testnet,
                      b.decimals, true, true, None)];
        Flush();
      }
      OnlyRow(rows, i);
    }

    /** One upsert of a token: the lookup sees only what was flushed, and a new row is only added. */
    method UpsertToken(w: Write) returns (made: Made)
      requires NativesOk(rows) && TokenWrite(w)
      modifies this
      ensures made.Ambiguous? <==> |KeyRows(old(rows), w.key)| > 1
      ensures made.Ambiguous? ==> rows == old(rows) && added == old(added)
      ensures !made.Ambiguous? ==> Session(rows, added) == Stage(Session(old(rows), old(added)), w)
      ensures made.Created? || made.Updated? || made.Ambiguous?
      ensures made.Created? ==> |added| == |old(added)| + 1
      ensures made.Updated? ==> |added| == |old(added)|
    {
      var found := TokenQuery(rows, w.key.contract, w.key.testnet);
      TokenQueryFinds(rows, w.key.contract, w.key.testnet);
      if |found| > 1 { return Ambiguous; }
      var b := w.body;
      if found != [] {
        var i := found[0];
        made := Updated;
        rows := rows[i := rows[i].(asset := b.asset, symbol := b.symbol, displayName := b.displayName,
                                   blockchain := b.blockchain, network := b.network, decimals := b.decimals,
                                   active := true, native := false, parent := b.parent)];
      } else {
        made := Created;
        added := added + [Row(PROVIDER, b.asset, b.symbol, b.displayName, b.blockchain, b.network, Some(w.key.contract),
                              w.key.testnet, b.decimals, true, false, b.parent)];
      }
    }

    /** One native contract: upsert its coin, or skip a symbol that is not in the table of natives. */
    method LoadNative(env: Env, c: Info, cache: map<string, nat>) returns (made: Made, cache': map<string, nat>)
      requires NativesOk(rows) && added == [] && CacheOk(env.isTestnet, rows, cache)
      modifies this
      ensures NativesOk(rows) && added == []
      ensures var plan := NativePlan(env, c);
              rows == if plan.Some? then Put(old(rows), plan.value) else old(rows)
      ensures CacheOk(env.isTestnet, rows, cache')
      ensures !made.Ambiguous? && (made.Skipped? <==> NativePlan(env, c).None?)
      ensures |rows| == |old(rows)| + (if made.Created? then 1 else 0)
    {
      var plan := NativePlan(env, c);
      if plan.None? { return Skipped, cache; }
      ghost var was := rows;
      var i, isNew := UpsertNative(plan.value);
      CacheGrows(env.isTestnet, was, plan.value, cache, i);
      cache' := cache[plan.value.key.blockchain := i];
      made := if isNew then Created else Updated;
    }

    /** The `k`-th native contract, after the ones before it. */
    method NextNative(env: Env, infos: seq<Info>, k: nat, t: Tally, cache: map<string, nat>, ghost before: seq<Row>)
      returns (t': Tally, cache': map<string, nat>)
      requires k < |infos| && NativesOk(rows) && added == [] && CacheOk(env.isTestnet, rows, cache)
      requires rows == PutAll(before, NativeWrites(env, infos[..k]))
      modifies this
      ensures NativesOk(rows) && added == [] && CacheOk(env.isTestnet, rows, cache')
      ensures rows == PutAll(before, NativeWrites(env, infos[..k + 1]))
      ensures t'.created == t.created + |rows| - |old(rows)|
      ensures var more := |NativeWrites(env, infos[..k + 1])| - |NativeWrites(env, infos[..k])|;
              t'.created + t'.updated == t.created + t.updated + more && t'.skipped == t.skipped + 1 - more
    {
      NativeWritesNext(env, before, infos, k);
      var made;
      made, cache' := LoadNative(env, infos[k], cache);
      t' := Count(t, made);
    }

    /** First phase: native coins, remembering one row per blockchain. */
    method LoadNatives(env: Env, infos: seq<Info>) returns (t: Tally, cache: map<string, nat>)
      requires NativesOk(rows) && added == []
      modifies this
      ensures NativesOk(rows) && added == [] && rows == PutAll(old(rows), NativeWrites(env, infos))
      ensures CacheOk(env.isTestnet, rows, cache)
      ensures |rows| == |old(rows)| + t.created
      ensures t.created + t.updated == |NativeWrites(env, infos)| && t.skipped == |infos| - |NativeWrites(env, infos)|
    {
      t, cache := Tally(0, 0, 0), map[];
      ghost var ws := [];
      for k := 0 to |infos|
        invariant ws == NativeWrites(env, infos[..k])
        invariant NativesOk(rows) && added == [] && rows == PutAll(old(rows), ws)
        invariant CacheOk(env.isTestnet, rows, cache)
        invariant |rows| == |old(rows)| + t.created && t.created + t.updated == |ws| && t.skipped == k - |ws|
      {
        ws := NativeWrites(env, infos[..k + 1]);
        t, cache := NextNative(env, infos, k, t, cache, old(rows));
      }
      assert infos[..|infos|] == infos;
    }

    /** The native row of a blockchain: from the cache, or from the table and then remembered. */
    method FindParent(isTestnet: bool, blockchain: string, cache: map<string, nat>)
      returns (parent: Option<nat>, cache': map<string, nat>)
      requires NativesOk(rows) && CacheOk(isTestnet, rows, cache)
      ensures parent == Position(rows, NativeKey(blockchain, TestnetName(isTestnet, blockchain)))
      ensures CacheOk(isTestnet, rows, cache')
    {
      if blockchain in cache { return Some(cache[blockchain]), cache; }
      var testnet := TestnetName(isTestnet, blockchain);
      var found := NativeQuery(rows, blockchain, testnet);
      NativeQueryFinds(rows, blockchain, testnet);
      if found == [] { return None, cache; }
      return Some(found[0]), cache[blockchain := found[0]];
    }

    method PlanToken(env: Env, c: Info, cache: map<string, nat>) returns (plan: Option<Write>, cache': map<string, nat>)
      requires NativesOk(rows) && CacheOk(env.isTestnet, rows, cache)
      ensures plan == TokenPlan(env, rows, c)
      ensures CacheOk(env.isTestnet, rows, cache')
    {
      plan, cache' := None, cache;
      var fb := FbFor(env, c);
      if c.contract == "" || fb.None? { return; }
      var parsed := env.parse(fb.value);
      if parsed.None? { return; }
      var m := parsed.value;
      var contract := if fb.value.contract != "" then fb.value.contract
                      else if fb.value.issuer != "" then fb.value.issuer else c.contract;
      var parent;
      parent, cache' := FindParent(env.isTestnet, m.blockchain, cache);
      plan := Some(Write(TokenKey(contract, TestnetName(env.isTestnet, m.blockchain)),
                         TokenBody(fb.value.id, m.currency,
                                   if c.displayName.Some? then c.displayName.value else m.currency,
                                   m.blockchain, m.network, fb.value.decimals, parent)));
    }

    /** One token contract: plan it with its parent and upsert it, or skip it. */
    method LoadToken(env: Env, c: Info, cache: map<string, nat>) returns (made: Made, cache': map<string, nat>)
      requires NativesOk(rows) && CacheOk(env.isTestnet, rows, cache)
      modifies this
      ensures CacheOk(env.isTestnet, old(rows), cache')
      ensures var plan := TokenPlan(env, old(rows), c);
              && (made.Skipped? <==> plan.None?)
              && (made.Ambiguous? <==> plan.Some? && |KeyRows(old(rows), plan.value.key)| > 1)
              && (made.Skipped? || made.Ambiguous? ==> rows == old(rows) && added == old(added))
              && (made.Created? || made.Updated? ==>
                    Session(rows, added) == Stage(Session(old(rows), old(added)), plan.value))
      ensures made.Created? ==> |added| == |old(added)| + 1
      ensures !made.Created? ==> |added| == |old(added)|
    {
      var plan;
      plan, cache' := PlanToken(env, c, cache);
      if plan.None? { return Skipped, cache'; }
      made := UpsertToken(plan.value);
    }

    /** The `k`-th token contract, after the ones before it. */
    method NextToken(env: Env, infos: seq<Info>, k: nat, t: Tally, cache: map<string, nat>, ghost first: seq<Row>)
      returns (ok: bool, t': Tally, cache': map<string, nat>)
      requires k < |infos| && NativesOk(first) && CacheOk(env.isTestnet, first, cache)
      requires EachOnce(first, TokenWrites(env, first, infos[..k]))
      requires Session(rows, added) == StageAll(first, TokenWrites(env, first, infos[..k]))
      modifies this
      ensures !ok ==> Raises(env, first, infos)
      ensures CacheOk(env.isTestnet, first, cache')
      ensures ok ==>
                && EachOnce(first, TokenWrites(env, first, infos[..k + 1]))
                && Session(rows, added) == StageAll(first, TokenWrites(env, first, infos[..k + 1]))
                && t'.created == t.created + |added| - |old(added)|
                && var more := |TokenWrites(env, first, infos[..k + 1])| - |TokenWrites(env, first, infos[..k])|;
                   t'.created + t'.updated == t.created + t.updated + more && t'.skipped == t.skipped + 1 - more
    {
      ghost var seen := rows;
      StillToLoad(env, first, infos, k, cache);
      TargetOnce(env, first, infos, k);
      var made;
      made, cache' := LoadToken(env, infos[k], cache);
      SameKeysSameCache(env.isTestnet, seen, first, cache');
      ok, t' := !made.Ambiguous?, Count(t, made);
    }

    /** Second phase: tokens, linked through the cache or, when it misses, through the table. */
    method LoadTokens(env: Env, infos: seq<Info>, natives: map<string, nat>) returns (ok: bool, t: Tally)
      requires NativesOk(rows) && added == [] && CacheOk(env.isTestnet, rows, natives)
      modifies this
      ensures ok <==> !Raises(env, old(rows), infos)
      ensures ok ==>
                var ws := TokenWrites(env, old(rows), infos);
                && Session(rows, added) == StageAll(old(rows), ws) && |rows| == |old(rows)| && |added| == t.created
                && t.created + t.updated == |ws| && t.skipped == |infos| - |ws|
    {
      t := Tally(0, 0, 0);
      var cache := natives;
      ghost var ws: seq<Write> := [];
      for k := 0 to |infos|
        invariant ws == TokenWrites(env, old(rows), infos[..k]) && EachOnce(old(rows), ws)
        invariant Session(rows, added) == StageAll(old(rows), ws)
        invariant CacheOk(env.isTestnet, old(rows), cache)
        invariant |added| == t.created && t.created + t.updated == |ws| && t.skipped == k - |ws|
      {
        var more;
        more, t, cache := NextToken(env, infos, k, t, cache, old(rows));
        if !more { return false, t; }
        ws := TokenWrites(env, old(rows), infos[..k + 1]);
      }
      assert infos[..|infos|] == infos;
      RaisesIff(env, old(rows), infos, ws);
      VisibleRows(old(rows), ws);
      ok := true;
    }

    /** The whole sync, from any table that syncs have made: sound or not. */
    method SyncFireblocksAssets(isTestnet: bool, contracts: seq<Info>, fbs: seq<FbAsset>,
                                dev: map<string, NativeMeta>, prod: map<string, NativeMeta>,
                                parse: FbAsset -> Option<Meta>, commit1: bool, commit2: bool)
      returns (r: Result)
      requires NativesOk(rows) && added == []
      modifies this
      ensures var env := Env(isTestnet, IndexById(fbs), IndexByAddress(fbs), if isTestnet then dev else prod, parse);
              && rows == After(env, old(rows), contracts, commit1, commit2)
              && (r.Done? <==> Succeeds(env, old(rows), contracts, commit1, commit2))
              && (r.Done? ==>
                    var written := |NativeWrites(env, Natives(env, contracts))|
                                   + |TokenTargets(env, Tokens(env, contracts))|;
                    && |rows| == |old(rows)| + r.created
                    && r.created + r.updated == written && r.skipped == |contracts| - written)
      ensures NativesOk(rows) && added == []
    {
      var committed := rows;
      var byId, byAddress := IndexAssets(fbs);
      var env := Env(isTestnet, byId, byAddress, if isTestnet then dev else prod, parse);
      var nativeInfos, tokenInfos := SplitContracts(env, contracts);
      SyncKeepsNatives(env, rows, contracts, commit1, commit2);
      var t1, cache := LoadNatives(env, nativeInfos);
      if !commit1 {
        rows := committed;
        return Failed;
      }
      committed := rows;
      var ok, t2 := LoadTokens(env, tokenInfos, cache);
      if !ok || !commit2 {
        rows, added := committed, [];
        return Failed;
      }
      Flush();
      r := Done(t1.created + t2.created, t1.updated + t2.updated, t1.skipped + t2.skipped);
    }
  }

  /** What the second phase can rely on after `k` contracts: the visible rows answer as they did at first. */
  lemma StillToLoad(env: Env, rows: seq<Row>, infos: seq<Info>, k: nat, cache: map<string, nat>)
    requires k < |infos| && NativesOk(rows) && EachOnce(rows, TokenWrites(env, rows, infos[..k]))
    requires CacheOk(env.isTestnet, rows, cache)
    ensures var seen, plan := StageAll(rows, TokenWrites(env, rows, infos[..k])).rows, TokenPlan(env, rows, infos[k]);
            && SameKeys(rows, seen) && NativesOk(seen) && CacheOk(env.isTestnet, seen, cache)
            && TokenPlan(env, seen, infos[k]) == plan
            && (plan.Some? ==> KeyRows(seen, plan.value.key) == KeyRows(rows, plan.value.key))
    ensures var ws, next, plan := TokenWrites(env, rows, infos[..k]), TokenWrites(env, rows, infos[..k + 1]),
                                  TokenPlan(env, rows, infos[k]);
            && (plan.None? ==> next == ws)
            && (plan.Some? ==> |next| == |ws| + 1 && StageAll(rows, next) == Stage(StageAll(rows, ws), plan.value))
  {
    var ws := TokenWrites(env, rows, infos[..k]);
    var seen, plan := StageAll(rows, ws).rows, TokenPlan(env, rows, infos[k]);
    TokenWritesNext(env, rows, infos, k);
    VisibleRows(rows, ws);
    SameKeysSameCache(env.isTestnet, rows, seen, cache);
    SameTokenPlan(env, rows, seen, infos[k]);
    if plan.Some? { SameKeysSamePosition(rows, seen, plan.value.key); }
  }

  /** The lookup of one more contract raises exactly when its target occurs several times in the table. */
  lemma TargetOnce(env: Env, rows: seq<Row>, infos: seq<Info>, k: nat)
    requires k < |infos| && EachOnce(rows, TokenWrites(env, rows, infos[..k]))
    ensures var plan := TokenPlan(env, rows, infos[k]);
            if plan.Some? && |KeyRows(rows, plan.value.key)| > 1 then Raises(env, rows, infos)
            else EachOnce(rows, TokenWrites(env, rows, infos[..k + 1]))
  {
    var plan := TokenPlan(env, rows, infos[k]);
    TokenWritesNext(env, rows, infos, k);
    if plan.Some? {
      OnceIsOneRow(rows, plan.value.key);
      TargetAmong(env, infos, k);
    }
  }

  lemma TargetAmong(env: Env, infos: seq<Info>, k: nat)
    requires k < |infos| && TokenTarget(env, infos[k]).Some?
    ensures TokenTarget(env, infos[k]).value in TokenTargets(env, infos)
  {
    assert infos[..k + 1][..k] == infos[..k];
    TargetsPrefix(env, infos, k + 1);
    var keys := TokenTargets(env, infos[..k + 1]);
    assert keys[|keys| - 1] == TokenTarget(env, infos[k]).value == TokenTargets(env, infos)[|keys| - 1];
  }

  lemma {:induction false} TargetsPrefix(env: Env, infos: seq<Info>, k: nat)
    requires k <= |infos|
    ensures TokenTargets(env, infos[..k]) <= TokenTargets(env, infos)
  {
    if k < |infos| {
      TargetsPrefix(env, infos[..|infos| - 1], k);
      assert infos[..|infos| - 1][..k] == infos[..k];
    } else {
      assert infos[..k] == infos;
    }
  }

  method IndexAssets(fbs: seq<FbAsset>) returns (byId: map<string, FbAsset>, byAddress: map<string, FbAsset>)
    ensures byId == IndexById(fbs) && byAddress == IndexByAddress(fbs)
  {
    byId, byAddress := map[], map[];
    for k := 0 to |fbs|
      invariant byId == IndexById(fbs[..k]) && byAddress == IndexByAddress(fbs[..k])
    {
      assert fbs[..k + 1][..k] == fbs[..k];
      var fb := fbs[k];
      byId := byId[fb.id := fb];
      if fb.contract != "" { byAddress := byAddress[Lower(fb.contract) := fb]; }
      if fb.issuer != "" { byAddress := byAddress[Lower(fb.issuer) := fb]; }
    }
    assert fbs[..|fbs|] == fbs;
  }

  method SplitContracts(env: Env, cs: seq<Info>) returns (natives: seq<Info>, tokens: seq<Info>)
    ensures natives == Natives(env, cs) && tokens == Tokens(env, cs) && |natives| + |tokens| == |cs|
  {
    natives, tokens := [], [];
    for k := 0 to |cs|
      invariant natives == Natives(env, cs[..k]) && tokens == Tokens(env, cs[..k]) && |natives| + |tokens| == k
    {
      assert cs[..k + 1][..k] == cs[..k];
      if IsNativeInfo(env, cs[k]) { natives := natives + [cs[k]]; } else { tokens := tokens + [cs[k]]; }
    }
    assert cs[..|cs|] == cs;
  }
}
