/** The service itself: tables updated in place, one method per endpoint, consumer, webhook or
    queue routine. Each method is proved to carry out its step of the transition table. */
module CustodyServices {
  import opened Basics
  import opened Ledger
  import opened Steps
  import opened Queue
  import opened Outcomes

  datatype Reply = Done(status: Status) | NotFound | Conflict | BadRequest | ServerError

  /** What auto-activation of an asset in the primary HOT vault came to. */
  datatype Activation = Unavailable | AlreadyThere | Opened(vault: nat, asset: nat)

  /** Where an internal transfer goes; a plain address must be on the provider's whitelist. */
  datatype Destination = ToVault(vault: nat) | ToAddress(whitelisted: bool) | Nowhere

  function CountChosen(sels: seq<Selection>): nat {
    if |sels| == 0 then 0
    else CountChosen(sels[..|sels| - 1]) + (if sels[|sels| - 1].Chosen? then 1 else 0)
  }

  /** It counts the positions that hold a chosen wallet. */
  lemma {:induction false} CountChosenExact(sels: seq<Selection>)
    ensures CountChosen(sels) == |set k | 0 <= k < |sels| && sels[k].Chosen?|
  {
    var chosen := set k | 0 <= k < |sels| && sels[k].Chosen?;
    if |sels| > 0 {
      var n := |sels| - 1;
      CountChosenExact(sels[..n]);
      assert (set k | 0 <= k < n && sels[..n][k].Chosen?) == chosen - {n};
    }
  }

  lemma CountNext(sels: seq<Selection>, sel: Selection)
    ensures CountChosen(sels + [sel]) == CountChosen(sels) + if sel.Chosen? then 1 else 0
  {
    assert (sels + [sel])[..|sels|] == sels;
  }

  function Overwrites(reports: seq<(nat, int)>): seq<Event> {
    seq(|reports|, k requires 0 <= k < |reports| => Overwrite(reports[k].0, reports[k].1))
  }

  /** How many of the reports differ from the balance they meet. */
  ghost function Differing(s: State, reports: seq<(nat, int)>): nat {
    if |reports| == 0 then 0 else
    var n := |reports| - 1;
    var met := Run(s, Overwrites(reports[..n])).wallets;
    var (w, balance) := reports[n];
    Differing(s, reports[..n]) + (if w < |met| && met[w].balance != balance then 1 else 0)
  }

  lemma ReportNext(s: State, reports: seq<(nat, int)>, k: nat)
    requires k < |reports|
    ensures var met := Run(s, Overwrites(reports[..k]));
            var (w, balance) := reports[k];
            && Run(s, Overwrites(reports[..k + 1])) == met.(wallets := SetBalance(met.wallets, w, balance))
            && Differing(s, reports[..k + 1])
               == Differing(s, reports[..k])
                  + if w < |met.wallets| && met.wallets[w].balance != balance then 1 else 0
  {
    assert reports[..k + 1][..k] == reports[..k];
    assert Overwrites(reports[..k + 1]) == Overwrites(reports[..k]) + [Overwrite(reports[k].0, reports[k].1)];
    RunSnoc(s, Overwrites(reports[..k]), Overwrite(reports[k].0, reports[k].1));
  }

  /** Reports change nothing but balances. */
  lemma {:induction false} OverwritesKeep(s: State, reports: seq<(nat, int)>)
    ensures var s' := Run(s, Overwrites(reports));
            && s' == s.(wallets := s'.wallets) && |s'.wallets| == |s.wallets|
            && forall w :: 0 <= w < |s.wallets| ==> s'.wallets[w] == s.wallets[w].(balance := s'.wallets[w].balance)
  {
    if |reports| > 0 {
      var n := |reports| - 1;
      OverwritesKeep(s, reports[..n]);
      ReportNext(s, reports, n);
      assert reports[..n + 1] == reports;
    }
  }

  /** What the last report does to one wallet. */
  lemma ReportLands(s: State, reports: seq<(nat, int)>, w: nat)
    requires |reports| > 0 && w < |s.wallets|
    ensures var n := |reports| - 1;
            var before, after := Run(s, Overwrites(reports[..n])).wallets, Run(s, Overwrites(reports)).wallets;
            && |before| == |after| == |s.wallets|
            && after[w] == if reports[n].0 == w then before[w].(balance := reports[n].1) else before[w]
  {
    OverwritesKeep(s, reports[..|reports| - 1]);
    ReportNext(s, reports, |reports| - 1);
    assert reports[..|reports|] == reports;
  }

  /** A wallet without a report keeps its balance. */
  lemma {:induction false} UnreportedStays(s: State, reports: seq<(nat, int)>, w: nat)
    requires w < |s.wallets| && forall k :: 0 <= k < |reports| ==> reports[k].0 != w
    ensures var s' := Run(s, Overwrites(reports)); |s'.wallets| == |s.wallets| && s'.wallets[w] == s.wallets[w]
  {
    if |reports| > 0 {
      UnreportedStays(s, reports[..|reports| - 1], w);
      ReportLands(s, reports, w);
    }
  }

  /** A wallet ends with the balance of its last report. */
  lemma {:induction false} LastReportCounts(s: State, reports: seq<(nat, int)>, k: nat)
    requires k < |reports| && reports[k].0 < |s.wallets|
    requires forall j :: k < j < |reports| ==> reports[j].0 != reports[k].0
    ensures var s' := Run(s, Overwrites(reports));
            |s'.wallets| == |s.wallets| && s'.wallets[reports[k].0].balance == reports[k].1
  {
    ReportLands(s, reports, reports[k].0);
    if k < |reports| - 1 { LastReportCounts(s, reports[..|reports| - 1], k); }
  }

  predicate DestinationOk(s: State, destination: Destination, asset: nat) {
    match destination
    case ToVault(v) => v < |s.vaults| && One(WalletsOf(s.wallets, v, asset)).Some?
    case ToAddress(whitelisted) => whitelisted
    case Nowhere => false
  }

  class CustodyService {
    var vaults: seq<Vault>
    var assets: seq<Asset>
    var wallets: seq<Wallet>
    var transfers: seq<Transfer>
    /** History for the specification only; no handler reads it. */
    ghost var stranded: set<nat>

    ghost function S(): State
      reads this
    {
      State(vaults, assets, wallets, transfers, stranded)
    }

    constructor ()
      ensures S() == State([], [], [], [], {})
    {
      vaults, assets, wallets, transfers := [], [], [], [];
      stranded := {};
    }

    // ----- the guarded UPDATE statements -----

    method ReserveBalance(w: nat, amount: int) returns (ok: bool)
      modifies this`wallets
      ensures ok == Goes(old(wallets), Reserve(w, amount))
      ensures wallets == Pay(old(wallets), Reserve(w, amount))
      ensures ok <==> w < |old(wallets)| && old(wallets)[w].balance - old(wallets)[w].pending >= amount
      ensures if ok then Holds(old(wallets), wallets, w, old(wallets)[w].balance, old(wallets)[w].pending + amount)
              else wallets == old(wallets)
    {
      ok := w < |wallets| && wallets[w].balance - wallets[w].pending >= amount;
      if ok {
        wallets := wallets[w := wallets[w].(pending := wallets[w].pending + amount)];
      }
    }

    method ReleaseReserve(w: nat, amount: int) returns (ok: bool)
      modifies this`wallets
      ensures ok == Goes(old(wallets), Release(w, amount))
      ensures wallets == Pay(old(wallets), Release(w, amount))
      ensures ok <==> w < |old(wallets)| && old(wallets)[w].pending >= amount
      ensures if ok then Holds(old(wallets), wallets, w, old(wallets)[w].balance, old(wallets)[w].pending - amount)
              else wallets == old(wallets)
    {
      ok := w < |wallets| && wallets[w].pending >= amount;
      if ok {
        wallets := wallets[w := wallets[w].(pending := wallets[w].pending - amount)];
      }
    }

    method CompleteTransferBalance(w: nat, amount: int) returns (ok: bool)
      modifies this`wallets
      ensures ok == Goes(old(wallets), Deduct(w, amount))
      ensures wallets == Pay(old(wallets), Deduct(w, amount))
      ensures ok <==> && w < |old(wallets)| && old(wallets)[w].pending >= amount
                      && old(wallets)[w].balance >= amount
      ensures if ok
              then Holds(old(wallets), wallets, w, old(wallets)[w].balance - amount, old(wallets)[w].pending - amount)
              else wallets == old(wallets)
    {
      ok := w < |wallets| && wallets[w].pending >= amount && wallets[w].balance >= amount;
      if ok {
        var row := wallets[w];
        wallets := wallets[w := row.(pending := row.pending - amount, balance := row.balance - amount)];
      }
    }

    /** The selection query: a primary vault first, then the largest available balance. */
    method ChooseHotWallet(key: AssetKey, amount: int) returns (sel: Selection)
      ensures Selects(S(), key, amount, sel)
    {
      var best: Option<nat> := None;
      var most: Option<int> := None;
      for w := 0 to |wallets|
        invariant best.Some? ==> Sufficient(S(), best.value, key, amount)
        invariant forall v: nat :: v < w && Sufficient(S(), v, key, amount) ==>
                    best.Some? && NotBefore(S(), v, best.value)
        invariant most.Some? ==> exists v: nat :: Matches(S(), v, key) && wallets[v].Available() == most.value
        invariant forall v: nat :: v < w && Matches(S(), v, key) ==> most.Some? && wallets[v].Available() <= most.value
      {
        var row := wallets[w];
        if row.vault < |vaults| && row.asset < |assets| {
          var vault, asset := vaults[row.vault], assets[row.asset];
          if && vault.kind == Hot && vault.active
             && Upper(asset.blockchain) == Upper(key.blockchain) && asset.contract == key.contract {
            assert Matches(S(), w, key);
            var available := row.balance - row.pending;
            if most.None? || available > most.value { most := Some(available); }
            if available >= amount {
              if best.None? { best := Some(w); }
              else {
                var rival := wallets[best.value];
                var rivalPrimary := vaults[rival.vault].primary;
                if vault.primary != rivalPrimary {
                  if vault.primary { best := Some(w); }
                } else if available > rival.balance - rival.pending {
                  best := Some(w);
                }
              }
            }
          }
        }
      }
      assert best.None? ==> forall v: nat :: Matches(S(), v, key) ==> !Sufficient(S(), v, key, amount);
      sel := if best.Some? then Chosen(best.value) else if most.Some? then Insufficient(most.value) else NoWallet;
    }

    /** Picks the best sufficient wallet and reserves the amount on it, and on nothing else. */
    method SelectAndReserveHotWallet(key: AssetKey, amount: int) returns (sel: Selection)
      modifies this`wallets
      ensures Selects(old(S()), key, amount, sel)
      ensures wallets == if sel.Chosen? then Pay(old(wallets), Reserve(sel.wallet, amount)) else old(wallets)
      ensures sel.Chosen? ==> Goes(old(wallets), Reserve(sel.wallet, amount))
      ensures sel.Chosen? ==> ReservedOn(old(S()), wallets, key, amount, sel.wallet)
    {
      sel := ChooseHotWallet(key, amount);
      if sel.Chosen? {
        assert Sufficient(S(), sel.wallet, key, amount);
        var w := sel.wallet;
        wallets := wallets[w := wallets[w].(pending := wallets[w].pending + amount)];
      }
    }

    method UpdateTransferWithWallet(i: nat, w: nat)
      requires i < |transfers|
      modifies this`transfers
      ensures transfers == old(transfers)[i := old(transfers)[i].(status := Pending, wallet := Some(w))]
    {
      transfers := transfers[i := transfers[i].(wallet := Some(w))];
      transfers := transfers[i := transfers[i].(status := Pending)];
    }

    method SetStatus(i: nat, status: Status)
      requires i < |transfers|
      modifies this`transfers
      ensures transfers == old(transfers)[i := old(transfers)[i].(status := status)]
    {
      transfers := transfers[i := transfers[i].(status := status)];
    }

    // ----- creating transfers -----

    /** Reserves the amount on a HOT wallet; if no wallet carries the asset, tries to activate it in
        the primary vault and selects once more. */
    method ReserveUpfront(key: AssetKey, amount: int, activation: Activation)
      returns (found: Selection, ghost middle: State)
      modifies this`wallets
      ensures var opens := activation.Opened? && forall v: nat :: !Matches(old(S()), v, key);
              middle == old(S()).(wallets := if opens
                                             then old(wallets) + [Wallet(activation.vault, activation.asset, 0, 0)]
                                             else old(wallets))
      ensures Selects(middle, key, amount, found)
      ensures wallets == if found.Chosen? then Pay(middle.wallets, Reserve(found.wallet, amount)) else middle.wallets
      ensures found.Chosen? ==> ReservedOn(middle, wallets, key, amount, found.wallet)
    {
      middle := S();
      found := SelectAndReserveHotWallet(key, amount);
      SelectionExact(old(S()), key, amount, found);
      if found.NoWallet? {
        if activation.Opened? {
          wallets := wallets + [Wallet(activation.vault, activation.asset, 0, 0)];
          middle := S();
        }
        if !activation.Unavailable? {
          found := SelectAndReserveHotWallet(key, amount);
        }
      }
    }

    /** Reserves, and adds the row: bound and awaiting approval, or unbound and in the queue. */
    method ReserveAndRecord(requestId: string, amount: int, key: AssetKey, activation: Activation)
      returns (status: Status, ghost sel: Selection, ghost middle: State)
      requires Fresh(S(), requestId)
      modifies this`wallets, this`transfers
      ensures S() == Apply(middle, CreateAuto(requestId, amount, key, sel))
      ensures var opens := activation.Opened? && forall v: nat :: !Matches(old(S()), v, key);
              middle == old(S()).(wallets := if opens
                                             then old(wallets) + [Wallet(activation.vault, activation.asset, 0, 0)]
                                             else old(wallets))
      ensures Selects(middle, key, amount, sel)
      ensures wallets == if sel.Chosen? then Pay(middle.wallets, Reserve(sel.wallet, amount)) else middle.wallets
      ensures status == if sel.Chosen? then PendingApproval else PendingBalance
      ensures sel.Chosen? ==> ReservedOn(middle, wallets, key, amount, sel.wallet)
      ensures !sel.Chosen? ==> |old(transfers)| in Waiting(transfers)
      ensures transfers == old(transfers) + [Transfer(requestId, amount, key.blockchain, key.contract, status,
                                                      if sel.Chosen? then Some(sel.wallet) else None, None, 0)]
    {
      var found;
      found, middle := ReserveUpfront(key, amount, activation);
      sel := found;
      status := if found.Chosen? then PendingApproval else PendingBalance;
      var wallet := if found.Chosen? then Some(found.wallet) else None;
      transfers := transfers + [Transfer(requestId, amount, key.blockchain, key.contract, status, wallet, None, 0)];
      CreateAutoDecided(middle, requestId, amount, key, sel);
    }

    /** Reserves before the transfer exists; without a reservation the transfer waits in the queue. */
    method CreateExternalTransfer(requestId: string, amount: int, key: AssetKey, activation: Activation)
      returns (r: Reply, ghost sel: Selection, ghost middle: State)
      modifies this`wallets, this`transfers
      ensures Fresh(old(S()), requestId) ==> Selects(middle, key, amount, sel)
      ensures S() == Apply(middle, CreateAuto(requestId, amount, key, sel))
      ensures var opens := Fresh(old(S()), requestId) && activation.Opened?
                           && forall v: nat :: !Matches(old(S()), v, key);
              middle == old(S()).(wallets := if opens
                                             then old(wallets) + [Wallet(activation.vault, activation.asset, 0, 0)]
                                             else old(wallets))
      ensures vaults == old(vaults) && assets == old(assets)
      ensures !Fresh(old(S()), requestId) ==> r == Conflict && S() == old(S())
      ensures var served := exists w: nat :: Matches(middle, w, key)
                                             && amount <= middle.wallets[w].balance - middle.wallets[w].pending;
              Fresh(old(S()), requestId) ==> r == Done(if served then PendingApproval else PendingBalance)
      ensures r == Done(PendingApproval) ==>
                && sel.Chosen? && ReservedOn(middle, wallets, key, amount, sel.wallet)
                && transfers == old(transfers) + [Transfer(requestId, amount, key.blockchain, key.contract,
                                                           PendingApproval, Some(sel.wallet), None, 0)]
      ensures r == Done(PendingBalance) ==>
                && wallets == middle.wallets && |old(transfers)| in Waiting(transfers)
                && transfers == old(transfers) + [Transfer(requestId, amount, key.blockchain, key.contract,
                                                           PendingBalance, None, None, 0)]
    {
      FreshIff(S(), requestId);
      if ByRequest(transfers, requestId) != [] {
        CreateAutoRefused(S(), requestId, amount, key, NoWallet);
        return Conflict, NoWallet, S();
      }
      var status;
      status, sel, middle := ReserveAndRecord(requestId, amount, key, activation);
      SelectionServes(middle, key, amount, sel);
      r := Done(status);
    }

    /** Reserves, hands the transaction to the provider and records what it answered; a provider error
        rolls the reservation back. */
    method SendFromWallet(requestId: string, amount: int, key: AssetKey, w: nat, reply: ProviderReply)
      returns (r: Reply)
      modifies this
      ensures !Goes(old(wallets), Reserve(w, amount)) ==> r == BadRequest && S() == old(S())
      ensures Goes(old(wallets), Reserve(w, amount)) && !(reply.Accepted? && reply.id.Some?) ==>
                r == ServerError && S() == old(S())
      ensures Goes(old(wallets), Reserve(w, amount)) && reply.Accepted? && reply.id.Some? ==>
                && r == Done(BirthStatus(reply))
                && var created := NewTransfer(requestId, amount, key, BirthStatus(reply), Some(w), reply.id);
                   S() == Commit(old(S()), Append(created, Reserve(w, amount)))
    {
      var saved := wallets;
      var reserved := ReserveBalance(w, amount);
      if !reserved { return BadRequest; }
      if reply.Refused? || reply.id.None? {
        wallets := saved;
        return ServerError;
      }
      var status := Signing;
      if reply.status.Some? && reply.status.value != "" { status := StatusOf(reply.status.value); }
      transfers := transfers
        + [Transfer(requestId, amount, key.blockchain, key.contract, status, Some(w), reply.id, 0)];
      stranded := if status.IsFinal() then stranded + {|transfers| - 1} else stranded;
      r := Done(status);
    }

    /** What is wrong with an explicit-source request, if anything, or else its one wallet. */
    method CheckSource(requestId: string, amount: int, vault: nat, asset: nat)
      returns (refusal: Option<Reply>, w: nat)
      ensures refusal == if vault >= |vaults| || asset >= |assets| then Some(NotFound)
                         else if !Fresh(S(), requestId) then Some(Conflict)
                         else if NoWalletOf(wallets, vault, asset) then Some(NotFound)
                         else if !exists v: nat :: OnlyWallet(wallets, vault, asset, v) then Some(ServerError)
                         else if forall v: nat :: OnlyWallet(wallets, vault, asset, v) ==>
                                   wallets[v].balance - wallets[v].pending < amount then Some(BadRequest)
                         else None
      ensures refusal.None? ==> OnlyWallet(wallets, vault, asset, w)
    {
      w := 0;
      if vault >= |vaults| || asset >= |assets| { return Some(NotFound), w; }
      FreshIff(S(), requestId);
      if ByRequest(transfers, requestId) != [] { return Some(Conflict), w; }
      var rows := WalletsOf(wallets, vault, asset);
      WalletsOfSpelled(wallets, vault, asset);
      if rows == [] { return Some(NotFound), w; }
      if |rows| > 1 { return Some(ServerError), w; }
      w := rows[0];
      if wallets[w].Available() < amount { return Some(BadRequest), w; }
      refusal := None;
    }

    /** Explicit source: the checks, then the send. `destination` is what the caller found wrong with the
        destination, if anything. */
    method CreateFromWallet(requestId: string, amount: int, vault: nat, asset: nat, blockchain: Option<string>,
                            contract: Option<string>, destination: Option<Reply>, reply: ProviderReply)
      returns (r: Reply)
      requires destination.Some? ==> !destination.value.Done?
      modifies this
      ensures S() == Apply(old(S()), CreateFrom(requestId, amount, vault, asset, blockchain, contract,
                                                destination.None?, reply))
      ensures r == if vault >= |old(vaults)| || asset >= |old(assets)| then NotFound
                   else if !Fresh(old(S()), requestId) then Conflict
                   else if NoWalletOf(old(wallets), vault, asset) then NotFound
                   else if !exists w: nat :: OnlyWallet(old(wallets), vault, asset, w) then ServerError
                   else if forall w: nat :: OnlyWallet(old(wallets), vault, asset, w) ==>
                             old(wallets)[w].balance - old(wallets)[w].pending < amount then BadRequest
                   else if destination.Some? then destination.value
                   else if reply.Accepted? && reply.id.Some? then Done(BirthStatus(reply)) else ServerError
      ensures !r.Done? ==> S() == old(S())
      ensures r.Done? ==>
                && (exists w: nat :: SentFrom(old(S()), S(), requestId, amount, vault, asset, blockchain, contract,
                                              reply, w))
                && r.status == transfers[|old(transfers)|].status
    {
      ghost var e := CreateFrom(requestId, amount, vault, asset, blockchain, contract, destination.None?, reply);
      var refusal, w := CheckSource(requestId, amount, vault, asset);
      if refusal.Some? {
        CreateFromRefused(S(), e);
        return refusal.value;
      }
      if destination.Some? { return destination.value; }
      var key := AssetKey(if blockchain.Some? && blockchain.value != "" then blockchain.value
                          else assets[asset].blockchain,
                          if contract.Some? then contract else assets[asset].contract);
      ghost var s := S();
      CreateFromDecided(s, e, w, key);
      r := SendFromWallet(requestId, amount, key, w, reply);
      CreateFromSpelled(old(S()), requestId, amount, vault, asset, blockchain, contract, true, reply, w);
    }

    method CreateExternalTransferDirect(requestId: string, amount: int, vault: nat, asset: nat,
                                        blockchain: Option<string>, contract: Option<string>, reply: ProviderReply)
      returns (r: Reply)
      modifies this
      ensures S() == Apply(old(S()), CreateFrom(requestId, amount, vault, asset, blockchain, contract, true, reply))
      ensures r.Done? <==>
                && vault < |old(vaults)| && asset < |old(assets)| && Fresh(old(S()), requestId)
                && (exists w: nat :: OnlyWallet(old(wallets), vault, asset, w)
                                && amount <= old(wallets)[w].balance - old(wallets)[w].pending)
                && reply.Accepted? && reply.id.Some?
      ensures !r.Done? ==> S() == old(S())
      ensures r.Done? ==>
                && (exists w: nat :: SentFrom(old(S()), S(), requestId, amount, vault, asset, blockchain, contract,
                                              reply, w))
                && r.status == transfers[|old(transfers)|].status
    {
      r := CreateFromWallet(requestId, amount, vault, asset, blockchain, contract, None, reply);
    }

    /** What is wrong with the destination of an internal transfer, if anything. */
    method CheckDestination(destination: Destination, asset: nat) returns (wrong: Option<Reply>)
      ensures wrong == match destination
                       case ToVault(v) =>
                         if v >= |vaults| || NoWalletOf(wallets, v, asset) then Some(NotFound)
                         else if exists w: nat :: OnlyWallet(wallets, v, asset, w) then None else Some(ServerError)
                       case ToAddress(whitelisted) => if whitelisted then None else Some(BadRequest)
                       case Nowhere => Some(BadRequest)
      ensures wrong.None? <==> DestinationOk(S(), destination, asset)
    {
      wrong := None;
      match destination {
        case ToVault(v) =>
          var rows := WalletsOf(wallets, v, asset);
          WalletsOfSpelled(wallets, v, asset);
          if v >= |vaults| || rows == [] { wrong := Some(NotFound); }
          else if |rows| > 1 { wrong := Some(ServerError); }
        case ToAddress(whitelisted) =>
          if !whitelisted { wrong := Some(BadRequest); }
        case Nowhere => wrong := Some(BadRequest);
      }
    }

    /** The destination is a vault that holds the asset in exactly one wallet, or a whitelisted address. */
    method CreateInternalTransfer(requestId: string, amount: int, vault: nat, asset: nat, blockchain: Option<string>,
                                  contract: Option<string>, destination: Destination, reply: ProviderReply)
      returns (r: Reply)
      modifies this
      ensures S() == Apply(old(S()), CreateFrom(requestId, amount, vault, asset, blockchain, contract,
                                                DestinationOk(old(S()), destination, asset), reply))
      ensures r.Done? <==>
                && vault < |old(vaults)| && asset < |old(assets)| && Fresh(old(S()), requestId)
                && (exists w: nat :: OnlyWallet(old(wallets), vault, asset, w)
                                && amount <= old(wallets)[w].balance - old(wallets)[w].pending)
                && (match destination
                    case ToVault(v) => v < |old(vaults)| && exists d: nat :: OnlyWallet(old(wallets), v, asset, d)
                    case ToAddress(whitelisted) => whitelisted
                    case Nowhere => false)
                && reply.Accepted? && reply.id.Some?
      ensures !r.Done? ==> S() == old(S())
      ensures r.Done? ==>
                && (exists w: nat :: SentFrom(old(S()), S(), requestId, amount, vault, asset, blockchain, contract,
                                              reply, w))
                && r.status == transfers[|old(transfers)|].status
    {
      var wrong := CheckDestination(destination, asset);
      r := CreateFromWallet(requestId, amount, vault, asset, blockchain, contract, wrong, reply);
    }

    // ----- workflow endpoints -----

    method ApproveTransfer(requestId: string) returns (r: Reply, ghost sel: Selection)
      modifies this
      ensures Lookup(old(S()), requestId).Some? ==>
                AnswersFor(old(S()), old(transfers)[Lookup(old(S()), requestId).value], PendingApproval, sel)
      ensures forall i: nat :: Asked(old(S()), requestId, i) ==>
                var t := old(transfers)[i];
                t.status == PendingApproval && t.wallet.None? ==>
                  Selects(old(S()), AssetKey(t.blockchain, t.contract), t.amount, sel)
      ensures S() == Apply(old(S()), Approve(requestId, sel))
      ensures r.NotFound? <==> Lookup(old(S()), requestId).None?
      ensures r.Done? <==>
                exists i :: Lookup(old(S()), requestId) == Some(i) && old(transfers)[i].status == PendingApproval
    {
      sel := NoWallet;
      var i := One(ByRequest(transfers, requestId));
      forall k: nat ensures Asked(S(), requestId, k) <==> i == Some(k) { AskedIsLookup(S(), requestId, k); }
      if i.None? { return NotFound, sel; }
      var t := transfers[i.value];
      if t.status != PendingApproval { return BadRequest, sel; }
      if t.wallet.Some? { return Done(Pending), sel; }
      var found := SelectAndReserveHotWallet(AssetKey(t.blockchain, t.contract), t.amount);
      sel := found;
      if found.Chosen? {
        UpdateTransferWithWallet(i.value, found.wallet);
        r := Done(Pending);
      } else {
        SetStatus(i.value, PendingBalance);
        r := Done(PendingBalance);
      }
      stranded := Apply(old(S()), Approve(requestId, sel)).stranded;
    }

    method RejectTransfer(requestId: string) returns (r: Reply)
      modifies this
      ensures S() == Apply(old(S()), Reject(requestId))
      ensures r == match Lookup(old(S()), requestId)
                   case None => NotFound
                   case Some(i) => if old(transfers)[i].status.IsFinal() then BadRequest else Done(Rejected)
    {
      var i := One(ByRequest(transfers, requestId));
      if i.None? { return NotFound; }
      var t := transfers[i.value];
      if t.status.IsFinal() { return BadRequest; }
      if t.status == Pending && t.wallet.Some? {
        var _ := ReleaseReserve(t.wallet.value, t.amount);
      }
      SetStatus(i.value, Rejected);
      stranded := Apply(old(S()), Reject(requestId)).stranded;
      r := Done(Rejected);
    }

    method UpdateTransferSigning(requestId: string, tx: string) returns (r: Reply)
      modifies this
      ensures S() == Apply(old(S()), Sign(requestId, tx))
      ensures r.NotFound? <==> Lookup(old(S()), requestId).None?
    {
      var i := One(ByRequest(transfers, requestId));
      if i.None? { return NotFound; }
      SetStatus(i.value, Signing);
      if tx != "" {
        transfers := transfers[i.value := transfers[i.value].(providerTx := Some(tx))];
      }
      stranded := Apply(old(S()), Sign(requestId, tx)).stranded;
      r := Done(Signing);
    }

    method CompleteTransfer(requestId: string) returns (r: Reply)
      modifies this
      ensures S() == Apply(old(S()), Complete(requestId))
      ensures r == match Lookup(old(S()), requestId)
                   case None => NotFound
                   case Some(i) =>
                     var t := old(transfers)[i];
                     if t.status.IsFinal() then BadRequest
                     else if t.wallet.Some? && !Goes(old(wallets), DeductOf(t)) then ServerError
                     else Done(Completed)
    {
      var i := One(ByRequest(transfers, requestId));
      if i.None? { return NotFound; }
      var t := transfers[i.value];
      if t.status.IsFinal() { return BadRequest; }
      if t.wallet.Some? {
        var completed := CompleteTransferBalance(t.wallet.value, t.amount);
        if !completed { return ServerError; }
      }
      SetStatus(i.value, Completed);
      stranded := Apply(old(S()), Complete(requestId)).stranded;
      r := Done(Completed);
    }

    method CancelTransfer(requestId: string) returns (r: Reply)
      modifies this
      ensures S() == Apply(old(S()), Cancel(requestId))
      ensures r == match Lookup(old(S()), requestId)
                   case None => NotFound
                   case Some(i) => if old(transfers)[i].status.IsCancellable() then Done(Cancelled) else BadRequest
    {
      var i := One(ByRequest(transfers, requestId));
      if i.None? { return NotFound; }
      var t := transfers[i.value];
      if !t.status.IsCancellable() { return BadRequest; }
      if t.status == Pending && t.wallet.Some? {
        var _ := ReleaseReserve(t.wallet.value, t.amount);
      }
      SetStatus(i.value, Cancelled);
      stranded := Apply(old(S()), Cancel(requestId)).stranded;
      r := Done(Cancelled);
    }

    // ----- broker consumers -----

    method HandleTransferRejected(requestId: string)
      modifies this
      ensures S() == Apply(old(S()), RejectedMessage(requestId))
    {
      var i := One(ByRequest(transfers, requestId));
      if i.None? { return; }
      var t := transfers[i.value];
      if t.wallet.Some? {
        var _ := ReleaseReserve(t.wallet.value, t.amount);
      }
      SetStatus(i.value, Rejected);
      stranded := Apply(old(S()), RejectedMessage(requestId)).stranded;
    }

    method HandleTransferApproved(requestId: string, signed: bool, reply: ProviderReply)
      modifies this
      ensures S() == Apply(old(S()), ApprovedMessage(requestId, signed, reply))
    {
      if !signed { return; }
      var i := One(ByRequest(transfers, requestId));
      if i.None? { return; }
      var status := transfers[i.value].status;
      if status != Pending && status != PendingBalance && status != PendingApproval { return; }
      ghost var tx := ApprovedMessageTx(i.value, transfers[i.value], signed, reply);
      assert Decide(old(S()), ApprovedMessage(requestId, signed, reply)) == tx;
      SetStatus(i.value, Signing);
      RecordBroadcast(i.value, reply);
      TouchIsApplied(old(S()), ApprovedMessage(requestId, signed, reply));
      stranded := Commit(old(S()), tx).stranded;
    }

    method RecordBroadcast(i: nat, reply: ProviderReply)
      requires i < |transfers|
      modifies this`transfers
      ensures var t := old(transfers)[i];
              var next := if reply.Accepted? then t.(status := Broadcasting, providerTx := reply.id)
                          else t.(status := Failed);
              transfers == old(transfers)[i := next]
    {
      match reply {
        case Accepted(id, _) =>
          transfers := transfers[i := transfers[i].(providerTx := id)];
          SetStatus(i, Broadcasting);
        case Refused =>
          SetStatus(i, Failed);
      }
    }

    // ----- provider webhooks -----

    method HandleTransferFailed(i: nat)
      requires i < |transfers|
      modifies this`wallets, this`transfers
      ensures wallets == Pay(old(wallets), ReleaseOf(old(transfers)[i]))
      ensures transfers == old(transfers)[i := old(transfers)[i].(status := Failed)]
    {
      var t := transfers[i];
      if t.wallet.Some? {
        var _ := ReleaseReserve(t.wallet.value, t.amount);
      }
      SetStatus(i, Failed);
    }

    method HandleTransferCompleted(i: nat)
      requires i < |transfers|
      modifies this`wallets, this`transfers
      ensures wallets == Pay(old(wallets), DeductOf(old(transfers)[i]))
      ensures transfers == old(transfers)[i := old(transfers)[i].(status := Completed)]
    {
      var t := transfers[i];
      if t.wallet.Some? {
        var _ := CompleteTransferBalance(t.wallet.value, t.amount);
      }
      SetStatus(i, Completed);
    }

    /** Writes the provider's transaction id and what its status means for the transfer. */
    method RecordOutcome(i: nat, tx: string, outcome: Outcome)
      requires i < |transfers|
      modifies this`wallets, this`transfers
      ensures var step := WebhookTx(i, old(transfers)[i], tx, outcome);
              && transfers == old(transfers)[i := step.next]
              && wallets == Pay(old(wallets), step.money)
    {
      transfers := transfers[i := transfers[i].(providerTx := Some(tx))];
      match outcome {
        case OutFailed => HandleTransferFailed(i);
        case OutCompleted => HandleTransferCompleted(i);
        case OutBroadcasting => SetStatus(i, Broadcasting);
        case OutSigning => SetStatus(i, Signing);
        case OutOther =>
      }
    }

    method ProcessOutgoingTransfer(tx: string, externalId: Option<string>, txStatus: string) returns (found: bool)
      modifies this
      ensures S() == Apply(old(S()), Webhook(tx, externalId, txStatus))
      ensures found <==> FindTransfer(old(S()), tx, externalId).Some?
    {
      var rows := ByProviderTx(transfers, tx);
      var i: Option<nat> := None;
      if rows != [] {
        i := One(rows);
      } else if externalId.Some? && externalId.value != "" {
        i := One(ByRequest(transfers, externalId.value));
      }
      if i.None? { return false; }
      assert Decide(old(S()), Webhook(tx, externalId, txStatus))
          == WebhookTx(i.value, transfers[i.value], tx, OutcomeOf(txStatus));
      TouchIsApplied(old(S()), Webhook(tx, externalId, txStatus));
      RecordOutcome(i.value, tx, OutcomeOf(txStatus));
      stranded := Apply(old(S()), Webhook(tx, externalId, txStatus)).stranded;
      found := true;
    }

    // ----- balances written from outside -----

    method UpdateWalletBalance(w: nat, balance: int)
      modifies this`wallets
      ensures S() == Apply(old(S()), Overwrite(w, balance))
    {
      if w < |wallets| {
        wallets := wallets[w := wallets[w].(balance := balance)];
      }
    }

    /** The periodic sync writes every reported balance that differs. */
    method SyncTreasuryBalances(reports: seq<(nat, int)>) returns (updated: nat)
      modifies this`wallets
      ensures S() == Run(old(S()), Overwrites(reports))
      ensures updated == Differing(old(S()), reports)
      ensures updated == 0 ==> S() == old(S())
    {
      updated := 0;
      for k := 0 to |reports|
        invariant S() == Run(old(S()), Overwrites(reports[..k]))
        invariant updated == Differing(old(S()), reports[..k])
        invariant updated == 0 ==> S() == old(S())
      {
        var w, balance := reports[k].0, reports[k].1;
        ReportNext(old(S()), reports, k);
        if w < |wallets| && wallets[w].balance != balance {
          wallets := wallets[w := wallets[w].(balance := balance)];
          updated := updated + 1;
        } else {
          assert SetBalance(wallets, w, balance) == wallets;
        }
      }
      assert reports[..|reports|] == reports;
    }

    method ProcessInternalTransfer(dest: nat, amount: int, source: Option<nat>)
      modifies this`wallets
      ensures S() == Apply(old(S()), MoveInternally(dest, amount, source))
    {
      if dest >= |wallets| { return; }
      UpdateWalletBalance(dest, amount);
      if source.Some? && source.value < |wallets| {
        var balance := wallets[source.value].balance - amount;
        if balance < 0 { balance := 0; }
        wallets := wallets[source.value := wallets[source.value].(balance := balance)];
      }
    }

    // ----- the pending-balance queue -----

    method ProcessPendingBalanceTransfer(i: nat) returns (ok: bool, ghost sel: Selection)
      requires i < |transfers| && Waits(transfers[i])
      modifies this`wallets, this`transfers, this`stranded
      ensures Selects(old(S()), KeyOf(old(transfers)[i]), old(transfers)[i].amount, sel)
      ensures KeyOf(old(transfers)[i]) == AssetKey(old(transfers)[i].blockchain, old(transfers)[i].contract)
      ensures S() == Apply(old(S()), Examine(i, sel)) == Examined(old(S()), i, sel)
      ensures ok == sel.Chosen?
    {
      var t := transfers[i];
      var found := SelectAndReserveHotWallet(AssetKey(t.blockchain, t.contract), t.amount);
      sel := found;
      ok := found.Chosen?;
      if found.Chosen? {
        UpdateTransferWithWallet(i, found.wallet);
      } else {
        transfers := transfers[i := transfers[i].(retries := transfers[i].retries + 1)];
      }
      stranded := Apply(old(S()), Examine(i, sel)).stranded;
    }

    /** Examines a batch of waiting transfers in order. */
    method ProcessBatch(batch: seq<nat>) returns (processed: nat, failed: nat, ghost sels: seq<Selection>)
      requires FifoBatch(transfers, batch)
      modifies this`wallets, this`transfers, this`stranded
      ensures |sels| == |batch| && PassOk(old(S()), batch, sels)
      ensures S() == Pass(old(S()), batch, sels)
      ensures processed == CountChosen(sels) && failed == |batch| - processed
    {
      processed, failed, sels := 0, 0, [];
      for k := 0 to |batch|
        invariant |sels| == k && PassOk(old(S()), batch[..k], sels)
        invariant S() == Pass(old(S()), batch[..k], sels)
        invariant processed == CountChosen(sels) && failed == k - processed
      {
        PassReachesNext(old(S()), batch, sels);
        ghost var sel;
        var ok;
        ok, sel := ProcessPendingBalanceTransfer(batch[k]);
        PassSnoc(old(S()), batch, sels, sel);
        CountNext(sels, sel);
        sels := sels + [sel];
        if ok { processed := processed + 1; } else { failed := failed + 1; }
      }
      assert batch[..|batch|] == batch;
    }

    /** One queue pass over the oldest `limit` waiting transfers. */
    method ProcessQueue(limit: nat) returns (processed: nat, failed: nat, remaining: nat, ghost sels: seq<Selection>)
      modifies this
      ensures var batch := Limit(Waiting(old(transfers)), limit);
              && |sels| == |batch| && PassOk(old(S()), batch, sels)
              && S() == Pass(old(S()), batch, sels)
              && processed == CountChosen(sels) && failed == remaining == |batch| - processed
    {
      var batch := Limit(Waiting(transfers), limit);
      processed, failed, sels := ProcessBatch(batch);
      remaining := |batch| - processed;
    }

    /** The pass a deposit or an internal transfer triggers: the ten oldest waiting for its asset. */
    method ProcessPendingBalanceQueue(asset: nat) returns (processed: nat, ghost sels: seq<Selection>)
      modifies this
      ensures asset >= |old(assets)| ==> S() == old(S()) && processed == 0
      ensures asset < |old(assets)| ==>
                var batch := Limit(WaitingFor(old(transfers), old(assets)[asset]), 10);
                && |sels| == |batch| && PassOk(old(S()), batch, sels) && S() == Pass(old(S()), batch, sels)
                && processed == CountChosen(sels)
    {
      processed, sels := 0, [];
      if asset >= |assets| { return; }
      var batch := Limit(WaitingFor(transfers, assets[asset]), 10);
      var failed;
      processed, failed, sels := ProcessBatch(batch);
    }

    /** Examines a batch and hands back the rows as of the last commit; it commits after each success only. */
    method CommitEachSuccess(batch: seq<nat>)
      returns (processed: nat, keptWallets: seq<Wallet>, keptTransfers: seq<Transfer>,
               ghost kept: State, ghost sels: seq<Selection>)
      requires FifoBatch(transfers, batch)
      modifies this`wallets, this`transfers, this`stranded
      ensures |sels| == |batch| && PassOk(old(S()), batch, sels) && processed == CountChosen(sels)
      ensures S() == Pass(old(S()), batch, sels) && kept == KeptPass(old(S()), batch, sels)
      ensures keptWallets == kept.wallets && keptTransfers == kept.transfers
    {
      keptWallets, keptTransfers, processed := wallets, transfers, 0;
      kept, sels := S(), [];
      for k := 0 to |batch|
        invariant |sels| == k && PassOk(old(S()), batch[..k], sels) && processed == CountChosen(sels)
        invariant S() == Pass(old(S()), batch[..k], sels) && kept == KeptPass(old(S()), batch[..k], sels)
        invariant keptWallets == kept.wallets && keptTransfers == kept.transfers
      {
        PassReachesNext(old(S()), batch, sels);
        ghost var sel;
        var ok;
        ok, sel := ProcessPendingBalanceTransfer(batch[k]);
        PassSnoc(old(S()), batch, sels, sel);
        CountNext(sels, sel);
        KeptNext(old(S()), batch, sels, sel);
        sels := sels + [sel];
        kept := KeptPass(old(S()), batch[..k + 1], sels);
        if ok {
          keptWallets, keptTransfers, processed := wallets, transfers, processed + 1;
          assert kept == S();
        }
      }
      assert batch[..|batch|] == batch;
    }

    /** The pass that follows every balance sync: the twenty oldest waiting transfers. What it did after the last
        commit goes with the session. */
    method ProcessPendingQueueAfterSync() returns (processed: nat, ghost sels: seq<Selection>)
      modifies this
      ensures var batch := Limit(Waiting(old(transfers)), 20);
              && |sels| == |batch| && PassOk(old(S()), batch, sels) && processed == CountChosen(sels)
              && S() == KeptPass(old(S()), batch, sels)
    {
      var batch := Limit(Waiting(transfers), 20);
      ghost var kept;
      var keptWallets, keptTransfers;
      processed, keptWallets, keptTransfers, kept, sels := CommitEachSuccess(batch);
      KeptKeepsVaults(old(S()), batch, sels);
      wallets, transfers, stranded := keptWallets, keptTransfers, kept.stranded;
      assert S() == kept;
    }
  }
}
