/** Every event in plain terms: the row, the wallet and the words it leaves behind, field by field. The
    transition table is not mentioned except through `Apply`, whose answers are stated here. */
module Outcomes {
  import opened Basics
  import opened Ledger
  import opened Steps

  // ----- the words of a statement -----

  /** Row `i` is the only transfer with this request id. */
  ghost predicate Asked(s: State, requestId: string, i: nat) {
    && i < |s.transfers| && s.transfers[i].requestId == requestId
    && forall j :: 0 <= j < |s.transfers| && j != i ==> s.transfers[j].requestId != requestId
  }

  /** No transfer has this request id. */
  ghost predicate Fresh(s: State, requestId: string) {
    forall j :: 0 <= j < |s.transfers| ==> s.transfers[j].requestId != requestId
  }

  /** Row `w` is the only wallet of this vault and asset. */
  ghost predicate OnlyWallet(wallets: seq<Wallet>, vault: nat, asset: nat, w: nat) {
    && w < |wallets| && wallets[w].vault == vault && wallets[w].asset == asset
    && forall v :: 0 <= v < |wallets| && v != w ==> wallets[v].vault != vault || wallets[v].asset != asset
  }

  /** No wallet is of this vault and asset. */
  ghost predicate NoWalletOf(wallets: seq<Wallet>, vault: nat, asset: nat) {
    forall v :: 0 <= v < |wallets| ==> wallets[v].vault != vault || wallets[v].asset != asset
  }

  /** Wallet `w` now has this balance and pending amount; everything else is as it was. */
  ghost predicate Holds(before: seq<Wallet>, after: seq<Wallet>, w: nat, balance: int, pending: int) {
    w < |before| && after == before[w := Wallet(before[w].vault, before[w].asset, balance, pending)]
  }

  /** Wallet `w` serves the asset and covers the amount, which is now pending on it. */
  ghost predicate ReservedOn(s: State, after: seq<Wallet>, key: AssetKey, amount: int, w: nat) {
    && Matches(s, w, key) && amount <= s.wallets[w].balance - s.wallets[w].pending
    && Holds(s.wallets, after, w, s.wallets[w].balance, s.wallets[w].pending + amount)
  }

  /** The transfer's wallet loses the reservation and keeps its balance, if its pending amount covers it. */
  ghost predicate GivesBack(t: Transfer, before: seq<Wallet>, after: seq<Wallet>) {
    match t.wallet
    case None => after == before
    case Some(w) =>
      if w < |before| && t.amount <= before[w].pending
      then Holds(before, after, w, before[w].balance, before[w].pending - t.amount) else after == before
  }

  /** The transfer's wallet loses the amount from both counters, if both cover it. */
  ghost predicate PaysOut(t: Transfer, before: seq<Wallet>, after: seq<Wallet>) {
    match t.wallet
    case None => after == before
    case Some(w) =>
      if w < |before| && t.amount <= before[w].pending && t.amount <= before[w].balance
      then Holds(before, after, w, before[w].balance - t.amount, before[w].pending - t.amount) else after == before
  }

  lemma AskedIsLookup(s: State, requestId: string, i: nat)
    ensures Lookup(s, requestId) == Some(i) <==> Asked(s, requestId, i)
  {
    OneIff(s.transfers, Requested(requestId), i);
  }

  lemma FreshIff(s: State, requestId: string)
    ensures ByRequest(s.transfers, requestId) == [] <==> Fresh(s, requestId)
  {
    var rows := ByRequest(s.transfers, requestId);
    if rows == [] {
      forall j | 0 <= j < |s.transfers| ensures s.transfers[j].requestId != requestId { assert j !in rows; }
    } else {
      assert s.transfers[rows[0]].requestId == requestId;
    }
  }

  lemma OnlyWalletIff(wallets: seq<Wallet>, vault: nat, asset: nat, w: nat)
    ensures One(WalletsOf(wallets, vault, asset)) == Some(w) <==> OnlyWallet(wallets, vault, asset, w)
  {
    OneIff(wallets, (x: Wallet) => x.vault == vault && x.asset == asset, w);
  }

  lemma WalletsOfSpelled(wallets: seq<Wallet>, vault: nat, asset: nat)
    ensures var rows := WalletsOf(wallets, vault, asset);
            && (rows == [] <==> NoWalletOf(wallets, vault, asset))
            && (|rows| == 1 ==> OnlyWallet(wallets, vault, asset, rows[0]))
            && (|rows| == 1 <==> exists w: nat :: OnlyWallet(wallets, vault, asset, w))
  {
    var rows := WalletsOf(wallets, vault, asset);
    if rows == [] {
      forall v | 0 <= v < |wallets| ensures wallets[v].vault != vault || wallets[v].asset != asset {
        assert v !in rows;
      }
    } else {
      assert wallets[rows[0]].vault == vault && wallets[rows[0]].asset == asset;
      OnlyWalletIff(wallets, vault, asset, rows[0]);
    }
    if w :| OnlyWallet(wallets, vault, asset, w) { OnlyWalletIff(wallets, vault, asset, w); }
  }

  // ----- the guarded statements and the status words -----

  /** A reservation needs the balance less the pending amount, a release the pending amount, a deduction both
      counters; the first raises pending, the second lowers it, the third lowers both. */
  lemma StatementsSpelled(ws: seq<Wallet>, w: nat, amount: int)
    requires w < |ws|
    ensures ws[w].balance - ws[w].pending >= amount ==>
              Holds(ws, Pay(ws, Reserve(w, amount)), w, ws[w].balance, ws[w].pending + amount)
    ensures ws[w].balance - ws[w].pending < amount ==> Pay(ws, Reserve(w, amount)) == ws
    ensures ws[w].pending >= amount ==>
              Holds(ws, Pay(ws, Release(w, amount)), w, ws[w].balance, ws[w].pending - amount)
    ensures ws[w].pending < amount ==> Pay(ws, Release(w, amount)) == ws
    ensures ws[w].pending >= amount && ws[w].balance >= amount ==>
              Holds(ws, Pay(ws, Deduct(w, amount)), w, ws[w].balance - amount, ws[w].pending - amount)
    ensures ws[w].pending < amount || ws[w].balance < amount ==> Pay(ws, Deduct(w, amount)) == ws
  {}

  /** A status column reads back as a status of the service exactly when it spells it, in lower case. */
  lemma StatusWords(raw: string)
    ensures StatusOf("pending_approval") == PendingApproval && StatusOf("pending_balance") == PendingBalance
    ensures StatusOf("pending") == Pending && StatusOf("signing") == Signing
    ensures StatusOf("broadcasting") == Broadcasting && StatusOf("completed") == Completed
    ensures StatusOf("rejected") == Rejected && StatusOf("failed") == Failed && StatusOf("cancelled") == Cancelled
    ensures || raw in {"pending_approval", "pending_balance", "pending", "signing", "broadcasting", "completed",
                       "rejected", "failed", "cancelled"}
            || StatusOf(raw) == Foreign(raw)
  {}

  lemma FinalStatuses(status: Status)
    ensures status.IsFinal() <==> status in {Completed, Rejected, Failed, Cancelled}
    ensures status.IsCancellable() <==> status in {PendingApproval, PendingBalance, Pending}
  {}

  // ----- the selection of a wallet -----

  /** A wallet serves an asset when its vault is an active HOT vault and the blockchain, ignoring case, and the
      contract are those of the asset. */
  lemma MatchesSpelled(s: State, w: nat, key: AssetKey)
    requires w < |s.wallets| && s.wallets[w].vault < |s.vaults| && s.wallets[w].asset < |s.assets|
    ensures var vault, asset := s.vaults[s.wallets[w].vault], s.assets[s.wallets[w].asset];
            Matches(s, w, key) <==> && vault == Vault(Hot, true, vault.primary) && asset.contract == key.contract
                                    && Upper(asset.blockchain) == Upper(key.blockchain)
  {}

  /** The chosen wallet covers the amount; no primary vault's wallet is passed over for another's, and among
      equals none with more available. Otherwise the most that one matching wallet has falls short. */
  lemma SelectionSpelled(s: State, key: AssetKey, amount: int, sel: Selection)
    requires Selects(s, key, amount, sel)
    ensures forall w: nat :: sel == Chosen(w) ==>
              && Matches(s, w, key) && amount <= s.wallets[w].balance - s.wallets[w].pending
              && forall v: nat :: Matches(s, v, key) && amount <= s.wallets[v].balance - s.wallets[v].pending ==>
                   var rival, best := s.wallets[v], s.wallets[w];
                   && (s.vaults[rival.vault].primary ==> s.vaults[best.vault].primary)
                   && (s.vaults[rival.vault].primary == s.vaults[best.vault].primary ==>
                         rival.balance - rival.pending <= best.balance - best.pending)
    ensures !sel.Chosen? ==>
              forall v: nat :: Matches(s, v, key) ==> s.wallets[v].balance - s.wallets[v].pending < amount
    ensures forall most :: sel == Insufficient(most) ==>
              && (exists v: nat :: Matches(s, v, key) && s.wallets[v].balance - s.wallets[v].pending == most)
              && (forall v: nat :: Matches(s, v, key) ==> s.wallets[v].balance - s.wallets[v].pending <= most)
    ensures sel.NoWallet? <==> forall v: nat :: !Matches(s, v, key)
  {
    SelectionExact(s, key, amount, sel);
    if sel.Insufficient? {
      var v: nat :| Matches(s, v, key) && s.wallets[v].Available() == sel.available;
      assert s.wallets[v].balance - s.wallets[v].pending == sel.available;
    }
  }

  lemma SelectionServes(s: State, key: AssetKey, amount: int, sel: Selection)
    requires Selects(s, key, amount, sel)
    ensures sel.Chosen? <==>
            exists w: nat :: Matches(s, w, key) && amount <= s.wallets[w].balance - s.wallets[w].pending
    ensures sel.Chosen? ==> && Matches(s, sel.wallet, key)
                            && amount <= s.wallets[sel.wallet].balance - s.wallets[sel.wallet].pending
  {
    SelectionExact(s, key, amount, sel);
    if w: nat :| Matches(s, w, key) && amount <= s.wallets[w].balance - s.wallets[w].pending {
      assert Sufficient(s, w, key, amount);
    }
  }

  // ----- the provider's webhook -----

  /** The provider reports a payout that did not happen: the transfer has failed, and a bound one gives its
      reservation back if the pending amount covers it. */
  lemma WebhookFailure(s: State, tx: string, externalId: Option<string>, word: string, i: nat)
    requires FindTransfer(s, tx, externalId) == Some(i)
    requires word in {"REJECTED", "BLOCKED", "FAILED", "CANCELLED", "TIMEOUT"}
    ensures var t, s' := s.transfers[i], Apply(s, Webhook(tx, externalId, word));
            && s'.transfers == s.transfers[i := t.(status := Failed, providerTx := Some(tx))]
            && (t.wallet.None? ==> s'.wallets == s.wallets)
            && forall w :: t.wallet == Some(w) ==>
                 if w < |s.wallets| && t.amount <= s.wallets[w].pending
                 then s'.wallets == s.wallets[w := s.wallets[w].(pending := s.wallets[w].pending - t.amount)]
                 else s'.wallets == s.wallets
  {}

  /** The provider reports the payout: the transfer is completed, and a bound one takes the amount from both
      counters if both cover it. */
  lemma WebhookCompletion(s: State, tx: string, externalId: Option<string>, i: nat)
    requires FindTransfer(s, tx, externalId) == Some(i)
    ensures var t, s' := s.transfers[i], Apply(s, Webhook(tx, externalId, "COMPLETED"));
            && s'.transfers == s.transfers[i := t.(status := Completed, providerTx := Some(tx))]
            && (t.wallet.None? ==> s'.wallets == s.wallets)
            && forall w :: t.wallet == Some(w) ==>
                 if w < |s.wallets| && t.amount <= s.wallets[w].pending && t.amount <= s.wallets[w].balance
                 then s'.wallets == s.wallets[w := s.wallets[w].(balance := s.wallets[w].balance - t.amount,
                                                                 pending := s.wallets[w].pending - t.amount)]
                 else s'.wallets == s.wallets
  {}

  /** Every other word moves no money; it says that the payout is on its way, that it is being signed, or
      nothing the service knows. */
  lemma WebhookProgress(s: State, tx: string, externalId: Option<string>, word: string, i: nat)
    requires FindTransfer(s, tx, externalId) == Some(i)
    requires word !in {"REJECTED", "BLOCKED", "FAILED", "CANCELLED", "TIMEOUT", "COMPLETED"}
    ensures var t, s' := s.transfers[i], Apply(s, Webhook(tx, externalId, word));
            && s'.wallets == s.wallets
            && s'.transfers == s.transfers[i := s'.transfers[i]]
            && s'.transfers[i] == t.(status := s'.transfers[i].status, providerTx := Some(tx))
            && (word == "BROADCASTING" ==> s'.transfers[i].status == Broadcasting)
            && (word in {"PENDING_SIGNATURE", "QUEUED", "PENDING_AUTHORIZATION"} ==> s'.transfers[i].status == Signing)
            && (word !in {"BROADCASTING", "PENDING_SIGNATURE", "QUEUED", "PENDING_AUTHORIZATION"} ==>
                  s'.transfers[i].status == t.status)
  {}

  /** Nothing happens for a transaction that names no single transfer. */
  lemma WebhookUnknown(s: State, tx: string, externalId: Option<string>, word: string)
    requires FindTransfer(s, tx, externalId).None?
    ensures Apply(s, Webhook(tx, externalId, word)) == s
  {}

  // ----- requests about one transfer -----

  /** An event that names a transfer by its request id does nothing unless exactly one has it. */
  lemma UnknownRequest(s: State, requestId: string, sel: Selection, tx: string, signed: bool, reply: ProviderReply)
    requires !exists i :: Asked(s, requestId, i)
    ensures Apply(s, Approve(requestId, sel)) == s && Apply(s, Reject(requestId)) == s
    ensures Apply(s, Sign(requestId, tx)) == s && Apply(s, Complete(requestId)) == s
    ensures Apply(s, Cancel(requestId)) == s && Apply(s, RejectedMessage(requestId)) == s
    ensures Apply(s, ApprovedMessage(requestId, signed, reply)) == s
  {
    var row := Lookup(s, requestId);
    if row.Some? { AskedIsLookup(s, requestId, row.value); }
  }

  /** Approval of a transfer that awaits it and has no wallet binds the selected wallet, or sends it to the
      queue; any other transfer stays as it is. */
  lemma ApproveSpelled(s: State, requestId: string, sel: Selection, i: nat)
    requires Asked(s, requestId, i)
    ensures var t, s' := s.transfers[i], Apply(s, Approve(requestId, sel));
            if t.status != PendingApproval || t.wallet.Some? then s' == s else
            match sel
            case Chosen(w) =>
              && s'.transfers == s.transfers[i := t.(status := Pending, wallet := Some(w))]
              && (w < |s.wallets| && t.amount <= s.wallets[w].balance - s.wallets[w].pending ==>
                    Holds(s.wallets, s'.wallets, w, s.wallets[w].balance, s.wallets[w].pending + t.amount))
            case Insufficient(_) =>
              s'.transfers == s.transfers[i := t.(status := PendingBalance)] && s'.wallets == s.wallets
            case NoWallet =>
              s'.transfers == s.transfers[i := t.(status := PendingBalance)] && s'.wallets == s.wallets
  {
    AskedIsLookup(s, requestId, i);
  }

  /** Rejection ends every transfer that is not final, but only `pending` gives its reservation back. */
  lemma RejectSpelled(s: State, requestId: string, i: nat)
    requires Asked(s, requestId, i)
    ensures var t, s' := s.transfers[i], Apply(s, Reject(requestId));
            if t.status in {Completed, Rejected, Failed, Cancelled} then s' == s else
            && s'.transfers == s.transfers[i := t.(status := Rejected)]
            && if t.status == Pending then GivesBack(t, s.wallets, s'.wallets) else s'.wallets == s.wallets
  {
    AskedIsLookup(s, requestId, i);
  }

  /** Signing is recorded whatever the status, and the transaction id unless it is empty. */
  lemma SignSpelled(s: State, requestId: string, tx: string, i: nat)
    requires Asked(s, requestId, i)
    ensures var t, s' := s.transfers[i], Apply(s, Sign(requestId, tx));
            && s'.transfers == s.transfers[i := s'.transfers[i]] && s'.wallets == s.wallets
            && s'.transfers[i] == t.(status := Signing, providerTx := s'.transfers[i].providerTx)
            && (tx != "" ==> s'.transfers[i].providerTx == Some(tx))
            && (tx == "" ==> s'.transfers[i].providerTx == t.providerTx)
  {
    AskedIsLookup(s, requestId, i);
  }

  /** Completion pays out; if the transfer is final or its wallet cannot cover the amount, nothing happens. */
  lemma CompleteSpelled(s: State, requestId: string, i: nat)
    requires Asked(s, requestId, i)
    ensures var t, s' := s.transfers[i], Apply(s, Complete(requestId));
            var covered := match t.wallet
                           case None => true
                           case Some(w) => w < |s.wallets| && t.amount <= s.wallets[w].pending
                                           && t.amount <= s.wallets[w].balance;
            if t.status in {Completed, Rejected, Failed, Cancelled} || !covered then s' == s else
            s'.transfers == s.transfers[i := t.(status := Completed)] && PaysOut(t, s.wallets, s'.wallets)
  {
    AskedIsLookup(s, requestId, i);
  }

  /** Cancellation is for the three early statuses, and only `pending` gives its reservation back. */
  lemma CancelSpelled(s: State, requestId: string, i: nat)
    requires Asked(s, requestId, i)
    ensures var t, s' := s.transfers[i], Apply(s, Cancel(requestId));
            if t.status !in {PendingApproval, PendingBalance, Pending} then s' == s else
            && s'.transfers == s.transfers[i := t.(status := Cancelled)]
            && if t.status == Pending then GivesBack(t, s.wallets, s'.wallets) else s'.wallets == s.wallets
  {
    AskedIsLookup(s, requestId, i);
  }

  /** A rejection from the broker ends the transfer whatever its status, and gives back what it can. */
  lemma RejectedMessageSpelled(s: State, requestId: string, i: nat)
    requires Asked(s, requestId, i)
    ensures var t, s' := s.transfers[i], Apply(s, RejectedMessage(requestId));
            && s'.transfers == s.transfers[i := t.(status := Rejected)]
            && GivesBack(t, s.wallets, s'.wallets)
  {
    AskedIsLookup(s, requestId, i);
  }

  /** A signed approval from the broker broadcasts a transfer in an early status: the provider's answer
      decides between `broadcasting`, with its transaction id, and `failed`. No money moves. */
  lemma ApprovedMessageSpelled(s: State, requestId: string, signed: bool, reply: ProviderReply, i: nat)
    requires Asked(s, requestId, i)
    ensures var t, s' := s.transfers[i], Apply(s, ApprovedMessage(requestId, signed, reply));
            if !signed || t.status !in {PendingApproval, PendingBalance, Pending} then s' == s else
            && s'.wallets == s.wallets
            && match reply
               case Accepted(id, _) => s'.transfers == s.transfers[i := t.(status := Broadcasting, providerTx := id)]
               case Refused => s'.transfers == s.transfers[i := t.(status := Failed)]
  {
    AskedIsLookup(s, requestId, i);
  }

  /** A queue pass binds a waiting transfer to the selected wallet or counts one more retry. */
  lemma ExamineSpelled(s: State, i: nat, sel: Selection)
    requires i < |s.transfers|
    ensures var t, s' := s.transfers[i], Apply(s, Examine(i, sel));
            if t.status != PendingBalance then s' == s else
            match sel
            case Chosen(w) =>
              && s'.transfers == s.transfers[i := t.(status := Pending, wallet := Some(w))]
              && (w < |s.wallets| && t.amount <= s.wallets[w].balance - s.wallets[w].pending ==>
                    Holds(s.wallets, s'.wallets, w, s.wallets[w].balance, s.wallets[w].pending + t.amount))
            case Insufficient(_) =>
              s'.transfers == s.transfers[i := t.(retries := t.retries + 1)] && s'.wallets == s.wallets
            case NoWallet =>
              s'.transfers == s.transfers[i := t.(retries := t.retries + 1)] && s'.wallets == s.wallets
  {}

  // ----- creations -----

  /** A request id in use creates nothing; otherwise the new row awaits approval with the chosen wallet, or
      waits for balance without one. */
  lemma CreateAutoSpelled(s: State, requestId: string, amount: int, key: AssetKey, sel: Selection)
    ensures var s' := Apply(s, CreateAuto(requestId, amount, key, sel));
            if !Fresh(s, requestId) then s' == s else
            match sel
            case Chosen(w) =>
              && s'.transfers == s.transfers + [Transfer(requestId, amount, key.blockchain, key.contract,
                                                         PendingApproval, Some(w), None, 0)]
              && (w < |s.wallets| && amount <= s.wallets[w].balance - s.wallets[w].pending ==>
                    Holds(s.wallets, s'.wallets, w, s.wallets[w].balance, s.wallets[w].pending + amount))
            case _ =>
              && s'.transfers == s.transfers + [Transfer(requestId, amount, key.blockchain, key.contract,
                                                         PendingBalance, None, None, 0)]
              && s'.wallets == s.wallets
  {
    FreshIff(s, requestId);
  }

  lemma CreateAutoRefused(s: State, requestId: string, amount: int, key: AssetKey, sel: Selection)
    requires !Fresh(s, requestId)
    ensures Apply(s, CreateAuto(requestId, amount, key, sel)) == s
  {
    FreshIff(s, requestId);
  }

  lemma CreateAutoDecided(s: State, requestId: string, amount: int, key: AssetKey, sel: Selection)
    requires Fresh(s, requestId)
    ensures Apply(s, CreateAuto(requestId, amount, key, sel))
            == State(s.vaults, s.assets, if sel.Chosen? then Pay(s.wallets, Reserve(sel.wallet, amount)) else s.wallets,
                     s.transfers + [Transfer(requestId, amount, key.blockchain, key.contract,
                                             if sel.Chosen? then PendingApproval else PendingBalance,
                                             if sel.Chosen? then Some(sel.wallet) else None, None, 0)],
                     s.stranded)
  {
    FreshIff(s, requestId);
  }

  /** With a truthful answer: the reservation is made on a wallet that serves the transfer, or none can. */
  lemma ExamineServes(s: State, i: nat, sel: Selection)
    requires i < |s.transfers| && s.transfers[i].status == PendingBalance
    requires var t := s.transfers[i]; Selects(s, AssetKey(t.blockchain, t.contract), t.amount, sel)
    ensures var t, s' := s.transfers[i], Apply(s, Examine(i, sel));
            var key := AssetKey(t.blockchain, t.contract);
            if sel.Chosen?
            then && ReservedOn(s, s'.wallets, key, t.amount, sel.wallet)
                 && s'.transfers == s.transfers[i := t.(status := Pending, wallet := Some(sel.wallet))]
            else && s'.wallets == s.wallets && s'.transfers == s.transfers[i := t.(retries := t.retries + 1)]
                 && forall w: nat :: Matches(s, w, key) ==> s.wallets[w].balance - s.wallets[w].pending < t.amount
  {
    var t := s.transfers[i];
    SelectionServes(s, AssetKey(t.blockchain, t.contract), t.amount, sel);
  }

  /** The blockchain, the contract and the status of a transfer created with an explicit source. */
  ghost predicate BornAs(t: Transfer, asset: Asset, blockchain: Option<string>, contract: Option<string>,
                         status: Option<string>) {
    && (blockchain in {None, Some("")} ==> t.blockchain == asset.blockchain)
    && (blockchain !in {None, Some("")} ==> blockchain == Some(t.blockchain))
    && (contract.None? ==> t.contract == asset.contract)
    && (contract.Some? ==> t.contract == contract)
    && (status in {None, Some("")} ==> t.status == Signing)
    && (forall raw :: status == Some(raw) && raw != "" ==> t.status == StatusOf(raw))
  }

  /** The transfer was added with wallet `w` as its source, the provider's transaction id and no retries, and
      that wallet's pending amount rose by its amount; nothing else changed. */
  ghost predicate SentFrom(s: State, s': State, requestId: string, amount: int, vault: nat, asset: nat,
                           blockchain: Option<string>, contract: Option<string>, reply: ProviderReply, w: nat) {
    && OnlyWallet(s.wallets, vault, asset, w) && asset < |s.assets| && reply.Accepted?
    && s'.vaults == s.vaults && s'.assets == s.assets
    && Holds(s.wallets, s'.wallets, w, s.wallets[w].balance, s.wallets[w].pending + amount)
    && |s'.transfers| == |s.transfers| + 1 && s'.transfers[..|s.transfers|] == s.transfers
    && var t := s'.transfers[|s.transfers|];
       && t.requestId == requestId && t.amount == amount && t.retries == 0
       && t.wallet == Some(w) && t.providerTx == reply.id
       && BornAs(t, s.assets[asset], blockchain, contract, reply.status)
  }

  /** When an explicit-source request gets its row, and the row. */
  lemma CreateFromSpelled(s: State, requestId: string, amount: int, vault: nat, asset: nat,
                          blockchain: Option<string>, contract: Option<string>, destinationOk: bool,
                          reply: ProviderReply, w: nat)
    requires OnlyWallet(s.wallets, vault, asset, w)
    ensures var s' := Apply(s, CreateFrom(requestId, amount, vault, asset, blockchain, contract, destinationOk, reply));
            var created := && vault < |s.vaults| && asset < |s.assets| && Fresh(s, requestId)
                           && amount <= s.wallets[w].balance - s.wallets[w].pending
                           && destinationOk && reply.Accepted? && reply.id.Some?;
            && (!created ==> s' == s)
            && (created ==> SentFrom(s, s', requestId, amount, vault, asset, blockchain, contract, reply, w))
  {
    OnlyWalletIff(s.wallets, vault, asset, w);
    FreshIff(s, requestId);
  }

  lemma CreateFromDecided(s: State, e: Event, w: nat, key: AssetKey)
    requires e.CreateFrom? && e.vault < |s.vaults| && e.asset < |s.assets| && Fresh(s, e.requestId)
    requires OnlyWallet(s.wallets, e.vault, e.asset, w) && key == KeyFrom(s.assets[e.asset], e.blockchain, e.contract)
    ensures Apply(s, e) == if && Goes(s.wallets, Reserve(w, e.amount)) && e.destinationOk
                              && e.reply.Accepted? && e.reply.id.Some?
                           then Commit(s, Append(NewTransfer(e.requestId, e.amount, key, BirthStatus(e.reply), Some(w),
                                                             e.reply.id), Reserve(w, e.amount)))
                           else s
  {
    OnlyWalletIff(s.wallets, e.vault, e.asset, w);
    FreshIff(s, e.requestId);
  }

  /** A request whose source will not do creates nothing. */
  lemma CreateFromRefused(s: State, e: Event)
    requires e.CreateFrom?
    requires || e.vault >= |s.vaults| || e.asset >= |s.assets| || !Fresh(s, e.requestId)
             || !exists w: nat :: OnlyWallet(s.wallets, e.vault, e.asset, w)
                             && e.amount <= s.wallets[w].balance - s.wallets[w].pending
    ensures Apply(s, e) == s
  {
    FreshIff(s, e.requestId);
    var w := One(WalletsOf(s.wallets, e.vault, e.asset));
    if w.Some? { OnlyWalletIff(s.wallets, e.vault, e.asset, w.value); }
  }

  // ----- balances written from outside -----

  /** A balance report sets the balance; a move between own vaults sets the destination to the amount and
      lowers the source, not below zero. Pending amounts and transfers stay. */
  lemma BalancesSpelled(s: State, w: nat, amount: int, source: Option<nat>)
    requires w < |s.wallets|
    ensures var s' := Apply(s, Overwrite(w, amount));
            s'.transfers == s.transfers && Holds(s.wallets, s'.wallets, w, amount, s.wallets[w].pending)
    ensures var s' := Apply(s, MoveInternally(w, amount, source));
            && s'.transfers == s.transfers && |s'.wallets| == |s.wallets|
            && (forall v :: 0 <= v < |s.wallets| ==>
                  s'.wallets[v] == s.wallets[v].(balance := s'.wallets[v].balance))
            && (forall v :: 0 <= v < |s.wallets| && v != w && Some(v) != source ==>
                  s'.wallets[v].balance == s.wallets[v].balance)
            && (source != Some(w) ==> s'.wallets[w].balance == amount)
            && (source == Some(w) ==> s'.wallets[w].balance == 0)
            && forall v :: source == Some(v) && v != w && v < |s.wallets| ==>
                 s'.wallets[v].balance
                 == if s.wallets[v].balance > amount then s.wallets[v].balance - amount else 0
  {}

  /** Reports and moves for a wallet that does not exist do nothing. */
  lemma NoSuchWallet(s: State, w: nat, amount: int, source: Option<nat>)
    requires w >= |s.wallets|
    ensures Apply(s, Overwrite(w, amount)) == s && Apply(s, MoveInternally(w, amount, source)) == s
  {}

  /** A wallet is opened empty; administration replaces the vaults and assets and touches no money. */
  lemma AdministrationSpelled(s: State, vault: nat, asset: nat, vaults: seq<Vault>, assets: seq<Asset>)
    ensures Apply(s, OpenWallet(vault, asset)) == s.(wallets := s.wallets + [Wallet(vault, asset, 0, 0)])
    ensures Apply(s, Administer(vaults, assets))
            == State(vaults, assets, s.wallets, s.transfers, s.stranded)
  {}

  /** Every other event leaves the vaults and the assets alone. */
  lemma VaultsStay(s: State, e: Event)
    requires !e.Administer?
    ensures Apply(s, e).vaults == s.vaults && Apply(s, e).assets == s.assets
  {}
}
