/** The transitions of the service, one event per database transaction. `Decide` is the table of
    status guards: which transfer row an event rewrites and which guarded UPDATE it issues. */
module Steps {
  import opened Basics
  import opened Ledger

  /** A provider call either raises or returns a transaction id and, sometimes, a raw status. */
  datatype ProviderReply = Refused | Accepted(id: Option<string>, status: Option<string>)

  datatype Event =
    // POST /transfer/external/create, automatic source
    | CreateAuto(requestId: string, amount: int, key: AssetKey, sel: Selection)
    // POST /transfer/external/create with explicit source, and POST /transfer/internal/create
    | CreateFrom(requestId: string, amount: int, vault: nat, asset: nat, blockchain: Option<string>,
                 contract: Option<string>, destinationOk: bool, reply: ProviderReply)
    | Approve(requestId: string, sel: Selection)
    | Reject(requestId: string)
    | Sign(requestId: string, tx: string)
    | Complete(requestId: string)
    | Cancel(requestId: string)
    // broker messages transfer.rejected and transfer.approved
    | RejectedMessage(requestId: string)
    | ApprovedMessage(requestId: string, signed: bool, reply: ProviderReply)
    // provider webhook about an outgoing transaction
    | Webhook(tx: string, externalId: Option<string>, txStatus: string)
    // one transfer examined by a pending-balance queue pass
    | Examine(transfer: nat, sel: Selection)
    // balance sync and deposit webhooks; completed transfers between own vaults
    | Overwrite(wallet: nat, balance: int)
    | MoveInternally(dest: nat, amount: int, source: Option<nat>)
    // treasury administration
    | OpenWallet(vault: nat, asset: nat)
    | Administer(vaults: seq<Vault>, assets: seq<Asset>)

  datatype Tx =
    | Idle
    | Touch(row: nat, next: Transfer, money: Money)
    | Append(created: Transfer, money: Money)

  // ----- row lookups -----

  function Requested(requestId: string): Transfer -> bool { (t: Transfer) => t.requestId == requestId }

  function Submitted(tx: string): Transfer -> bool { (t: Transfer) => t.providerTx == Some(tx) }

  function ByRequest(ts: seq<Transfer>, requestId: string): seq<nat> {
    Rows(ts, Requested(requestId))
  }

  function ByProviderTx(ts: seq<Transfer>, tx: string): seq<nat> {
    Rows(ts, Submitted(tx))
  }

  function WalletsOf(ws: seq<Wallet>, vault: nat, asset: nat): seq<nat> {
    Rows(ws, (w: Wallet) => w.vault == vault && w.asset == asset)
  }

  /** The single row of a result, as `scalar_one_or_none` gives it; several rows raise. */
  function One(rows: seq<nat>): Option<nat> {
    if |rows| == 1 then Some(rows[0]) else None
  }

  function Lookup(s: State, requestId: string): (r: Option<nat>)
    ensures r.Some? ==> r.value < |s.transfers| && s.transfers[r.value].requestId == requestId
  {
    One(ByRequest(s.transfers, requestId))
  }

  /** By provider transaction id first, then by a non-empty external id. */
  function FindTransfer(s: State, tx: string, externalId: Option<string>): (r: Option<nat>)
    ensures r.Some? ==> r.value < |s.transfers|
  {
    var rows := ByProviderTx(s.transfers, tx);
    if rows != [] then One(rows)
    else if externalId.Some? && externalId.value != "" then Lookup(s, externalId.value)
    else None
  }

  lemma OneIff<T>(table: seq<T>, p: T -> bool, i: nat)
    ensures One(Rows(table, p)) == Some(i) <==> Sole(table, p, i)
  {
    SoleRow(table, p, i);
  }

  /** A webhook means the one transfer with its transaction; only if no transfer has it, the one transfer
      whose request id is its non-empty external id. Several candidates are as good as none. */
  lemma FindTransferExact(s: State, tx: string, externalId: Option<string>, i: nat)
    ensures FindTransfer(s, tx, externalId) == Some(i) <==>
            if exists k :: 0 <= k < |s.transfers| && s.transfers[k].providerTx == Some(tx)
            then Sole(s.transfers, Submitted(tx), i)
            else externalId.Some? && externalId.value != "" && Sole(s.transfers, Requested(externalId.value), i)
  {
    var rows := ByProviderTx(s.transfers, tx);
    OneIff(s.transfers, Submitted(tx), i);
    if externalId.Some? { OneIff(s.transfers, Requested(externalId.value), i); }
    if rows != [] {
      assert s.transfers[rows[0]].providerTx == Some(tx);
    } else {
      forall k | 0 <= k < |s.transfers| ensures s.transfers[k].providerTx != Some(tx) { assert k !in rows; }
    }
  }

  // ----- the decision table -----

  /** How the webhook handler reads the provider's transaction status. */
  datatype Outcome = OutFailed | OutCompleted | OutBroadcasting | OutSigning | OutOther

  function OutcomeOf(txStatus: string): Outcome {
    if txStatus in {"REJECTED", "BLOCKED", "FAILED", "CANCELLED", "TIMEOUT"} then OutFailed
    else if txStatus == "COMPLETED" then OutCompleted
    else if txStatus == "BROADCASTING" then OutBroadcasting
    else if txStatus in {"PENDING_SIGNATURE", "QUEUED", "PENDING_AUTHORIZATION"} then OutSigning
    else OutOther
  }

  function NewTransfer(requestId: string, amount: int, key: AssetKey, status: Status,
                       wallet: Option<nat>, tx: Option<string>): Transfer {
    Transfer(requestId, amount, key.blockchain, key.contract, status, wallet, tx, 0)
  }

  function KeyOf(t: Transfer): AssetKey { AssetKey(t.blockchain, t.contract) }

  /** An explicit-source request may omit the blockchain and the contract of its asset. */
  function KeyFrom(asset: Asset, blockchain: Option<string>, contract: Option<string>): AssetKey {
    AssetKey(if blockchain.Some? && blockchain.value != "" then blockchain.value else asset.blockchain,
             if contract.Some? then contract else asset.contract)
  }

  function ReleaseOf(t: Transfer): Money {
    if t.wallet.Some? then Release(t.wallet.value, t.amount) else NoMoney
  }

  function DeductOf(t: Transfer): Money {
    if t.wallet.Some? then Deduct(t.wallet.value, t.amount) else NoMoney
  }

  /** The status a provider reply leaves on a transfer created with it. */
  function BirthStatus(reply: ProviderReply): Status
    requires reply.Accepted?
  {
    if reply.status.Some? && reply.status.value != "" then StatusOf(reply.status.value) else Signing
  }

  function CreateAutoTx(s: State, requestId: string, amount: int, key: AssetKey, sel: Selection): Tx {
    if ByRequest(s.transfers, requestId) != [] then Idle
    else if sel.Chosen?
    then Append(NewTransfer(requestId, amount, key, PendingApproval, Some(sel.wallet), None),
                Reserve(sel.wallet, amount))
    else Append(NewTransfer(requestId, amount, key, PendingBalance, None, None), NoMoney)
  }

  function CreateFromTx(s: State, requestId: string, amount: int, vault: nat, asset: nat, blockchain: Option<string>,
                        contract: Option<string>, destinationOk: bool, reply: ProviderReply): Tx {
    var w := One(WalletsOf(s.wallets, vault, asset));
    if && vault < |s.vaults| && asset < |s.assets| && ByRequest(s.transfers, requestId) == []
       && w.Some? && Goes(s.wallets, Reserve(w.value, amount)) && destinationOk
       && reply.Accepted? && reply.id.Some?
    then Append(NewTransfer(requestId, amount, KeyFrom(s.assets[asset], blockchain, contract),
                            BirthStatus(reply), w, reply.id),
                Reserve(w.value, amount))
    else Idle
  }

  /** Binding a transfer to a selected wallet. */
  function BindTx(i: nat, t: Transfer, w: nat): Tx {
    Touch(i, t.(status := Pending, wallet := Some(w)), Reserve(w, t.amount))
  }

  function ApproveTx(i: nat, t: Transfer, sel: Selection): Tx {
    if t.status != PendingApproval || t.wallet.Some? then Idle
    else if sel.Chosen? then BindTx(i, t, sel.wallet)
    else Touch(i, t.(status := PendingBalance), NoMoney)
  }

  function RejectTx(i: nat, t: Transfer): Tx {
    if t.status.IsFinal() then Idle
    else Touch(i, t.(status := Rejected), if t.status == Pending then ReleaseOf(t) else NoMoney)
  }

  function SignTx(i: nat, t: Transfer, tx: string): Tx {
    Touch(i, t.(status := Signing, providerTx := if tx != "" then Some(tx) else t.providerTx), NoMoney)
  }

  function CompleteTx(wallets: seq<Wallet>, i: nat, t: Transfer): Tx {
    if t.status.IsFinal() || (t.wallet.Some? && !Goes(wallets, DeductOf(t))) then Idle
    else Touch(i, t.(status := Completed), DeductOf(t))
  }

  function CancelTx(i: nat, t: Transfer): Tx {
    if !t.status.IsCancellable() then Idle
    else Touch(i, t.(status := Cancelled), if t.status == Pending then ReleaseOf(t) else NoMoney)
  }

  function RejectedMessageTx(i: nat, t: Transfer): Tx {
    Touch(i, t.(status := Rejected), ReleaseOf(t))
  }

  function ApprovedMessageTx(i: nat, t: Transfer, signed: bool, reply: ProviderReply): Tx {
    if !signed || !t.status.IsCancellable() then Idle
    else if reply.Accepted? then Touch(i, t.(status := Broadcasting, providerTx := reply.id), NoMoney)
    else Touch(i, t.(status := Failed), NoMoney)
  }

  function WebhookTx(i: nat, t: Transfer, tx: string, outcome: Outcome): Tx {
    var t := t.(providerTx := Some(tx));
    match outcome
    case OutFailed => Touch(i, t.(status := Failed), ReleaseOf(t))
    case OutCompleted => Touch(i, t.(status := Completed), DeductOf(t))
    case OutBroadcasting => Touch(i, t.(status := Broadcasting), NoMoney)
    case OutSigning => Touch(i, t.(status := Signing), NoMoney)
    case OutOther => Touch(i, t, NoMoney)
  }

  function ExamineTx(i: nat, t: Transfer, sel: Selection): Tx {
    if t.status != PendingBalance then Idle
    else if sel.Chosen? then BindTx(i, t, sel.wallet)
    else Touch(i, t.(retries := t.retries + 1), NoMoney)
  }

  /** The existing transfer an event addresses. */
  function Target(s: State, e: Event): (r: Option<nat>)
    ensures r.Some? ==> r.value < |s.transfers|
  {
    match e
    case Approve(rid, _) => Lookup(s, rid)
    case Reject(rid) => Lookup(s, rid)
    case Sign(rid, _) => Lookup(s, rid)
    case Complete(rid) => Lookup(s, rid)
    case Cancel(rid) => Lookup(s, rid)
    case RejectedMessage(rid) => Lookup(s, rid)
    case ApprovedMessage(rid, _, _) => Lookup(s, rid)
    case Webhook(tx, externalId, _) => FindTransfer(s, tx, externalId)
    case Examine(i, _) => if i < |s.transfers| then Some(i) else None
    case _ => None
  }

  /** What an event does to the transfer it addresses. */
  function DecideFor(wallets: seq<Wallet>, i: nat, t: Transfer, e: Event): (tx: Tx)
    ensures tx.Touch? ==> tx.row == i
    ensures !tx.Append?
  {
    match e
    case Approve(_, sel) => ApproveTx(i, t, sel)
    case Reject(_) => RejectTx(i, t)
    case Sign(_, tx) => SignTx(i, t, tx)
    case Complete(_) => CompleteTx(wallets, i, t)
    case Cancel(_) => CancelTx(i, t)
    case RejectedMessage(_) => RejectedMessageTx(i, t)
    case ApprovedMessage(_, signed, reply) => ApprovedMessageTx(i, t, signed, reply)
    case Webhook(tx, _, txStatus) => WebhookTx(i, t, tx, OutcomeOf(txStatus))
    case Examine(_, sel) => ExamineTx(i, t, sel)
    case _ => Idle
  }

  function Decide(s: State, e: Event): (tx: Tx)
    ensures tx.Touch? ==> tx.row < |s.transfers| && Target(s, e) == Some(tx.row)
  {
    match e
    case CreateAuto(rid, amount, key, sel) => CreateAutoTx(s, rid, amount, key, sel)
    case CreateFrom(rid, amount, vault, asset, blockchain, contract, destinationOk, reply) =>
      CreateFromTx(s, rid, amount, vault, asset, blockchain, contract, destinationOk, reply)
    case _ =>
      var i := Target(s, e);
      if i.Some? then DecideFor(s.wallets, i.value, s.transfers[i.value], e) else Idle
  }

  /** Whether a reservation that was held before stays behind on a transfer that is now final. */
  predicate LeavesBehind(s: State, row: nat, next: Transfer, money: Money)
    requires row < |s.transfers|
  {
    && next.status.IsFinal() && next.wallet.Some? && Owing(s, row)
    && !Goes(s.wallets, money)
  }

  function Commit(s: State, tx: Tx): State {
    match tx
    case Idle => s
    case Touch(i, t, money) =>
      if i >= |s.transfers| then s else
      s.(transfers := s.transfers[i := t], wallets := Pay(s.wallets, money),
         stranded := if LeavesBehind(s, i, t, money) then s.stranded + {i} else s.stranded - {i})
    case Append(t, money) =>
      s.(transfers := s.transfers + [t], wallets := Pay(s.wallets, money),
         stranded := if t.status.IsFinal() && t.wallet.Some? then s.stranded + {|s.transfers|} else s.stranded)
  }

  function SetBalance(ws: seq<Wallet>, w: nat, balance: int): seq<Wallet> {
    if w < |ws| then ws[w := ws[w].(balance := balance)] else ws
  }

  /** A transfer between own vaults sets the destination balance to the amount and lowers the
      source balance, not below zero. */
  function MovedInternally(ws: seq<Wallet>, dest: nat, amount: int, source: Option<nat>): seq<Wallet> {
    if dest >= |ws| then ws else
    var ws := SetBalance(ws, dest, amount);
    if source.None? || source.value >= |ws| then ws else
    var left := ws[source.value].balance - amount;
    SetBalance(ws, source.value, if left < 0 then 0 else left)
  }

  function Apply(s: State, e: Event): State {
    match e
    case Overwrite(w, balance) => s.(wallets := SetBalance(s.wallets, w, balance))
    case MoveInternally(dest, amount, source) => s.(wallets := MovedInternally(s.wallets, dest, amount, source))
    case OpenWallet(vault, asset) => s.(wallets := s.wallets + [Wallet(vault, asset, 0, 0)])
    case Administer(vaults, assets) => s.(vaults := vaults, assets := assets)
    case _ => Commit(s, Decide(s, e))
  }

  /** A decision that rewrites or adds a row is what the event does. */
  lemma TouchIsApplied(s: State, e: Event)
    requires Decide(s, e).Touch? || Decide(s, e).Append?
    ensures Apply(s, e) == Commit(s, Decide(s, e))
  {}

  // ----- runs -----

  function Run(s: State, es: seq<Event>): State {
    if |es| == 0 then s else Apply(Run(s, es[..|es| - 1]), es[|es| - 1])
  }

  lemma RunSnoc(s: State, es: seq<Event>, e: Event)
    ensures Run(s, es + [e]) == Apply(Run(s, es), e)
  {}

  /** The state before event `k` of a run. */
  function Before(s: State, es: seq<Event>, k: nat): State
    requires k <= |es|
  {
    Run(s, es[..k])
  }

  lemma BeforeNext(s: State, es: seq<Event>, k: nat)
    requires k < |es|
    ensures Before(s, es, k + 1) == Apply(Before(s, es, k), es[k])
  {
    assert es[..k + 1][..k] == es[..k];
  }

  /** Every event of the run is one the environment may issue in the state it meets. */
  ghost predicate Along(s: State, es: seq<Event>, ok: (State, Event) -> bool) {
    forall k :: 0 <= k < |es| ==> ok(Before(s, es, k), es[k])
  }

  /** The requested amount is positive, and the selection query, where the step runs it, answered
      truthfully. */
  ghost predicate Admissible(s: State, e: Event) {
    match e
    case CreateAuto(rid, amount, key, sel) =>
      amount > 0 && (ByRequest(s.transfers, rid) == [] ==> Selects(s, key, amount, sel))
    case CreateFrom(_, amount, _, _, _, _, _, _) => amount > 0
    case Approve(_, sel) => Target(s, e).Some? ==> AnswersFor(s, s.transfers[Target(s, e).value], PendingApproval, sel)
    case Examine(_, sel) =>
      Target(s, e).Some? ==>
        var t := s.transfers[Target(s, e).value]; t.status == PendingBalance ==> Selects(s, KeyOf(t), t.amount, sel)
    case _ => true
  }

  /** If the transfer is in the status that makes the step select a wallet, `sel` is the answer. */
  ghost predicate AnswersFor(s: State, t: Transfer, status: Status, sel: Selection) {
    t.status == status && t.wallet.None? ==> Selects(s, KeyOf(t), t.amount, sel)
  }
}
