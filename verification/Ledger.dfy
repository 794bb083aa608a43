/** The reservation ledger: wallets with a balance and a pending amount, transfers that hold
    reservations on them, and the three guarded UPDATE statements that move money. */
module Ledger {
  import opened Basics

  datatype VaultKind = Hot | Warm | Cold | Regular | Operational

  datatype Vault = Vault(kind: VaultKind, active: bool, primary: bool)

  datatype Asset = Asset(blockchain: string, contract: Option<string>)

  /** Amounts count units of 10^-18. `vault` and `asset` are row numbers. */
  datatype Wallet = Wallet(vault: nat, asset: nat, balance: int, pending: int) {
    function Available(): int { balance - pending }
  }

  datatype Status =
    | PendingApproval | PendingBalance | Pending | Signing | Broadcasting
    | Completed | Rejected | Failed | Cancelled
    | Foreign(raw: string)
  {
    predicate IsFinal() { Completed? || Rejected? || Failed? || Cancelled? }
    predicate IsCancellable() { PendingApproval? || PendingBalance? || Pending? }
  }

  /** The status column is a plain string, so a provider's raw status is read back as one of the
      service's own statuses exactly when it spells it. */
  function StatusOf(raw: string): Status {
    match raw
    case "pending_approval" => PendingApproval
    case "pending_balance" => PendingBalance
    case "pending" => Pending
    case "signing" => Signing
    case "broadcasting" => Broadcasting
    case "completed" => Completed
    case "rejected" => Rejected
    case "failed" => Failed
    case "cancelled" => Cancelled
    case _ => Foreign(raw)
  }

  datatype Transfer = Transfer(
    requestId: string, amount: int, blockchain: string, contract: Option<string>,
    status: Status, wallet: Option<nat>, providerTx: Option<string>, retries: nat)

  /** The database. Rows are listed in creation order, so a row number is an id and also the
      position in `created_at` order. `stranded` is history the database does not record: the
      transfers that became final while their reservation stayed on the wallet. */
  datatype State = State(
    vaults: seq<Vault>, assets: seq<Asset>, wallets: seq<Wallet>, transfers: seq<Transfer>,
    stranded: set<nat>)

  // ----- the guarded UPDATE statements -----

  datatype Money = NoMoney
                 | Reserve(wallet: nat, amount: int)
                 | Release(wallet: nat, amount: int)
                 | Deduct(wallet: nat, amount: int)

  /** The WHERE clause of the statement. */
  predicate Goes(wallets: seq<Wallet>, m: Money) {
    match m
    case NoMoney => false
    case Reserve(w, a) => w < |wallets| && wallets[w].Available() >= a
    case Release(w, a) => w < |wallets| && wallets[w].pending >= a
    case Deduct(w, a) => w < |wallets| && wallets[w].pending >= a && wallets[w].balance >= a
  }

  /** The SET clause of the statement. */
  function Adjusted(w: Wallet, m: Money): Wallet {
    match m
    case NoMoney => w
    case Reserve(_, a) => w.(pending := w.pending + a)
    case Release(_, a) => w.(pending := w.pending - a)
    case Deduct(_, a) => w.(pending := w.pending - a, balance := w.balance - a)
  }

  function Pay(wallets: seq<Wallet>, m: Money): seq<Wallet> {
    if Goes(wallets, m) then wallets[m.wallet := Adjusted(wallets[m.wallet], m)] else wallets
  }

  // ----- choosing a hot wallet -----

  datatype AssetKey = AssetKey(blockchain: string, contract: Option<string>)

  /** The wallet belongs to an active HOT vault and carries the requested asset; the blockchain is
      compared ignoring case, a missing contract equals only a missing contract. */
  predicate Matches(s: State, w: nat, key: AssetKey) {
    && w < |s.wallets|
    && s.wallets[w].vault < |s.vaults|
    && s.wallets[w].asset < |s.assets|
    && s.vaults[s.wallets[w].vault].kind == Hot
    && s.vaults[s.wallets[w].vault].active
    && Upper(s.assets[s.wallets[w].asset].blockchain) == Upper(key.blockchain)
    && s.assets[s.wallets[w].asset].contract == key.contract
  }

  predicate Sufficient(s: State, w: nat, key: AssetKey, amount: int) {
    Matches(s, w, key) && s.wallets[w].Available() >= amount
  }

  predicate IsPrimary(s: State, w: nat)
    requires w < |s.wallets|
  {
    s.wallets[w].vault < |s.vaults| && s.vaults[s.wallets[w].vault].primary
  }

  /** ORDER BY is_primary DESC, available DESC: `v` does not come strictly before `w`. */
  predicate NotBefore(s: State, v: nat, w: nat)
    requires v < |s.wallets| && w < |s.wallets|
  {
    if IsPrimary(s, v) == IsPrimary(s, w)
    then s.wallets[v].Available() <= s.wallets[w].Available()
    else IsPrimary(s, w)
  }

  datatype Selection = Chosen(wallet: nat) | Insufficient(available: int) | NoWallet

  /** What the selection query may answer. Only the order among equally ranked wallets is open. */
  ghost predicate Selects(s: State, key: AssetKey, amount: int, sel: Selection) {
    match sel
    case Chosen(w) =>
      && Sufficient(s, w, key, amount)
      && forall v: nat :: Sufficient(s, v, key, amount) ==> NotBefore(s, v, w)
    case Insufficient(a) =>
      && a < amount
      && (exists w: nat :: Matches(s, w, key) && s.wallets[w].Available() == a)
      && forall v: nat :: Matches(s, v, key) ==> s.wallets[v].Available() <= a
    case NoWallet => forall v: nat :: !Matches(s, v, key)
  }

  /** Selection succeeds exactly when some matching wallet can cover the amount, reports a missing
      wallet exactly when none matches, and two answers to the same query differ only by a tie. */
  lemma SelectionExact(s: State, key: AssetKey, amount: int, sel: Selection)
    requires Selects(s, key, amount, sel)
    ensures sel.Chosen? <==> exists w: nat :: Sufficient(s, w, key, amount)
    ensures sel.NoWallet? <==> !exists w: nat :: Matches(s, w, key)
    ensures forall other | Selects(s, key, amount, other) ::
              match sel
              case Chosen(w) => other.Chosen? && NotBefore(s, other.wallet, w) && NotBefore(s, w, other.wallet)
              case Insufficient(_) => other == sel
              case NoWallet => other == sel
  {}

  // ----- the ledger of a wallet -----

  /** What transfer `i` still holds on wallet `w` because it is not final. */
  function LiveShare(t: Transfer, w: nat): int {
    if t.wallet == Some(w) && !t.status.IsFinal() then t.amount else 0
  }

  function LiveShares(s: State, w: nat): (r: seq<int>)
    ensures |r| == |s.transfers|
    ensures forall i :: 0 <= i < |r| ==> r[i] == LiveShare(s.transfers[i], w)
  {
    seq(|s.transfers|, i requires 0 <= i < |s.transfers| => LiveShare(s.transfers[i], w))
  }

  function Live(s: State, w: nat): int { Total(LiveShares(s, w)) }

  /** What transfer `i` left on wallet `w` although it is final. */
  function StrandedShare(t: Transfer, isStranded: bool, w: nat): int {
    if t.wallet == Some(w) && isStranded then t.amount else 0
  }

  function StrandedShares(s: State, w: nat): (r: seq<int>)
    ensures |r| == |s.transfers|
    ensures forall i :: 0 <= i < |r| ==> r[i] == StrandedShare(s.transfers[i], i in s.stranded, w)
  {
    seq(|s.transfers|, i requires 0 <= i < |s.transfers| => StrandedShare(s.transfers[i], i in s.stranded, w))
  }

  function StrandedTotal(s: State, w: nat): int { Total(StrandedShares(s, w)) }

  function CompletedShare(t: Transfer, w: nat): int {
    if t.wallet == Some(w) && t.status == Completed then t.amount else 0
  }

  function CompletedShares(s: State, w: nat): (r: seq<int>)
    ensures |r| == |s.transfers|
    ensures forall i :: 0 <= i < |r| ==> r[i] == CompletedShare(s.transfers[i], w)
  {
    seq(|s.transfers|, i requires 0 <= i < |s.transfers| => CompletedShare(s.transfers[i], w))
  }

  /** Everything the ledger says was paid out of wallet `w`. */
  function PaidOut(s: State, w: nat): int { Total(CompletedShares(s, w)) }

  /** The pending amount of every wallet is what live transfers hold plus what was stranded. */
  ghost predicate Exact(s: State) {
    forall w :: 0 <= w < |s.wallets| ==> s.wallets[w].pending == Live(s, w) + StrandedTotal(s, w)
  }

  ghost predicate TransferOk(s: State, t: Transfer) {
    && t.amount > 0
    && (t.wallet.Some? ==> t.wallet.value < |s.wallets|)
    && (t.status == PendingBalance ==> t.wallet.None?)
    && (t.status == Pending || t.status == PendingApproval ==> t.wallet.Some?)
  }

  ghost predicate WellFormed(s: State) {
    && (forall i :: 0 <= i < |s.transfers| ==> TransferOk(s, s.transfers[i]))
    && (forall i :: i in s.stranded ==>
          i < |s.transfers| && s.transfers[i].status.IsFinal() && s.transfers[i].wallet.Some?)
    && (forall i, j :: 0 <= i < j < |s.transfers| ==> s.transfers[i].requestId != s.transfers[j].requestId)
  }

  ghost predicate Inv(s: State) { WellFormed(s) && Exact(s) }

  /** Still holds a reservation: not final, or final with the reservation left behind. */
  predicate Owing(s: State, i: nat)
    requires i < |s.transfers|
  {
    !s.transfers[i].status.IsFinal() || i in s.stranded
  }

  ghost predicate Solvent(s: State) {
    forall w :: 0 <= w < |s.wallets| ==> 0 <= s.wallets[w].pending <= s.wallets[w].balance
  }

  lemma SharesAreNonNegative(s: State, w: nat)
    requires WellFormed(s)
    ensures forall k :: 0 <= k < |s.transfers| ==> 0 <= LiveShares(s, w)[k] && 0 <= StrandedShares(s, w)[k]
  {
    assert forall k :: 0 <= k < |s.transfers| ==> TransferOk(s, s.transfers[k]);
  }

  /** A live bound transfer is covered by its wallet's pending amount, so releasing it succeeds. */
  lemma OwingIsCovered(s: State, i: nat)
    requires Inv(s)
    requires i < |s.transfers| && s.transfers[i].wallet.Some? && Owing(s, i)
    ensures Goes(s.wallets, Release(s.transfers[i].wallet.value, s.transfers[i].amount))
  {
    var w := s.transfers[i].wallet.value;
    assert TransferOk(s, s.transfers[i]);
    var live, lost := LiveShares(s, w), StrandedShares(s, w);
    SharesAreNonNegative(s, w);
    TotalAtLeast(live, i);
    TotalAtLeast(lost, i);
    assert live[i] + lost[i] >= s.transfers[i].amount;
  }
}
