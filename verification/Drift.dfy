/** How far a wallet's pending amount can get from its ledger: over every admissible run, harmful steps included,
    the gap moves by exactly what those steps are worth. */
module Drift {
  import opened Basics
  import opened Ledger
  import opened Steps
  import opened ExactLedger

  /** All that is asked of a state: what is recorded as stranded is final and bound. */
  ghost predicate StrandedOk(s: State) {
    forall i :: i in s.stranded ==> i < |s.transfers| && s.transfers[i].status.IsFinal() && s.transfers[i].wallet.Some?
  }

  /** A harmful message about a transfer of wallet `w` takes its amount off the pending side, or puts it back on
      the ledger side: either way the wallet falls short by it. */
  function Lost(s: State, e: Event, w: nat): int {
    if !e.CreateFrom? && Harmful(s, e) && s.transfers[Target(s, e).value].wallet == Some(w)
    then s.transfers[Target(s, e).value].amount
    else 0
  }

  /** A queue pass that binds a waiting transfer which already holds a reservation on `w` leaves that one behind
      unrecorded. Only a transfer born with the raw status "pending_balance" can be so. */
  function Orphaned(s: State, e: Event, w: nat): int {
    if e.Examine? && Target(s, e).Some? && e.sel.Chosen?
       && s.transfers[Target(s, e).value].status == PendingBalance && s.transfers[Target(s, e).value].wallet == Some(w)
    then s.transfers[Target(s, e).value].amount
    else 0
  }

  function DriftOf(s: State, e: Event, w: nat): int { Orphaned(s, e, w) - Lost(s, e, w) }

  function Drifts(s: State, es: seq<Event>, w: nat): int {
    if |es| == 0 then 0 else
    var n := |es| - 1;
    Drifts(s, es[..n], w) + DriftOf(Before(s, es, n), es[n], w)
  }

  // ----- one rewrite -----

  ghost predicate Rebinds(s: State, t: Transfer, next: Transfer, money: Money) {
    && !t.status.IsFinal() && next.status == Pending && next.wallet.Some?
    && money == Reserve(next.wallet.value, t.amount) && Goes(s.wallets, money)
  }

  ghost predicate Moves(s: State, t: Transfer, next: Transfer, money: Money) {
    && next.amount == t.amount
    && (Rebinds(s, t, next, money)
        || (&& next.wallet == t.wallet
            && (money == NoMoney
                || (t.wallet.Some? && next.status.IsFinal() && (money == ReleaseOf(t) || money == DeductOf(t))))))
  }

  function RowDrift(s: State, i: nat, next: Transfer, money: Money, w: nat): int
    requires i < |s.transfers|
  {
    var t := s.transfers[i];
    if t.wallet != Some(w) then 0
    else if money.Reserve? then t.amount
    else if Undoes(s, i, next, money) then -t.amount
    else 0
  }

  /** What a statement adds to a wallet beyond what the row's own shares gain. */
  lemma MovesBy(s: State, i: nat, next: Transfer, money: Money, w: nat)
    requires w < |s.wallets| && i < |s.transfers| && Moves(s, s.transfers[i], next, money)
    requires i in s.stranded ==> s.transfers[i].status.IsFinal() && s.transfers[i].wallet.Some?
    ensures var t, stays := s.transfers[i], LeavesBehind(s, i, next, money);
            Change(s.wallets, money, w) - (LiveShare(next, w) - LiveShare(t, w)
                                           + StrandedShare(next, stays, w) - StrandedShare(t, i in s.stranded, w))
            == RowDrift(s, i, next, money, w)
  {}

  lemma ForMoves(s: State, i: nat, e: Event)
    requires i < |s.transfers| && DecideFor(s.wallets, i, s.transfers[i], e).Touch?
    requires e.Approve? && s.transfers[i].status == PendingApproval && s.transfers[i].wallet.None? && e.sel.Chosen? ==>
               Goes(s.wallets, Reserve(e.sel.wallet, s.transfers[i].amount))
    requires e.Examine? && s.transfers[i].status == PendingBalance && e.sel.Chosen? ==>
               Goes(s.wallets, Reserve(e.sel.wallet, s.transfers[i].amount))
    ensures var tx := DecideFor(s.wallets, i, s.transfers[i], e); Moves(s, s.transfers[i], tx.next, tx.money)
  {}

  lemma ForDrift(s: State, i: nat, e: Event, w: nat)
    requires i < |s.transfers| && Target(s, e) == Some(i) && DecideFor(s.wallets, i, s.transfers[i], e).Touch?
    ensures var tx := DecideFor(s.wallets, i, s.transfers[i], e);
            RowDrift(s, i, tx.next, tx.money, w) == DriftOf(s, e, w)
  {}

  lemma TouchDrift(s: State, e: Event, w: nat)
    requires StrandedOk(s) && Admissible(s, e) && Decide(s, e).Touch? && w < |s.wallets|
    ensures w < |Apply(s, e).wallets| && Gap(Apply(s, e), w) == Gap(s, w) + DriftOf(s, e, w)
  {
    var tx := Decide(s, e);
    var i := tx.row;
    assert tx == DecideFor(s.wallets, i, s.transfers[i], e);
    ForMoves(s, i, e);
    MovesBy(s, i, tx.next, tx.money, w);
    ForDrift(s, i, e, w);
    TouchIsApplied(s, e);
    TouchGap(s, i, tx.next, tx.money, w);
  }

  // ----- one step -----

  lemma AppendPays(s: State, e: Event)
    requires Admissible(s, e) && Decide(s, e).Append?
    ensures AppendShape(s, Decide(s, e).created, Decide(s, e).money) && Target(s, e).None?
  {
    DecideAppendShape(s, e);
  }

  lemma AppendDrift(s: State, e: Event, w: nat)
    requires StrandedOk(s) && Admissible(s, e) && Decide(s, e).Append? && w < |s.wallets|
    ensures w < |Apply(s, e).wallets| && Gap(Apply(s, e), w) == Gap(s, w) && DriftOf(s, e, w) == 0
  {
    var tx := Decide(s, e);
    AppendPays(s, e);
    AppendBalances(s, tx.created, tx.money, w);
    AppendGap(s, tx.created, tx.money, w);
    TouchIsApplied(s, e);
  }

  lemma IdleDrift(s: State, e: Event, w: nat)
    requires Decide(s, e).Idle? && w < |s.wallets|
    ensures w < |Apply(s, e).wallets| && Gap(Apply(s, e), w) == Gap(s, w) && DriftOf(s, e, w) == 0
  {
    if Treasury(e) { TreasuryKeepsPending(s, e); }
    SameSums(s, Apply(s, e), w);
    HarmfulActs(s, e);
  }

  /** One admissible step moves the gap of every wallet by exactly its drift. */
  lemma StepDrift(s: State, e: Event, w: nat)
    requires StrandedOk(s) && Admissible(s, e) && w < |s.wallets|
    ensures w < |Apply(s, e).wallets| && Gap(Apply(s, e), w) == Gap(s, w) + DriftOf(s, e, w)
  {
    match Decide(s, e)
    case Idle => IdleDrift(s, e, w);
    case Touch(_, _, _) => TouchDrift(s, e, w);
    case Append(_, _) => AppendDrift(s, e, w);
  }

  lemma StepStrandedOk(s: State, e: Event)
    requires StrandedOk(s)
    ensures StrandedOk(Apply(s, e))
  {
    if Decide(s, e).Touch? || Decide(s, e).Append? { TouchIsApplied(s, e); }
  }

  // ----- every run -----

  ghost predicate Any(s: State, e: Event) { Admissible(s, e) }

  /** Over every admissible run, from any state, a wallet's gap after the run is its gap before it plus the drifts
      of the steps: minus the amounts of the harmful messages about its transfers, plus those of orphaned ones. */
  lemma {:induction false} RunDrift(s: State, es: seq<Event>, w: nat)
    requires StrandedOk(s) && Along(s, es, Any) && w < |s.wallets|
    ensures StrandedOk(Run(s, es)) && w < |Run(s, es).wallets|
    ensures Gap(Run(s, es), w) == Gap(s, w) + Drifts(s, es, w)
  {
    if |es| > 0 {
      var n := |es| - 1;
      PrefixAlong(s, es, n, Any);
      RunDrift(s, es[..n], w);
      assert Any(Before(s, es, n), es[n]);
      StepStrandedOk(Run(s, es[..n]), es[n]);
      StepDrift(Run(s, es[..n]), es[n], w);
    }
  }

  /** The repeated webhook of a paid transfer costs its wallet exactly that amount of reservations. */
  lemma RepeatedWebhookDrift()
    ensures var e := Webhook("tx", None, "COMPLETED");
            Gap(PaidAndOpen(), 0) == 0 && Gap(Apply(PaidAndOpen(), e), 0) == -5
  {
    var s, e := PaidAndOpen(), Webhook("tx", None, "COMPLETED");
    PaidAndOpenInv();
    RepeatedWebhookBreaksLedger();
    var rows := ByProviderTx(s.transfers, "tx");
    assert 0 in rows && 1 !in rows;
    assert rows[0] == 0 && |rows| == 1;
    StepDrift(s, e, 0);
  }
}
