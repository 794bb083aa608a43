/** The reservation ledger is exact: on every run, each wallet's pending amount is the sum of what
    its live and stranded transfers hold. One step breaks this exactly when `Harmful` says so. */
module ExactLedger {
  import opened Basics
  import opened Ledger
  import opened Steps

  /** Bound to a wallet, final, and its reservation already released or deducted. */
  predicate Settled(s: State, i: nat)
    requires i < |s.transfers|
  {
    s.transfers[i].wallet.Some? && !Owing(s, i)
  }

  /** The handlers that do not look at the status: signing, transfer.rejected, provider webhooks. */
  predicate Unguarded(e: Event) { e.Sign? || e.RejectedMessage? || e.Webhook? }

  /** An unguarded handler rewrites a transfer whose reservation is already gone. */
  predicate Stray(s: State, e: Event) {
    && Unguarded(e) && (e.Webhook? ==> OutcomeOf(e.txStatus) != OutOther)
    && Target(s, e).Some? && Settled(s, Target(s, e).value)
  }

  /** The steps that make the ledger wrong: a stray event that revives the transfer or whose UPDATE
      passes its guard, and a provider that answers with the service's own word for waiting. */
  predicate Harmful(s: State, e: Event) {
    if e.CreateFrom? then Decide(s, e).Append? && e.reply.status == Some("pending_balance")
    else
      && Stray(s, e)
      && var t := s.transfers[Target(s, e).value];
         match e
         case Sign(_, _) => true
         case RejectedMessage(_) => Goes(s.wallets, ReleaseOf(t))
         case Webhook(_, _, txStatus) =>
           (match OutcomeOf(txStatus)
            case OutFailed => Goes(s.wallets, ReleaseOf(t))
            case OutCompleted => Goes(s.wallets, DeductOf(t))
            case OutBroadcasting => true
            case OutSigning => true
            case OutOther => false)
         case _ => false
  }

  // ----- the shape of every decision -----

  ghost predicate StatusFits(t: Transfer) {
    && (t.status == PendingBalance ==> t.wallet.None?)
    && (t.status == Pending || t.status == PendingApproval ==> t.wallet.Some?)
  }

  ghost predicate Binds(s: State, t: Transfer, next: Transfer, money: Money) {
    && t.wallet.None? && t.status == PendingBalance && next.wallet.Some? && next.status == Pending
    && money == Reserve(next.wallet.value, t.amount) && Goes(s.wallets, money)
  }

  ghost predicate TouchShape(s: State, t: Transfer, next: Transfer, money: Money) {
    && next.requestId == t.requestId && next.amount == t.amount && KeyOf(next) == KeyOf(t)
    && StatusFits(next)
    && (Binds(s, t, next, money)
        || (&& next.wallet == t.wallet
            && (money == NoMoney
                || (t.wallet.Some? && next.status.IsFinal() && (money == ReleaseOf(t) || money == DeductOf(t))))))
  }

  ghost predicate AppendShape(s: State, t: Transfer, money: Money) {
    && t.amount > 0
    && (forall i :: 0 <= i < |s.transfers| ==> s.transfers[i].requestId != t.requestId)
    && (t.status == Pending || t.status == PendingApproval ==> t.wallet.Some?)
    && match t.wallet
       case None => money == NoMoney && !t.status.IsFinal()
       case Some(w) => money == Reserve(w, t.amount) && Goes(s.wallets, money)
  }

  /** Every row a decision rewrites keeps its identity, amount and key, is bound at most from
      waiting to reserved, and moves money only for its own wallet and amount. */
  lemma DecideTouchShape(s: State, e: Event)
    requires WellFormed(s) && Admissible(s, e) && Decide(s, e).Touch?
    ensures var tx := Decide(s, e); TouchShape(s, s.transfers[tx.row], tx.next, tx.money)
  {
    var i := Target(s, e).value;
    assert TransferOk(s, s.transfers[i]);
    assert Decide(s, e) == DecideFor(s.wallets, i, s.transfers[i], e);
    ForShape(s, i, e);
  }

  lemma ForShape(s: State, i: nat, e: Event)
    requires i < |s.transfers| && TransferOk(s, s.transfers[i])
    requires DecideFor(s.wallets, i, s.transfers[i], e).Touch?
    requires e.Examine? ==> AnswersFor(s, s.transfers[i], PendingBalance, e.sel)
    ensures var tx := DecideFor(s.wallets, i, s.transfers[i], e); TouchShape(s, s.transfers[i], tx.next, tx.money)
  {}

  lemma DecideAppendShape(s: State, e: Event)
    requires Admissible(s, e) && Decide(s, e).Append?
    ensures var tx := Decide(s, e); AppendShape(s, tx.created, tx.money)
  {
    FreshRequest(s, e);
  }

  lemma FreshRequest(s: State, e: Event)
    requires Decide(s, e).Append?
    ensures forall i :: 0 <= i < |s.transfers| ==> s.transfers[i].requestId != Decide(s, e).created.requestId
  {}

  // ----- how one committed row moves the sums -----

  lemma TouchLive(s: State, s': State, i: nat, next: Transfer, w: nat)
    requires i < |s.transfers| && s'.transfers == s.transfers[i := next]
    ensures Live(s', w) == Live(s, w) - LiveShare(s.transfers[i], w) + LiveShare(next, w)
  {
    assert LiveShares(s', w) == LiveShares(s, w)[i := LiveShare(next, w)];
    TotalUpdate(LiveShares(s, w), i, LiveShare(next, w));
  }

  lemma TouchPaidOut(s: State, s': State, i: nat, next: Transfer, w: nat)
    requires i < |s.transfers| && s'.transfers == s.transfers[i := next]
    ensures PaidOut(s', w) == PaidOut(s, w) - CompletedShare(s.transfers[i], w) + CompletedShare(next, w)
  {
    assert CompletedShares(s', w) == CompletedShares(s, w)[i := CompletedShare(next, w)];
    TotalUpdate(CompletedShares(s, w), i, CompletedShare(next, w));
  }

  lemma TouchStranded(s: State, s': State, i: nat, next: Transfer, w: nat)
    requires i < |s.transfers| && s'.transfers == s.transfers[i := next]
    requires s'.stranded - {i} == s.stranded - {i}
    ensures StrandedTotal(s', w) == StrandedTotal(s, w)
              - StrandedShare(s.transfers[i], i in s.stranded, w) + StrandedShare(next, i in s'.stranded, w)
  {
    var share := StrandedShare(next, i in s'.stranded, w);
    forall k | 0 <= k < |s.transfers| && k != i ensures k in s'.stranded <==> k in s.stranded {
      assert k in s'.stranded <==> k in s'.stranded - {i};
    }
    assert StrandedShares(s', w) == StrandedShares(s, w)[i := share];
    TotalUpdate(StrandedShares(s, w), i, share);
  }

  lemma AppendLive(s: State, s': State, t: Transfer, w: nat)
    requires s'.transfers == s.transfers + [t]
    ensures Live(s', w) == Live(s, w) + LiveShare(t, w)
  {
    assert LiveShares(s', w) == LiveShares(s, w) + [LiveShare(t, w)];
    TotalAppend(LiveShares(s, w), LiveShare(t, w));
  }

  lemma AppendPaidOut(s: State, s': State, t: Transfer, w: nat)
    requires s'.transfers == s.transfers + [t]
    ensures PaidOut(s', w) == PaidOut(s, w) + CompletedShare(t, w)
  {
    assert CompletedShares(s', w) == CompletedShares(s, w) + [CompletedShare(t, w)];
    TotalAppend(CompletedShares(s, w), CompletedShare(t, w));
  }

  lemma AppendStranded(s: State, s': State, t: Transfer, w: nat)
    requires s'.transfers == s.transfers + [t]
    requires s'.stranded - {|s.transfers|} == s.stranded
    ensures StrandedTotal(s', w) == StrandedTotal(s, w) + StrandedShare(t, |s.transfers| in s'.stranded, w)
  {
    var share := StrandedShare(t, |s.transfers| in s'.stranded, w);
    forall k | 0 <= k < |s.transfers| ensures k in s'.stranded <==> k in s.stranded {
      assert k in s'.stranded <==> k in s'.stranded - {|s.transfers|};
    }
    assert StrandedShares(s', w) == StrandedShares(s, w) + [share];
    TotalAppend(StrandedShares(s, w), share);
  }

  /** A wallet no transfer is bound to has empty sums. */
  lemma UnboundSums(s: State, w: nat)
    requires WellFormed(s) && w >= |s.wallets|
    ensures Live(s, w) == 0 && StrandedTotal(s, w) == 0 && PaidOut(s, w) == 0
  {
    forall i | 0 <= i < |s.transfers| ensures s.transfers[i].wallet != Some(w) {
      assert TransferOk(s, s.transfers[i]);
    }
    TotalZero(LiveShares(s, w));
    TotalZero(StrandedShares(s, w));
    TotalZero(CompletedShares(s, w));
  }

  /** Steps that leave the transfer rows alone leave the sums alone. */
  lemma SameSums(s: State, s': State, w: nat)
    requires s'.transfers == s.transfers && s'.stranded == s.stranded
    ensures Live(s', w) == Live(s, w) && StrandedTotal(s', w) == StrandedTotal(s, w) && PaidOut(s', w) == PaidOut(s, w)
  {}

  // ----- one step -----

  /** The rewrite makes a settled transfer live again, or moves money for it a second time. */
  predicate Undoes(s: State, i: nat, next: Transfer, money: Money)
    requires i < |s.transfers|
  {
    Settled(s, i) && (!next.status.IsFinal() || Goes(s.wallets, money))
  }

  /** What a statement adds to the pending amount of a wallet. */
  function Change(ws: seq<Wallet>, money: Money, w: nat): int
    requires w < |ws|
  {
    Pay(ws, money)[w].pending - ws[w].pending
  }

  /** The row's own shares change by what the statement adds to the wallet, unless it undoes a settlement. */
  lemma TouchBalances(s: State, i: nat, next: Transfer, money: Money, w: nat)
    requires w < |s.wallets| && i < |s.transfers| && TouchShape(s, s.transfers[i], next, money)
    requires TransferOk(s, s.transfers[i])
    requires i in s.stranded ==> s.transfers[i].status.IsFinal() && s.transfers[i].wallet.Some?
    ensures var t, stays := s.transfers[i], LeavesBehind(s, i, next, money);
            (Change(s.wallets, money, w) == LiveShare(next, w) - LiveShare(t, w)
                                            + StrandedShare(next, stays, w) - StrandedShare(t, i in s.stranded, w))
            == !(Undoes(s, i, next, money) && t.wallet == Some(w))
  {}

  /** How far a wallet's pending amount is off its ledger. */
  function Gap(s: State, w: nat): int
    requires w < |s.wallets|
  {
    s.wallets[w].pending - Live(s, w) - StrandedTotal(s, w)
  }

  lemma ExactIsNoGap(s: State)
    ensures Exact(s) <==> forall w :: 0 <= w < |s.wallets| ==> Gap(s, w) == 0
  {
    forall w | 0 <= w < |s.wallets|
      ensures Gap(s, w) == 0 <==> s.wallets[w].pending == Live(s, w) + StrandedTotal(s, w)
    {}
  }

  /** A rewrite moves the gap by what it adds to the wallet less what it adds to the row's shares. */
  lemma TouchGap(s: State, i: nat, next: Transfer, money: Money, w: nat)
    requires w < |s.wallets| && i < |s.transfers|
    ensures var s', t, stays := Commit(s, Touch(i, next, money)), s.transfers[i], LeavesBehind(s, i, next, money);
            && |s'.wallets| == |s.wallets|
            && Gap(s', w) == Gap(s, w) + Change(s.wallets, money, w)
                             - (LiveShare(next, w) - LiveShare(t, w)
                                + StrandedShare(next, stays, w) - StrandedShare(t, i in s.stranded, w))
  {
    var s' := Commit(s, Touch(i, next, money));
    assert i in s'.stranded <==> LeavesBehind(s, i, next, money);
    TouchLive(s, s', i, next, w);
    TouchStranded(s, s', i, next, w);
  }

  lemma TouchExactAt(s: State, i: nat, next: Transfer, money: Money, w: nat)
    requires Inv(s) && w < |s.wallets|
    requires i < |s.transfers| && TouchShape(s, s.transfers[i], next, money)
    ensures var s' := Commit(s, Touch(i, next, money));
            |s'.wallets| == |s.wallets|
            && ((Gap(s', w) == 0) == !(Undoes(s, i, next, money) && s.transfers[i].wallet == Some(w)))
  {
    assert TransferOk(s, s.transfers[i]);
    assert Gap(s, w) == 0;
    TouchBalances(s, i, next, money, w);
    TouchGap(s, i, next, money, w);
  }

  lemma TouchExact(s: State, i: nat, next: Transfer, money: Money)
    requires Inv(s)
    requires i < |s.transfers| && TouchShape(s, s.transfers[i], next, money)
    ensures Exact(Commit(s, Touch(i, next, money))) <==> !Undoes(s, i, next, money)
  {
    var s' := Commit(s, Touch(i, next, money));
    assert TransferOk(s, s.transfers[i]);
    if Undoes(s, i, next, money) {
      TouchExactAt(s, i, next, money, s.transfers[i].wallet.value);
    } else {
      forall w | 0 <= w < |s'.wallets| ensures Gap(s', w) == 0 { TouchExactAt(s, i, next, money, w); }
    }
    ExactIsNoGap(s');
  }

  lemma TouchWellFormed(s: State, i: nat, next: Transfer, money: Money)
    requires WellFormed(s)
    requires i < |s.transfers| && TouchShape(s, s.transfers[i], next, money)
    ensures WellFormed(Commit(s, Touch(i, next, money)))
  {
    var s' := Commit(s, Touch(i, next, money));
    assert TransferOk(s, s.transfers[i]);
    forall k | 0 <= k < |s'.transfers| ensures TransferOk(s', s'.transfers[k]) {
      assert TransferOk(s, s.transfers[k]);
    }
  }

  lemma AppendBalances(s: State, t: Transfer, money: Money, w: nat)
    requires AppendShape(s, t, money) && w < |s.wallets|
    ensures var stays := t.status.IsFinal() && t.wallet.Some?;
            Change(s.wallets, money, w) == LiveShare(t, w) + StrandedShare(t, stays, w)
  {}

  lemma AppendGap(s: State, t: Transfer, money: Money, w: nat)
    requires w < |s.wallets| && |s.transfers| !in s.stranded
    ensures var s', stays := Commit(s, Append(t, money)), t.status.IsFinal() && t.wallet.Some?;
            && |s'.wallets| == |s.wallets|
            && Gap(s', w) == Gap(s, w) + Change(s.wallets, money, w) - LiveShare(t, w) - StrandedShare(t, stays, w)
  {
    var s' := Commit(s, Append(t, money));
    assert |s.transfers| in s'.stranded <==> t.status.IsFinal() && t.wallet.Some?;
    assert s'.stranded - {|s.transfers|} == s.stranded;
    AppendLive(s, s', t, w);
    AppendStranded(s, s', t, w);
  }

  lemma AppendExactAt(s: State, t: Transfer, money: Money, w: nat)
    requires Inv(s) && AppendShape(s, t, money) && w < |s.wallets|
    ensures var s' := Commit(s, Append(t, money));
            |s'.wallets| == |s.wallets| && Gap(s', w) == 0
  {
    assert Gap(s, w) == 0;
    AppendBalances(s, t, money, w);
    AppendGap(s, t, money, w);
  }

  lemma AppendExact(s: State, t: Transfer, money: Money)
    requires Inv(s) && AppendShape(s, t, money)
    ensures Exact(Commit(s, Append(t, money)))
  {
    var s' := Commit(s, Append(t, money));
    forall w | 0 <= w < |s'.wallets| ensures Gap(s', w) == 0 { AppendExactAt(s, t, money, w); }
    ExactIsNoGap(s');
  }

  lemma AppendWellFormed(s: State, t: Transfer, money: Money)
    requires WellFormed(s) && AppendShape(s, t, money)
    ensures WellFormed(Commit(s, Append(t, money))) <==> (t.status == PendingBalance ==> t.wallet.None?)
  {
    var s' := Commit(s, Append(t, money));
    forall k | 0 <= k < |s.transfers| ensures TransferOk(s', s'.transfers[k]) {
      assert TransferOk(s, s.transfers[k]);
    }
    assert s'.transfers[|s.transfers|] == t;
  }

  /** Steps that leave the transfer rows and every pending amount alone, and only open empty
      wallets, keep the ledger. */
  lemma SameRowsInv(s: State, s': State)
    requires Inv(s)
    requires s'.transfers == s.transfers && s'.stranded == s.stranded && |s'.wallets| >= |s.wallets|
    requires forall w :: 0 <= w < |s.wallets| ==> s'.wallets[w].pending == s.wallets[w].pending
    requires forall w :: |s.wallets| <= w < |s'.wallets| ==> s'.wallets[w].pending == 0
    ensures Inv(s')
  {
    forall w | 0 <= w < |s'.wallets| ensures s'.wallets[w].pending == Live(s', w) + StrandedTotal(s', w) {
      SameSums(s, s', w);
      if w >= |s.wallets| { UnboundSums(s, w); }
    }
    forall k | 0 <= k < |s'.transfers| ensures TransferOk(s', s'.transfers[k]) {
      assert TransferOk(s, s.transfers[k]);
    }
  }

  lemma UndoesIsHarmful(s: State, e: Event)
    requires WellFormed(s) && Admissible(s, e) && Decide(s, e).Touch?
    ensures var tx := Decide(s, e);
            Harmful(s, e) <==> Undoes(s, tx.row, tx.next, tx.money)
  {
    assert TransferOk(s, s.transfers[Decide(s, e).row]);
  }

  lemma TouchStepExact(s: State, e: Event)
    requires Inv(s) && Admissible(s, e) && Decide(s, e).Touch?
    ensures Inv(Commit(s, Decide(s, e))) <==> !Harmful(s, e)
  {
    var tx := Decide(s, e);
    DecideTouchShape(s, e);
    TouchExact(s, tx.row, tx.next, tx.money);
    TouchWellFormed(s, tx.row, tx.next, tx.money);
    UndoesIsHarmful(s, e);
  }

  lemma AppendHarm(s: State, e: Event)
    requires Decide(s, e).Append?
    ensures var t := Decide(s, e).created;
            Harmful(s, e) <==> t.status == PendingBalance && t.wallet.Some?
  {
    if e.CreateFrom? && e.reply.status.Some? { WaitingWord(e.reply.status.value); }
  }

  lemma WaitingWord(raw: string)
    ensures StatusOf(raw) == PendingBalance <==> raw == "pending_balance"
  {}

  lemma AppendStepExact(s: State, e: Event)
    requires Inv(s) && Admissible(s, e) && Decide(s, e).Append?
    ensures Inv(Commit(s, Decide(s, e))) <==> !Harmful(s, e)
  {
    var tx := Decide(s, e);
    DecideAppendShape(s, e);
    AppendExact(s, tx.created, tx.money);
    AppendWellFormed(s, tx.created, tx.money);
    AppendHarm(s, e);
  }

  /** Balance overwrites and treasury administration. */
  predicate Treasury(e: Event) { e.Overwrite? || e.MoveInternally? || e.OpenWallet? || e.Administer? }

  /** They never touch a pending amount or a transfer; a wallet is opened empty. */
  lemma TreasuryKeepsPending(s: State, e: Event)
    requires Treasury(e)
    ensures var s' := Apply(s, e);
            && s'.transfers == s.transfers && s'.stranded == s.stranded && |s'.wallets| >= |s.wallets|
            && (forall w :: 0 <= w < |s.wallets| ==> s'.wallets[w].pending == s.wallets[w].pending)
            && (forall w :: |s.wallets| <= w < |s'.wallets| ==> s'.wallets[w].pending == 0)
  {}

  lemma TreasuryStepInv(s: State, e: Event)
    requires Inv(s) && Treasury(e)
    ensures Inv(Apply(s, e))
  {
    TreasuryKeepsPending(s, e);
    SameRowsInv(s, Apply(s, e));
  }

  lemma HarmfulActs(s: State, e: Event)
    requires Decide(s, e).Idle?
    ensures !Harmful(s, e)
  {}

  /** One admissible step keeps the ledger invariant if and only if it is not harmful. */
  lemma StepExact(s: State, e: Event)
    requires Inv(s) && Admissible(s, e)
    ensures Inv(Apply(s, e)) <==> !Harmful(s, e)
  {
    if Treasury(e) {
      TreasuryStepInv(s, e);
    } else if Decide(s, e).Touch? {
      TouchStepExact(s, e);
    } else if Decide(s, e).Append? {
      AppendStepExact(s, e);
    } else {
      HarmfulActs(s, e);
    }
  }

  // ----- every run -----

  ghost predicate Harmless(s: State, e: Event) { Admissible(s, e) && !Harmful(s, e) }

  /** Exact reservation ledger: whatever else interleaves, balance overwrites included, each
      wallet's pending amount is what its live transfers hold plus what was stranded. */
  lemma {:induction false} RunExact(s: State, es: seq<Event>)
    requires Inv(s) && Along(s, es, Harmless)
    ensures Inv(Run(s, es))
  {
    if |es| > 0 {
      var n := |es| - 1;
      PrefixAlong(s, es, n, Harmless);
      RunExact(s, es[..n]);
      assert Harmless(Before(s, es, n), es[n]);
      StepExact(Run(s, es[..n]), es[n]);
    }
  }

  lemma PrefixAlong(s: State, es: seq<Event>, n: nat, ok: (State, Event) -> bool)
    requires n <= |es| && Along(s, es, ok)
    ensures Along(s, es[..n], ok)
  {
    forall k | 0 <= k < n ensures ok(Before(s, es[..n], k), es[..n][k]) {
      assert es[..n][..k] == es[..k];
      assert ok(Before(s, es, k), es[k]);
    }
  }

  /** On such runs releasing the reservation of a transfer that still holds one never fails. */
  lemma ReleaseNeverFails(s: State, es: seq<Event>, i: nat)
    requires Inv(s) && Along(s, es, Harmless)
    requires var s' := Run(s, es);
             i < |s'.transfers| && s'.transfers[i].wallet.Some? && Owing(s', i)
    ensures var s' := Run(s, es);
            Goes(s'.wallets, ReleaseOf(s'.transfers[i]))
  {
    RunExact(s, es);
    OwingIsCovered(Run(s, es), i);
  }

  // ----- the hypothesis is needed -----

  /** One wallet, one transfer already paid out of it and one that still holds a reservation. */
  function PaidAndOpen(): State {
    State([], [], [Wallet(0, 0, 10, 5)],
          [Transfer("paid", 5, "TRON", None, Completed, Some(0), Some("tx"), 0),
           Transfer("open", 5, "TRON", None, Signing, Some(0), None, 0)], {})
  }

  /** A repeated COMPLETED webhook deducts a second time, from the reservation of another transfer. */
  lemma RepeatedWebhookBreaksLedger()
    ensures var s, e := PaidAndOpen(), Webhook("tx", None, "COMPLETED");
            Inv(s) && Admissible(s, e) && Harmful(s, e) && !Inv(Apply(s, e))
  {
    var s, e := PaidAndOpen(), Webhook("tx", None, "COMPLETED");
    PaidAndOpenInv();
    var rows := ByProviderTx(s.transfers, "tx");
    assert 0 in rows && 1 !in rows;
    assert rows[0] == 0 && |rows| == 1;
    StepExact(s, e);
  }

  lemma PaidAndOpenInv()
    ensures Inv(PaidAndOpen())
  {
    var s := PaidAndOpen();
    assert LiveShares(s, 0) == [0] + [5] && StrandedShares(s, 0) == [0, 0];
    TotalAppend([0], 5);
    TotalZero([0]);
    TotalZero([0, 0]);
  }
}
