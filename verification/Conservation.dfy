/** Money is neither lost nor invented: wallets stay solvent under any interleaving of the guarded
    UPDATEs, and what left a wallet is what its completed transfers paid out. */
module Conservation {
  import opened Basics
  import opened Ledger
  import opened Steps
  import opened ExactLedger

  // ----- the three statements, in any order, stray or repeated -----

  predicate SolventWallet(w: Wallet) { 0 <= w.pending <= w.balance }

  predicate Positive(m: Money) { m.NoMoney? || m.amount > 0 }

  /** By how much a wallet has promised more than it has. */
  function Deficit(w: Wallet): (r: int)
    ensures SolventWallet(w) ==> r == 0
  {
    if w.pending > w.balance then w.pending - w.balance else 0
  }

  /** None of the statements raises a deficit, breaks solvency or, when it settles a completed
      transfer, changes what is available. */
  lemma PayIsSafe(ws: seq<Wallet>, m: Money, w: nat)
    requires Positive(m) && w < |ws|
    ensures |Pay(ws, m)| == |ws|
    ensures Deficit(Pay(ws, m)[w]) <= Deficit(ws[w])
    ensures SolventWallet(ws[w]) ==> SolventWallet(Pay(ws, m)[w])
    ensures m.Deduct? ==> Pay(ws, m)[w].Available() == ws[w].Available()
  {}

  function PayAll(ws: seq<Wallet>, ms: seq<Money>): (r: seq<Wallet>)
    ensures |r| == |ws|
  {
    if |ms| == 0 then ws else Pay(PayAll(ws, ms[..|ms| - 1]), ms[|ms| - 1])
  }

  /** Any sequence of reserve, release and complete calls, duplicated or aimed at the wrong wallet,
      keeps every solvent wallet solvent and never widens a deficit. */
  lemma {:induction false} AnyCallsAreSafe(ws: seq<Wallet>, ms: seq<Money>, w: nat)
    requires w < |ws|
    requires forall k :: 0 <= k < |ms| ==> Positive(ms[k])
    ensures Deficit(PayAll(ws, ms)[w]) <= Deficit(ws[w])
    ensures SolventWallet(ws[w]) ==> SolventWallet(PayAll(ws, ms)[w])
  {
    if |ms| > 0 {
      AnyCallsAreSafe(ws, ms[..|ms| - 1], w);
      PayIsSafe(PayAll(ws, ms[..|ms| - 1]), ms[|ms| - 1], w);
    }
  }

  // ----- the same for whole runs of the service -----

  predicate Overwrites(e: Event) { e.Overwrite? || e.MoveInternally? }

  ghost predicate PositiveAmounts(s: State) {
    forall i :: 0 <= i < |s.transfers| ==> s.transfers[i].amount > 0
  }

  lemma ForMoney(ws: seq<Wallet>, i: nat, t: Transfer, e: Event)
    requires t.amount > 0 && DecideFor(ws, i, t, e).Touch?
    ensures var tx := DecideFor(ws, i, t, e); Positive(tx.money) && tx.next.amount > 0
  {}

  lemma AppendMoney(s: State, e: Event)
    requires Admissible(s, e) && Decide(s, e).Append?
    ensures Positive(Decide(s, e).money) && Decide(s, e).created.amount > 0
  {}

  lemma DecideMoney(s: State, e: Event)
    requires PositiveAmounts(s) && Admissible(s, e)
    ensures var tx := Decide(s, e);
            && (tx.Touch? ==> Positive(tx.money) && tx.next.amount > 0)
            && (tx.Append? ==> Positive(tx.money) && tx.created.amount > 0)
  {
    var tx := Decide(s, e);
    match tx
    case Idle =>
    case Touch(i, _, _) =>
      assert tx == DecideFor(s.wallets, i, s.transfers[i], e);
      ForMoney(s.wallets, i, s.transfers[i], e);
    case Append(_, _) => AppendMoney(s, e);
  }

  lemma StepPays(s: State, e: Event, w: nat)
    requires PositiveAmounts(s) && Admissible(s, e) && !Overwrites(e) && w < |s.wallets|
    ensures PositiveAmounts(Apply(s, e)) && w < |Apply(s, e).wallets|
    ensures Deficit(Apply(s, e).wallets[w]) <= Deficit(s.wallets[w])
    ensures SolventWallet(s.wallets[w]) ==> SolventWallet(Apply(s, e).wallets[w])
  {
    DecideMoney(s, e);
    match Decide(s, e)
    case Idle =>
    case Touch(_, _, money) => PayIsSafe(s.wallets, money, w);
    case Append(_, money) => PayIsSafe(s.wallets, money, w);
  }

  lemma CommitWallets(s: State, tx: Tx)
    ensures |Commit(s, tx).wallets| == |s.wallets|
  {}

  lemma StepWallets(s: State, e: Event)
    ensures |Apply(s, e).wallets| == |s.wallets| + (if e.OpenWallet? then 1 else 0)
    ensures e.OpenWallet? ==> SolventWallet(Apply(s, e).wallets[|s.wallets|])
  {
    if Decide(s, e).Touch? || Decide(s, e).Append? { CommitWallets(s, Decide(s, e)); }
  }

  ghost predicate NoOverwrite(s: State, e: Event) { Admissible(s, e) && !Overwrites(e) }

  lemma StepSolvent(s: State, e: Event)
    requires Solvent(s) && PositiveAmounts(s) && NoOverwrite(s, e)
    ensures Solvent(Apply(s, e)) && PositiveAmounts(Apply(s, e))
  {
    StepWallets(s, e);
    if |s.wallets| == 0 { DecideMoney(s, e); }
    forall w | 0 <= w < |Apply(s, e).wallets| ensures SolventWallet(Apply(s, e).wallets[w]) {
      if w < |s.wallets| { StepPays(s, e, w); }
    }
    if |s.wallets| > 0 { StepPays(s, e, 0); }
  }

  /** Solvency over every run without balance overwrites, with any stray or repeated message. */
  lemma {:induction false} RunSolvent(s: State, es: seq<Event>)
    requires Solvent(s) && PositiveAmounts(s) && Along(s, es, NoOverwrite)
    ensures Solvent(Run(s, es)) && PositiveAmounts(Run(s, es))
  {
    if |es| > 0 {
      var n := |es| - 1;
      PrefixAlong(s, es, n, NoOverwrite);
      RunSolvent(s, es[..n]);
      assert NoOverwrite(Before(s, es, n), es[n]);
      StepSolvent(Run(s, es[..n]), es[n]);
    }
  }

  // ----- conservation -----

  /** What is in the wallet plus what its completed transfers took out of it. */
  function Worth(s: State, w: nat): int
    requires w < |s.wallets|
  {
    s.wallets[w].balance + PaidOut(s, w)
  }

  ghost predicate Conserves(s: State, s': State) {
    |s'.wallets| >= |s.wallets| && forall w :: 0 <= w < |s.wallets| ==> Worth(s', w) == Worth(s, w)
  }

  /** The steps that let a balance and the completed transfers drift apart: a creation the provider
      answers with the raw status "completed", a message that takes a bound transfer out of `completed`,
      and a COMPLETED webhook that deducts for a completed transfer or fails to for another one. */
  predicate Skews(s: State, e: Event) {
    if e.CreateFrom? then Decide(s, e).Append? && e.reply.status == Some("completed")
    else
      && Unguarded(e) && Target(s, e).Some?
      && var t := s.transfers[Target(s, e).value];
         && t.wallet.Some?
         && match e
            case Webhook(_, _, txStatus) =>
              (match OutcomeOf(txStatus)
               case OutCompleted => t.status.Completed? == Goes(s.wallets, DeductOf(t))
               case OutOther => false
               case _ => t.status.Completed?)
            case _ => t.status.Completed?
  }

  function Count(b: bool): int { if b then 1 else 0 }

  /** A rewrite of a bound row is skewed unless it deducts exactly when it newly completes. */
  predicate RowSkews(ws: seq<Wallet>, t: Transfer, next: Transfer, money: Money) {
    && t.wallet.Some?
    && Count(next.status.Completed?) - Count(t.status.Completed?) != Count(money.Deduct? && Goes(ws, money))
  }

  predicate PaysFor(t: Transfer, next: Transfer, money: Money) {
    && next.amount == t.amount
    && (money.Deduct? ==> money == DeductOf(t))
    && (next.wallet == t.wallet || (t.status != Completed && next.status != Completed && !money.Deduct?))
  }

  lemma ForPays(ws: seq<Wallet>, i: nat, t: Transfer, e: Event)
    requires DecideFor(ws, i, t, e).Touch?
    ensures var tx := DecideFor(ws, i, t, e); PaysFor(t, tx.next, tx.money)
  {}

  lemma SkewsIsRowSkews(s: State, e: Event)
    requires Decide(s, e).Touch?
    ensures var tx := Decide(s, e); Skews(s, e) <==> RowSkews(s.wallets, s.transfers[tx.row], tx.next, tx.money)
  {
    assert Decide(s, e) == DecideFor(s.wallets, Decide(s, e).row, s.transfers[Decide(s, e).row], e);
  }

  /** A rewrite moves the worth of a wallet exactly when the row is bound to it and skewed. */
  lemma TouchWorth(s: State, i: nat, next: Transfer, money: Money, w: nat)
    requires i < |s.transfers| && PaysFor(s.transfers[i], next, money) && w < |s.wallets|
    ensures var s', t := Commit(s, Touch(i, next, money)), s.transfers[i];
            && |s'.wallets| == |s.wallets|
            && (t.amount != 0 ==>
                  (Worth(s', w) != Worth(s, w) <==> t.wallet == Some(w) && RowSkews(s.wallets, t, next, money)))
            && (!RowSkews(s.wallets, t, next, money) ==> Worth(s', w) == Worth(s, w))
  {
    TouchPaidOut(s, Commit(s, Touch(i, next, money)), i, next, w);
  }

  lemma AppendWorth(s: State, t: Transfer, money: Money, w: nat)
    requires !money.Deduct? && w < |s.wallets|
    ensures var s' := Commit(s, Append(t, money));
            |s'.wallets| == |s.wallets| && Worth(s', w) == Worth(s, w) + CompletedShare(t, w)
  {
    AppendPaidOut(s, Commit(s, Append(t, money)), t, w);
  }

  lemma BornCompleted(s: State, e: Event)
    requires Decide(s, e).Append?
    ensures var tx := Decide(s, e);
            && !tx.money.Deduct?
            && (Skews(s, e) <==> tx.created.status == Completed)
            && (tx.created.status == Completed ==>
                  e.CreateFrom? && tx.created.amount == e.amount
                  && tx.created.wallet.Some? && tx.created.wallet.value < |s.wallets|)
  {
    if e.CreateFrom? && e.reply.status.Some? { CompletedWord(e.reply.status.value); }
  }

  lemma CompletedWord(raw: string)
    ensures StatusOf(raw) == Completed <==> raw == "completed"
  {}

  lemma StepConserves(s: State, e: Event)
    requires !Overwrites(e) && !Skews(s, e)
    ensures Conserves(s, Apply(s, e))
  {
    var tx := Decide(s, e);
    StepWallets(s, e);
    if tx.Touch? {
      ForPays(s.wallets, tx.row, s.transfers[tx.row], e);
      SkewsIsRowSkews(s, e);
      forall w | 0 <= w < |s.wallets| ensures Worth(Apply(s, e), w) == Worth(s, w) {
        TouchWorth(s, tx.row, tx.next, tx.money, w);
      }
    } else if tx.Append? {
      BornCompleted(s, e);
      forall w | 0 <= w < |s.wallets| ensures Worth(Apply(s, e), w) == Worth(s, w) {
        AppendWorth(s, tx.created, tx.money, w);
      }
    } else {
      forall w | 0 <= w < |s.wallets| ensures Worth(Apply(s, e), w) == Worth(s, w) {
        SameSums(s, Apply(s, e), w);
      }
    }
  }

  lemma SkewBreaks(s: State, e: Event)
    requires WellFormed(s) && NoOverwrite(s, e) && Skews(s, e)
    ensures !Conserves(s, Apply(s, e))
  {
    var tx := Decide(s, e);
    if tx.Touch? {
      var t := s.transfers[tx.row];
      assert TransferOk(s, t);
      ForPays(s.wallets, tx.row, t, e);
      SkewsIsRowSkews(s, e);
      TouchWorth(s, tx.row, tx.next, tx.money, t.wallet.value);
    } else {
      BornCompleted(s, e);
      AppendWorth(s, tx.created, tx.money, tx.created.wallet.value);
    }
  }

  /** One step keeps balance plus payouts of every wallet if and only if it does not skew them. */
  lemma StepConservesIff(s: State, e: Event)
    requires WellFormed(s) && NoOverwrite(s, e)
    ensures Conserves(s, Apply(s, e)) <==> !Skews(s, e)
  {
    if Skews(s, e) { SkewBreaks(s, e); } else { StepConserves(s, e); }
  }

  ghost predicate Unskewed(s: State, e: Event) { !Overwrites(e) && !Skews(s, e) }

  /** Money-out conservation, from any state whatever: over every run without overwrites and skewing
      steps each wallet's balance falls by exactly what the transfers bound to it that completed during
      the run amount to. */
  lemma {:induction false} RunConserves(s: State, es: seq<Event>, w: nat)
    requires Along(s, es, Unskewed) && w < |s.wallets|
    ensures w < |Run(s, es).wallets|
    ensures s.wallets[w].balance - Run(s, es).wallets[w].balance == PaidOut(Run(s, es), w) - PaidOut(s, w)
  {
    if |es| > 0 {
      var n := |es| - 1;
      PrefixAlong(s, es, n, Unskewed);
      RunConserves(s, es[..n], w);
      assert Unskewed(Before(s, es, n), es[n]);
      StepConserves(Run(s, es[..n]), es[n]);
      assert Worth(Apply(Run(s, es[..n]), es[n]), w) == Worth(Run(s, es[..n]), w);
    }
  }

  /** A repeated COMPLETED webhook skews: the balance falls, the payouts do not grow. */
  lemma RepeatedWebhookSkews()
    ensures var s, e := PaidAndOpen(), Webhook("tx", None, "COMPLETED");
            Inv(s) && NoOverwrite(s, e) && Skews(s, e) && !Conserves(s, Apply(s, e))
  {
    var s := PaidAndOpen();
    PaidAndOpenInv();
    var rows := ByProviderTx(s.transfers, "tx");
    assert 0 in rows && 1 !in rows;
    assert rows[0] == 0 && |rows| == 1;
    SkewBreaks(s, Webhook("tx", None, "COMPLETED"));
  }

  // ----- completions that no wallet pays for -----

  /** The step takes money out of a wallet. */
  predicate Pays(s: State, e: Event) {
    var tx := Decide(s, e);
    (tx.Touch? || tx.Append?) && tx.money.Deduct? && Goes(s.wallets, tx.money)
  }

  /** Transfer `i` is completed by the step, and no wallet pays for it. */
  predicate CompletesUnpaid(s: State, e: Event, i: nat) {
    && i < |Apply(s, e).transfers| && Apply(s, e).transfers[i].status.Completed?
    && (i < |s.transfers| ==> !s.transfers[i].status.Completed?)
    && !Pays(s, e)
  }

  /** The steps that do so: completing an open transfer without a wallet; a COMPLETED webhook for one, or for
      one whose deduction does not pass its guard; a creation answered with the raw status "completed". */
  predicate Unpaid(s: State, e: Event) {
    match e
    case CreateFrom(_, _, _, _, _, _, _, reply) => Decide(s, e).Append? && reply.status == Some("completed")
    case Complete(_) =>
      Target(s, e).Some? && var t := s.transfers[Target(s, e).value]; !t.status.IsFinal() && t.wallet.None?
    case Webhook(_, _, txStatus) =>
      && OutcomeOf(txStatus).OutCompleted? && Target(s, e).Some?
      && var t := s.transfers[Target(s, e).value];
         !t.status.Completed? && (t.wallet.None? || !Goes(s.wallets, DeductOf(t)))
    case _ => false
  }

  lemma ForUnpaid(ws: seq<Wallet>, i: nat, t: Transfer, e: Event)
    requires !t.status.Completed? && DecideFor(ws, i, t, e).Touch?
    ensures var tx := DecideFor(ws, i, t, e);
            tx.next.status.Completed? && !(tx.money.Deduct? && Goes(ws, tx.money)) <==>
            (e.Complete? && !t.status.IsFinal() && t.wallet.None?)
            || (e.Webhook? && OutcomeOf(e.txStatus).OutCompleted? && (t.wallet.None? || !Goes(ws, DeductOf(t))))
  {}

  lemma ForUnpaidIdle(ws: seq<Wallet>, i: nat, t: Transfer, e: Event)
    requires !DecideFor(ws, i, t, e).Touch?
    ensures !(e.Complete? && !t.status.IsFinal() && t.wallet.None?) && !e.Webhook?
  {}

  lemma TouchUnpaid(s: State, e: Event)
    requires Decide(s, e).Touch?
    ensures var row := Decide(s, e).row;
            Unpaid(s, e) <==> CompletesUnpaid(s, e, row)
  {
    var tx := Decide(s, e);
    var t := s.transfers[tx.row];
    assert tx == DecideFor(s.wallets, tx.row, t, e);
    TouchIsApplied(s, e);
    if !t.status.Completed? { ForUnpaid(s.wallets, tx.row, t, e); }
  }

  lemma IdleIsNotUnpaid(s: State, e: Event)
    requires Decide(s, e).Idle?
    ensures !Unpaid(s, e)
  {
    if Target(s, e).Some? { ForUnpaidIdle(s.wallets, Target(s, e).value, s.transfers[Target(s, e).value], e); }
  }

  lemma OthersKeepStatus(s: State, e: Event, i: nat)
    requires i < |s.transfers| && !(Decide(s, e).Touch? && Decide(s, e).row == i)
    ensures i < |Apply(s, e).transfers| && Apply(s, e).transfers[i] == s.transfers[i]
  {}

  lemma NewRows(s: State, e: Event)
    ensures |Apply(s, e).transfers| == |s.transfers| + if Decide(s, e).Append? then 1 else 0
    ensures Decide(s, e).Append? ==> Apply(s, e).transfers[|s.transfers|] == Decide(s, e).created && Target(s, e).None?
    ensures Decide(s, e).Append? ==> !Decide(s, e).money.Deduct?
  {}

  /** Exactly these steps complete a transfer that no wallet pays for, and it is the addressed one. */
  lemma UnpaidIff(s: State, e: Event, i: nat)
    ensures CompletesUnpaid(s, e, i) <==>
            Unpaid(s, e) && i == if Target(s, e).Some? then Target(s, e).value else |s.transfers|
  {
    var tx := Decide(s, e);
    NewRows(s, e);
    if i < |s.transfers| && !(tx.Touch? && tx.row == i) { OthersKeepStatus(s, e, i); }
    match tx
    case Idle => IdleIsNotUnpaid(s, e);
    case Touch(_, _, _) => TouchUnpaid(s, e);
    case Append(_, _) => BornCompleted(s, e);
  }

  // ----- timely runs -----

  /** No overwrite, no message about an already settled transfer, and a provider that does not
      answer with the service's own words for waiting and completed. */
  ghost predicate Timely(s: State, e: Event) {
    && NoOverwrite(s, e) && !Stray(s, e)
    && (e.CreateFrom? && e.reply.Accepted? ==> e.reply.status !in {Some("pending_balance"), Some("completed")})
  }

  ghost predicate NoCompletionStranded(s: State) {
    forall i :: i in s.stranded && i < |s.transfers| ==> s.transfers[i].status != Completed
  }

  ghost predicate Clean(s: State) {
    Inv(s) && Solvent(s) && NoCompletionStranded(s)
  }

  /** In a clean state every completion of a transfer that holds a reservation goes through. */
  lemma CompletionSucceeds(s: State, i: nat)
    requires Inv(s) && Solvent(s)
    requires i < |s.transfers| && s.transfers[i].wallet.Some? && Owing(s, i)
    ensures Goes(s.wallets, DeductOf(s.transfers[i]))
  {
    OwingIsCovered(s, i);
  }

  lemma TimelyIsHarmless(s: State, e: Event)
    requires Timely(s, e)
    ensures Harmless(s, e)
  {
    if e.CreateFrom? && Decide(s, e).Append? { AppendNeedsReply(s, e); }
  }

  lemma AppendNeedsReply(s: State, e: Event)
    requires e.CreateFrom? && Decide(s, e).Append?
    ensures e.reply.Accepted?
  {}

  /** Completing and deducting go together, and only unguarded handlers rewrite a final transfer. */
  lemma ForCompletes(ws: seq<Wallet>, i: nat, t: Transfer, e: Event)
    requires DecideFor(ws, i, t, e).Touch?
    ensures var tx := DecideFor(ws, i, t, e);
            && (tx.next.status == Completed && t.status != Completed ==>
                  tx.money == DeductOf(t) && tx.next.wallet == t.wallet)
            && (tx.money.Deduct? ==> tx.next.status == Completed && tx.money == DeductOf(t))
            && (t.status.IsFinal() ==> Unguarded(e))
            && (e.Webhook? && OutcomeOf(e.txStatus) == OutOther ==>
                  tx.next.status == t.status && tx.next.wallet == t.wallet && tx.money == NoMoney)
  {}

  lemma TouchStrandsNoCompletion(s: State, e: Event)
    requires Clean(s) && Timely(s, e) && Decide(s, e).Touch?
    ensures var tx := Decide(s, e);
            LeavesBehind(s, tx.row, tx.next, tx.money) ==> tx.next.status != Completed
  {
    var i := Target(s, e).value;
    var t := s.transfers[i];
    assert TransferOk(s, t);
    DecideTouchShape(s, e);
    ForCompletes(s.wallets, i, t, e);
    if t.wallet.Some? && Owing(s, i) { CompletionSucceeds(s, i); }
  }

  lemma BornUncompleted(s: State, e: Event)
    requires Timely(s, e) && Decide(s, e).Append?
    ensures Decide(s, e).created.status != Completed
  {
    BornCompleted(s, e);
    if e.CreateFrom? { AppendNeedsReply(s, e); }
  }

  /** From a clean state a timely event never skews, so timely runs conserve. */
  lemma TimelyIsUnskewed(s: State, e: Event)
    requires Clean(s) && Timely(s, e)
    ensures Unskewed(s, e)
  {
    if Target(s, e).Some? {
      var i := Target(s, e).value;
      if s.transfers[i].wallet.Some? && Owing(s, i) { CompletionSucceeds(s, i); }
    }
    if e.CreateFrom? && Decide(s, e).Append? { AppendNeedsReply(s, e); }
  }

  lemma CommitStrandsNoCompletion(s: State, tx: Tx)
    requires WellFormed(s) && NoCompletionStranded(s)
    requires tx.Touch? ==> tx.row < |s.transfers|
                           && (LeavesBehind(s, tx.row, tx.next, tx.money) ==> tx.next.status != Completed)
    requires tx.Append? ==> tx.created.status != Completed
    ensures NoCompletionStranded(Commit(s, tx))
  {}

  lemma StepStrandsNoCompletion(s: State, e: Event)
    requires Clean(s) && Timely(s, e)
    ensures NoCompletionStranded(Apply(s, e))
  {
    if Decide(s, e).Touch? { TouchStrandsNoCompletion(s, e); }
    if Decide(s, e).Append? { BornUncompleted(s, e); }
    CommitStrandsNoCompletion(s, Decide(s, e));
  }

  lemma StepClean(s: State, e: Event)
    requires Clean(s) && Timely(s, e)
    ensures Clean(Apply(s, e))
  {
    assert PositiveAmounts(s) by { assert forall i :: 0 <= i < |s.transfers| ==> TransferOk(s, s.transfers[i]); }
    StepSolvent(s, e);
    TimelyIsHarmless(s, e);
    StepExact(s, e);
    StepStrandsNoCompletion(s, e);
  }

  lemma OpenCompletes(s: State, e: Event)
    requires Clean(s) && Timely(s, e) && e.Complete?
    requires Target(s, e).Some? && !s.transfers[Target(s, e).value].status.IsFinal()
    ensures var i := Target(s, e).value;
            i < |Apply(s, e).transfers| && Apply(s, e).transfers[i].status == Completed
  {
    var i := Target(s, e).value;
    if s.transfers[i].wallet.Some? { CompletionSucceeds(s, i); }
    assert Decide(s, e) == CompleteTx(s.wallets, i, s.transfers[i]);
  }

  /** In such a run every request to complete a transfer that is still open succeeds. */
  lemma EveryCompletionSucceeds(s: State, es: seq<Event>, k: nat)
    requires Clean(s) && Along(s, es, Timely) && k < |es| && es[k].Complete?
    requires var now := Before(s, es, k);
             Target(now, es[k]).Some? && !now.transfers[Target(now, es[k]).value].status.IsFinal()
    ensures var now := Before(s, es, k);
            var i := Target(now, es[k]).value;
            i < |Apply(now, es[k]).transfers| && Apply(now, es[k]).transfers[i].status == Completed
  {
    PrefixAlong(s, es, k, Timely);
    RunClean(s, es[..k]);
    assert Timely(Before(s, es, k), es[k]);
    OpenCompletes(Before(s, es, k), es[k]);
  }

  lemma {:induction false} RunClean(s: State, es: seq<Event>)
    requires Clean(s) && Along(s, es, Timely)
    ensures Clean(Run(s, es))
  {
    if |es| > 0 {
      var n := |es| - 1;
      PrefixAlong(s, es, n, Timely);
      RunClean(s, es[..n]);
      assert Timely(Before(s, es, n), es[n]);
      StepClean(Run(s, es[..n]), es[n]);
    }
  }

  /** So every timely run from a clean state conserves money. */
  lemma TimelyRunIsUnskewed(s: State, es: seq<Event>)
    requires Clean(s) && Along(s, es, Timely)
    ensures Along(s, es, Unskewed)
  {
    forall k | 0 <= k < |es| ensures Unskewed(Before(s, es, k), es[k]) {
      PrefixAlong(s, es, k, Timely);
      RunClean(s, es[..k]);
      assert Timely(Before(s, es, k), es[k]);
      TimelyIsUnskewed(Before(s, es, k), es[k]);
    }
  }

  /** On timely runs from a clean state it is exactly the unbound transfers that complete unpaid. */
  lemma TimelyUnpaidIff(s: State, e: Event)
    requires Clean(s) && Timely(s, e)
    ensures Unpaid(s, e) <==>
            && (e.Complete? || (e.Webhook? && OutcomeOf(e.txStatus).OutCompleted?)) && Target(s, e).Some?
            && var t := s.transfers[Target(s, e).value];
               t.wallet.None? && !t.status.Completed? && (e.Complete? ==> !t.status.IsFinal())
  {
    if Target(s, e).Some? {
      var i := Target(s, e).value;
      if s.transfers[i].wallet.Some? && Owing(s, i) { CompletionSucceeds(s, i); }
    }
    if e.CreateFrom? && Decide(s, e).Append? { AppendNeedsReply(s, e); }
  }

  /** One transfer that waits for balance. */
  function WaitingOne(status: Status, tx: Option<string>): State {
    State([], [], [Wallet(0, 0, 10, 0)], [Transfer("t", 5, "TRON", None, status, None, tx, 0)], {})
  }

  lemma WaitingOneIsClean(status: Status, tx: Option<string>)
    requires status in {PendingBalance, Broadcasting}
    ensures Clean(WaitingOne(status, tx))
  {
    var s := WaitingOne(status, tx);
    assert LiveShares(s, 0) == [0] && StrandedShares(s, 0) == [0];
    TotalZero([0]);
  }

  lemma OnlyRequest(status: Status, tx: Option<string>)
    ensures Lookup(WaitingOne(status, tx), "t") == Some(0)
    ensures tx == Some("tx") ==> FindTransfer(WaitingOne(status, tx), "tx", None) == Some(0)
  {
    var ts := WaitingOne(status, tx).transfers;
    var rows := ByRequest(ts, "t");
    assert 0 in rows && rows[0] == 0 && |rows| == 1;
    if tx == Some("tx") {
      var found := ByProviderTx(ts, "tx");
      assert 0 in found && found[0] == 0 && |found| == 1;
    }
  }

  const APPROVED := ApprovedMessage("t", true, Accepted(Some("tx"), None))
  const COMPLETED := Webhook("tx", None, "COMPLETED")

  lemma WaitingIsBroadcast()
    ensures var s := WaitingOne(PendingBalance, None);
            Timely(s, APPROVED) && Apply(s, APPROVED) == WaitingOne(Broadcasting, Some("tx"))
  {
    var s := WaitingOne(PendingBalance, None);
    OnlyRequest(PendingBalance, None);
    assert Decide(s, APPROVED) == ApprovedMessageTx(0, s.transfers[0], true, Accepted(Some("tx"), None));
  }

  lemma BroadcastIsCompleted()
    ensures var s := WaitingOne(Broadcasting, Some("tx"));
            Timely(s, COMPLETED) && CompletesUnpaid(s, COMPLETED, 0) && Apply(s, COMPLETED).wallets == s.wallets
  {
    var s := WaitingOne(Broadcasting, Some("tx"));
    OnlyRequest(Broadcasting, Some("tx"));
    UnpaidIff(s, COMPLETED, 0);
    assert Decide(s, COMPLETED) == WebhookTx(0, s.transfers[0], "tx", OutCompleted);
  }

  /** The approved consumer broadcasts a transfer that still waits for balance; when the provider reports it
      completed, the service records that and no wallet has paid. */
  lemma WaitingTransferCompletesUnpaid()
    ensures var s0 := WaitingOne(PendingBalance, None);
            var s1 := Apply(s0, APPROVED);
            && Clean(s0) && Timely(s0, APPROVED) && Clean(s1) && Timely(s1, COMPLETED)
            && CompletesUnpaid(s1, COMPLETED, 0) && Apply(s1, COMPLETED).wallets == s0.wallets
  {
    WaitingOneIsClean(PendingBalance, None);
    WaitingOneIsClean(Broadcasting, Some("tx"));
    WaitingIsBroadcast();
    BroadcastIsCompleted();
  }

  // ----- transfers between own vaults -----

  /** The balance the source is charged from: the destination is written first, and may be the source. */
  function ChargedFrom(s: State, w: nat, dest: nat, amount: int): int
    requires w < |s.wallets|
  {
    if dest == w then amount else s.wallets[w].balance
  }

  lemma MovedSource(s: State, w: nat, dest: nat, amount: int)
    requires w < |s.wallets| && dest < |s.wallets|
    ensures var s', left := Apply(s, MoveInternally(dest, amount, Some(w))), ChargedFrom(s, w, dest, amount) - amount;
            && |s'.wallets| == |s.wallets| && s'.transfers == s.transfers
            && s'.wallets[w].balance == (if left < 0 then 0 else left)
            && s'.wallets[w].pending == s.wallets[w].pending
  {}

  lemma FoundByRequest(s: State, i: nat)
    requires WellFormed(s) && i < |s.transfers|
    ensures Lookup(s, s.transfers[i].requestId) == Some(i)
  {
    OneIff(s.transfers, Requested(s.transfers[i].requestId), i);
  }

  /** Completing an open bound transfer goes through exactly when the deduction does. */
  lemma CompleteBound(s: State, i: nat)
    requires i < |s.transfers| && Lookup(s, s.transfers[i].requestId) == Some(i)
    requires !s.transfers[i].status.IsFinal() && s.transfers[i].wallet.Some?
    ensures var t, after := s.transfers[i], Apply(s, Complete(s.transfers[i].requestId));
            && |after.wallets| == |s.wallets| && |after.transfers| == |s.transfers|
            && (after.transfers[i].status.Completed? <==> Goes(s.wallets, DeductOf(t)))
            && (!Goes(s.wallets, DeductOf(t)) ==> after == s)
            && (Goes(s.wallets, DeductOf(t)) ==>
                  after.wallets[t.wallet.value].balance == s.wallets[t.wallet.value].balance - t.amount)
  {
    var t := s.transfers[i];
    assert Decide(s, Complete(t.requestId)) == CompleteTx(s.wallets, i, t);
  }

  lemma MovedCovers(s: State, i: nat, dest: nat, amount: int)
    requires Inv(s) && i < |s.transfers| && !s.transfers[i].status.IsFinal() && s.transfers[i].wallet.Some?
    requires dest < |s.wallets|
    ensures var t, w := s.transfers[i], s.transfers[i].wallet.value;
            && w < |s.wallets|
            && (Goes(Apply(s, MoveInternally(dest, amount, Some(w))).wallets, DeductOf(t)) <==>
                  ChargedFrom(s, w, dest, amount) >= amount + t.amount)
  {
    assert TransferOk(s, s.transfers[i]);
    MovedSource(s, s.transfers[i].wallet.value, dest, amount);
    OwingIsCovered(s, i);
  }

  /** The webhook of a transfer between own vaults only moves balances; the transfer stays open with its
      reservation. It can still be completed exactly when the source covers the amount once more, and then the
      source pays twice. */
  lemma InternalCompletionIff(s: State, i: nat, dest: nat, amount: int)
    requires Inv(s) && i < |s.transfers| && !s.transfers[i].status.IsFinal() && s.transfers[i].wallet.Some?
    requires dest < |s.wallets|
    ensures var t, w := s.transfers[i], s.transfers[i].wallet.value;
            var moved := Apply(s, MoveInternally(dest, amount, Some(w)));
            var after := Apply(moved, Complete(t.requestId));
            && w < |s.wallets| && |after.wallets| == |s.wallets| && |after.transfers| == |s.transfers|
            && moved.transfers == s.transfers && moved.wallets[w].pending == s.wallets[w].pending
            && (after.transfers[i].status.Completed? <==> ChargedFrom(s, w, dest, amount) >= amount + t.amount)
            && (after.transfers[i].status.Completed? ==>
                  after.wallets[w].balance == ChargedFrom(s, w, dest, amount) - amount - t.amount)
            && (!after.transfers[i].status.Completed? ==> after == moved)
  {
    var w := s.transfers[i].wallet.value;
    MovedCovers(s, i, dest, amount);
    MovedSource(s, w, dest, amount);
    var moved := Apply(s, MoveInternally(dest, amount, Some(w)));
    SameRowsFound(s, moved, i);
    CompleteBound(moved, i);
  }

  lemma SameRowsFound(s: State, s': State, i: nat)
    requires WellFormed(s) && s'.transfers == s.transfers && i < |s.transfers|
    ensures Lookup(s', s.transfers[i].requestId) == Some(i)
  {
    FoundByRequest(s, i);
  }

  /** Six of ten units on their way to another vault. */
  function OnItsWay(balance: int, arrived: int): State {
    State([], [], [Wallet(0, 0, balance, 6), Wallet(1, 0, arrived, 0)],
          [Transfer("t", 6, "TRON", None, Signing, Some(0), Some("tx"), 0)], {})
  }

  lemma OnItsWayInv()
    ensures Inv(OnItsWay(10, 0))
  {
    var s := OnItsWay(10, 0);
    assert LiveShares(s, 0) == [0][0 := 6];
    TotalZero([0]);
    TotalUpdate([0], 0, 6);
    TotalZero(StrandedShares(s, 0));
    TotalZero(LiveShares(s, 1));
    TotalZero(StrandedShares(s, 1));
  }

  /** The money has arrived, yet the transfer can no longer be completed and its reservation stays. */
  lemma ArrivedTransferIsStuck()
    ensures var s, moved := OnItsWay(10, 0), OnItsWay(4, 6);
            && Inv(s) && Apply(s, MoveInternally(1, 6, Some(0))) == moved && Apply(moved, Complete("t")) == moved
  {
    var s := OnItsWay(10, 0);
    OnItsWayInv();
    InternalCompletionIff(s, 0, 1, 6);
    assert Apply(s, MoveInternally(1, 6, Some(0))).wallets == OnItsWay(4, 6).wallets;
  }
}
