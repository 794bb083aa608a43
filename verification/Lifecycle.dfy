/** The life of one transfer over whole runs: final states absorb, a reservation is made at most
    once and given up at most once, and a binding never changes. */
module Lifecycle {
  import opened Basics
  import opened Ledger
  import opened Steps
  import opened ExactLedger

  // ----- final states absorb -----

  ghost predicate GuardedStep(s: State, e: Event) { !Unguarded(e) }

  /** A step with a status guard leaves every final transfer exactly as it was. */
  lemma GuardedKeepsFinal(s: State, e: Event, i: nat)
    requires !Unguarded(e) && i < |s.transfers| && s.transfers[i].status.IsFinal()
    ensures i < |Apply(s, e).transfers| && Apply(s, e).transfers[i] == s.transfers[i]
    ensures i in Apply(s, e).stranded <==> i in s.stranded
  {
    if Target(s, e) == Some(i) { GuardsStopAtFinal(s.wallets, i, s.transfers[i], e); }
  }

  lemma GuardsStopAtFinal(ws: seq<Wallet>, i: nat, t: Transfer, e: Event)
    requires !Unguarded(e) && t.status.IsFinal()
    ensures DecideFor(ws, i, t, e) == Idle
  {}

  /** Over every run of create, approve, reject, complete, cancel, queue passes and the approved
      consumer a final transfer keeps its row, and its reservation stays as it is. */
  lemma {:induction false} FinalIsAbsorbing(s: State, es: seq<Event>, i: nat)
    requires Along(s, es, GuardedStep)
    requires i < |s.transfers| && s.transfers[i].status.IsFinal()
    ensures i < |Run(s, es).transfers| && Run(s, es).transfers[i] == s.transfers[i]
    ensures i in Run(s, es).stranded <==> i in s.stranded
  {
    if |es| > 0 {
      var n := |es| - 1;
      PrefixAlong(s, es, n, GuardedStep);
      FinalIsAbsorbing(s, es[..n], i);
      assert GuardedStep(Before(s, es, n), es[n]);
      GuardedKeepsFinal(Run(s, es[..n]), es[n], i);
    }
  }

  /** Guarded steps satisfy the hypothesis of the exact ledger, save for the provider's word. */
  lemma GuardedIsHarmless(s: State, e: Event)
    requires Admissible(s, e) && !Unguarded(e)
    requires e.CreateFrom? && e.reply.Accepted? ==> e.reply.status != Some("pending_balance")
    ensures Harmless(s, e)
  {
    if e.CreateFrom? && Decide(s, e).Append? { assert e.reply.Accepted?; }
  }

  // ----- given up at most once -----

  /** The transfer whose reservation a step releases or deducts. */
  function Settles(s: State, e: Event): (r: Option<nat>)
    ensures r.Some? ==> r.value < |s.transfers|
  {
    var tx := Decide(s, e);
    if tx.Touch? && (tx.money.Release? || tx.money.Deduct?) && Goes(s.wallets, tx.money)
    then Some(tx.row) else None
  }

  lemma PayingSettles(s: State, i: nat, next: Transfer, money: Money)
    requires i < |s.transfers| && TouchShape(s, s.transfers[i], next, money)
    requires (money.Release? || money.Deduct?) && Goes(s.wallets, money)
    ensures var s' := Commit(s, Touch(i, next, money));
            i < |s'.transfers| && Settled(s', i)
  {}

  lemma SettlingSettles(s: State, e: Event)
    requires Inv(s) && Harmless(s, e) && Settles(s, e).Some?
    ensures var i := Settles(s, e).value;
            !Settled(s, i) && i < |Apply(s, e).transfers| && Settled(Apply(s, e), i)
  {
    var tx := Decide(s, e);
    DecideTouchShape(s, e);
    UndoesIsHarmful(s, e);
    PayingSettles(s, tx.row, tx.next, tx.money);
    TouchIsApplied(s, e);
  }

  /** A step leaves the row and the history of every transfer it does not address alone. */
  lemma OtherRowsStay(s: State, e: Event, i: nat)
    requires i < |s.transfers| && !(Decide(s, e).Touch? && Decide(s, e).row == i)
    ensures i < |Apply(s, e).transfers| && Apply(s, e).transfers[i] == s.transfers[i]
    ensures i in Apply(s, e).stranded <==> i in s.stranded
  {}

  predicate SettledAt(s: State, i: nat) { i < |s.transfers| && Settled(s, i) }

  lemma SettledStays(s: State, e: Event, i: nat)
    requires Inv(s) && Harmless(s, e) && SettledAt(s, i)
    ensures SettledAt(Apply(s, e), i)
  {
    if Decide(s, e).Touch? && Decide(s, e).row == i {
      DecideTouchShape(s, e);
      UndoesIsHarmful(s, e);
    } else {
      OtherRowsStay(s, e, i);
    }
  }

  lemma {:induction false} SettledStaysAlong(s: State, es: seq<Event>, j: nat, k: nat, i: nat)
    requires Inv(s) && Along(s, es, Harmless) && j <= k <= |es|
    requires SettledAt(Before(s, es, j), i)
    ensures SettledAt(Before(s, es, k), i)
    decreases k
  {
    if j < k {
      SettledStaysAlong(s, es, j, k - 1, i);
      InvBefore(s, es, k - 1);
      BeforeNext(s, es, k - 1);
      SettledStays(Before(s, es, k - 1), es[k - 1], i);
    }
  }

  lemma InvBefore(s: State, es: seq<Event>, k: nat)
    requires Inv(s) && Along(s, es, Harmless) && k <= |es|
    ensures Inv(Before(s, es, k))
    ensures k < |es| ==> Harmless(Before(s, es, k), es[k])
  {
    PrefixAlong(s, es, k, Harmless);
    RunExact(s, es[..k]);
  }

  /** No two steps of a harmless run release or deduct for the same transfer. */
  lemma SettledAtMostOnce(s: State, es: seq<Event>, j: nat, k: nat)
    requires Inv(s) && Along(s, es, Harmless) && j < k < |es|
    requires Settles(Before(s, es, j), es[j]).Some?
    ensures Settles(Before(s, es, k), es[k]) != Settles(Before(s, es, j), es[j])
  {
    var i := Settles(Before(s, es, j), es[j]).value;
    InvBefore(s, es, j);
    InvBefore(s, es, k);
    SettlingSettles(Before(s, es, j), es[j]);
    BeforeNext(s, es, j);
    SettledStaysAlong(s, es, j + 1, k, i);
    if Settles(Before(s, es, k), es[k]) == Some(i) {
      SettlingSettles(Before(s, es, k), es[k]);
    }
  }

  // ----- bound at most once -----

  /** Any event at all, stray ones included, except a provider that answers "pending_balance". */
  ghost predicate AnyEvent(s: State, e: Event) {
    Admissible(s, e) && (e.CreateFrom? && e.reply.Accepted? ==> e.reply.status != Some("pending_balance"))
  }

  lemma AppendWellFormedAlways(s: State, e: Event)
    requires WellFormed(s) && AnyEvent(s, e) && Decide(s, e).Append?
    ensures WellFormed(Apply(s, e))
  {
    var tx := Decide(s, e);
    DecideAppendShape(s, e);
    AppendWellFormed(s, tx.created, tx.money);
    assert e.CreateFrom? ==> e.reply.Accepted?;
    AppendHarm(s, e);
  }

  /** Waiting transfers are unbound, reserved ones and those awaiting approval are bound. This
      holds after every event, without any hypothesis about stray messages. */
  lemma StepWellFormed(s: State, e: Event)
    requires WellFormed(s) && AnyEvent(s, e)
    ensures WellFormed(Apply(s, e))
  {
    var tx := Decide(s, e);
    if tx.Touch? {
      DecideTouchShape(s, e);
      TouchWellFormed(s, tx.row, tx.next, tx.money);
    } else if tx.Append? {
      AppendWellFormedAlways(s, e);
    } else {
      assert |Apply(s, e).wallets| >= |s.wallets|;
      forall i | 0 <= i < |s.transfers| ensures TransferOk(Apply(s, e), s.transfers[i]) {
        assert TransferOk(s, s.transfers[i]);
      }
    }
  }

  lemma {:induction false} RunWellFormed(s: State, es: seq<Event>)
    requires WellFormed(s) && Along(s, es, AnyEvent)
    ensures WellFormed(Run(s, es))
  {
    if |es| > 0 {
      var n := |es| - 1;
      PrefixAlong(s, es, n, AnyEvent);
      RunWellFormed(s, es[..n]);
      assert AnyEvent(Before(s, es, n), es[n]);
      StepWellFormed(Run(s, es[..n]), es[n]);
    }
  }

  lemma StepKeepsBinding(s: State, e: Event, i: nat)
    requires WellFormed(s) && AnyEvent(s, e) && i < |s.transfers|
    ensures i < |Apply(s, e).transfers|
    ensures var t, t' := s.transfers[i], Apply(s, e).transfers[i];
            t'.requestId == t.requestId && t'.amount == t.amount && (t.wallet.Some? ==> t'.wallet == t.wallet)
  {
    if Decide(s, e).Touch? { DecideTouchShape(s, e); }
  }

  /** A binding is written once: over every run a bound transfer keeps its wallet and its amount. */
  lemma {:induction false} BindingIsWriteOnce(s: State, es: seq<Event>, i: nat)
    requires WellFormed(s) && Along(s, es, AnyEvent) && i < |s.transfers|
    ensures i < |Run(s, es).transfers|
    ensures var t, t' := s.transfers[i], Run(s, es).transfers[i];
            t'.requestId == t.requestId && t'.amount == t.amount && (t.wallet.Some? ==> t'.wallet == t.wallet)
  {
    if |es| > 0 {
      var n := |es| - 1;
      PrefixAlong(s, es, n, AnyEvent);
      BindingIsWriteOnce(s, es[..n], i);
      RunWellFormed(s, es[..n]);
      assert AnyEvent(Before(s, es, n), es[n]);
      StepKeepsBinding(Run(s, es[..n]), es[n], i);
    }
  }

  /** The transfer a step reserves balance for. */
  function Reserves(s: State, e: Event): Option<nat> {
    match Decide(s, e)
    case Idle => None
    case Touch(i, _, money) => if money.Reserve? then Some(i) else None
    case Append(_, money) => if money.Reserve? then Some(|s.transfers|) else None
  }

  lemma ReservingBinds(s: State, e: Event)
    requires WellFormed(s) && AnyEvent(s, e) && Reserves(s, e).Some?
    ensures var i := Reserves(s, e).value;
            && (i < |s.transfers| ==> s.transfers[i].wallet.None?)
            && i < |Apply(s, e).transfers| && Apply(s, e).transfers[i].wallet.Some?
  {
    if Decide(s, e).Touch? { DecideTouchShape(s, e); } else { DecideAppendShape(s, e); }
  }

  predicate BoundAt(s: State, i: nat) { i < |s.transfers| && s.transfers[i].wallet.Some? }

  lemma BoundStays(s: State, e: Event, i: nat)
    requires WellFormed(s) && AnyEvent(s, e) && BoundAt(s, i)
    ensures BoundAt(Apply(s, e), i)
  {
    StepKeepsBinding(s, e, i);
  }

  lemma {:induction false} BoundStaysAlong(s: State, es: seq<Event>, j: nat, k: nat, i: nat)
    requires WellFormed(s) && Along(s, es, AnyEvent) && j <= k <= |es|
    requires BoundAt(Before(s, es, j), i)
    ensures BoundAt(Before(s, es, k), i)
    decreases k
  {
    if j < k {
      BoundStaysAlong(s, es, j, k - 1, i);
      WellFormedBefore(s, es, k - 1);
      BeforeNext(s, es, k - 1);
      BoundStays(Before(s, es, k - 1), es[k - 1], i);
    }
  }

  lemma WellFormedBefore(s: State, es: seq<Event>, k: nat)
    requires WellFormed(s) && Along(s, es, AnyEvent) && k <= |es|
    ensures WellFormed(Before(s, es, k))
    ensures k < |es| ==> AnyEvent(Before(s, es, k), es[k])
  {
    PrefixAlong(s, es, k, AnyEvent);
    RunWellFormed(s, es[..k]);
  }

  /** A transfer reserves balance at most once in any run. */
  lemma ReservesAtMostOnce(s: State, es: seq<Event>, j: nat, k: nat)
    requires WellFormed(s) && Along(s, es, AnyEvent) && j < k < |es|
    requires Reserves(Before(s, es, j), es[j]).Some?
    ensures Reserves(Before(s, es, k), es[k]) != Reserves(Before(s, es, j), es[j])
  {
    var i := Reserves(Before(s, es, j), es[j]).value;
    WellFormedBefore(s, es, j);
    WellFormedBefore(s, es, k);
    ReservingBinds(Before(s, es, j), es[j]);
    BeforeNext(s, es, j);
    BoundStaysAlong(s, es, j + 1, k, i);
    if Reserves(Before(s, es, k), es[k]) == Some(i) {
      ReservingBinds(Before(s, es, k), es[k]);
    }
  }

  /** Approving never changes anything in a reachable state: whatever awaits approval already holds
      its reservation, and the endpoint does not even record the new status. */
  lemma ApproveChangesNothing(s: State, es: seq<Event>, requestId: string, sel: Selection)
    requires WellFormed(s) && Along(s, es, AnyEvent)
    ensures Apply(Run(s, es), Approve(requestId, sel)) == Run(s, es)
  {
    RunWellFormed(s, es);
    var s' := Run(s, es);
    var i := Lookup(s', requestId);
    if i.Some? { assert TransferOk(s', s'.transfers[i.value]); }
  }

  // ----- where reservations are left behind -----

  /** The four ways a live reservation stays on its wallet after its transfer became final; the fifth is to be
      born final, below. */
  predicate Strands(s: State, e: Event, t: Transfer) {
    match e
    case Reject(_) => t.status != Pending
    case Cancel(_) => t.status == PendingApproval
    case ApprovedMessage(_, signed, reply) => signed && reply.Refused? && t.status.IsCancellable()
    case Webhook(_, _, txStatus) => OutcomeOf(txStatus) == OutCompleted && !Goes(s.wallets, DeductOf(t))
    case _ => false
  }

  lemma ForStrands(s: State, i: nat, e: Event)
    requires i < |s.transfers| && !s.transfers[i].status.IsFinal() && TransferOk(s, s.transfers[i])
    requires s.transfers[i].wallet.Some? ==> Goes(s.wallets, ReleaseOf(s.transfers[i]))
    ensures var t := s.transfers[i];
            var tx := DecideFor(s.wallets, i, t, e);
            (tx.Touch? && LeavesBehind(s, i, tx.next, tx.money)) <==> (t.wallet.Some? && Strands(s, e, t))
  {}

  lemma StrandsIfTouched(s: State, e: Event, i: nat)
    requires Inv(s) && i < |s.transfers| && !s.transfers[i].status.IsFinal()
    requires Decide(s, e).Touch? && Decide(s, e).row == i
    ensures i in Apply(s, e).stranded <==> s.transfers[i].wallet.Some? && Strands(s, e, s.transfers[i])
  {
    assert TransferOk(s, s.transfers[i]);
    if s.transfers[i].wallet.Some? { OwingIsCovered(s, i); }
    TouchIsApplied(s, e);
    ForStrands(s, i, e);
  }

  lemma StrandsIfNot(s: State, e: Event, i: nat)
    requires Inv(s) && i < |s.transfers| && !s.transfers[i].status.IsFinal()
    requires !(Decide(s, e).Touch? && Decide(s, e).row == i)
    ensures i !in Apply(s, e).stranded
    ensures !(Target(s, e) == Some(i) && s.transfers[i].wallet.Some? && Strands(s, e, s.transfers[i]))
  {
    assert TransferOk(s, s.transfers[i]);
    if s.transfers[i].wallet.Some? { OwingIsCovered(s, i); }
    OtherRowsStay(s, e, i);
    if Target(s, e) == Some(i) { ForStrands(s, i, e); }
  }

  const FINAL_WORDS := {"completed", "rejected", "failed", "cancelled"}

  /** A creation that the provider answers with the raw word for a final status. */
  predicate BornFinal(s: State, e: Event) {
    e.CreateFrom? && Decide(s, e).Append? && e.reply.status.Some? && e.reply.status.value in FINAL_WORDS
  }

  lemma FinalWord(raw: string)
    ensures StatusOf(raw).IsFinal() <==> raw in FINAL_WORDS
  {}

  lemma BornFinalIff(s: State, e: Event)
    requires Decide(s, e).Append?
    ensures var t := Decide(s, e).created;
            BornFinal(s, e) <==> t.status.IsFinal() && t.wallet.Some?
  {
    if e.CreateFrom? && e.reply.status.Some? { FinalWord(e.reply.status.value); }
  }

  /** The step leaves the reservation of transfer `i` behind. */
  predicate NewlyStranded(s: State, e: Event, i: nat) { i in Apply(s, e).stranded && i !in s.stranded }

  /** A final transfer whose reservation is gone cannot leave one behind. */
  lemma SettledNeverStrands(s: State, e: Event, i: nat)
    requires i < |s.transfers| && s.transfers[i].status.IsFinal() && i !in s.stranded
    ensures i !in Apply(s, e).stranded
  {
    if Decide(s, e).Touch? || Decide(s, e).Append? { TouchIsApplied(s, e); }
  }

  lemma NewRowStrandsIff(s: State, e: Event, i: nat)
    requires WellFormed(s) && i >= |s.transfers|
    ensures i in Apply(s, e).stranded <==> i == |s.transfers| && BornFinal(s, e)
  {
    if Decide(s, e).Append? {
      TouchIsApplied(s, e);
      BornFinalIff(s, e);
    } else if Decide(s, e).Touch? {
      TouchIsApplied(s, e);
    }
  }

  /** For every row after the step, old or new: exactly these leave a reservation behind. */
  lemma StrandsExactly(s: State, e: Event, i: nat)
    requires Inv(s) && Admissible(s, e)
    ensures NewlyStranded(s, e, i) <==>
            || (i == |s.transfers| && BornFinal(s, e))
            || (&& i < |s.transfers| && Target(s, e) == Some(i) && !s.transfers[i].status.IsFinal()
                && s.transfers[i].wallet.Some? && Strands(s, e, s.transfers[i]))
  {
    if i >= |s.transfers| {
      NewRowStrandsIff(s, e, i);
    } else if s.transfers[i].status.IsFinal() {
      if i !in s.stranded { SettledNeverStrands(s, e, i); }
    } else if Decide(s, e).Touch? && Decide(s, e).row == i {
      StrandsIfTouched(s, e, i);
    } else {
      StrandsIfNot(s, e, i);
    }
  }

  /** One transfer that was created with its reservation and awaits approval. */
  function AwaitingApproval(status: Status, stranded: set<nat>): State {
    State([], [], [Wallet(0, 0, 10, 5)], [Transfer("t", 5, "TRON", None, status, Some(0), None, 0)], stranded)
  }

  lemma AwaitingInv()
    ensures Inv(AwaitingApproval(PendingApproval, {}))
  {
    var s := AwaitingApproval(PendingApproval, {});
    assert LiveShares(s, 0) == [0][0 := 5] && StrandedShares(s, 0) == [0];
    TotalZero([0]);
    TotalUpdate([0], 0, 5);
  }

  /** Cancelling it succeeds and leaves its reservation on the wallet. */
  lemma CancelLeavesReservation()
    ensures var s := AwaitingApproval(PendingApproval, {});
            && Inv(s) && Strands(s, Cancel("t"), s.transfers[0])
            && Apply(s, Cancel("t")) == AwaitingApproval(Cancelled, {0})
  {
    var s := AwaitingApproval(PendingApproval, {});
    AwaitingInv();
    var rows := ByRequest(s.transfers, "t");
    assert 0 in rows && rows[0] == 0 && |rows| == 1;
    StrandsExactly(s, Cancel("t"), 0);
    assert Apply(s, Cancel("t")).transfers == [s.transfers[0].(status := Cancelled)];
  }

  /** A wallet of an asset in a vault, and the transfer a creation from it leaves. */
  function OneWallet(pending: int, created: seq<Transfer>, stranded: set<nat>): State {
    State([Vault(Hot, true, true)], [Asset("TRON", None)], [Wallet(0, 0, 10, pending)], created, stranded)
  }

  const BORN := CreateFrom("t", 6, 0, 0, None, None, true, Accepted(Some("tx"), Some("failed")))

  lemma OneWalletInv()
    ensures Inv(OneWallet(0, [], {}))
  {
    var s := OneWallet(0, [], {});
    TotalZero(LiveShares(s, 0));
    TotalZero(StrandedShares(s, 0));
  }

  lemma BornDecision()
    ensures var s := OneWallet(0, [], {});
            Decide(s, BORN) == Append(Transfer("t", 6, "TRON", None, Failed, Some(0), Some("tx"), 0), Reserve(0, 6))
  {
    var s := OneWallet(0, [], {});
    var rows := WalletsOf(s.wallets, 0, 0);
    assert 0 in rows && rows[0] == 0 && |rows| == 1;
    assert ByRequest(s.transfers, "t") == [];
  }

  /** The provider answers a creation with "failed": the transfer is final and its reservation stays. */
  lemma BirthLeavesReservation()
    ensures var s := OneWallet(0, [], {});
            && Inv(s) && Admissible(s, BORN) && !Harmful(s, BORN) && BornFinal(s, BORN)
            && Apply(s, BORN) == OneWallet(6, [Transfer("t", 6, "TRON", None, Failed, Some(0), Some("tx"), 0)], {0})
  {
    OneWalletInv();
    BornDecision();
    TouchIsApplied(OneWallet(0, [], {}), BORN);
  }
}
