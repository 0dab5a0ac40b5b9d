/** What holds in every state a run can reach, in the terms the services promise it. */
module BillingTheorems {
  import opened Wrappers
  import opened Money
  import opened Bank
  import opened LedgerTotals
  import opened BankInvariant
  import opened LedgerLaw
  import opened Purchases
  import opened Refunds
  import opened Disputes
  import opened Charging
  import opened WholeAmounts
  import opened BillingRuns
  import Pricing

  /** reservedBalance is the sum of the wallet's active reservations, so taking any of them off
      never meets the clamp at zero. */
  lemma ReservedIsActiveHolds(ops: seq<Op>, s: System, t: TenantId)
    requires Reaches(ops, s) && t in BankOf(s).wallets
    ensures BankOf(s).wallets[t].reserved == HoldTotal(BankOf(s).holds, t, Reserved)
    ensures forall i ::
      0 <= i < |BankOf(s).holds| && BankOf(s).holds[i].tenant == t && BankOf(s).holds[i].status == Held ==>
      Unreserved(BankOf(s).wallets[t], BankOf(s).holds[i]).reserved
        == BankOf(s).wallets[t].reserved - BankOf(s).holds[i].amount
  {
    hide Inv, PurchaseInv, RefundInv, DeskInv, ReversalInv, MeterInv, Reaches;
    RunSound(ops, s);
    WalletOfBalances(BankOf(s), t);
    forall i | 0 <= i < |BankOf(s).holds| && BankOf(s).holds[i].tenant == t && BankOf(s).holds[i].status == Held
      ensures Unreserved(BankOf(s).wallets[t], BankOf(s).holds[i]).reserved
           == BankOf(s).wallets[t].reserved - BankOf(s).holds[i].amount
    {
      BooksOf(BankOf(s), i);
      ClampNeverBites(BankOf(s), i);
    }
  }

  /** A wallet is overdrawn only by charges beyond their holds and by non-usage debits. */
  lemma OverdraftBounded(ops: seq<Op>, s: System, t: TenantId)
    requires Reaches(ops, s) && t in BankOf(s).wallets
    ensures var w := BankOf(s).wallets[t];
      w.balance - w.reserved >= -(HoldTotal(BankOf(s).holds, t, Overrun) + Total(BankOf(s).ledger, t, NonUsageDebit))
  {
    hide Inv, PurchaseInv, RefundInv, DeskInv, ReversalInv, MeterInv, Reaches;
    RunSound(ops, s);
    WalletOfBalances(BankOf(s), t);
  }

  /** Each reservation yields at most one usage charge, and only by being finalized. */
  lemma HoldChargedAtMostOnce(ops: seq<Op>, s: System, i: nat, j: nat)
    requires Reaches(ops, s) && i < |BankOf(s).ledger| && j < |BankOf(s).ledger|
    requires BankOf(s).ledger[i].kind == UsageCharge && BankOf(s).ledger[j].kind == UsageCharge
    ensures BankOf(s).ledger[i].origin == BankOf(s).ledger[j].origin ==> i == j
    ensures var o := BankOf(s).ledger[i].origin;
      o.ForHold? && o.hold < |BankOf(s).holds| && BankOf(s).holds[o.hold].status == Finalized
  {
    hide PurchaseInv, RefundInv, DeskInv, ReversalInv, MeterInv, Reaches;
    RunSound(ops, s);
  }

  /** Rows are only added, and one that is no longer active stays as it is. */
  ghost predicate HoldsSettle(hs: seq<Hold>, hs': seq<Hold>) {
    |hs| <= |hs'| && forall i :: 0 <= i < |hs| && hs[i].status != Held ==> hs'[i] == hs[i]
  }

  lemma PostHolds(b: Bank, t: TenantId, kind: EntryKind, amount: real, origin: Origin, allowNegative: bool)
    ensures HoldsSettle(b.holds, Kept(b, Post(b, t, kind, amount, origin, allowNegative)).holds)
  {}

  lemma ReleaseHolds(b: Bank, i: nat, status: HoldStatus)
    requires WellFormed(b)
    ensures HoldsSettle(b.holds, Kept(b, Release(b, i, status)).holds)
  {}

  lemma SettleHolds(m: Meter, i: nat, success: bool, usage: Pricing.Usage)
    requires WellFormed(m.bank)
    ensures HoldsSettle(m.bank.holds, Settle(m, i, success, usage).bank.holds)
  {
    if i < |m.tickets| && m.tickets[i].hold.Some? {
      var h, charge := m.tickets[i].hold.value, CostOf(m.tickets[i], usage).charge;
      ReleaseHolds(m.bank, h, Released);
      if Finalize(m.bank, h, charge).Success? { FinalizeHolds(m.bank, h, charge); }
    }
  }

  lemma PrepareHolds(m: Meter, t: TenantId, price: Option<Pricing.PriceRow>, enforced: bool, admitted: bool,
                     prompt: nat, maxCompletion: nat, expiresAt: int)
    ensures HoldsSettle(m.bank.holds,
                        Prepare(m, t, price, enforced, admitted, prompt, maxCompletion, expiresAt).bank.holds)
  {}

  lemma PurchaseOpHolds(s: System, op: Op)
    requires WellFormed(BankOf(s))
    requires op.TouchWallet? || op.ChangeSettings? || op.OpenDispute? || op.SubmitPurchase? || op.StripeWebhook?
      || op.CancelPurchase? || op.ReviewPurchase? || op.LandStaleWrite? || op.SweepPurchases?
    ensures BankOf(Step(s, op)).holds == BankOf(s).holds
  {}

  /** A reservation leaves the active state at most once: whatever the step, a row that is no
      longer active stays exactly as it is. */
  lemma SettledHoldsStay(s: System, op: Op)
    requires WellFormed(BankOf(s))
    ensures |BankOf(s).holds| <= |BankOf(Step(s, op)).holds|
    ensures forall i :: 0 <= i < |BankOf(s).holds| && BankOf(s).holds[i].status != Held ==>
      BankOf(Step(s, op)).holds[i] == BankOf(s).holds[i]
  {
    hide Finalize, Release, Post, Create, AdminAction, HandleStripe, Review, Submit;
    match op
    case ActOnDispute(d, action) => ActionHolds(s.office, d, action);
    case IssueRefund(t, amount, kind, purchase, card) => RefundHolds(s.office.desk, t, amount, kind, purchase, card);
    case SettleCall(i, success, usage) => SettleHolds(MeterOf(s), i, success, usage);
    case ExpireHold(i) => ReleaseHolds(BankOf(s), i, Expired);
    case Adjust(t, kind, amount) => PostHolds(BankOf(s), t, kind, amount, ByAdmin, false);
    case PrepareCall(t, price, enforced, admitted, prompt, maxCompletion, expiresAt) =>
      PrepareHolds(MeterOf(s), t, price, enforced, admitted, prompt, maxCompletion, expiresAt);
    case _ => PurchaseOpHolds(s, op);
  }

  /** A purchase is credited at most once, for exactly its amount: never while PENDING, always
      once COMPLETED or REFUNDED. */
  lemma PurchaseCreditedOnce(ops: seq<Op>, s: System, p: nat)
    requires Reaches(ops, s) && p < |s.office.desk.tables.purchases|
    ensures var row, n := s.office.desk.tables.purchases[p], EntriesFor(BankOf(s).ledger, p);
      && n <= 1
      && (row.status == Pending || row.status == TimedOut ==> n == 0)
      && (row.status == Completed || row.status == Refunded ==> n == 1)
    ensures forall e :: e in BankOf(s).ledger && e.kind == Purchase && e.origin == ForPurchase(p) ==>
      e.amount == s.office.desk.tables.purchases[p].amount && e.tenant == s.office.desk.tables.purchases[p].tenant
  {
    hide Inv, RefundInv, DeskInv, ReversalInv, MeterInv, Reaches;
    RunSound(ops, s);
    assert RowBooked(s.office.desk.tables.purchases[p], EntriesFor(BankOf(s).ledger, p));
  }

  /** Refunds never exceed what was paid, and a REFUNDED purchase has been paid back in full if and
      only if no refund of it is still waiting. */
  lemma RefundsCapped(ops: seq<Op>, s: System, p: nat)
    requires Reaches(ops, s) && p < |s.office.desk.tables.purchases|
    ensures var d := s.office.desk;
      && 0 <= PaidBack(d.refunds, p) <= RefundedSoFar(d.refunds, p) <= d.tables.purchases[p].amount
      && (d.tables.purchases[p].status == Refunded ==>
           (PaidBack(d.refunds, p) == d.tables.purchases[p].amount <==> NoneWaiting(d.refunds, p)))
  {
    hide Inv, PurchaseInv, DeskInv, ReversalInv, MeterInv, Reaches;
    RunSound(ops, s);
    RefundedMeansPaidBack(s.office.desk, p);
    LiveIsPaidBackOrWaiting(s.office.desk.refunds, p);
  }

  /** The REFUND entries are the completed wallet credits less the completed cash refunds. */
  lemma RefundEntriesAddUp(ops: seq<Op>, s: System, t: TenantId)
    requires Reaches(ops, s)
    ensures Total(BankOf(s).ledger, t, OfKind(Refund))
         == Refunds.Completed(s.office.desk.refunds, t, WalletCredit)
            - Refunds.Completed(s.office.desk.refunds, t, Cash)
  {
    hide Inv, PurchaseInv, DeskInv, ReversalInv, MeterInv, Reaches;
    RunSound(ops, s);
  }

  /** No tenant gets back by reversals more than it was charged. */
  lemma ReversalsBounded(ops: seq<Op>, s: System, t: TenantId)
    requires Reaches(ops, s) && t in BankOf(s).wallets
    ensures Total(BankOf(s).ledger, t, OfKind(ChargeReversal)) <= BankOf(s).wallets[t].consumed
  {
    hide Inv, PurchaseInv, RefundInv, DeskInv, ReversalInv, MeterInv, Reaches;
    RunSound(ops, s);
    ReversalsWithinConsumption(BankOf(s), t);
  }

  /** Usage logs, lifetime consumption and USAGE_CHARGE entries agree per tenant. */
  lemma MoneyTrail(ops: seq<Op>, s: System, t: TenantId)
    requires Reaches(ops, s)
    ensures LoggedCharges(s.logs, t) == WalletOf(BankOf(s), t).consumed
         == -Total(BankOf(s).ledger, t, OfKind(UsageCharge))
  {
    hide Inv, PurchaseInv, RefundInv, DeskInv, ReversalInv, MeterInv, Reaches;
    RunSound(ops, s);
    MoneyTrailAgrees(MeterOf(s), t);
  }

  lemma LastBalance(b: Bank, t: TenantId)
    requires Inv(b)
    ensures WalletOf(b, t).balance == LastAfter(b.ledger, t)
  {
    hide Inv;
    WalletOfBalances(b, t);
  }

  /** Per wallet an unbroken chain of before/after snapshots ends on the balance, which is the
      sum of the amounts and of the rounding drifts. */
  lemma ChainAndDrift(ops: seq<Op>, s: System, t: TenantId)
    requires Reaches(ops, s)
    ensures Chained(BankOf(s).ledger) && WalletOf(BankOf(s), t).balance == LastAfter(BankOf(s).ledger, t)
    ensures WalletOf(BankOf(s), t).balance
         == Total(BankOf(s).ledger, t, Amount) + Total(BankOf(s).ledger, t, Drift)
    ensures forall e :: e in BankOf(s).ledger ==> -1 <= Weigh(Drift, e) <= 1
  {
    hide PurchaseInv, RefundInv, DeskInv, ReversalInv, MeterInv, Reaches, TenantBooks, UsageFromHolds;
    RunSound(ops, s);
    LastBalance(BankOf(s), t);
    BalanceIsAmountsAndDrift(BankOf(s), t);
  }

  // ---- the law over whole runs

  /** The step brings no amount with more than six decimals to the ledger. */
  predicate BringsWholeAmounts(s: System, op: Op) {
    match op
    case Adjust(_, _, amount) => IsWhole(amount)
    case SettleCall(i, _, usage) => i < |s.tickets| ==> IsWhole(CostOf(s.tickets[i], usage).charge)
    case IssueRefund(_, amount, _, _, _) => IsWhole(amount)
    case ActOnDispute(_, action) =>
      (match action
       case ApproveRefund(amount, _, _, _) => IsWhole(amount)
       case IssueBonus(credits) => IsWhole(credits)
       case ManualAdjustment(delta) => IsWhole(delta)
       case _ => true)
    case _ => true
  }

  lemma PurchaseOpBalances(s: System, op: Op)
    requires WellFormed(BankOf(s)) && AllLawful(BankOf(s))
    requires op.SubmitPurchase? || op.StripeWebhook? || op.CancelPurchase? || op.ReviewPurchase?
      || op.LandStaleWrite? || op.SweepPurchases?
    ensures AllLawful(BankOf(Step(s, op)))
  {
    var tables := s.office.desk.tables;
    hide AllLawful, Complete;
    match op
    case SubmitPurchase(t, rail, amount, now) => SameColumns(tables.bank, Submit(tables, t, rail, amount, now).bank);
    case StripeWebhook(event) =>
      match event {
        case SessionCompleted(p, paid, total, intent) =>
          if Complete(tables, p, Some(intent)).Success? { CompleteKeepsLaw(tables, p, Some(intent)); }
        case AsyncPaymentSucceeded(p, total, intent) =>
          if Complete(tables, p, Some(intent)).Success? { CompleteKeepsLaw(tables, p, Some(intent)); }
        case _ =>
      }
    case ReviewPurchase(p, approve) =>
      if Complete(tables, p, None).Success? { CompleteKeepsLaw(tables, p, None); }
    case _ =>
  }

  lemma RefundBalances(d: Desk, t: TenantId, amount: real, kind: RefundKind, purchase: Option<nat>, card: CardOutcome)
    requires AllLawful(d.tables.bank) && IsWhole(amount)
    ensures AllLawful(Create(d, t, amount, kind, purchase, card).tables.bank)
  {
    hide AllLawful;
    var bank := Touch(d.tables.bank, t);
    SameColumns(d.tables.bank, bank);
    NegatedWhole(amount);
    if Post(bank, t, Refund, Signed(kind, amount), ForRefund(|d.refunds|), kind == Cash).Success? {
      WholePostKeeps(bank, t, Refund, Signed(kind, amount), ForRefund(|d.refunds|), kind == Cash);
    }
  }

  lemma PostAndResolveBalances(o: Office, d: nat, kind: EntryKind, amount: real, origin: Origin)
    requires AllLawful(o.desk.tables.bank) && IsWhole(amount) && d < |o.disputes|
    ensures AllLawful(PostAndResolve(o, d, kind, amount, origin).desk.tables.bank)
  {
    hide AllLawful;
    var b, t := o.desk.tables.bank, o.disputes[d].tenant;
    if Post(b, t, kind, amount, origin, false).Success? {
      WholePostKeeps(b, t, kind, amount, origin, false);
    }
  }

  lemma WholeReversal(amount: int)
    ensures IsWhole(-(amount as real))
  {
    assert -(amount as real) == (-amount) as real;
  }

  lemma ActionBalances(s: System, d: nat, action: Action)
    requires AllLawful(BankOf(s)) && BringsWholeAmounts(s, ActOnDispute(d, action))
    ensures AllLawful(AdminAction(s.office, d, action).desk.tables.bank)
  {
    hide AllLawful, Create, IsWhole, PostAndResolve, Reversible;
    var o := s.office;
    if d < |o.disputes| {
      match action
      case ApproveRefund(amount, kind, purchase, card) =>
        RefundBalances(o.desk, o.disputes[d].tenant, amount, kind, purchase, card);
      case IssueBonus(credits) => PostAndResolveBalances(o, d, BonusCredit, credits, ForDispute(d));
      case ManualAdjustment(delta) => PostAndResolveBalances(o, d, DisputeResolution, delta, ForDispute(d));
      case ReverseCharge(k) =>
        var ledger := o.desk.tables.bank.ledger;
        if k < |ledger| {
          WholeReversal(ledger[k].amount);
          PostAndResolveBalances(o, d, ChargeReversal, -(ledger[k].amount as real), ForEntry(k));
        } else {
          OnlyEntriesReverse(ledger, o.disputes[d].tenant, k);
        }
      case _ =>
    }
  }

  lemma OnlyEntriesReverse(l: seq<Entry>, t: TenantId, k: nat)
    requires k >= |l|
    ensures !Reversible(l, t, k)
  {}

  lemma MeterOpBalances(s: System, op: Op)
    requires WellFormed(BankOf(s)) && AllLawful(BankOf(s)) && BringsWholeAmounts(s, op)
    requires op.PrepareCall? || op.SettleCall? || op.ExpireHold?
    ensures AllLawful(BankOf(Step(s, op)))
  {
    hide AllLawful;
    var b := BankOf(s);
    if op.SettleCall? {
      var i := op.ticket;
      if i < |s.tickets| && s.tickets[i].hold.Some? {
        var h, charge := s.tickets[i].hold.value, CostOf(s.tickets[i], op.usage).charge;
        if op.success {
          if Finalize(b, h, charge).Success? { WholeFinalizeKeeps(b, h, charge); }
        } else if Release(b, h, Released).Success? {
          SameColumns(b, Release(b, h, Released).value);
        }
      }
    } else {
      SameColumns(b, BankOf(Step(s, op)));
    }
  }

  lemma WholeStepBalances(s: System, op: Op)
    requires WellFormed(BankOf(s)) && AllLawful(BankOf(s)) && BringsWholeAmounts(s, op)
    ensures AllLawful(BankOf(Step(s, op)))
  {
    hide AllLawful;
    match op
    case Adjust(t, kind, amount) =>
      if Post(BankOf(s), t, kind, amount, ByAdmin, false).Success? {
        WholePostKeeps(BankOf(s), t, kind, amount, ByAdmin, false);
      }
    case PrepareCall(_, _, _, _, _, _, _) => MeterOpBalances(s, op);
    case SettleCall(_, _, _) => MeterOpBalances(s, op);
    case ExpireHold(_) => MeterOpBalances(s, op);
    case IssueRefund(t, amount, kind, purchase, card) => RefundBalances(s.office.desk, t, amount, kind, purchase, card);
    case ActOnDispute(d, action) => ActionBalances(s, d, action);
    case OpenDispute(_) =>
    case TouchWallet(_) => SameColumns(BankOf(s), BankOf(Step(s, op)));
    case ChangeSettings(_, _, _) => SameColumns(BankOf(s), BankOf(Step(s, op)));
    case _ => PurchaseOpBalances(s, op);
  }

  /** s is where some run whose amounts all have at most six decimals can get. */
  ghost predicate ReachesWhole(ops: seq<Op>, s: System)
    decreases |ops|
  {
    if ops == [] then s == Start
    else
      var last := ops[|ops| - 1];
      exists before: System ::
        && ReachesWhole(ops[..|ops| - 1], before) && WellFormed(BankOf(before))
        && BringsWholeAmounts(before, last) && Step(before, last) == s
  }

  /** balance === SUM(amount) for every wallet, at all times of such a run. */
  lemma {:induction false} LedgerLawOverRuns(ops: seq<Op>, s: System)
    requires ReachesWhole(ops, s)
    ensures Reaches(ops, s)
    ensures AllLawful(BankOf(s))
    decreases |ops|
  {
    hide Step;
    if ops != [] {
      var last := ops[|ops| - 1];
      var before: System :| ReachesWhole(ops[..|ops| - 1], before) && WellFormed(BankOf(before))
                            && BringsWholeAmounts(before, last) && Step(before, last) == s;
      LedgerLawOverRuns(ops[..|ops| - 1], before);
      WholeStepBalances(before, last);
    }
  }

  /** And with it the lifetime totals: totalPurchased - totalConsumed + totalAdjusted plus the
      signed refunds is the balance. */
  lemma LifetimeTotalsOverRuns(ops: seq<Op>, s: System, t: TenantId)
    requires ReachesWhole(ops, s)
    ensures Balanced(BankOf(s), t) && Reconciles(BankOf(s), t)
  {
    hide Inv, PurchaseInv, RefundInv, DeskInv, ReversalInv, MeterInv, Reaches, AllLawful;
    LedgerLawOverRuns(ops, s);
    RunSound(ops, s);
    LawfulReconciles(BankOf(s), t);
  }

  /** "Only PENDING purchases can be cancelled" does not survive a race: whenever a cancellation
      has seen a purchase pending and a completion lands first, the purchase ends CANCELLED with
      its credits granted. */
  lemma CancellationCanOverwriteCompletion(s: Tables, p: nat, intent: Option<bool>)
    requires PurchaseInv(s) && p < |s.purchases| && s.purchases[p].status == Pending
    requires var seen := Cancel(s, s.purchases[p].tenant, p); Complete(seen, p, intent).Success?
    ensures var seen := Cancel(s, s.purchases[p].tenant, p);
      var done := Complete(seen, p, intent).value;
      var end := WriteStale(done, |s.stale|);
      && done.purchases[p].status == Completed
      && end.purchases[p].status == Cancelled && EntriesFor(end.bank.ledger, p) == 1
  {
    var row := s.purchases[p];
    var e := EntryFor(row.tenant, WalletOf(s.bank, row.tenant), Purchase, row.amount as real, ForPurchase(p));
    assert RowBooked(row, EntriesFor(s.bank.ledger, p));
    EntriesForAppend(s.bank.ledger, e, p);
  }
}
