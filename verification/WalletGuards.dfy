/** What the wallet's status and sign checks achieve over any step of a run: who can overdraw a
    wallet, and that a closed one is frozen. */
module WalletGuards {
  import opened Wrappers
  import opened Money
  import opened Bank
  import opened LedgerTotals
  import opened BankInvariant
  import opened Purchases
  import opened Refunds
  import opened Disputes
  import opened Charging
  import opened BillingRuns
  import Pricing

  /** No balance has fallen below zero, or further below it. */
  ghost predicate Solvent(b: Bank, b': Bank) {
    forall t :: WalletOf(b', t).balance >= 0 || WalletOf(b', t).balance >= WalletOf(b, t).balance
  }

  /** Wallets that were closed have the same balance and no new entry. */
  ghost predicate ClosedStay(b: Bank, b': Bank) {
    && b.ledger <= b'.ledger
    && (forall t :: WalletOf(b, t).status == Closed ==> WalletOf(b', t).balance == WalletOf(b, t).balance)
    && forall i :: |b.ledger| <= i < |b'.ledger| ==> WalletOf(b, b'.ledger[i].tenant).status != Closed
  }

  ghost predicate SameBooks(b: Bank, b': Bank) {
    b'.ledger == b.ledger && forall t :: WalletOf(b', t).balance == WalletOf(b, t).balance
  }

  lemma SameBooksGuarded(b: Bank, b': Bank)
    requires SameBooks(b, b')
    ensures Solvent(b, b') && ClosedStay(b, b')
  {}

  lemma PostGuarded(b: Bank, t: TenantId, kind: EntryKind, amount: real, origin: Origin, allowNegative: bool)
    requires Post(b, t, kind, amount, origin, allowNegative).Success?
    ensures var b' := Post(b, t, kind, amount, origin, allowNegative).value;
      ClosedStay(b, b') && (!allowNegative ==> Solvent(b, b'))
  {
    StoredBounded(WalletOf(b, t).balance as real + amount, 0);
  }

  lemma FinalizeGuarded(b: Bank, i: nat, charge: real)
    requires WellFormed(b) && Finalize(b, i, charge).Success?
    ensures ClosedStay(b, Finalize(b, i, charge).value)
  {
    var h := b.holds[i];
    assert h in b.holds;
    var freed := Freed(b, i, charge);
    forall t
      ensures WalletOf(freed, t).balance == WalletOf(b, t).balance && WalletOf(freed, t).status == WalletOf(b, t).status
    {}
    if charge != 0.0 { PostGuarded(freed, h.tenant, UsageCharge, -charge, ForHold(i), true); }
  }

  lemma CompleteGuarded(s: Tables, p: nat, intent: Option<bool>)
    requires Complete(s, p, intent).Success?
    ensures Solvent(s.bank, Complete(s, p, intent).value.bank) && ClosedStay(s.bank, Complete(s, p, intent).value.bank)
  {
    var row := s.purchases[p];
    if row.status == Pending { PostGuarded(s.bank, row.tenant, Purchase, row.amount as real, ForPurchase(p), false); }
  }

  lemma PurchaseOpGuarded(s: System, op: Op)
    requires WellFormed(BankOf(s))
    requires op.SubmitPurchase? || op.StripeWebhook? || op.CancelPurchase? || op.ReviewPurchase?
      || op.LandStaleWrite? || op.SweepPurchases?
    ensures Solvent(BankOf(s), BankOf(Step(s, op))) && ClosedStay(BankOf(s), BankOf(Step(s, op)))
  {
    hide Solvent, ClosedStay, Complete;
    var tables := s.office.desk.tables;
    SameBooksGuarded(tables.bank, tables.bank);
    match op
    case SubmitPurchase(t, rail, amount, now) =>
      SameBooksGuarded(tables.bank, Submit(tables, t, rail, amount, now).bank);
    case StripeWebhook(event) =>
      match event {
        case SessionCompleted(p, paid, total, intent) =>
          if Complete(tables, p, Some(intent)).Success? { CompleteGuarded(tables, p, Some(intent)); }
        case AsyncPaymentSucceeded(p, total, intent) =>
          if Complete(tables, p, Some(intent)).Success? { CompleteGuarded(tables, p, Some(intent)); }
        case _ =>
      }
    case ReviewPurchase(p, approve) =>
      if Complete(tables, p, None).Success? { CompleteGuarded(tables, p, None); }
    case _ =>
  }

  lemma RefundGuarded(d: Desk, t: TenantId, amount: real, kind: RefundKind, purchase: Option<nat>, card: CardOutcome)
    ensures var b, b' := d.tables.bank, Create(d, t, amount, kind, purchase, card).tables.bank;
      ClosedStay(b, b') && (kind != Cash ==> Solvent(b, b'))
  {
    hide Turned, InFull, Stored, RefundedSoFar, Post;
    var b, bank := d.tables.bank, Touch(d.tables.bank, t);
    SameBooksGuarded(b, b);
    SameBooksGuarded(b, bank);
    forall u ensures WalletOf(bank, u) == WalletOf(b, u) {}
    if Post(bank, t, Refund, Signed(kind, amount), ForRefund(|d.refunds|), kind == Cash).Success? {
      PostGuarded(bank, t, Refund, Signed(kind, amount), ForRefund(|d.refunds|), kind == Cash);
    }
  }

  lemma PostAndResolveGuarded(o: Office, d: nat, kind: EntryKind, amount: real, origin: Origin)
    requires d < |o.disputes|
    ensures var b, b' := o.desk.tables.bank, PostAndResolve(o, d, kind, amount, origin).desk.tables.bank;
      ClosedStay(b, b') && Solvent(b, b')
  {
    hide ClosedStay, Solvent;
    var b, t := o.desk.tables.bank, o.disputes[d].tenant;
    SameBooksGuarded(b, b);
    if Post(b, t, kind, amount, origin, false).Success? { PostGuarded(b, t, kind, amount, origin, false); }
  }

  predicate PaysCash(action: Action) { action.ApproveRefund? && action.kind == Cash }

  lemma ActionGuarded(o: Office, d: nat, action: Action)
    ensures var b, b' := o.desk.tables.bank, AdminAction(o, d, action).desk.tables.bank;
      ClosedStay(b, b') && (!PaysCash(action) ==> Solvent(b, b'))
  {
    hide ClosedStay, Solvent, Create, PostAndResolve;
    SameBooksGuarded(o.desk.tables.bank, o.desk.tables.bank);
    if d < |o.disputes| {
      match action
      case ApproveRefund(amount, kind, purchase, card) =>
        RefundGuarded(o.desk, o.disputes[d].tenant, amount, kind, purchase, card);
      case IssueBonus(credits) => PostAndResolveGuarded(o, d, BonusCredit, credits, ForDispute(d));
      case ReverseCharge(k) =>
        if k < |o.desk.tables.bank.ledger| {
          PostAndResolveGuarded(o, d, ChargeReversal, -(o.desk.tables.bank.ledger[k].amount as real), ForEntry(k));
        }
      case ManualAdjustment(delta) => PostAndResolveGuarded(o, d, DisputeResolution, delta, ForDispute(d));
      case _ =>
    }
  }

  lemma MeterOpGuarded(s: System, op: Op)
    requires WellFormed(BankOf(s)) && (op.PrepareCall? || op.SettleCall? || op.ExpireHold?)
    ensures ClosedStay(BankOf(s), BankOf(Step(s, op)))
    ensures !(op.SettleCall? && op.success) ==> Solvent(BankOf(s), BankOf(Step(s, op)))
  {
    hide ClosedStay, Solvent;
    var b := BankOf(s);
    SameBooksGuarded(b, b);
    if op.SettleCall? && op.success {
      var i := op.ticket;
      if i < |s.tickets| && s.tickets[i].hold.Some? {
        var h, charge := s.tickets[i].hold.value, CostOf(s.tickets[i], op.usage).charge;
        if Finalize(b, h, charge).Success? { FinalizeGuarded(b, h, charge); }
      }
    } else {
      SameBooksGuarded(b, BankOf(Step(s, op)));
    }
  }

  /** The operations that may take a balance below zero: settling a call that ran, and paying cash
      back. */
  predicate MayOverdraw(op: Op) {
    || (op.SettleCall? && op.success)
    || (op.IssueRefund? && op.refundKind == Cash)
    || (op.ActOnDispute? && PaysCash(op.action))
  }

  /** "Everything else must keep the balance non-negative": no other step takes any wallet below
      zero, or further below; and no step at all posts to a wallet that is closed. */
  lemma GuardsHold(s: System, op: Op)
    requires WellFormed(BankOf(s))
    ensures !MayOverdraw(op) ==> Solvent(BankOf(s), BankOf(Step(s, op)))
    ensures ClosedStay(BankOf(s), BankOf(Step(s, op)))
  {
    hide ClosedStay, Solvent, Create, AdminAction, HandleStripe, Review, Submit, Prepare, Settle, Release;
    var b := BankOf(s);
    SameBooksGuarded(b, b);
    match op
    case Adjust(t, kind, amount) =>
      if Post(b, t, kind, amount, ByAdmin, false).Success? { PostGuarded(b, t, kind, amount, ByAdmin, false); }
    case PrepareCall(_, _, _, _, _, _, _) => MeterOpGuarded(s, op);
    case SettleCall(_, _, _) => MeterOpGuarded(s, op);
    case ExpireHold(_) => MeterOpGuarded(s, op);
    case IssueRefund(t, amount, kind, purchase, card) => RefundGuarded(s.office.desk, t, amount, kind, purchase, card);
    case ActOnDispute(d, action) => ActionGuarded(s.office, d, action);
    case OpenDispute(_) =>
    case TouchWallet(t) => SameBooksGuarded(b, Touch(b, t));
    case ChangeSettings(t, status, threshold) => SameBooksGuarded(b, Settings(b, t, status, threshold));
    case _ => PurchaseOpGuarded(s, op);
  }

  /** A posting that takes an active wallet below its suspension threshold stops its reservations. */
  lemma CrossingTheThresholdStopsReservations(
      b: Bank, t: TenantId, kind: EntryKind, amount: real, origin: Origin, allowNegative: bool,
      next: real, expiresAt: int)
    requires Post(b, t, kind, amount, origin, allowNegative).Success?
    requires var w := WalletOf(b, t);
      w.suspendThreshold.Some? && w.balance as real + amount < w.suspendThreshold.value as real
    ensures var b' := Post(b, t, kind, amount, origin, allowNegative).value;
      Reserve(b', t, next, expiresAt).Failure?
  {}
}
