/** What each step of a billing run does, on the columns of the rows it touches. */
module BillingSteps {
  import opened Wrappers
  import opened Bank
  import opened BankInvariant
  import opened WalletEffects
  import opened Purchases
  import opened PurchaseEffects
  import opened Refunds
  import opened RefundEffects
  import opened Disputes
  import opened Charging
  import opened ChargeEffects
  import opened BillingRuns
  import Pricing

  /** Only the bank changes. */
  predicate BankOnly(s: System, s': System) {
    s' == s.(office := s.office.(desk := s.office.desk.(tables := s.office.desk.tables.(bank := BankOf(s')))))
  }

  /** Only the bank and the purchases change. */
  predicate SalesOnly(s: System, s': System) {
    s' == s.(office := s.office.(desk := s.office.desk.(tables := s'.office.desk.tables)))
  }

  /** Status and threshold become what is given, and nothing else of the wallet changes. */
  ghost predicate SettingsEffect(
      b: Bank, b': Bank, t: TenantId, status: Option<WalletStatus>, threshold: Option<Option<int>>)
  {
    && b'.holds == b.holds && b'.ledger == b.ledger
    && exists w' :: RowBecomes(b, b', t, w') && SettingsChange(WalletOf(b, t), w', status, threshold)
  }

  predicate SettingsChange(w: Wallet, w': Wallet, status: Option<WalletStatus>, threshold: Option<Option<int>>) {
    && w' == w.(status := w'.status, suspendThreshold := w'.suspendThreshold)
    && (status.Some? ==> w'.status == status.value) && (status.None? ==> w'.status == w.status)
    && (threshold.Some? ==> w'.suspendThreshold == threshold.value)
    && (threshold.None? ==> w'.suspendThreshold == w.suspendThreshold)
  }

  /** An adjustment posts on the admin's account, and never below zero. */
  ghost predicate AdjustEffect(b: Bank, b': Bank, t: TenantId, kind: EntryKind, amount: real) {
    if kind in {ManualCredit, BonusCredit, PromoCredit, AdminAdjustment, Correction, CreditExpiry}
    then exists refusal :: PostEffect(b, b', t, kind, amount, ByAdmin, false, refusal) else b' == b
  }

  ghost predicate StepEffect(s: System, s': System, op: Op)
    requires WellFormed(BankOf(s))
  {
    var b, b' := BankOf(s), BankOf(s');
    var sales, sales' := s.office.desk.tables, s'.office.desk.tables;
    match op
    case TouchWallet(t) => BankOnly(s, s') && RowBecomes(b, b', t, WalletOf(b, t)) && b'.(wallets := b.wallets) == b
    case ChangeSettings(t, status, threshold) => BankOnly(s, s') && SettingsEffect(b, b', t, status, threshold)
    case Adjust(t, kind, amount) => BankOnly(s, s') && AdjustEffect(b, b', t, kind, amount)
    case PrepareCall(t, price, enforced, admitted, prompt, maxCompletion, expiresAt) =>
      exists ticket ::
        && PrepareEffect(b, b', t, price, enforced, admitted, prompt, maxCompletion, expiresAt, ticket)
        && BankOnly(s, s'.(tickets := s.tickets))
        && s'.tickets == s.tickets + if ticket.Some? then [ticket.value] else []
    case SettleCall(i, success, usage) =>
      BankOnly(s, s'.(logs := s.logs))
      && if i < |s.tickets| then SettleEffect(b, b', s.logs, s'.logs, s.tickets[i], success, usage) else s' == s
    case ExpireHold(i) => BankOnly(s, s') && exists refusal :: ReleaseEffect(b, b', i, Expired, refusal)
    case SubmitPurchase(t, rail, amount, now) => SalesOnly(s, s') && SubmitEffect(sales, sales', t, rail, amount, now)
    case StripeWebhook(event) => SalesOnly(s, s') && EventEffect(sales, sales', event)
    case CancelPurchase(t, p) => SalesOnly(s, s') && CancelEffect(sales, sales', t, p)
    case ReviewPurchase(p, approve) => SalesOnly(s, s') && ReviewEffect(sales, sales', p, approve)
    case LandStaleWrite(k) => SalesOnly(s, s') && LandEffect(sales, sales', k)
    case SweepPurchases(cutoff) => SalesOnly(s, s') && SweepEffect(sales, sales', cutoff)
    case IssueRefund(t, amount, kind, purchase, card) =>
      && s' == s.(office := s.office.(desk := s'.office.desk))
      && CreateEffect(s.office.desk, s'.office.desk, t, amount, kind, purchase, card)
    case OpenDispute(t) =>
      s' == s.(office := s.office.(disputes := s.office.disputes + [Dispute(t, DisputeStatus.Open)]))
    case ActOnDispute(d, action) =>
      s' == s.(office := s'.office) && AdminEffect(s.office, s'.office, d, action)
  }

  lemma SettingsExactly(b: Bank, t: TenantId, status: Option<WalletStatus>, threshold: Option<Option<int>>)
    ensures SettingsEffect(b, Settings(b, t, status, threshold), t, status, threshold)
  {
    var b' := Settings(b, t, status, threshold);
    assert RowBecomes(b, b', t, b'.wallets[t]);
  }

  lemma AdjustExactly(b: Bank, t: TenantId, kind: EntryKind, amount: real)
    requires Adjustable(kind)
    ensures AdjustEffect(b, Kept(b, Post(b, t, kind, amount, ByAdmin, false)), t, kind, amount)
  {
    PostExactly(b, t, kind, amount, ByAdmin, false);
    hide Post, PostEffect;
    var refusal := match Post(b, t, kind, amount, ByAdmin, false)
      case Success(_) => None
      case Failure(e) => Some(e);
    assert PostEffect(b, Kept(b, Post(b, t, kind, amount, ByAdmin, false)), t, kind, amount, ByAdmin, false, refusal);
  }

  lemma ExpireExactly(b: Bank, i: nat)
    requires WellFormed(b)
    ensures exists refusal :: ReleaseEffect(b, Kept(b, Release(b, i, Expired)), i, Expired, refusal)
  {
    ReleaseExactly(b, i, Expired);
    hide Release, ReleaseEffect;
    var refusal := match Release(b, i, Expired)
      case Success(_) => None
      case Failure(e) => Some(e);
    assert ReleaseEffect(b, Kept(b, Release(b, i, Expired)), i, Expired, refusal);
  }

  lemma PrepareStep(s: System, op: Op)
    requires WellFormed(BankOf(s)) && op.PrepareCall?
    ensures StepEffect(s, Step(s, op), op)
  {
    PrepareExactly(MeterOf(s), op.t, op.price, op.enforced, op.admitted, op.prompt, op.maxCompletion, op.expiresAt);
    hide Prepare, PrepareEffect, WellFormed;
    var s' := Step(s, op);
    var ticket := if |s'.tickets| == |s.tickets| then None else Some(s'.tickets[|s.tickets|]);
    assert s'.tickets == s.tickets + if ticket.Some? then [ticket.value] else [];
    assert PrepareEffect(BankOf(s), BankOf(s'), op.t, op.price, op.enforced, op.admitted, op.prompt,
                         op.maxCompletion, op.expiresAt, ticket);
  }

  lemma BankStep(s: System, op: Op)
    requires WellFormed(BankOf(s)) && (op.TouchWallet? || op.ChangeSettings? || op.Adjust? || op.ExpireHold?)
    ensures StepEffect(s, Step(s, op), op)
  {
    hide Settings, SettingsEffect, Post, AdjustEffect, Release, ReleaseEffect, WellFormed;
    var b := BankOf(s);
    match op
    case TouchWallet(t) =>
    case ChangeSettings(t, status, threshold) => SettingsExactly(b, t, status, threshold);
    case Adjust(t, kind, amount) =>
      if Adjustable(kind) { AdjustExactly(b, t, kind, amount); } else { AdjustIdle(b, t, kind, amount); }
    case ExpireHold(i) => ExpireExactly(b, i);
  }

  lemma AdjustIdle(b: Bank, t: TenantId, kind: EntryKind, amount: real)
    requires !Adjustable(kind)
    ensures AdjustEffect(b, b, t, kind, amount)
  {}

  lemma SalesStep(s: System, op: Op)
    requires WellFormed(BankOf(s))
    requires op.SubmitPurchase? || op.StripeWebhook? || op.CancelPurchase? || op.ReviewPurchase? || op.LandStaleWrite?
      || op.SweepPurchases?
    ensures StepEffect(s, Step(s, op), op)
  {
    hide Submit, HandleStripe, Cancel, Review, WriteStale, ExpireStale;
    hide SubmitEffect, EventEffect, CancelEffect, ReviewEffect, LandEffect, SweepEffect, WellFormed;
    var sales := s.office.desk.tables;
    match op
    case SubmitPurchase(t, rail, amount, now) => CallsExactly(sales, t, rail, amount, now, 0, false);
    case StripeWebhook(event) => EventExactly(sales, event);
    case CancelPurchase(t, p) => CallsExactly(sales, t, Stripe, 0.0, 0, p, false);
    case ReviewPurchase(p, approve) => CallsExactly(sales, "", Stripe, 0.0, 0, p, approve);
    case LandStaleWrite(k) => CallsExactly(sales, "", Stripe, 0.0, 0, k, false);
    case SweepPurchases(cutoff) => CallsExactly(sales, "", Stripe, 0.0, cutoff, 0, false);
  }

  /** Each step of a run has the effect of its call, and no other. */
  lemma StepExactly(s: System, op: Op)
    requires WellFormed(BankOf(s))
    ensures StepEffect(s, Step(s, op), op)
  {
    match op
    case PrepareCall(_, _, _, _, _, _, _) => PrepareStep(s, op);
    case SettleCall(i, success, usage) => SettleStep(s, i, success, usage);
    case IssueRefund(t, amount, kind, purchase, card) => OfficeStep(s, op);
    case OpenDispute(t) => OfficeStep(s, op);
    case ActOnDispute(d, action) => OfficeStep(s, op);
    case TouchWallet(_) => BankStep(s, op);
    case ChangeSettings(_, _, _) => BankStep(s, op);
    case Adjust(_, _, _) => BankStep(s, op);
    case ExpireHold(_) => BankStep(s, op);
    case _ => SalesStep(s, op);
  }

  lemma SettleStep(s: System, i: nat, success: bool, usage: Pricing.Usage)
    requires WellFormed(BankOf(s))
    ensures StepEffect(s, Step(s, SettleCall(i, success, usage)), SettleCall(i, success, usage))
  {
    if i < |s.tickets| { SettleExactly(MeterOf(s), i, success, usage); }
    hide SettleEffect, WellFormed, Finalize, Release, LogFor, CostOf;
  }

  lemma OfficeStep(s: System, op: Op)
    requires WellFormed(BankOf(s)) && (op.IssueRefund? || op.OpenDispute? || op.ActOnDispute?)
    ensures StepEffect(s, Step(s, op), op)
  {
    hide Create, CreateEffect, AdminAction, AdminEffect, WellFormed;
    match op
    case IssueRefund(t, amount, kind, purchase, card) => CreateExactly(s.office.desk, t, amount, kind, purchase, card);
    case ActOnDispute(d, action) => AdminExactly(s.office, d, action);
    case OpenDispute(_) =>
  }
}
