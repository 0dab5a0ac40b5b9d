/** Whole runs: any sequence of wallet transactions, purchases, webhooks, reviews, refunds,
    dispute actions, prepares and settles, in any order and with any repetition. */
module BillingRuns {
  import opened Wrappers
  import opened Money
  import opened Bank
  import opened LedgerTotals
  import opened BankInvariant
  import opened LedgerLaw
  import opened Purchases
  import opened Refunds
  import opened Disputes
  import opened Charging
  import Pricing

  datatype System = System(office: Office, tickets: seq<Ticket>, logs: seq<UsageLog>)

  datatype Op =
    | TouchWallet(t: TenantId)
    | ChangeSettings(t: TenantId, status: Option<WalletStatus>, threshold: Option<Option<int>>)
    | Adjust(t: TenantId, kind: EntryKind, amount: real)
    | PrepareCall(t: TenantId, price: Option<Pricing.PriceRow>, enforced: bool, admitted: bool,
                  prompt: nat, maxCompletion: nat, expiresAt: int)
    | SettleCall(ticket: nat, success: bool, usage: Pricing.Usage)
    | ExpireHold(hold: nat)
    | SubmitPurchase(t: TenantId, rail: Rail, amount: real, now: int)
    | StripeWebhook(event: StripeEvent)
    | CancelPurchase(t: TenantId, purchase: nat)
    | ReviewPurchase(purchase: nat, approve: bool)
    | LandStaleWrite(write: nat)
    | SweepPurchases(cutoff: int)
    | IssueRefund(t: TenantId, amount: real, refundKind: RefundKind, against: Option<nat>, card: CardOutcome)
    | OpenDispute(t: TenantId)
    | ActOnDispute(dispute: nat, action: Action)

  const Start := System(Office(Desk(Tables(Empty, [], []), []), []), [], [])

  function BankOf(s: System): Bank { s.office.desk.tables.bank }

  function WithTables(s: System, tables: Tables): System {
    s.(office := s.office.(desk := s.office.desk.(tables := tables)))
  }

  function MeterOf(s: System): Meter { Meter(BankOf(s), s.tickets, s.logs) }

  function WithMeter(s: System, m: Meter): System {
    System(WithBank(s.office, m.bank), m.tickets, m.logs)
  }

  /** The kinds an admin adjustment may post. */
  predicate Adjustable(kind: EntryKind) {
    kind in {ManualCredit, BonusCredit, PromoCredit, AdminAdjustment, Correction, CreditExpiry}
  }

  function Step(s: System, op: Op): System
    requires WellFormed(BankOf(s))
  {
    var tables := s.office.desk.tables;
    match op
    case TouchWallet(t) => WithTables(s, tables.(bank := Touch(tables.bank, t)))
    case ChangeSettings(t, status, threshold) =>
      WithTables(s, tables.(bank := Settings(tables.bank, t, status, threshold)))
    case Adjust(t, kind, amount) =>
      if Adjustable(kind)
      then WithTables(s, tables.(bank := Kept(tables.bank, Post(tables.bank, t, kind, amount, ByAdmin, false))))
      else s
    case PrepareCall(t, price, enforced, admitted, prompt, maxCompletion, expiresAt) =>
      WithMeter(s, Prepare(MeterOf(s), t, price, enforced, admitted, prompt, maxCompletion, expiresAt))
    case SettleCall(i, success, usage) => WithMeter(s, Settle(MeterOf(s), i, success, usage))
    case ExpireHold(i) => WithTables(s, tables.(bank := Kept(tables.bank, Release(tables.bank, i, Expired))))
    case SubmitPurchase(t, rail, amount, now) => WithTables(s, Submit(tables, t, rail, amount, now))
    case StripeWebhook(event) => WithTables(s, HandleStripe(tables, event))
    case CancelPurchase(t, p) => WithTables(s, Cancel(tables, t, p))
    case ReviewPurchase(p, approve) => WithTables(s, Review(tables, p, approve))
    case LandStaleWrite(k) => WithTables(s, WriteStale(tables, k))
    case SweepPurchases(cutoff) => WithTables(s, ExpireStale(tables, cutoff))
    case IssueRefund(t, amount, kind, purchase, card) =>
      s.(office := s.office.(desk := Create(s.office.desk, t, amount, kind, purchase, card)))
    case OpenDispute(t) => s.(office := s.office.(disputes := s.office.disputes + [Dispute(t, Open)]))
    case ActOnDispute(d, action) => s.(office := AdminAction(s.office, d, action))
  }

  ghost predicate SystemInv(s: System) { OfficeInv(s.office) && MeterInv(MeterOf(s)) }

  // ---- how a step moves the bank under the components it does not own

  /** The ledger is the same or has one more entry, of none of the kinds with rules of their own. */
  ghost predicate ForeignLedger(l: seq<Entry>, l': seq<Entry>) {
    l' == l || (|l'| == |l| + 1 && l' == l + [l'[|l|]] && l'[|l|].kind != Purchase && l'[|l|].kind != Refund
                && l'[|l|].kind != ChargeReversal)
  }

  /** The office does not mind wallets, holds or foreign entries changing under it. */
  lemma OfficeRides(o: Office, bank: Bank)
    requires OfficeInv(o) && Inv(bank) && ForeignLedger(o.desk.tables.bank.ledger, bank.ledger)
    ensures OfficeInv(WithBank(o, bank))
  {
    var l := o.desk.tables.bank.ledger;
    if bank.ledger != l {
      ForeignEntryKeepsDesk(o.desk, bank, bank.ledger[|l|]);
      OtherEntryKeepsReversals(l, bank.ledger[|l|]);
    }
  }

  /** The meter only looks at holds. */
  lemma MeterRides(m: Meter, bank: Bank)
    requires MeterInv(m) && bank.holds == m.bank.holds
    ensures MeterInv(m.(bank := bank))
  {}

  lemma AdjustKeeps(s: System, t: TenantId, kind: EntryKind, amount: real)
    requires SystemInv(s)
    ensures SystemInv(Step(s, Adjust(t, kind, amount)))
  {
    hide Inv, PurchaseInv, RefundInv, ReversalInv, MeterInv;
    var b := BankOf(s);
    if Adjustable(kind) && Post(b, t, kind, amount, ByAdmin, false).Success? {
      var bank := Post(b, t, kind, amount, ByAdmin, false).value;
      PostKeepsInv(b, t, kind, amount, ByAdmin, false);
      OfficeRides(s.office, bank);
      MeterRides(MeterOf(s), bank);
    }
  }

  lemma WalletOnlyKeeps(s: System, bank: Bank)
    requires SystemInv(s) && Inv(bank) && bank.holds == BankOf(s).holds && bank.ledger == BankOf(s).ledger
    ensures SystemInv(WithTables(s, s.office.desk.tables.(bank := bank)))
  {
    hide Inv, DeskInv, ReversalInv, MeterInv;
    OfficeRides(s.office, bank);
    MeterRides(MeterOf(s), bank);
  }

  lemma ExpireHoldKeeps(s: System, i: nat)
    requires SystemInv(s)
    ensures SystemInv(Step(s, ExpireHold(i)))
  {
    hide Inv, PurchaseInv, RefundInv, ReversalInv, MeterInv;
    var b := BankOf(s);
    HoldsHaveWallets(b);
    if Release(b, i, Expired).Success? {
      ReleaseKeepsInv(b, i, Expired);
      ReleaseKeepsMeter(MeterOf(s), i, Expired);
      OfficeRides(s.office, Release(b, i, Expired).value);
    }
  }

  lemma PrepareCallKeeps(s: System, t: TenantId, price: Option<Pricing.PriceRow>, enforced: bool, admitted: bool,
                         prompt: nat, maxCompletion: nat, expiresAt: int)
    requires SystemInv(s)
    ensures SystemInv(Step(s, PrepareCall(t, price, enforced, admitted, prompt, maxCompletion, expiresAt)))
  {
    hide Inv, PurchaseInv, RefundInv, ReversalInv, MeterInv;
    PrepareKeeps(MeterOf(s), t, price, enforced, admitted, prompt, maxCompletion, expiresAt);
    PrepareLedger(MeterOf(s), t, price, enforced, admitted, prompt, maxCompletion, expiresAt);
    OfficeRides(s.office, Prepare(MeterOf(s), t, price, enforced, admitted, prompt, maxCompletion, expiresAt).bank);
  }

  lemma PrepareLedger(m: Meter, t: TenantId, price: Option<Pricing.PriceRow>, enforced: bool, admitted: bool,
                      prompt: nat, maxCompletion: nat, expiresAt: int)
    ensures Prepare(m, t, price, enforced, admitted, prompt, maxCompletion, expiresAt).bank.ledger == m.bank.ledger
  {}

  lemma HoldsHaveWallets(b: Bank)
    requires Inv(b)
    ensures WellFormed(b)
  {}

  lemma SettleCallKeeps(s: System, i: nat, success: bool, usage: Pricing.Usage)
    requires SystemInv(s)
    ensures SystemInv(Step(s, SettleCall(i, success, usage)))
  {
    hide Inv, PurchaseInv, RefundInv, ReversalInv, MeterInv;
    var m := MeterOf(s);
    HoldsHaveWallets(m.bank);
    SettleKeeps(m, i, success, usage);
    SettleLedger(m, i, success, usage);
    OfficeRides(s.office, Settle(m, i, success, usage).bank);
  }

  lemma SettleLedger(m: Meter, i: nat, success: bool, usage: Pricing.Usage)
    requires WellFormed(m.bank)
    ensures ForeignLedger(m.bank.ledger, Settle(m, i, success, usage).bank.ledger)
  {
    if i < |m.tickets| && m.tickets[i].hold.Some? && success {
      var h, charge := m.tickets[i].hold.value, CostOf(m.tickets[i], usage).charge;
      if Finalize(m.bank, h, charge).Success? && charge != 0.0 {
        assert m.bank.holds[h] in m.bank.holds;
        var freed := Freed(m.bank, h, charge);
        var t := m.bank.holds[h].tenant;
        assert Finalize(m.bank, h, charge).value.ledger
            == m.bank.ledger + [EntryFor(t, WalletOf(freed, t), UsageCharge, -charge, ForHold(h))];
      }
    }
  }

  // ---- purchases under the refund desk

  /** What any purchase step does to the rows the refund desk relies on. */
  ghost predicate PurchaseProgress(s: Tables, s': Tables) {
    && |s'.purchases| >= |s.purchases|
    && (forall p :: 0 <= p < |s.purchases| ==>
         s'.purchases[p].amount == s.purchases[p].amount
         && (s'.purchases[p].status == Refunded ==> s.purchases[p].status == Refunded))
    && (forall p :: |s.purchases| <= p < |s'.purchases| ==>
         s'.purchases[p].status != Refunded && s'.purchases[p].amount >= 0)
    && s'.bank.holds == s.bank.holds
    && var l, l' := s.bank.ledger, s'.bank.ledger;
       l' == l || (|l'| == |l| + 1 && l' == l + [l'[|l|]] && l'[|l|].kind == Purchase)
  }

  lemma {:induction false} NoRefundsBeyond(rs: seq<RefundRow>, p: nat, n: nat)
    requires p >= n && forall r :: r in rs ==> r.purchase.Some? ==> r.purchase.value < n
    ensures RefundedSoFar(rs, p) == 0
  {
    if rs != [] {
      assert forall r :: r in rs[..|rs| - 1] ==> r in rs;
      assert rs[|rs| - 1] in rs;
      NoRefundsBeyond(rs[..|rs| - 1], p, n);
    }
  }

  lemma RefundsRide(d: Desk, tables: Tables)
    requires RefundInv(d) && PurchaseProgress(d.tables, tables)
    ensures RefundInv(d.(tables := tables))
  {
    var l, l' := d.tables.bank.ledger, tables.bank.ledger;
    if l' != l {
      forall t ensures Total(l', t, OfKind(Refund)) == Total(l, t, OfKind(Refund)) {
        TotalAppend(l, l'[|l|], t, OfKind(Refund));
      }
    }
    forall p | |d.tables.purchases| <= p < |tables.purchases| ensures RefundedSoFar(d.refunds, p) == 0 {
      NoRefundsBeyond(d.refunds, p, |d.tables.purchases|);
    }
  }

  lemma PurchaseStepKeeps(s: System, tables: Tables)
    requires SystemInv(s) && Inv(tables.bank) && PurchaseInv(tables)
    requires PurchaseProgress(s.office.desk.tables, tables)
    ensures SystemInv(WithTables(s, tables))
  {
    hide Inv, PurchaseInv, RefundInv, ReversalInv, MeterInv;
    RefundsRide(s.office.desk, tables);
    var l, l' := BankOf(s).ledger, tables.bank.ledger;
    if l' != l { OtherEntryKeepsReversals(l, l'[|l|]); }
    MeterRides(MeterOf(s), tables.bank);
  }

  lemma CompleteProgress(s: Tables, p: nat, intent: Option<bool>)
    requires Complete(s, p, intent).Success?
    ensures PurchaseProgress(s, Complete(s, p, intent).value)
  {
    var row := s.purchases[p];
    if row.status == Pending {
      var e := EntryFor(row.tenant, WalletOf(s.bank, row.tenant), Purchase, row.amount as real, ForPurchase(p));
      assert Complete(s, p, intent).value.bank.ledger == s.bank.ledger + [e];
    }
  }

  lemma StripeProgress(s: Tables, event: StripeEvent)
    ensures PurchaseProgress(s, HandleStripe(s, event))
  {
    match event
    case SessionCompleted(p, paid, total, intent) =>
      if Complete(s, p, Some(intent)).Success? { CompleteProgress(s, p, Some(intent)); }
    case AsyncPaymentSucceeded(p, total, intent) =>
      if Complete(s, p, Some(intent)).Success? { CompleteProgress(s, p, Some(intent)); }
    case _ =>
  }

  lemma ReviewProgress(s: Tables, p: nat, approve: bool)
    ensures PurchaseProgress(s, Review(s, p, approve))
  {
    if Complete(s, p, None).Success? { CompleteProgress(s, p, None); }
  }

  lemma SubmitProgress(s: Tables, t: TenantId, rail: Rail, amount: real, now: int)
    ensures PurchaseProgress(s, Submit(s, t, rail, amount, now))
  {
    StoredBounded(amount, 0);
  }

  lemma StaleWriteKeeps(s: Tables, k: nat)
    requires PurchaseInv(s)
    ensures PurchaseInv(WriteStale(s, k)) && PurchaseProgress(s, WriteStale(s, k))
  {
    if k < |s.stale| { assert s.stale[k] in s.stale; }
  }

  lemma PurchaseOpKeeps(s: System, op: Op)
    requires SystemInv(s)
    requires op.SubmitPurchase? || op.StripeWebhook? || op.CancelPurchase? || op.ReviewPurchase?
      || op.LandStaleWrite? || op.SweepPurchases?
    ensures SystemInv(Step(s, op))
  {
    var tables := s.office.desk.tables;
    hide Inv, PurchaseInv, RefundInv, ReversalInv, MeterInv, PurchaseProgress;
    match op
    case SubmitPurchase(t, rail, amount, now) =>
      SubmitKeeps(tables, t, rail, amount, now);
      SubmitProgress(tables, t, rail, amount, now);
      PurchaseStepKeeps(s, Submit(tables, t, rail, amount, now));
    case StripeWebhook(event) =>
      StripeKeeps(tables, event);
      StripeProgress(tables, event);
      PurchaseStepKeeps(s, HandleStripe(tables, event));
    case CancelPurchase(t, p) =>
      CancelKeeps(tables, t, p);
      PurchaseStepKeeps(s, Cancel(tables, t, p));
    case ReviewPurchase(p, approve) =>
      ReviewKeeps(tables, p, approve);
      ReviewProgress(tables, p, approve);
      PurchaseStepKeeps(s, Review(tables, p, approve));
    case LandStaleWrite(k) =>
      StaleWriteKeeps(tables, k);
      PurchaseStepKeeps(s, WriteStale(tables, k));
    case SweepPurchases(cutoff) =>
      SweepKeeps(tables, cutoff);
      PurchaseStepKeeps(s, ExpireStale(tables, cutoff));
  }

  lemma CancelKeeps(s: Tables, t: TenantId, p: nat)
    requires PurchaseInv(s)
    ensures PurchaseInv(Cancel(s, t, p)) && PurchaseProgress(s, Cancel(s, t, p)) && Cancel(s, t, p).bank == s.bank
  {}

  lemma SweepKeeps(s: Tables, cutoff: int)
    requires PurchaseInv(s)
    ensures PurchaseInv(ExpireStale(s, cutoff)) && PurchaseProgress(s, ExpireStale(s, cutoff))
    ensures ExpireStale(s, cutoff).bank == s.bank
  {
    forall p | 0 <= p < |s.purchases|
      ensures RowBooked(ExpireStale(s, cutoff).purchases[p], EntriesFor(s.bank.ledger, p))
    {
      assert RowBooked(s.purchases[p], EntriesFor(s.bank.ledger, p));
    }
  }

  // ---- refunds and disputes

  lemma RefundHolds(d: Desk, t: TenantId, amount: real, kind: RefundKind, purchase: Option<nat>, card: CardOutcome)
    ensures Create(d, t, amount, kind, purchase, card).tables.bank.holds == d.tables.bank.holds
  {}

  lemma ActionHolds(o: Office, d: nat, action: Action)
    ensures AdminAction(o, d, action).desk.tables.bank.holds == o.desk.tables.bank.holds
  {
    if d < |o.disputes| {
      match action
      case ApproveRefund(amount, kind, purchase, card) =>
        RefundHolds(o.desk, o.disputes[d].tenant, amount, kind, purchase, card);
      case _ =>
    }
  }

  lemma OfficeOpKeeps(s: System, office: Office)
    requires SystemInv(s) && OfficeInv(office) && office.desk.tables.bank.holds == BankOf(s).holds
    ensures SystemInv(s.(office := office))
  {
    hide DeskInv, ReversalInv, MeterInv;
    MeterRides(MeterOf(s), office.desk.tables.bank);
  }

  lemma IssueRefundKeeps(s: System, t: TenantId, amount: real, kind: RefundKind, purchase: Option<nat>,
                         card: CardOutcome)
    requires SystemInv(s)
    ensures SystemInv(Step(s, IssueRefund(t, amount, kind, purchase, card)))
  {
    hide Inv, PurchaseInv, RefundInv, DeskInv, ReversalInv, MeterInv, Create;
    var desk := s.office.desk;
    var desk' := Create(desk, t, amount, kind, purchase, card);
    CreateKeeps(desk, t, amount, kind, purchase, card);
    RefundLedger(desk, t, amount, kind, purchase, card);
    RefundHolds(desk, t, amount, kind, purchase, card);
    var l, l' := desk.tables.bank.ledger, desk'.tables.bank.ledger;
    if l' != l { OtherEntryKeepsReversals(l, l'[|l|]); }
    OfficeOpKeeps(s, s.office.(desk := desk'));
  }

  // ---- every run

  lemma StepKeeps(s: System, op: Op)
    requires SystemInv(s)
    ensures SystemInv(Step(s, op))
  {
    hide Inv, PurchaseInv, RefundInv, ReversalInv, MeterInv;
    match op
    case TouchWallet(t) =>
      TouchKeepsInv(BankOf(s), t);
      WalletOnlyKeeps(s, Touch(BankOf(s), t));
    case ChangeSettings(t, status, threshold) =>
      SettingsKeepsInv(BankOf(s), t, status, threshold);
      WalletOnlyKeeps(s, Settings(BankOf(s), t, status, threshold));
    case Adjust(t, kind, amount) => AdjustKeeps(s, t, kind, amount);
    case PrepareCall(t, price, enforced, admitted, prompt, maxCompletion, expiresAt) =>
      PrepareCallKeeps(s, t, price, enforced, admitted, prompt, maxCompletion, expiresAt);
    case SettleCall(i, success, usage) => SettleCallKeeps(s, i, success, usage);
    case ExpireHold(i) => ExpireHoldKeeps(s, i);
    case IssueRefund(t, amount, kind, purchase, card) => IssueRefundKeeps(s, t, amount, kind, purchase, card);
    case OpenDispute(t) => OfficeOpKeeps(s, s.office.(disputes := s.office.disputes + [Dispute(t, Open)]));
    case ActOnDispute(d, action) =>
      AdminActionKeeps(s.office, d, action);
      ActionHolds(s.office, d, action);
      OfficeOpKeeps(s, AdminAction(s.office, d, action));
    case _ => PurchaseOpKeeps(s, op);
  }

  /** s is where some run from the start can get. */
  ghost predicate Reaches(ops: seq<Op>, s: System)
    decreases |ops|
  {
    if ops == [] then s == Start
    else
      var last := ops[|ops| - 1];
      exists before: System ::
        Reaches(ops[..|ops| - 1], before) && WellFormed(BankOf(before)) && Step(before, last) == s
  }

  lemma {:induction false} RunKeeps(ops: seq<Op>, s: System)
    requires Reaches(ops, s)
    ensures SystemInv(s)
    decreases |ops|
  {
    if ops == [] {
      StartBalanced();
    } else {
      var before: System :| Reaches(ops[..|ops| - 1], before) && WellFormed(BankOf(before))
                            && Step(before, ops[|ops| - 1]) == s;
      RunKeeps(ops[..|ops| - 1], before);
      StepKeeps(before, ops[|ops| - 1]);
    }
  }

  /** The parts of the invariant, for the theorems about runs. */
  lemma RunSound(ops: seq<Op>, s: System)
    requires Reaches(ops, s)
    ensures Inv(BankOf(s)) && PurchaseInv(s.office.desk.tables) && RefundInv(s.office.desk) && DeskInv(s.office.desk)
    ensures ReversalInv(BankOf(s).ledger) && MeterInv(MeterOf(s))
  {
    hide Inv, PurchaseInv, RefundInv, ReversalInv, MeterInv, Reaches;
    RunKeeps(ops, s);
  }

  lemma EmptyBankBalanced()
    ensures Inv(Empty)
  {}

  lemma EmptyDeskBalanced()
    ensures PurchaseInv(Tables(Empty, [], [])) && RefundInv(Desk(Tables(Empty, [], []), []))
  {}

  lemma NoReversals()
    ensures ReversalInv([])
  {}

  lemma EmptyMeterBalanced()
    ensures MeterInv(Meter(Empty, [], []))
  {
    forall t ensures LoggedCharges([], t) == HoldTotal([], t, Settled) {}
  }

  lemma StartBalanced()
    ensures SystemInv(Start)
  {
    hide Inv, PurchaseInv, RefundInv, ReversalInv, MeterInv;
    EmptyBankBalanced();
    EmptyDeskBalanced();
    NoReversals();
    EmptyMeterBalanced();
  }
}
