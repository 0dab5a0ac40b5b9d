/** What a run has done, not only where it ended: writes that landed late, and money that left by
    the card network. */
module BillingHistories {
  import opened Wrappers
  import opened Money
  import opened Bank
  import opened LedgerTotals
  import opened BankInvariant
  import opened Purchases
  import opened Refunds
  import opened Disputes
  import opened Charging
  import opened BillingRuns
  import Pricing

  function StateAfter(ops: seq<Op>): System {
    if ops == [] then Start
    else
      var before := StateAfter(ops[..|ops| - 1]);
      if WellFormed(BankOf(before)) then Step(before, ops[|ops| - 1]) else before
  }

  /** A run ends in one state. */
  lemma {:induction false} ReachedState(ops: seq<Op>, s: System)
    ensures Reaches(ops, s) <==> s == StateAfter(ops)
    decreases |ops|
  {
    hide Step, SystemInv;
    if ops != [] {
      var prefix := ops[..|ops| - 1];
      var before := StateAfter(prefix);
      ReachedState(prefix, before);
      RunSound(prefix, before);
      HoldsHaveWallets(BankOf(before));
      forall other | Reaches(prefix, other) ensures other == before { ReachedState(prefix, other); }
    }
  }

  lemma OneMoreStep(ops: seq<Op>, op: Op)
    ensures SystemInv(StateAfter(ops)) && WellFormed(BankOf(StateAfter(ops)))
    ensures StateAfter(ops + [op]) == Step(StateAfter(ops), op)
  {
    hide Step, SystemInv;
    assert (ops + [op])[..|ops|] == ops;
    ReachedState(ops, StateAfter(ops));
    RunKeeps(ops, StateAfter(ops));
    RunSound(ops, StateAfter(ops));
    HoldsHaveWallets(BankOf(StateAfter(ops)));
  }

  // ---- what a step may do to a purchase

  function RowsOf(s: System): seq<CreditPurchase> { s.office.desk.tables.purchases }

  function Entries(s: System, p: nat): nat { EntriesFor(BankOf(s).ledger, p) }

  /** The stale write that lands on p in this step. */
  predicate LandsOn(s: System, op: Op, p: nat) {
    && op.LandStaleWrite? && op.write < |s.office.desk.tables.stale|
    && s.office.desk.tables.stale[op.write].purchase == p < |RowsOf(s)|
  }

  /** The call of this step completes p: an event proves its payment or an approval decides its bank
      transfer, the row is PENDING and the wallet can take the credits. */
  predicate CompletesNow(s: System, op: Op, p: nat) {
    && p < |RowsOf(s)| && RowsOf(s)[p].status == Pending && Creditable(s.office.desk.tables, p)
    && (|| (op.StripeWebhook? && ProvesPayment(s.office.desk.tables, op.event) && op.event.purchase == p)
        || (op.ReviewPurchase? && op.approve && op.purchase == p && RowsOf(s)[p].rail == BankTransfer))
  }

  /** A row stays, is completed with its entry, timed out without one, overwritten by a stale write
      or turned REFUNDED; its amount and tenant stay in any case. */
  ghost predicate Moves(s: System, s': System, op: Op, p: nat)
    requires p < |RowsOf(s)| && p < |RowsOf(s')|
  {
    var from, to := RowsOf(s)[p].status, RowsOf(s')[p].status;
    && RowsOf(s')[p].amount == RowsOf(s)[p].amount && RowsOf(s')[p].tenant == RowsOf(s)[p].tenant
    && if LandsOn(s, op, p) then to == s.office.desk.tables.stale[op.write].status && Entries(s', p) == Entries(s, p)
       else if CompletesNow(s, op, p) then to == Completed && Entries(s', p) == Entries(s, p) + 1
       else
         || (to == from && Entries(s', p) == Entries(s, p))
         || (from == Pending && to == TimedOut && Entries(s', p) == Entries(s, p))
         || (to == Refunded && Entries(s', p) == Entries(s, p) == 1)
  }

  /** No PURCHASE entry is added. */
  ghost predicate NoPurchaseEntry(l: seq<Entry>, l': seq<Entry>) {
    l' == l || (|l'| == |l| + 1 && l' == l + [l'[|l|]] && l'[|l|].kind != Purchase)
  }

  lemma EntriesUnmoved(l: seq<Entry>, l': seq<Entry>, p: nat)
    requires NoPurchaseEntry(l, l')
    ensures EntriesFor(l', p) == EntriesFor(l, p)
  {
    if l' != l { EntriesForAppend(l, l'[|l|], p); }
  }

  lemma PostLedger(b: Bank, t: TenantId, kind: EntryKind, amount: real, origin: Origin, allowNegative: bool)
    requires kind != Purchase
    ensures NoPurchaseEntry(b.ledger, Kept(b, Post(b, t, kind, amount, origin, allowNegative)).ledger)
  {
    var w := WalletOf(b, t);
    if PostRefusal(w, amount, allowNegative).None? {
      assert Post(b, t, kind, amount, origin, allowNegative).value.ledger
          == b.ledger + [EntryFor(t, w, kind, amount, origin)];
    }
  }

  lemma BankStepMoves(s: System, op: Op, p: nat)
    requires SystemInv(s) && WellFormed(BankOf(s)) && p < |RowsOf(s)|
    requires op.TouchWallet? || op.ChangeSettings? || op.Adjust? || op.PrepareCall? || op.SettleCall? || op.ExpireHold?
      || op.OpenDispute?
    ensures RowsOf(Step(s, op)) == RowsOf(s) && Entries(Step(s, op), p) == Entries(s, p)
  {
    hide SystemInv, Post, Prepare, Settle, EntriesFor;
    match op
    case Adjust(t, kind, amount) =>
      if Adjustable(kind) {
        PostLedger(BankOf(s), t, kind, amount, ByAdmin, false);
        EntriesUnmoved(BankOf(s).ledger, BankOf(Step(s, op)).ledger, p);
      }
    case PrepareCall(t, price, enforced, admitted, prompt, maxCompletion, expiresAt) =>
      PrepareLedger(MeterOf(s), t, price, enforced, admitted, prompt, maxCompletion, expiresAt);
    case SettleCall(i, success, usage) =>
      SettleLedger(MeterOf(s), i, success, usage);
      EntriesUnmoved(BankOf(s).ledger, BankOf(Step(s, op)).ledger, p);
    case _ =>
  }

  lemma RefundMoves(d: Desk, t: TenantId, amount: real, kind: RefundKind, purchase: Option<nat>, card: CardOutcome,
                    p: nat)
    requires PurchaseInv(d.tables) && p < |d.tables.purchases|
    ensures var d' := Create(d, t, amount, kind, purchase, card);
      && |d'.tables.purchases| == |d.tables.purchases|
      && EntriesFor(d'.tables.bank.ledger, p) == EntriesFor(d.tables.bank.ledger, p)
      && (d'.tables.purchases[p] == d.tables.purchases[p]
          || (d'.tables.purchases[p] == d.tables.purchases[p].(status := Refunded)
              && EntriesFor(d.tables.bank.ledger, p) == 1))
  {
    hide Post, EntriesFor, RefundedSoFar;
    var l, l' := d.tables.bank.ledger, Create(d, t, amount, kind, purchase, card).tables.bank.ledger;
    RefundLedger(d, t, amount, kind, purchase, card);
    EntriesUnmoved(l, l', p);
    assert RowBooked(d.tables.purchases[p], EntriesFor(l, p));
  }

  lemma ActionMoves(o: Office, d: nat, action: Action, p: nat)
    requires PurchaseInv(o.desk.tables) && p < |o.desk.tables.purchases|
    ensures var tables, tables' := o.desk.tables, AdminAction(o, d, action).desk.tables;
      && |tables'.purchases| == |tables.purchases|
      && EntriesFor(tables'.bank.ledger, p) == EntriesFor(tables.bank.ledger, p)
      && (tables'.purchases[p] == tables.purchases[p]
          || (tables'.purchases[p] == tables.purchases[p].(status := Refunded)
              && EntriesFor(tables.bank.ledger, p) == 1))
  {
    hide Post, EntriesFor, Create, PurchaseInv;
    if d < |o.disputes| {
      var bank, t := o.desk.tables.bank, o.disputes[d].tenant;
      match action
      case ApproveRefund(amount, kind, purchase, card) => RefundMoves(o.desk, t, amount, kind, purchase, card, p);
      case IssueBonus(credits) =>
        PostLedger(bank, t, BonusCredit, credits, ForDispute(d), false);
        EntriesUnmoved(bank.ledger, AdminAction(o, d, action).desk.tables.bank.ledger, p);
      case ManualAdjustment(delta) =>
        PostLedger(bank, t, DisputeResolution, delta, ForDispute(d), false);
        EntriesUnmoved(bank.ledger, AdminAction(o, d, action).desk.tables.bank.ledger, p);
      case ReverseCharge(k) =>
        if Reversible(bank.ledger, t, k) {
          PostLedger(bank, t, ChargeReversal, -(bank.ledger[k].amount as real), ForEntry(k), false);
          EntriesUnmoved(bank.ledger, AdminAction(o, d, action).desk.tables.bank.ledger, p);
        }
      case _ =>
    }
  }

  /** Completing q concerns p only if it is p, PENDING and creditable. */
  lemma CompleteMoves(s: Tables, q: nat, intent: Option<bool>, p: nat)
    requires PurchaseInv(s) && p < |s.purchases|
    ensures var s' := Kept(s, Complete(s, q, intent));
      && |s'.purchases| == |s.purchases|
      && s'.purchases[p].amount == s.purchases[p].amount && s'.purchases[p].tenant == s.purchases[p].tenant
      && if q == p && s.purchases[p].status == Pending && Creditable(s, p)
         then s'.purchases[p].status == Completed
              && EntriesFor(s'.bank.ledger, p) == EntriesFor(s.bank.ledger, p) + 1
         else s'.purchases[p].status == s.purchases[p].status
              && EntriesFor(s'.bank.ledger, p) == EntriesFor(s.bank.ledger, p)
  {
    hide EntriesFor, Creditable, PurchaseInv;
    if q < |s.purchases| && s.purchases[q].status == Pending {
      PendingIsCompletedExactly(s, q, intent);
      if Complete(s, q, intent).Success? {
        var row := s.purchases[q];
        var e := EntryFor(row.tenant, WalletOf(s.bank, row.tenant), Purchase, row.amount as real, ForPurchase(q));
        assert Complete(s, q, intent).value.bank.ledger == s.bank.ledger + [e];
        EntriesForAppend(s.bank.ledger, e, p);
      }
    }
  }

  lemma WebhookMoves(s: System, event: StripeEvent, p: nat)
    requires PurchaseInv(s.office.desk.tables) && WellFormed(BankOf(s)) && p < |RowsOf(s)|
    ensures var s' := Step(s, StripeWebhook(event)); p < |RowsOf(s')| && Moves(s, s', StripeWebhook(event), p)
  {
    hide Complete, EntriesFor, Creditable, PurchaseInv, Post;
    var tables := s.office.desk.tables;
    match event
    case SessionCompleted(q, _, _, intent) => CompleteMoves(tables, q, Some(intent), p);
    case AsyncPaymentSucceeded(q, _, intent) => CompleteMoves(tables, q, Some(intent), p);
    case _ =>
  }

  lemma ReviewMoves(s: System, q: nat, approve: bool, p: nat)
    requires PurchaseInv(s.office.desk.tables) && WellFormed(BankOf(s)) && p < |RowsOf(s)|
    ensures var s' := Step(s, ReviewPurchase(q, approve));
      p < |RowsOf(s')| && Moves(s, s', ReviewPurchase(q, approve), p)
  {
    hide Complete, EntriesFor, Creditable, PurchaseInv, Post;
    CompleteMoves(s.office.desk.tables, q, None, p);
  }

  lemma PurchaseStepMoves(s: System, op: Op, p: nat)
    requires PurchaseInv(s.office.desk.tables) && WellFormed(BankOf(s)) && p < |RowsOf(s)|
    requires op.SubmitPurchase? || op.StripeWebhook? || op.CancelPurchase? || op.ReviewPurchase?
      || op.LandStaleWrite? || op.SweepPurchases?
    ensures p < |RowsOf(Step(s, op))| && Moves(s, Step(s, op), op, p)
  {
    match op
    case StripeWebhook(event) => WebhookMoves(s, event, p);
    case ReviewPurchase(q, approve) => ReviewMoves(s, q, approve, p);
    case _ =>
      hide HandleStripe, Review, Complete, EntriesFor, Creditable, PurchaseInv, Post, ProvesPayment;
  }

  lemma StepMoves(s: System, op: Op, p: nat)
    requires SystemInv(s) && WellFormed(BankOf(s)) && p < |RowsOf(s)|
    ensures p < |RowsOf(Step(s, op))| && Moves(s, Step(s, op), op, p)
  {
    hide EntriesFor, Create, AdminAction, Inv, PurchaseInv, RefundInv, ReversalInv, MeterInv;
    match op
    case IssueRefund(t, amount, kind, purchase, card) => RefundMoves(s.office.desk, t, amount, kind, purchase, card, p);
    case ActOnDispute(d, action) => ActionMoves(s.office, d, action, p);
    case TouchWallet(_) => BankStepMoves(s, op, p);
    case ChangeSettings(_, _, _) => BankStepMoves(s, op, p);
    case Adjust(_, _, _) => BankStepMoves(s, op, p);
    case PrepareCall(_, _, _, _, _, _, _) => BankStepMoves(s, op, p);
    case SettleCall(_, _, _) => BankStepMoves(s, op, p);
    case ExpireHold(_) => BankStepMoves(s, op, p);
    case OpenDispute(_) => BankStepMoves(s, op, p);
    case _ => PurchaseStepMoves(s, op, p);
  }

  // ---- writes that land late

  /** A stale write meets a row that has been completed since it was read. */
  predicate LandsLate(s: System, op: Op, p: nat) {
    LandsOn(s, op, p) && (RowsOf(s)[p].status == Completed || RowsOf(s)[p].status == Refunded)
  }

  predicate LateWrite(ops: seq<Op>, p: nat) {
    ops != [] && (LateWrite(ops[..|ops| - 1], p) || LandsLate(StateAfter(ops[..|ops| - 1]), ops[|ops| - 1], p))
  }

  /** Cancelled or rejected with its credits granted. */
  ghost predicate Overwritten(s: System, p: nat) {
    p < |RowsOf(s)| && (RowsOf(s)[p].status == Cancelled || RowsOf(s)[p].status == Rejected) && Entries(s, p) == 1
  }

  /** In every run, a purchase is cancelled or rejected with its credits granted if and only if a
      cancellation or rejection that saw it PENDING was written after it had been completed, and
      no refund has relabelled it since. */
  lemma {:induction false} OverwrittenExactly(ops: seq<Op>, p: nat)
    ensures Overwritten(StateAfter(ops), p)
      <==> LateWrite(ops, p) && p < |RowsOf(StateAfter(ops))| && RowsOf(StateAfter(ops))[p].status != Refunded
    ensures LateWrite(ops, p) ==>
      && p < |RowsOf(StateAfter(ops))| && Entries(StateAfter(ops), p) == 1
      && RowsOf(StateAfter(ops))[p].status in {Cancelled, Rejected, Refunded}
    decreases |ops|
  {
    hide Step, EntriesFor, SystemInv, Moves;
    if ops != [] {
      var prefix, op := ops[..|ops| - 1], ops[|ops| - 1];
      var s := StateAfter(prefix);
      OverwrittenExactly(prefix, p);
      assert ops == prefix + [op];
      OneMoreStep(prefix, op);
      assert StateAfter(ops) == Step(s, op);
      StepOverwrites(s, op, p);
    }
  }

  lemma StepOverwrites(s: System, op: Op, p: nat)
    requires SystemInv(s) && WellFormed(BankOf(s))
    ensures var s' := Step(s, op);
      && (p < |RowsOf(s)| ==> p < |RowsOf(s')|)
      && (Overwritten(s', p) ==> p < |RowsOf(s)| && (LandsLate(s, op, p) || Overwritten(s, p)))
      && (LandsLate(s, op, p) ==> Overwritten(s', p))
      && (Overwritten(s, p) || (p < |RowsOf(s)| && RowsOf(s)[p].status == Refunded && !LandsLate(s, op, p)) ==>
            Overwritten(s', p) || RowsOf(s')[p].status == Refunded)
      && (p < |RowsOf(s')| && RowsOf(s')[p].status == Refunded ==> Entries(s', p) == 1)
  {
    hide Step, EntriesFor, Inv, RefundInv, ReversalInv, MeterInv;
    StepKeeps(s, op);
    if p < |RowsOf(s)| {
      StepMoves(s, op, p);
      StepBooked(s, op, p);
    } else if p < |RowsOf(Step(s, op))| {
      NewRowIsPending(s, op, p);
    }
  }

  lemma StepBooked(s: System, op: Op, p: nat)
    requires SystemInv(s) && WellFormed(BankOf(s)) && p < |RowsOf(s)| && p < |RowsOf(Step(s, op))|
    ensures RowBooked(RowsOf(s)[p], Entries(s, p)) && RowBooked(RowsOf(Step(s, op))[p], Entries(Step(s, op), p))
    ensures LandsOn(s, op, p) ==> s.office.desk.tables.stale[op.write].status in {Cancelled, Rejected}
  {
    hide Step, EntriesFor, Inv, RefundInv, ReversalInv, MeterInv, RowBooked;
    StepKeeps(s, op);
  }

  lemma NewRowIsPending(s: System, op: Op, p: nat)
    requires SystemInv(s) && WellFormed(BankOf(s)) && |RowsOf(s)| <= p < |RowsOf(Step(s, op))|
    ensures RowsOf(Step(s, op))[p].status == Pending
  {
    hide EntriesFor, Inv, RefundInv, ReversalInv, MeterInv, Post, Create, AdminAction, Prepare, Settle;
    match op
    case IssueRefund(t, amount, kind, purchase, card) => RefundRows(s.office.desk, t, amount, kind, purchase, card);
    case ActOnDispute(d, action) => ActionRows(s.office, d, action);
    case _ =>
  }

  lemma RefundRows(d: Desk, t: TenantId, amount: real, kind: RefundKind, purchase: Option<nat>, card: CardOutcome)
    ensures |Create(d, t, amount, kind, purchase, card).tables.purchases| == |d.tables.purchases|
  {
    hide Post, RefundedSoFar;
  }

  lemma ActionRows(o: Office, d: nat, action: Action)
    ensures |AdminAction(o, d, action).desk.tables.purchases| == |o.desk.tables.purchases|
  {
    hide Post, Create;
    if d < |o.disputes| && action.ApproveRefund? {
      RefundRows(o.desk, o.disputes[d].tenant, action.amount, action.kind, action.purchase, action.card);
    }
  }

  // ---- purchases that get their credits

  predicate Completing(ops: seq<Op>, p: nat) {
    ops != [] && (Completing(ops[..|ops| - 1], p) || CompletesNow(StateAfter(ops[..|ops| - 1]), ops[|ops| - 1], p))
  }

  /** In every run, a purchase has its credits if and only if some event that proved its payment, or
      some approval of its bank transfer, found it PENDING and its wallet able to take them. */
  lemma {:induction false} CreditedExactly(ops: seq<Op>, p: nat)
    ensures p < |RowsOf(StateAfter(ops))| && Entries(StateAfter(ops), p) == 1 <==> Completing(ops, p)
    decreases |ops|
  {
    hide Step, EntriesFor, SystemInv, Moves, CompletesNow;
    if ops != [] {
      var prefix, op := ops[..|ops| - 1], ops[|ops| - 1];
      assert ops == prefix + [op];
      CreditedExactly(prefix, p);
      OneMoreStep(prefix, op);
      StepCredits(StateAfter(prefix), op, p);
    }
  }

  lemma StepCredits(s: System, op: Op, p: nat)
    requires SystemInv(s) && WellFormed(BankOf(s))
    ensures var s' := Step(s, op);
      p < |RowsOf(s')| && Entries(s', p) == 1 <==>
        (p < |RowsOf(s)| && Entries(s, p) == 1) || CompletesNow(s, op, p)
  {
    hide Step, EntriesFor, Inv, RefundInv, ReversalInv, MeterInv, Creditable, ProvesPayment;
    StepKeeps(s, op);
    if p < |RowsOf(s)| {
      StepMoves(s, op, p);
      StepBooked(s, op, p);
    } else if p < |RowsOf(Step(s, op))| {
      NewRowIsPending(s, op, p);
      assert RowBooked(RowsOf(Step(s, op))[p], Entries(Step(s, op), p));
    }
  }

  /** A purchase that has left PENDING without its credits never gets them, whatever happens next. */
  lemma {:induction false} LostForGood(ops: seq<Op>, more: seq<Op>, p: nat)
    requires p < |RowsOf(StateAfter(ops))|
    requires RowsOf(StateAfter(ops))[p].status != Pending && Entries(StateAfter(ops), p) == 0
    ensures p < |RowsOf(StateAfter(ops + more))|
    ensures RowsOf(StateAfter(ops + more))[p].status != Pending && Entries(StateAfter(ops + more), p) == 0
    decreases |more|
  {
    hide Step, StateAfter, EntriesFor, SystemInv;
    if more == [] {
      assert ops + more == ops;
    } else {
      var prefix, op := more[..|more| - 1], more[|more| - 1];
      assert ops + more == ops + prefix + [op];
      LostForGood(ops, prefix, p);
      OneMoreStep(ops + prefix, op);
      StepMoves(StateAfter(ops + prefix), op, p);
      StepBooked(StateAfter(ops + prefix), op, p);
    }
  }

  // ---- money that leaves by the card network

  datatype RefundCall = RefundCall(
    tenant: TenantId, amount: real, kind: RefundKind, against: Option<nat>, card: CardOutcome)

  /** The refund call of a step, if it makes one. */
  function CallOf(s: System, op: Op): Option<RefundCall> {
    match op
    case IssueRefund(t, amount, kind, against, card) => Some(RefundCall(t, amount, kind, against, card))
    case ActOnDispute(d, ApproveRefund(amount, kind, against, card)) =>
      if d >= |s.office.disputes| || s.office.disputes[d].status == Shut || (kind == Cash && against.None?) then None
      else Some(RefundCall(s.office.disputes[d].tenant, amount, kind, against, card))
    case _ => None
  }

  /** The call asks the card network for money back on purchase p. */
  predicate AsksFor(d: Desk, c: RefundCall, p: nat) {
    && c.kind == Cash && c.against == Some(p)
    && !Turned(d.tables.purchases, d.refunds, c.tenant, c.amount, c.kind, c.against)
  }

  /** The ledger takes the refund, and its row becomes COMPLETED. */
  predicate IsBooked(d: Desk, c: RefundCall) {
    c.card == CardAccepted && WalletOf(d.tables.bank, c.tenant).status != Closed
  }

  /** What the network pays for p in a call, with `left` left of the charge: the cents asked for, or
      all that is left where the amount is left out. */
  function CallPayout(d: Desk, c: RefundCall, p: nat, left: int): int {
    if !AsksFor(d, c, p) || !Pays(c.card) then 0
    else match RequestFor(c.amount).cents
      case Some(cents) => cents * 10000
      case None => left
  }

  /** What the call adds to the completed cash refunds of p. */
  function CallBooking(d: Desk, c: RefundCall, p: nat): int {
    if AsksFor(d, c, p) && IsBooked(d, c) then Stored(c.amount) else 0
  }

  /** The customer's charge for p, in whole cents. */
  function Charge(s: System, p: nat): int { if p < |RowsOf(s)| then Cents(RowsOf(s)[p].amount) * 10000 else 0 }

  /** What is left of it when so much has been paid out. */
  function Left(s: System, p: nat, paid: int): int { if Charge(s, p) > paid then Charge(s, p) - paid else 0 }

  function StepPayout(s: System, op: Op, p: nat, paid: int): int {
    match CallOf(s, op)
    case None => 0
    case Some(c) => CallPayout(s.office.desk, c, p, Left(s, p, paid))
  }

  function StepBooking(s: System, op: Op, p: nat): int {
    match CallOf(s, op)
    case None => 0
    case Some(c) => CallBooking(s.office.desk, c, p)
  }

  /** All that the card network has paid out for p in a run. */
  function CardPaid(ops: seq<Op>, p: nat): int {
    if ops == [] then 0
    else
      var paid := CardPaid(ops[..|ops| - 1], p);
      paid + StepPayout(StateAfter(ops[..|ops| - 1]), ops[|ops| - 1], p, paid)
  }

  /** The completed cash refunds of p. */
  function CashBack(rs: seq<RefundRow>, p: nat): int {
    if rs == [] then 0
    else
      var r := rs[|rs| - 1];
      CashBack(rs[..|rs| - 1], p) + if r.purchase == Some(p) && r.kind == Cash && r.status == Done then r.amount else 0
  }

  function Booked(s: System, p: nat): int { CashBack(s.office.desk.refunds, p) }

  lemma CashBackAppend(rs: seq<RefundRow>, r: RefundRow, p: nat)
    ensures CashBack(rs + [r], p)
         == CashBack(rs, p) + if r.purchase == Some(p) && r.kind == Cash && r.status == Done then r.amount else 0
  {
    assert (rs + [r])[..|rs|] == rs;
  }

  lemma {:induction false} CashBackIsPaidBack(rs: seq<RefundRow>, p: nat)
    requires forall r :: r in rs ==> r.amount >= 0
    ensures 0 <= CashBack(rs, p) <= PaidBack(rs, p)
  {
    if rs != [] {
      var before, r := rs[..|rs| - 1], rs[|rs| - 1];
      assert rs == before + [r];
      CashBackIsPaidBack(before, p);
    }
  }

  /** A cash refund that the card network accepted is refused by the ledger exactly when the wallet
      is CLOSED; it is then marked FAILED although the money has left. */
  lemma AcceptedCashIsBookedExactly(d: Desk, t: TenantId, amount: real, against: Option<nat>)
    requires amount > 0.0 && !Turned(d.tables.purchases, d.refunds, t, amount, Cash, against)
    ensures var d' := Create(d, t, amount, Cash, against, CardAccepted);
      && |d'.refunds| == |d.refunds| + 1 && d'.refunds[..|d.refunds|] == d.refunds
      && d'.refunds[|d.refunds|] == RefundRow(t, against, Stored(amount), Cash,
           if WalletOf(d.tables.bank, t).status == Closed then Failed else Done)
  {
    hide RefundedSoFar, Stored, Charged, InFull;
    assert WalletOf(Touch(d.tables.bank, t), t) == WalletOf(d.tables.bank, t);
  }

  lemma CallBooks(d: Desk, c: RefundCall, p: nat)
    ensures CashBack(Create(d, c.tenant, c.amount, c.kind, c.against, c.card).refunds, p)
         == CashBack(d.refunds, p) + CallBooking(d, c, p)
  {
    hide CashBack, RefundedSoFar, Stored, Turned, InFull, Post, MarkRefunded;
    var d' := Create(d, c.tenant, c.amount, c.kind, c.against, c.card);
    PositiveUnlessTurned(d, c);
    if c.amount > 0.0 && !Turned(d.tables.purchases, d.refunds, c.tenant, c.amount, c.kind, c.against) {
      if c.kind == Cash && c.card == CardAccepted { AcceptedCashIsBookedExactly(d, c.tenant, c.amount, c.against); }
      var row := d'.refunds[|d.refunds|];
      assert d'.refunds == d.refunds + [row];
      CashBackAppend(d.refunds, row, p);
    }
  }

  lemma PositiveUnlessTurned(d: Desk, c: RefundCall)
    ensures !Turned(d.tables.purchases, d.refunds, c.tenant, c.amount, c.kind, c.against) ==> c.amount > 0.0
  {}

  lemma StepBooks(s: System, op: Op, p: nat)
    requires WellFormed(BankOf(s))
    ensures Booked(Step(s, op), p) == Booked(s, p) + StepBooking(s, op, p)
  {
    hide CashBack, Create, CallBooking, HandleStripe, Review, Submit, ExpireStale, WriteStale, Cancel;
    hide Post, Prepare, Settle;
    if CallOf(s, op).Some? { CallBooks(s.office.desk, CallOf(s, op).value, p); }
    if op.ActOnDispute? { ActionBooks(s, op.dispute, op.action, p); }
  }

  lemma ActionBooks(s: System, i: nat, action: Action, p: nat)
    ensures CashBack(AdminAction(s.office, i, action).desk.refunds, p)
         == Booked(s, p) + StepBooking(s, ActOnDispute(i, action), p)
  {
    hide CashBack, Create, CallBooking, Post;
    var call := CallOf(s, ActOnDispute(i, action));
    if call.Some? { CallBooks(s.office.desk, call.value, p); }
  }

  // ---- when a call pays what it books

  /** Math.round in millionths: a positive request is within half a cent of its amount. */
  lemma RequestNear(amount: real)
    requires amount > 0.0
    ensures var r := RequestFor(amount).cents;
      && (r.None? <==> amount < 5000.0)
      && (r.Some? ==> r.value > 0 && -5000.0 <= (r.value * 10000) as real - amount <= 5000.0
                      && (r.value * 10000) as real - amount > -5000.0)
  {
    var x := (amount + 5000.0) / 10000.0;
    var k := x.Floor;
    assert x * 10000.0 == amount + 5000.0;
    assert k as real <= x < k as real + 1.0;
    assert (k * 10000) as real == k as real * 10000.0;
    if amount >= 5000.0 { assert x >= 1.0; } else { assert 0.0 <= x < 1.0; }
  }

  /** The stored amount is a positive whole number of cents. */
  predicate WholeCents(stored: int) { stored > 0 && stored % 10000 == 0 }

  /** What makes a refund call pay exactly what it books, before the call is made: money that is asked
      for and paid is booked, and in whole cents; or it is nothing. */
  predicate PaysItsBooking(d: Desk, c: RefundCall, p: nat, left: int) {
    AsksFor(d, c, p) && Pays(c.card) ==>
      if IsBooked(d, c) then WholeCents(Stored(c.amount)) || (Stored(c.amount) == 0 && left == 0)
      else RequestFor(c.amount).cents.None? && left == 0
  }

  lemma WholeCentsExactly(amount: real)
    requires amount > 0.0
    ensures WholeCents(Stored(amount)) <==>
      RequestFor(amount).cents.Some? && RequestFor(amount).cents.value * 10000 == Stored(amount)
  {
    var r, k := RequestFor(amount).cents, Stored(amount);
    RequestNear(amount);
    StoredNearest(amount);
    hide RequestFor, Stored;
    if WholeCents(k) {
      SameMultiple(k, r, amount);
    }
  }

  lemma SameMultiple(k: int, r: Option<int>, amount: real)
    requires WholeCents(k) && -0.5 <= k as real - amount <= 0.5
    requires r.None? <==> amount < 5000.0
    requires r.Some? ==> -5000.0 < (r.value * 10000) as real - amount <= 5000.0
    ensures r.Some? && r.value * 10000 == k
  {
    assert k == 10000 * (k / 10000);
    assert k >= 10000;
    var gap := r.value * 10000 - k;
    assert -5001.0 < gap as real < 5001.0;
    assert gap == 10000 * (r.value - k / 10000);
  }

  /** A refund call pays what it books if and only if the wallet is not CLOSED, the answer arrives and
      the amount is a positive whole number of cents, or it asks for nothing or nothing is left. */
  lemma PaysItsBookingExactly(d: Desk, c: RefundCall, p: nat, left: int)
    requires left % 10000 == 0
    ensures CallPayout(d, c, p, left) == CallBooking(d, c, p) <==> PaysItsBooking(d, c, p, left)
    ensures CallPayout(d, c, p, left) % 10000 == 0
  {
    PositiveUnlessTurned(d, c);
    if AsksFor(d, c, p) && Pays(c.card) {
      RequestNear(c.amount);
      WholeCentsExactly(c.amount);
      StoredBounded(c.amount, 0);
      StoredBounded(c.amount, 5000);
      hide RequestFor, Stored, AsksFor, IsBooked;
    }
  }

  // ---- over runs

  /** Every call so far was one that pays what it books. */
  predicate AllPayTheirBooking(ops: seq<Op>, p: nat) {
    ops != [] ==>
      var prefix, op := ops[..|ops| - 1], ops[|ops| - 1];
      var s := StateAfter(prefix);
      && AllPayTheirBooking(prefix, p)
      && (CallOf(s, op).Some? ==>
            PaysItsBooking(s.office.desk, CallOf(s, op).value, p, Left(s, p, CardPaid(prefix, p))))
  }

  /** At all times so far, what the network had paid out was what the books had as completed. */
  predicate BooksFollowCard(ops: seq<Op>, p: nat) {
    && CardPaid(ops, p) == Booked(StateAfter(ops), p)
    && (ops != [] ==> BooksFollowCard(ops[..|ops| - 1], p))
  }

  lemma {:induction false} PaidInCents(ops: seq<Op>, p: nat)
    ensures CardPaid(ops, p) % 10000 == 0
    decreases |ops|
  {
    hide StateAfter, CallPayout;
    if ops != [] {
      var prefix, op := ops[..|ops| - 1], ops[|ops| - 1];
      var s, paid := StateAfter(prefix), CardPaid(prefix, p);
      PaidInCents(prefix, p);
      if CallOf(s, op).Some? { PaysItsBookingExactly(s.office.desk, CallOf(s, op).value, p, Left(s, p, paid)); }
    }
  }

  /** In every run the card payouts for a purchase are at all times its completed cash refunds if and
      only if every call was one that pays what it books. */
  lemma {:induction false} BooksFollowCardExactly(ops: seq<Op>, p: nat)
    ensures BooksFollowCard(ops, p) <==> AllPayTheirBooking(ops, p)
    decreases |ops|
  {
    hide Step, StateAfter, CashBack, SystemInv, CallPayout, CallBooking, PaysItsBooking;
    if ops == [] {
      NothingPaidYet(p);
    } else {
      var prefix, op := ops[..|ops| - 1], ops[|ops| - 1];
      var s, paid := StateAfter(prefix), CardPaid(prefix, p);
      assert ops == prefix + [op];
      BooksFollowCardExactly(prefix, p);
      OneMoreStep(prefix, op);
      StepBooks(s, op, p);
      PaidInCents(prefix, p);
      if CallOf(s, op).Some? { PaysItsBookingExactly(s.office.desk, CallOf(s, op).value, p, Left(s, p, paid)); }
      PrefixFollows(ops, p);
    }
  }

  /** The books of the prefix are part of those of the run. */
  lemma PrefixFollows(ops: seq<Op>, p: nat)
    requires ops != []
    ensures BooksFollowCard(ops, p) ==>
      BooksFollowCard(ops[..|ops| - 1], p) && CardPaid(ops[..|ops| - 1], p) == Booked(StateAfter(ops[..|ops| - 1]), p)
  {
    hide StateAfter, CardPaid, CashBack;
  }

  lemma NothingPaidYet(p: nat)
    ensures CardPaid([], p) == 0 && Booked(StateAfter([]), p) == 0
  {
    assert StateAfter([]) == Start;
  }

  /** The payouts of calls that were not booked: the wallet was CLOSED, the answer got lost or the
      process died. */
  function PaidUnbooked(ops: seq<Op>, p: nat): int {
    if ops == [] then 0
    else
      var prefix, op := ops[..|ops| - 1], ops[|ops| - 1];
      var s := StateAfter(prefix);
      PaidUnbooked(prefix, p)
      + if CallOf(s, op).Some? && !IsBooked(s.office.desk, CallOf(s, op).value)
        then StepPayout(s, op, p, CardPaid(prefix, p)) else 0
  }

  /** The payouts of booked calls that asked for less than half a cent, and so for all that was left. */
  function PaidByOmission(ops: seq<Op>, p: nat): int {
    if ops == [] then 0
    else
      var prefix, op := ops[..|ops| - 1], ops[|ops| - 1];
      var s := StateAfter(prefix);
      PaidByOmission(prefix, p)
      + if CallOf(s, op).Some? && IsBooked(s.office.desk, CallOf(s, op).value)
           && RequestFor(CallOf(s, op).value.amount).cents.None?
        then StepPayout(s, op, p, CardPaid(prefix, p)) else 0
  }

  /** A booked call with an amount pays at most twice what it books. */
  lemma PaysAtMostTwice(d: Desk, c: RefundCall, p: nat, left: int)
    requires IsBooked(d, c) && RequestFor(c.amount).cents.Some?
    ensures CallPayout(d, c, p, left) <= 2 * CallBooking(d, c, p)
  {
    PositiveUnlessTurned(d, c);
    if AsksFor(d, c, p) {
      RequestNear(c.amount);
      StoredNearest(c.amount);
      StoredBounded(c.amount, 5000);
      hide RequestFor, Stored, AsksFor;
      if c.amount < 5001.0 {
        SmallRequest(RequestFor(c.amount).cents.value, c.amount);
      }
    }
  }

  lemma SmallRequest(cents: int, amount: real)
    requires 5000.0 <= amount < 5001.0 && (cents * 10000) as real - amount <= 5000.0
    ensures cents <= 1
  {
    assert (cents * 10000) as real < 10001.0;
  }

  lemma {:induction false} CardPayoutsAccounted(ops: seq<Op>, p: nat)
    ensures CardPaid(ops, p) <= 2 * Booked(StateAfter(ops), p) + PaidUnbooked(ops, p) + PaidByOmission(ops, p)
    decreases |ops|
  {
    hide Step, StateAfter, CashBack, SystemInv, CallPayout, CallBooking, RequestFor, IsBooked;
    if ops == [] {
      NothingPaidYet(p);
    } else {
      var prefix, op := ops[..|ops| - 1], ops[|ops| - 1];
      var s, paid := StateAfter(prefix), CardPaid(prefix, p);
      assert ops == prefix + [op];
      CardPayoutsAccounted(prefix, p);
      OneMoreStep(prefix, op);
      StepBooks(s, op, p);
      if CallOf(s, op).Some? {
        var d, c := s.office.desk, CallOf(s, op).value;
        BookingNonNegative(d, c, p);
        if IsBooked(d, c) && RequestFor(c.amount).cents.Some? { PaysAtMostTwice(d, c, p, Left(s, p, paid)); }
      }
    }
  }

  lemma BookingNonNegative(d: Desk, c: RefundCall, p: nat)
    ensures CallBooking(d, c, p) >= 0
  {
    PositiveUnlessTurned(d, c);
    StoredBounded(c.amount, 0);
  }

  /** In every run the card network, if it accepts whatever it is asked, pays out for a purchase at
      most twice its amount, besides what was never booked and what was asked for without an amount;
      and no more than its amount where every call pays what it books. */
  lemma CardPayoutsCapped(ops: seq<Op>, p: nat)
    requires p < |RowsOf(StateAfter(ops))|
    ensures CardPaid(ops, p) <= 2 * RowsOf(StateAfter(ops))[p].amount + PaidUnbooked(ops, p) + PaidByOmission(ops, p)
    ensures AllPayTheirBooking(ops, p) ==> CardPaid(ops, p) <= RowsOf(StateAfter(ops))[p].amount
  {
    hide StateAfter, Inv, PurchaseInv, DeskInv, ReversalInv, MeterInv, Reaches, PaidUnbooked, PaidByOmission;
    hide AllPayTheirBooking;
    var s := StateAfter(ops);
    ReachedState(ops, s);
    RunSound(ops, s);
    CardPayoutsAccounted(ops, p);
    BooksFollowCardExactly(ops, p);
    LiveIsPaidBackOrWaiting(s.office.desk.refunds, p);
    CashBackIsPaidBack(s.office.desk.refunds, p);
  }

  // ---- with a card network that keeps to the charge

  /** The network has paid no call more than was left of the charge. */
  predicate WithinCharge(ops: seq<Op>, p: nat) {
    ops != [] ==>
      var prefix, op := ops[..|ops| - 1], ops[|ops| - 1];
      var s, paid := StateAfter(prefix), CardPaid(prefix, p);
      WithinCharge(prefix, p) && StepPayout(s, op, p, paid) <= Left(s, p, paid)
  }

  lemma ChargeStays(s: System, op: Op, p: nat)
    requires SystemInv(s) && WellFormed(BankOf(s))
    ensures Charge(Step(s, op), p) >= Charge(s, p) >= 0
  {
    hide Step, EntriesFor, Inv, RefundInv, ReversalInv, MeterInv, Creditable, ProvesPayment;
    StepKeeps(s, op);
    if p < |RowsOf(s)| {
      StepMoves(s, op, p);
      assert RowBooked(RowsOf(s)[p], Entries(s, p));
    } else if p < |RowsOf(Step(s, op))| {
      assert RowBooked(RowsOf(Step(s, op))[p], Entries(Step(s, op), p));
    }
  }

  /** Such a network pays out no more than the charge, which is the amount to the nearest cent;
      whatever the books say. */
  lemma {:induction false} ChargeCapsPayouts(ops: seq<Op>, p: nat)
    requires WithinCharge(ops, p)
    ensures CardPaid(ops, p) <= Charge(StateAfter(ops), p)
    decreases |ops|
  {
    hide Step, StepPayout, SystemInv, Cents;
    if ops == [] {
      NothingPaidYet(p);
      assert StateAfter([]) == Start;
    } else {
      var prefix, op := ops[..|ops| - 1], ops[|ops| - 1];
      assert ops == prefix + [op];
      ChargeCapsPayouts(prefix, p);
      OneMoreStep(prefix, op);
      ChargeStays(StateAfter(prefix), op, p);
    }
  }
}
