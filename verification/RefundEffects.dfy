/** What a refund request and a dispute's admin action do, on the columns of the rows they touch. */
module RefundEffects {
  import opened Wrappers
  import opened Money
  import opened Bank
  import opened WalletEffects
  import opened Purchases
  import opened Refunds
  import Disputes

  // ---- refunds

  /** More than nothing; against a purchase, the tenant's own and no more than is left of it; in cash,
      a purchase with a payment intent. */
  predicate RefundOpen(d: Desk, t: TenantId, amount: real, kind: RefundKind, purchase: Option<nat>) {
    && amount > 0.0
    && (purchase.Some? ==>
          && purchase.value < |d.tables.purchases| && d.tables.purchases[purchase.value].tenant == t
          && RefundedSoFar(d.refunds, purchase.value) as real + amount
             <= d.tables.purchases[purchase.value].amount as real)
    && (kind == Cash ==>
          && purchase.Some? && purchase.value < |d.tables.purchases|
          && d.tables.purchases[purchase.value].paidIntent)
  }

  lemma TurnedExactly(d: Desk, t: TenantId, amount: real, kind: RefundKind, purchase: Option<nat>)
    ensures Turned(d.tables.purchases, d.refunds, t, amount, kind, purchase)
      <==> !RefundOpen(d, t, amount, kind, purchase)
  {}

  /** The request asks for the cents nearest to the amount, or leaves them out where those are none. */
  predicate Asks(request: CardRequest, amount: real) {
    match request.cents
    case Some(cents) => cents != 0 && -5000.0 < 10000.0 * cents as real - amount <= 5000.0
    case None => -5000.0 <= amount < 5000.0
  }

  lemma RequestExactly(amount: real)
    ensures Asks(RequestFor(amount), amount)
  {
    var x := (amount + 5000.0) / 10000.0;
    assert 10000.0 * x == amount + 5000.0;
    assert x.Floor as real <= x < x.Floor as real + 1.0;
  }

  /** A refund that reaches the ledger adds to the wallet as credits or takes from it as cash, which may
      overdraw it; the row is COMPLETED with the entry and FAILED without. A cash refund of all that
      was left turns the purchase REFUNDED. */
  ghost predicate RefundPosted(d: Desk, d': Desk, t: TenantId, amount: real, kind: RefundKind, purchase: Option<nat>,
                         refusal: Option<Refusal>)
    requires RefundOpen(d, t, amount, kind, purchase)
  {
    && PostEffect(Touch(d.tables.bank, t), d'.tables.bank, t, Refund, if kind == Cash then -amount else amount,
                  ForRefund(|d.refunds|), kind == Cash, refusal)
    && d'.refunds == d.refunds
         + [RefundRow(t, purchase, Stored(amount), kind, if refusal.None? then Done else Failed)]
    && d'.tables.stale == d.tables.stale
    && d'.tables.purchases ==
         if refusal.None? && kind == Cash
            && RefundedSoFar(d.refunds, purchase.value) as real + amount
               == d.tables.purchases[purchase.value].amount as real
         then d.tables.purchases[purchase.value := d.tables.purchases[purchase.value].(status := Status.Refunded)]
         else d.tables.purchases
  }

  /** Only the tenant's wallet row is there afterwards, and a refund row of this status. */
  predicate RowOnly(d: Desk, d': Desk, t: TenantId, row: RefundRow) {
    d' == Desk(d.tables.(bank := Touch(d.tables.bank, t)), d.refunds + [row])
  }

  ghost predicate CreateEffect(d: Desk, d': Desk, t: TenantId, amount: real, kind: RefundKind, purchase: Option<nat>,
                               card: CardOutcome)
  {
    var row := RefundRow(t, purchase, Stored(amount), kind, Waiting);
    if amount <= 0.0 then d' == d
    else if !RefundOpen(d, t, amount, kind, purchase)
    then d' == d.(tables := d.tables.(bank := Touch(d.tables.bank, t)))
    else if card in {DiedBefore, DiedAfter} then RowOnly(d, d', t, row)
    else if kind == Cash && card in {CardRefused, AnswerLost} then RowOnly(d, d', t, row.(status := Failed))
    else exists refusal :: RefundPosted(d, d', t, amount, kind, purchase, refusal)
  }

  /** A refund request writes nothing but the wallet row unless it is open, and then one refund row, by
      the card network's answer and the ledger's. */
  lemma CreateExactly(d: Desk, t: TenantId, amount: real, kind: RefundKind, purchase: Option<nat>, card: CardOutcome)
    ensures CreateEffect(d, Create(d, t, amount, kind, purchase, card), t, amount, kind, purchase, card)
  {
    TurnedExactly(d, t, amount, kind, purchase);
    var b, id := Touch(d.tables.bank, t), |d.refunds|;
    PostExactly(b, t, Refund, Signed(kind, amount), ForRefund(id), kind == Cash);
    hide Stored, Post, PostEffect, Touch, RefundedSoFar, Turned;
    var d' := Create(d, t, amount, kind, purchase, card);
    if RefundOpen(d, t, amount, kind, purchase) && !Dies(card) && !(kind == Cash && Throws(card)) {
      var refusal := match Post(b, t, Refund, Signed(kind, amount), ForRefund(id), kind == Cash)
        case Success(_) => None
        case Failure(e) => Some(e);
      assert refusal.Some? ==> d'.tables.bank == b;
      assert RefundPosted(d, d', t, amount, kind, purchase, refusal);
    }
  }

  // ---- disputes

  /** The entry is posted and the dispute RESOLVED, or the ledger refuses and nothing changes. */
  ghost predicate Outcome(o: Disputes.Office, o': Disputes.Office, d: nat, kind: EntryKind, amount: real,
                          origin: Origin)
    requires d < |o.disputes|
  {
    exists refusal ::
      && PostEffect(o.desk.tables.bank, o'.desk.tables.bank, o.disputes[d].tenant, kind, amount, origin, false, refusal)
      && (refusal.Some? ==> o' == o)
      && (refusal.None? ==>
            && o'.desk == o.desk.(tables := o.desk.tables.(bank := o'.desk.tables.bank))
            && o'.disputes == o.disputes[d := o.disputes[d].(status := Disputes.Resolved)])
  }

  /** A bonus credits what it says, a reversal the opposite of the charge, an adjustment itself; a
      refund resolves the dispute when it completes; a rejection shuts it and an escalation puts it
      under investigation. */
  ghost predicate AdminEffect(o: Disputes.Office, o': Disputes.Office, d: nat, action: Disputes.Action) {
    if d >= |o.disputes| || o.disputes[d].status == Disputes.Shut then o' == o
    else
      var t, l := o.disputes[d].tenant, o.desk.tables.bank.ledger;
      match action
      case ApproveRefund(amount, kind, purchase, card) =>
        if kind == Cash && purchase.None? then o' == o
        else
          && CreateEffect(o.desk, o'.desk, t, amount, kind, purchase, card)
          && o'.disputes ==
               if |o'.desk.refunds| > |o.desk.refunds| && o'.desk.refunds[|o'.desk.refunds| - 1].status == Done
               then o.disputes[d := o.disputes[d].(status := Disputes.Resolved)] else o.disputes
      case Reject => o' == o.(disputes := o.disputes[d := o.disputes[d].(status := Disputes.Shut)])
      case IssueBonus(credits) =>
        if credits <= 0.0 then o' == o else Outcome(o, o', d, BonusCredit, credits, ForDispute(d))
      case ReverseCharge(k) =>
        if k < |l| && l[k].tenant == t && l[k].kind == UsageCharge
           && !(exists e :: e in l && e.tenant == t && e.kind == ChargeReversal && e.origin == ForEntry(k))
        then Outcome(o, o', d, ChargeReversal, -(l[k].amount as real), ForEntry(k)) else o' == o
      case ManualAdjustment(delta) =>
        if delta == 0.0 then o' == o else Outcome(o, o', d, DisputeResolution, delta, ForDispute(d))
      case Escalate => o' == o.(disputes := o.disputes[d := o.disputes[d].(status := Disputes.UnderInvestigation)])
  }

  lemma OutcomeExactly(o: Disputes.Office, d: nat, kind: EntryKind, amount: real, origin: Origin)
    requires d < |o.disputes|
    ensures Outcome(o, Disputes.PostAndResolve(o, d, kind, amount, origin), d, kind, amount, origin)
  {
    var b, t := o.desk.tables.bank, o.disputes[d].tenant;
    PostExactly(b, t, kind, amount, origin, false);
    hide Post, PostEffect;
    var o' := Disputes.PostAndResolve(o, d, kind, amount, origin);
    var refusal := match Post(b, t, kind, amount, origin, false)
      case Success(_) => None
      case Failure(e) => Some(e);
    assert PostEffect(b, o'.desk.tables.bank, t, kind, amount, origin, false, refusal);
  }

  /** No reversal of the charge is there yet. */
  lemma ReversibleExactly(l: seq<Entry>, t: TenantId, k: nat)
    ensures Disputes.Reversible(l, t, k) <==>
      && k < |l| && l[k].tenant == t && l[k].kind == UsageCharge
      && !(exists e :: e in l && e.tenant == t && e.kind == ChargeReversal && e.origin == ForEntry(k))
  {}

  lemma ReverseExactly(o: Disputes.Office, d: nat, k: nat)
    requires d < |o.disputes| && o.disputes[d].status != Disputes.Shut
    ensures AdminEffect(o, Disputes.AdminAction(o, d, Disputes.ReverseCharge(k)), d, Disputes.ReverseCharge(k))
  {
    var t, l := o.disputes[d].tenant, o.desk.tables.bank.ledger;
    ReversibleExactly(l, t, k);
    hide Outcome, Disputes.PostAndResolve, Disputes.Reversible;
    if Disputes.Reversible(l, t, k) {
      OutcomeExactly(o, d, ChargeReversal, -(l[k].amount as real), ForEntry(k));
    }
  }

  lemma ApprovalExactly(o: Disputes.Office, d: nat, action: Disputes.Action)
    requires d < |o.disputes| && o.disputes[d].status != Disputes.Shut && action.ApproveRefund?
    ensures AdminEffect(o, Disputes.AdminAction(o, d, action), d, action)
  {
    hide CreateEffect, Create;
    CreateExactly(o.desk, o.disputes[d].tenant, action.amount, action.kind, action.purchase, action.card);
  }

  /** An admin action has the effect it names. */
  lemma AdminExactly(o: Disputes.Office, d: nat, action: Disputes.Action)
    ensures AdminEffect(o, Disputes.AdminAction(o, d, action), d, action)
  {
    if d < |o.disputes| && o.disputes[d].status != Disputes.Shut {
      match action
      case ApproveRefund(_, _, _, _) => ApprovalExactly(o, d, action);
      case ReverseCharge(k) => ReverseExactly(o, d, k);
      case _ => PostingExactly(o, d, action);
    }
  }

  lemma PostingExactly(o: Disputes.Office, d: nat, action: Disputes.Action)
    requires d < |o.disputes| && o.disputes[d].status != Disputes.Shut
    requires !action.ApproveRefund? && !action.ReverseCharge?
    ensures AdminEffect(o, Disputes.AdminAction(o, d, action), d, action)
  {
    hide Outcome, Disputes.PostAndResolve;
    match action
    case IssueBonus(credits) => OutcomeExactly(o, d, BonusCredit, credits, ForDispute(d));
    case ManualAdjustment(delta) => OutcomeExactly(o, d, DisputeResolution, delta, ForDispute(d));
    case _ =>
  }
}
