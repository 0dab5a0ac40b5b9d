/** What each purchase call does, on the columns of the rows it touches; the unlocked reads and writes
    apart, as runs take them, and back to back, as a lone call does. */
module PurchaseEffects {
  import opened Wrappers
  import opened Money
  import opened Bank
  import opened WalletEffects
  import opened Purchases

  /** Only the purchase's status becomes this one. */
  predicate StatusWritten(s: Tables, s': Tables, p: nat, status: Status) {
    p < |s.purchases| && s' == s.(purchases := s.purchases[p := s.purchases[p].(status := status)])
  }

  /** A PENDING purchase is posted as a PURCHASE entry of its amount and COMPLETED together with it; a
      COMPLETED one stays as it is, and any other is refused. */
  ghost predicate Completes(s: Tables, s': Tables, p: nat, intent: Option<bool>, refusal: Option<Refusal>) {
    && (refusal == Some(PurchaseNotFound) <==> p >= |s.purchases|)
    && (refusal == Some(PurchaseNotPending) <==>
          p < |s.purchases| && s.purchases[p].status in {Rejected, Cancelled, TimedOut, Status.Refunded})
    && (refusal.Some? ==> s' == s)
    && (p < |s.purchases| && s.purchases[p].status == Completed ==> refusal.None? && s' == s)
    && (p < |s.purchases| && s.purchases[p].status == Pending ==>
          && var row := s.purchases[p];
             && PostEffect(s.bank, s'.bank, row.tenant, Purchase, row.amount as real, ForPurchase(p), false, refusal)
             && (refusal.None? ==>
                   s' == s.(bank := s'.bank, purchases := s.purchases[p := row.(
                     status := Completed,
                     paidIntent := if intent.Some? then intent.value else row.paidIntent)])))
  }

  /** The total is the amount in cents, rounded half up, where the event names one. */
  predicate TotalAgrees(total: Option<int>, amount: int) {
    total.Some? ==> -5000 < 10000 * total.value - amount <= 5000
  }

  /** A paid session of the right total completes its purchase; a failed payment rejects and an expired
      session times out a PENDING one. */
  ghost predicate EventHandled(s: Tables, s': Tables, event: StripeEvent, refusal: Option<Refusal>) {
    match event
    case SessionCompleted(p, paid, total, intent) =>
      if p < |s.purchases| && paid && TotalAgrees(total, s.purchases[p].amount)
      then Completes(s, s', p, Some(intent), refusal) else s' == s && refusal.None?
    case AsyncPaymentSucceeded(p, total, intent) =>
      if p < |s.purchases| && TotalAgrees(total, s.purchases[p].amount)
      then Completes(s, s', p, Some(intent), refusal) else s' == s && refusal.None?
    case AsyncPaymentFailed(p) =>
      refusal.None? && if p < |s.purchases| && s.purchases[p].status == Pending
                       then StatusWritten(s, s', p, Rejected) else s' == s
    case SessionExpired(p) =>
      refusal.None? && if p < |s.purchases| && s.purchases[p].status == Pending
                       then StatusWritten(s, s', p, TimedOut) else s' == s
    case OtherEvent => s' == s && refusal.None?
  }

  // ---- the calls as runs take them

  /** An unlocked read that finds the purchase PENDING leaves a write of this status to come. */
  predicate Seen(s: Tables, s': Tables, p: nat, status: Status) {
    if p < |s.purchases| && s.purchases[p].status == Pending
    then s' == s.(stale := s.stale + [StaleWrite(p, status)]) else s' == s
  }

  /** Only the PENDING card purchases from before the cutoff change, and time out. */
  ghost predicate SweepEffect(s: Tables, s': Tables, cutoff: int) {
    && s'.bank == s.bank && s'.stale == s.stale && |s'.purchases| == |s.purchases|
    && forall k :: 0 <= k < |s.purchases| ==>
         var row := s.purchases[k];
         s'.purchases[k] == if row.rail == Stripe && row.status == Pending && row.createdAt < cutoff
                            then row.(status := TimedOut) else row
  }

  /** The tenant's own purchase, if PENDING, is seen to be so. */
  predicate CancelEffect(s: Tables, s': Tables, t: TenantId, p: nat) {
    if p < |s.purchases| && s.purchases[p].tenant == t then Seen(s, s', p, Cancelled) else s' == s
  }

  ghost predicate SubmitEffect(s: Tables, s': Tables, t: TenantId, rail: Rail, amount: real, now: int) {
    if 1000000.0 <= amount <= 100000000000.0
    then s' == Tables(Touch(s.bank, t),
                      s.purchases + [CreditPurchase(t, rail, Stored(amount), Pending, false, now)], s.stale)
    else s' == s
  }

  /** A failed payment only reads here. */
  ghost predicate EventEffect(s: Tables, s': Tables, event: StripeEvent) {
    if event.AsyncPaymentFailed? then Seen(s, s', event.purchase, Rejected)
    else exists refusal :: EventHandled(s, s', event, refusal)
  }

  ghost predicate ReviewEffect(s: Tables, s': Tables, p: nat, approve: bool) {
    if p < |s.purchases| && s.purchases[p].rail == BankTransfer && s.purchases[p].status == Pending
    then if approve then exists refusal :: Completes(s, s', p, None, refusal)
         else s' == s.(stale := s.stale + [StaleWrite(p, Rejected)])
    else s' == s
  }

  ghost predicate LandEffect(s: Tables, s': Tables, k: nat) {
    if k < |s.stale| && s.stale[k].purchase < |s.purchases|
    then StatusWritten(s, s', s.stale[k].purchase, s.stale[k].status) else s' == s
  }

  lemma CompleteExactly(s: Tables, p: nat, intent: Option<bool>)
    ensures match Complete(s, p, intent)
      case Success(s') => Completes(s, s', p, intent, None)
      case Failure(e) => Completes(s, s, p, intent, Some(e))
  {
    if p < |s.purchases| && s.purchases[p].status == Pending {
      var row := s.purchases[p];
      PostExactly(s.bank, row.tenant, Purchase, row.amount as real, ForPurchase(p), false);
      PostRefusals(s.bank, row.tenant, Purchase, row.amount as real, ForPurchase(p), false);
      hide Post, PostEffect;
    }
  }

  lemma PostRefusals(b: Bank, t: TenantId, kind: EntryKind, amount: real, origin: Origin, allowNegative: bool)
    ensures Post(b, t, kind, amount, origin, allowNegative).Failure? ==>
      Post(b, t, kind, amount, origin, allowNegative).error in {ZeroAmount, WalletClosed, InsufficientCredits}
  {}

  lemma KeptExactly(s: Tables, p: nat, intent: Option<bool>)
    ensures exists refusal :: Completes(s, Kept(s, Complete(s, p, intent)), p, intent, refusal)
  {
    CompleteExactly(s, p, intent);
    hide Complete, Completes;
    var refusal := match Complete(s, p, intent)
      case Success(_) => None
      case Failure(e) => Some(e);
    assert Completes(s, Kept(s, Complete(s, p, intent)), p, intent, refusal);
  }

  lemma TotalExactly(row: CreditPurchase, total: Option<int>)
    ensures AmountMatches(row, total) <==> TotalAgrees(total, row.amount)
  {}

  /** A Stripe event completes, rejects or times out exactly as its fields say. */
  lemma EventExactly(s: Tables, event: StripeEvent)
    ensures EventEffect(s, HandleStripe(s, event), event)
  {
    hide Complete, Completes, AmountMatches, TotalAgrees;
    var s' := HandleStripe(s, event);
    match event {
      case SessionCompleted(p, paid, total, intent) =>
        if p < |s.purchases| { TotalExactly(s.purchases[p], total); }
        if p < |s.purchases| && paid && TotalAgrees(total, s.purchases[p].amount) {
          KeptExactly(s, p, Some(intent));
          var refusal :| Completes(s, s', p, Some(intent), refusal);
          assert EventHandled(s, s', event, refusal);
        } else {
          assert EventHandled(s, s', event, None);
        }
      case AsyncPaymentSucceeded(p, total, intent) =>
        if p < |s.purchases| { TotalExactly(s.purchases[p], total); }
        if p < |s.purchases| && TotalAgrees(total, s.purchases[p].amount) {
          KeptExactly(s, p, Some(intent));
          var refusal :| Completes(s, s', p, Some(intent), refusal);
          assert EventHandled(s, s', event, refusal);
        } else {
          assert EventHandled(s, s', event, None);
        }
      case AsyncPaymentFailed(p) =>
      case SessionExpired(p) =>
        ExpiryExactly(s, p);
        assert EventHandled(s, s', event, None);
      case OtherEvent =>
        assert EventHandled(s, s', event, None);
    }
  }

  lemma ExpiryExactly(s: Tables, p: nat)
    ensures var s' := HandleStripe(s, SessionExpired(p));
      if p < |s.purchases| && s.purchases[p].status == Pending then StatusWritten(s, s', p, TimedOut) else s' == s
  {
    var s' := HandleStripe(s, SessionExpired(p));
    if p < |s.purchases| && s.purchases[p].status == Pending {
      assert s'.purchases == s.purchases[p := s.purchases[p].(status := TimedOut)];
    } else {
      assert s'.purchases == s.purchases;
    }
  }

  /** The other calls: a submission adds a row within the limits, a cancellation sees the tenant's own
      PENDING purchase, a review decides a PENDING bank transfer, a late write lands whatever the row
      has become, and the sweep times out old card purchases. */
  lemma CallsExactly(s: Tables, t: TenantId, rail: Rail, amount: real, now: int, p: nat, approve: bool)
    ensures SubmitEffect(s, Submit(s, t, rail, amount, now), t, rail, amount, now)
    ensures CancelEffect(s, Cancel(s, t, p), t, p)
    ensures ReviewEffect(s, Review(s, p, approve), p, approve)
    ensures LandEffect(s, WriteStale(s, p), p)
    ensures SweepEffect(s, ExpireStale(s, now), now)
  {
    KeptExactly(s, p, None);
    hide Complete, Completes;
  }
}
