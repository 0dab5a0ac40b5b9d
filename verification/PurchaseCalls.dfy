/** The purchase service, statement by statement. The unlocked reads and writes of a call are
    back to back here; LockedTransactions and BillingRuns let others come in between. */
module PurchaseCalls {
  import opened Wrappers
  import opened Money
  import opened Bank
  import opened Purchases
  import opened Persistence
  import opened WalletCalls
  import opened WalletEffects
  import opened PurchaseEffects

  /** The pending unlocked write of a call, landed. */
  function Landed(s: Tables): Tables {
    if s.stale == [] then s else WriteStale(s, 0).(stale := [])
  }

  class PurchaseService {
    const db: Database
    const wallet: WalletService

    constructor (db: Database, wallet: WalletService)
      ensures this.db == db && this.wallet == wallet
    {
      this.db, this.wallet := db, wallet;
    }

    ghost predicate Valid()
      reads this, wallet, db
    {
      wallet.db == db && db.Valid()
    }

    /** `createStripeCheckout` and `submitBankTransfer`, up to the PENDING row. */
    method SubmitPurchase(t: TenantId, rail: Rail, amount: real, now: int) returns (id: Option<nat>)
      requires Valid()
      modifies db`wallets, db`purchases
      ensures Valid() && db.Sales() == Submit(old(db.Sales()), t, rail, amount, now)
      ensures id == if 1000000.0 <= amount <= 100000000000.0 then Some(|old(db.purchases)|) else None
      ensures SubmitEffect(old(db.Sales()), db.Sales(), t, rail, amount, now)
    {
      if amount < MIN_PURCHASE || amount > MAX_PURCHASE { return None; }
      var w := wallet.GetOrCreateWallet(t);
      db.purchases := db.purchases + [CreditPurchase(t, rail, Stored(amount), Pending, false, now)];
      return Some(|db.purchases| - 1);
    }

    method CompletePurchase(p: nat, intent: Option<bool>) returns (refusal: Option<Refusal>)
      requires Valid()
      modifies db`wallets, db`ledger, db`purchases
      ensures Valid()
      ensures match Complete(old(db.Sales()), p, intent)
        case Success(s) => refusal.None? && db.Sales() == s
        case Failure(e) => refusal == Some(e) && db.Sales() == old(db.Sales())
      ensures Completes(old(db.Sales()), db.Sales(), p, intent, refusal)
    {
      if p >= |db.purchases| { return Some(PurchaseNotFound); }
      var purchase := db.purchases[p];
      if purchase.status == Completed { return None; }
      if purchase.status != Pending { return Some(PurchaseNotPending); }
      refusal := wallet.PostTransaction(purchase.tenant, Purchase, purchase.amount as real, ForPurchase(p), false);
      if refusal.Some? { return; }
      var updated := purchase.(status := Completed);
      if intent.Some? { updated := updated.(paidIntent := intent.value); }
      db.purchases := db.purchases[p := updated];
    }

    /** Whether the event was recognised; a refused completion surfaces as an error. */
    method HandleStripeEvent(event: StripeEvent) returns (handled: bool, refusal: Option<Refusal>)
      requires Valid()
      modifies db`wallets, db`ledger, db`purchases
      ensures Valid() && db.Sales() == Landed(HandleStripe(old(db.Sales()), event))
      ensures refusal.Some? ==> ProvesPayment(old(db.Sales()), event) && db.Sales() == old(db.Sales())
      ensures db.Books() != old(db.Books()) ==> handled
      ensures EventHandled(old(db.Sales()), db.Sales(), event, refusal)
    {
      hide Completes;
      handled, refusal := false, None;
      match event
      case SessionCompleted(p, paid, amountTotal, intent) =>
        if p >= |db.purchases| { return; }
        if !paid { return true, None; }
        if amountTotal.Some? && amountTotal.value != Cents(db.purchases[p].amount) { return; }
        refusal := CompletePurchase(p, Some(intent));
        handled := refusal.None?;
      case AsyncPaymentSucceeded(p, amountTotal, intent) =>
        if p >= |db.purchases| { return; }
        if amountTotal.Some? && amountTotal.value != Cents(db.purchases[p].amount) { return; }
        refusal := CompletePurchase(p, Some(intent));
        handled := refusal.None?;
      case AsyncPaymentFailed(p) =>
        if p < |db.purchases| && db.purchases[p].status == Pending {
          db.purchases := db.purchases[p := db.purchases[p].(status := Rejected)];
        }
        handled := true;
      case SessionExpired(p) =>
        if p < |db.purchases| && db.purchases[p].status == Pending {
          db.purchases := db.purchases[p := db.purchases[p].(status := TimedOut)];
        }
        handled := true;
      case OtherEvent =>
    }

    method CancelOwnPending(t: TenantId, p: nat) returns (cancelled: bool)
      requires Valid()
      modifies db`purchases
      ensures Valid() && db.Sales() == Landed(Cancel(old(db.Sales()), t, p))
      ensures cancelled <==>
        p < |old(db.purchases)| && old(db.purchases)[p].tenant == t && old(db.purchases)[p].status == Pending
      ensures if cancelled then StatusWritten(old(db.Sales()), db.Sales(), p, Cancelled)
              else db.Sales() == old(db.Sales())
    {
      if p >= |db.purchases| || db.purchases[p].tenant != t { return false; }
      if db.purchases[p].status != Pending { return false; }
      db.purchases := db.purchases[p := db.purchases[p].(status := Cancelled)];
      return true;
    }

    method ReviewBankTransfer(p: nat, approve: bool) returns (reviewed: bool)
      requires Valid()
      modifies db`wallets, db`ledger, db`purchases
      ensures Valid() && db.Sales() == Landed(Review(old(db.Sales()), p, approve))
      ensures reviewed <==> p < |db.purchases| && db.purchases[p] != old(db.purchases)[p]
      ensures var s, s' := old(db.Sales()), db.Sales();
        if p < |s.purchases| && s.purchases[p].rail == BankTransfer && s.purchases[p].status == Pending
        then if approve then exists refusal :: Completes(s, s', p, None, refusal)
             else StatusWritten(s, s', p, Rejected)
        else s' == s
    {
      if p >= |db.purchases| { return false; }
      var purchase := db.purchases[p];
      if purchase.rail != BankTransfer || purchase.status != Pending { return false; }
      if !approve {
        db.purchases := db.purchases[p := purchase.(status := Rejected)];
        return true;
      }
      var refusal := CompletePurchase(p, None);
      return refusal.None?;
    }

    /** Bank transfers are exempt: they wait for human review. */
    method ExpireStaleStripePurchases(cutoff: int)
      requires Valid()
      modifies db`purchases
      ensures Valid() && db.Sales() == ExpireStale(old(db.Sales()), cutoff)
      ensures SweepEffect(old(db.Sales()), db.Sales(), cutoff)
    {
      db.purchases := seq(|db.purchases|, k requires 0 <= k < |db.purchases| reads db =>
        if db.purchases[k].rail == Stripe && db.purchases[k].status == Pending && db.purchases[k].createdAt < cutoff
        then db.purchases[k].(status := TimedOut) else db.purchases[k]);
      assert db.purchases == ExpireStale(old(db.Sales()), cutoff).purchases;
    }
  }
}
