/** The refund service, statement by statement, with the card network's answer supplied. */
module RefundCalls {
  import opened Wrappers
  import opened Money
  import opened Bank
  import opened Purchases
  import opened Refunds
  import opened Persistence
  import opened WalletCalls
  import opened RefundEffects

  class RefundService {
    const db: Database
    const wallet: WalletService

    constructor (db: Database, wallet: WalletService)
      ensures this.db == db && this.wallet == wallet
    {
      this.db, this.wallet := db, wallet;
    }

    ghost predicate Valid()
      reads this, wallet, db
    {
      wallet.db == db && db.Valid()
    }

    /** The aggregate query: what PENDING and COMPLETED refunds of the purchase add up to. */
    method SumRefunds(p: nat) returns (sum: int)
      ensures sum == RefundedSoFar(db.refunds, p)
    {
      sum := 0;
      for i := 0 to |db.refunds|
        invariant sum == RefundedSoFar(db.refunds[..i], p)
      {
        assert db.refunds[..i + 1][..i] == db.refunds[..i];
        if db.refunds[i].purchase == Some(p) && db.refunds[i].status != Failed {
          sum := sum + db.refunds[i].amount;
        }
      }
      assert db.refunds[..|db.refunds|] == db.refunds;
    }

    /** The checks before anything is written: the cumulative cap and the payment intent. */
    method CheckPurchase(t: TenantId, amount: real, kind: RefundKind, purchaseId: Option<nat>)
      returns (allowed: bool, fullyRefunded: bool)
      requires amount > 0.0
      ensures allowed <==> !Turned(db.purchases, db.refunds, t, amount, kind, purchaseId)
      ensures allowed ==> (fullyRefunded <==> InFull(db.purchases, db.refunds, amount, purchaseId))
      ensures fullyRefunded ==> purchaseId.Some? && purchaseId.value < |db.purchases|
    {
      fullyRefunded := false;
      if purchaseId.Some? {
        var p := purchaseId.value;
        if p >= |db.purchases| || db.purchases[p].tenant != t { return false, false; }
        var alreadyRefunded := SumRefunds(p);
        var remaining := db.purchases[p].amount - alreadyRefunded;
        if amount > remaining as real { return false, false; }
        fullyRefunded := alreadyRefunded as real + amount >= db.purchases[p].amount as real;
      }
      if kind == Cash && (purchaseId.None? || !db.purchases[purchaseId.value].paidIntent) { return false, false; }
      allowed := true;
    }

    /** The try block: ask the card network, post to the ledger, then settle the rows; or mark the
        refund FAILED. */
    method PayOut(id: nat, refund: RefundRow, amount: real, fullyRefunded: bool, card: CardOutcome)
      returns (completed: bool, asked: Option<CardRequest>)
      requires Valid() && id < |db.refunds| && db.refunds[id] == refund
      requires fullyRefunded ==> refund.purchase.Some? && refund.purchase.value < |db.purchases|
      modifies db`wallets, db`ledger, db`purchases, db`refunds
      ensures Valid()
      ensures
        var posted := Post(old(db.Books()), refund.tenant, Refund, Signed(refund.kind, amount), ForRefund(id),
                           refund.kind == Cash);
        completed == (!(refund.kind == Cash && Throws(card)) && posted.Success?)
        && db.Books() == (if completed then posted.value else old(db.Books()))
      ensures asked == if refund.kind == Cash then Some(RequestFor(amount)) else None
      ensures asked.Some? ==> Asks(asked.value, amount)
      ensures db.refunds == old(db.refunds)[id := refund.(status := if completed then Done else Failed)]
      ensures db.purchases ==
        if completed && refund.kind == Cash && fullyRefunded
        then old(db.purchases)[refund.purchase.value := old(db.purchases)[refund.purchase.value].(status := Refunded)]
        else old(db.purchases)
    {
      RequestExactly(amount);
      hide Post, WellFormed, Asks;
      asked := None;
      if refund.kind == Cash {
        var amountCents := ((amount + 5000.0) / 10000.0).Floor;
        asked := Some(CardRequest(if amountCents != 0 then Some(amountCents) else None));
        if Throws(card) {
          db.refunds := db.refunds[id := refund.(status := Failed)];
          return false, asked;
        }
      }
      var refusal := wallet.PostTransaction(
        refund.tenant, Refund, if refund.kind == WalletCredit then amount else -amount, ForRefund(id),
        refund.kind == Cash);
      if refusal.Some? {
        db.refunds := db.refunds[id := refund.(status := Failed)];
        return false, asked;
      }
      db.refunds := db.refunds[id := refund.(status := Done)];
      if refund.kind == Cash && fullyRefunded {
        var p := refund.purchase.value;
        db.purchases := db.purchases[p := db.purchases[p].(status := Refunded)];
      }
      return true, asked;
    }

    method Create(t: TenantId, amount: real, kind: RefundKind, purchaseId: Option<nat>, card: CardOutcome)
      returns (completed: bool)
      requires Valid()
      modifies db`wallets, db`ledger, db`purchases, db`refunds
      ensures Valid()
      ensures Desk(db.Sales(), db.refunds)
           == Refunds.Create(old(Desk(db.Sales(), db.refunds)), t, amount, kind, purchaseId, card)
      ensures completed <==> |db.refunds| > |old(db.refunds)| && db.refunds[|db.refunds| - 1].status == Done
      ensures CreateEffect(old(Desk(db.Sales(), db.refunds)), Desk(db.Sales(), db.refunds),
                           t, amount, kind, purchaseId, card)
    {
      CreateExactly(Desk(db.Sales(), db.refunds), t, amount, kind, purchaseId, card);
      hide Post, WellFormed, Turned, InFull, CreateEffect;
      if amount <= 0.0 { return false; }
      var w := wallet.GetOrCreateWallet(t);
      var allowed, fullyRefunded := CheckPurchase(t, amount, kind, purchaseId);
      if !allowed { return false; }
      var id, refund := |db.refunds|, RefundRow(t, purchaseId, Stored(amount), kind, Waiting);
      db.refunds := db.refunds + [refund];
      if Dies(card) { return false; }
      var paidOut, asked := PayOut(id, refund, amount, fullyRefunded, card);
      completed := paidOut;
    }
  }
}
