/** The charge service, statement by statement: prepare and settle around an AI call. */
module ChargeCalls {
  import opened Wrappers
  import opened Money
  import opened Bank
  import opened Charging
  import opened ChargeEffects
  import opened Persistence
  import opened WalletCalls
  import Pricing

  class ChargeService {
    const db: Database
    const wallet: WalletService

    constructor (db: Database, wallet: WalletService)
      ensures this.db == db && this.wallet == wallet
    {
      this.db, this.wallet := db, wallet;
    }

    ghost predicate Valid()
      reads this, wallet, db
    {
      wallet.db == db && db.Valid()
    }

    /** The ticket to settle with, or none when the call must not run. */
    method Prepare(t: TenantId, price: Option<Pricing.PriceRow>, enforced: bool, admitted: bool,
                   prompt: nat, maxCompletion: nat, expiresAt: int) returns (ticket: Option<Ticket>)
      requires Valid()
      modifies db`wallets, db`holds
      ensures Valid()
      ensures Charging.Prepare(Meter(old(db.Books()), [], old(db.logs)), t, price, enforced, admitted,
                               prompt, maxCompletion, expiresAt)
           == Meter(db.Books(), if ticket.Some? then [ticket.value] else [], db.logs)
      ensures PrepareEffect(old(db.Books()), db.Books(), t, price, enforced, admitted, prompt, maxCompletion,
                            expiresAt, ticket)
    {
      PrepareExactly(Meter(db.Books(), [], db.logs), t, price, enforced, admitted, prompt, maxCompletion, expiresAt);
      hide PrepareEffect;
      if !enforced { return Some(Ticket(t, false, None, price, prompt, maxCompletion)); }
      if price.None? || !admitted { return None; }
      var estimate := Pricing.EstimateCharge(price.value, prompt, maxCompletion);
      var reservation := |db.holds|;
      var refusal := wallet.ReserveCredits(t, if estimate > 0.0 then estimate else 1.0, expiresAt);
      if refusal.Some? { return None; }
      return Some(Ticket(t, true, Some(reservation), price, prompt, maxCompletion));
    }

    method Settle(ticket: Ticket, success: bool, usage: Pricing.Usage)
      requires Valid()
      modifies db`wallets, db`holds, db`ledger, db`logs
      ensures Valid()
      ensures Meter(db.Books(), [ticket], db.logs)
           == Charging.Settle(Meter(old(db.Books()), [ticket], old(db.logs)), 0, success, usage)
      ensures SettleEffect(old(db.Books()), db.Books(), old(db.logs), db.logs, ticket, success, usage)
    {
      SettleExactly(Meter(db.Books(), [ticket], db.logs), 0, success, usage);
      hide SettleEffect;
      var cost := Pricing.Cost(0.0, 0.0, 0.0);
      if ticket.price.Some? {
        cost := Pricing.ComputeCost(ticket.price.value, usage);
      }
      var status := UnbilledLog;
      if ticket.hold.Some? {
        var refusal;
        if success {
          refusal := wallet.FinalizeReservation(ticket.hold.value, cost.charge);
          status := ChargedLog;
        } else {
          refusal := wallet.ReleaseReservation(ticket.hold.value, Released);
          status := FailedLog;
        }
        if refusal.Some? { return; }
      } else if !success {
        status := FailedLog;
      }
      db.logs := db.logs + [UsageLog(
        ticket.tenant,
        Stored(cost.provider),
        if success && ticket.billed then Stored(cost.charge) else Stored(0.0),
        if success && ticket.billed then Stored(cost.margin) else Stored(-cost.provider),
        ticket.hold,
        status)];
    }
  }
}
