/** The dispute service's admin actions, statement by statement. */
module DisputeCalls {
  import opened Wrappers
  import opened Bank
  import opened Purchases
  import opened Refunds
  import opened Disputes
  import opened Persistence
  import opened WalletCalls
  import opened RefundCalls
  import opened RefundEffects

  class DisputeService {
    const db: Database
    const wallet: WalletService
    const refunds: RefundService

    constructor (db: Database, wallet: WalletService, refunds: RefundService)
      ensures this.db == db && this.wallet == wallet && this.refunds == refunds
    {
      this.db, this.wallet, this.refunds := db, wallet, refunds;
    }

    ghost predicate Valid()
      reads this, wallet, refunds, db
    {
      wallet.db == db && refunds.db == db && refunds.wallet == wallet && db.Valid()
    }

    /** The original USAGE_CHARGE is this tenant's, and no reversal of it is found. */
    method FindReversible(t: TenantId, entry: nat) returns (found: bool)
      ensures found <==> Reversible(db.ledger, t, entry)
    {
      if entry >= |db.ledger| || db.ledger[entry].tenant != t || db.ledger[entry].kind != UsageCharge { return false; }
      for i := 0 to |db.ledger|
        invariant forall e ::
          e in db.ledger[..i] && e.tenant == t && e.kind == ChargeReversal ==> e.origin != ForEntry(entry)
      {
        assert db.ledger[..i + 1] == db.ledger[..i] + [db.ledger[i]];
        var row := db.ledger[i];
        if row.tenant == t && row.kind == ChargeReversal && row.origin == ForEntry(entry) { return false; }
      }
      assert db.ledger[..|db.ledger|] == db.ledger;
      return true;
    }

    method Resolve(dispute: nat, status: DisputeStatus)
      requires dispute < |db.disputes|
      modifies db`disputes
      ensures db.disputes == old(db.disputes)[dispute := old(db.disputes)[dispute].(status := status)]
    {
      db.disputes := db.disputes[dispute := db.disputes[dispute].(status := status)];
    }

    /** Post the outcome, then resolve; a refused posting leaves the dispute open. */
    method PostThenResolve(dispute: nat, kind: EntryKind, amount: real, origin: Origin)
      requires Valid() && dispute < |db.disputes|
      modifies db`wallets, db`ledger, db`disputes
      ensures Valid() && db.Helpdesk() == PostAndResolve(old(db.Helpdesk()), dispute, kind, amount, origin)
    {
      hide Post, WellFormed;
      var refusal := wallet.PostTransaction(db.disputes[dispute].tenant, kind, amount, origin, false);
      if refusal.None? {
        Resolve(dispute, Resolved);
      }
    }

    /** Approve a refund, then resolve when it completed. */
    method RefundThenResolve(dispute: nat, amount: real, kind: RefundKind, purchase: Option<nat>, card: CardOutcome)
      requires Valid() && dispute < |db.disputes|
      modifies db`wallets, db`ledger, db`purchases, db`refunds, db`disputes
      ensures Valid()
      ensures db.Helpdesk() == RefundAndResolve(old(db.Helpdesk()), dispute, amount, kind, purchase, card)
    {
      hide Refunds.Create, CreateEffect, WellFormed;
      var completed := refunds.Create(db.disputes[dispute].tenant, amount, kind, purchase, card);
      if completed { Resolve(dispute, Resolved); }
    }

    method AdminAction(dispute: nat, action: Action)
      requires Valid()
      modifies db`wallets, db`ledger, db`purchases, db`refunds, db`disputes
      ensures Valid() && db.Helpdesk() == Disputes.AdminAction(old(db.Helpdesk()), dispute, action)
      ensures AdminEffect(old(db.Helpdesk()), db.Helpdesk(), dispute, action)
    {
      AdminExactly(db.Helpdesk(), dispute, action);
      hide Disputes.AdminAction, AdminEffect, WellFormed;
      Act(dispute, action);
    }

    /** The checks and the switch over the action. */
    method Act(dispute: nat, action: Action)
      requires Valid()
      modifies db`wallets, db`ledger, db`purchases, db`refunds, db`disputes
      ensures Valid() && db.Helpdesk() == Disputes.AdminAction(old(db.Helpdesk()), dispute, action)
    {
      hide PostAndResolve, RefundAndResolve, Reversible, WellFormed;
      if dispute >= |db.disputes| || db.disputes[dispute].status == Shut { return; }
      match action
      case ApproveRefund(amount, kind, purchase, card) =>
        if kind == Cash && purchase.None? { return; }
        RefundThenResolve(dispute, amount, kind, purchase, card);
      case Reject => Resolve(dispute, Shut);
      case IssueBonus(credits) =>
        if credits <= 0.0 { return; }
        PostThenResolve(dispute, BonusCredit, credits, ForDispute(dispute));
      case ReverseCharge(entry) =>
        var found := FindReversible(db.disputes[dispute].tenant, entry);
        if !found { return; }
        ReversibleExists(db.ledger, db.disputes[dispute].tenant, entry);
        PostThenResolve(dispute, ChargeReversal, -(db.ledger[entry].amount as real), ForEntry(entry));
      case ManualAdjustment(delta) =>
        if delta == 0.0 { return; }
        PostThenResolve(dispute, DisputeResolution, delta, ForDispute(dispute));
      case Escalate => Resolve(dispute, UnderInvestigation);
    }
  }

  lemma ReversibleExists(l: seq<Entry>, t: TenantId, k: nat)
    requires Reversible(l, t, k)
    ensures k < |l|
  {}
}
