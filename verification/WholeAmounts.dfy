/** Amounts with no more than six decimals: the ledger law and the lifetime totals survive every
    transaction that brings only such amounts. */
module WholeAmounts {
  import opened Wrappers
  import opened Money
  import opened Bank
  import opened LedgerTotals
  import opened BankInvariant
  import opened LedgerLaw
  import opened Purchases

  /** In millionths of a credit: a whole number of storable units. */
  predicate IsWhole(x: real) { x == x.Floor as real }

  /** balance === SUM(amount), and totalAdjusted is the sum of the entries it mirrors. */
  ghost predicate Lawful(b: Bank, t: TenantId) {
    Balanced(b, t) && WalletOf(b, t).adjusted == Total(b.ledger, t, Adjusting)
  }

  ghost predicate AllLawful(b: Bank) { forall t :: Lawful(b, t) }

  /** The balance from the lifetime totals and the signed refunds. */
  ghost predicate Reconciles(b: Bank, t: TenantId) {
    var w := WalletOf(b, t);
    w.balance == w.purchased - w.consumed + w.adjusted + Total(b.ledger, t, OfKind(Refund))
  }

  lemma LawfulReconciles(b: Bank, t: TenantId)
    requires Inv(b) && AllLawful(b)
    ensures Balanced(b, t) && Reconciles(b, t)
  {
    assert Lawful(b, t);
    if t in b.wallets {
      LifetimeTotalsReconcile(b, t);
    } else {
      StrangerToLedger(b.ledger, t);
    }
  }

  lemma WholePostAdjusts(b: Bank, t: TenantId, kind: EntryKind, units: int, origin: Origin, allowNegative: bool)
    requires Lawful(b, t) && Post(b, t, kind, units as real, origin, allowNegative).Success?
    ensures var b' := Post(b, t, kind, units as real, origin, allowNegative).value;
      b'.wallets[t].adjusted == Total(b'.ledger, t, Adjusting)
  {
    if IsAdjusting(kind) {
      StoredWhole(units);
      AdjustedFollowsExactly(b, t, kind, units as real, origin, allowNegative);
    } else {
      TotalAppend(b.ledger, EntryFor(t, WalletOf(b, t), kind, units as real, origin), t, Adjusting);
    }
  }

  lemma WholePostKeeps(b: Bank, t: TenantId, kind: EntryKind, amount: real, origin: Origin, allowNegative: bool)
    requires AllLawful(b) && IsWhole(amount) && Post(b, t, kind, amount, origin, allowNegative).Success?
    ensures AllLawful(Post(b, t, kind, amount, origin, allowNegative).value)
  {
    hide Stored, Balanced;
    var b' := Post(b, t, kind, amount, origin, allowNegative).value;
    forall u ensures Lawful(b', u) {
      assert Lawful(b, u);
      if u == t {
        WholeAmountsKeepLaw(b, t, kind, amount.Floor, origin, allowNegative);
        WholePostAdjusts(b, t, kind, amount.Floor, origin, allowNegative);
      } else {
        ForeignPostKeepsLaw(b, t, u, kind, amount, origin, allowNegative);
        TotalAppend(b.ledger, EntryFor(t, WalletOf(b, t), kind, amount, origin), u, Adjusting);
      }
    }
  }

  /** Changes to wallets and holds that leave these columns and the ledger alone. */
  lemma SameColumns(b: Bank, b': Bank)
    requires AllLawful(b) && b'.ledger == b.ledger
    requires forall t :: WalletOf(b', t).balance == WalletOf(b, t).balance
    requires forall t :: WalletOf(b', t).adjusted == WalletOf(b, t).adjusted
    ensures AllLawful(b')
  {
    forall t ensures Lawful(b', t) { assert Lawful(b, t); }
  }

  lemma NegatedWhole(x: real)
    requires IsWhole(x)
    ensures IsWhole(-x)
  {
    assert -x == (-x.Floor) as real;
  }

  lemma WholeFinalizeKeeps(b: Bank, i: nat, charge: real)
    requires WellFormed(b) && AllLawful(b) && IsWhole(charge) && Finalize(b, i, charge).Success?
    ensures AllLawful(Finalize(b, i, charge).value)
  {
    var h := b.holds[i];
    assert h in b.holds;
    var freed := Freed(b, i, charge);
    SameColumns(b, freed);
    if charge != 0.0 {
      NegatedWhole(charge);
      WholePostKeeps(freed, h.tenant, UsageCharge, -charge, ForHold(i), true);
    }
  }

  lemma CompleteKeepsLaw(s: Tables, p: nat, intent: Option<bool>)
    requires AllLawful(s.bank) && Complete(s, p, intent).Success?
    ensures AllLawful(Complete(s, p, intent).value.bank)
  {
    var row := s.purchases[p];
    if row.status == Pending {
      WholePostKeeps(s.bank, row.tenant, Purchase, row.amount as real, ForPurchase(p), false);
    }
  }
}
