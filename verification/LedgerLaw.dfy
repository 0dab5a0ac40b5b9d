/** "wallet.balance === SUM(ledger.amount) for every wallet, at all times": when the code keeps
    it, exactly, and a charge that breaks it. */
module LedgerLaw {
  import opened Wrappers
  import opened Money
  import opened Bank
  import opened LedgerTotals
  import opened BankInvariant

  /** The law for one tenant. */
  ghost predicate Balanced(b: Bank, t: TenantId) {
    WalletOf(b, t).balance == Total(b.ledger, t, Amount)
  }

  /** In every reachable state the balance is the sum of the amounts and of what rounding added,
      entry by entry; so the law holds exactly when those drifts cancel. */
  lemma BalanceIsAmountsAndDrift(b: Bank, t: TenantId)
    requires Inv(b)
    ensures WalletOf(b, t).balance == Total(b.ledger, t, Amount) + Total(b.ledger, t, Drift)
    ensures Balanced(b, t) <==> Total(b.ledger, t, Drift) == 0
  {
    WalletOfBalances(b, t);
    ChainTelescopes(b.ledger, t);
  }

  /** A posting keeps the law exactly when its amount is not half way between two storable ones,
      or leaves the balance on its own side of zero. Both can be read off before the call. */
  lemma PostKeepsLawExactly(b: Bank, t: TenantId, kind: EntryKind, amount: real, origin: Origin, allowNegative: bool)
    requires Balanced(b, t) && Post(b, t, kind, amount, origin, allowNegative).Success?
    ensures Balanced(Post(b, t, kind, amount, origin, allowNegative).value, t)
       <==> !(Tie(amount) && ((amount > 0.0) != (WalletOf(b, t).balance as real + amount > 0.0)))
  {
    var w := WalletOf(b, t);
    TotalAppend(b.ledger, EntryFor(t, w, kind, amount, origin), t, Amount);
    AdditiveExactly(w.balance, amount);
  }

  /** The same for settling a hold: a charge of half a unit paid out of a larger balance breaks
      the law, and nothing else does. */
  lemma FinalizeKeepsLawExactly(b: Bank, i: nat, charge: real)
    requires WellFormed(b) && Finalize(b, i, charge).Success? && Balanced(b, b.holds[i].tenant)
    ensures Balanced(Finalize(b, i, charge).value, b.holds[i].tenant)
       <==> !(Tie(charge) && WalletOf(b, b.holds[i].tenant).balance as real > charge)
  {
    var h := b.holds[i];
    assert h in b.holds;
    var freed := Freed(b, i, charge);
    if charge == 0.0 {
      StoredWhole(0);
    } else {
      PostKeepsLawExactly(freed, h.tenant, UsageCharge, -charge, ForHold(i), true);
      DebitCondition(freed.wallets[h.tenant].balance, charge);
    }
  }

  /** For a debit the condition reads: half a unit over, out of a larger balance. */
  lemma DebitCondition(balance: int, charge: real)
    requires charge > 0.0
    ensures Tie(-charge) && ((-charge > 0.0) != (balance as real - charge > 0.0))
       <==> Tie(charge) && balance as real > charge
  {
    HalfDistanceIsTie(charge);
    HalfDistanceIsTie(-charge);
    StoredNegates(charge);
  }

  /** Amounts with no more than six decimals never break it. */
  lemma WholeAmountsKeepLaw(b: Bank, t: TenantId, kind: EntryKind, units: int, origin: Origin, allowNegative: bool)
    requires Balanced(b, t) && Post(b, t, kind, units as real, origin, allowNegative).Success?
    ensures Balanced(Post(b, t, kind, units as real, origin, allowNegative).value, t)
  {
    StoredWhole(units);
    PostKeepsLawExactly(b, t, kind, units as real, origin, allowNegative);
  }

  /** Another tenant's posting does not concern this one. */
  lemma ForeignPostKeepsLaw(b: Bank, t: TenantId, u: TenantId, kind: EntryKind, amount: real, origin: Origin,
                            allowNegative: bool)
    requires Balanced(b, u) && u != t && Post(b, t, kind, amount, origin, allowNegative).Success?
    ensures Balanced(Post(b, t, kind, amount, origin, allowNegative).value, u)
  {
    TotalAppend(b.ledger, EntryFor(t, WalletOf(b, t), kind, amount, origin), u, Amount);
  }

  /** The lifetime totals reconcile with the balance as well, as long as the adjustments column
      has met no such rounding of its own. */
  lemma LifetimeTotalsReconcile(b: Bank, t: TenantId)
    requires Inv(b) && t in b.wallets && Balanced(b, t)
    requires b.wallets[t].adjusted == Total(b.ledger, t, Adjusting)
    ensures var w := b.wallets[t];
      w.balance == w.purchased - w.consumed + w.adjusted + Total(b.ledger, t, OfKind(Refund))
  {
    AmountsSplitByKind(b.ledger, t);
    MagnitudeBySign(b.ledger, t, Purchase);
    MagnitudeBySign(b.ledger, t, UsageCharge);
    assert TenantBooks(b.wallets[t], t, b.holds, b.ledger);
  }

  /** totalAdjusted follows its entries under the same condition on its own column. */
  lemma AdjustedFollowsExactly(b: Bank, t: TenantId, kind: EntryKind, amount: real, origin: Origin, allowNegative: bool)
    requires WalletOf(b, t).adjusted == Total(b.ledger, t, Adjusting) && IsAdjusting(kind)
    requires Post(b, t, kind, amount, origin, allowNegative).Success?
    ensures var b' := Post(b, t, kind, amount, origin, allowNegative).value;
      b'.wallets[t].adjusted == Total(b'.ledger, t, Adjusting)
      <==> !(Tie(amount) && ((amount > 0.0) != (WalletOf(b, t).adjusted as real + amount > 0.0)))
  {
    var w := WalletOf(b, t);
    TotalAppend(b.ledger, EntryFor(t, w, kind, amount, origin), t, Adjusting);
    AdditiveExactly(w.adjusted, amount);
  }

  /** The law fails: one credit, and one token priced at half a credit per million. */
  lemma LawFailsOnHalfUnit()
    ensures var b0 := Bank(map["t" := NewWallet], [], []);
      && Post(b0, "t", ManualCredit, 1000000.0, ByAdmin, false).Success?
      && var b1 := Post(b0, "t", ManualCredit, 1000000.0, ByAdmin, false).value;
      && Reserve(b1, "t", 1.0, 0).Success?
      && var b2 := Reserve(b1, "t", 1.0, 0).value;
      && WellFormed(b2) && Finalize(b2, 0, 0.5).Success?
      && var b3 := Finalize(b2, 0, 0.5).value;
      && b3.wallets["t"].balance == 1000000
      && Total(b3.ledger, "t", Amount) == 999999
  {
    StoredWhole(1000000);
    StoredWhole(1);
    var b0 := Bank(map["t" := NewWallet], [], []);
    var b1 := Post(b0, "t", ManualCredit, 1000000.0, ByAdmin, false).value;
    assert b1.wallets["t"].balance == 1000000;
    var b2 := Reserve(b1, "t", 1.0, 0).value;
    assert b2.wallets["t"].balance == 1000000;
    assert b2.holds == [Hold("t", 1, Held, 0, 0)];
    var b3 := Finalize(b2, 0, 0.5).value;
    var credit := EntryFor("t", NewWallet, ManualCredit, 1000000.0, ByAdmin);
    var charge := EntryFor("t", b2.wallets["t"], UsageCharge, -0.5, ForHold(0));
    assert Stored(-0.5) == -1 && Stored(999999.5) == 1000000;
    TotalAppend([], credit, "t", Amount);
    TotalAppend([credit], charge, "t", Amount);
    assert b1.ledger == [credit];
    assert b3.ledger == [credit] + [EntryFor("t", Freed(b2, 0, 0.5).wallets["t"], UsageCharge, -0.5, ForHold(0))];
  }
}
