/** What every wallet transaction keeps, one tenant at a time, and what follows from it. */
module BankInvariant {
  import opened Wrappers
  import opened Money
  import opened Bank
  import opened LedgerTotals

  /** A tenant's wallet against the tables: the balance ends the tenant's chain, the lifetime
      totals mirror the ledger, the reserved column is the active holds, and nothing is spent
      beyond overruns and non-usage debits. */
  ghost predicate TenantBooks(w: Wallet, t: TenantId, holds: seq<Hold>, ledger: seq<Entry>) {
    && w.balance == LastAfter(ledger, t)
    && w.purchased == Total(ledger, t, Magnitude(Purchase))
    && w.consumed == Total(ledger, t, Magnitude(UsageCharge))
    && w.consumed == HoldTotal(holds, t, Settled)
    && w.refunded == Total(ledger, t, Magnitude(Refund))
    && w.reserved == HoldTotal(holds, t, Reserved)
    && w.balance - w.reserved >= -(HoldTotal(holds, t, Overrun) + Total(ledger, t, NonUsageDebit))
  }

  /** Usage charges come from finalized holds, at most one from each, for what it charged. */
  ghost predicate UsageFromHolds(holds: seq<Hold>, ledger: seq<Entry>) {
    && (forall i :: 0 <= i < |ledger| && ledger[i].kind == UsageCharge ==>
          && ledger[i].origin.ForHold? && ledger[i].origin.hold < |holds|
          && var h := holds[ledger[i].origin.hold];
             h.status == Finalized && h.tenant == ledger[i].tenant && ledger[i].amount == -h.charged)
    && (forall i, j :: 0 <= i < j < |ledger| && ledger[i].kind == UsageCharge && ledger[j].kind == UsageCharge ==>
          ledger[i].origin != ledger[j].origin)
  }

  ghost predicate EntrySigns(ledger: seq<Entry>) {
    && (forall e :: e in ledger && e.kind == UsageCharge ==> e.amount <= 0)
    && (forall e :: e in ledger && e.kind == Purchase ==> e.amount >= 0)
    && (forall e :: e in ledger ==> -1 <= Weigh(Drift, e) <= 1)
  }

  ghost predicate Inv(b: Bank) {
    && (forall h :: h in b.holds ==> h.tenant in b.wallets && h.amount >= 0 && h.charged >= 0)
    && (forall e :: e in b.ledger ==> e.tenant in b.wallets)
    && Chained(b.ledger) && EntrySigns(b.ledger) && UsageFromHolds(b.holds, b.ledger)
    && (forall t :: t in b.wallets ==> TenantBooks(b.wallets[t], t, b.holds, b.ledger))
  }

  // ---- tables that do not mention a tenant

  lemma {:induction false} StrangerToLedger(l: seq<Entry>, t: TenantId)
    requires forall e :: e in l ==> e.tenant != t
    ensures LastAfter(l, t) == 0 && forall m :: Total(l, t, m) == 0
  {
    if l != [] {
      assert forall e :: e in l[..|l| - 1] ==> e in l;
      assert l[|l| - 1] in l;
      StrangerToLedger(l[..|l| - 1], t);
    }
  }

  lemma {:induction false} StrangerToHolds(hs: seq<Hold>, t: TenantId)
    requires forall h :: h in hs ==> h.tenant != t
    ensures forall m :: HoldTotal(hs, t, m) == 0
  {
    if hs != [] {
      assert forall h :: h in hs[..|hs| - 1] ==> h in hs;
      assert hs[|hs| - 1] in hs;
      StrangerToHolds(hs[..|hs| - 1], t);
    }
  }

  /** An untouched wallet balances too, so first touch is never a special case. */
  lemma WalletOfBalances(b: Bank, t: TenantId)
    requires Inv(b)
    ensures TenantBooks(WalletOf(b, t), t, b.holds, b.ledger)
  {
    if t !in b.wallets {
      StrangerToLedger(b.ledger, t);
      StrangerToHolds(b.holds, t);
    }
  }

  lemma TouchKeepsInv(b: Bank, t: TenantId)
    requires Inv(b)
    ensures Inv(Touch(b, t))
  {
    WalletOfBalances(b, t);
  }

  lemma SettingsKeepsInv(b: Bank, t: TenantId, status: Option<WalletStatus>, threshold: Option<Option<int>>)
    requires Inv(b)
    ensures Inv(Settings(b, t, status, threshold))
  {
    WalletOfBalances(b, t);
  }

  // ---- posting

  /** What a posting needs of its kind: usage charges are debits of a finalized hold that has
      none yet, purchases are credits. */
  ghost predicate MayPost(b: Bank, t: TenantId, kind: EntryKind, amount: real, origin: Origin) {
    match kind
    case UsageCharge =>
      && amount <= 0.0 && origin.ForHold? && origin.hold < |b.holds|
      && b.holds[origin.hold].status == Finalized && b.holds[origin.hold].tenant == t
      && Stored(amount) == -b.holds[origin.hold].charged
      && forall e :: e in b.ledger && e.kind == UsageCharge ==> e.origin != origin
    case Purchase => amount >= 0.0
    case _ => true
  }

  /** The posting tenant's books before the entry is written: as in TenantBooks, but with the
      hold being charged already counted as settled when the entry is a usage charge. */
  ghost predicate ReadyToPost(w: Wallet, t: TenantId, holds: seq<Hold>, ledger: seq<Entry>, kind: EntryKind,
                              amount: real)
  {
    var due := if kind == UsageCharge then -Stored(amount) else 0;
    && w.balance == LastAfter(ledger, t)
    && w.purchased == Total(ledger, t, Magnitude(Purchase))
    && w.consumed == Total(ledger, t, Magnitude(UsageCharge))
    && w.consumed + due == HoldTotal(holds, t, Settled)
    && w.refunded == Total(ledger, t, Magnitude(Refund))
    && w.reserved == HoldTotal(holds, t, Reserved)
    && w.balance - due - w.reserved >= -(HoldTotal(holds, t, Overrun) + Total(ledger, t, NonUsageDebit))
  }

  lemma AggregateMirrors(w: Wallet, t: TenantId, kind: EntryKind, amount: real, ledger: seq<Entry>, e: Entry)
    requires e.tenant == t && e.kind == kind && e.amount == Stored(amount)
    requires w.purchased == Total(ledger, t, Magnitude(Purchase))
    requires w.consumed == Total(ledger, t, Magnitude(UsageCharge))
    requires w.refunded == Total(ledger, t, Magnitude(Refund))
    ensures var w' := WithAggregate(w, kind, amount);
      && w'.purchased == Total(ledger + [e], t, Magnitude(Purchase))
      && w'.consumed == Total(ledger + [e], t, Magnitude(UsageCharge))
      && w'.refunded == Total(ledger + [e], t, Magnitude(Refund))
  {
    forall k | k == Purchase || k == UsageCharge || k == Refund
      ensures Total(ledger + [e], t, Magnitude(k))
           == Total(ledger, t, Magnitude(k)) + if kind == k then Stored(Abs(amount)) else 0
      ensures Total(ledger, t, Magnitude(k)) >= 0
    {
      TotalAppend(ledger, e, t, Magnitude(k));
      MagnitudeBySign(ledger, t, k);
      StoredAbs(amount);
    }
    AdditiveWithinOne(w.purchased, Abs(amount));
    AdditiveWithinOne(w.consumed, Abs(amount));
    AdditiveWithinOne(w.refunded, Abs(amount));
  }

  lemma StoredAbs(x: real)
    ensures Stored(Abs(x)) == Max(Stored(x), -Stored(x))
  {
    StoredNegates(x);
    StoredBounded(x, 0);
  }

  lemma PostKeepsTenant(w: Wallet, t: TenantId, holds: seq<Hold>, ledger: seq<Entry>,
                        kind: EntryKind, amount: real, e: Entry)
    requires ReadyToPost(w, t, holds, ledger, kind, amount)
    requires e.tenant == t && e.kind == kind && e.amount == Stored(amount)
    requires e.after == Stored(w.balance as real + amount)
    requires kind == UsageCharge ==> amount <= 0.0
    ensures TenantBooks(Charged(w, kind, amount), t, holds, ledger + [e])
  {
    AggregateMirrors(w, t, kind, amount, ledger, e);
    TotalAppend(ledger, e, t, NonUsageDebit);
    AdditiveWithinOne(w.balance, amount);
    StoredBounded(amount, 0);
    StoredBounded(w.balance as real + amount, w.balance);
    if kind == UsageCharge {
      StoredAbs(amount);
      AdditiveWithinOne(w.consumed, Abs(amount));
      MagnitudeBySign(ledger, t, UsageCharge);
    }
  }

  lemma PostKeepsOthers(b: Bank, b': Bank, u: TenantId, e: Entry)
    requires u in b.wallets && u in b'.wallets && b'.wallets[u] == b.wallets[u]
    requires TenantBooks(b.wallets[u], u, b.holds, b.ledger)
    requires b'.holds == b.holds && b'.ledger == b.ledger + [e] && e.tenant != u
    ensures TenantBooks(b'.wallets[u], u, b'.holds, b'.ledger)
  {
    assert b'.ledger[..|b.ledger|] == b.ledger;
  }

  /** Everything but the charged tenant's own books is as Inv says. */
  ghost predicate InvExcept(b: Bank, t: TenantId) {
    && (forall h :: h in b.holds ==> h.tenant in b.wallets && h.amount >= 0 && h.charged >= 0)
    && (forall e :: e in b.ledger ==> e.tenant in b.wallets)
    && Chained(b.ledger) && EntrySigns(b.ledger) && UsageFromHolds(b.holds, b.ledger)
    && (forall u :: u in b.wallets && u != t ==> TenantBooks(b.wallets[u], u, b.holds, b.ledger))
  }

  lemma NewEntryLinks(b: Bank, t: TenantId, kind: EntryKind, amount: real, origin: Origin, e: Entry)
    requires EntrySigns(b.ledger) && UsageFromHolds(b.holds, b.ledger)
    requires MayPost(b, t, kind, amount, origin)
    requires e.tenant == t && e.kind == kind && e.origin == origin && e.amount == Stored(amount)
    requires e.after == Stored(e.before as real + amount)
    ensures EntrySigns(b.ledger + [e]) && UsageFromHolds(b.holds, b.ledger + [e])
  {
    StoredBounded(amount, 0);
    AdditiveWithinOne(e.before, amount);
    var l := b.ledger + [e];
    forall i, j | 0 <= i < j < |l| && l[i].kind == UsageCharge && l[j].kind == UsageCharge
      ensures l[i].origin != l[j].origin
    {
      if j == |b.ledger| { assert b.ledger[i] in b.ledger; }
    }
  }

  lemma PostFromReady(b: Bank, t: TenantId, kind: EntryKind, amount: real, origin: Origin, allowNegative: bool)
    requires InvExcept(b, t) && ReadyToPost(WalletOf(b, t), t, b.holds, b.ledger, kind, amount)
    requires MayPost(b, t, kind, amount, origin)
    requires Post(b, t, kind, amount, origin, allowNegative).Success?
    ensures Inv(Post(b, t, kind, amount, origin, allowNegative).value)
  {
    var b' := Post(b, t, kind, amount, origin, allowNegative).value;
    var w := WalletOf(b, t);
    var e := EntryFor(t, w, kind, amount, origin);
    ChainedAppend(b.ledger, e);
    NewEntryLinks(b, t, kind, amount, origin, e);
    PostKeepsTenant(w, t, b.holds, b.ledger, kind, amount, e);
    forall u | u in b'.wallets ensures TenantBooks(b'.wallets[u], u, b'.holds, b'.ledger) {
      if u != t { PostKeepsOthers(b, b', u, e); }
    }
  }

  lemma PostKeepsInv(b: Bank, t: TenantId, kind: EntryKind, amount: real, origin: Origin, allowNegative: bool)
    requires Inv(b) && kind != UsageCharge && (kind == Purchase ==> amount >= 0.0)
    requires Post(b, t, kind, amount, origin, allowNegative).Success?
    ensures Inv(Post(b, t, kind, amount, origin, allowNegative).value)
  {
    WalletOfBalances(b, t);
    PostFromReady(b, t, kind, amount, origin, allowNegative);
  }

  // ---- reservations

  lemma ReserveKeepsTenant(w: Wallet, t: TenantId, holds: seq<Hold>, ledger: seq<Entry>, amount: real, h: Hold)
    requires TenantBooks(w, t, holds, ledger) && w.reserved >= 0
    requires 0.0 < amount <= (w.balance - w.reserved) as real
    requires h.tenant == t && h.amount == Stored(amount) && h.status == Held
    ensures TenantBooks(w.(reserved := Stored(w.reserved as real + amount)), t, holds + [h], ledger)
  {
    AdditiveWithinOne(w.reserved, amount);
    StoredBounded(amount, w.balance - w.reserved);
    OverrunNonNegative(holds, t);
    DebitNonNegative(ledger, t);
    HoldTotalAppend(holds, h, t, Reserved);
    HoldTotalAppend(holds, h, t, Settled);
    HoldTotalAppend(holds, h, t, Overrun);
  }

  lemma StrangersHold(w: Wallet, t: TenantId, holds: seq<Hold>, ledger: seq<Entry>, h: Hold)
    requires TenantBooks(w, t, holds, ledger) && h.tenant != t
    ensures TenantBooks(w, t, holds + [h], ledger)
  {
    assert (holds + [h])[..|holds|] == holds;
  }

  lemma ReserveKeepsInv(b: Bank, t: TenantId, amount: real, expiresAt: int)
    requires Inv(b) && Reserve(b, t, amount, expiresAt).Success?
    ensures Inv(Reserve(b, t, amount, expiresAt).value)
  {
    var b' := Reserve(b, t, amount, expiresAt).value;
    var h := Hold(t, Stored(amount), Held, expiresAt, 0);
    WalletOfBalances(b, t);
    HoldTotalNonNegative(b.holds, t, Reserved);
    StoredBounded(amount, 0);
    ReserveKeepsTenant(WalletOf(b, t), t, b.holds, b.ledger, amount, h);
    forall u | u in b'.wallets ensures TenantBooks(b'.wallets[u], u, b'.holds, b'.ledger) {
      if u != t { StrangersHold(b.wallets[u], u, b.holds, b.ledger, h); }
    }
  }

  /** Taking a hold off its wallet never meets the clamp: what it kept back is part of the
      reserved column. */
  lemma ClampNeverBites(b: Bank, i: nat)
    requires Inv(b) && i < |b.holds| && b.holds[i].status == Held
    ensures b.wallets[b.holds[i].tenant].reserved >= b.holds[i].amount
    ensures Unreserved(b.wallets[b.holds[i].tenant], b.holds[i]).reserved
         == b.wallets[b.holds[i].tenant].reserved - b.holds[i].amount
  {
    assert b.holds[i] in b.holds;
    HoldWithinTotal(b.holds, i, Reserved);
  }

  /** A hold leaving the active state shifts its own tenant's totals by its own weight. */
  lemma LeavingHold(b: Bank, i: nat, h': Hold)
    requires Inv(b) && i < |b.holds| && b.holds[i].status == Held && h'.status != Held
    requires h'.tenant == b.holds[i].tenant && h'.amount == b.holds[i].amount && h'.charged >= 0
    ensures var b' := b.(wallets := b.wallets[h'.tenant := Unreserved(b.wallets[h'.tenant], b.holds[i])],
                         holds := b.holds[i := h']);
      && InvExcept(b', h'.tenant)
      && var w := b'.wallets[h'.tenant];
         && w.reserved == HoldTotal(b'.holds, h'.tenant, Reserved)
         && w.consumed + WeighHold(Settled, h') == HoldTotal(b'.holds, h'.tenant, Settled)
         && HoldTotal(b'.holds, h'.tenant, Overrun) == HoldTotal(b.holds, h'.tenant, Overrun) + WeighHold(Overrun, h')
         && w == b.wallets[h'.tenant].(reserved := b.wallets[h'.tenant].reserved - h'.amount)
  {
    ClampNeverBites(b, i);
    assert b.holds[i] in b.holds;
    forall u, m
      ensures HoldTotal(b.holds[i := h'], u, m)
           == HoldTotal(b.holds, u, m) + if h'.tenant == u then WeighHold(m, h') - WeighHold(m, b.holds[i]) else 0
    {
      HoldTotalUpdate(b.holds, i, h', u, m);
    }
  }

  lemma BooksOf(b: Bank, i: nat)
    requires Inv(b) && i < |b.holds|
    ensures b.holds[i].tenant in b.wallets && b.holds[i].amount >= 0
    ensures TenantBooks(b.wallets[b.holds[i].tenant], b.holds[i].tenant, b.holds, b.ledger)
  {
    assert b.holds[i] in b.holds;
  }

  /** The tenant's own books close the invariant again. */
  lemma TenantClosesInv(b: Bank, t: TenantId)
    requires InvExcept(b, t) && t in b.wallets && TenantBooks(b.wallets[t], t, b.holds, b.ledger)
    ensures Inv(b)
  {}

  lemma ReleaseKeepsInv(b: Bank, i: nat, status: HoldStatus)
    requires Inv(b) && Release(b, i, status).Success? && (status == Released || status == Expired)
    ensures Inv(Release(b, i, status).value)
  {
    if b.holds[i].status == Held {
      BooksOf(b, i);
      hide Inv, InvExcept, HoldTotal;
      LeavingHold(b, i, b.holds[i].(status := status));
      TenantClosesInv(Release(b, i, status).value, b.holds[i].tenant);
    }
  }

  /** The tables between freeing the hold and posting its charge. */
  function Freed(b: Bank, i: nat, charge: real): Bank
    requires i < |b.holds| && b.holds[i].tenant in b.wallets
  {
    var h := b.holds[i];
    b.(wallets := b.wallets[h.tenant := Unreserved(b.wallets[h.tenant], h)],
       holds := b.holds[i := h.(status := Finalized, charged := Stored(charge))])
  }

  lemma FreedIsReady(b: Bank, i: nat, charge: real)
    requires Inv(b) && i < |b.holds| && b.holds[i].status == Held && charge >= 0.0
    requires b.holds[i].tenant in b.wallets
    ensures InvExcept(Freed(b, i, charge), b.holds[i].tenant)
    ensures var b', t := Freed(b, i, charge), b.holds[i].tenant;
      ReadyToPost(b'.wallets[t], t, b'.holds, b'.ledger, UsageCharge, -charge)
  {
    BooksOf(b, i);
    hide Inv, InvExcept, HoldTotal, Stored;
    StoredBounded(charge, 0);
    StoredNegates(charge);
    LeavingHold(b, i, b.holds[i].(status := Finalized, charged := Stored(charge)));
  }

  lemma FreedHasNoCharge(b: Bank, i: nat, charge: real)
    requires Inv(b) && i < |b.holds| && b.holds[i].status == Held && charge >= 0.0
    requires b.holds[i].tenant in b.wallets
    ensures MayPost(Freed(b, i, charge), b.holds[i].tenant, UsageCharge, -charge, ForHold(i))
  {
    StoredNegates(charge);
    forall e | e in b.ledger && e.kind == UsageCharge ensures e.origin != ForHold(i) {
      var k :| 0 <= k < |b.ledger| && b.ledger[k] == e;
      assert b.holds[b.ledger[k].origin.hold].status == Finalized;
    }
  }

  lemma FinalizeKeepsInv(b: Bank, i: nat, charge: real)
    requires Inv(b) && Finalize(b, i, charge).Success?
    ensures Inv(Finalize(b, i, charge).value)
  {
    assert b.holds[i] in b.holds;
    FreedIsReady(b, i, charge);
    if charge == 0.0 {
      StoredWhole(0);
    } else {
      FreedHasNoCharge(b, i, charge);
      PostFromReady(Freed(b, i, charge), b.holds[i].tenant, UsageCharge, -charge, ForHold(i), true);
    }
  }
}
