/** What each wallet transaction does, on the columns of the rows it touches. */
module WalletEffects {
  import opened Wrappers
  import opened Money
  import opened Bank

  /** What a column keeps of x is the nearest amount, and of two the one further from zero. */
  lemma StoredExactly(x: real, k: int)
    ensures k == Stored(x) <==>
      var d := k as real - x;
      -0.5 <= d <= 0.5 && (d == 0.5 ==> x > 0.0) && (d == -0.5 ==> x < 0.0)
  {
    StoredNearest(x);
    var d := k as real - x;
    if -0.5 < d < 0.5 { StoredUnique(x, k); }
  }

  // ---- posting

  /** An amount moves the lifetime total of its kind by its size, or else the adjustments by itself. */
  predicate TotalsMove(w: Wallet, w': Wallet, kind: EntryKind, amount: real) {
    var size := if amount < 0.0 then -amount else amount;
    && w'.purchased == (if kind == Purchase then Stored(w.purchased as real + size) else w.purchased)
    && w'.consumed == (if kind == UsageCharge then Stored(w.consumed as real + size) else w.consumed)
    && w'.refunded == (if kind == Refund then Stored(w.refunded as real + size) else w.refunded)
    && w'.adjusted == if kind in {Purchase, UsageCharge, Refund} then w.adjusted
                      else Stored(w.adjusted as real + amount)
  }

  /** The balance moves by the amount, and an active wallet that ends below its threshold, and no
      other, is suspended. */
  predicate RowMoves(w: Wallet, w': Wallet, kind: EntryKind, amount: real) {
    && w'.balance == Stored(w.balance as real + amount)
    && w'.reserved == w.reserved && w'.suspendThreshold == w.suspendThreshold
    && TotalsMove(w, w', kind, amount)
    && (w.status != Active ==> w'.status == w.status)
    && (w.status == Active ==>
          && w'.status in {Active, Suspended}
          && (w'.status == Suspended <==>
                w.suspendThreshold.Some? && w.balance as real + amount < w.suspendThreshold.value as real))
  }

  /** One wallet row becomes w; the others stay. */
  ghost predicate RowBecomes(b: Bank, b': Bank, t: TenantId, w: Wallet) {
    && b'.wallets.Keys == b.wallets.Keys + {t} && b'.wallets[t] == w
    && forall u :: u in b.wallets && u != t ==> b'.wallets[u] == b.wallets[u]
  }

  ghost predicate PostEffect(b: Bank, b': Bank, t: TenantId, kind: EntryKind, amount: real, origin: Origin,
                             allowNegative: bool, refusal: Option<Refusal>)
  {
    var w := WalletOf(b, t);
    && (refusal == Some(ZeroAmount) <==> amount == 0.0)
    && (refusal == Some(WalletClosed) <==> amount != 0.0 && w.status == Closed)
    && (refusal == Some(InsufficientCredits) <==>
          amount != 0.0 && w.status != Closed && !allowNegative && w.balance as real + amount < 0.0)
    && (refusal.Some? ==> refusal.value in {ZeroAmount, WalletClosed, InsufficientCredits} && b' == b)
    && (refusal.None? ==>
          && t in b'.wallets && RowMoves(w, b'.wallets[t], kind, amount) && RowBecomes(b, b', t, b'.wallets[t])
          && b'.holds == b.holds
          && b'.ledger == b.ledger
               + [Entry(t, kind, Stored(amount), w.balance, Stored(w.balance as real + amount), origin)])
  }

  lemma ChargedMoves(w: Wallet, kind: EntryKind, amount: real)
    ensures RowMoves(w, Charged(w, kind, amount), kind, amount)
  {
    hide Stored;
  }

  /** A posting is refused exactly for nothing, on a closed wallet, or below zero where that is not
      allowed, and otherwise moves the row and appends the entry. */
  lemma PostExactly(b: Bank, t: TenantId, kind: EntryKind, amount: real, origin: Origin, allowNegative: bool)
    ensures match Post(b, t, kind, amount, origin, allowNegative)
      case Success(b') => PostEffect(b, b', t, kind, amount, origin, allowNegative, None)
      case Failure(e) => PostEffect(b, b, t, kind, amount, origin, allowNegative, Some(e))
  {
    ChargedMoves(WalletOf(b, t), kind, amount);
    hide Stored, Charged, RowMoves;
  }

  // ---- reservations

  ghost predicate ReserveEffect(b: Bank, b': Bank, t: TenantId, amount: real, expiresAt: int,
                                refusal: Option<Refusal>)
  {
    var w := WalletOf(b, t);
    && (refusal.None? <==> amount > 0.0 && w.status == Active && w.reserved as real + amount <= w.balance as real)
    && (refusal == Some(NonPositiveReservation) <==> amount <= 0.0)
    && (refusal == Some(WalletIsSuspended) <==> amount > 0.0 && w.status == Suspended)
    && (refusal == Some(WalletClosed) <==> amount > 0.0 && w.status == Closed)
    && (refusal == Some(InsufficientCredits) <==>
          amount > 0.0 && w.status == Active && w.reserved as real + amount > w.balance as real)
    && (refusal.Some? ==> b' == b)
    && (refusal.None? ==>
          && RowBecomes(b, b', t, w.(reserved := Stored(w.reserved as real + amount)))
          && b'.holds == b.holds + [Hold(t, Stored(amount), Held, expiresAt, 0)]
          && b'.ledger == b.ledger)
  }

  /** A reservation goes through exactly when it asks for something that an active wallet has left
      beside what is reserved already. */
  lemma ReserveExactly(b: Bank, t: TenantId, amount: real, expiresAt: int)
    ensures match Reserve(b, t, amount, expiresAt)
      case Success(b') => ReserveEffect(b, b', t, amount, expiresAt, None)
      case Failure(e) => ReserveEffect(b, b, t, amount, expiresAt, Some(e))
  {
    hide Stored;
  }

  /** The row without the hold's credits, and never below zero. */
  predicate Freed(w: Wallet, w': Wallet, h: Hold) {
    && w' == w.(reserved := w'.reserved)
    && (h.amount <= w.reserved ==> w'.reserved == w.reserved - h.amount)
    && (h.amount > w.reserved ==> w'.reserved == 0)
  }

  ghost predicate FinalizeEffect(b: Bank, b': Bank, i: nat, charge: real, refusal: Option<Refusal>)
    requires WellFormed(b)
  {
    && (refusal == Some(NegativeCharge) <==> charge < 0.0)
    && (refusal == Some(ReservationNotFound) <==> charge >= 0.0 && i >= |b.holds|)
    && (refusal == Some(ReservationNotActive) <==> charge >= 0.0 && i < |b.holds| && b.holds[i].status != Held)
    && (refusal == Some(WalletClosed) <==>
          charge > 0.0 && i < |b.holds| && b.holds[i].status == Held && b.wallets[b.holds[i].tenant].status == Closed)
    && (refusal.Some? ==>
          refusal.value in {NegativeCharge, ReservationNotFound, ReservationNotActive, WalletClosed} && b' == b)
    && (refusal.None? ==> FinalizeMoves(b, b', i, charge))
  }

  /** The hold is finalized and its credits are free; a charge is then posted like any other. */
  ghost predicate FinalizeMoves(b: Bank, b': Bank, i: nat, charge: real)
    requires WellFormed(b)
  {
    && i < |b.holds| && b.holds[i].tenant in b'.wallets
    && var h := b.holds[i];
       var w, w' := b.wallets[h.tenant], b'.wallets[h.tenant];
       && b'.holds == b.holds[i := h.(status := Finalized, charged := Stored(charge))]
       && RowBecomes(b, b', h.tenant, w')
       && (charge == 0.0 ==> Freed(w, w', h) && b'.ledger == b.ledger)
       && (charge > 0.0 ==>
             && (exists freed :: Freed(w, freed, h) && RowMoves(freed, w', UsageCharge, -charge))
             && b'.ledger == b.ledger + [Entry(h.tenant, UsageCharge, -Stored(charge),
                                               w.balance, Stored(w.balance as real - charge), ForHold(i))])
  }

  lemma UnreservedFrees(w: Wallet, h: Hold)
    ensures Freed(w, Unreserved(w, h), h)
  {}

  /** Finalizing is refused exactly for a negative charge, a hold that is not there or not active, or a
      charge to a closed wallet. */
  lemma FinalizeExactly(b: Bank, i: nat, charge: real)
    requires WellFormed(b)
    ensures match Finalize(b, i, charge)
      case Success(b') => FinalizeEffect(b, b', i, charge, None)
      case Failure(e) => FinalizeEffect(b, b, i, charge, Some(e))
  {
    if i < |b.holds| {
      var h := b.holds[i];
      assert h in b.holds;
      var w := b.wallets[h.tenant];
      UnreservedFrees(w, h);
      ChargedMoves(Unreserved(w, h), UsageCharge, -charge);
      StoredNegates(charge);
      hide Stored, Charged, RowMoves;
    }
  }

  ghost predicate ReleaseEffect(b: Bank, b': Bank, i: nat, status: HoldStatus, refusal: Option<Refusal>)
    requires WellFormed(b)
  {
    && (refusal == Some(ReservationNotFound) <==> i >= |b.holds|) && (refusal.Some? <==> i >= |b.holds|)
    && (i < |b.holds| && b.holds[i].status == Held ==>
          && b.holds[i].tenant in b'.wallets
          && var h := b.holds[i];
             && b'.holds == b.holds[i := h.(status := status)] && b'.ledger == b.ledger
             && RowBecomes(b, b', h.tenant, b'.wallets[h.tenant])
             && Freed(b.wallets[h.tenant], b'.wallets[h.tenant], h))
    && (!(i < |b.holds| && b.holds[i].status == Held) ==> b' == b)
  }

  /** Releasing frees an active hold and leaves any other alone. */
  lemma ReleaseExactly(b: Bank, i: nat, status: HoldStatus)
    requires WellFormed(b)
    ensures match Release(b, i, status)
      case Success(b') => ReleaseEffect(b, b', i, status, None)
      case Failure(e) => ReleaseEffect(b, b, i, status, Some(e))
  {
    if i < |b.holds| { assert b.holds[i] in b.holds; }
  }
}
