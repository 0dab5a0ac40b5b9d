/** The wallet service, statement by statement. Each call is a database transaction: it leaves
    what the function of the same name says, or is rolled back and leaves nothing. */
module WalletCalls {
  import opened Wrappers
  import opened Money
  import opened Bank
  import opened LedgerTotals
  import opened BankInvariant
  import opened WalletEffects
  import opened Persistence

  /** A committed call, or a refused one that was rolled back. */
  ghost predicate Settles(before: Bank, after: Bank, spec: Result<Bank, Refusal>, refusal: Option<Refusal>) {
    match spec
    case Success(b) => refusal.None? && after == b
    case Failure(e) => refusal == Some(e) && after == before
  }

  const SWEEP_LIMIT := 200

  /** An active reservation past its expiry. */
  predicate IsStale(h: Hold, now: int) { h.status == Held && h.expiresAt < now }

  /** Distinct stale rows. */
  ghost predicate StaleRows(holds: seq<Hold>, now: int, rows: seq<nat>) {
    && (forall i :: i in rows ==> i < |holds| && IsStale(holds[i], now))
    && (forall j, k :: 0 <= j < k < |rows| ==> rows[j] != rows[k])
  }

  ghost predicate NothingStale(holds: seq<Hold>, now: int) { forall h :: h in holds ==> !IsStale(h, now) }

  lemma StaleRow(holds: seq<Hold>, now: int, rows: seq<nat>, k: nat)
    requires StaleRows(holds, now, rows) && k < |rows|
    ensures rows[k] !in rows[..k] && rows[k] < |holds| && holds[rows[k]].status == Held
  {
    assert rows[k] in rows;
  }

  class WalletService {
    const db: Database

    constructor (db: Database)
      ensures this.db == db
    {
      this.db := db;
    }

    method GetOrCreateWallet(t: TenantId) returns (w: Wallet)
      requires db.Valid()
      modifies db`wallets
      ensures db.Books() == Touch(old(db.Books()), t) && w == WalletOf(old(db.Books()), t) && db.Valid()
      ensures w == if t in old(db.wallets) then old(db.wallets)[t] else Wallet(0, 0, 0, 0, 0, 0, Active, None)
      ensures db.wallets == old(db.wallets)[t := w]
    {
      if t !in db.wallets {
        db.wallets := db.wallets[t := NewWallet];
      }
      w := db.wallets[t];
      assert old(db.wallets)[t := w] == db.wallets;
    }

    /** Apply a ledger entry to a locked wallet row; nothing is written when it refuses. */
    method ApplyTransaction(t: TenantId, wallet: Wallet, kind: EntryKind, amount: real, origin: Origin,
                            allowNegative: bool)
      returns (refusal: Option<Refusal>)
      requires t in db.wallets
      modifies db`wallets, db`ledger
      ensures refusal == PostRefusal(wallet, amount, allowNegative)
      ensures refusal.Some? ==> db.wallets == old(db.wallets) && db.ledger == old(db.ledger)
      ensures refusal.None? ==>
        && db.wallets == old(db.wallets)[t := Charged(wallet, kind, amount)]
        && db.ledger == old(db.ledger) + [EntryFor(t, wallet, kind, amount, origin)]
    {
      if amount == 0.0 { return Some(ZeroAmount); }
      if wallet.status == Closed { return Some(WalletClosed); }
      var balanceBefore := wallet.balance;
      var balanceAfter := balanceBefore as real + amount;
      if balanceAfter < 0.0 && !allowNegative { return Some(InsufficientCredits); }

      db.ledger := db.ledger + [Entry(t, kind, Stored(amount), balanceBefore, Stored(balanceAfter), origin)];

      var updated := wallet.(balance := Stored(balanceAfter));
      match kind {
        case Purchase => updated := updated.(purchased := Stored(wallet.purchased as real + Abs(amount)));
        case UsageCharge => updated := updated.(consumed := Stored(wallet.consumed as real + Abs(amount)));
        case Refund => updated := updated.(refunded := Stored(wallet.refunded as real + Abs(amount)));
        case _ => updated := updated.(adjusted := Stored(wallet.adjusted as real + amount));
      }
      if wallet.suspendThreshold.Some? && balanceAfter < wallet.suspendThreshold.value as real
         && wallet.status == Active
      {
        updated := updated.(status := Suspended);
      }
      db.wallets := db.wallets[t := updated];
      return None;
    }

    method PostTransaction(t: TenantId, kind: EntryKind, amount: real, origin: Origin, allowNegative: bool)
      returns (refusal: Option<Refusal>)
      requires db.Valid()
      modifies db`wallets, db`ledger
      ensures Settles(old(db.Books()), db.Books(),
                      Post(old(db.Books()), t, kind, amount, origin, allowNegative), refusal)
      ensures PostEffect(old(db.Books()), db.Books(), t, kind, amount, origin, allowNegative, refusal)
      ensures db.Valid()
    {
      PostExactly(db.Books(), t, kind, amount, origin, allowNegative);
      hide Post, PostEffect;
      refusal := Commit(t, kind, amount, origin, allowNegative);
    }

    /** The transaction of a posting. */
    method Commit(t: TenantId, kind: EntryKind, amount: real, origin: Origin, allowNegative: bool)
      returns (refusal: Option<Refusal>)
      requires db.Valid()
      modifies db`wallets, db`ledger
      ensures Settles(old(db.Books()), db.Books(),
                      Post(old(db.Books()), t, kind, amount, origin, allowNegative), refusal)
      ensures db.Valid()
    {
      hide PostRefusal, Charged, EntryFor;
      var begun := db.wallets;
      var wallet := GetOrCreateWallet(t);
      refusal := ApplyTransaction(t, wallet, kind, amount, origin, allowNegative);
      if refusal.Some? {
        db.wallets := begun;
      } else {
        assert begun[t := wallet][t := Charged(wallet, kind, amount)] == begun[t := Charged(wallet, kind, amount)];
      }
    }

    method ReserveCredits(t: TenantId, amount: real, expiresAt: int) returns (refusal: Option<Refusal>)
      requires db.Valid()
      modifies db`wallets, db`holds
      ensures Settles(old(db.Books()), db.Books(), Reserve(old(db.Books()), t, amount, expiresAt), refusal)
      ensures ReserveEffect(old(db.Books()), db.Books(), t, amount, expiresAt, refusal)
      ensures db.Valid()
    {
      ReserveExactly(db.Books(), t, amount, expiresAt);
      hide ReserveEffect;
      if amount <= 0.0 { return Some(NonPositiveReservation); }
      var begun := db.wallets;
      var wallet := GetOrCreateWallet(t);
      if wallet.status == Suspended {
        refusal := Some(WalletIsSuspended);
      } else if wallet.status == Closed {
        refusal := Some(WalletClosed);
      } else if (wallet.balance - wallet.reserved) as real < amount {
        refusal := Some(InsufficientCredits);
      } else {
        db.holds := db.holds + [Hold(t, Stored(amount), Held, expiresAt, 0)];
        db.wallets := db.wallets[t := wallet.(reserved := Stored(wallet.reserved as real + amount))];
        assert db.wallets == begun[t := wallet.(reserved := Stored(wallet.reserved as real + amount))];
        return None;
      }
      db.wallets := begun;
    }

    method FinalizeReservation(id: nat, charge: real) returns (refusal: Option<Refusal>)
      requires db.Valid()
      modifies db`wallets, db`holds, db`ledger
      ensures Settles(old(db.Books()), db.Books(), Finalize(old(db.Books()), id, charge), refusal)
      ensures FinalizeEffect(old(db.Books()), db.Books(), id, charge, refusal)
      ensures db.Valid()
    {
      FinalizeExactly(db.Books(), id, charge);
      hide FinalizeEffect;
      if charge < 0.0 { return Some(NegativeCharge); }
      if id >= |db.holds| { return Some(ReservationNotFound); }
      var reservation := db.holds[id];
      if reservation.status != Held { return Some(ReservationNotActive); }
      assert reservation in db.Books().holds;
      var begunWallets, begunHolds, t := db.wallets, db.holds, reservation.tenant;
      var wallet := db.wallets[t];

      db.wallets := db.wallets[t := wallet.(reserved := Max(0, wallet.reserved - reservation.amount))];
      db.holds := db.holds[id := reservation.(status := Finalized, charged := Stored(charge))];
      if charge == 0.0 { return None; }

      var current := db.wallets[t];
      refusal := ApplyTransaction(t, current, UsageCharge, -charge, ForHold(id), true);
      if refusal.Some? {
        db.wallets, db.holds := begunWallets, begunHolds;
      }
    }

    method ReleaseReservation(id: nat, status: HoldStatus) returns (refusal: Option<Refusal>)
      requires db.Valid()
      modifies db`wallets, db`holds
      ensures Settles(old(db.Books()), db.Books(), Release(old(db.Books()), id, status), refusal)
      ensures ReleaseEffect(old(db.Books()), db.Books(), id, status, refusal)
      ensures db.Valid()
    {
      ReleaseExactly(db.Books(), id, status);
      hide ReleaseEffect;
      if id >= |db.holds| { return Some(ReservationNotFound); }
      var reservation := db.holds[id];
      if reservation.status != Held { return None; }
      assert reservation in db.Books().holds;
      var wallet := db.wallets[reservation.tenant];
      db.wallets := db.wallets[reservation.tenant :=
        wallet.(reserved := Max(0, wallet.reserved - reservation.amount))];
      db.holds := db.holds[id := reservation.(status := status)];
      return None;
    }

    method UpdateWalletSettings(t: TenantId, status: Option<WalletStatus>, threshold: Option<Option<int>>)
      requires db.Valid()
      modifies db`wallets
      ensures db.Books() == Settings(old(db.Books()), t, status, threshold) && db.Valid()
      ensures t in db.wallets && db.wallets == old(db.wallets)[t := db.wallets[t]]
      ensures var w, w' := WalletOf(old(db.Books()), t), db.wallets[t];
        && w' == w.(status := w'.status, suspendThreshold := w'.suspendThreshold)
        && (if status.Some? then Some(w'.status) == status else w'.status == w.status)
        && (if threshold.Some? then Some(w'.suspendThreshold) == threshold
            else w'.suspendThreshold == w.suspendThreshold)
    {
      var wallet := GetOrCreateWallet(t);
      var updated := wallet;
      if status.Some? { updated := updated.(status := status.value); }
      if threshold.Some? { updated := updated.(suspendThreshold := threshold.value); }
      db.wallets := db.wallets[t := updated];
      assert db.wallets == old(db.wallets)[t := updated];
    }

    /** The rows the sweep takes: the first SWEEP_LIMIT stale ones. */
    method FindStale(now: int) returns (rows: seq<nat>)
      ensures StaleRows(db.holds, now, rows) && |rows| <= 200
      ensures forall i :: i in rows ==> db.holds[i].status == Held && db.holds[i].expiresAt < now
      ensures |rows| < 200 ==>
        forall i: nat :: i < |db.holds| && db.holds[i].status == Held && db.holds[i].expiresAt < now ==> i in rows
    {
      rows := [];
      var i := 0;
      while i < |db.holds| && |rows| < SWEEP_LIMIT
        invariant 0 <= i <= |db.holds| && |rows| <= SWEEP_LIMIT
        invariant StaleRows(db.holds, now, rows) && forall j :: j in rows ==> j < i
        invariant forall j: nat :: j < i && IsStale(db.holds[j], now) ==> j in rows
      {
        if IsStale(db.holds[i], now) {
          assert forall k :: 0 <= k < |rows| ==> rows[k] in rows;
          rows := rows + [i];
        }
        i := i + 1;
      }
    }

    /** The cron sweep: exactly the rows it took are EXPIRED, everything else about the holds and
        the ledger stays, and a sweep below its limit leaves nothing stale. */
    method ExpireStaleReservations(now: int) returns (count: nat, ghost swept: seq<nat>)
      requires db.Valid() && Inv(db.Books())
      modifies db`wallets, db`holds
      ensures db.Valid() && Inv(db.Books()) && SweptFrom(old(db.Books()), db.Books(), swept)
      ensures count == |swept| <= 200 && StaleRows(old(db.holds), now, swept)
      ensures forall i :: i in swept ==> old(db.holds)[i].status == Held && old(db.holds)[i].expiresAt < now
      ensures count < 200 ==> forall h :: h in db.holds ==> !(h.status == Held && h.expiresAt < now)
    {
      hide Inv, WellFormed, StaleRows, NothingStale;
      ghost var before := db.Books();
      var stale := FindStale(now);
      assert SweptFrom(before, db.Books(), stale[..0]);
      for k := 0 to |stale|
        invariant db.Valid() && Inv(db.Books()) && SweptFrom(before, db.Books(), stale[..k])
      {
        hide SweptFrom;
        StaleRow(before.holds, now, stale, k);
        ExpireOne(stale[k], before, stale[..k]);
        assert stale[..k + 1] == stale[..k] + [stale[k]];
      }
      assert stale[..|stale|] == stale;
      if |stale| < SWEEP_LIMIT { NothingIsStale(before, db.Books(), stale, now); }
      return |stale|, stale;
    }

    /** One turn of the sweep; a refused release would only be logged. */
    method ExpireOne(id: nat, ghost before: Bank, ghost swept: seq<nat>)
      requires db.Valid() && Inv(db.Books()) && SweptFrom(before, db.Books(), swept)
      requires id !in swept && id < |before.holds| && before.holds[id].status == Held
      modifies db`wallets, db`holds
      ensures db.Valid() && Inv(db.Books()) && SweptFrom(before, db.Books(), swept + [id])
    {
      hide Inv, Release, WellFormed, SweptFrom;
      SweepOne(before, db.Books(), swept, id);
      var refusal := ReleaseReservation(id, Expired);
    }
  }

  /** `after` is `before` with the reservations in `swept` expired and their credits freed. */
  ghost predicate SweptFrom(before: Bank, after: Bank, swept: seq<nat>) {
    && |after.holds| == |before.holds| && after.ledger == before.ledger
    && (forall i :: i in swept ==> i < |before.holds|)
    && (forall i: nat :: i < |before.holds| ==>
         after.holds[i] == if i in swept then before.holds[i].(status := Expired) else before.holds[i])
    && (forall t :: WalletOf(after, t).(reserved := 0) == WalletOf(before, t).(reserved := 0))
  }

  lemma NothingIsStale(before: Bank, after: Bank, swept: seq<nat>, now: int)
    requires SweptFrom(before, after, swept)
    requires forall i: nat :: i < |before.holds| && IsStale(before.holds[i], now) ==> i in swept
    ensures NothingStale(after.holds, now)
  {}

  lemma SweepOne(before: Bank, b: Bank, swept: seq<nat>, i: nat)
    requires SweptFrom(before, b, swept) && Inv(b) && WellFormed(b)
    requires i !in swept && i < |before.holds| && before.holds[i].status == Held
    ensures Release(b, i, Expired).Success? && Inv(Release(b, i, Expired).value)
    ensures SweptFrom(before, Release(b, i, Expired).value, swept + [i])
  {
    hide Inv;
    assert b.holds[i] == before.holds[i] && b.holds[i] in b.holds;
    ReleaseKeepsInv(b, i, Expired);
    var b' := Release(b, i, Expired).value;
    forall t ensures WalletOf(b', t).(reserved := 0) == WalletOf(before, t).(reserved := 0) {
      assert WalletOf(b, t).(reserved := 0) == WalletOf(before, t).(reserved := 0);
    }
  }
}
