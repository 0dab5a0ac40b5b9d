/** Wallets, credit reservations and the append-only ledger, as tables, with the effect of each
    wallet transaction as a function on them. A row's id is its position in its table. */
module Bank {
  import opened Wrappers
  import opened Money

  type TenantId = string

  datatype EntryKind =
    | Purchase | ManualCredit | UsageCharge | Refund | BonusCredit | PromoCredit
    | DisputeResolution | ChargeReversal | CreditExpiry | AdminAdjustment | Correction

  /** The row an entry was posted for (relatedEntityType and relatedEntityId). */
  datatype Origin =
    | ForHold(hold: nat)
    | ForPurchase(purchase: nat)
    | ForRefund(refund: nat)
    | ForEntry(entry: nat)
    | ForDispute(dispute: nat)
    | ByAdmin

  datatype Entry = Entry(tenant: TenantId, kind: EntryKind, amount: int, before: int, after: int, origin: Origin)

  datatype WalletStatus = Active | Suspended | Closed

  datatype Wallet = Wallet(
    balance: int, reserved: int,
    purchased: int, consumed: int, refunded: int, adjusted: int,
    status: WalletStatus, suspendThreshold: Option<int>)

  datatype HoldStatus = Held | Finalized | Released | Expired

  /** A credit reservation. `charged` is a history column: what finalizing it charged. */
  datatype Hold = Hold(tenant: TenantId, amount: int, status: HoldStatus, expiresAt: int, charged: int)

  datatype Bank = Bank(wallets: map<TenantId, Wallet>, holds: seq<Hold>, ledger: seq<Entry>)

  datatype Refusal =
    | ZeroAmount | WalletClosed | WalletIsSuspended | InsufficientCredits
    | NonPositiveReservation | NegativeCharge | ReservationNotFound | ReservationNotActive
    | PurchaseNotFound | PurchaseNotPending

  const NewWallet := Wallet(0, 0, 0, 0, 0, 0, Active, None)

  const Empty := Bank(map[], [], [])

  /** The tenant's wallet, created on first touch. */
  function WalletOf(b: Bank, t: TenantId): Wallet {
    if t in b.wallets then b.wallets[t] else NewWallet
  }

  function Touch(b: Bank, t: TenantId): Bank {
    b.(wallets := b.wallets[t := WalletOf(b, t)])
  }

  // ---- applyTransaction

  function Abs(x: real): real { if x < 0.0 then -x else x }

  /** `aggregateDelta`: the lifetime total that mirrors an entry of this kind. */
  function WithAggregate(w: Wallet, kind: EntryKind, amount: real): Wallet {
    match kind
    case Purchase => w.(purchased := Stored(w.purchased as real + Abs(amount)))
    case UsageCharge => w.(consumed := Stored(w.consumed as real + Abs(amount)))
    case Refund => w.(refunded := Stored(w.refunded as real + Abs(amount)))
    case _ => w.(adjusted := Stored(w.adjusted as real + amount))
  }

  function Charged(w: Wallet, kind: EntryKind, amount: real): Wallet {
    var after := w.balance as real + amount;
    var suspend := w.suspendThreshold.Some? && after < w.suspendThreshold.value as real && w.status == Active;
    WithAggregate(w, kind, amount).(
      balance := Stored(after),
      status := if suspend then Suspended else w.status)
  }

  function PostRefusal(w: Wallet, amount: real, allowNegative: bool): Option<Refusal> {
    if amount == 0.0 then Some(ZeroAmount)
    else if w.status == Closed then Some(WalletClosed)
    else if w.balance as real + amount < 0.0 && !allowNegative then Some(InsufficientCredits)
    else None
  }

  function EntryFor(t: TenantId, w: Wallet, kind: EntryKind, amount: real, origin: Origin): Entry {
    Entry(t, kind, Stored(amount), w.balance, Stored(w.balance as real + amount), origin)
  }

  /** `postTransaction`, committed. */
  function Post(b: Bank, t: TenantId, kind: EntryKind, amount: real, origin: Origin, allowNegative: bool)
    : Result<Bank, Refusal>
  {
    var w := WalletOf(b, t);
    match PostRefusal(w, amount, allowNegative)
    case Some(e) => Failure(e)
    case None => Success(Bank(
      b.wallets[t := Charged(w, kind, amount)],
      b.holds,
      b.ledger + [EntryFor(t, w, kind, amount, origin)]))
  }

  // ---- reservations

  function ReserveRefusal(w: Wallet, amount: real): Option<Refusal> {
    if w.status == Suspended then Some(WalletIsSuspended)
    else if w.status == Closed then Some(WalletClosed)
    else if (w.balance - w.reserved) as real < amount then Some(InsufficientCredits)
    else None
  }

  /** `reserveCredits`, committed. */
  function Reserve(b: Bank, t: TenantId, amount: real, expiresAt: int): Result<Bank, Refusal> {
    if amount <= 0.0 then Failure(NonPositiveReservation)
    else
      var w := WalletOf(b, t);
      match ReserveRefusal(w, amount)
      case Some(e) => Failure(e)
      case None => Success(Bank(
        b.wallets[t := w.(reserved := Stored(w.reserved as real + amount))],
        b.holds + [Hold(t, Stored(amount), Held, expiresAt, 0)],
        b.ledger))
  }

  function Max(x: int, y: int): int { if x < y then y else x }

  /** Taking a hold off its wallet, with the code's clamp at zero. */
  function Unreserved(w: Wallet, h: Hold): Wallet { w.(reserved := Max(0, w.reserved - h.amount)) }

  predicate WellFormed(b: Bank) { forall h :: h in b.holds ==> h.tenant in b.wallets }

  /** `finalizeReservation`, committed. */
  function Finalize(b: Bank, i: nat, charge: real): Result<Bank, Refusal>
    requires WellFormed(b)
  {
    if charge < 0.0 then Failure(NegativeCharge)
    else if i >= |b.holds| then Failure(ReservationNotFound)
    else if b.holds[i].status != Held then Failure(ReservationNotActive)
    else
      var h := b.holds[i];
      var freed := b.(
        wallets := b.wallets[h.tenant := Unreserved(b.wallets[h.tenant], h)],
        holds := b.holds[i := h.(status := Finalized, charged := Stored(charge))]);
      if charge == 0.0 then Success(freed)
      else Post(freed, h.tenant, UsageCharge, -charge, ForHold(i), true)
  }

  /** `releaseReservation`, committed: a hold that is no longer active is left alone. */
  function Release(b: Bank, i: nat, status: HoldStatus): Result<Bank, Refusal>
    requires WellFormed(b)
  {
    if i >= |b.holds| then Failure(ReservationNotFound)
    else
      var h := b.holds[i];
      if h.status != Held then Success(b)
      else Success(b.(
        wallets := b.wallets[h.tenant := Unreserved(b.wallets[h.tenant], h)],
        holds := b.holds[i := h.(status := status)]))
  }

  /** `updateWalletSettings`: status and thresholds only. */
  function Settings(b: Bank, t: TenantId, status: Option<WalletStatus>, threshold: Option<Option<int>>): Bank {
    var w := WalletOf(b, t);
    b.(wallets := b.wallets[t := w.(
      status := if status.Some? then status.value else w.status,
      suspendThreshold := if threshold.Some? then threshold.value else w.suspendThreshold)])
  }
}
