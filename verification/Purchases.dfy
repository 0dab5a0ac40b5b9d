/** The purchase table on top of the bank: two rails, duplicated and reordered webhooks, and
    status updates that read and write without a lock. */
module Purchases {
  import opened Wrappers
  import opened Money
  import opened Bank
  import opened LedgerTotals
  import opened BankInvariant

  datatype Rail = Stripe | BankTransfer

  datatype Status = Pending | Completed | Rejected | Cancelled | TimedOut | Refunded

  /** `paidIntent` says whether a Stripe payment intent is recorded. */
  datatype CreditPurchase = CreditPurchase(
    tenant: TenantId, rail: Rail, amount: int, status: Status, paidIntent: bool, createdAt: int)

  /** A caller that saw the purchase PENDING and is about to overwrite its status unlocked. */
  datatype StaleWrite = StaleWrite(purchase: nat, status: Status)

  datatype Tables = Tables(bank: Bank, purchases: seq<CreditPurchase>, stale: seq<StaleWrite>)

  const MIN_PURCHASE: real := 1000000.0
  const MAX_PURCHASE: real := 100000000000.0

  /** `createStripeCheckout` and `submitBankTransfer`, up to the new PENDING row. */
  function Submit(s: Tables, t: TenantId, rail: Rail, amount: real, now: int): Tables {
    if MIN_PURCHASE <= amount <= MAX_PURCHASE then
      s.(bank := Touch(s.bank, t),
         purchases := s.purchases + [CreditPurchase(t, rail, Stored(amount), Pending, false, now)])
    else s
  }

  /** `completePurchase`, committed: the only path that credits a wallet for a purchase.
      `intent` is what the webhook knows of the payment intent, if it was a webhook. */
  function Complete(s: Tables, p: nat, intent: Option<bool>): Result<Tables, Refusal> {
    if p >= |s.purchases| then Failure(PurchaseNotFound)
    else
      var row := s.purchases[p];
      if row.status == Completed then Success(s)
      else if row.status != Pending then Failure(PurchaseNotPending)
      else
        match Post(s.bank, row.tenant, Purchase, row.amount as real, ForPurchase(p), false)
        case Failure(e) => Failure(e)
        case Success(bank) => Success(s.(bank := bank, purchases := s.purchases[p := row.(
          status := Completed,
          paidIntent := if intent.Some? then intent.value else row.paidIntent)]))
  }

  function Kept<T>(s: T, r: Result<T, Refusal>): T { match r case Success(s') => s' case Failure(_) => s }

  datatype StripeEvent =
    | SessionCompleted(purchase: nat, paid: bool, amountTotal: Option<int>, intent: bool)
    | AsyncPaymentSucceeded(purchase: nat, amountTotal: Option<int>, intent: bool)
    | AsyncPaymentFailed(purchase: nat)
    | SessionExpired(purchase: nat)
    | OtherEvent

  /** Math.round(amount * 100), for a stored amount that is not negative. */
  function Cents(amount: int): int { (amount + 5000) / 10000 }

  predicate AmountMatches(row: CreditPurchase, amountTotal: Option<int>) {
    amountTotal.Some? ==> amountTotal.value == Cents(row.amount)
  }

  /** The event is Stripe saying the money for this purchase is there. */
  predicate ProvesPayment(s: Tables, event: StripeEvent) {
    match event
    case SessionCompleted(p, paid, total, _) => paid && p < |s.purchases| && AmountMatches(s.purchases[p], total)
    case AsyncPaymentSucceeded(p, total, _) => p < |s.purchases| && AmountMatches(s.purchases[p], total)
    case _ => false
  }

  /** `handleStripeEvent`. A failed asynchronous payment only reads here; its write comes later. */
  function HandleStripe(s: Tables, event: StripeEvent): Tables {
    match event
    case SessionCompleted(p, paid, total, intent) =>
      if p >= |s.purchases| || !paid || !AmountMatches(s.purchases[p], total) then s
      else Kept(s, Complete(s, p, Some(intent)))
    case AsyncPaymentSucceeded(p, total, intent) =>
      if p >= |s.purchases| || !AmountMatches(s.purchases[p], total) then s
      else Kept(s, Complete(s, p, Some(intent)))
    case AsyncPaymentFailed(p) => SeePending(s, p, Rejected)
    case SessionExpired(p) => TimeOutIf(s, (i: nat, row: CreditPurchase) => i == p)
    case OtherEvent => s
  }

  /** An unlocked read that found the purchase PENDING. */
  function SeePending(s: Tables, p: nat, status: Status): Tables {
    if p < |s.purchases| && s.purchases[p].status == Pending then s.(stale := s.stale + [StaleWrite(p, status)]) else s
  }

  /** The unlocked write that follows, whatever has happened since. */
  function WriteStale(s: Tables, k: nat): Tables {
    if k < |s.stale| && s.stale[k].purchase < |s.purchases| then
      var w := s.stale[k];
      s.(purchases := s.purchases[w.purchase := s.purchases[w.purchase].(status := w.status)])
    else s
  }

  /** `cancelOwnPending`: the read half. */
  function Cancel(s: Tables, t: TenantId, p: nat): Tables {
    if p < |s.purchases| && s.purchases[p].tenant == t then SeePending(s, p, Cancelled) else s
  }

  /** `reviewBankTransfer`: a rejection reads here and writes later, an approval completes. */
  function Review(s: Tables, p: nat, approve: bool): Tables {
    if p < |s.purchases| && s.purchases[p].rail == BankTransfer && s.purchases[p].status == Pending then
      if approve then Kept(s, Complete(s, p, None)) else SeePending(s, p, Rejected)
    else s
  }

  /** A single UPDATE ... WHERE status = PENDING. */
  function TimeOutIf(s: Tables, which: (nat, CreditPurchase) -> bool): (s': Tables)
    ensures s'.bank == s.bank && s'.stale == s.stale && |s'.purchases| == |s.purchases|
    ensures forall i :: 0 <= i < |s.purchases| ==>
      s'.purchases[i] == if s.purchases[i].status == Pending && which(i, s.purchases[i])
                         then s.purchases[i].(status := TimedOut) else s.purchases[i]
  {
    s.(purchases := seq(|s.purchases|, i requires 0 <= i < |s.purchases| =>
      var row := s.purchases[i];
      if row.status == Pending && which(i, row) then row.(status := TimedOut) else row))
  }

  /** `expireStaleStripePurchases`: bank transfers are exempt. */
  function ExpireStale(s: Tables, cutoff: int): Tables {
    TimeOutIf(s, (i: nat, row: CreditPurchase) => row.rail == Stripe && row.createdAt < cutoff)
  }

  /** The unlocked status write of a full cash refund. */
  function MarkRefunded(s: Tables, p: nat): Tables {
    if p < |s.purchases| then s.(purchases := s.purchases[p := s.purchases[p].(status := Refunded)]) else s
  }

  // ---- what every step keeps

  /** How many PURCHASE entries the ledger has for purchase p. */
  function EntriesFor(l: seq<Entry>, p: nat): nat {
    if l == [] then 0
    else EntriesFor(l[..|l| - 1], p)
         + if l[|l| - 1].kind == Purchase && l[|l| - 1].origin == ForPurchase(p) then 1 else 0
  }

  lemma EntriesForAppend(l: seq<Entry>, e: Entry, p: nat)
    ensures EntriesFor(l + [e], p)
         == EntriesFor(l, p) + if e.kind == Purchase && e.origin == ForPurchase(p) then 1 else 0
  {
    assert (l + [e])[..|l|] == l;
  }

  /** A purchase row against the ledger. */
  ghost predicate RowBooked(row: CreditPurchase, entries: nat) {
    && MIN_PURCHASE <= row.amount as real <= MAX_PURCHASE && entries <= 1
    && (row.status == Pending || row.status == TimedOut ==> entries == 0)
    && (row.status == Completed || row.status == Refunded || row.paidIntent ==> entries == 1)
  }

  /** A PURCHASE entry is for an existing purchase of its tenant and exactly its amount. */
  ghost predicate EntryBacked(e: Entry, purchases: seq<CreditPurchase>) {
    && e.origin.ForPurchase? && e.origin.purchase < |purchases|
    && e.tenant == purchases[e.origin.purchase].tenant
    && e.amount == purchases[e.origin.purchase].amount
  }

  ghost predicate PurchaseInv(s: Tables) {
    && (forall p :: 0 <= p < |s.purchases| ==> RowBooked(s.purchases[p], EntriesFor(s.bank.ledger, p)))
    && (forall e :: e in s.bank.ledger && e.kind == Purchase ==> EntryBacked(e, s.purchases))
    && (forall w :: w in s.stale ==> w.status == Cancelled || w.status == Rejected)
  }

  lemma {:induction false} NoEntriesBeyond(l: seq<Entry>, p: nat, purchases: seq<CreditPurchase>)
    requires forall e :: e in l && e.kind == Purchase ==> EntryBacked(e, purchases)
    requires p >= |purchases|
    ensures EntriesFor(l, p) == 0
  {
    if l != [] {
      assert forall e :: e in l[..|l| - 1] ==> e in l;
      assert l[|l| - 1] in l;
      NoEntriesBeyond(l[..|l| - 1], p, purchases);
    }
  }

  lemma SubmitKeeps(s: Tables, t: TenantId, rail: Rail, amount: real, now: int)
    requires Inv(s.bank) && PurchaseInv(s)
    ensures Inv(Submit(s, t, rail, amount, now).bank) && PurchaseInv(Submit(s, t, rail, amount, now))
  {
    hide Inv, Stored;
    TouchKeepsInv(s.bank, t);
    StoredBounded(amount, 1000000);
    StoredBounded(amount, 100000000000);
    NoEntriesBeyond(s.bank.ledger, |s.purchases|, s.purchases);
  }

  /** The entry and the status change go together. */
  lemma CompletionBooks(s: Tables, s': Tables, p: nat, e: Entry)
    requires PurchaseInv(s) && p < |s.purchases| && s.purchases[p].status == Pending
    requires s'.bank.ledger == s.bank.ledger + [e] && s'.stale == s.stale
    requires e.kind == Purchase && e.origin == ForPurchase(p)
    requires e.tenant == s.purchases[p].tenant && e.amount == s.purchases[p].amount
    requires |s'.purchases| == |s.purchases| && s'.purchases == s.purchases[p := s'.purchases[p]]
    requires s'.purchases[p].tenant == s.purchases[p].tenant && s'.purchases[p].amount == s.purchases[p].amount
    requires s'.purchases[p].status == Completed
    ensures PurchaseInv(s')
  {
    forall q | 0 <= q < |s'.purchases| ensures RowBooked(s'.purchases[q], EntriesFor(s'.bank.ledger, q)) {
      EntriesForAppend(s.bank.ledger, e, q);
      assert RowBooked(s.purchases[q], EntriesFor(s.bank.ledger, q));
    }
  }

  lemma CompleteKeeps(s: Tables, p: nat, intent: Option<bool>)
    requires Inv(s.bank) && PurchaseInv(s) && Complete(s, p, intent).Success?
    ensures Inv(Complete(s, p, intent).value.bank) && PurchaseInv(Complete(s, p, intent).value)
  {
    var row := s.purchases[p];
    if row.status == Pending {
      var w := WalletOf(s.bank, row.tenant);
      assert RowBooked(row, EntriesFor(s.bank.ledger, p));
      PostKeepsInv(s.bank, row.tenant, Purchase, row.amount as real, ForPurchase(p), false);
      StoredWhole(row.amount);
      CompletionBooks(s, Complete(s, p, intent).value, p,
                      EntryFor(row.tenant, w, Purchase, row.amount as real, ForPurchase(p)));
    }
  }

  /** Postings of other kinds do not concern purchases. */
  lemma OtherPostKeeps(s: Tables, bank: Bank, e: Entry)
    requires PurchaseInv(s) && bank.ledger == s.bank.ledger + [e] && e.kind != Purchase
    ensures PurchaseInv(s.(bank := bank))
  {
    forall p ensures EntriesFor(bank.ledger, p) == EntriesFor(s.bank.ledger, p) {
      EntriesForAppend(s.bank.ledger, e, p);
    }
  }

  lemma StripeKeeps(s: Tables, event: StripeEvent)
    requires Inv(s.bank) && PurchaseInv(s)
    ensures Inv(HandleStripe(s, event).bank) && PurchaseInv(HandleStripe(s, event))
  {
    hide Inv, Complete, EntryBacked, RowBooked;
    match event
    case SessionCompleted(p, paid, total, intent) =>
      if Complete(s, p, Some(intent)).Success? { CompleteKeeps(s, p, Some(intent)); }
    case AsyncPaymentSucceeded(p, total, intent) =>
      if Complete(s, p, Some(intent)).Success? { CompleteKeeps(s, p, Some(intent)); }
    case SessionExpired(p) => TimeOutKeeps(s, (i: nat, row: CreditPurchase) => i == p);
    case _ =>
  }

  lemma TimeOutKeeps(s: Tables, which: (nat, CreditPurchase) -> bool)
    requires PurchaseInv(s)
    ensures PurchaseInv(TimeOutIf(s, which))
  {
    var s' := TimeOutIf(s, which);
    forall p | 0 <= p < |s'.purchases| ensures RowBooked(s'.purchases[p], EntriesFor(s'.bank.ledger, p)) {
      assert RowBooked(s.purchases[p], EntriesFor(s.bank.ledger, p));
    }
  }

  lemma ReviewKeeps(s: Tables, p: nat, approve: bool)
    requires Inv(s.bank) && PurchaseInv(s)
    ensures Inv(Review(s, p, approve).bank) && PurchaseInv(Review(s, p, approve))
  {
    if Complete(s, p, None).Success? { CompleteKeeps(s, p, None); }
  }

  lemma MarkRefundedKeeps(s: Tables, p: nat)
    requires PurchaseInv(s) && p < |s.purchases| && s.purchases[p].paidIntent
    ensures PurchaseInv(MarkRefunded(s, p))
  {
    assert RowBooked(s.purchases[p], EntriesFor(s.bank.ledger, p));
  }

  /** Credits are granted only on proof of payment: any other event leaves the bank alone. */
  lemma CreditNeedsProof(s: Tables, event: StripeEvent)
    requires HandleStripe(s, event).bank != s.bank
    ensures (event.SessionCompleted? || event.AsyncPaymentSucceeded?) && ProvesPayment(s, event)
    ensures event.purchase < |s.purchases| && s.purchases[event.purchase].status == Pending
    ensures HandleStripe(s, event).purchases[event.purchase].status == Completed
  {}

  /** The wallet can take the purchase's credits: it is open, and they make up for whatever it is
      overdrawn by. */
  predicate Creditable(s: Tables, p: nat)
    requires p < |s.purchases|
  {
    var w := WalletOf(s.bank, s.purchases[p].tenant);
    w.status != Closed && w.balance + s.purchases[p].amount >= 0
  }

  /** Exactly when a completion that finds the purchase PENDING goes through. */
  lemma PendingIsCompletedExactly(s: Tables, p: nat, intent: Option<bool>)
    requires PurchaseInv(s) && p < |s.purchases| && s.purchases[p].status == Pending
    ensures Complete(s, p, intent).Success? <==> Creditable(s, p)
    ensures Complete(s, p, intent).Success? ==>
      WalletOf(Complete(s, p, intent).value.bank, s.purchases[p].tenant).balance
        == WalletOf(s.bank, s.purchases[p].tenant).balance + s.purchases[p].amount
  {
    var row := s.purchases[p];
    assert RowBooked(row, EntriesFor(s.bank.ledger, p));
    StoredWhole(WalletOf(s.bank, row.tenant).balance + row.amount);
  }

  /** When an event has proved the payment, the purchase has its credits if and only if it had them
      before, as every COMPLETED or REFUNDED one does and a CANCELLED or REJECTED one that was
      overwritten, or it is PENDING and its wallet can take them. The event changes nothing unless it
      finds it PENDING: payment for a purchase that has timed out, or was cancelled or rejected before
      it was completed, never gives credits. */
  lemma PaidPurchaseIsCreditedExactly(s: Tables, event: StripeEvent)
    requires PurchaseInv(s) && ProvesPayment(s, event)
    ensures var p, s' := event.purchase, HandleStripe(s, event);
      var row := s.purchases[p];
      && (EntriesFor(s'.bank.ledger, p) == 1 <==>
           || row.status == Completed || row.status == Refunded
           || ((row.status == Cancelled || row.status == Rejected) && EntriesFor(s.bank.ledger, p) == 1)
           || (row.status == Pending && Creditable(s, p)))
      && (s' != s <==> row.status == Pending && Creditable(s, p))
      && (s' != s ==>
           && s'.purchases[p].status == Completed
           && WalletOf(s'.bank, row.tenant).balance == WalletOf(s.bank, row.tenant).balance + row.amount)
  {
    hide EntriesFor, Complete;
    var p := event.purchase;
    var row := s.purchases[p];
    var intent := Some(event.intent);
    assert RowBooked(row, EntriesFor(s.bank.ledger, p));
    assert HandleStripe(s, event) == Kept(s, Complete(s, p, intent));
    CompletionOutcome(s, p, intent);
    if row.status == Pending { PendingIsCompletedExactly(s, p, intent); }
  }

  /** What completing does, by the row's status. */
  lemma CompletionOutcome(s: Tables, p: nat, intent: Option<bool>)
    requires p < |s.purchases|
    ensures var row, s' := s.purchases[p], Kept(s, Complete(s, p, intent));
      if row.status == Pending && Complete(s, p, intent).Success?
      then s'.purchases[p].status == Completed
           && EntriesFor(s'.bank.ledger, p) == EntriesFor(s.bank.ledger, p) + 1
      else s' == s
  {
    hide EntriesFor;
    var row := s.purchases[p];
    if row.status == Pending && Complete(s, p, intent).Success? {
      var e := EntryFor(row.tenant, WalletOf(s.bank, row.tenant), Purchase, row.amount as real, ForPurchase(p));
      assert Complete(s, p, intent).value.bank.ledger == s.bank.ledger + [e];
      EntriesForAppend(s.bank.ledger, e, p);
    }
  }
}
