/** Refunds: a cumulative cap per purchase, a signed ledger entry, and the REFUNDED transition.
    A call to `create` is one step, with the card refund's outcome supplied from outside. */
module Refunds {
  import opened Wrappers
  import opened Money
  import opened Bank
  import opened LedgerTotals
  import opened BankInvariant
  import opened Purchases

  datatype RefundKind = WalletCredit | Cash

  datatype RefundStatus = Waiting | Done | Failed

  datatype RefundRow = RefundRow(
    tenant: TenantId, purchase: Option<nat>, amount: int, kind: RefundKind, status: RefundStatus)

  /** What became of the request to the card network: accepted or refused, or done with the answer
      lost on the way back; or the process died before or after it, with the ledger untouched. */
  datatype CardOutcome = CardAccepted | CardRefused | AnswerLost | DiedBefore | DiedAfter

  /** The network has paid. */
  predicate Pays(card: CardOutcome) { card == CardAccepted || card == AnswerLost || card == DiedAfter }

  /** The request throws, whether the network has paid or not. */
  predicate Throws(card: CardOutcome) { card == CardRefused || card == AnswerLost }

  predicate Dies(card: CardOutcome) { card == DiedBefore || card == DiedAfter }

  /** A refund request; without an amount it is for all that is left of the charge. */
  datatype CardRequest = CardRequest(cents: Option<int>)

  /** Math.round(amount * 100), which leaves the amount out where it is zero. */
  function RequestFor(amount: real): CardRequest {
    var cents := ((amount + 5000.0) / 10000.0).Floor;
    CardRequest(if cents != 0 then Some(cents) else None)
  }

  datatype Desk = Desk(tables: Tables, refunds: seq<RefundRow>)

  predicate Live(r: RefundRow) { r.status != Failed }

  /** What PENDING and COMPLETED refunds of purchase p add up to. */
  function RefundedSoFar(rs: seq<RefundRow>, p: nat): int {
    if rs == [] then 0
    else
      var r := rs[|rs| - 1];
      RefundedSoFar(rs[..|rs| - 1], p) + if r.purchase == Some(p) && Live(r) then r.amount else 0
  }

  /** Why `create` turns a request away before writing anything. */
  predicate Turned(purchases: seq<CreditPurchase>, refunds: seq<RefundRow>,
                   t: TenantId, amount: real, kind: RefundKind, purchase: Option<nat>) {
    || amount <= 0.0
    || (purchase.Some? &&
         var p := purchase.value;
         || p >= |purchases| || purchases[p].tenant != t
         || amount > (purchases[p].amount - RefundedSoFar(refunds, p)) as real)
    || (kind == Cash && !(purchase.Some? && purchase.value < |purchases| && purchases[purchase.value].paidIntent))
  }

  predicate InFull(purchases: seq<CreditPurchase>, refunds: seq<RefundRow>, amount: real, purchase: Option<nat>) {
    && purchase.Some? && purchase.value < |purchases|
    && RefundedSoFar(refunds, purchase.value) as real + amount >= purchases[purchase.value].amount as real
  }

  function Signed(kind: RefundKind, amount: real): real { if kind == WalletCredit then amount else -amount }

  /** `RefundService.create`. */
  function Create(d: Desk, t: TenantId, amount: real, kind: RefundKind, purchase: Option<nat>, card: CardOutcome): Desk
  {
    var touched := d.(tables := d.tables.(bank := Touch(d.tables.bank, t)));
    if amount <= 0.0 then d
    else if Turned(d.tables.purchases, d.refunds, t, amount, kind, purchase) then touched
    else
      var id, row := |d.refunds|, RefundRow(t, purchase, Stored(amount), kind, Waiting);
      if Dies(card) then touched.(refunds := d.refunds + [row])
      else if kind == Cash && Throws(card) then touched.(refunds := d.refunds + [row.(status := Failed)])
      else
        match Post(touched.tables.bank, t, Refund, Signed(kind, amount), ForRefund(id), kind == Cash)
        case Failure(_) => touched.(refunds := d.refunds + [row.(status := Failed)])
        case Success(bank) =>
          var posted := touched.tables.(bank := bank);
          Desk(if kind == Cash && InFull(d.tables.purchases, d.refunds, amount, purchase)
               then MarkRefunded(posted, purchase.value) else posted,
               d.refunds + [row.(status := Done)])
  }

  // ---- what every call keeps

  function Completed(rs: seq<RefundRow>, t: TenantId, kind: RefundKind): int {
    if rs == [] then 0
    else
      var r := rs[|rs| - 1];
      Completed(rs[..|rs| - 1], t, kind) + if r.tenant == t && r.kind == kind && r.status == Done then r.amount else 0
  }

  /** What COMPLETED refunds of purchase p add up to. */
  function PaidBack(rs: seq<RefundRow>, p: nat): int {
    if rs == [] then 0
    else
      var r := rs[|rs| - 1];
      PaidBack(rs[..|rs| - 1], p) + if r.purchase == Some(p) && r.status == Done then r.amount else 0
  }

  ghost predicate RefundInv(d: Desk) {
    && (forall r :: r in d.refunds ==> r.amount >= 0 && (r.purchase.Some? ==> r.purchase.value < |d.tables.purchases|))
    && (forall p :: 0 <= p < |d.tables.purchases| ==>
         && RefundedSoFar(d.refunds, p) <= d.tables.purchases[p].amount
         && (d.tables.purchases[p].status == Refunded ==> RefundedSoFar(d.refunds, p) == d.tables.purchases[p].amount))
    && (forall t :: Total(d.tables.bank.ledger, t, OfKind(Refund))
                 == Completed(d.refunds, t, WalletCredit) - Completed(d.refunds, t, Cash))
  }

  ghost predicate DeskInv(d: Desk) { Inv(d.tables.bank) && PurchaseInv(d.tables) && RefundInv(d) }

  lemma RowAppended(rs: seq<RefundRow>, r: RefundRow)
    ensures forall p: nat ::
      RefundedSoFar(rs + [r], p) == RefundedSoFar(rs, p) + if r.purchase == Some(p) && Live(r) then r.amount else 0
    ensures forall t, k ::
      Completed(rs + [r], t, k)
        == Completed(rs, t, k) + if r.tenant == t && r.kind == k && r.status == Done then r.amount else 0
  {
    assert (rs + [r])[..|rs|] == rs;
  }

  /** A row that does not move the ledger: waiting or failed. */
  lemma UnpostedRowKeeps(d: Desk, row: RefundRow)
    requires RefundInv(d) && row.status != Done && row.amount >= 0
    requires row.purchase.Some? ==> row.purchase.value < |d.tables.purchases|
    requires row.purchase.Some? && Live(row) ==>
      row.amount + RefundedSoFar(d.refunds, row.purchase.value) <= d.tables.purchases[row.purchase.value].amount
    ensures RefundInv(d.(refunds := d.refunds + [row]))
  {
    RowAppended(d.refunds, row);
  }

  /** A completed row and its entry go together. */
  lemma PostedRowKeeps(d: Desk, row: RefundRow, tables: Tables, e: Entry, full: bool)
    requires RefundInv(d) && row.status == Done && row.amount >= 0
    requires row.purchase.Some? ==> row.purchase.value < |d.tables.purchases|
    requires row.purchase.Some? ==>
      row.amount + RefundedSoFar(d.refunds, row.purchase.value) <= d.tables.purchases[row.purchase.value].amount
    requires tables.bank.ledger == d.tables.bank.ledger + [e] && e.kind == Refund && e.tenant == row.tenant
    requires e.amount == if row.kind == WalletCredit then row.amount else -row.amount
    requires full ==> row.purchase.Some?
    requires full ==>
      row.amount + RefundedSoFar(d.refunds, row.purchase.value) == d.tables.purchases[row.purchase.value].amount
    requires |tables.purchases| == |d.tables.purchases|
    requires forall p :: 0 <= p < |tables.purchases| ==>
      tables.purchases[p] == if full && row.purchase == Some(p) then d.tables.purchases[p].(status := Refunded)
                             else d.tables.purchases[p]
    ensures RefundInv(Desk(tables, d.refunds + [row]))
  {
    RowAppended(d.refunds, row);
    forall t ensures Total(tables.bank.ledger, t, OfKind(Refund))
                  == Completed(d.refunds + [row], t, WalletCredit) - Completed(d.refunds + [row], t, Cash)
    {
      TotalAppend(d.tables.bank.ledger, e, t, OfKind(Refund));
    }
    forall p | 0 <= p < |tables.purchases|
      ensures RefundedSoFar(d.refunds + [row], p) <= tables.purchases[p].amount
      ensures tables.purchases[p].status == Refunded ==>
        RefundedSoFar(d.refunds + [row], p) == tables.purchases[p].amount
    {
      assert RefundedSoFar(d.refunds, p) <= d.tables.purchases[p].amount;
    }
  }

  /** Accepting within the remainder stores within it, and taking all of it is exact. */
  lemma WithinRemainder(amount: real, remaining: int)
    requires 0.0 < amount <= remaining as real
    ensures 0 <= Stored(amount) <= remaining
    ensures amount >= remaining as real ==> Stored(amount) == remaining
  {
    StoredBounded(amount, 0);
    StoredBounded(amount, remaining);
  }

  /** The paths that stop before the ledger, or are refused by it. */
  lemma UnpostedCallKeeps(d: Desk, t: TenantId, amount: real, kind: RefundKind, purchase: Option<nat>,
                          status: RefundStatus)
    requires DeskInv(d) && !Turned(d.tables.purchases, d.refunds, t, amount, kind, purchase) && status != Done
    ensures DeskInv(Desk(d.tables.(bank := Touch(d.tables.bank, t)),
                         d.refunds + [RefundRow(t, purchase, Stored(amount), kind, status)]))
  {
    var touched := d.(tables := d.tables.(bank := Touch(d.tables.bank, t)));
    TouchKeepsInv(d.tables.bank, t);
    StoredBounded(amount, 0);
    if purchase.Some? {
      WithinRemainder(amount, d.tables.purchases[purchase.value].amount - RefundedSoFar(d.refunds, purchase.value));
    }
    UnpostedRowKeeps(touched, RefundRow(t, purchase, Stored(amount), kind, status));
  }

  lemma CreateKeeps(d: Desk, t: TenantId, amount: real, kind: RefundKind, purchase: Option<nat>, card: CardOutcome)
    requires DeskInv(d)
    ensures DeskInv(Create(d, t, amount, kind, purchase, card))
  {
    if Turned(d.tables.purchases, d.refunds, t, amount, kind, purchase) {
      TouchKeepsInv(d.tables.bank, t);
    } else if Dies(card) {
      UnpostedCallKeeps(d, t, amount, kind, purchase, Waiting);
    } else if (kind == Cash && Throws(card))
      || Post(Touch(d.tables.bank, t), t, Refund, Signed(kind, amount), ForRefund(|d.refunds|), kind == Cash).Failure? {
      UnpostedCallKeeps(d, t, amount, kind, purchase, Failed);
    } else {
      CompletedCallKeeps(d, t, amount, kind, purchase);
    }
  }

  /** The path that reaches the ledger and is not refused by it. */
  lemma CompletedCallKeeps(d: Desk, t: TenantId, amount: real, kind: RefundKind, purchase: Option<nat>)
    requires DeskInv(d) && amount > 0.0 && !Turned(d.tables.purchases, d.refunds, t, amount, kind, purchase)
    requires
      Post(Touch(d.tables.bank, t), t, Refund, Signed(kind, amount), ForRefund(|d.refunds|), kind == Cash).Success?
    ensures DeskInv(Create(d, t, amount, kind, purchase, CardAccepted))
  {
    hide Inv, Stored, RefundedSoFar, RefundInv;
    var bank := Touch(d.tables.bank, t);
    var e := EntryFor(t, WalletOf(bank, t), Refund, Signed(kind, amount), ForRefund(|d.refunds|));
    var row := RefundRow(t, purchase, Stored(amount), kind, Done);
    var full := kind == Cash && InFull(d.tables.purchases, d.refunds, amount, purchase);
    TouchKeepsInv(d.tables.bank, t);
    PostKeepsInv(bank, t, Refund, Signed(kind, amount), ForRefund(|d.refunds|), kind == Cash);
    StoredNegates(amount);
    StoredBounded(amount, 0);
    if purchase.Some? {
      WithinRemainder(amount, d.tables.purchases[purchase.value].amount - RefundedSoFar(d.refunds, purchase.value));
    }
    var posted := Post(bank, t, Refund, Signed(kind, amount), ForRefund(|d.refunds|), kind == Cash).value;
    OtherPostKeeps(d.tables, posted, e);
    if full { MarkRefundedKeeps(d.tables.(bank := posted), purchase.value); }
    PostedRowKeeps(d, row, Create(d, t, amount, kind, purchase, CardAccepted).tables, e, full);
  }

  // ---- what follows

  /** What PENDING refunds of purchase p add up to. */
  function Outstanding(rs: seq<RefundRow>, p: nat): int {
    if rs == [] then 0
    else
      var r := rs[|rs| - 1];
      Outstanding(rs[..|rs| - 1], p) + if r.purchase == Some(p) && r.status == Waiting then r.amount else 0
  }

  /** No refund of p is PENDING, except for nothing. */
  predicate NoneWaiting(rs: seq<RefundRow>, p: nat) {
    forall r :: r in rs && r.purchase == Some(p) && r.status == Waiting ==> r.amount == 0
  }

  lemma {:induction false} LiveIsPaidBackOrWaiting(rs: seq<RefundRow>, p: nat)
    requires forall r :: r in rs ==> r.amount >= 0
    ensures RefundedSoFar(rs, p) == PaidBack(rs, p) + Outstanding(rs, p)
    ensures PaidBack(rs, p) >= 0 && Outstanding(rs, p) >= 0
    ensures Outstanding(rs, p) == 0 <==> NoneWaiting(rs, p)
  {
    if rs != [] {
      var before, r := rs[..|rs| - 1], rs[|rs| - 1];
      assert rs == before + [r];
      LiveIsPaidBackOrWaiting(before, p);
    }
  }

  /** Never more than a purchase's amount is paid back; and a REFUNDED one has been paid back in full
      if and only if no refund of it is still waiting. */
  lemma RefundedMeansPaidBack(d: Desk, p: nat)
    requires DeskInv(d) && p < |d.tables.purchases|
    ensures 0 <= PaidBack(d.refunds, p) <= d.tables.purchases[p].amount
    ensures d.tables.purchases[p].status == Refunded ==>
      (PaidBack(d.refunds, p) == d.tables.purchases[p].amount <==> NoneWaiting(d.refunds, p))
  {
    LiveIsPaidBackOrWaiting(d.refunds, p);
  }

  /** The call that turns a purchase REFUNDED has then paid back all of it if and only if no refund
      of it was waiting before the call. */
  lemma TurningRefundedPaysBackExactly(d: Desk, t: TenantId, amount: real, kind: RefundKind, purchase: Option<nat>,
                                       card: CardOutcome, p: nat)
    requires DeskInv(d) && p < |d.tables.purchases| && d.tables.purchases[p].status != Refunded
    requires p < |Create(d, t, amount, kind, purchase, card).tables.purchases|
    requires Create(d, t, amount, kind, purchase, card).tables.purchases[p].status == Refunded
    ensures PaidBack(Create(d, t, amount, kind, purchase, card).refunds, p) == d.tables.purchases[p].amount
      <==> NoneWaiting(d.refunds, p)
  {
    hide Inv, PurchaseInv, Post;
    var d' := Create(d, t, amount, kind, purchase, card);
    CreateKeeps(d, t, amount, kind, purchase, card);
    RefundedExactlyOnFullCash(d, t, amount, kind, purchase, card, p);
    RefundedMeansPaidBack(d', p);
    assert d'.refunds == d.refunds + [d'.refunds[|d.refunds|]];
  }

  /** A call turns its purchase REFUNDED exactly when it completed a cash refund of all that was
      left of it; and leaves every other purchase alone. */
  lemma RefundedExactlyOnFullCash(d: Desk, t: TenantId, amount: real, kind: RefundKind, purchase: Option<nat>,
                                  card: CardOutcome, p: nat)
    requires p < |d.tables.purchases| && d.tables.purchases[p].status != Refunded
    ensures var d' := Create(d, t, amount, kind, purchase, card);
      && p < |d'.tables.purchases|
      && (d'.tables.purchases[p].status == Refunded <==>
           && kind == Cash && purchase == Some(p)
           && |d'.refunds| == |d.refunds| + 1 && d'.refunds[|d.refunds|].status == Done
           && amount == (d.tables.purchases[p].amount - RefundedSoFar(d.refunds, p)) as real)
      && (d'.tables.purchases[p].status != Refunded ==> d'.tables.purchases[p] == d.tables.purchases[p])
  {
    hide RefundedSoFar;
  }
}
