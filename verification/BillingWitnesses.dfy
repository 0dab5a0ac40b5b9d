/** Runs from the empty system that end where a promise of the services is not kept. */
module BillingWitnesses {
  import opened Wrappers
  import opened Money
  import opened Bank
  import opened BankInvariant
  import opened Purchases
  import opened Refunds
  import opened Disputes
  import opened Charging
  import opened BillingRuns
  import opened BillingHistories
  import Pricing

  /** One tenant's tables. */
  function Shop(w: Wallet, ledger: seq<Entry>, purchases: seq<CreditPurchase>, stale: seq<StaleWrite>,
                refunds: seq<RefundRow>): System
  {
    System(Office(Desk(Tables(Bank(map["t" := w], [], ledger), purchases, stale), refunds), []), [], [])
  }

  /** A card purchase of two credits. */
  function TwoCredits(status: Status, paid: bool): CreditPurchase {
    CreditPurchase("t", Stripe, 2000000, status, paid, 0)
  }

  const SUBMIT := SubmitPurchase("t", Stripe, 2000000.0, 0)
  const PAY := StripeWebhook(SessionCompleted(0, true, None, true))
  const CREDITED := Wallet(2000000, 0, 2000000, 0, 0, 0, Active, None)
  const CREDIT := Entry("t", Purchase, 2000000, 0, 2000000, ForPurchase(0))

  lemma Whole()
    ensures Stored(2000000.0) == 2000000 && Stored(1000000.0) == 1000000 && Stored(0.0) == 0
    ensures Stored(-1000000.0) == -1000000 && Stored(-2000000.0) == -2000000
  {
    StoredWhole(2000000);
    StoredWhole(1000000);
    StoredWhole(0);
    StoredWhole(-1000000);
    StoredWhole(-2000000);
    assert 2000000 as real == 2000000.0 && 1000000 as real == 1000000.0 && 0 as real == 0.0;
    assert -1000000 as real == -1000000.0 && -2000000 as real == -2000000.0;
  }

  lemma Submitted()
    ensures WellFormed(BankOf(Start))
    ensures Step(Start, SUBMIT) == Shop(NewWallet, [], [TwoCredits(Pending, false)], [], [])
  {
    hide Stored;
    Whole();
  }

  /** A posting in a one-wallet bank, from what it does to the wallet and what it writes. */
  lemma Posts(w: Wallet, ledger: seq<Entry>, kind: EntryKind, amount: real, origin: Origin, allowNegative: bool,
              w': Wallet, e: Entry)
    requires PostRefusal(w, amount, allowNegative) == None
    requires Charged(w, kind, amount) == w' && EntryFor("t", w, kind, amount, origin) == e
    ensures Post(Bank(map["t" := w], [], ledger), "t", kind, amount, origin, allowNegative)
         == Success(Bank(map["t" := w'], [], ledger + [e]))
  {
    hide Charged, EntryFor, PostRefusal;
    var bank := Bank(map["t" := w], [], ledger);
    assert WalletOf(bank, "t") == w && bank.wallets["t" := w'] == map["t" := w'];
  }

  lemma Paid(stale: seq<StaleWrite>)
    ensures WellFormed(BankOf(Shop(NewWallet, [], [TwoCredits(Pending, false)], stale, [])))
    ensures Step(Shop(NewWallet, [], [TwoCredits(Pending, false)], stale, []), PAY)
         == Shop(CREDITED, [CREDIT], [TwoCredits(Status.Completed, true)], stale, [])
  {
    hide Stored, Post;
    Whole();
    assert 2000000 as real == 2000000.0;
    assert Charged(NewWallet, Purchase, 2000000.0) == CREDITED;
    Posts(NewWallet, [], Purchase, 2000000.0, ForPurchase(0), false, CREDITED, CREDIT);
    assert [] + [CREDIT] == [CREDIT];
  }

  /** A run goes on by steps whose result is known. */
  lemma Goes(ops: seq<Op>, s: System, op: Op, s': System)
    requires StateAfter(ops) == s && WellFormed(BankOf(s)) && Step(s, op) == s'
    ensures StateAfter(ops + [op]) == s'
  {
    hide Step, StateAfter, SystemInv, WellFormed;
    OneMoreStep(ops, op);
  }

  lemma Begins()
    ensures StateAfter([SUBMIT]) == Shop(NewWallet, [], [TwoCredits(Pending, false)], [], [])
    ensures StateAfter([SUBMIT, PAY]) == Shop(CREDITED, [CREDIT], [TwoCredits(Status.Completed, true)], [], [])
  {
    hide Step, WellFormed;
    assert StateAfter([]) == Start;
    hide StateAfter;
    Submitted();
    Paid([]);
    Goes([], Start, SUBMIT, Shop(NewWallet, [], [TwoCredits(Pending, false)], [], []));
    assert [] + [SUBMIT] == [SUBMIT] && [SUBMIT] + [PAY] == [SUBMIT, PAY];
    Goes([SUBMIT], Shop(NewWallet, [], [TwoCredits(Pending, false)], [], []), PAY,
         Shop(CREDITED, [CREDIT], [TwoCredits(Status.Completed, true)], [], []));
  }

  // ---- REFUNDED with less paid back than the amount

  const CASH_ONE := RefundRow("t", Some(0), 1000000, Cash, Done)
  const DEAD := IssueRefund("t", 1000000.0, Cash, Some(0), DiedBefore)
  const REST := IssueRefund("t", 1000000.0, Cash, Some(0), CardAccepted)
  const HALF_BACK := Wallet(1000000, 0, 2000000, 0, 1000000, 0, Active, None)
  const REFUND_ONE := Entry("t", Refund, -1000000, 2000000, 1000000, ForRefund(1))

  lemma DiesWaiting()
    ensures Step(Shop(CREDITED, [CREDIT], [TwoCredits(Status.Completed, true)], [], []), DEAD)
         == Shop(CREDITED, [CREDIT], [TwoCredits(Status.Completed, true)], [], [CASH_ONE.(status := Waiting)])
  {
    hide Stored, Post;
    Whole();
    var d := Shop(CREDITED, [CREDIT], [TwoCredits(Status.Completed, true)], [], []).office.desk;
    assert RefundedSoFar(d.refunds, 0) == 0;
    assert Touch(d.tables.bank, "t") == d.tables.bank;
  }

  lemma RestRefunded()
    ensures var waiting := CASH_ONE.(status := Waiting);
      Step(Shop(CREDITED, [CREDIT], [TwoCredits(Status.Completed, true)], [], [waiting]), REST)
        == Shop(HALF_BACK, [CREDIT, REFUND_ONE], [TwoCredits(Status.Refunded, true)], [], [waiting, CASH_ONE])
  {
    hide Stored, Post;
    Whole();
    var waiting := CASH_ONE.(status := Waiting);
    var d := Shop(CREDITED, [CREDIT], [TwoCredits(Status.Completed, true)], [], [waiting]).office.desk;
    assert d.refunds[..0] == [] && RefundedSoFar([], 0) == 0;
    assert RefundedSoFar(d.refunds, 0) == 1000000;
    assert Touch(d.tables.bank, "t") == d.tables.bank;
    assert Charged(CREDITED, Refund, -1000000.0) == HALF_BACK;
    assert EntryFor("t", CREDITED, Refund, -1000000.0, ForRefund(1)) == REFUND_ONE;
    Posts(CREDITED, [CREDIT], Refund, -1000000.0, ForRefund(1), true, HALF_BACK, REFUND_ONE);
    assert [CREDIT] + [REFUND_ONE] == [CREDIT, REFUND_ONE] && [waiting] + [CASH_ONE] == [waiting, CASH_ONE];
  }

  /** A process dies after it has created a PENDING refund of half a purchase, then a cash refund of
      the rest completes: the purchase is REFUNDED with half of it paid back. */
  lemma RefundedWithHalfPaidBack()
    ensures var s := StateAfter([SUBMIT, PAY, DEAD, REST]);
      && Reaches([SUBMIT, PAY, DEAD, REST], s)
      && RowsOf(s)[..] == [TwoCredits(Status.Refunded, true)]
      && PaidBack(s.office.desk.refunds, 0) == 1000000
  {
    hide Step, StateAfter;
    var waiting := CASH_ONE.(status := Waiting);
    var paid := Shop(CREDITED, [CREDIT], [TwoCredits(Status.Completed, true)], [], []);
    var dead := Shop(CREDITED, [CREDIT], [TwoCredits(Status.Completed, true)], [], [waiting]);
    Begins();
    DiesWaiting();
    RestRefunded();
    Goes([SUBMIT, PAY], paid, DEAD, dead);
    assert [SUBMIT, PAY] + [DEAD] == [SUBMIT, PAY, DEAD] && [SUBMIT, PAY, DEAD] + [REST] == [SUBMIT, PAY, DEAD, REST];
    Goes([SUBMIT, PAY, DEAD], dead, REST,
         Shop(HALF_BACK, [CREDIT, REFUND_ONE], [TwoCredits(Status.Refunded, true)], [], [waiting, CASH_ONE]));
    ReachedState([SUBMIT, PAY, DEAD, REST], StateAfter([SUBMIT, PAY, DEAD, REST]));
    assert [waiting, CASH_ONE][..1] == [waiting] && [waiting][..0] == [];
    assert PaidBack([], 0) == 0 && PaidBack([waiting], 0) == 0;
  }

  // ---- CANCELLED with the credits granted

  const CANCEL := CancelPurchase("t", 0)
  const LAND := LandStaleWrite(0)

  lemma SeenPending()
    ensures Step(Shop(NewWallet, [], [TwoCredits(Pending, false)], [], []), CANCEL)
         == Shop(NewWallet, [], [TwoCredits(Pending, false)], [StaleWrite(0, Cancelled)], [])
  {}

  lemma Landed()
    ensures Step(Shop(CREDITED, [CREDIT], [TwoCredits(Status.Completed, true)], [StaleWrite(0, Cancelled)], []), LAND)
         == Shop(CREDITED, [CREDIT], [TwoCredits(Cancelled, true)], [StaleWrite(0, Cancelled)], [])
  {}

  /** A cancellation reads the purchase PENDING, the payment completes it, the cancellation writes. */
  lemma CancelledWithCreditsGranted()
    ensures var s := StateAfter([SUBMIT, CANCEL, PAY, LAND]);
      && Reaches([SUBMIT, CANCEL, PAY, LAND], s) && LateWrite([SUBMIT, CANCEL, PAY, LAND], 0)
      && RowsOf(s)[..] == [TwoCredits(Cancelled, true)] && Entries(s, 0) == 1
      && WalletOf(BankOf(s), "t").balance == 2000000
  {
    hide Step, StateAfter;
    var seen := [StaleWrite(0, Cancelled)];
    var pending := Shop(NewWallet, [], [TwoCredits(Pending, false)], seen, []);
    var paid := Shop(CREDITED, [CREDIT], [TwoCredits(Status.Completed, true)], seen, []);
    var ops := [SUBMIT, CANCEL, PAY, LAND];
    Begins();
    SeenPending();
    Paid(seen);
    Landed();
    Goes([SUBMIT], Shop(NewWallet, [], [TwoCredits(Pending, false)], [], []), CANCEL, pending);
    assert [SUBMIT] + [CANCEL] == [SUBMIT, CANCEL] && [SUBMIT, CANCEL] + [PAY] == [SUBMIT, CANCEL, PAY];
    Goes([SUBMIT, CANCEL], pending, PAY, paid);
    assert [SUBMIT, CANCEL, PAY] + [LAND] == ops && ops[..3] == [SUBMIT, CANCEL, PAY];
    Goes([SUBMIT, CANCEL, PAY], paid, LAND, Shop(CREDITED, [CREDIT], [TwoCredits(Cancelled, true)], seen, []));
    ReachedState(ops, StateAfter(ops));
    assert [CREDIT][..0] == [] && EntriesFor([], 0) == 0 && EntriesFor([CREDIT], 0) == 1;
    assert LandsLate(StateAfter(ops[..3]), ops[3], 0);
  }

  // ---- paid and not credited

  const CLAW := Adjust("t", AdminAdjustment, -2000000.0)
  const ALL_BACK := IssueRefund("t", 2000000.0, Cash, Some(0), CardAccepted)
  const SUBMIT_ONE := SubmitPurchase("t", Stripe, 1000000.0, 0)
  const PAY_ONE := StripeWebhook(SessionCompleted(1, true, None, true))
  const EMPTIED := Wallet(0, 0, 2000000, 0, 0, -2000000, Active, None)
  const OVERDRAWN := Wallet(-2000000, 0, 2000000, 0, 2000000, -2000000, Active, None)
  const CLAWED := Entry("t", AdminAdjustment, -2000000, 2000000, 0, ByAdmin)
  const REFUND_ALL := Entry("t", Refund, -2000000, 0, -2000000, ForRefund(0))
  const CASH_ALL := RefundRow("t", Some(0), 2000000, Cash, Done)
  const ONE_CREDIT := CreditPurchase("t", Stripe, 1000000, Pending, false, 0)

  lemma Clawed()
    ensures Step(Shop(CREDITED, [CREDIT], [TwoCredits(Status.Completed, true)], [], []), CLAW)
         == Shop(EMPTIED, [CREDIT, CLAWED], [TwoCredits(Status.Completed, true)], [], [])
  {
    hide Stored, Post;
    Whole();
    assert Charged(CREDITED, AdminAdjustment, -2000000.0) == EMPTIED;
    assert EntryFor("t", CREDITED, AdminAdjustment, -2000000.0, ByAdmin) == CLAWED;
    Posts(CREDITED, [CREDIT], AdminAdjustment, -2000000.0, ByAdmin, false, EMPTIED, CLAWED);
    assert [CREDIT] + [CLAWED] == [CREDIT, CLAWED];
  }

  lemma RefundedAll()
    ensures Step(Shop(EMPTIED, [CREDIT, CLAWED], [TwoCredits(Status.Completed, true)], [], []), ALL_BACK)
         == Shop(OVERDRAWN, [CREDIT, CLAWED, REFUND_ALL], [TwoCredits(Status.Refunded, true)], [], [CASH_ALL])
  {
    hide Stored, Post;
    Whole();
    var d := Shop(EMPTIED, [CREDIT, CLAWED], [TwoCredits(Status.Completed, true)], [], []).office.desk;
    assert RefundedSoFar(d.refunds, 0) == 0;
    assert Touch(d.tables.bank, "t") == d.tables.bank;
    assert Charged(EMPTIED, Refund, -2000000.0) == OVERDRAWN;
    assert EntryFor("t", EMPTIED, Refund, -2000000.0, ForRefund(0)) == REFUND_ALL;
    Posts(EMPTIED, [CREDIT, CLAWED], Refund, -2000000.0, ForRefund(0), true, OVERDRAWN, REFUND_ALL);
    assert [CREDIT, CLAWED] + [REFUND_ALL] == [CREDIT, CLAWED, REFUND_ALL] && [] + [CASH_ALL] == [CASH_ALL];
  }

  lemma SubmittedOne(ledger: seq<Entry>, refunds: seq<RefundRow>)
    ensures Step(Shop(OVERDRAWN, ledger, [TwoCredits(Status.Refunded, true)], [], refunds), SUBMIT_ONE)
         == Shop(OVERDRAWN, ledger, [TwoCredits(Status.Refunded, true), ONE_CREDIT], [], refunds)
  {
    hide Stored;
    Whole();
    var bank := Bank(map["t" := OVERDRAWN], [], ledger);
    assert Touch(bank, "t") == bank;
    assert [TwoCredits(Status.Refunded, true)] + [ONE_CREDIT] == [TwoCredits(Status.Refunded, true), ONE_CREDIT];
  }

  lemma NotCredited(ledger: seq<Entry>, refunds: seq<RefundRow>)
    ensures var s := Shop(OVERDRAWN, ledger, [TwoCredits(Status.Refunded, true), ONE_CREDIT], [], refunds);
      Step(s, PAY_ONE) == s && ProvesPayment(s.office.desk.tables, PAY_ONE.event)
  {
    hide Stored;
  }

  /** All of a purchase is taken back by an administrator and refunded in cash as well. A later
      purchase of half of it is paid, and proved paid, and stays PENDING without credits. */
  lemma PaidAndNotCredited()
    ensures var ops := [SUBMIT, PAY, CLAW, ALL_BACK, SUBMIT_ONE, PAY_ONE];
      var s, before := StateAfter(ops), StateAfter(ops[..5]);
      && Reaches(ops, s) && ProvesPayment(before.office.desk.tables, PAY_ONE.event)
      && s == before && |RowsOf(s)| == 2 && RowsOf(s)[1] == ONE_CREDIT
  {
    hide Step, StateAfter, ProvesPayment;
    var ops := [SUBMIT, PAY, CLAW, ALL_BACK, SUBMIT_ONE, PAY_ONE];
    var done, back := [TwoCredits(Status.Completed, true)], [TwoCredits(Status.Refunded, true)];
    var ledger, refunds := [CREDIT, CLAWED, REFUND_ALL], [CASH_ALL];
    var end := Shop(OVERDRAWN, ledger, back + [ONE_CREDIT], [], refunds);
    Begins();
    Clawed();
    RefundedAll();
    SubmittedOne(ledger, refunds);
    NotCredited(ledger, refunds);
    assert ops[..2] == [SUBMIT, PAY] && ops[..3] == ops[..2] + [CLAW] && ops[..4] == ops[..3] + [ALL_BACK];
    assert ops[..5] == ops[..4] + [SUBMIT_ONE] && ops == ops[..5] + [PAY_ONE];
    Goes(ops[..2], Shop(CREDITED, [CREDIT], done, [], []), CLAW, Shop(EMPTIED, [CREDIT, CLAWED], done, [], []));
    Goes(ops[..3], Shop(EMPTIED, [CREDIT, CLAWED], done, [], []), ALL_BACK, Shop(OVERDRAWN, ledger, back, [], refunds));
    Goes(ops[..4], Shop(OVERDRAWN, ledger, back, [], refunds), SUBMIT_ONE, end);
    Goes(ops[..5], end, PAY_ONE, end);
    ReachedState(ops, StateAfter(ops));
  }

  // ---- paid out twice

  const SHUT := ChangeSettings("t", Some(Closed), None)
  const CLOSED_WALLET := CREDITED.(status := Closed)
  const LOST := CASH_ALL.(status := Failed)

  lemma ShutDown()
    ensures Step(Shop(CREDITED, [CREDIT], [TwoCredits(Status.Completed, true)], [], []), SHUT)
         == Shop(CLOSED_WALLET, [CREDIT], [TwoCredits(Status.Completed, true)], [], [])
  {
    assert map["t" := CREDITED]["t" := CLOSED_WALLET] == map["t" := CLOSED_WALLET];
  }

  lemma TwoCreditsAsked()
    ensures RequestFor(2000000.0) == CardRequest(Some(200))
  {
    assert (2005000.0 / 10000.0).Floor == 200;
  }

  /** The closed wallet refuses the posting, so the refund that was asked for is marked FAILED. */
  lemma RefusedByTheWallet(d: Desk)
    requires d.tables.bank == Bank(map["t" := CLOSED_WALLET], [], [CREDIT])
    requires !Turned(d.tables.purchases, d.refunds, "t", 2000000.0, Cash, Some(0))
    ensures Create(d, "t", 2000000.0, Cash, Some(0), CardAccepted) == d.(refunds := d.refunds + [LOST])
  {
    hide Turned, Stored, InFull;
    Whole();
    var bank := d.tables.bank;
    assert Touch(bank, "t") == bank && WalletOf(bank, "t").status == Closed;
    assert PostRefusal(CLOSED_WALLET, -2000000.0, true) == Some(WalletClosed);
  }

  lemma StillOpen(refunds: seq<RefundRow>)
    requires RefundedSoFar(refunds, 0) == 0
    ensures !Turned([TwoCredits(Status.Completed, true)], refunds, "t", 2000000.0, Cash, Some(0))
    ensures RefundedSoFar(refunds + [LOST], 0) == 0
  {
    assert (refunds + [LOST])[..|refunds|] == refunds;
  }

  lemma PaidOut(refunds: seq<RefundRow>, paid: int)
    requires RefundedSoFar(refunds, 0) == 0
    ensures var s := Shop(CLOSED_WALLET, [CREDIT], [TwoCredits(Status.Completed, true)], [], refunds);
      && Step(s, ALL_BACK) == Shop(CLOSED_WALLET, [CREDIT], [TwoCredits(Status.Completed, true)], [], refunds + [LOST])
      && StepPayout(s, ALL_BACK, 0, paid) == 2000000 && RefundedSoFar(refunds + [LOST], 0) == 0
  {
    TwoCreditsAsked();
    StillOpen(refunds);
    hide Turned, RequestFor, Create, RefundedSoFar, Left;
    var s := Shop(CLOSED_WALLET, [CREDIT], [TwoCredits(Status.Completed, true)], [], refunds);
    RefusedByTheWallet(s.office.desk);
  }

  /** Two full cash refunds against a CLOSED wallet: the card network pays out twice the purchase, if
      it accepts both, and the books know of neither. */
  lemma PaidOutTwice()
    ensures var ops := [SUBMIT, PAY, SHUT, ALL_BACK, ALL_BACK];
      && Reaches(ops, StateAfter(ops)) && CardPaid(ops, 0) == 4000000
      && RowsOf(StateAfter(ops)) == [TwoCredits(Status.Completed, true)]
      && PaidBack(StateAfter(ops).office.desk.refunds, 0) == 0
  {
    hide Step, StateAfter, RefundedSoFar, StepPayout, CardPaid;
    var ops := [SUBMIT, PAY, SHUT, ALL_BACK, ALL_BACK];
    var done := [TwoCredits(Status.Completed, true)];
    var open := Shop(CREDITED, [CREDIT], done, [], []);
    var shut0, shut1 := Shop(CLOSED_WALLET, [CREDIT], done, [], []), Shop(CLOSED_WALLET, [CREDIT], done, [], [LOST]);
    Begins();
    ShutDown();
    NoneYet();
    NothingPaid();
    assert ops[..2] == [SUBMIT, PAY] && ops[..3] == ops[..2] + [SHUT] && ops[..4] == ops[..3] + [ALL_BACK];
    assert ops == ops[..4] + [ALL_BACK];
    PaidAppend(ops[..2], SHUT);
    NoCallNoPayout(StateAfter(ops[..2]), SHUT, CardPaid(ops[..2], 0));
    PaidOut([], 0);
    assert [] + [LOST] == [LOST];
    PaidOut([LOST], 2000000);
    Goes(ops[..2], open, SHUT, shut0);
    Goes(ops[..3], shut0, ALL_BACK, shut1);
    Goes(ops[..4], shut1, ALL_BACK, Shop(CLOSED_WALLET, [CREDIT], done, [], [LOST] + [LOST]));
    ReachedState(ops, StateAfter(ops));
    PaidAppend(ops[..3], ALL_BACK);
    PaidAppend(ops[..4], ALL_BACK);
    assert ([LOST] + [LOST])[..1] == [LOST] && [LOST][..0] == [];
    assert PaidBack([], 0) == 0 && PaidBack([LOST], 0) == 0;
  }

  lemma NoneYet()
    ensures RefundedSoFar([], 0) == 0
  {}

  lemma PaidAppend(ops: seq<Op>, op: Op)
    ensures CardPaid(ops + [op], 0) == CardPaid(ops, 0) + StepPayout(StateAfter(ops), op, 0, CardPaid(ops, 0))
  {
    hide StepPayout, StateAfter;
    assert (ops + [op])[..|ops|] == ops;
  }

  lemma NoCallNoPayout(s: System, op: Op, paid: int)
    requires CallOf(s, op).None?
    ensures StepPayout(s, op, 0, paid) == 0
  {}

  lemma NothingPaid()
    ensures CardPaid([SUBMIT, PAY], 0) == 0
  {
    hide StateAfter, StepPayout;
    assert [SUBMIT, PAY] == [SUBMIT] + [PAY] && [SUBMIT] == [] + [SUBMIT];
    PaidAppend([], SUBMIT);
    PaidAppend([SUBMIT], PAY);
    NoCallNoPayout(StateAfter([]), SUBMIT, 0);
    NoCallNoPayout(StateAfter([SUBMIT]), PAY, 0);
  }

  // ---- paid out beside the books, with an open wallet

  const FRACTION := IssueRefund("t", 4000.0, Cash, Some(0), CardAccepted)
  const FRACTION_BACK := Wallet(1996000, 0, 2000000, 0, 4000, 0, Active, None)
  const REFUND_FRACTION := Entry("t", Refund, -4000, 2000000, 1996000, ForRefund(0))
  const CASH_FRACTION := RefundRow("t", Some(0), 4000, Cash, Done)

  lemma Fractions()
    ensures RequestFor(4000.0) == CardRequest(None) && RequestFor(5000.0) == CardRequest(Some(1))
    ensures Stored(4000.0) == 4000 && Stored(-4000.0) == -4000 && Stored(5000.0) == 5000 && Stored(1996000.0) == 1996000
  {
    assert (9000.0 / 10000.0).Floor == 0 && (10000.0 / 10000.0).Floor == 1;
    StoredWhole(4000);
    StoredWhole(-4000);
    StoredWhole(5000);
    StoredWhole(1996000);
    assert 4000 as real == 4000.0 && -4000 as real == -4000.0 && 5000 as real == 5000.0 && 1996000 as real == 1996000.0;
  }

  lemma FractionRefunded()
    ensures Step(Shop(CREDITED, [CREDIT], [TwoCredits(Status.Completed, true)], [], []), FRACTION)
         == Shop(FRACTION_BACK, [CREDIT, REFUND_FRACTION], [TwoCredits(Status.Completed, true)], [], [CASH_FRACTION])
    ensures var s := Shop(CREDITED, [CREDIT], [TwoCredits(Status.Completed, true)], [], []);
      StepPayout(s, FRACTION, 0, 0) == 2000000
  {
    hide Stored, Post, RequestFor;
    Fractions();
    var d := Shop(CREDITED, [CREDIT], [TwoCredits(Status.Completed, true)], [], []).office.desk;
    assert RefundedSoFar(d.refunds, 0) == 0;
    assert Touch(d.tables.bank, "t") == d.tables.bank;
    assert Charged(CREDITED, Refund, -4000.0) == FRACTION_BACK;
    assert EntryFor("t", CREDITED, Refund, -4000.0, ForRefund(0)) == REFUND_FRACTION;
    Posts(CREDITED, [CREDIT], Refund, -4000.0, ForRefund(0), true, FRACTION_BACK, REFUND_FRACTION);
    assert [CREDIT] + [REFUND_FRACTION] == [CREDIT, REFUND_FRACTION] && [] + [CASH_FRACTION] == [CASH_FRACTION];
  }

  /** A cash refund of 0.004 credits, with an open wallet and a network that keeps to the charge: all
      of the two credits is paid out, and the books have 0.004. */
  lemma FractionPaysAll()
    ensures var ops := [SUBMIT, PAY, FRACTION];
      && Reaches(ops, StateAfter(ops)) && WithinCharge(ops, 0) && PaidUnbooked(ops, 0) == 0
      && CardPaid(ops, 0) == 2000000 && PaidBack(StateAfter(ops).office.desk.refunds, 0) == 4000
      && RowsOf(StateAfter(ops)) == [TwoCredits(Status.Completed, true)]
      && WalletOf(BankOf(StateAfter(ops)), "t").status == Active
  {
    hide Step, StateAfter, StepPayout, CardPaid, WithinCharge, PaidUnbooked;
    var ops := [SUBMIT, PAY, FRACTION];
    var done := [TwoCredits(Status.Completed, true)];
    var paid := Shop(CREDITED, [CREDIT], done, [], []);
    var end := Shop(FRACTION_BACK, [CREDIT, REFUND_FRACTION], done, [], [CASH_FRACTION]);
    Begins();
    NothingPaid();
    FractionRefunded();
    assert ops == [SUBMIT, PAY] + [FRACTION];
    Goes([SUBMIT, PAY], paid, FRACTION, end);
    ReachedState(ops, StateAfter(ops));
    PaidAppend([SUBMIT, PAY], FRACTION);
    BoughtWithinCharge();
    ChargeOfTwoCredits(paid);
    WithinAppend([SUBMIT, PAY], FRACTION);
    assert [CASH_FRACTION][..0] == [] && PaidBack([], 0) == 0;
  }

  lemma ChargeOfTwoCredits(s: System)
    requires RowsOf(s) == [TwoCredits(Status.Completed, true)]
    ensures Charge(s, 0) == 2000000
  {}

  lemma WithinAppend(ops: seq<Op>, op: Op)
    ensures var s, paid := StateAfter(ops), CardPaid(ops, 0);
      WithinCharge(ops + [op], 0) <==> WithinCharge(ops, 0) && StepPayout(s, op, 0, paid) <= Left(s, 0, paid)
    ensures var s, paid := StateAfter(ops), CardPaid(ops, 0);
      CallOf(s, op).Some? && IsBooked(s.office.desk, CallOf(s, op).value) ==>
        PaidUnbooked(ops + [op], 0) == PaidUnbooked(ops, 0)
    ensures CallOf(StateAfter(ops), op).None? ==> PaidUnbooked(ops + [op], 0) == PaidUnbooked(ops, 0)
  {
    hide StepPayout, StateAfter;
    assert (ops + [op])[..|ops|] == ops;
  }

  lemma BoughtWithinCharge()
    ensures WithinCharge([SUBMIT, PAY], 0) && PaidUnbooked([SUBMIT, PAY], 0) == 0
  {
    hide StateAfter, StepPayout;
    assert [SUBMIT, PAY] == [SUBMIT] + [PAY] && [SUBMIT] == [] + [SUBMIT];
    WithinAppend([], SUBMIT);
    WithinAppend([SUBMIT], PAY);
    NoCallNoPayout(StateAfter([]), SUBMIT, CardPaid([], 0));
    NoCallNoPayout(StateAfter([SUBMIT]), PAY, CardPaid([SUBMIT], 0));
  }

  const HALF_CENT := IssueRefund("t", 5000.0, Cash, Some(0), CardAccepted)

  /** The same call n times over, after the purchase. */
  function HalfCents(n: nat): seq<Op> { [SUBMIT, PAY] + seq(n, _ => HALF_CENT) }

  /** n half cents are booked, and the wallet is open. */
  ghost predicate HalfCentsBooked(s: System, n: nat) {
    && RowsOf(s) == [TwoCredits(if n == 400 then Status.Refunded else Status.Completed, true)]
    && RefundedSoFar(s.office.desk.refunds, 0) == PaidBack(s.office.desk.refunds, 0) == 5000 * n
    && WalletOf(BankOf(s), "t").status == Active && WalletOf(BankOf(s), "t").suspendThreshold == None
  }

  lemma HalfCentWallet(w: Wallet)
    requires w.status == Active && w.suspendThreshold == None
    ensures PostRefusal(w, -5000.0, true) == None
    ensures Charged(w, Refund, -5000.0).status == Active && Charged(w, Refund, -5000.0).suspendThreshold == None
  {
    hide Stored;
  }

  lemma HalfCentStep(s: System, n: nat, paid: int)
    requires HalfCentsBooked(s, n) && n < 400 && WellFormed(BankOf(s))
    ensures HalfCentsBooked(Step(s, HALF_CENT), n + 1) && StepPayout(s, HALF_CENT, 0, paid) == 10000
  {
    hide Stored, RequestFor, RefundedSoFar, PaidBack, Charged, EntryFor, PostRefusal;
    Fractions();
    var d := s.office.desk;
    var bank := Touch(d.tables.bank, "t");
    var row := RefundRow("t", Some(0), 5000, Cash, Done);
    assert WalletOf(bank, "t") == WalletOf(d.tables.bank, "t");
    HalfCentWallet(WalletOf(bank, "t"));
    var d' := Step(s, HALF_CENT).office.desk;
    assert d'.refunds == d.refunds + [row];
    RowAdded(d.refunds, row);
    assert InFull(d.tables.purchases, d.refunds, 5000.0, Some(0)) <==> n + 1 == 400;
  }

  lemma RowAdded(rs: seq<RefundRow>, row: RefundRow)
    requires row.purchase == Some(0) && row.status == Done
    ensures RefundedSoFar(rs + [row], 0) == RefundedSoFar(rs, 0) + row.amount
    ensures PaidBack(rs + [row], 0) == PaidBack(rs, 0) + row.amount
  {
    assert (rs + [row])[..|rs|] == rs;
  }

  /** Cash refunds of half a cent: each books half a cent and pays a whole one. */
  lemma {:induction false} HalfCentsPayTwice(n: nat)
    requires n <= 400
    ensures HalfCentsBooked(StateAfter(HalfCents(n)), n) && CardPaid(HalfCents(n), 0) == 10000 * n
  {
    hide Step, StateAfter, CardPaid, StepPayout, SystemInv, WellFormed;
    if n == 0 {
      assert HalfCents(0) == [SUBMIT, PAY];
      Begins();
      NothingPaid();
      NoneYet();
      assert PaidBack([], 0) == 0;
    } else {
      HalfCentsPayTwice(n - 1);
      var before := HalfCents(n - 1);
      assert HalfCents(n) == before + [HALF_CENT];
      OneMoreStep(before, HALF_CENT);
      HalfCentStep(StateAfter(before), n - 1, CardPaid(before, 0));
      PaidAppend(before, HALF_CENT);
    }
  }

  /** Half way through, the charge is paid out and the purchase is COMPLETED with half of it refunded.
      After four hundred of them the books have all of it refunded, once, and a network that accepts
      them all has paid it twice: the bound of twice the amount is reached. */
  lemma HalfCentsRun()
    ensures Reaches(HalfCents(400), StateAfter(HalfCents(400)))
    ensures var s := StateAfter(HalfCents(200));
      CardPaid(HalfCents(200), 0) == Charge(s, 0) && PaidBack(s.office.desk.refunds, 0) == 1000000
      && RowsOf(s)[..] == [TwoCredits(Status.Completed, true)]
    ensures var s := StateAfter(HalfCents(400));
      CardPaid(HalfCents(400), 0) == 4000000 && PaidBack(s.office.desk.refunds, 0) == 2000000
      && RowsOf(s)[..] == [TwoCredits(Status.Refunded, true)] && WalletOf(BankOf(s), "t").status == Active
  {
    hide StateAfter, CardPaid, Reaches, PaidBack, RefundedSoFar;
    HalfCentsPayTwice(200);
    HalfCentsPayTwice(400);
    ChargeOfTwoCredits(StateAfter(HalfCents(200)));
    ReachedState(HalfCents(400), StateAfter(HalfCents(400)));
  }

  const UNHEARD := IssueRefund("t", 2000000.0, Cash, Some(0), AnswerLost)

  lemma Unheard()
    ensures var s := Shop(CREDITED, [CREDIT], [TwoCredits(Status.Completed, true)], [], []);
      && Step(s, UNHEARD) == Shop(CREDITED, [CREDIT], [TwoCredits(Status.Completed, true)], [], [LOST])
      && StepPayout(s, UNHEARD, 0, 0) == 2000000
  {
    hide Stored, Post, RequestFor;
    Whole();
    TwoCreditsAsked();
    var d := Shop(CREDITED, [CREDIT], [TwoCredits(Status.Completed, true)], [], []).office.desk;
    assert RefundedSoFar(d.refunds, 0) == 0;
    assert Touch(d.tables.bank, "t") == d.tables.bank;
    assert [] + [LOST] == [LOST];
  }

  /** The network pays a full cash refund and its answer gets lost: the refund is FAILED, the wallet
      keeps its credits and the whole purchase can be refunded again. */
  lemma PaidAndFailed()
    ensures var ops := [SUBMIT, PAY, UNHEARD];
      && Reaches(ops, StateAfter(ops)) && CardPaid(ops, 0) == 2000000
      && StateAfter(ops) == Shop(CREDITED, [CREDIT], [TwoCredits(Status.Completed, true)], [], [LOST])
      && RefundedSoFar([LOST], 0) == 0
  {
    hide Step, StateAfter, StepPayout, CardPaid;
    var ops := [SUBMIT, PAY, UNHEARD];
    Begins();
    NothingPaid();
    Unheard();
    assert ops == [SUBMIT, PAY] + [UNHEARD];
    Goes([SUBMIT, PAY], Shop(CREDITED, [CREDIT], [TwoCredits(Status.Completed, true)], [], []), UNHEARD,
         Shop(CREDITED, [CREDIT], [TwoCredits(Status.Completed, true)], [], [LOST]));
    ReachedState(ops, StateAfter(ops));
    PaidAppend([SUBMIT, PAY], UNHEARD);
    assert [LOST][..0] == [] && RefundedSoFar([], 0) == 0;
  }

  // ---- paid too late

  const SWEEP := SweepPurchases(1)
  const PAY_LATE := StripeWebhook(AsyncPaymentSucceeded(0, None, true))

  lemma SweptAndPaid()
    ensures Step(Shop(NewWallet, [], [TwoCredits(Pending, false)], [], []), SWEEP)
         == Shop(NewWallet, [], [TwoCredits(TimedOut, false)], [], [])
    ensures var s := Shop(NewWallet, [], [TwoCredits(TimedOut, false)], [], []);
      Step(s, PAY_LATE) == s && ProvesPayment(s.office.desk.tables, PAY_LATE.event)
  {}

  /** An asynchronous payment settles after the sweep has timed the purchase out: it is paid, proved
      paid, the wallet is open, and there are no credits and never will be any. */
  lemma PaidTooLate()
    ensures var ops := [SUBMIT, SWEEP, PAY_LATE];
      && Reaches(ops, StateAfter(ops))
      && ProvesPayment(StateAfter(ops[..2]).office.desk.tables, PAY_LATE.event)
      && StateAfter(ops) == StateAfter(ops[..2]) == Shop(NewWallet, [], [TwoCredits(TimedOut, false)], [], [])
      && forall more :: Entries(StateAfter(ops + more), 0) == 0
  {
    hide Step, StateAfter;
    var ops := [SUBMIT, SWEEP, PAY_LATE];
    var pending, swept := Shop(NewWallet, [], [TwoCredits(Pending, false)], [], []),
                          Shop(NewWallet, [], [TwoCredits(TimedOut, false)], [], []);
    Begins();
    SweptAndPaid();
    assert ops[..2] == [SUBMIT] + [SWEEP] && ops == ops[..2] + [PAY_LATE];
    Goes([SUBMIT], pending, SWEEP, swept);
    Goes(ops[..2], swept, PAY_LATE, swept);
    ReachedState(ops, StateAfter(ops));
    forall more ensures Entries(StateAfter(ops + more), 0) == 0 { LostForGood(ops, more, 0); }
  }

  // ---- a margin that is not charge less cost

  const NO_RATES := Pricing.Rates(0, 0, 0, 0, 0, 0)

  /** One prompt token costs 0.4 millionths and is charged at 0.6. */
  const PRICE := Pricing.PriceRow("m", Pricing.Global, true, 0, None,
    NO_RATES.(input := 400000), NO_RATES.(input := 600000))
  const ONE_TOKEN := Pricing.Usage(1, 0, 0, 0, 0, 0)

  const GRANT := Adjust("t", ManualCredit, 1000000.0)
  const PREPARE := PrepareCall("t", Some(PRICE), true, true, 1, 0, 0)
  const SETTLE := SettleCall(0, true, ONE_TOKEN)
  const GRANTED := Wallet(1000000, 0, 0, 0, 0, 1000000, Active, None)
  const GRANT_ENTRY := Entry("t", ManualCredit, 1000000, 0, 1000000, ByAdmin)
  const TICKET := Ticket("t", true, Some(0), Some(PRICE), 1, 0)
  const HOLD := Hold("t", 1, Held, 0, 0)
  const LOG := UsageLog("t", 0, 1, 0, Some(0), ChargedLog)

  function Till(w: Wallet, holds: seq<Hold>, ledger: seq<Entry>, tickets: seq<Ticket>, logs: seq<UsageLog>): System {
    System(Office(Desk(Tables(Bank(map["t" := w], holds, ledger), [], []), []), []), tickets, logs)
  }

  lemma TokenPrices()
    ensures CostOf(TICKET, ONE_TOKEN) == Pricing.Cost(0.4, 0.6, 0.2)
    ensures Pricing.EstimateCharge(PRICE, 1, 0) == 0.6
    ensures Stored(0.6) == 1 && Stored(0.4) == 0 && Stored(0.2) == 0 && Stored(-0.6) == -1
    ensures Stored(1000000.0 - 0.6) == 999999 && !RoundingsAgree(0.6, 0.4)
  {
    StoredUnique(0.6, 1);
    StoredUnique(0.4, 0);
    StoredUnique(0.2, 0);
    StoredUnique(-0.6, -1);
    StoredUnique(1000000.0 - 0.6, 999999);
    MarginRounding(0.6, 0.4);
    assert 0.6 - 0.4 == 0.2;
  }

  lemma Granted()
    ensures Step(Start, GRANT) == Till(GRANTED, [], [GRANT_ENTRY], [], [])
  {
    hide Stored;
    Whole();
    assert EntryFor("t", NewWallet, ManualCredit, 1000000.0, ByAdmin) == GRANT_ENTRY;
    assert Charged(NewWallet, ManualCredit, 1000000.0) == GRANTED;
    assert [] + [GRANT_ENTRY] == [GRANT_ENTRY];
  }

  lemma Reserved()
    ensures Reserve(Bank(map["t" := GRANTED], [], [GRANT_ENTRY]), "t", 0.6, 0)
         == Success(Bank(map["t" := GRANTED.(reserved := 1)], [HOLD], [GRANT_ENTRY]))
  {
    hide Stored, CostOf, RoundingsAgree, Pricing.EstimateCharge;
    TokenPrices();
    var bank := Bank(map["t" := GRANTED], [], [GRANT_ENTRY]);
    assert WalletOf(bank, "t") == GRANTED && ReserveRefusal(GRANTED, 0.6) == None;
    assert bank.wallets["t" := GRANTED.(reserved := 1)] == map["t" := GRANTED.(reserved := 1)];
    assert bank.holds + [HOLD] == [HOLD] && 0 as real + 0.6 == 0.6;
  }

  lemma Prepared()
    ensures Step(Till(GRANTED, [], [GRANT_ENTRY], [], []), PREPARE)
         == Till(GRANTED.(reserved := 1), [HOLD], [GRANT_ENTRY], [TICKET], [])
  {
    hide Stored, Pricing.EstimateCharge, Reserve, CostOf, RoundingsAgree;
    TokenPrices();
    Reserved();
    assert [] + [TICKET] == [TICKET];
  }

  lemma SettledOff()
    ensures WellFormed(BankOf(Till(GRANTED.(reserved := 1), [HOLD], [GRANT_ENTRY], [TICKET], [])))
    ensures Step(Till(GRANTED.(reserved := 1), [HOLD], [GRANT_ENTRY], [TICKET], []), SETTLE).logs == [LOG]
  {
    hide Stored, CostOf, Charged, EntryFor;
    TokenPrices();
    assert -0.0 == 0.0 && -0.6 != 0.0;
    assert LogFor(TICKET, ONE_TOKEN, true, ChargedLog) == LOG;
    assert [] + [LOG] == [LOG];
  }

  /** One token, prepared, charged and settled: the usage log has a charge of 1, a cost of 0 and a
      margin of 0 millionths. */
  lemma MarginCanBeOff()
    ensures var ops := [GRANT, PREPARE, SETTLE];
      && Reaches(ops, StateAfter(ops)) && StateAfter(ops).logs == [LOG]
      && LOG == LogFor(TICKET, ONE_TOKEN, true, ChargedLog) && LOG.margin != LOG.charge - LOG.cost
    ensures !RoundingsAgree(CostOf(TICKET, ONE_TOKEN).charge, CostOf(TICKET, ONE_TOKEN).provider)
  {
    hide Step, CostOf, RoundingsAgree, Stored;
    var ops := [GRANT, PREPARE, SETTLE];
    var granted := Till(GRANTED, [], [GRANT_ENTRY], [], []);
    var prepared := Till(GRANTED.(reserved := 1), [HOLD], [GRANT_ENTRY], [TICKET], []);
    assert StateAfter([]) == Start;
    hide StateAfter;
    Submitted();
    Granted();
    Prepared();
    SettledOff();
    TokenPrices();
    assert ops[..1] == [] + [GRANT] && ops[..2] == ops[..1] + [PREPARE] && ops == ops[..2] + [SETTLE];
    Goes([], Start, GRANT, granted);
    Goes(ops[..1], granted, PREPARE, prepared);
    OneMoreStep(ops[..2], SETTLE);
    ReachedState(ops, StateAfter(ops));
  }
}
