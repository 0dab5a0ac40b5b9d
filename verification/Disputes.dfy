/** Dispute outcomes. Every monetary one goes through the ledger, and a usage charge is reversed
    at most once. An admin action is one step. */
module Disputes {
  import opened Wrappers
  import opened Money
  import opened Bank
  import opened LedgerTotals
  import opened BankInvariant
  import opened Purchases
  import opened Refunds

  datatype DisputeStatus = Open | UnderInvestigation | AwaitingCustomer | Resolved | Shut

  datatype Dispute = Dispute(tenant: TenantId, status: DisputeStatus)

  datatype Action =
    | ApproveRefund(amount: real, kind: RefundKind, purchase: Option<nat>, card: CardOutcome)
    | Reject
    | IssueBonus(credits: real)
    | ReverseCharge(entry: nat)
    | ManualAdjustment(delta: real)
    | Escalate

  datatype Office = Office(desk: Desk, disputes: seq<Dispute>)

  function Marked(o: Office, d: nat, status: DisputeStatus): Office
    requires d < |o.disputes|
  {
    o.(disputes := o.disputes[d := o.disputes[d].(status := status)])
  }

  function WithBank(o: Office, bank: Bank): Office {
    o.(desk := o.desk.(tables := o.desk.tables.(bank := bank)))
  }

  /** Post an entry and resolve the dispute, or leave everything when the ledger refuses. */
  function PostAndResolve(o: Office, d: nat, kind: EntryKind, amount: real, origin: Origin): Office
    requires d < |o.disputes|
  {
    match Post(o.desk.tables.bank, o.disputes[d].tenant, kind, amount, origin, false)
    case Failure(_) => o
    case Success(bank) => Marked(WithBank(o, bank), d, Resolved)
  }

  /** Approve a refund; the dispute is resolved only when the refund completed. */
  function RefundAndResolve(o: Office, d: nat, amount: real, kind: RefundKind, purchase: Option<nat>,
                            card: CardOutcome): Office
    requires d < |o.disputes|
  {
    var desk := Create(o.desk, o.disputes[d].tenant, amount, kind, purchase, card);
    var paid := |desk.refunds| > |o.desk.refunds| && desk.refunds[|desk.refunds| - 1].status == Done;
    if paid then Marked(o.(desk := desk), d, Resolved) else o.(desk := desk)
  }

  /** The charge may be reversed: it is this tenant's, and no reversal of it exists. */
  predicate Reversible(l: seq<Entry>, t: TenantId, k: nat) {
    && k < |l| && l[k].tenant == t && l[k].kind == UsageCharge
    && forall e :: e in l && e.tenant == t && e.kind == ChargeReversal ==> e.origin != ForEntry(k)
  }

  /** `DisputeService.adminAction`. */
  function AdminAction(o: Office, d: nat, action: Action): Office {
    if d >= |o.disputes| || o.disputes[d].status == Shut then o
    else
      var t, ledger := o.disputes[d].tenant, o.desk.tables.bank.ledger;
      match action
      case ApproveRefund(amount, kind, purchase, card) =>
        if kind == Cash && purchase.None? then o else RefundAndResolve(o, d, amount, kind, purchase, card)
      case Reject => Marked(o, d, Shut)
      case IssueBonus(credits) =>
        if credits <= 0.0 then o else PostAndResolve(o, d, BonusCredit, credits, ForDispute(d))
      case ReverseCharge(k) =>
        if Reversible(ledger, t, k)
        then PostAndResolve(o, d, ChargeReversal, -(ledger[k].amount as real), ForEntry(k))
        else o
      case ManualAdjustment(delta) =>
        if delta == 0.0 then o else PostAndResolve(o, d, DisputeResolution, delta, ForDispute(d))
      case Escalate => Marked(o, d, UnderInvestigation)
  }

  // ---- what every action keeps

  /** Reversals map injectively to earlier usage charges of the same tenant, with exactly the
      opposite amount. */
  ghost predicate ReversalInv(l: seq<Entry>) {
    && (forall i :: 0 <= i < |l| && l[i].kind == ChargeReversal ==>
          && l[i].origin.ForEntry? && l[i].origin.entry < i
          && var c := l[l[i].origin.entry];
             c.kind == UsageCharge && c.tenant == l[i].tenant && l[i].amount == -c.amount)
    && (forall i, j :: 0 <= i < j < |l| && l[i].kind == ChargeReversal && l[j].kind == ChargeReversal ==>
          l[i].origin != l[j].origin)
  }

  lemma OtherEntryKeepsReversals(l: seq<Entry>, e: Entry)
    requires ReversalInv(l) && e.kind != ChargeReversal
    ensures ReversalInv(l + [e])
  {}

  lemma ReversalAppended(l: seq<Entry>, t: TenantId, k: nat, e: Entry)
    requires ReversalInv(l) && Reversible(l, t, k)
    requires e.kind == ChargeReversal && e.tenant == t && e.origin == ForEntry(k) && e.amount == -l[k].amount
    ensures ReversalInv(l + [e])
  {
    forall i | 0 <= i < |l| && l[i].kind == ChargeReversal ensures l[i].origin != e.origin {
      assert l[i] in l;
    }
  }

  /** The charges among the first m entries whose positions are in S. */
  function ChargesIn(l: seq<Entry>, S: set<nat>, m: nat): int
    requires m <= |l|
  {
    if m == 0 then 0 else ChargesIn(l, S, m - 1) + if m - 1 in S then -l[m - 1].amount else 0
  }

  lemma {:induction false} ChargesInAdd(l: seq<Entry>, S: set<nat>, k: nat, m: nat)
    requires m <= |l| && k !in S
    ensures ChargesIn(l, S + {k}, m) == ChargesIn(l, S, m) + if k < m then -l[k].amount else 0
  {
    if m > 0 { ChargesInAdd(l, S, k, m - 1); }
  }

  function Reversed(l: seq<Entry>, t: TenantId, n: nat): set<nat>
    requires n <= |l|
  {
    if n == 0 then {}
    else
      var e := l[n - 1];
      Reversed(l, t, n - 1)
      + if e.kind == ChargeReversal && e.tenant == t && e.origin.ForEntry? then {e.origin.entry} else {}
  }

  lemma {:induction false} ReversedFromEntry(l: seq<Entry>, t: TenantId, n: nat, k: nat)
    requires n <= |l| && k in Reversed(l, t, n)
    ensures exists i :: 0 <= i < n && l[i].kind == ChargeReversal && l[i].tenant == t && l[i].origin == ForEntry(k)
  {
    if n > 0 && k in Reversed(l, t, n - 1) { ReversedFromEntry(l, t, n - 1, k); }
  }

  lemma {:induction false} ReversalsPayForCharges(l: seq<Entry>, t: TenantId, n: nat)
    requires ReversalInv(l) && n <= |l|
    ensures Total(l[..n], t, OfKind(ChargeReversal)) == ChargesIn(l, Reversed(l, t, n), |l|)
  {
    if n == 0 {
      NothingIn(l, |l|);
    } else {
      ReversalsPayForCharges(l, t, n - 1);
      assert l[..n][..n - 1] == l[..n - 1];
      var e := l[n - 1];
      if e.kind == ChargeReversal && e.tenant == t {
        var k := e.origin.entry;
        if k in Reversed(l, t, n - 1) { ReversedFromEntry(l, t, n - 1, k); }
        ChargesInAdd(l, Reversed(l, t, n - 1), k, |l|);
      } else {
        assert Reversed(l, t, n) == Reversed(l, t, n - 1);
      }
    }
  }

  lemma {:induction false} NothingIn(l: seq<Entry>, m: nat)
    requires m <= |l|
    ensures ChargesIn(l, {}, m) == 0
  {
    if m > 0 { NothingIn(l, m - 1); }
  }

  lemma {:induction false} ChargesWithinUsage(l: seq<Entry>, t: TenantId, S: set<nat>, m: nat)
    requires m <= |l| && EntrySigns(l)
    requires forall k :: k in S && k < |l| ==> l[k].kind == UsageCharge && l[k].tenant == t
    ensures ChargesIn(l, S, m) <= Total(l[..m], t, Magnitude(UsageCharge))
  {
    if m > 0 {
      ChargesWithinUsage(l, t, S, m - 1);
      assert l[..m][..m - 1] == l[..m - 1];
      assert l[m - 1] in l;
    }
  }

  lemma ReversalsWithinUsage(l: seq<Entry>, t: TenantId)
    requires EntrySigns(l) && ReversalInv(l)
    ensures Total(l, t, OfKind(ChargeReversal)) <= Total(l, t, Magnitude(UsageCharge))
  {
    var S := Reversed(l, t, |l|);
    assert l[..|l|] == l;
    ReversalsPayForCharges(l, t, |l|);
    forall k | k in S && k < |l| ensures l[k].kind == UsageCharge && l[k].tenant == t {
      ReversedFromEntry(l, t, |l|, k);
    }
    ChargesWithinUsage(l, t, S, |l|);
  }

  /** A tenant is never paid back more than it was charged. */
  lemma ReversalsWithinConsumption(b: Bank, t: TenantId)
    requires Inv(b) && ReversalInv(b.ledger) && t in b.wallets
    ensures Total(b.ledger, t, OfKind(ChargeReversal)) <= b.wallets[t].consumed
  {
    ReversalsWithinUsage(b.ledger, t);
    assert TenantBooks(b.wallets[t], t, b.holds, b.ledger);
  }

  /** A second reversal of the same charge changes nothing at all. */
  lemma SecondReversalRefused(o: Office, d: nat, k: nat)
    requires AdminAction(o, d, ReverseCharge(k)).desk.tables.bank != o.desk.tables.bank
    ensures var o' := AdminAction(o, d, ReverseCharge(k));
      forall d': nat :: d' < |o'.disputes| && o'.disputes[d'].tenant == o.disputes[d].tenant ==>
        AdminAction(o', d', ReverseCharge(k)) == o'
  {
    var t := o.disputes[d].tenant;
    var ledger := o.desk.tables.bank.ledger;
    var o' := AdminAction(o, d, ReverseCharge(k));
    var e := EntryFor(t, WalletOf(o.desk.tables.bank, t), ChargeReversal, -(ledger[k].amount as real), ForEntry(k));
    assert o'.desk.tables.bank.ledger == ledger + [e];
    assert e in o'.desk.tables.bank.ledger;
  }

  ghost predicate OfficeInv(o: Office) { DeskInv(o.desk) && ReversalInv(o.desk.tables.bank.ledger) }

  lemma PostAndResolveKeeps(o: Office, d: nat, kind: EntryKind, amount: real, origin: Origin)
    requires OfficeInv(o) && d < |o.disputes|
    requires kind == BonusCredit || kind == DisputeResolution
      || (kind == ChargeReversal && origin.ForEntry?
          && Reversible(o.desk.tables.bank.ledger, o.disputes[d].tenant, origin.entry)
          && amount == -(o.desk.tables.bank.ledger[origin.entry].amount as real))
    ensures OfficeInv(PostAndResolve(o, d, kind, amount, origin))
  {
    var b, t := o.desk.tables.bank, o.disputes[d].tenant;
    if Post(b, t, kind, amount, origin, false).Success? {
      var e := EntryFor(t, WalletOf(b, t), kind, amount, origin);
      PostKeepsInv(b, t, kind, amount, origin, false);
      ForeignEntryKeepsDesk(o.desk, Post(b, t, kind, amount, origin, false).value, e);
      if kind == ChargeReversal {
        StoredWhole(-b.ledger[origin.entry].amount);
        ReversalAppended(b.ledger, t, origin.entry, e);
      } else {
        OtherEntryKeepsReversals(b.ledger, e);
      }
    }
  }

  /** An entry that is neither a purchase nor a refund does not concern the refund desk. */
  lemma ForeignEntryKeepsDesk(d: Desk, bank: Bank, e: Entry)
    requires DeskInv(d) && Inv(bank) && bank.ledger == d.tables.bank.ledger + [e]
    requires e.kind != Purchase && e.kind != Refund
    ensures DeskInv(d.(tables := d.tables.(bank := bank)))
  {
    OtherPostKeeps(d.tables, bank, e);
    forall t ensures Total(bank.ledger, t, OfKind(Refund)) == Total(d.tables.bank.ledger, t, OfKind(Refund)) {
      TotalAppend(d.tables.bank.ledger, e, t, OfKind(Refund));
    }
  }

  /** A refund call appends at most its own REFUND entry. */
  lemma RefundLedger(d: Desk, t: TenantId, amount: real, kind: RefundKind, purchase: Option<nat>, card: CardOutcome)
    ensures var l, l' := d.tables.bank.ledger, Create(d, t, amount, kind, purchase, card).tables.bank.ledger;
      l' == l || (|l'| == |l| + 1 && l' == l + [l'[|l|]] && l'[|l|].kind == Refund && l'[|l|].tenant == t)
  {
    if amount <= 0.0 || Turned(d.tables.purchases, d.refunds, t, amount, kind, purchase) || Dies(card) {
    } else if kind == Cash && Throws(card) {
    } else {
      var bank := Touch(d.tables.bank, t);
      var posted := Post(bank, t, Refund, Signed(kind, amount), ForRefund(|d.refunds|), kind == Cash);
      if posted.Success? {
        assert posted.value.ledger
            == d.tables.bank.ledger
               + [EntryFor(t, WalletOf(bank, t), Refund, Signed(kind, amount), ForRefund(|d.refunds|))];
      }
    }
  }

  lemma RefundAndResolveKeeps(o: Office, d: nat, amount: real, kind: RefundKind, purchase: Option<nat>,
                              card: CardOutcome)
    requires OfficeInv(o) && d < |o.disputes|
    ensures OfficeInv(RefundAndResolve(o, d, amount, kind, purchase, card))
  {
    var t, l := o.disputes[d].tenant, o.desk.tables.bank.ledger;
    var l' := Create(o.desk, t, amount, kind, purchase, card).tables.bank.ledger;
    CreateKeeps(o.desk, t, amount, kind, purchase, card);
    RefundLedger(o.desk, t, amount, kind, purchase, card);
    if l' != l { OtherEntryKeepsReversals(l, l'[|l|]); }
  }

  lemma MarkedKeeps(o: Office, d: nat, status: DisputeStatus)
    requires OfficeInv(o) && d < |o.disputes|
    ensures OfficeInv(Marked(o, d, status))
  {}

  lemma ReverseChargeKeeps(o: Office, d: nat, k: nat)
    requires OfficeInv(o) && d < |o.disputes|
    ensures OfficeInv(AdminAction(o, d, ReverseCharge(k)))
  {
    hide DeskInv, ReversalInv;
    var ledger := o.desk.tables.bank.ledger;
    if o.disputes[d].status != Shut && Reversible(ledger, o.disputes[d].tenant, k) {
      PostAndResolveKeeps(o, d, ChargeReversal, -(ledger[k].amount as real), ForEntry(k));
    }
  }

  lemma AdminActionKeeps(o: Office, d: nat, action: Action)
    requires OfficeInv(o)
    ensures OfficeInv(AdminAction(o, d, action))
  {
    hide DeskInv, ReversalInv;
    if d < |o.disputes| {
      match action
      case ApproveRefund(amount, kind, purchase, card) =>
        RefundAndResolveKeeps(o, d, amount, kind, purchase, card);
      case IssueBonus(credits) =>
        PostAndResolveKeeps(o, d, BonusCredit, credits, ForDispute(d));
      case ReverseCharge(k) =>
        ReverseChargeKeeps(o, d, k);
      case ManualAdjustment(delta) =>
        PostAndResolveKeeps(o, d, DisputeResolution, delta, ForDispute(d));
      case Reject =>
        MarkedKeeps(o, d, Shut);
      case Escalate =>
        MarkedKeeps(o, d, UnderInvestigation);
    }
  }

  /** The ledger has one more entry, of this tenant. */
  ghost predicate Posted(l: seq<Entry>, l': seq<Entry>, t: TenantId) {
    |l'| == |l| + 1 && l' == l + [l'[|l|]] && l'[|l|].tenant == t
  }

  /** A dispute becomes RESOLVED exactly when the action put an entry on its tenant's ledger. */
  lemma ResolvedExactlyWhenLedgered(o: Office, d: nat, action: Action)
    requires d < |o.disputes|
    ensures var o' := AdminAction(o, d, action);
      var l, l' := o.desk.tables.bank.ledger, o'.desk.tables.bank.ledger;
      && |o'.disputes| == |o.disputes|
      && (l' == l || Posted(l, l', o.disputes[d].tenant))
      && (l' != l ==> o'.disputes[d].status == Resolved)
      && (l' == l && o'.disputes[d].status == Resolved ==> o.disputes[d].status == Resolved)
  {
    hide Create;
    match action
    case ApproveRefund(amount, kind, purchase, card) =>
      RefundRowFollowsLedger(o.desk, o.disputes[d].tenant, amount, kind, purchase, card);
    case _ =>
  }

  /** A refund row is Done exactly when its entry was posted. */
  lemma RefundRowFollowsLedger(d: Desk, t: TenantId, amount: real, kind: RefundKind, purchase: Option<nat>,
                               card: CardOutcome)
    ensures var d' := Create(d, t, amount, kind, purchase, card);
      var l, l' := d.tables.bank.ledger, d'.tables.bank.ledger;
      && (l' == l || Posted(l, l', t))
      && (l' != l <==> |d'.refunds| > |d.refunds| && d'.refunds[|d'.refunds| - 1].status == Done)
  {
    RefundLedger(d, t, amount, kind, purchase, card);
  }
}
